/** The spaced schedules of download requests: the first synchronisation of a new company and
    the administrator's enqueue. */
module SatEnqueue {
  import opened RangeChunks

  const CFDI_CHUNK_DAYS := 90
  const SPACING := 3

  datatype DownloadType = Issued | Received

  datatype Event =
    | MetadataRequested(executeAt: int)
    | CreateQuery(downloadType: DownloadType, cfdi: bool, window: Chunk, isManual: bool, executeAt: int)
    | CompleteCfdis(ofType: DownloadType, start: int)
    | RequestScrap
  {
    predicate Scheduled() {
      MetadataRequested? || CreateQuery?
    }
  }

  /** The scheduled events of a list, in order. */
  function ScheduledOf(es: seq<Event>): seq<Event> {
    if es == [] then []
    else ScheduledOf(es[..|es| - 1]) + (if es[|es| - 1].Scheduled() then [es[|es| - 1]] else [])
  }

  /** The windows requested for one download type, in order. */
  function WindowsOf(es: seq<Event>, dt: DownloadType): seq<Chunk> {
    if es == [] then []
    else
      var e := es[|es| - 1];
      WindowsOf(es[..|es| - 1], dt) + (if e.CreateQuery? && e.downloadType == dt then [e.window] else [])
  }

  function ExecuteAt(e: Event): int
    requires e.Scheduled()
  {
    e.executeAt
  }

  /** The `k`-th scheduled event runs three seconds `k` times after the base time. */
  ghost predicate Paced(es: seq<Event>, base: int) {
    forall k :: 0 <= k < |es| ==> es[k].Scheduled() && ExecuteAt(es[k]) == base + k * 3
  }

  lemma {:induction false} WindowsConcat(a: seq<Event>, b: seq<Event>, dt: DownloadType)
    ensures WindowsOf(a + b, dt) == WindowsOf(a, dt) + WindowsOf(b, dt)
    decreases |b|
  {
    if b == [] {
      assert a + b == a;
    } else {
      WindowsConcat(a, b[..|b| - 1], dt);
      assert (a + b)[..|a + b| - 1] == a + b[..|b| - 1] && (a + b)[|a + b| - 1] == b[|b| - 1];
    }
  }

  lemma {:induction false} ScheduledConcat(a: seq<Event>, b: seq<Event>)
    ensures ScheduledOf(a + b) == ScheduledOf(a) + ScheduledOf(b)
    decreases |b|
  {
    if b == [] {
      assert a + b == a;
    } else {
      ScheduledConcat(a, b[..|b| - 1]);
      assert (a + b)[..|a + b| - 1] == a + b[..|b| - 1] && (a + b)[|a + b| - 1] == b[|b| - 1];
    }
  }

  // ------------------------------------------------------------ what is published

  /** The requests for one window, the first in slot `slot`. */
  function Row(base: int, slot: nat, w: Chunk, dts: seq<DownloadType>, cfdi: bool, isManual: bool): (es: seq<Event>)
    ensures |es| == |dts|
  {
    seq(|dts|, j requires 0 <= j < |dts| => CreateQuery(dts[j], cfdi, w, isManual, base + (slot + j) * SPACING))
  }

  /** The requests for all windows, from slot `slot` on. */
  function Rows(base: int, slot: nat, cs: seq<Chunk>, dts: seq<DownloadType>, cfdi: bool, isManual: bool): seq<Event>
    decreases |cs|
  {
    if cs == [] then []
    else Row(base, slot, cs[0], dts, cfdi, isManual) + Rows(base, slot + |dts|, cs[1..], dts, cfdi, isManual)
  }

  /** The first window's requests, and those of the others behind them. */
  lemma RowsStep(done: seq<Event>, base: int, slot: nat, cs: seq<Chunk>, i: nat, dts: seq<DownloadType>,
                 cfdi: bool, isManual: bool)
    requires i < |cs|
    ensures done + Rows(base, slot, cs[i..], dts, cfdi, isManual)
              == (done + Row(base, slot, cs[i], dts, cfdi, isManual)) + Rows(base, slot + |dts|, cs[i + 1..], dts, cfdi, isManual)
  {
    assert cs[i..][1..] == cs[i + 1..] && cs[i..][0] == cs[i];
  }

  const BOTH: seq<DownloadType> := [Issued, Received]

  function FirstSync(base: int, start: int, cs: seq<Chunk>, localInfra: bool): seq<Event> {
    [MetadataRequested(base)] + Rows(base, 1, cs, BOTH, true, false)
    + [CompleteCfdis(Issued, start), CompleteCfdis(Received, start)] + (if localInfra then [] else [RequestScrap])
  }

  /** `OnCompanyCreateAutoSync.Handle` */
  method CompanyCreated(base: int, start: int, endExclusive: int, localInfra: bool) returns (events: seq<Event>)
    ensures events == FirstSync(base, start, Chunks(start, endExclusive, CFDI_CHUNK_DAYS), localInfra)
    ensures SyncEvents(events, base, start, Chunks(start, endExclusive, 90), localInfra)
  {
    var slot := 0;
    events := [MetadataRequested(base + slot * SPACING)];
    slot := slot + 1;
    var chunks := ChunkRangeByDays(start, endExclusive, CFDI_CHUNK_DAYS);
    for i := 0 to |chunks|
      invariant slot > 0
      invariant events + Rows(base, slot, chunks[i..], BOTH, true, false)
                == [MetadataRequested(base)] + Rows(base, 1, chunks, BOTH, true, false)
    {
      ghost var row := Row(base, slot, chunks[i], BOTH, true, false);
      RowsStep(events, base, slot, chunks, i, BOTH, true, false);
      ghost var before := events;
      events := events + [CreateQuery(Issued, true, chunks[i], false, base + slot * SPACING)];
      slot := slot + 1;
      events := events + [CreateQuery(Received, true, chunks[i], false, base + slot * SPACING)];
      slot := slot + 1;
      assert events == before + row;
    }
    events := events + [CompleteCfdis(Issued, start)];
    events := events + [CompleteCfdis(Received, start)];
    if !localInfra {
      events := events + [RequestScrap];
    }
    FirstSyncEvents(base, start, chunks, localInfra);
  }

  /** The events of a first synchronisation, one by one: metadata at once; for each window a request for
      the CFDIs issued and one for those received, neither of them manual, three seconds apart;
      completion of both from the first day on; and a scrape, unless the infrastructure is local. */
  ghost predicate SyncEvents(es: seq<Event>, base: int, start: int, cs: seq<Chunk>, localInfra: bool) {
    var n := |cs|;
    && |es| == 2 * n + (if localInfra then 3 else 4)
    && es[0] == MetadataRequested(base)
    && (forall i :: 0 <= i < n ==>
          && es[2 * i + 1] == CreateQuery(Issued, true, cs[i], false, base + (2 * i + 1) * 3)
          && es[2 * i + 2] == CreateQuery(Received, true, cs[i], false, base + (2 * i + 2) * 3))
    && es[2 * n + 1] == CompleteCfdis(Issued, start) && es[2 * n + 2] == CompleteCfdis(Received, start)
    && (!localInfra ==> es[2 * n + 3] == RequestScrap)
  }

  /** The requests of the `i`-th window. */
  lemma {:induction false} RowsBoth(base: int, slot: nat, cs: seq<Chunk>, i: nat)
    requires i < |cs|
    ensures var es := Rows(base, slot, cs, BOTH, true, false);
            && |es| == 2 * |cs|
            && es[2 * i] == CreateQuery(Issued, true, cs[i], false, base + (slot + 2 * i) * 3)
            && es[2 * i + 1] == CreateQuery(Received, true, cs[i], false, base + (slot + 2 * i + 1) * 3)
    decreases |cs|
  {
    RowsCount(base, slot, cs, BOTH, true, false);
    if i > 0 {
      RowsBoth(base, slot + 2, cs[1..], i - 1);
    }
  }

  lemma FirstSyncEvents(base: int, start: int, cs: seq<Chunk>, localInfra: bool)
    ensures SyncEvents(FirstSync(base, start, cs, localInfra), base, start, cs, localInfra)
  {
    var es, rows := FirstSync(base, start, cs, localInfra), Rows(base, 1, cs, BOTH, true, false);
    RowsCount(base, 1, cs, BOTH, true, false);
    assert forall k :: 0 <= k < |rows| ==> es[k + 1] == rows[k];
    forall i | 0 <= i < |cs|
      ensures es[2 * i + 1] == CreateQuery(Issued, true, cs[i], false, base + (2 * i + 1) * 3)
      ensures es[2 * i + 2] == CreateQuery(Received, true, cs[i], false, base + (2 * i + 2) * 3)
    {
      RowsBoth(base, 1, cs, i);
    }
  }

  /** The download types an administrator's request names. */
  function ResolveDownloadTypes(name: string): seq<DownloadType> {
    if name == "ISSUED" then [Issued]
    else if name == "RECEIVED" then [Received]
    else if name == "BOTH" then BOTH
    else []
  }

  lemma RowOneMore(base: int, slot: nat, w: Chunk, dts: seq<DownloadType>, j: nat, cfdi: bool, isManual: bool)
    requires j < |dts|
    ensures Row(base, slot, w, dts[..j + 1], cfdi, isManual)
              == Row(base, slot, w, dts[..j], cfdi, isManual)
                 + [CreateQuery(dts[j], cfdi, w, isManual, base + (slot + j) * SPACING)]
  {
  }

  /** `Enqueue`, once the request is checked: every window for every download type. */
  method Enqueue(base: int, start: int, endExclusive: int, chunkDays: int, cfdi: bool, dlTypes: seq<DownloadType>)
    returns (events: seq<Event>, published: nat)
    ensures events == Rows(base, 0, Chunks(start, endExclusive, chunkDays), dlTypes, cfdi, true)
    ensures published == |events|
  {
    events, published := [], 0;
    var slot := 0;
    var chunks := ChunkRangeByDays(start, endExclusive, chunkDays);
    for i := 0 to |chunks|
      invariant slot == published == |events|
      invariant events + Rows(base, slot, chunks[i..], dlTypes, cfdi, true) == Rows(base, 0, chunks, dlTypes, cfdi, true)
    {
      ghost var (before, first) := (events, slot);
      RowsStep(events, base, slot, chunks, i, dlTypes, cfdi, true);
      for j := 0 to |dlTypes|
        invariant slot == first + j && published == |events| == slot
        invariant events == before + Row(base, first, chunks[i], dlTypes[..j], cfdi, true)
      {
        RowOneMore(base, first, chunks[i], dlTypes, j, cfdi, true);
        events := events + [CreateQuery(dlTypes[j], cfdi, chunks[i], true, base + slot * SPACING)];
        slot := slot + 1;
        published := published + 1;
      }
      assert dlTypes[..|dlTypes|] == dlTypes;
    }
  }

  // ------------------------------------------------------------ spacing and windows

  /** The `k`-th request is due three seconds `slot + k` times after the base time. */
  ghost predicate SlotsFrom(es: seq<Event>, base: int, slot: nat) {
    forall k :: 0 <= k < |es| ==> es[k].CreateQuery? && es[k].executeAt == base + (slot + k) * 3
  }

  lemma {:induction false} RowsPaced(base: int, slot: nat, cs: seq<Chunk>, dts: seq<DownloadType>, cfdi: bool, isManual: bool)
    ensures SlotsFrom(Rows(base, slot, cs, dts, cfdi, isManual), base, slot)
    decreases |cs|
  {
    if cs != [] {
      RowsPaced(base, slot + |dts|, cs[1..], dts, cfdi, isManual);
      var a, b := Row(base, slot, cs[0], dts, cfdi, isManual), Rows(base, slot + |dts|, cs[1..], dts, cfdi, isManual);
      var es: seq<Event> := a + b;
      assert forall k :: |a| <= k < |es| ==> es[k] == b[k - |a|];
    }
  }

  lemma {:induction false} RowsCount(base: int, slot: nat, cs: seq<Chunk>, dts: seq<DownloadType>, cfdi: bool, isManual: bool)
    ensures |Rows(base, slot, cs, dts, cfdi, isManual)| == |cs| * |dts|
    decreases |cs|
  {
    if cs != [] {
      RowsCount(base, slot + |dts|, cs[1..], dts, cfdi, isManual);
      assert |cs| * |dts| == |cs[1..]| * |dts| + |dts|;
    }
  }

  lemma {:induction false} AllScheduled(es: seq<Event>)
    requires forall e :: e in es ==> e.Scheduled()
    ensures ScheduledOf(es) == es
    decreases |es|
  {
    if es != [] {
      var init, last := es[..|es| - 1], es[|es| - 1];
      assert es == init + [last] && last in es;
      AllScheduled(init);
    }
  }

  lemma {:induction false} RowsAlike(base: int, slot: nat, cs: seq<Chunk>, dts: seq<DownloadType>, cfdi: bool, isManual: bool)
    ensures forall e :: e in Rows(base, slot, cs, dts, cfdi, isManual) ==>
              e.CreateQuery? && e.cfdi == cfdi && e.isManual == isManual
    decreases |cs|
  {
    if cs != [] {
      RowsAlike(base, slot + |dts|, cs[1..], dts, cfdi, isManual);
    }
  }

  /** No download type is asked for twice. */
  ghost predicate EachOnce(dts: seq<DownloadType>) {
    dts == [] || dts == [Issued] || dts == [Received] || dts == BOTH
  }

  lemma RowWindows(base: int, slot: nat, w: Chunk, dts: seq<DownloadType>, cfdi: bool, isManual: bool, dt: DownloadType)
    requires EachOnce(dts)
    ensures WindowsOf(Row(base, slot, w, dts, cfdi, isManual), dt) == if dt in dts then [w] else []
  {
    var es := Row(base, slot, w, dts, cfdi, isManual);
    if |dts| == 2 {
      assert es[..1][..0] == [];
      assert WindowsOf(es[..1], dt) == if dt == Issued then [w] else [];
    } else if |dts| == 1 {
      assert es[..0] == [];
    }
  }

  lemma WindowsCons(a: seq<Event>, b: seq<Event>, dt: DownloadType, cs: seq<Chunk>, asked: bool)
    requires cs != []
    requires WindowsOf(a, dt) == (if asked then [cs[0]] else []) && WindowsOf(b, dt) == if asked then cs[1..] else []
    ensures WindowsOf(a + b, dt) == if asked then cs else []
  {
    WindowsConcat(a, b, dt);
    assert [cs[0]] + cs[1..] == cs;
  }

  lemma RowThenRest(base: int, slot: nat, cs: seq<Chunk>, dts: seq<DownloadType>, cfdi: bool, isManual: bool,
                    rest: seq<Event>, all: seq<Event>, dt: DownloadType)
    requires cs != [] && EachOnce(dts) && WindowsOf(rest, dt) == if dt in dts then cs[1..] else []
    requires all == Row(base, slot, cs[0], dts, cfdi, isManual) + rest
    ensures WindowsOf(all, dt) == if dt in dts then cs else []
  {
    RowWindows(base, slot, cs[0], dts, cfdi, isManual, dt);
    WindowsCons(Row(base, slot, cs[0], dts, cfdi, isManual), rest, dt, cs, dt in dts);
  }

  /** Each download type asked for gets every window once, in order. */
  lemma {:induction false} RowsWindows(base: int, slot: nat, cs: seq<Chunk>, dts: seq<DownloadType>,
                                       cfdi: bool, isManual: bool, dt: DownloadType)
    requires EachOnce(dts)
    ensures WindowsOf(Rows(base, slot, cs, dts, cfdi, isManual), dt) == if dt in dts then cs else []
    decreases |cs|
  {
    if cs != [] {
      var rest := Rows(base, slot + |dts|, cs[1..], dts, cfdi, isManual);
      RowsWindows(base, slot + |dts|, cs[1..], dts, cfdi, isManual, dt);
      RowThenRest(base, slot, cs, dts, cfdi, isManual, rest, Rows(base, slot, cs, dts, cfdi, isManual), dt);
    }
  }

  /** An administrator's enqueue publishes one request per window and type, `k` spacings apart
      from the first, and each type asked for gets every window once. */
  lemma EnqueueSchedule(base: int, cs: seq<Chunk>, name: string, cfdi: bool, dt: DownloadType)
    ensures var (dts, es) := (ResolveDownloadTypes(name), Rows(base, 0, cs, ResolveDownloadTypes(name), cfdi, true));
            && |es| == |cs| * |dts| && SlotsFrom(es, base, 0)
            && |dts| == (if name == "BOTH" then 2 else if name == "ISSUED" || name == "RECEIVED" then 1 else 0)
            && WindowsOf(es, dt) == (if name == "BOTH" || name == (if dt == Issued then "ISSUED" else "RECEIVED") then cs else [])
            && forall e :: e in es ==> e.CreateQuery? && e.cfdi == cfdi && e.isManual
  {
    RowsAlike(base, 0, cs, ResolveDownloadTypes(name), cfdi, true);
    RowsCount(base, 0, cs, ResolveDownloadTypes(name), cfdi, true);
    RowsPaced(base, 0, cs, ResolveDownloadTypes(name), cfdi, true);
    RowsWindows(base, 0, cs, ResolveDownloadTypes(name), cfdi, true, dt);
  }

  /** A new company's first synchronisation schedules one event more than two per window, the
      `k`-th of them `k` spacings after the base time, and asks for every window once per type. */
  lemma FirstSyncSchedule(base: int, start: int, cs: seq<Chunk>, localInfra: bool)
    ensures var es := FirstSync(base, start, cs, localInfra);
            && |ScheduledOf(es)| == 1 + 2 * |cs| && Paced(ScheduledOf(es), base)
            && WindowsOf(es, Issued) == cs && WindowsOf(es, Received) == cs
  {
    var head, rows := [MetadataRequested(base)], Rows(base, 1, cs, BOTH, true, false);
    var tail := [CompleteCfdis(Issued, start), CompleteCfdis(Received, start)] + (if localInfra then [] else [RequestScrap]);
    assert FirstSync(base, start, cs, localInfra) == head + rows + tail;
    FirstSyncParts(head, rows, tail);
    assert WindowsOf(rows, Issued) == cs && WindowsOf(rows, Received) == cs by {
      RowsWindows(base, 1, cs, BOTH, true, false, Issued);
      RowsWindows(base, 1, cs, BOTH, true, false, Received);
    }
    RowsCount(base, 1, cs, BOTH, true, false);
    RowsPaced(base, 1, cs, BOTH, true, false);
    assert ScheduledOf(rows) == rows by {
      AllScheduled(rows);
    }
    PacedAfterHead(head, rows, base);
  }

  lemma PacedAfterHead(head: seq<Event>, rows: seq<Event>, base: int)
    requires head == [MetadataRequested(base)] && SlotsFrom(rows, base, 1)
    ensures Paced(head + rows, base)
  {
    var sched := head + rows;
    assert forall k :: 0 < k < |sched| ==> sched[k] == rows[k - 1];
  }

  lemma FirstSyncParts(head: seq<Event>, rows: seq<Event>, tail: seq<Event>)
    requires |head| == 1 && head[0].MetadataRequested? && forall e :: e in tail ==> !e.Scheduled()
    ensures ScheduledOf(head + rows + tail) == head + ScheduledOf(rows)
    ensures forall dt :: WindowsOf(head + rows + tail, dt) == WindowsOf(rows, dt)
  {
    forall dt ensures WindowsOf(head + rows + tail, dt) == WindowsOf(rows, dt) {
      FirstSyncWindows(head, rows, tail, dt);
    }
    ScheduledConcat(head + rows, tail);
    ScheduledConcat(head, rows);
    NothingScheduled(tail, Issued);
    OneScheduled(head, Issued);
    assert head + ScheduledOf(rows) + [] == head + ScheduledOf(rows);
  }

  lemma FirstSyncWindows(head: seq<Event>, rows: seq<Event>, tail: seq<Event>, dt: DownloadType)
    requires |head| == 1 && head[0].MetadataRequested? && forall e :: e in tail ==> !e.Scheduled()
    ensures WindowsOf(head + rows + tail, dt) == WindowsOf(rows, dt)
  {
    WindowsConcat(head + rows, tail, dt);
    WindowsConcat(head, rows, dt);
    NothingScheduled(tail, dt);
    OneScheduled(head, dt);
    assert [] + WindowsOf(rows, dt) + [] == WindowsOf(rows, dt);
  }

  lemma OneScheduled(head: seq<Event>, dt: DownloadType)
    requires |head| == 1 && head[0].MetadataRequested?
    ensures WindowsOf(head, dt) == [] && ScheduledOf(head) == head
  {
    assert head[..0] == [];
    assert WindowsOf(head[..0], dt) == [] && ScheduledOf(head[..0]) == [];
  }

  lemma {:induction false} NothingScheduled(es: seq<Event>, dt: DownloadType)
    requires forall e :: e in es ==> !e.Scheduled()
    ensures ScheduledOf(es) == [] && WindowsOf(es, dt) == []
    decreases |es|
  {
    if es != [] {
      NothingScheduled(es[..|es| - 1], dt);
      assert es[|es| - 1] in es;
    }
  }
}
