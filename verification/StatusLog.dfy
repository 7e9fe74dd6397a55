/** The daily status of the download log (`getCFDIStatusLog`): a day counts as done when the
    merged ranges of settled queries contain it and none of its CFDIs is pending. */
module StatusLog {
  import opened Calendar
  import opened RangeChunks
  import opened SatEnqueue

  // ------------------------------------------------------------ merged ranges

  /** A non-empty half-open range of time. */
  type Range = c: Chunk | c.start < c.end
    witness Chunk(0, 1)

  /** A range added to a multirange, merged with whatever it overlaps or touches. */
  function Add(mr: seq<Range>, r: Range): seq<Range> {
    if mr == [] then [r]
    else if r.end < mr[0].start then [r] + mr
    else if mr[0].end < r.start then [mr[0]] + Add(mr[1..], r)
    else
      Add(mr[1..], Merge(mr[0], r))
  }

  /** `range_agg` */
  function RangeAgg(rs: seq<Range>): seq<Range> {
    if rs == [] then [] else Add(RangeAgg(rs[..|rs| - 1]), rs[|rs| - 1])
  }

  /** `r <@ mr`: one component contains the range. */
  predicate ContainedIn(r: Range, mr: seq<Range>) {
    exists i :: 0 <= i < |mr| && mr[i].start <= r.start && r.end <= mr[i].end
  }

  ghost predicate Normal(mr: seq<Range>) {
    forall i, j :: 0 <= i < j < |mr| ==> mr[i].end < mr[j].start
  }

  ghost predicate Covers(rs: seq<Range>, t: int) {
    exists r :: r in rs && r.Has(t)
  }

  function Merge(a: Range, b: Range): Range {
    Chunk(if b.start < a.start then b.start else a.start, if b.end > a.end then b.end else a.end)
  }

  lemma {:induction false} AddCovers(mr: seq<Range>, r: Range, t: int)
    ensures Covers(Add(mr, r), t) <==> Covers(mr, t) || r.Has(t)
  {
    if mr == [] {
      assert Add(mr, r)[0] == r;
    } else {
      var rest := mr[1..];
      CoversFirst(mr, t);
      CoversFirst([r] + mr, t);
      assert ([r] + mr)[1..] == mr;
      if mr[0].end < r.start {
        AddCovers(rest, r, t);
        CoversFirst([mr[0]] + Add(rest, r), t);
        assert ([mr[0]] + Add(rest, r))[1..] == Add(rest, r);
      } else if r.end >= mr[0].start {
        AddCovers(rest, Merge(mr[0], r), t);
      }
    }
  }

  lemma CoversFirst(mr: seq<Range>, t: int)
    requires mr != []
    ensures Covers(mr, t) <==> mr[0].Has(t) || Covers(mr[1..], t)
  {
    assert mr == [mr[0]] + mr[1..];
  }

  /** What lies right of a bound stays right of it. */
  lemma {:induction false} AddStarts(mr: seq<Range>, r: Range, b: int)
    requires r.start > b && forall c :: c in mr ==> c.start > b
    ensures forall c :: c in Add(mr, r) ==> c.start > b
  {
    if mr != [] && r.end >= mr[0].start {
      if mr[0].end < r.start {
        AddStarts(mr[1..], r, b);
      } else {
        AddStarts(mr[1..], Merge(mr[0], r), b);
      }
    }
  }

  lemma {:induction false} AddNormal(mr: seq<Range>, r: Range)
    requires Normal(mr)
    ensures Normal(Add(mr, r))
  {
    if mr != [] {
      var rest := mr[1..];
      if mr[0].end < r.start {
        AddNormal(rest, r);
        AddStarts(rest, r, mr[0].end);
      } else if r.end >= mr[0].start {
        AddNormal(rest, Merge(mr[0], r));
      }
    }
  }

  lemma {:induction false} RangeAggMeaning(rs: seq<Range>, t: int)
    ensures Normal(RangeAgg(rs)) && (Covers(RangeAgg(rs), t) <==> Covers(rs, t))
    decreases |rs|
  {
    if rs != [] {
      var init := rs[..|rs| - 1];
      RangeAggMeaning(init, t);
      AddCovers(RangeAgg(init), rs[|rs| - 1], t);
      AddNormal(RangeAgg(init), rs[|rs| - 1]);
      assert rs == init + [rs[|rs| - 1]];
    }
  }

  /** Between components there are gaps: the end of one is in none. */
  lemma GapAfter(mr: seq<Range>, i: nat)
    requires Normal(mr) && i < |mr|
    ensures !Covers(mr, mr[i].end)
  {
    forall c | c in mr ensures !c.Has(mr[i].end) {
      var j :| 0 <= j < |mr| && mr[j] == c;
    }
  }

  lemma CoveredInOnePiece(r: Range, mr: seq<Range>)
    requires Normal(mr) && forall t :: r.Has(t) ==> Covers(mr, t)
    ensures ContainedIn(r, mr)
  {
    assert r.Has(r.start);
    var c :| c in mr && c.Has(r.start);
    var i :| 0 <= i < |mr| && mr[i] == c;
    GapAfter(mr, i);
    assert !r.Has(c.end);
  }

  /** A range lies in the merged multirange exactly when the single ranges together leave no
      instant of it out. */
  lemma ContainedExactly(r: Range, rs: seq<Range>)
    ensures ContainedIn(r, RangeAgg(rs)) <==> forall t :: r.Has(t) ==> Covers(rs, t)
  {
    var mr := RangeAgg(rs);
    forall t ensures Covers(mr, t) <==> Covers(rs, t) {
      RangeAggMeaning(rs, t);
    }
    RangeAggMeaning(rs, 0);
    if ContainedIn(r, mr) {
      var i :| 0 <= i < |mr| && mr[i].start <= r.start && r.end <= mr[i].end;
      forall t | r.Has(t) ensures Covers(mr, t) {
        assert mr[i].Has(t);
      }
    } else if forall t :: r.Has(t) ==> Covers(mr, t) {
      CoveredInOnePiece(r, mr);
    }
  }

  // ------------------------------------------------------------ the daily status

  datatype QueryState = Processed | InformationNotFound | OtherState

  datatype QueryRow = QueryRow(start: int, end: int, types: set<DownloadType>, cancellation: bool, state: QueryState) {
    predicate Settled(dt: DownloadType) {
      (state.Processed? || state.InformationNotFound?) && !cancellation && dt in types
    }
  }

  datatype CfdiRow = CfdiRow(fecha: int, isIssued: bool, estatus: bool, fromXml: bool, isTooBig: bool) {
    predicate ActiveOn(day: nat, dt: DownloadType) {
      estatus && isIssued == dt.Issued? && DayRange(day).Has(fecha)
    }

    predicate Done() {
      fromXml || isTooBig
    }
  }

  datatype Status = Incomplete | Empty | Complete

  function DayRange(day: nat): (r: Range) {
    Chunk(day * DAY, (day + 1) * DAY)
  }

  /** The ranges of the settled queries of one download type; an empty range adds nothing. */
  function SettledRanges(qs: seq<QueryRow>, dt: DownloadType): (rs: seq<Range>)
    ensures forall r :: r in rs <==> exists q :: q in qs && q.Settled(dt) && q.start < q.end && r == Chunk(q.start, q.end)
  {
    if qs == [] then []
    else
      var (init, q) := (SettledRanges(qs[..|qs| - 1], dt), qs[|qs| - 1]);
      assert qs == qs[..|qs| - 1] + [q];
      init + (if q.Settled(dt) && q.start < q.end then [Chunk(q.start, q.end)] else [])
  }

  function Total(cs: seq<CfdiRow>, day: nat, dt: DownloadType): nat {
    if cs == [] then 0 else Total(cs[1..], day, dt) + if cs[0].ActiveOn(day, dt) then 1 else 0
  }

  function ProcessedTotal(cs: seq<CfdiRow>, day: nat, dt: DownloadType): nat {
    if cs == [] then 0 else ProcessedTotal(cs[1..], day, dt) + if cs[0].ActiveOn(day, dt) && cs[0].Done() then 1 else 0
  }

  function StatusFor(qs: seq<QueryRow>, cs: seq<CfdiRow>, day: nat, dt: DownloadType): Status {
    if Total(cs, day, dt) > ProcessedTotal(cs, day, dt) then Incomplete
    else if !ContainedIn(DayRange(day), RangeAgg(SettledRanges(qs, dt))) then Incomplete
    else if Total(cs, day, dt) == 0 then Empty
    else Complete
  }

  function DayStatus(qs: seq<QueryRow>, cs: seq<CfdiRow>, day: nat): Status {
    var (i, r) := (StatusFor(qs, cs, day, Issued), StatusFor(qs, cs, day, Received));
    if i == Incomplete || r == Incomplete then Incomplete
    else if i == Complete && r == Complete then Complete
    else if i == Empty && r == Empty then Empty
    else Complete
  }

  /** The instant lies in that day. */
  predicate OnDay(t: int, day: nat) {
    86_400 * day <= t < 86_400 * (day + 1)
  }

  /** A CFDI in force of that day, on the side the download type is about. */
  predicate InForce(c: CfdiRow, day: nat, dt: DownloadType) {
    c.estatus && c.isIssued == (dt == Issued) && OnDay(c.fecha, day)
  }

  /** Some CFDI in force is neither there as XML nor too big for it. */
  ghost predicate Pending(cs: seq<CfdiRow>, day: nat, dt: DownloadType) {
    exists c :: c in cs && InForce(c, day, dt) && !c.fromXml && !c.isTooBig
  }

  /** The query is over, with CFDIs or without, was no request for cancellations, and was for the type. */
  predicate Over(q: QueryRow, dt: DownloadType) {
    (q.state == Processed || q.state == InformationNotFound) && !q.cancellation && dt in q.types
  }

  lemma {:induction false} CountsExact(cs: seq<CfdiRow>, day: nat, dt: DownloadType)
    ensures ProcessedTotal(cs, day, dt) <= Total(cs, day, dt)
    ensures ProcessedTotal(cs, day, dt) < Total(cs, day, dt) <==> Pending(cs, day, dt)
    ensures Total(cs, day, dt) == 0 <==> forall c :: c in cs ==> !InForce(c, day, dt)
  {
    if cs != [] {
      CountsExact(cs[1..], day, dt);
      assert cs == [cs[0]] + cs[1..];
      assert cs[0].ActiveOn(day, dt) <==> InForce(cs[0], day, dt);
    }
  }

  /** Some settled query of the type takes in the instant. */
  ghost predicate SettledAt(qs: seq<QueryRow>, dt: DownloadType, t: int) {
    exists q :: q in qs && Over(q, dt) && q.start <= t < q.end
  }

  /** What the status of a day says, for one download type: INCOMPLETE exactly when an active
      CFDI of that day is pending or some instant of it lies in no settled query, and
      otherwise EMPTY exactly when it has no active CFDI. */
  lemma StatusExact(qs: seq<QueryRow>, cs: seq<CfdiRow>, day: nat, dt: DownloadType)
    ensures StatusFor(qs, cs, day, dt) == Incomplete <==>
              Pending(cs, day, dt) || exists t :: OnDay(t, day) && !SettledAt(qs, dt, t)
    ensures StatusFor(qs, cs, day, dt) != Incomplete ==>
              (StatusFor(qs, cs, day, dt) == Empty <==> forall c :: c in cs ==> !InForce(c, day, dt))
  {
    CountsExact(cs, day, dt);
    assert forall t :: DayRange(day).Has(t) <==> OnDay(t, day);
    var rs := SettledRanges(qs, dt);
    ContainedExactly(DayRange(day), rs);
    forall t ensures Covers(rs, t) <==> SettledAt(qs, dt, t) {
      if q :| q in qs && Over(q, dt) && q.start <= t < q.end {
        assert q.Settled(dt);
        assert Chunk(q.start, q.end) in rs && Chunk(q.start, q.end).Has(t);
      }
    }
  }

  /** The day as a whole: EMPTY exactly when it is done for both types and has no active CFDI of
      either, and COMPLETE exactly when it is done and has one. */
  lemma DayStatusExact(qs: seq<QueryRow>, cs: seq<CfdiRow>, day: nat)
    ensures DayStatus(qs, cs, day) == Incomplete <==>
              || Pending(cs, day, Issued) || Pending(cs, day, Received)
              || exists t :: OnDay(t, day) && !(SettledAt(qs, Issued, t) && SettledAt(qs, Received, t))
    ensures DayStatus(qs, cs, day) != Incomplete ==>
              (DayStatus(qs, cs, day) == Empty <==> forall c :: c in cs ==> !(c.estatus && OnDay(c.fecha, day)))
  {
    StatusExact(qs, cs, day, Issued);
    StatusExact(qs, cs, day, Received);
    forall c | c in cs
      ensures c.estatus && OnDay(c.fecha, day) <==> InForce(c, day, Issued) || InForce(c, day, Received)
    {
    }
  }

  /** A day no settled query reaches into is INCOMPLETE, whatever its CFDIs. */
  lemma UntouchedDayIncomplete(qs: seq<QueryRow>, cs: seq<CfdiRow>, day: nat, dt: DownloadType)
    requires forall q :: q in qs && Over(q, dt) ==> q.end <= 86_400 * day || 86_400 * (day + 1) <= q.start
    ensures DayStatus(qs, cs, day) == Incomplete
  {
    StatusExact(qs, cs, day, dt);
    assert OnDay(86_400 * day, day) && !SettledAt(qs, dt, 86_400 * day);
  }

  /** Every query requested for the range, of either download type, has been settled. */
  ghost predicate AllSettled(events: seq<Event>, qs: seq<QueryRow>) {
    forall dt, w :: w in WindowsOf(events, dt) ==>
      exists q :: q in qs && Over(q, dt) && q.start == w.start && q.end == w.end
  }

  /** From request to log: once all queries of a chunked range are settled, a day of the range
      is INCOMPLETE only if one of its active CFDIs is pending. */
  lemma SettledRangeIsCovered(start: int, end: int, days: int, events: seq<Event>,
                              qs: seq<QueryRow>, cs: seq<CfdiRow>, day: nat)
    requires days > 0 && start <= day * DAY && (day + 1) * DAY <= end
    requires WindowsOf(events, Issued) == Chunks(start, end, days) && WindowsOf(events, Received) == Chunks(start, end, days)
    requires AllSettled(events, qs)
    ensures forall dt, t :: OnDay(t, day) ==> SettledAt(qs, dt, t)
    ensures DoneUnlessPending(qs, cs, day)
  {
    forall dt, t | OnDay(t, day) ensures SettledAt(qs, dt, t) {
      ChunksPartition(start, end, days, t);
      var ws := WindowsOf(events, dt);
      assert ws == Chunks(start, end, days) by {
        assert dt.Issued? || dt.Received?;
      }
      var i :| 0 <= i < |ws| && ws[i].Has(t);
      assert ws[i] in ws;
      var q :| q in qs && Over(q, dt) && q.start == ws[i].start && q.end == ws[i].end;
    }
    StatusExact(qs, cs, day, Issued);
    StatusExact(qs, cs, day, Received);
  }

  /** The same from a new company's first synchronisation: once its queries are settled, every
      day from 2 January five years ago up to yesterday is accounted for. */
  method FirstSyncCoversHistory(now: int, offset: int, qs: seq<QueryRow>, cs: seq<CfdiRow>, localInfra: bool)
    returns (events: seq<Event>)
    requires now + offset >= 0 && 5 <= MXCalendarDate(now, offset).year <= 9999
    ensures var today := MXCalendarDate(now, offset);
            AllSettled(events, qs) ==>
              forall day: nat | InHistory(day, today) :: DoneUnlessPending(qs, cs, day)
  {
    var r := BootstrapRange(MXCalendarDate(now, offset), 5);
    BootstrapOk(MXCalendarDate(now, offset));
    events := CompanyCreated(now, r.start, r.endExclusive, localInfra);
    if AllSettled(events, qs) {
      BootstrapDaysCovered(now, MXCalendarDate(now, offset), r, events, qs, cs, localInfra);
    }
  }

  lemma BootstrapOk(today: Date)
    requires today.Valid() && 5 <= today.year <= 9999
    ensures BootstrapRange(today, 5).Ok?
  {
    BootstrapRangeValid(today, 5);
  }

  /** The days from 2 January five years before `today` up to the day before `today`. */
  predicate InHistory(day: nat, today: Date)
    requires today.Valid() && 5 <= today.year
  {
    DayNumber(Date(today.year - 5, 1, 2)) <= day < DayNumber(today)
  }

  lemma BootstrapDaysCovered(base: int, today: Date, r: RangeResult, events: seq<Event>,
                             qs: seq<QueryRow>, cs: seq<CfdiRow>, localInfra: bool)
    requires today.Valid() && 5 <= today.year <= 9999 && r == BootstrapRange(today, 5) && r.Ok?
    requires events == FirstSync(base, r.start, Chunks(r.start, r.endExclusive, CFDI_CHUNK_DAYS), localInfra)
    requires AllSettled(events, qs)
    ensures forall day: nat | InHistory(day, today) :: DoneUnlessPending(qs, cs, day)
  {
    FirstSyncSchedule(base, r.start, Chunks(r.start, r.endExclusive, CFDI_CHUNK_DAYS), localInfra);
    forall day: nat | InHistory(day, today)
      ensures DoneUnlessPending(qs, cs, day)
    {
      HistoryDay(today, r, day);
      SettledRangeIsCovered(r.start, r.endExclusive, CFDI_CHUNK_DAYS, events, qs, cs, day);
    }
  }

  lemma HistoryDay(today: Date, r: RangeResult, day: nat)
    requires today.Valid() && 5 <= today.year <= 9999 && r == BootstrapRange(today, 5) && r.Ok? && InHistory(day, today)
    ensures r.start <= day * DAY && (day + 1) * DAY <= r.endExclusive
  {
    BootstrapRangeValid(today, 5);
    var first := DayNumber(Date(today.year - 5, 1, 2));
    assert r.start == first * DAY && r.endExclusive == DayNumber(today) * DAY;
  }

  /** The day shows as INCOMPLETE exactly if one of its active CFDIs is pending. */
  ghost predicate DoneUnlessPending(qs: seq<QueryRow>, cs: seq<CfdiRow>, day: nat) {
    DayStatus(qs, cs, day) == Incomplete <==> Pending(cs, day, Issued) || Pending(cs, day, Received)
  }
}
