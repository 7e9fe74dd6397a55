/** Runs that end with a row marked as PROCESSED and not all of its records in the table. */
module Shortfalls {
  import opened Options
  import opened Pipeline
  import opened Protocol
  import opened Applied
  import opened Storage
  import Ledger
  import MetadataJoiner

  // ------------------------------------------------------------ on the way to processing

  /** A handler that writes its row and publishes one message runs to its end: its own message gives
      way to that one. */
  lemma WroteAndSent(run: seq<Step>, s: Step, write: Action, msg: Msg, maxWait: int) returns (longer: seq<Step>, m: MsgId)
    requires IsRun(run, maxWait) && Enabled(After(run, maxWait), s) && (s.BeginVerify? || s.Join?) && write.SetState?
    requires s.m in Apply(After(run, maxWait), s, maxWait).active
    requires Apply(After(run, maxWait), s, maxWait).active[s.m] == Running([write, Publish(msg), Ack])
    ensures IsRun(longer, maxWait)
    ensures var (w, w') := (After(run, maxWait), After(longer, maxWait));
            && m !in w.queue && w'.queue == w.queue[m := msg] - {s.m} && w'.active == w.active - {s.m}
            && w'.rows == Write(w.rows, write)
            && w'.blobs == w.blobs && w'.imported == w.imported && w'.now == w.now
  {
    var w, plan := After(run, maxWait), [write, Publish(msg), Ack];
    CarryOutBoth(w.rows, write, msg);
    NothingImported(w.queue[s.m], plan, NOTHING_READ);
    var ids;
    longer, ids := TakenUp(run, s, NOTHING_READ, maxWait);
    m := ids[0];
    assert ids[0] in ids;
    assert Enqueue(w.queue[m := msg], ids[1..], [msg][1..]) == w.queue[m := msg];
  }

  lemma Born(run: seq<Step>, q: QueryId, rt: RequestType, maxWait: int) returns (longer: seq<Step>, first: MsgId)
    requires IsRun(run, maxWait) && q !in After(run, maxWait).rows
    ensures IsRun(longer, maxWait)
    ensures var (w, w') := (After(run, maxWait), After(longer, maxWait));
            && first !in w.queue && w'.queue == w.queue[first := VerifyMsg(q, rt, Some(w.now), w.now)]
            && w'.active == w.active
            && w'.rows == w.rows[q := Row(Sent, rt, Some(w.now), None, [])]
            && w'.blobs == w.blobs && w'.imported == w.imported && w'.now == w.now
  {
    first := AboveAll(After(run, maxWait).queue.Keys);
    longer := Extend(run, Create(q, rt, first), maxWait);
  }

  /** A fresh query is verified, and its one package is about to be downloaded. */
  lemma AskedFor(run: seq<Step>, q: QueryId, rt: RequestType, p: PackageId, maxWait: int)
    returns (longer: seq<Step>, m: MsgId)
    requires IsRun(run, maxWait) && q !in After(run, maxWait).rows && After(run, maxWait).active == map[]
    ensures IsRun(longer, maxWait)
    ensures var (w, w') := (After(run, maxWait), After(longer, maxWait));
            && m !in w.queue && w'.queue == w.queue[m := DownloadMsg(q, rt, 0, [p])] && w'.active == map[]
            && w'.rows == w.rows[q := Row(ToDownload, rt, Some(w.now), None, [p])]
            && w'.blobs == w.blobs && w'.imported == w.imported && w'.now == w.now
  {
    var w, msg := After(run, maxWait), DownloadMsg(q, rt, 0, [p]);
    var first;
    longer, first := Born(run, q, rt, maxWait);
    longer, m := WroteAndSent(longer, BeginVerify(first, Answer(Finished, 5000, 0, [p])),
                              UpdateQueryState(q, ToDownload, 0, [p]), msg, maxWait);
    Replaced(w.queue, first, VerifyMsg(q, rt, Some(w.now), w.now), m, msg);
  }

  lemma Replaced(queue: map<MsgId, Msg>, first: MsgId, former: Msg, m: MsgId, msg: Msg)
    requires first !in queue && m != first
    ensures queue[first := former][m := msg] - {first} == queue[m := msg]
  {
  }

  /** Its one package comes through. */
  lemma OneStored(run: seq<Step>, m: MsgId, maxWait: int) returns (longer: seq<Step>)
    requires IsRun(run, maxWait) && After(run, maxWait).active == map[] && m in After(run, maxWait).queue
    requires After(run, maxWait).queue[m].DownloadMsg? && |After(run, maxWait).queue[m].packages| == 1
    ensures IsRun(longer, maxWait) && Enabled(After(longer, maxWait), Join(m))
    ensures var (w, w') := (After(run, maxWait), After(longer, maxWait));
            && w'.active.Keys == {m} && w'.active[m].firstErr.None? && w'.blobs == w.blobs + {w.queue[m].packages[0]}
            && w'.rows == w.rows && w'.queue == w.queue && w'.imported == w.imported && w'.now == w.now
  {
    longer := Extend(run, BeginDownload(m, true), maxWait);
    assert After(longer, maxWait).active[m].pending == Indices(1);
    longer := Extend(longer, Package(m, 0, true), maxWait);
    assert Indices(1) - {0} == {};
  }

  function ProcessMsg(q: QueryId, rt: RequestType, packages: seq<PackageId>): Msg {
    if rt.Metadata? then MetadataMsg(q, packages) else XmlMsg(q, packages)
  }

  lemma Routed(run: seq<Step>, first: MsgId, maxWait: int) returns (longer: seq<Step>, m: MsgId)
    requires IsRun(run, maxWait) && Enabled(After(run, maxWait), Join(first))
    requires After(run, maxWait).active.Keys == {first} && After(run, maxWait).active[first].firstErr.None?
    requires After(run, maxWait).queue[first].requestType.Routable()
    ensures IsRun(longer, maxWait)
    ensures var (w, w') := (After(run, maxWait), After(longer, maxWait)); var msg := w.queue[first];
            && m !in w.queue && w'.active == map[] && w'.rows == Write(w.rows, UpdateDownloadState(msg, Downloaded))
            && w'.queue == w.queue[m := ProcessMsg(msg.query, msg.requestType, msg.packages)] - {first}
            && w'.blobs == w.blobs && w'.imported == w.imported && w'.now == w.now
  {
    var msg := After(run, maxWait).queue[first];
    var write, next := UpdateDownloadState(msg, Downloaded), ProcessMsg(msg.query, msg.requestType, msg.packages);
    assert DownloadPlan(msg, true) == [write, Publish(next), Ack];
    longer, m := WroteAndSent(run, Join(first), write, next, maxWait);
  }

  /** A fresh query is verified and its one package is stored; its process message waits. */
  lemma Ready(run: seq<Step>, q: QueryId, rt: RequestType, p: PackageId, maxWait: int)
    returns (longer: seq<Step>, m: MsgId)
    requires IsRun(run, maxWait) && q !in After(run, maxWait).rows && After(run, maxWait).active == map[] && rt.Routable()
    ensures IsRun(longer, maxWait)
    ensures var (w, w') := (After(run, maxWait), After(longer, maxWait));
            && m !in w.queue && w'.queue == w.queue[m := ProcessMsg(q, rt, [p])] && w'.active == map[]
            && w'.rows == w.rows[q := Row(Downloaded, rt, Some(w.now), Some(0), [p])]
            && w'.blobs == w.blobs + {p} && w'.imported == w.imported && w'.now == w.now
  {
    var w, first := After(run, maxWait), 0;
    longer, first := AskedFor(run, q, rt, p, maxWait);
    longer := OneStored(longer, first, maxWait);
    longer, m := Routed(longer, first, maxWait);
    Replaced(w.queue, first, DownloadMsg(q, rt, 0, [p]), m, ProcessMsg(q, rt, [p]));
  }

  // ------------------------------------------------------------ processed and not imported

  /** The row is PROCESSED and the table has nothing of this package, which the row names. */
  ghost predicate ProcessedUnread(w: World, q: QueryId, p: PackageId) {
    q in w.rows && w.rows[q].state.Processed? && p in w.rows[q].packages && forall s :: s in w.imported ==> s.pkg != p
  }

  /** A stored package that cannot be read is passed over, and the row is marked all the same. */
  lemma SkippedPackage(maxWait: int)
    ensures exists run, q, p ::
              IsRun(run, maxWait) && ProcessedUnread(After(run, maxWait), q, p) && p in After(run, maxWait).blobs
  {
    var run, m := Ready([], 0, Metadata, "p", maxWait);
    var w, msg := After(run, maxWait), MetadataMsg(0, ["p"]);
    var plan := ProcessPlan(msg, ["p"]);
    NothingImported(msg, plan, NOTHING_READ);
    Marked(w.rows, msg, ["p"]);
    var ids;
    run, ids := TakenUp(run, BeginProcess(m), NOTHING_READ, maxWait);
    assert ProcessedUnread(After(run, maxWait), 0, "p");
  }

  /** What a process handler does to the rows. */
  lemma Marked(rows: Rows, msg: Msg, packages: seq<PackageId>)
    requires msg.Process()
    ensures RowsAfter(rows, ProcessPlan(msg, packages)) == Write(rows, SetState(msg.query, Processed, None, None))
  {
    CarryOutImports(rows, packages, FinishPlan(msg));
    var write := SetState(msg.query, Processed, None, None);
    if msg.MetadataMsg? {
      assert FinishPlan(msg) == [write, Publish(CompleteCfdisMsg), Ack];
      CarryOutBoth(rows, write, CompleteCfdisMsg);
    } else {
      assert FinishPlan(msg) == [write, Ack];
      CarryOutWrite(rows, write);
    }
  }

  /** So is one that is not stored, when the handler falls back on the packages of the row. */
  lemma UnstoredPackage(maxWait: int)
    ensures exists run, q, p ::
              IsRun(run, maxWait) && ProcessedUnread(After(run, maxWait), q, p) && p !in After(run, maxWait).blobs
  {
    var run, m := RunToProcessed(maxWait);
    ProcessedMeansAttempted(run, maxWait);
    var w := After(run, maxWait);
    assert ProcessedUnread(w, 0, w.rows[0].packages[0]);
  }

  // ------------------------------------------------------------ processed and not marked as XML

  /** A metadata package of one statement is imported while another handler is at its own. */
  lemma RecordImported(run: seq<Step>, m: MsgId, q: QueryId, maxWait: int) returns (longer: seq<Step>)
    requires IsRun(run, maxWait) && Idle(After(run, maxWait), m) && After(run, maxWait).queue[m] == MetadataMsg(q, ["m"])
    requires "m" in After(run, maxWait).blobs
    ensures IsRun(longer, maxWait)
    ensures var (w, w') := (After(run, maxWait), After(longer, maxWait));
            && w'.imported == w.imported + [Statement(true, "m", 0)] && w'.active == w.active && w'.blobs == w.blobs
            && w'.rows == Write(w.rows, SetState(q, Processed, None, None))
            && forall n :: n in w.queue && n != m ==> n in w'.queue && w'.queue[n] == w.queue[n]
  {
    var w, msg := After(run, maxWait), MetadataMsg(q, ["m"]);
    var sizes: Sizes := p => if p == "m" then Some(1) else None;
    var plan := ProcessPlan(msg, ["m"]);
    Marked(w.rows, msg, ["m"]);
    OneImported(msg, "m", sizes);
    var ids;
    longer, ids := TakenUp(run, BeginProcess(m), sizes, maxWait);
    EnqueueKeeps(w.queue, ids, Published(plan));
    assert w.active - {m} == w.active;
  }

  lemma OneImported(msg: Msg, p: PackageId, sizes: Sizes)
    requires msg.Process() && sizes(p) == Some(1)
    ensures ImportedBy(msg, ProcessPlan(msg, [p]), sizes) == [Statement(msg.MetadataMsg?, p, 0)]
  {
    var plan := ProcessPlan(msg, [p]);
    assert plan[0] == Import(p) && plan[1..] == FinishPlan(msg);
    NothingImported(msg, plan[1..], sizes);
    assert StatementsOf(msg.MetadataMsg?, p, 1) == [Statement(msg.MetadataMsg?, p, 0)];
  }

  lemma {:induction false} EnqueueKeeps(queue: map<MsgId, Msg>, ids: seq<MsgId>, msgs: seq<Msg>)
    requires |ids| == |msgs| && NewIds(queue, ids)
    ensures forall n :: n in queue ==> n in Enqueue(queue, ids, msgs) && Enqueue(queue, ids, msgs)[n] == queue[n]
    decreases |ids|
  {
    if ids != [] {
      var rest := queue[ids[0] := msgs[0]];
      assert forall id :: id in ids[1..] ==> id !in rest;
      EnqueueKeeps(rest, ids[1..], msgs[1..]);
      assert ids[0] in ids;
    }
  }

  /** An XML package of one document, after the document's update. */
  lemma FirstHalf(run: seq<Step>, x: MsgId, q: QueryId, maxWait: int) returns (longer: seq<Step>)
    requires IsRun(run, maxWait) && Idle(After(run, maxWait), x) && After(run, maxWait).queue[x] == XmlMsg(q, ["x"])
    requires "x" in After(run, maxWait).blobs
    ensures IsRun(longer, maxWait)
    ensures var (w, w') := (After(run, maxWait), After(longer, maxWait));
            && w'.imported == w.imported + [Statement(false, "x", 0)]
            && w'.active == w.active[x := Importing(ProcessPlan(XmlMsg(q, ["x"]), ["x"]), 1, 2, true)]
            && w'.rows == w.rows && w'.queue == w.queue && w'.blobs == w.blobs
  {
    longer := Extend(run, BeginProcess(x), maxWait);
    longer := Extend(longer, OpenPackage(x, 2), maxWait);
    longer := Updated(longer, x, maxWait);
  }

  lemma Updated(run: seq<Step>, x: MsgId, maxWait: int) returns (longer: seq<Step>)
    requires IsRun(run, maxWait) && InImport(After(run, maxWait), x) && After(run, maxWait).queue[x].XmlMsg?
    requires var work := After(run, maxWait).active[x];
             work.done == 0 && work.size == 2 && work.whole && work.plan[0].pkg == "x"
    ensures IsRun(longer, maxWait)
    ensures var (w, w') := (After(run, maxWait), After(longer, maxWait));
            && w'.imported == w.imported + [Statement(false, "x", 0)]
            && w'.active == w.active[x := Importing(w.active[x].plan, 1, 2, true)]
            && w'.rows == w.rows && w'.queue == w.queue && w'.blobs == w.blobs
  {
    longer := Extend(run, Execute(x, true), maxWait);
  }

  /** Then its insert, and the end of its handler. */
  lemma SecondHalf(run: seq<Step>, x: MsgId, q: QueryId, maxWait: int) returns (longer: seq<Step>)
    requires IsRun(run, maxWait) && x in After(run, maxWait).queue && After(run, maxWait).queue[x] == XmlMsg(q, ["x"])
    requires x in After(run, maxWait).active
    requires After(run, maxWait).active[x] == Importing(ProcessPlan(XmlMsg(q, ["x"]), ["x"]), 1, 2, true)
    ensures IsRun(longer, maxWait)
    ensures var (w, w') := (After(run, maxWait), After(longer, maxWait));
            && w'.imported == w.imported + [Statement(false, "x", 1)]
            && w'.rows == Write(w.rows, SetState(q, Processed, None, None))
  {
    var plan := ProcessPlan(XmlMsg(q, ["x"]), ["x"]);
    assert plan[1..] == [SetState(q, Processed, None, None), Ack];
    longer := Extend(run, Execute(x, true), maxWait);
    longer := Extend(longer, ClosePackage(x), maxWait);
    longer := MarkedOnly(longer, x, q, maxWait);
  }

  lemma MarkedOnly(run: seq<Step>, x: MsgId, q: QueryId, maxWait: int) returns (longer: seq<Step>)
    requires IsRun(run, maxWait) && x in After(run, maxWait).queue && x in After(run, maxWait).active
    requires After(run, maxWait).active[x] == Running([SetState(q, Processed, None, None), Ack])
    ensures IsRun(longer, maxWait) && After(longer, maxWait).imported == After(run, maxWait).imported
    ensures After(longer, maxWait).rows == Write(After(run, maxWait).rows, SetState(q, Processed, None, None))
  {
    longer := Extend(run, Act(x, 0), maxWait);
  }

  /** Two queries, one of each type, are ready to be processed. */
  lemma BothReady(maxWait: int) returns (run: seq<Step>, x: MsgId, m: MsgId)
    ensures IsRun(run, maxWait) && x != m
    ensures var w := After(run, maxWait);
            && w.rows.Keys == {0, 1} && w.active == map[] && w.imported == [] && w.blobs == {"x", "m"}
            && w.queue == map[x := XmlMsg(0, ["x"]), m := MetadataMsg(1, ["m"])]
  {
    run, x := Ready([], 0, Cfdi, "x", maxWait);
    run, m := Ready(run, 1, Metadata, "m", maxWait);
  }

  /** Two queries, one of each type, whose handlers take turns: the record lands between the two
      statements of the document. */
  lemma RunToDivided(maxWait: int) returns (run: seq<Step>)
    ensures IsRun(run, maxWait)
    ensures var w := After(run, maxWait);
            && w.rows.Keys == {0, 1} && w.rows[0].state.Processed? && w.rows[1].state.Processed?
            && w.imported == [Statement(false, "x", 0), Statement(true, "m", 0), Statement(false, "x", 1)]
  {
    var x, m;
    run, x, m := BothReady(maxWait);
    run := FirstHalf(run, x, 0, maxWait);
    run := RecordImported(run, m, 1, maxWait);
    run := SecondHalf(run, x, 0, maxWait);
  }

  /** A metadata package of one record and an XML package of the same CFDI. */
  function SameCfdi(rec: MetadataJoiner.Record): Contents {
    (metadata, p) =>
      if metadata && p == "m" then [[Ledger.Meta(rec)]]
      else if !metadata && p == "x" then [[Ledger.XmlUpdate(rec.uuid)], [Ledger.XmlInsert(rec.uuid, rec.rfcEmisor)]]
      else []
  }

  /** Both queries are PROCESSED, every statement of both packages executed, and yet the CFDI is not
      marked as XML. */
  ghost predicate FlagLost(w: World, rec: MetadataJoiner.Record, company: Ledger.Rfc) {
    && w.rows.Keys == {0, 1} && w.rows[0].state.Processed? && w.rows[1].state.Processed?
    && ExecutedUpTo(w, false, "x", 2) && ExecutedUpTo(w, true, "m", 1)
    && var (t, k) := (TableOf(w, SameCfdi(rec), company), Ledger.Key(rec.rfcEmisor == company, rec.uuid));
       k in t && !t[k].fromXml
  }

  lemma DividedDocument(rec: MetadataJoiner.Record, company: Ledger.Rfc, maxWait: int)
    ensures exists run :: IsRun(run, maxWait) && FlagLost(After(run, maxWait), rec, company)
  {
    var run := RunToDivided(maxWait);
    LostBetween(After(run, maxWait), rec, company);
  }

  lemma LostBetween(w: World, rec: MetadataJoiner.Record, company: Ledger.Rfc)
    requires w.rows.Keys == {0, 1} && w.rows[0].state.Processed? && w.rows[1].state.Processed?
    requires w.imported == [Statement(false, "x", 0), Statement(true, "m", 0), Statement(false, "x", 1)]
    ensures FlagLost(w, rec, company)
  {
    ThreeOps(rec);
    Ledger.DividedDocumentLosesFlag(rec, company);
    assert w.imported[0] in w.imported && w.imported[1] in w.imported && w.imported[2] in w.imported;
  }

  lemma ThreeOps(rec: MetadataJoiner.Record)
    ensures OpsOf([Statement(false, "x", 0), Statement(true, "m", 0), Statement(false, "x", 1)], SameCfdi(rec))
              == [Ledger.XmlUpdate(rec.uuid), Ledger.Meta(rec), Ledger.XmlInsert(rec.uuid, rec.rfcEmisor)]
  {
    var a, b, c, content := Statement(false, "x", 0), Statement(true, "m", 0), Statement(false, "x", 1), SameCfdi(rec);
    assert [a, b, c][..2] == [a, b] && [a, b][..1] == [a] && [a][..0] == [];
    assert OpsOf([a], content) == [Ledger.XmlUpdate(rec.uuid)];
    assert OpsOf([a, b], content) == [Ledger.XmlUpdate(rec.uuid), Ledger.Meta(rec)];
  }
}
