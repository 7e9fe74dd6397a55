/** Every call of a handler, and every manual re-verification, is matched by a run of the protocol:
    from a worker that agrees with the world, the call leaves the rows, the events, the blobs and the
    `cfdi` table that the run leaves. The payment tables are not part of the world. */
module Simulation {
  import opened Options
  import opened Pipeline
  import opened Protocol
  import opened Handlers
  import opened Applied
  import Ledger
  import MetadataJoiner
  import opened TenantTables

  /** The first `k` goroutines of a download have finished, in the order of the packages. */
  ghost predicate DownloadedUpTo(w: World, w': World, m: MsgId, ok: seq<bool>, k: nat)
    requires m in w.queue && w.queue[m].DownloadMsg? && |ok| == |w.queue[m].packages| && k <= |ok|
  {
    && w'.rows == w.rows && w'.queue == w.queue && w'.imported == w.imported && w'.now == w.now
    && w'.reverify == w.reverify && w'.orphans == w.orphans
    && m in w'.active && w'.active - {m} == w.active - {m} && w'.active[m].Downloading?
    && w'.active[m].pending == Indices(|ok|) - Indices(k)
    && (w'.active[m].firstErr.None? <==> AllTrue(ok[..k]))
    && w'.blobs == w.blobs + Fetched(w.queue[m].packages[..k], ok[..k])
  }

  lemma FetchedOneMore(packages: seq<PackageId>, ok: seq<bool>, k: nat)
    requires |ok| == |packages| && k < |ok|
    ensures Fetched(packages[..k + 1], ok[..k + 1])
              == Fetched(packages[..k], ok[..k]) + if ok[k] then {packages[k]} else {}
    ensures AllTrue(ok[..k + 1]) <==> AllTrue(ok[..k]) && ok[k]
  {
    var a, b := Fetched(packages[..k], ok[..k]), Fetched(packages[..k + 1], ok[..k + 1]);
    forall p ensures p in b <==> p in a || (ok[k] && p == packages[k]) {
      if p in a {
        var i :| 0 <= i < k && ok[..k][i] && packages[..k][i] == p;
        assert ok[..k + 1][i] && packages[..k + 1][i] == p;
      }
      if ok[k] && p == packages[k] {
        assert ok[..k + 1][k] && packages[..k + 1][k] == p;
      }
      if p in b {
        var i :| 0 <= i < k + 1 && ok[..k + 1][i] && packages[..k + 1][i] == p;
        if i < k {
          assert ok[..k][i] && packages[..k][i] == p;
        }
      }
    }
    assert ok[..k + 1] == ok[..k] + [ok[k]];
  }

  lemma DownloadedNone(w: World, m: MsgId, ok: seq<bool>, maxWait: int)
    requires Enabled(w, BeginDownload(m, true)) && |ok| == |w.queue[m].packages|
    ensures DownloadedUpTo(w, Apply(w, BeginDownload(m, true), maxWait), m, ok, 0)
  {
    var w' := Apply(w, BeginDownload(m, true), maxWait);
    assert ok[..0] == [] && w.queue[m].packages[..0] == [] && w'.active - {m} == w.active - {m};
    assert Indices(|ok|) - Indices(0) == Indices(|ok|);
  }

  lemma NextPackage(w: World, v: World, m: MsgId, ok: seq<bool>, k: nat)
    requires m in w.queue && w.queue[m].DownloadMsg? && |ok| == |w.queue[m].packages| && k < |ok|
    requires DownloadedUpTo(w, v, m, ok, k)
    ensures Enabled(v, Package(m, k, ok[k]))
  {
  }

  lemma OnePackageMore(w: World, v: World, m: MsgId, ok: seq<bool>, k: nat, maxWait: int)
    requires m in w.queue && w.queue[m].DownloadMsg? && |ok| == |w.queue[m].packages| && k < |ok|
    requires DownloadedUpTo(w, v, m, ok, k) && Enabled(v, Package(m, k, ok[k]))
    ensures DownloadedUpTo(w, Apply(v, Package(m, k, ok[k]), maxWait), m, ok, k + 1)
  {
    var w' := Apply(v, Package(m, k, ok[k]), maxWait);
    FetchedOneMore(w.queue[m].packages, ok, k);
    assert w'.active[m].pending == Indices(|ok|) - Indices(k + 1) by {
      assert forall i: nat :: i in Indices(k + 1) <==> i in Indices(k) || i == k;
    }
    assert w'.active - {m} == v.active - {m};
  }

  lemma DownloadNext(w: World, run: seq<Step>, m: MsgId, ok: seq<bool>, k: nat, maxWait: int) returns (longer: seq<Step>)
    requires IsRun(run, maxWait)
    requires m in w.queue && w.queue[m].DownloadMsg? && |ok| == |w.queue[m].packages| && k < |ok|
    requires DownloadedUpTo(w, After(run, maxWait), m, ok, k)
    ensures IsRun(longer, maxWait) && DownloadedUpTo(w, After(longer, maxWait), m, ok, k + 1)
  {
    NextPackage(w, After(run, maxWait), m, ok, k);
    OnePackageMore(w, After(run, maxWait), m, ok, k, maxWait);
    longer := Extend(run, Package(m, k, ok[k]), maxWait);
  }

  lemma {:induction false} DownloadSome(run: seq<Step>, m: MsgId, ok: seq<bool>, k: nat, maxWait: int)
    returns (longer: seq<Step>)
    requires IsRun(run, maxWait) && Enabled(After(run, maxWait), BeginDownload(m, true))
    requires |ok| == |After(run, maxWait).queue[m].packages| && k <= |ok|
    ensures IsRun(longer, maxWait) && DownloadedUpTo(After(run, maxWait), After(longer, maxWait), m, ok, k)
    decreases k
  {
    if k == 0 {
      longer := Extend(run, BeginDownload(m, true), maxWait);
      DownloadedNone(After(run, maxWait), m, ok, maxWait);
    } else {
      longer := DownloadSome(run, m, ok, k - 1, maxWait);
      longer := DownloadNext(After(run, maxWait), longer, m, ok, k - 1, maxWait);
    }
  }

  /** A download with a FIEL, from its beginning to its settlement. */
  lemma DownloadThrough(run: seq<Step>, m: MsgId, ok: seq<bool>, maxWait: int) returns (longer: seq<Step>, ids: seq<MsgId>)
    requires IsRun(run, maxWait) && Enabled(After(run, maxWait), BeginDownload(m, true))
    requires |ok| == |After(run, maxWait).queue[m].packages|
    ensures IsRun(longer, maxWait)
    ensures var (w, w', msg) := (After(run, maxWait), After(longer, maxWait), After(run, maxWait).queue[m]);
            && RanThrough(w.(blobs := w'.blobs), w', m, DownloadPlan(msg, AllTrue(ok)), NOTHING_READ, ids)
            && w'.blobs == w.blobs + Fetched(msg.packages, ok)
  {
    var w := After(run, maxWait);
    longer := DownloadSome(run, m, ok, |ok|, maxWait);
    var v := After(longer, maxWait);
    assert ok[..|ok|] == ok && w.queue[m].packages[..|ok|] == w.queue[m].packages;
    assert v.active[m].pending == {};
    longer, ids := TakenUp(longer, Join(m), NOTHING_READ, maxWait);
  }

  // ------------------------------------------------------------ calls and runs

  /** After its call the worker agrees with the world `w'`, which differs from `w` by the settled
      messages and the messages the worker has sent, each under an identifier of its own. */
  ghost predicate Matches(worker: Worker, sent0: seq<Msg>, w: World, w': World, settled: set<MsgId>, ids: seq<MsgId>)
    reads worker
  {
    && worker.rows == w'.rows && NewIds(w.queue, ids)
    && exists news :: worker.sent == sent0 + news && |ids| == |news|
                      && w'.queue == Enqueue(w.queue, ids, news) - settled
  }

  // ------------------------------------------------------------ what is imported

  function Flatten(ss: seq<seq<Ledger.Op>>): seq<Ledger.Op> {
    if ss == [] then [] else Flatten(ss[..|ss| - 1]) + ss[|ss| - 1]
  }

  /** The first `k` statements of a package. */
  lemma {:induction false} OpsOfPackage(metadata: bool, p: PackageId, content: Contents, k: nat)
    requires k <= |content(metadata, p)|
    ensures OpsOf(StatementsOf(metadata, p, k), content) == Flatten(content(metadata, p)[..k])
    decreases k
  {
    var ss, held := StatementsOf(metadata, p, k), content(metadata, p);
    if k == 0 {
      assert ss == [] && held[..0] == [];
    } else {
      OpsOfPackage(metadata, p, content, k - 1);
      assert ss[..k - 1] == StatementsOf(metadata, p, k - 1) && held[..k][..k - 1] == held[..k - 1];
    }
  }

  lemma {:induction false} OpsOfConcat(a: seq<Statement>, b: seq<Statement>, content: Contents)
    ensures OpsOf(a + b, content) == OpsOf(a, content) + OpsOf(b, content)
    decreases |b|
  {
    if b == [] {
      assert a + b == a;
    } else {
      var init, last := b[..|b| - 1], b[|b| - 1];
      OpsOfConcat(a, init, content);
      assert (a + b)[..|a + b| - 1] == a + init;
      Assoc(OpsOf(a, content), OpsOf(init, content), OpsAt(last, content));
    }
  }

  /** Which packages the handler can read: those it has files for. */
  function Readables(metadata: bool, readable: set<PackageId>, content: Contents): Sizes {
    p => if p in readable then Some(|content(metadata, p)|) else None
  }

  /** What a package holds, if it can be read. */
  function HeldOne(metadata: bool, p: PackageId, readable: set<PackageId>, content: Contents): seq<Ledger.Op> {
    if p in readable then Flatten(content(metadata, p)) else []
  }

  /** What the packages hold, one after the other. */
  function Held(metadata: bool, packages: seq<PackageId>, readable: set<PackageId>, content: Contents): seq<Ledger.Op> {
    if packages == [] then []
    else
      Held(metadata, packages[..|packages| - 1], readable, content)
      + HeldOne(metadata, packages[|packages| - 1], readable, content)
  }

  lemma {:induction false} HeldFront(metadata: bool, packages: seq<PackageId>, readable: set<PackageId>, content: Contents)
    requires packages != []
    ensures Held(metadata, packages, readable, content)
              == HeldOne(metadata, packages[0], readable, content) + Held(metadata, packages[1..], readable, content)
    decreases |packages|
  {
    var init, last := packages[..|packages| - 1], packages[|packages| - 1];
    if init == [] {
      assert packages == [last] && packages[1..] == [];
    } else {
      HeldFront(metadata, init, readable, content);
      assert packages[1..][..|packages| - 2] == init[1..];
      Assoc(HeldOne(metadata, packages[0], readable, content), Held(metadata, init[1..], readable, content),
            HeldOne(metadata, last, readable, content));
    }
  }

  /** What an undisturbed process handler executes is what its packages hold. */
  lemma {:induction false} PlanImports(msg: Msg, packages: seq<PackageId>, readable: set<PackageId>, content: Contents)
    requires msg.Process()
    ensures OpsOf(ImportedBy(msg, ProcessPlan(msg, packages), Readables(msg.MetadataMsg?, readable, content)), content)
              == Held(msg.MetadataMsg?, packages, readable, content)
    decreases |packages|
  {
    var sizes := Readables(msg.MetadataMsg?, readable, content);
    if packages == [] {
      assert ProcessPlan(msg, packages) == FinishPlan(msg);
      NothingImported(msg, FinishPlan(msg), sizes);
    } else {
      PlanImports(msg, packages[1..], readable, content);
      FirstImport(msg, packages, sizes);
      OpsOfConcat(ImportedOf(msg, packages[0], sizes), ImportedBy(msg, ProcessPlan(msg, packages[1..]), sizes), content);
      OnePackage(msg, packages[0], readable, content);
      HeldFront(msg.MetadataMsg?, packages, readable, content);
    }
  }

  lemma FirstImport(msg: Msg, packages: seq<PackageId>, sizes: Sizes)
    requires msg.Process() && packages != []
    ensures ImportedBy(msg, ProcessPlan(msg, packages), sizes)
              == ImportedOf(msg, packages[0], sizes) + ImportedBy(msg, ProcessPlan(msg, packages[1..]), sizes)
  {
    var plan := ProcessPlan(msg, packages);
    assert plan[0] == Import(packages[0]) && plan[1..] == ProcessPlan(msg, packages[1..]);
  }

  lemma OnePackage(msg: Msg, p: PackageId, readable: set<PackageId>, content: Contents)
    requires msg.Process()
    ensures OpsOf(ImportedOf(msg, p, Readables(msg.MetadataMsg?, readable, content)), content)
              == HeldOne(msg.MetadataMsg?, p, readable, content)
  {
    if p in readable {
      var held := content(msg.MetadataMsg?, p);
      OpsOfPackage(msg.MetadataMsg?, p, content, |held|);
      assert held[..|held|] == held;
    }
  }

  /** The readable packages hold these metadata files, in batches. */
  ghost predicate HoldsFiles(content: Contents, files: map<PackageId, MetadataFile>, norm: string -> string) {
    forall p :: p in files ==> Flatten(content(true, p)) == Ledger.Records(MetadataJoiner.Parsed(files[p], norm))
  }

  /** They hold these documents, each in two statements. */
  ghost predicate HoldsXmls(content: Contents, zips: map<PackageId, seq<XmlFile>>) {
    forall p :: p in zips ==> Flatten(content(false, p)) == Ledger.Halves(XmlOps(FirstFiles(zips[p], {})))
  }

  lemma {:induction false} HeldMetadata(packages: seq<PackageId>, content: Contents,
                                        files: map<PackageId, MetadataFile>, norm: string -> string)
    requires HoldsFiles(content, files, norm)
    ensures Held(true, packages, files.Keys, content) == Ledger.Records(MetadataOf(packages, files, norm))
    decreases |packages|
  {
    if packages != [] {
      var init, p := packages[..|packages| - 1], packages[|packages| - 1];
      HeldMetadata(init, content, files, norm);
      if p in files {
        RecordsConcat(MetadataOf(init, files, norm), MetadataJoiner.Parsed(files[p], norm));
      }
    }
  }

  lemma RecordsConcat(a: seq<MetadataJoiner.Record>, b: seq<MetadataJoiner.Record>)
    ensures Ledger.Records(a + b) == Ledger.Records(a) + Ledger.Records(b)
  {
  }

  lemma {:induction false} HeldDocuments(packages: seq<PackageId>, content: Contents, zips: map<PackageId, seq<XmlFile>>)
    requires HoldsXmls(content, zips)
    ensures Held(false, packages, zips.Keys, content) == Ledger.Halves(XmlOps(DocumentsOf(packages, zips)))
    decreases |packages|
  {
    if packages != [] {
      var init, p := packages[..|packages| - 1], packages[|packages| - 1];
      HeldDocuments(init, content, zips);
      if p in zips {
        XmlsConcat(DocumentsOf(init, zips), FirstFiles(zips[p], {}));
        HalvesConcat(XmlOps(DocumentsOf(init, zips)), XmlOps(FirstFiles(zips[p], {})));
      }
    }
  }

  lemma XmlsConcat(a: seq<XmlFile>, b: seq<XmlFile>)
    ensures XmlOps(a + b) == XmlOps(a) + XmlOps(b)
  {
  }

  lemma {:induction false} HalvesConcat(a: seq<Ledger.Op>, b: seq<Ledger.Op>)
    requires (forall op :: op in a ==> op.Xml?) && (forall op :: op in b ==> op.Xml?)
    ensures Ledger.Halves(a + b) == Ledger.Halves(a) + Ledger.Halves(b)
    decreases |b|
  {
    if b == [] {
      assert a + b == a;
    } else {
      var init, last := b[..|b| - 1], b[|b| - 1];
      HalvesConcat(a, init);
      assert (a + b)[..|a + b| - 1] == a + init;
      Assoc(Ledger.Halves(a), Ledger.Halves(init), [Ledger.XmlUpdate(last.uuid), Ledger.XmlInsert(last.uuid, last.emisor)]);
    }
  }

  /** The packages of the documents agree on who issued each CFDI. */
  lemma {:induction false} DocumentsAgree(packages: seq<PackageId>, zips: map<PackageId, seq<XmlFile>>,
                                          issuer: Ledger.Uuid -> Ledger.Rfc)
    requires Agree(zips, issuer)
    ensures Ledger.AllConsistent(XmlOps(DocumentsOf(packages, zips)), issuer)
    decreases |packages|
  {
    if packages != [] {
      var init, p := packages[..|packages| - 1], packages[|packages| - 1];
      DocumentsAgree(init, zips, issuer);
      if p in zips {
        XmlsConcat(DocumentsOf(init, zips), FirstFiles(zips[p], {}));
      }
    }
  }

  ghost predicate Agree(zips: map<PackageId, seq<XmlFile>>, issuer: Ledger.Uuid -> Ledger.Rfc) {
    forall p :: p in zips ==> Ledger.AllConsistent(XmlOps(FirstFiles(zips[p], {})), issuer)
  }

  // ------------------------------------------------------------ the calls

  /** Creation, whatever SAT answers. */
  method CreateMatched(worker: Worker, q: QueryId, rt: RequestType, certs: bool, accepted: bool, now: int,
                       ghost run: seq<Step>, ghost m: MsgId)
    returns (ghost longer: seq<Step>, ghost ids: seq<MsgId>)
    requires IsRun(run, worker.maxWait)
    requires var w := After(run, worker.maxWait); q !in w.rows && m !in w.queue && worker.rows == w.rows && now == w.now
    modifies worker`rows, worker`sent
    ensures IsRun(longer, worker.maxWait)
    ensures Matches(worker, old(worker.sent), After(run, worker.maxWait), After(longer, worker.maxWait), {}, ids)
  {
    longer, ids := Creation(run, q, rt, certs, accepted, m, worker.maxWait);
    worker.HandleCreate(q, rt, certs, accepted, now);
  }

  lemma Creation(run: seq<Step>, q: QueryId, rt: RequestType, certs: bool, accepted: bool, m: MsgId, maxWait: int)
    returns (longer: seq<Step>, ids: seq<MsgId>)
    requires IsRun(run, maxWait) && q !in After(run, maxWait).rows && m !in After(run, maxWait).queue
    ensures IsRun(longer, maxWait)
    ensures var (w, w') := (After(run, maxWait), After(longer, maxWait));
            var news := if certs && accepted then [VerifyMsg(q, rt, Some(w.now), w.now)] else [];
            && w'.rows == w.rows[q := if !certs then Row(ErrorInCerts, rt, None, None, [])
                                      else if !accepted then Row(ErrorSatWsInternal, rt, None, None, [])
                                      else Row(Sent, rt, Some(w.now), None, [])]
            && |ids| == |news| && NewIds(w.queue, ids) && w'.queue == Enqueue(w.queue, ids, news) - {}
  {
    if certs && accepted {
      longer := Accepted(run, q, rt, m, maxWait);
      ids := [m];
    } else {
      longer := Refused(run, q, rt, !certs, maxWait);
      ids := [];
    }
    NothingSettled(After(longer, maxWait).queue);
  }

  lemma Accepted(run: seq<Step>, q: QueryId, rt: RequestType, m: MsgId, maxWait: int) returns (longer: seq<Step>)
    requires IsRun(run, maxWait) && q !in After(run, maxWait).rows && m !in After(run, maxWait).queue
    ensures IsRun(longer, maxWait)
    ensures var (w, w') := (After(run, maxWait), After(longer, maxWait));
            && w'.rows == w.rows[q := Row(Sent, rt, Some(w.now), None, [])]
            && w'.queue == Enqueue(w.queue, [m], [VerifyMsg(q, rt, Some(w.now), w.now)])
  {
    var w := After(run, maxWait);
    longer := Extend(run, Create(q, rt, m), maxWait);
    EnqueueSingle(w.queue, m, VerifyMsg(q, rt, Some(w.now), w.now));
  }

  lemma Refused(run: seq<Step>, q: QueryId, rt: RequestType, inCerts: bool, maxWait: int) returns (longer: seq<Step>)
    requires IsRun(run, maxWait) && q !in After(run, maxWait).rows
    ensures IsRun(longer, maxWait) && After(longer, maxWait).queue == After(run, maxWait).queue
    ensures After(longer, maxWait).rows
              == After(run, maxWait).rows[q := Row(if inCerts then ErrorInCerts else ErrorSatWsInternal, rt, None, None, [])]
  {
    longer := Extend(run, CreateFails(q, rt, inCerts), maxWait);
  }

  lemma NothingSettled(queue: map<MsgId, Msg>)
    ensures queue - {} == queue
  {
  }

  lemma EnqueueSingle(queue: map<MsgId, Msg>, m: MsgId, msg: Msg)
    ensures Enqueue(queue, [m], [msg]) == queue[m := msg]
  {
    assert Enqueue(queue[m := msg], [m][1..], [msg][1..]) == queue[m := msg];
  }

  /** Verification: a call is matched by taking up the message and carrying the plan out. */
  method VerifyMatched(worker: Worker, msg: Msg, answer: VerifyAnswer, now: int, ghost run: seq<Step>, ghost m: MsgId)
    returns (outcome: AckOutcome, ghost longer: seq<Step>, ghost ids: seq<MsgId>)
    requires IsRun(run, worker.maxWait) && Enabled(After(run, worker.maxWait), BeginVerify(m, answer))
    requires var w := After(run, worker.maxWait); worker.rows == w.rows && msg == w.queue[m] && now == w.now
    modifies worker`rows, worker`sent
    ensures outcome.AckComplete? && IsRun(longer, worker.maxWait)
    ensures Matches(worker, old(worker.sent), After(run, worker.maxWait), After(longer, worker.maxWait), {m}, ids)
  {
    longer, ids := TakenUp(run, BeginVerify(m, answer), NOTHING_READ, worker.maxWait);
    ghost var plan := VerifyPlan(worker.rows, msg, answer, now, worker.maxWait);
    outcome := worker.HandleVerify(msg, answer, now);
    assert worker.sent == old(worker.sent) + Published(plan);
  }

  /** Download, whichever packages come through. */
  method DownloadMatched(worker: Worker, msg: Msg, fiel: bool, ok: seq<bool>, ghost run: seq<Step>, ghost m: MsgId)
    returns (ghost longer: seq<Step>, ghost ids: seq<MsgId>)
    requires IsRun(run, worker.maxWait) && Enabled(After(run, worker.maxWait), BeginDownload(m, fiel))
    requires var w := After(run, worker.maxWait); worker.rows == w.rows && worker.blobs == w.blobs && msg == w.queue[m]
    requires |ok| == |msg.packages|
    modifies worker`rows, worker`sent, worker`blobs
    ensures IsRun(longer, worker.maxWait) && worker.blobs == After(longer, worker.maxWait).blobs
    ensures Matches(worker, old(worker.sent), After(run, worker.maxWait), After(longer, worker.maxWait), {m}, ids)
  {
    if fiel {
      longer, ids := DownloadThrough(run, m, ok, worker.maxWait);
    } else {
      longer, ids := TakenUp(run, BeginDownload(m, false), NOTHING_READ, worker.maxWait);
    }
    ghost var plan := DownloadPlan(msg, fiel && AllTrue(ok));
    worker.HandleDownload(msg, fiel, ok);
    assert worker.sent == old(worker.sent) + Published(plan);
  }

  /** A process handler taken up and left alone, with files for some of the stored packages. */
  lemma Processed(run: seq<Step>, m: MsgId, readable: set<PackageId>, content: Contents, maxWait: int)
    returns (longer: seq<Step>, ids: seq<MsgId>)
    requires IsRun(run, maxWait) && Enabled(After(run, maxWait), BeginProcess(m)) && readable <= After(run, maxWait).blobs
    ensures IsRun(longer, maxWait)
    ensures var (w, w') := (After(run, maxWait), After(longer, maxWait));
            var (msg, packages) := (w.queue[m], PackagesToProcess(w.rows, w.queue[m]));
            && w'.rows == RowsAfter(w.rows, ProcessPlan(msg, packages)) && NewIds(w.queue, ids)
            && |ids| == |Published(ProcessPlan(msg, packages))|
            && w'.queue == Enqueue(w.queue, ids, Published(ProcessPlan(msg, packages))) - {m}
            && OpsOf(w'.imported, content)
                 == OpsOf(w.imported, content) + Held(msg.MetadataMsg?, packages, readable, content)
  {
    var w := After(run, maxWait);
    var packages := PackagesToProcess(w.rows, w.queue[m]);
    var sizes := Readables(w.queue[m].MetadataMsg?, readable, content);
    longer, ids := TakenUp(run, BeginProcess(m), sizes, maxWait);
    PlanImports(w.queue[m], packages, readable, content);
    OpsOfConcat(w.imported, ImportedBy(w.queue[m], ProcessPlan(w.queue[m], packages), sizes), content);
  }

  /** Processing of metadata, the RFC being known: the `cfdi` table agrees as well. */
  method MetadataMatched(worker: Worker, msg: Msg, files: map<PackageId, MetadataFile>, norm: string -> string,
                         ghost content: Contents, ghost run: seq<Step>, ghost m: MsgId)
    returns (outcome: AckOutcome, ghost longer: seq<Step>, ghost ids: seq<MsgId>)
    requires IsRun(run, worker.maxWait) && Enabled(After(run, worker.maxWait), BeginProcess(m))
    requires var w := After(run, worker.maxWait);
             worker.rows == w.rows && msg == w.queue[m] && msg.MetadataMsg? && files.Keys <= w.blobs
    requires HoldsFiles(content, files, norm)
    requires worker.db.cfdi == TableOf(After(run, worker.maxWait), content, worker.db.company)
    modifies worker`rows, worker`sent, worker.db`cfdi, worker.db`payments, worker.db`relations
    ensures IsRun(longer, worker.maxWait)
    ensures worker.db.cfdi == TableOf(After(longer, worker.maxWait), content, worker.db.company)
    ensures outcome.AckComplete?
    ensures Matches(worker, old(worker.sent), After(run, worker.maxWait), After(longer, worker.maxWait), {m}, ids)
  {
    longer, ids := Processed(run, m, files.Keys, content, worker.maxWait);
    ghost var (packages, done) := (PackagesToProcess(worker.rows, msg), After(run, worker.maxWait).imported);
    HeldMetadata(packages, content, files, norm);
    Ledger.ExecAllConcat(map[], OpsOf(done, content), Ledger.Records(MetadataOf(packages, files, norm)), worker.db.company);
    outcome := worker.HandleMetadata(msg, true, files, norm);
    assert worker.sent == old(worker.sent) + Published(ProcessPlan(msg, packages));
  }

  /** Processing of XML, the RFC being known. That a document's insert follows its update whether or not
      that found the CFDI makes no difference where all agree on who issued it. */
  method XmlMatched(worker: Worker, msg: Msg, zips: map<PackageId, seq<XmlFile>>, norm: string -> string,
                    ghost content: Contents, ghost issuer: Ledger.Uuid -> Ledger.Rfc, ghost run: seq<Step>, ghost m: MsgId)
    returns (outcome: AckOutcome, ghost longer: seq<Step>, ghost ids: seq<MsgId>)
    requires IsRun(run, worker.maxWait) && Enabled(After(run, worker.maxWait), BeginProcess(m))
    requires var w := After(run, worker.maxWait);
             worker.rows == w.rows && msg == w.queue[m] && msg.XmlMsg? && zips.Keys <= w.blobs
    requires HoldsXmls(content, zips) && Sane(content, issuer) && Agree(zips, issuer)
    requires worker.db.cfdi == TableOf(After(run, worker.maxWait), content, worker.db.company)
    modifies worker`rows, worker.db`cfdi, worker.db`payments, worker.db`relations, worker.db`prCount
    ensures IsRun(longer, worker.maxWait)
    ensures worker.db.cfdi == TableOf(After(longer, worker.maxWait), content, worker.db.company)
    ensures outcome.AckComplete?
    ensures Matches(worker, old(worker.sent), After(run, worker.maxWait), After(longer, worker.maxWait), {m}, ids)
  {
    longer, ids := Processed(run, m, zips.Keys, content, worker.maxWait);
    ghost var (packages, done) := (PackagesToProcess(worker.rows, msg), After(run, worker.maxWait).imported);
    DocumentsImported(done, packages, content, zips, issuer, worker.db.company);
    outcome := worker.HandleXml(msg, true, zips, norm);
    assert worker.sent == old(worker.sent) + Published(ProcessPlan(msg, packages));
  }

  lemma DocumentsImported(done: seq<Statement>, packages: seq<PackageId>, content: Contents,
                          zips: map<PackageId, seq<XmlFile>>, issuer: Ledger.Uuid -> Ledger.Rfc, company: Ledger.Rfc)
    requires HoldsXmls(content, zips) && Sane(content, issuer) && Agree(zips, issuer)
    ensures var ops := OpsOf(done, content);
            Ledger.ExecAll(map[], ops + Held(false, packages, zips.Keys, content), company)
              == Ledger.ExecAll(Ledger.ExecAll(map[], ops, company), XmlOps(DocumentsOf(packages, zips)), company)
  {
    var ops, docs := OpsOf(done, content), XmlOps(DocumentsOf(packages, zips));
    HeldDocuments(packages, content, zips);
    SaneOps(done, content, issuer);
    DocumentsAgree(packages, zips, issuer);
    Ledger.HalvesSame(ops, docs, issuer, company);
    Ledger.ExecAllConcat(map[], ops, Ledger.Halves(docs), company);
  }

  // ------------------------------------------------------------ manual re-verification

  lemma {:induction false} EnqueueLast(queue: map<MsgId, Msg>, ids: seq<MsgId>, msgs: seq<Msg>, id: MsgId, msg: Msg)
    requires |ids| == |msgs|
    ensures Enqueue(queue, ids + [id], msgs + [msg]) == Enqueue(queue, ids, msgs)[id := msg]
    decreases |ids|
  {
    if ids == [] {
      EnqueueSingle(queue, id, msg);
      assert ids + [id] == [id] && msgs + [msg] == [msg];
    } else {
      EnqueueLast(queue[ids[0] := msgs[0]], ids[1..], msgs[1..], id, msg);
      assert (ids + [id])[1..] == ids[1..] + [id] && (msgs + [msg])[1..] == msgs[1..] + [msg];
    }
  }

  /** The queue with messages added has their identifiers in it, and those it had. */
  lemma {:induction false} EnqueueKeys(queue: map<MsgId, Msg>, ids: seq<MsgId>, msgs: seq<Msg>)
    requires |ids| == |msgs|
    ensures forall id :: id in Enqueue(queue, ids, msgs) <==> id in queue || id in ids
    decreases |ids|
  {
    if ids != [] {
      EnqueueKeys(queue[ids[0] := msgs[0]], ids[1..], msgs[1..]);
      assert ids == [ids[0]] + ids[1..];
    }
  }

  /** One row after the other is selected and its message published. */
  lemma {:induction false} Reverified(run: seq<Step>, selected: seq<QueryId>, maxWait: int)
    returns (longer: seq<Step>, ids: seq<MsgId>)
    requires IsRun(run, maxWait)
    requires forall q :: q in selected ==> q in After(run, maxWait).rows && After(run, maxWait).rows[q].state.Reverifiable()
    ensures IsRun(longer, maxWait)
    ensures var (w, w') := (After(run, maxWait), After(longer, maxWait));
            && w'.rows == w.rows && w'.now == w.now && |ids| == |selected| && NewIds(w.queue, ids)
            && w'.queue == Enqueue(w.queue, ids, Reverifications(w.rows, selected, w.now))
    decreases |selected|
  {
    var w := After(run, maxWait);
    if selected == [] {
      longer, ids := run, [];
    } else {
      var init, q := selected[..|selected| - 1], selected[|selected| - 1];
      longer, ids := Reverified(run, init, maxWait);
      var msgs := Reverifications(w.rows, init, w.now);
      EnqueueKeys(w.queue, ids, msgs);
      var id := AboveAll(After(longer, maxWait).queue.Keys);
      longer := ReverifiedOne(longer, q, id, maxWait);
      EnqueueLast(w.queue, ids, msgs, id, VerifyMsg(q, w.rows[q].requestType, w.rows[q].sentDate, w.now));
      ids := ids + [id];
    }
  }

  lemma ReverifiedOne(run: seq<Step>, q: QueryId, id: MsgId, maxWait: int) returns (longer: seq<Step>)
    requires IsRun(run, maxWait) && q in After(run, maxWait).rows && After(run, maxWait).rows[q].state.Reverifiable()
    requires id !in After(run, maxWait).queue
    ensures IsRun(longer, maxWait)
    ensures var (w, w') := (After(run, maxWait), After(longer, maxWait));
            && w'.rows == w.rows && w'.now == w.now
            && w'.queue == w.queue[id := VerifyMsg(q, w.rows[q].requestType, w.rows[q].sentDate, w.now)]
  {
    longer := Extend(run, SelectReverify(q), maxWait);
    longer := Extend(longer, PublishReverify(q, id), maxWait);
  }

  /** Manual re-verification of the rows created lately. */
  method ReverifyMatched(worker: Worker, recent: seq<QueryId>, now: int, ghost run: seq<Step>)
    returns (ghost longer: seq<Step>, ghost ids: seq<MsgId>)
    requires IsRun(run, worker.maxWait)
    requires var w := After(run, worker.maxWait); worker.rows == w.rows && now == w.now
    requires forall q :: q in recent ==> q in worker.rows
    modifies worker`sent
    ensures IsRun(longer, worker.maxWait)
    ensures Matches(worker, old(worker.sent), After(run, worker.maxWait), After(longer, worker.maxWait), {}, ids)
  {
    ghost var selected;
    var count;
    count, selected := worker.PublishReverifications(recent, now);
    longer, ids := Reverified(run, selected, worker.maxWait);
    ghost var queue := After(longer, worker.maxWait).queue;
    assert queue - {} == queue;
  }
}
