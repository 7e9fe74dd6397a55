/** What a processed query leaves in the `cfdi` table, over whole runs of the pipeline with deaths,
    redelivery and re-verification, with packages that cannot be read and statements that fail. */
module Applied {
  import opened Options
  import opened Pipeline
  import opened Protocol
  import Ledger
  import MetadataJoiner

  // ------------------------------------------------------------ what processed means

  ghost predicate Attempted(w: World, metadata: bool, p: PackageId) {
    exists a :: a in w.attempts && a.metadata == metadata && a.pkg == p
  }

  ghost predicate ExecutedUpTo(w: World, metadata: bool, p: PackageId, n: nat) {
    forall i: nat :: i < n ==> Statement(metadata, p, i) in w.imported
  }

  /** An import that nothing went wrong with has read a stored package and executed every statement of it. */
  ghost predicate AttemptOk(w: World, a: Attempt) {
    a.Ended? && a.whole ==> a.pkg in w.blobs && ExecutedUpTo(w, a.metadata, a.pkg, a.size)
  }

  /** A handler that marked its row as processed had gone through all its packages: those its message
      names, if it names any. */
  ghost predicate FinishOk(w: World, f: Finish) {
    && f.msg.Process() && (f.msg.packages != [] ==> f.packages == f.msg.packages)
    && forall p :: p in f.packages ==> Attempted(w, f.msg.MetadataMsg?, p)
  }

  /** What is left of a plan: a row is marked as processed by process handlers only, and by them
      after they have gone through all their packages. */
  ghost predicate PlanApplied(w: World, msg: Msg, packages: seq<PackageId>, plan: seq<Action>) {
    && (forall i :: 0 <= i < |plan| && plan[i].SetState? && plan[i].state.Processed? ==> msg.Process())
    && (forall i, j :: 0 <= i < j < |plan| && plan[i].SetState? ==> !plan[j].Import?)
    && (msg.Process() && (exists i :: 0 <= i < |plan| && plan[i].SetState?) ==>
          forall p :: p in packages ==> Import(p) in plan || Attempted(w, msg.MetadataMsg?, p))
  }

  /** A package that is being imported is stored, and unless something has failed the statements behind
      the handler are executed. */
  ghost predicate ImportOk(w: World, msg: Msg, work: Work)
    requires work.Importing?
  {
    && |work.plan| > 0 && work.plan[0].Import? && work.plan[0].pkg in w.blobs
    && (work.whole ==> ExecutedUpTo(w, msg.MetadataMsg?, work.plan[0].pkg, work.done))
  }

  ghost predicate WorkApplied(w: World, m: MsgId)
    requires m in w.queue && m in w.active && !w.active[m].Downloading?
  {
    var msg := w.queue[m];
    && (msg.Process() ==> m in w.agenda && (msg.packages != [] ==> w.agenda[m] == msg.packages))
    && PlanApplied(w, msg, if m in w.agenda then w.agenda[m] else [], w.active[m].plan)
    && (w.active[m].Importing? ==> ImportOk(w, msg, w.active[m]))
  }

  ghost predicate FinishedFor(w: World, q: QueryId, f: Finish) {
    f in w.finished && f.msg.Process() && f.msg.query == q
  }

  ghost predicate AppliedInv(w: World) {
    && (forall s :: s in w.imported ==> s.pkg in w.blobs)
    && (forall a :: a in w.attempts ==> AttemptOk(w, a))
    && (forall f :: f in w.finished ==> FinishOk(w, f))
    && (forall m :: m in w.active && m in w.queue && !w.active[m].Downloading? ==> WorkApplied(w, m))
    && (forall q :: q in w.rows && w.rows[q].state.Processed? ==> exists f :: FinishedFor(w, q, f))
  }

  /** Storage, statements and ended imports only ever become more. */
  ghost predicate Grows(w: World, w': World) {
    && w.blobs <= w'.blobs && w.attempts <= w'.attempts && w.finished <= w'.finished
    && forall s :: s in w.imported ==> s in w'.imported
  }

  lemma AttemptedGrows(w: World, w': World, metadata: bool, p: PackageId)
    requires Grows(w, w') && Attempted(w, metadata, p)
    ensures Attempted(w', metadata, p)
  {
    var a :| a in w.attempts && a.metadata == metadata && a.pkg == p;
    assert a in w'.attempts;
  }

  lemma PlanAppliedGrows(w: World, w': World, msg: Msg, packages: seq<PackageId>, plan: seq<Action>)
    requires Grows(w, w') && PlanApplied(w, msg, packages, plan)
    ensures PlanApplied(w', msg, packages, plan)
  {
    if msg.Process() && exists i :: 0 <= i < |plan| && plan[i].SetState? {
      forall p | p in packages ensures Import(p) in plan || Attempted(w', msg.MetadataMsg?, p) {
        if Import(p) !in plan {
          AttemptedGrows(w, w', msg.MetadataMsg?, p);
        }
      }
    }
  }

  lemma FinishGrows(w: World, w': World, f: Finish)
    requires Grows(w, w') && FinishOk(w, f)
    ensures FinishOk(w', f)
  {
    forall p | p in f.packages ensures Attempted(w', f.msg.MetadataMsg?, p) {
      AttemptedGrows(w, w', f.msg.MetadataMsg?, p);
    }
  }

  /** The handler of `m` is where it was, with the same packages before it. */
  ghost predicate SameWork(w: World, w': World, m: MsgId) {
    && m in w.queue && m in w'.queue && w'.queue[m] == w.queue[m]
    && m in w.active && m in w'.active && w'.active[m] == w.active[m]
    && (m in w.agenda <==> m in w'.agenda) && (m in w.agenda ==> w'.agenda[m] == w.agenda[m])
  }

  lemma WorkGrows(w: World, w': World, m: MsgId)
    requires Grows(w, w') && SameWork(w, w', m) && !w.active[m].Downloading? && WorkApplied(w, m)
    ensures WorkApplied(w', m)
  {
    PlanAppliedGrows(w, w', w.queue[m], if m in w.agenda then w.agenda[m] else [], w.active[m].plan);
  }

  /** One step: what is new is in order, and what was there stays in order. */
  lemma AppliedFrame(w: World, w': World)
    requires AppliedInv(w) && Grows(w, w')
    requires forall s :: s in w'.imported ==> s in w.imported || s.pkg in w'.blobs
    requires forall a :: a in w'.attempts ==> a in w.attempts || AttemptOk(w', a)
    requires forall f :: f in w'.finished ==> f in w.finished || FinishOk(w', f)
    requires forall n :: n in w'.active && n in w'.queue && !w'.active[n].Downloading? ==>
               SameWork(w, w', n) || WorkApplied(w', n)
    requires forall q :: q in w'.rows && w'.rows[q].state.Processed? ==>
               (q in w.rows && w.rows[q].state.Processed?) || exists f :: FinishedFor(w', q, f)
    ensures AppliedInv(w')
  {
    forall f | f in w'.finished ensures FinishOk(w', f) {
      if f in w.finished {
        FinishGrows(w, w', f);
      }
    }
    forall n | n in w'.active && n in w'.queue && !w'.active[n].Downloading? ensures WorkApplied(w', n) {
      if SameWork(w, w', n) {
        WorkGrows(w, w', n);
      }
    }
    forall q | q in w'.rows && w'.rows[q].state.Processed? ensures exists f :: FinishedFor(w', q, f) {
      if q in w.rows && w.rows[q].state.Processed? {
        var f :| FinishedFor(w, q, f);
        assert FinishedFor(w', q, f);
      }
    }
  }

  lemma VerifyPlanApplied(w: World, msg: Msg, packages: seq<PackageId>, answer: VerifyAnswer, now: int, maxWait: int)
    requires msg.VerifyMsg? && CanEnrich(w.rows, msg)
    ensures PlanApplied(w, msg, packages, VerifyPlan(w.rows, msg, answer, now, maxWait))
  {
  }

  lemma DownloadPlanApplied(w: World, msg: Msg, packages: seq<PackageId>, ok: bool)
    requires msg.DownloadMsg?
    ensures PlanApplied(w, msg, packages, DownloadPlan(msg, ok))
  {
  }

  lemma ProcessPlanApplied(w: World, msg: Msg, packages: seq<PackageId>)
    requires msg.Process()
    ensures PlanApplied(w, msg, packages, ProcessPlan(msg, packages))
  {
    var plan := ProcessPlan(msg, packages);
    assert forall i :: |packages| <= i < |plan| ==> plan[i] == FinishPlan(msg)[i - |packages|] && !plan[i].Import?;
    forall p | p in packages ensures Import(p) in plan {
      var i :| 0 <= i < |packages| && packages[i] == p;
      assert plan[i] == Import(p);
    }
  }

  lemma BeginApplied(w: World, s: Step, maxWait: int)
    requires Enabled(w, s) && (s.BeginVerify? || s.BeginDownload? || s.Join? || s.BeginProcess?)
    ensures var w' := Apply(w, s, maxWait); s.m in w'.active && (!w'.active[s.m].Downloading? ==> WorkApplied(w', s.m))
  {
    var w', msg := Apply(w, s, maxWait), w.queue[s.m];
    var packages := if s.m in w'.agenda then w'.agenda[s.m] else [];
    if s.BeginVerify? {
      VerifyPlanApplied(w', msg, packages, s.answer, w.now, maxWait);
    } else if s.BeginProcess? {
      ProcessPlanApplied(w', msg, packages);
    } else if s.Join? {
      DownloadPlanApplied(w', msg, packages, w.active[s.m].firstErr.None?);
    } else {
      DownloadPlanApplied(w', msg, packages, false);
    }
  }

  lemma AppliedBegin(w: World, s: Step, maxWait: int)
    requires AppliedInv(w) && w.active.Keys <= w.queue.Keys && Enabled(w, s)
    requires s.BeginVerify? || s.BeginDownload? || s.Join? || s.BeginProcess?
    ensures AppliedInv(Apply(w, s, maxWait))
  {
    BeginApplied(w, s, maxWait);
    AppliedFrame(w, Apply(w, s, maxWait));
  }

  /** The first action of a plan is done; if it was an import, that has been attempted. */
  lemma PlanAppliedRest(w: World, w': World, msg: Msg, packages: seq<PackageId>, plan: seq<Action>)
    requires plan != [] && PlanApplied(w, msg, packages, plan) && Grows(w, w')
    requires plan[0].Import? ==> Attempted(w', msg.MetadataMsg?, plan[0].pkg)
    ensures PlanApplied(w', msg, packages, plan[1..])
  {
    PlanAppliedGrows(w, w', msg, packages, plan);
    var rest := plan[1..];
    assert forall i :: 0 <= i < |rest| ==> rest[i] == plan[i + 1];
    assert plan == [plan[0]] + rest;
  }

  lemma ActApplied(w: World, m: MsgId, out: MsgId)
    requires Enabled(w, Act(m, out)) && !w.active[m].plan[0].Ack? && WorkApplied(w, m)
    ensures WorkApplied(Perform(w, m, out), m)
  {
    PlanAppliedRest(w, Perform(w, m, out), w.queue[m], if m in w.agenda then w.agenda[m] else [], w.active[m].plan);
  }

  lemma AppliedAck(w: World, m: MsgId, out: MsgId)
    requires AppliedInv(w) && Enabled(w, Act(m, out)) && w.active[m].plan[0].Ack?
    ensures AppliedInv(Perform(w, m, out))
  {
    AppliedFrame(w, Perform(w, m, out));
  }

  /** When the row is marked as processed, every package of the handler has been attempted. */
  lemma Finishes(w: World, m: MsgId, out: MsgId)
    requires Enabled(w, Act(m, out)) && WorkApplied(w, m)
    requires var a := w.active[m].plan[0]; a.SetState? && a.state.Processed? && a.query == w.queue[m].query
    ensures var (w', f) := (Perform(w, m, out), Finish(w.queue[m], w.agenda[m]));
            && w'.finished == w.finished + {f} && FinishOk(w', f) && FinishedFor(w', w.queue[m].query, f)
  {
    var plan, w' := w.active[m].plan, Perform(w, m, out);
    assert forall i :: 0 <= i < |plan| ==> !plan[i].Import?;
    forall p | p in w.agenda[m] ensures Attempted(w', w.queue[m].MetadataMsg?, p) {
      assert Import(p) !in plan;
      AttemptedGrows(w, w', w.queue[m].MetadataMsg?, p);
    }
  }

  lemma AppliedMark(w: World, m: MsgId, out: MsgId)
    requires AppliedInv(w) && Enabled(w, Act(m, out)) && WorkApplied(w, m)
    requires var a := w.active[m].plan[0]; a.SetState? && a.state.Processed? && a.query == w.queue[m].query
    ensures AppliedInv(Perform(w, m, out))
  {
    ActApplied(w, m, out);
    Finishes(w, m, out);
    AppliedFrame(w, Perform(w, m, out));
  }

  lemma AppliedOther(w: World, m: MsgId, out: MsgId)
    requires AppliedInv(w) && w.active.Keys <= w.queue.Keys && Enabled(w, Act(m, out)) && WorkApplied(w, m)
    requires var a := w.active[m].plan[0]; a.Publish? || (a.SetState? && !a.state.Processed?)
    ensures AppliedInv(Perform(w, m, out))
  {
    ActApplied(w, m, out);
    AppliedFrame(w, Perform(w, m, out));
  }

  lemma AppliedAct(w: World, m: MsgId, out: MsgId)
    requires AppliedInv(w) && Typed(w) && Enabled(w, Act(m, out))
    ensures AppliedInv(Perform(w, m, out))
  {
    var a := w.active[m].plan[0];
    assert WorkApplied(w, m) && WorkOk(w, w.queue[m], w.active[m]);
    if a.Ack? {
      AppliedAck(w, m, out);
    } else if a.SetState? && a.state.Processed? {
      AppliedMark(w, m, out);
    } else {
      AppliedOther(w, m, out);
    }
  }

  /** The handler of `m` is through with its first package. */
  lemma AppliedThrough(w: World, m: MsgId, a: Attempt)
    requires AppliedInv(w) && Typed(w) && (AtImport(w, m) || InImport(w, m)) && AttemptOk(w, a)
    requires a.metadata == w.queue[m].MetadataMsg? && a.pkg == w.active[m].plan[0].pkg
    ensures AppliedInv(Through(w, m, a))
  {
    var w', msg, plan := Through(w, m, a), w.queue[m], w.active[m].plan;
    assert WorkApplied(w, m);
    assert a in w'.attempts && Attempted(w', a.metadata, a.pkg);
    PlanAppliedRest(w, w', msg, w.agenda[m], plan);
    AppliedFrame(w, w');
  }

  lemma AppliedOpen(w: World, m: MsgId, size: nat, maxWait: int)
    requires AppliedInv(w) && Typed(w) && Enabled(w, OpenPackage(m, size))
    ensures AppliedInv(Apply(w, OpenPackage(m, size), maxWait))
  {
    var w' := Apply(w, OpenPackage(m, size), maxWait);
    assert WorkApplied(w, m);
    PlanAppliedGrows(w, w', w.queue[m], w.agenda[m], w.active[m].plan);
    AppliedFrame(w, w');
  }

  /** One statement of an opened package, which does not end it. */
  lemma StatementApplied(w: World, m: MsgId, ok: bool)
    requires Enabled(w, Execute(m, ok)) && WorkApplied(w, m) && (ok || w.queue[m].XmlMsg?)
    ensures WorkApplied(Executed(w, m, ok), m)
  {
    var w', kind, work := Executed(w, m, ok), w.queue[m].MetadataMsg?, w.active[m];
    PlanAppliedGrows(w, w', w.queue[m], w.agenda[m], work.plan);
    assert ok && work.whole ==> ExecutedUpTo(w', kind, work.plan[0].pkg, work.done + 1);
  }

  lemma AppliedExecute(w: World, m: MsgId, ok: bool)
    requires AppliedInv(w) && Typed(w) && Enabled(w, Execute(m, ok))
    ensures AppliedInv(Executed(w, m, ok))
  {
    assert WorkApplied(w, m);
    if !ok && w.queue[m].MetadataMsg? {
      AppliedThrough(w, m, Ended(true, w.active[m].plan[0].pkg, w.active[m].size, false));
    } else {
      StatementApplied(w, m, ok);
      AppliedFrame(w, Executed(w, m, ok));
    }
  }

  lemma AppliedImport(w: World, s: Step, maxWait: int)
    requires AppliedInv(w) && Typed(w) && Enabled(w, s) && ImportStep(s)
    ensures AppliedInv(Apply(w, s, maxWait))
  {
    if s.OpenPackage? {
      AppliedOpen(w, s.m, s.size, maxWait);
    } else if s.Execute? {
      AppliedExecute(w, s.m, s.ok);
    } else if s.SkipPackage? {
      AppliedThrough(w, s.m, Unread(w.queue[s.m].MetadataMsg?, w.active[s.m].plan[0].pkg));
    } else {
      var work := w.active[s.m];
      assert WorkApplied(w, s.m);
      AppliedThrough(w, s.m, Ended(w.queue[s.m].MetadataMsg?, work.plan[0].pkg, work.size, work.whole));
    }
  }

  /** Steps that leave every handler where it is, or end one. */
  lemma AsideSame(w: World, s: Step, maxWait: int, n: MsgId)
    requires w.active.Keys <= w.queue.Keys && Enabled(w, s) && !s.Act? && !ImportStep(s)
    requires !s.BeginVerify? && !s.BeginDownload? && !s.Join? && !s.BeginProcess?
    requires var w' := Apply(w, s, maxWait); n in w'.active && n in w'.queue && !w'.active[n].Downloading?
    ensures SameWork(w, Apply(w, s, maxWait), n)
  {
  }

  lemma AppliedAside(w: World, s: Step, maxWait: int)
    requires AppliedInv(w) && Typed(w) && Enabled(w, s) && !s.Act? && !ImportStep(s)
    requires !s.BeginVerify? && !s.BeginDownload? && !s.Join? && !s.BeginProcess?
    ensures AppliedInv(Apply(w, s, maxWait))
  {
    var w' := Apply(w, s, maxWait);
    forall n | n in w'.active && n in w'.queue && !w'.active[n].Downloading? ensures SameWork(w, w', n) {
      AsideSame(w, s, maxWait, n);
    }
    AppliedFrame(w, w');
  }

  lemma AppliedStep(w: World, s: Step, maxWait: int)
    requires AppliedInv(w) && Typed(w) && Enabled(w, s)
    ensures AppliedInv(Apply(w, s, maxWait))
  {
    if s.BeginVerify? || s.BeginDownload? || s.Join? || s.BeginProcess? {
      AppliedBegin(w, s, maxWait);
    } else if s.Act? {
      AppliedAct(w, s.m, s.out);
    } else if ImportStep(s) {
      AppliedImport(w, s, maxWait);
    } else {
      AppliedAside(w, s, maxWait);
    }
  }

  /** In every run a row is marked as processed only by a handler that has gone through all its
      packages; only stored packages are imported, and an import nothing went wrong with has executed
      all of its package, however often handlers died on the way. */
  lemma {:induction false} ProcessedMeansAttempted(run: seq<Step>, maxWait: int)
    requires IsRun(run, maxWait)
    ensures AppliedInv(After(run, maxWait))
    decreases |run|
  {
    if run != [] {
      var init := run[..|run| - 1];
      ProcessedMeansAttempted(init, maxWait);
      InvHolds(init, maxWait);
      AppliedStep(After(init, maxWait), run[|run| - 1], maxWait);
    }
  }

  // ------------------------------------------------------------ what is in the table then

  /** What a package holds: the writes of each of its statements. */
  type Contents = (bool, PackageId) -> seq<seq<Ledger.Op>>

  function OpsAt(s: Statement, content: Contents): seq<Ledger.Op> {
    if s.index < |content(s.metadata, s.pkg)| then content(s.metadata, s.pkg)[s.index] else []
  }

  function OpsOf(log: seq<Statement>, content: Contents): seq<Ledger.Op> {
    if log == [] then [] else OpsOf(log[..|log| - 1], content) + OpsAt(log[|log| - 1], content)
  }

  /** The table after a run. */
  function TableOf(w: World, content: Contents, company: Ledger.Rfc): Ledger.Table {
    Ledger.ExecAll(map[], OpsOf(w.imported, content), company)
  }

  lemma {:induction false} OpsOfExact(log: seq<Statement>, content: Contents, op: Ledger.Op)
    ensures op in OpsOf(log, content) <==> exists s :: s in log && op in OpsAt(s, content)
    decreases |log|
  {
    if log != [] {
      OpsOfExact(log[..|log| - 1], content, op);
      assert log == log[..|log| - 1] + [log[|log| - 1]];
    }
  }

  /** Metadata comes in records and XML in updates and inserts, and all agree on who issued each CFDI. */
  ghost predicate Sane(content: Contents, issuer: Ledger.Uuid -> Ledger.Rfc) {
    forall s: Statement, op :: op in OpsAt(s, content) ==>
      op.Consistent(issuer) && if s.metadata then op.Meta? else op.XmlUpdate? || op.XmlInsert?
  }

  lemma SaneOps(log: seq<Statement>, content: Contents, issuer: Ledger.Uuid -> Ledger.Rfc)
    requires Sane(content, issuer)
    ensures Ledger.AllConsistent(OpsOf(log, content), issuer)
    ensures forall op :: op in OpsOf(log, content) ==> !op.Xml?
  {
    forall op | op in OpsOf(log, content) ensures op.Consistent(issuer) && !op.Xml? {
      OpsOfExact(log, content, op);
      var s :| s in log && op in OpsAt(s, content);
    }
  }

  /** What the table says of a CFDI, in terms of the statements executed: it is there exactly if one of
      them mentioned it, in force exactly if none reported it cancelled, and marked as XML unless a
      metadata record brought it there and no document's update came after. */
  ghost predicate Exactly(t: Ledger.Table, ops: seq<Ledger.Op>, k: Ledger.Key) {
    && (k in t <==> Ledger.Mentioned(ops, k.uuid))
    && (k in t ==>
          (t[k].estatus <==> !Ledger.Cancelled(ops, k.uuid)) && (t[k].fromXml <==> !Ledger.RecordFirst(ops, k.uuid)))
  }

  lemma TableExact(log: seq<Statement>, content: Contents, issuer: Ledger.Uuid -> Ledger.Rfc, company: Ledger.Rfc,
                   u: Ledger.Uuid)
    requires Sane(content, issuer)
    ensures var ops := OpsOf(log, content);
            Exactly(Ledger.ExecAll(map[], ops, company), ops, Ledger.KeyOf(u, issuer, company))
  {
    var ops := OpsOf(log, content);
    SaneOps(log, content, issuer);
    Ledger.StatusConverges(ops, issuer, company, u);
    Ledger.FromXmlExact(ops, issuer, company, u);
    if Ledger.Mentioned(ops, u) {
      Ledger.FlagUnsetExactly(ops, u);
    }
  }

  /** The table shows the write: the CFDI it brings is there, and not in force if reported cancelled. */
  predicate Shows(t: Ledger.Table, op: Ledger.Op, issuer: Ledger.Uuid -> Ledger.Rfc, company: Ledger.Rfc) {
    !op.XmlUpdate? ==>
      var u := if op.Meta? then op.rec.uuid else op.uuid;
      var k := Ledger.KeyOf(u, issuer, company);
      k in t && (op.Cancels(u) ==> !t[k].estatus)
  }

  ghost predicate ShowsAll(t: Ledger.Table, statements: seq<seq<Ledger.Op>>,
                           issuer: Ledger.Uuid -> Ledger.Rfc, company: Ledger.Rfc)
  {
    forall i, op :: 0 <= i < |statements| && op in statements[i] ==> Shows(t, op, issuer, company)
  }

  /** A package all of whose statements were executed is shown whole. */
  lemma ExecutedIsShown(w: World, metadata: bool, p: PackageId, content: Contents,
                        issuer: Ledger.Uuid -> Ledger.Rfc, company: Ledger.Rfc)
    requires Sane(content, issuer) && ExecutedUpTo(w, metadata, p, |content(metadata, p)|)
    ensures ShowsAll(TableOf(w, content, company), content(metadata, p), issuer, company)
  {
    var ops := OpsOf(w.imported, content);
    forall i, op | 0 <= i < |content(metadata, p)| && op in content(metadata, p)[i]
      ensures Shows(TableOf(w, content, company), op, issuer, company)
    {
      var u := if op.Meta? then op.rec.uuid else op.uuid;
      OpsOfExact(w.imported, content, op);
      assert op in OpsAt(Statement(metadata, p, i), content) && op in ops;
      TableExact(w.imported, content, issuer, company, u);
    }
  }

  /** The content in which nothing but statement `i` of one package writes anything. */
  function OneOp(metadata: bool, p: PackageId, n: nat, i: nat, op: Ledger.Op): Contents {
    (kind, q) => if kind == metadata && q == p then seq(n, j => if j == i then [op] else []) else []
  }

  /** And only such a package: whatever a package of `n` statements holds, the table shows it, exactly
      if all its statements were executed. */
  lemma ShownExactly(w: World, metadata: bool, p: PackageId, n: nat, company: Ledger.Rfc)
    ensures (forall content, issuer :: Sane(content, issuer) && |content(metadata, p)| == n ==>
               ShowsAll(TableOf(w, content, company), content(metadata, p), issuer, company))
            <==> ExecutedUpTo(w, metadata, p, n)
  {
    if ExecutedUpTo(w, metadata, p, n) {
      forall content, issuer | Sane(content, issuer) && |content(metadata, p)| == n
        ensures ShowsAll(TableOf(w, content, company), content(metadata, p), issuer, company)
      {
        ExecutedIsShown(w, metadata, p, content, issuer, company);
      }
    } else {
      var i: nat :| i < n && Statement(metadata, p, i) !in w.imported;
      var issuer := (u: Ledger.Uuid) => company;
      var op, content := NotShown(w, metadata, p, n, i, issuer, company);
      assert Sane(content, issuer) && op in content(metadata, p)[i];
    }
  }

  lemma NotShown(w: World, metadata: bool, p: PackageId, n: nat, i: nat,
                 issuer: Ledger.Uuid -> Ledger.Rfc, company: Ledger.Rfc)
    returns (op: Ledger.Op, content: Contents)
    requires i < n && Statement(metadata, p, i) !in w.imported
    ensures Sane(content, issuer) && |content(metadata, p)| == n && op in content(metadata, p)[i]
    ensures !Shows(TableOf(w, content, company), op, issuer, company)
  {
    var rec := MetadataJoiner.Record("u", issuer("u"), "", "", "", "", "", "", "", "", "", "");
    op := if metadata then Ledger.Meta(rec) else Ledger.XmlInsert(rec.uuid, rec.rfcEmisor);
    content := OneOp(metadata, p, n, i, op);
    var ops := OpsOf(w.imported, content);
    forall o ensures o !in ops {
      OpsOfExact(w.imported, content, o);
    }
    TableExact(w.imported, content, issuer, company, rec.uuid);
  }

  /** The imports of a package that nothing went wrong with. */
  predicate Whole(w: World, metadata: bool, p: PackageId, content: Contents) {
    Ended(metadata, p, |content(metadata, p)|, true) in w.attempts
  }

  /** End to end: after any run, whatever died, was delivered again or failed, a PROCESSED row has a
      handler that went through all its packages, and the table shows every record and document of
      each of them that was once imported without a failure. */
  lemma ProcessedIsShown(run: seq<Step>, maxWait: int, q: QueryId,
                         content: Contents, issuer: Ledger.Uuid -> Ledger.Rfc, company: Ledger.Rfc)
    requires IsRun(run, maxWait) && Sane(content, issuer)
    requires q in After(run, maxWait).rows && After(run, maxWait).rows[q].state.Processed?
    ensures var w := After(run, maxWait);
            exists f :: FinishedFor(w, q, f) && FinishOk(w, f) && FinishShown(w, f, content, issuer, company)
  {
    ProcessedMeansAttempted(run, maxWait);
    var w := After(run, maxWait);
    var f :| FinishedFor(w, q, f);
    forall p | p in f.packages && Whole(w, f.msg.MetadataMsg?, p, content)
      ensures ShowsAll(TableOf(w, content, company), content(f.msg.MetadataMsg?, p), issuer, company)
    {
      assert AttemptOk(w, Ended(f.msg.MetadataMsg?, p, |content(f.msg.MetadataMsg?, p)|, true));
      ExecutedIsShown(w, f.msg.MetadataMsg?, p, content, issuer, company);
    }
  }

  ghost predicate FinishShown(w: World, f: Finish, content: Contents,
                              issuer: Ledger.Uuid -> Ledger.Rfc, company: Ledger.Rfc)
  {
    forall p :: p in f.packages && Whole(w, f.msg.MetadataMsg?, p, content) ==>
      ShowsAll(TableOf(w, content, company), content(f.msg.MetadataMsg?, p), issuer, company)
  }

  /** How often, in what order and how interleaved statements were executed shows in no status; and in
      the XML flag it shows only through the documents some record has divided. */
  lemma AsIfImportedOnce(log: seq<Statement>, once: seq<Statement>, content: Contents,
                         issuer: Ledger.Uuid -> Ledger.Rfc, company: Ledger.Rfc, u: Ledger.Uuid)
    requires Sane(content, issuer) && forall s :: s in log <==> s in once
    ensures var (ops, ops', k) := (OpsOf(log, content), OpsOf(once, content), Ledger.KeyOf(u, issuer, company));
            var (t, t') := (Ledger.ExecAll(map[], ops, company), Ledger.ExecAll(map[], ops', company));
            && (k in t <==> k in t')
            && (k in t ==> t[k].estatus == t'[k].estatus)
            && (Ledger.Undivided(ops, u) && Ledger.Undivided(ops', u) ==> Ledger.SameFlags(t, t', k))
  {
    var ops, ops' := OpsOf(log, content), OpsOf(once, content);
    SaneOps(log, content, issuer);
    SaneOps(once, content, issuer);
    forall op ensures op in ops <==> op in ops' {
      OpsOfExact(log, content, op);
      OpsOfExact(once, content, op);
    }
    TableExact(log, content, issuer, company, u);
    TableExact(once, content, issuer, company, u);
    if Ledger.Undivided(ops, u) && Ledger.Undivided(ops', u) && Ledger.Mentioned(ops, u) {
      Ledger.UndividedFlag(ops, u);
      Ledger.UndividedFlag(ops', u);
    }
  }
}
