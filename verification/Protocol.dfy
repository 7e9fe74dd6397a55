/** The pipeline over at-least-once, peek-locked queues: every step of every
    interleaving, with handlers that can die between any two actions. */
module Protocol {
  import opened Options
  import opened Pipeline

  type MsgId = nat

  /** How far the handler of a locked message has come. Of a package that is being imported, `done`
      of `size` statements are behind it, and `whole` says that none of them failed. */
  datatype Work =
    | Downloading(pending: set<nat>, stored: set<nat>, firstErr: Option<nat>)
    | Running(plan: seq<Action>)
    | Importing(plan: seq<Action>, done: nat, size: nat, whole: bool)

  /** A statement on the `cfdi` table: which one of the package it is. A metadata package has one
      for each batch of records, an XML package an update and an insert for each document. */
  datatype Statement = Statement(metadata: bool, pkg: PackageId, index: nat)

  /** How the import of a package ended: it could not be read, or it was gone through to its end or
      to where it had to stop. */
  datatype Attempt =
    | Unread(metadata: bool, pkg: PackageId)
    | Ended(metadata: bool, pkg: PackageId, size: nat, whole: bool)

  /** A message whose handler has marked its row as processed, and the packages it had opened. */
  datatype Finish = Finish(msg: Msg, packages: seq<PackageId>)

  /** `queue` holds the unacknowledged messages, `active` the locked ones; `reverify` the
      rows a manual re-verification has selected but not published yet; `orphans` the rows
      whose creation died between the row write and the first publish; `log` the states
      written to each row; `imported` the statements executed, in order; `attempts` the imports that
      ended; `agenda` the packages each process handler set out to import; `finished` the handlers
      that marked their row as processed. */
  datatype World = World(now: int, rows: Rows, queue: map<MsgId, Msg>, active: map<MsgId, Work>,
                         blobs: set<PackageId>, reverify: multiset<QueryId>, orphans: set<QueryId>,
                         log: map<QueryId, seq<QueryState>>, imported: seq<Statement>, attempts: set<Attempt>,
                         agenda: map<MsgId, seq<PackageId>>, finished: set<Finish>)

  datatype Step =
    | Tick(dt: nat)
    | Create(q: QueryId, rt: RequestType, m: MsgId)
    | CreateFails(q: QueryId, rt: RequestType, inCerts: bool)
    | CreateDies(q: QueryId, rt: RequestType)
    | SelectReverify(q: QueryId)
    | PublishReverify(q: QueryId, m: MsgId)
    | BeginVerify(m: MsgId, answer: VerifyAnswer)
    | BeginDownload(m: MsgId, fiel: bool)
    | Package(m: MsgId, i: nat, ok: bool)
    | Join(m: MsgId)
    | BeginProcess(m: MsgId)
    | Act(m: MsgId, out: MsgId)
    | Die(m: MsgId)
    | OpenPackage(m: MsgId, size: nat)
    | SkipPackage(m: MsgId)
    | Execute(m: MsgId, ok: bool)
    | ClosePackage(m: MsgId)
    | Elsewhere(m: MsgId)

  const INIT: World := World(0, map[], map[], map[], {}, multiset{}, {}, map[], [], {}, map[], {})

  predicate Idle(w: World, m: MsgId) {
    m in w.queue && m !in w.active
  }

  /** The handler of `m` is about to import a package. */
  predicate AtImport(w: World, m: MsgId) {
    m in w.queue && w.queue[m].Process() && m in w.active && w.active[m].Running?
    && |w.active[m].plan| > 0 && w.active[m].plan[0].Import?
  }

  /** The handler of `m` is in the middle of importing one. */
  predicate InImport(w: World, m: MsgId) {
    m in w.queue && w.queue[m].Process() && m in w.active && w.active[m].Importing?
    && |w.active[m].plan| > 0 && w.active[m].plan[0].Import?
  }

  predicate Enabled(w: World, s: Step) {
    match s
    case Tick(_) => true
    case Create(q, _, m) => q !in w.rows && m !in w.queue
    case CreateFails(q, _, _) => q !in w.rows
    case CreateDies(q, _) => q !in w.rows
    case SelectReverify(q) => q in w.rows && w.rows[q].state.Reverifiable()
    case PublishReverify(q, m) => q in w.reverify && q in w.rows && m !in w.queue
    case BeginVerify(m, _) => Idle(w, m) && w.queue[m].VerifyMsg? && w.queue[m].dueAt <= w.now
                              && CanEnrich(w.rows, w.queue[m])
    case BeginDownload(m, _) => Idle(w, m) && w.queue[m].DownloadMsg?
    case Package(m, i, _) => m in w.queue && w.queue[m].DownloadMsg? && m in w.active
                             && w.active[m].Downloading? && i in w.active[m].pending && i < |w.queue[m].packages|
    case Join(m) => m in w.queue && w.queue[m].DownloadMsg? && m in w.active
                    && w.active[m].Downloading? && w.active[m].pending == {}
    case BeginProcess(m) => Idle(w, m) && w.queue[m].Process()
    case Act(m, out) => m in w.queue && m in w.active && w.active[m].Running? && |w.active[m].plan| > 0
                        && !w.active[m].plan[0].Import? && (w.active[m].plan[0].Publish? ==> out !in w.queue)
    case Die(m) => m in w.active
    case OpenPackage(m, _) => AtImport(w, m) && w.active[m].plan[0].pkg in w.blobs
    case SkipPackage(m) => AtImport(w, m)
    case Execute(m, _) => InImport(w, m) && w.active[m].done < w.active[m].size
    case ClosePackage(m) => InImport(w, m) && w.active[m].done >= w.active[m].size
    case Elsewhere(m) => Idle(w, m) && !w.queue[m].HasQuery()
  }

  /** A row inserted as DRAFT and then given its next state. */
  function Created(w: World, q: QueryId, rt: RequestType, state: QueryState): World {
    w.(rows := w.rows[q := Row(state, rt, if state.Sent? then Some(w.now) else None, None, [])],
       log := w.log[q := [Draft, state]])
  }

  /** One action of the handler of message `m`. */
  function Perform(w: World, m: MsgId, out: MsgId): World
    requires m in w.queue && m in w.active && w.active[m].Running? && |w.active[m].plan| > 0
    requires !w.active[m].plan[0].Import?
  {
    var plan := w.active[m].plan;
    var w' := w.(active := w.active[m := Running(plan[1..])]);
    match plan[0]
    case SetState(q, state, _, _) =>
      w'.(rows := Write(w.rows, plan[0]),
          log := if q in w.log then w.log[q := w.log[q] + [state]] else w.log,
          finished := if state.Processed? && m in w.agenda then w.finished + {Finish(w.queue[m], w.agenda[m])}
                      else w.finished)
    case Publish(msg) => w'.(queue := w.queue[out := msg])
    case Ack => w.(queue := w.queue - {m}, active := w.active - {m})
  }

  /** The handler of `m` is through with a package. */
  function Through(w: World, m: MsgId, attempt: Attempt): World
    requires m in w.active && !w.active[m].Downloading? && |w.active[m].plan| > 0
  {
    w.(active := w.active[m := Running(w.active[m].plan[1..])], attempts := w.attempts + {attempt})
  }

  /** One statement of a package. A batch of metadata that fails ends the package; a statement of a
      document that fails ends the document. */
  function Executed(w: World, m: MsgId, ok: bool): World
    requires InImport(w, m)
  {
    var (work, kind) := (w.active[m], w.queue[m].MetadataMsg?);
    var p := work.plan[0].pkg;
    if ok then w.(active := w.active[m := work.(done := work.done + 1)],
                  imported := w.imported + [Statement(kind, p, work.done)])
    else if kind then Through(w, m, Ended(kind, p, work.size, false))
    else w.(active := w.active[m := work.(done := work.done + 2 - work.done % 2, whole := false)])
  }

  function Apply(w: World, s: Step, maxWait: int): World
    requires Enabled(w, s)
  {
    match s
    case Tick(dt) => w.(now := w.now + dt)
    case Create(q, rt, m) =>
      Created(w, q, rt, Sent).(queue := w.queue[m := VerifyMsg(q, rt, Some(w.now), w.now)])
    case CreateFails(q, rt, inCerts) => Created(w, q, rt, if inCerts then ErrorInCerts else ErrorSatWsInternal)
    case CreateDies(q, rt) => Created(w, q, rt, Sent).(orphans := w.orphans + {q})
    case SelectReverify(q) => w.(reverify := w.reverify + multiset{q})
    case PublishReverify(q, m) =>
      w.(reverify := w.reverify - multiset{q},
         queue := w.queue[m := VerifyMsg(q, w.rows[q].requestType, w.rows[q].sentDate, w.now)])
    case BeginVerify(m, answer) =>
      w.(active := w.active[m := Running(VerifyPlan(w.rows, w.queue[m], answer, w.now, maxWait))])
    case BeginDownload(m, fiel) =>
      w.(active := w.active[m := if fiel then Downloading(Indices(|w.queue[m].packages|), {}, None)
                                 else Running(DownloadPlan(w.queue[m], false))])
    case Package(m, i, ok) =>
      var d := w.active[m];
      var d' := if ok then Downloading(d.pending - {i}, d.stored + {i}, d.firstErr)
                else Downloading(d.pending - {i}, d.stored, if d.firstErr.None? then Some(i) else d.firstErr);
      w.(active := w.active[m := d'],
         blobs := if ok then w.blobs + {w.queue[m].packages[i]} else w.blobs)
    case Join(m) =>
      w.(active := w.active[m := Running(DownloadPlan(w.queue[m], w.active[m].firstErr.None?))])
    case BeginProcess(m) =>
      var packages := PackagesToProcess(w.rows, w.queue[m]);
      w.(active := w.active[m := Running(ProcessPlan(w.queue[m], packages))], agenda := w.agenda[m := packages])
    case Act(m, out) => Perform(w, m, out)
    case Die(m) => w.(active := w.active - {m})
    case OpenPackage(m, size) => w.(active := w.active[m := Importing(w.active[m].plan, 0, size, true)])
    case SkipPackage(m) => Through(w, m, Unread(w.queue[m].MetadataMsg?, w.active[m].plan[0].pkg))
    case Execute(m, ok) => Executed(w, m, ok)
    case ClosePackage(m) =>
      Through(w, m, Ended(w.queue[m].MetadataMsg?, w.active[m].plan[0].pkg, w.active[m].size, w.active[m].whole))
    case Elsewhere(m) => w.(queue := w.queue - {m})
  }

  /** A run is a list of steps, each possible in the world the ones before it lead to. */
  ghost predicate IsRun(run: seq<Step>, maxWait: int)
    decreases |run|, 0
  {
    run == [] || (IsRun(run[..|run| - 1], maxWait)
                  && Enabled(After(run[..|run| - 1], maxWait), run[|run| - 1]))
  }

  ghost function After(run: seq<Step>, maxWait: int): World
    requires IsRun(run, maxWait)
    decreases |run|, 1
  {
    if run == [] then INIT else Apply(After(run[..|run| - 1], maxWait), run[|run| - 1], maxWait)
  }

  // ------------------------------------------------------------ no query is lost

  /** The plan ends by settling its message, and not before. */
  ghost predicate Settles(plan: seq<Action>) {
    |plan| > 0 && plan[|plan| - 1] == Ack && forall i :: 0 <= i < |plan| - 1 ==> plan[i] != Ack
  }

  /** What is left of a plan for the row of `q`: its writes are to that row, it settles its
      message last, and an in-flight state it writes is followed by a message about the row. */
  ghost predicate PlanOk(plan: seq<Action>, q: QueryId, routable: bool) {
    && Settles(plan)
    && (forall i :: 0 <= i < |plan| && plan[i].SetState? ==> plan[i].query == q)
    && (forall i :: 0 <= i < |plan| - 1 && plan[i].Import? ==> plan[i + 1].Import? || plan[i + 1].SetState?)
    && (routable ==> forall i :: 0 <= i < |plan| - 1 && plan[i].SetState? && plan[i].state.InFlight() ==>
          plan[i + 1].Publish? && plan[i + 1].msg.About(q))
  }

  /** Every message talks about an existing row, with that row's request type. */
  ghost predicate MsgOk(w: World, msg: Msg) {
    msg.HasQuery() ==>
      && msg.query in w.rows
      && (msg.VerifyMsg? || msg.DownloadMsg? ==> msg.requestType == w.rows[msg.query].requestType)
  }

  /** The download in progress: until all packages are in, `firstErr` is unset exactly
      when every finished goroutine has stored its ZIP. */
  ghost predicate DownloadOk(w: World, msg: Msg, d: Work)
    requires d.Downloading? && msg.DownloadMsg?
  {
    && d.pending !! d.stored && d.pending + d.stored <= Indices(|msg.packages|)
    && (d.firstErr.None? <==> d.pending + d.stored == Indices(|msg.packages|))
    && (forall i :: i in d.stored ==> msg.packages[i] in w.blobs)
  }

  ghost predicate WorkOk(w: World, msg: Msg, work: Work) {
    && msg.HasQuery() && msg.query in w.rows
    && (work.Downloading? ==> msg.DownloadMsg? && DownloadOk(w, msg, work))
    && (work.Importing? ==> |work.plan| > 0 && work.plan[0].Import?)
    && (!work.Downloading? ==>
          && PlanOk(work.plan, msg.query, w.rows[msg.query].requestType.Routable())
          && (forall i :: 0 <= i < |work.plan| && work.plan[i].Import? ==> msg.Process())
          && (forall i :: 0 <= i < |work.plan| && work.plan[i].Publish? ==>
                MsgOk(w, work.plan[i].msg) && PackagesStored(w, work.plan[i].msg)))
  }

  /** The packages a process message names are all in blob storage. */
  ghost predicate PackagesStored(w: World, msg: Msg) {
    msg.Process() ==> forall p :: p in msg.packages ==> p in w.blobs
  }

  ghost predicate Typed(w: World) {
    && w.active.Keys <= w.queue.Keys
    && (forall m :: m in w.queue ==> MsgOk(w, w.queue[m]) && PackagesStored(w, w.queue[m]))
    && (forall m :: m in w.active ==> WorkOk(w, w.queue[m], w.active[m]))
  }

  /** Message `m` will still move the row of `q` on: it is unacknowledged and, if its handler
      runs, the handler has yet to write that row or to publish the next message about it. */
  ghost predicate Keeper(w: World, q: QueryId, m: MsgId) {
    && m in w.queue && w.queue[m].About(q)
    && (m in w.active && w.active[m].Running? ==>
          && |w.active[m].plan| > 0
          && (w.active[m].plan[0].SetState? || w.active[m].plan[0].Import?
              || (w.active[m].plan[0].Publish? && w.active[m].plan[0].msg.About(q))))
  }

  ghost predicate Kept(w: World, q: QueryId) {
    || (exists m :: Keeper(w, q, m))
    || (q in w.orphans && w.rows.Keys >= {q} && w.rows[q].state.Sent?)
  }

  ghost predicate Inv(w: World) {
    && Typed(w)
    && (forall q :: q in w.rows && w.rows[q].state.InFlight() && w.rows[q].requestType.Routable() ==> Kept(w, q))
  }

  predicate SameIdentity(r: Row, r': Row) {
    r'.requestType == r.requestType && r'.sentDate == r.sentDate
  }

  /** Only a row's state, quantity and packages ever change. */
  lemma WriteKeepsRows(rows: Rows, a: Action)
    requires a.SetState?
    ensures Write(rows, a).Keys == rows.Keys
    ensures forall q :: q in rows ==> SameIdentity(rows[q], Write(rows, a)[q])
    ensures forall q :: q in rows ==> Write(rows, a)[q].state == if q == a.query then a.state else rows[q].state
  {
  }

  /** Messages and work stay well formed when rows are added or rewritten and blobs added. */
  lemma TypedGrows(w: World, w': World)
    requires Typed(w)
    requires w.rows.Keys <= w'.rows.Keys && w.blobs <= w'.blobs
    requires forall q :: q in w.rows ==> w'.rows[q].requestType == w.rows[q].requestType
    requires w'.queue == w.queue && w'.active == w.active
    ensures Typed(w')
  {
    forall m | m in w'.active
      ensures WorkOk(w', w'.queue[m], w'.active[m])
    {
      assert WorkOk(w, w.queue[m], w.active[m]);
    }
  }

  lemma VerifyPlanOk(w: World, msg: Msg, answer: VerifyAnswer, now: int, maxWait: int)
    requires msg.VerifyMsg? && MsgOk(w, msg)
    ensures WorkOk(w, msg, Running(VerifyPlan(w.rows, msg, answer, now, maxWait)))
  {
  }

  lemma DownloadPlanOk(w: World, msg: Msg, allStored: bool)
    requires msg.DownloadMsg? && MsgOk(w, msg)
    requires allStored ==> forall p :: p in msg.packages ==> p in w.blobs
    ensures WorkOk(w, msg, Running(DownloadPlan(msg, allStored)))
  {
  }

  lemma FinishPlanOk(msg: Msg)
    requires msg.Process()
    ensures PlanOk(FinishPlan(msg), msg.query, true) && FinishPlan(msg)[0].SetState?
    ensures forall i :: 0 <= i < |FinishPlan(msg)| ==> !FinishPlan(msg)[i].Import?
    ensures forall i :: 0 <= i < |FinishPlan(msg)| && FinishPlan(msg)[i].Publish? ==>
              FinishPlan(msg)[i].msg == CompleteCfdisMsg
  {
  }

  /** Imports before a plan that writes first leave it a plan. */
  lemma PlanAfterImports(packages: seq<PackageId>, plan: seq<Action>, q: QueryId, routable: bool)
    requires PlanOk(plan, q, routable) && plan[0].SetState?
    ensures PlanOk(Imports(packages) + plan, q, routable)
  {
    var n, all := |packages|, Imports(packages) + plan;
    assert forall i :: n <= i < |all| ==> all[i] == plan[i - n];
    assert forall i :: 0 <= i < n ==> all[i].Import?;
  }

  lemma ProcessPlanOk(w: World, msg: Msg, packages: seq<PackageId>)
    requires msg.Process() && MsgOk(w, msg)
    ensures WorkOk(w, msg, Running(ProcessPlan(msg, packages)))
  {
    FinishPlanOk(msg);
    PlanAfterImports(packages, FinishPlan(msg), msg.query, w.rows[msg.query].requestType.Routable());
    var plan := ProcessPlan(msg, packages);
    assert forall i :: |packages| <= i < |plan| ==> plan[i] == FinishPlan(msg)[i - |packages|];
  }

  lemma TypedStart(w: World, m: MsgId, work: Work)
    requires Typed(w) && m in w.queue && WorkOk(w, w.queue[m], work)
    ensures Typed(w.(active := w.active[m := work]))
  {
    var w' := w.(active := w.active[m := work]);
    forall n | n in w'.active
      ensures WorkOk(w', w'.queue[n], w'.active[n])
    {
      if n != m {
        assert WorkOk(w, w.queue[n], w.active[n]);
      }
    }
  }

  /** Messages and locks may go, and a well-formed message may come. */
  lemma TypedQueue(w: World, w': World)
    requires Typed(w) && w'.rows == w.rows && w'.blobs == w.blobs
    requires w'.active.Keys <= w'.queue.Keys
    requires forall m :: m in w'.active ==> m in w.active && w'.active[m] == w.active[m] && w'.queue[m] == w.queue[m]
    requires forall m :: m in w'.queue ==>
               (m in w.queue && w'.queue[m] == w.queue[m]) || (MsgOk(w, w'.queue[m]) && PackagesStored(w, w'.queue[m]))
    ensures Typed(w')
  {
    forall n | n in w'.active
      ensures WorkOk(w', w'.queue[n], w'.active[n])
    {
      assert WorkOk(w, w.queue[n], w.active[n]);
    }
  }

  /** The handler after one action, everything else being as before. */
  lemma TypedAdvance(w: World, m: MsgId)
    requires Typed(w) && m in w.active && !w.active[m].Downloading? && |w.active[m].plan| > 0 && !w.active[m].plan[0].Ack?
    ensures Typed(w.(active := w.active[m := Running(w.active[m].plan[1..])]))
  {
    var plan := w.active[m].plan;
    assert WorkOk(w, w.queue[m], w.active[m]);
    var rest := Running(plan[1..]);
    assert WorkOk(w, w.queue[m], rest) by {
      assert forall i :: 0 <= i < |rest.plan| ==> rest.plan[i] == plan[i + 1];
    }
    TypedStart(w, m, rest);
  }

  lemma TypedPublish(v: World, out: MsgId, msg: Msg)
    requires Typed(v) && out !in v.queue && MsgOk(v, msg) && PackagesStored(v, msg)
    ensures Typed(v.(queue := v.queue[out := msg]))
  {
    TypedQueue(v, v.(queue := v.queue[out := msg]));
  }

  lemma TypedPerform(w: World, m: MsgId, out: MsgId)
    requires Typed(w) && Enabled(w, Act(m, out))
    ensures Typed(Perform(w, m, out))
  {
    var a, w' := w.active[m].plan[0], Perform(w, m, out);
    assert WorkOk(w, w.queue[m], w.active[m]);
    if a.Ack? {
      TypedQueue(w, w');
    } else {
      TypedAdvance(w, m);
      var v := w.(active := w.active[m := Running(w.active[m].plan[1..])]);
      if a.Publish? {
        assert MsgOk(v, a.msg) && PackagesStored(v, a.msg);
        TypedPublish(v, out, a.msg);
      } else {
        TypedGrows(v, w');
      }
    }
  }

  lemma TypedPackage(w: World, m: MsgId, i: nat, ok: bool)
    requires Typed(w) && Enabled(w, Package(m, i, ok))
    ensures Typed(Apply(w, Package(m, i, ok), 0))
  {
    var w' := Apply(w, Package(m, i, ok), 0);
    var v := w.(blobs := w'.blobs);
    TypedGrows(w, v);
    assert WorkOk(w, w.queue[m], w.active[m]);
    assert DownloadOk(v, w.queue[m], w'.active[m]) by {
      var d, d' := w.active[m], w'.active[m];
      if ok {
        assert d'.pending + d'.stored == d.pending + d.stored;
      } else {
        assert i in Indices(|w.queue[m].packages|) && i !in d'.pending + d'.stored;
      }
    }
    TypedStart(v, m, w'.active[m]);
  }

  lemma TypedCreate(w: World, s: Step, maxWait: int)
    requires Typed(w) && Enabled(w, s) && (s.Create? || s.CreateFails? || s.CreateDies?)
    ensures Typed(Apply(w, s, maxWait))
  {
    var w' := Apply(w, s, maxWait);
    var v := w'.(queue := w.queue);
    TypedGrows(w, v);
    if s.Create? {
      TypedQueue(v, w');
    }
  }

  lemma TypedBeginVerify(w: World, m: MsgId, answer: VerifyAnswer, maxWait: int)
    requires Typed(w) && Enabled(w, BeginVerify(m, answer))
    ensures Typed(Apply(w, BeginVerify(m, answer), maxWait))
  {
    VerifyPlanOk(w, w.queue[m], answer, w.now, maxWait);
    TypedStart(w, m, Running(VerifyPlan(w.rows, w.queue[m], answer, w.now, maxWait)));
  }

  lemma TypedBeginDownload(w: World, m: MsgId, fiel: bool, maxWait: int)
    requires Typed(w) && Enabled(w, BeginDownload(m, fiel))
    ensures Typed(Apply(w, BeginDownload(m, fiel), maxWait))
  {
    DownloadPlanOk(w, w.queue[m], false);
    TypedStart(w, m, Apply(w, BeginDownload(m, fiel), maxWait).active[m]);
  }

  lemma TypedJoin(w: World, m: MsgId, maxWait: int)
    requires Typed(w) && Enabled(w, Join(m))
    ensures Typed(Apply(w, Join(m), maxWait))
  {
    assert WorkOk(w, w.queue[m], w.active[m]);
    DownloadPlanOk(w, w.queue[m], w.active[m].firstErr.None?);
    TypedStart(w, m, Apply(w, Join(m), maxWait).active[m]);
  }

  lemma TypedBeginProcess(w: World, m: MsgId, maxWait: int)
    requires Typed(w) && Enabled(w, BeginProcess(m))
    ensures Typed(Apply(w, BeginProcess(m), maxWait))
  {
    var work := Running(ProcessPlan(w.queue[m], PackagesToProcess(w.rows, w.queue[m])));
    ProcessPlanOk(w, w.queue[m], PackagesToProcess(w.rows, w.queue[m]));
    TypedStart(w, m, work);
    TypedGrows(w.(active := w.active[m := work]), Apply(w, BeginProcess(m), maxWait));
  }

  predicate ImportStep(s: Step) {
    s.OpenPackage? || s.SkipPackage? || s.Execute? || s.ClosePackage?
  }

  /** Getting on with an import changes how far the one handler has come, and what is logged of it. */
  lemma ImportMoves(w: World, s: Step, maxWait: int)
    requires Enabled(w, s) && ImportStep(s)
    ensures var w' := Apply(w, s, maxWait);
            && s.m in w.queue && w.queue[s.m].Process() && s.m in w.active && !w.active[s.m].Downloading?
            && |w.active[s.m].plan| > 0 && w.active[s.m].plan[0].Import? && s.m in w'.active
            && w'.rows == w.rows && w'.queue == w.queue && w'.blobs == w.blobs && w'.now == w.now
            && w'.agenda == w.agenda && w'.finished == w.finished && w'.log == w.log
            && w'.active == w.active[s.m := w'.active[s.m]]
            && (w'.active[s.m] == Running(w.active[s.m].plan[1..])
                || (w'.active[s.m].Importing? && w'.active[s.m].plan == w.active[s.m].plan))
  {
  }

  /** A handler gets on with its imports. */
  lemma TypedImport(w: World, s: Step, maxWait: int)
    requires Typed(w) && Enabled(w, s) && ImportStep(s)
    ensures Typed(Apply(w, s, maxWait))
  {
    var m, w' := s.m, Apply(w, s, maxWait);
    ImportMoves(w, s, maxWait);
    var v := w.(active := w.active[m := w'.active[m]]);
    assert Typed(v) by {
      if w'.active[m].Running? {
        TypedAdvance(w, m);
      } else {
        assert WorkOk(w, w.queue[m], w.active[m]);
        TypedStart(w, m, w'.active[m]);
      }
    }
    TypedGrows(v, w');
  }

  /** A message is published or leaves its queue, or a handler dies. */
  lemma TypedMessages(w: World, s: Step, maxWait: int)
    requires Typed(w) && Enabled(w, s) && (s.PublishReverify? || s.Die? || s.Elsewhere?)
    ensures Typed(Apply(w, s, maxWait))
  {
    TypedQueue(w, Apply(w, s, maxWait));
  }

  lemma TypedStep(w: World, s: Step, maxWait: int)
    requires Typed(w) && Enabled(w, s)
    ensures Typed(Apply(w, s, maxWait))
  {
    if s.Create? || s.CreateFails? || s.CreateDies? {
      TypedCreate(w, s, maxWait);
    } else if s.BeginVerify? {
      TypedBeginVerify(w, s.m, s.answer, maxWait);
    } else if s.BeginDownload? {
      TypedBeginDownload(w, s.m, s.fiel, maxWait);
    } else if s.Join? {
      TypedJoin(w, s.m, maxWait);
    } else if s.BeginProcess? {
      TypedBeginProcess(w, s.m, maxWait);
    } else if ImportStep(s) {
      TypedImport(w, s, maxWait);
    } else if s.PublishReverify? || s.Die? || s.Elsewhere? {
      TypedMessages(w, s, maxWait);
    } else if s.Act? {
      TypedPerform(w, s.m, s.out);
    } else if s.Package? {
      TypedPackage(w, s.m, s.i, s.ok);
    } else {
      TypedGrows(w, Apply(w, s, maxWait));
    }
  }

  /** Its message stays one if the handler has more to do for the row. */
  lemma KeptByActor(w: World, m: MsgId, out: MsgId, q: QueryId)
    requires Enabled(w, Act(m, out)) && WorkOk(w, w.queue[m], w.active[m]) && q in w.rows && w.queue[m].About(q)
    requires w.rows[q].requestType.Routable()
    requires var a := w.active[m].plan[0]; a.SetState? && a.state.InFlight()
    ensures Keeper(Perform(w, m, out), q, m)
  {
    var plan := w.active[m].plan;
    assert plan[0 + 1].Publish?;
    assert Perform(w, m, out).active[m].plan[0] == plan[1];
  }

  /** Other messages stay keepers. */
  lemma KeptByOther(w: World, m: MsgId, out: MsgId, q: QueryId, k: MsgId)
    requires Enabled(w, Act(m, out)) && Keeper(w, q, k) && k != m
    ensures Keeper(Perform(w, m, out), q, k)
  {
  }

  /** Acting on its plan, a handler leaves a keeper behind for the row it is about. */
  lemma KeptPerform(w: World, m: MsgId, out: MsgId, q: QueryId)
    requires Inv(w) && Enabled(w, Act(m, out)) && q in w.rows
    requires var w' := Perform(w, m, out); w'.rows[q].state.InFlight() && w'.rows[q].requestType.Routable()
    ensures Kept(Perform(w, m, out), q)
  {
    var w', a := Perform(w, m, out), w.active[m].plan[0];
    assert WorkOk(w, w.queue[m], w.active[m]);
    if a.SetState? && a.query == q {
      KeptByActor(w, m, out, q);
    } else if a.Publish? && a.msg.About(q) {
      assert Keeper(w', q, out);
    } else {
      assert w'.rows[q].state == w.rows[q].state && Kept(w, q);
      if k :| Keeper(w, q, k) {
        KeptByOther(w, m, out, q, k);
      }
    }
  }

  /** Importing leaves a keeper a keeper: more imports or the row write are still to come. */
  lemma KeeperImports(w: World, s: Step, maxWait: int, q: QueryId, k: MsgId)
    requires Typed(w) && Enabled(w, s) && ImportStep(s) && Keeper(w, q, k)
    ensures Keeper(Apply(w, s, maxWait), q, k)
  {
    ImportMoves(w, s, maxWait);
    if k == s.m {
      NextIsWrite(w, k);
    }
  }

  lemma NextIsWrite(w: World, k: MsgId)
    requires Typed(w) && k in w.active && !w.active[k].Downloading? && |w.active[k].plan| > 0 && w.active[k].plan[0].Import?
    ensures var rest := w.active[k].plan[1..]; |rest| > 0 && (rest[0].Import? || rest[0].SetState?)
  {
    var plan := w.active[k].plan;
    assert WorkOk(w, w.queue[k], w.active[k]);
    assert |plan| > 1 && (plan[0 + 1].Import? || plan[0 + 1].SetState?);
  }

  /** So does any other step but a handler's own action. */
  lemma KeeperStays(w: World, s: Step, maxWait: int, q: QueryId, k: MsgId)
    requires Enabled(w, s) && !s.Act? && !ImportStep(s) && Keeper(w, q, k)
    ensures Keeper(Apply(w, s, maxWait), q, k)
  {
  }

  lemma KeptAside(w: World, s: Step, maxWait: int, q: QueryId)
    requires Inv(w) && Enabled(w, s) && !s.Act? && q in w.rows
    requires w.rows[q].state.InFlight() && w.rows[q].requestType.Routable()
    ensures Kept(Apply(w, s, maxWait), q)
  {
    assert Apply(w, s, maxWait).rows[q] == w.rows[q];
    assert Kept(w, q);
    if k :| Keeper(w, q, k) {
      if ImportStep(s) {
        KeeperImports(w, s, maxWait, q, k);
      } else {
        KeeperStays(w, s, maxWait, q, k);
      }
    }
  }

  lemma KeptStep(w: World, s: Step, maxWait: int, q: QueryId)
    requires Inv(w) && Enabled(w, s)
    requires q in Apply(w, s, maxWait).rows
    requires var row := Apply(w, s, maxWait).rows[q]; row.state.InFlight() && row.requestType.Routable()
    ensures Kept(Apply(w, s, maxWait), q)
  {
    if s.Act? {
      KeptPerform(w, s.m, s.out, q);
    } else if q in w.rows {
      KeptAside(w, s, maxWait, q);
    } else if s.Create? {
      assert Keeper(Apply(w, s, maxWait), q, s.m);
    }
  }

  lemma {:induction false} InvHolds(run: seq<Step>, maxWait: int)
    requires IsRun(run, maxWait)
    ensures Inv(After(run, maxWait))
    decreases |run|
  {
    if run != [] {
      var w, s := After(run[..|run| - 1], maxWait), run[|run| - 1];
      InvHolds(run[..|run| - 1], maxWait);
      TypedStep(w, s, maxWait);
      forall q | q in After(run, maxWait).rows && After(run, maxWait).rows[q].state.InFlight()
                 && After(run, maxWait).rows[q].requestType.Routable()
        ensures Kept(After(run, maxWait), q)
      {
        KeptStep(w, s, maxWait, q);
      }
    }
  }

  /** No query is lost: after any run, a row that waits to be moved on has an unacknowledged
      message about it, unless its creation died half way and it is still SENT. */
  lemma NoLostQuery(run: seq<Step>, maxWait: int, q: QueryId)
    requires IsRun(run, maxWait)
    requires q in After(run, maxWait).rows
    requires var row := After(run, maxWait).rows[q];
             (row.state.Sent? || row.state.ToDownload? || row.state.Downloaded?)
             && (row.requestType.Metadata? || row.requestType.Cfdi?)
    ensures var w := After(run, maxWait);
            || (exists m :: m in w.queue && w.queue[m].HasQuery() && w.queue[m].query == q)
            || (q in w.orphans && w.rows[q].state.Sent?)
  {
    InvHolds(run, maxWait);
    var w := After(run, maxWait);
    assert Kept(w, q);
    if m :| Keeper(w, q, m) {
      assert m in w.queue && w.queue[m].About(q);
    }
  }

  /** A row orphaned at birth is one re-verification away from being looked after again. */
  lemma ReverifyAdoptsOrphan(run: seq<Step>, maxWait: int, q: QueryId, m: MsgId)
    requires IsRun(run, maxWait)
    requires var w := After(run, maxWait);
             q in w.orphans && q in w.rows && w.rows[q].state.Sent? && m !in w.queue
    ensures var run' := run + [SelectReverify(q), PublishReverify(q, m)];
            IsRun(run', maxWait) && m in After(run', maxWait).queue && After(run', maxWait).queue[m].About(q)
  {
    var run1 := run + [SelectReverify(q)];
    var run2 := run + [SelectReverify(q), PublishReverify(q, m)];
    assert run1[..|run1| - 1] == run;
    assert IsRun(run1, maxWait);
    assert run2[..|run2| - 1] == run1;
  }

  /** Whatever packages a process message names are in blob storage. */
  lemma ProcessedPackagesAreStored(run: seq<Step>, maxWait: int, m: MsgId, p: PackageId)
    requires IsRun(run, maxWait)
    requires m in After(run, maxWait).queue && After(run, maxWait).queue[m].Process()
    requires p in After(run, maxWait).queue[m].packages
    ensures p in After(run, maxWait).blobs
  {
    InvHolds(run, maxWait);
    assert PackagesStored(After(run, maxWait), After(run, maxWait).queue[m]);
  }

  predicate StoredAll(w: World, packages: seq<PackageId>) {
    forall p :: p in packages ==> p in w.blobs
  }

  /** Parallel download is all or nothing: once every goroutine is done, `firstErr` is
      unset exactly when every package of the message was stored. */
  lemma JoinIsAllOrNothing(run: seq<Step>, maxWait: int, m: MsgId)
    requires IsRun(run, maxWait) && Enabled(After(run, maxWait), Join(m))
    ensures var w := After(run, maxWait);
            && (w.active[m].firstErr.None? <==> w.active[m].stored == Indices(|w.queue[m].packages|))
            && (w.active[m].firstErr.None? ==> forall p :: p in w.queue[m].packages ==> p in w.blobs)
  {
    InvHolds(run, maxWait);
    var w := After(run, maxWait);
    assert WorkOk(w, w.queue[m], w.active[m]);
    assert w.active[m].pending + w.active[m].stored == w.active[m].stored;
  }

  /** One more step of a run. */
  lemma Extend(run: seq<Step>, s: Step, maxWait: int) returns (longer: seq<Step>)
    requires IsRun(run, maxWait) && Enabled(After(run, maxWait), s)
    ensures longer == run + [s]
    ensures IsRun(longer, maxWait) && After(longer, maxWait) == Apply(After(run, maxWait), s, maxWait)
  {
    longer := run + [s];
    assert longer[..|longer| - 1] == run;
  }

  /** There is always an identifier not in use. */
  lemma {:induction false} AboveAll(ids: set<MsgId>) returns (id: MsgId)
    ensures forall i :: i in ids ==> i < id
    decreases |ids|
  {
    if ids == {} {
      id := 0;
    } else {
      var one :| one in ids;
      var above := AboveAll(ids - {one});
      id := if one < above then above else one + 1;
      forall i | i in ids ensures i < id {
        assert i == one || i in ids - {one};
      }
    }
  }

  // ------------------------------------------------------------ handlers run to their end

  /** The queue with messages added under these identifiers. */
  function Enqueue(queue: map<MsgId, Msg>, ids: seq<MsgId>, msgs: seq<Msg>): map<MsgId, Msg>
    requires |ids| == |msgs|
    decreases |ids|
  {
    if ids == [] then queue else Enqueue(queue[ids[0] := msgs[0]], ids[1..], msgs[1..])
  }

  /** Which packages can be read, and of how many statements they are. */
  type Sizes = PackageId -> Option<nat>

  function StatementsOf(metadata: bool, p: PackageId, n: nat): (ss: seq<Statement>)
    ensures |ss| == n && forall i :: 0 <= i < n ==> ss[i] == Statement(metadata, p, i)
  {
    seq(n, i requires 0 <= i < n => Statement(metadata, p, i))
  }

  /** The statements the handler of `msg` executes if none fails. */
  function ImportedBy(msg: Msg, plan: seq<Action>, sizes: Sizes): seq<Statement> {
    if plan == [] then []
    else (if plan[0].Import? then ImportedOf(msg, plan[0].pkg, sizes) else []) + ImportedBy(msg, plan[1..], sizes)
  }

  function ImportedOf(msg: Msg, p: PackageId, sizes: Sizes): seq<Statement> {
    if sizes(p).Some? then StatementsOf(msg.MetadataMsg?, p, sizes(p).value) else []
  }

  /** The handler of `m` runs from `w` to its end, undisturbed, and gets to `w'`. */
  ghost predicate RanThrough(w: World, w': World, m: MsgId, plan: seq<Action>, sizes: Sizes, ids: seq<MsgId>)
    requires m in w.queue
  {
    && |ids| == |Published(plan)|
    && w'.rows == RowsAfter(w.rows, plan)
    && w'.queue == Enqueue(w.queue, ids, Published(plan)) - {m} && w'.active == w.active - {m}
    && w'.imported == w.imported + ImportedBy(w.queue[m], plan, sizes)
    && w'.now == w.now && w'.blobs == w.blobs && w'.reverify == w.reverify && w'.orphans == w.orphans
    && NewIds(w.queue, ids)
  }

  /** The packages the plan imports and that can be read are stored. */
  ghost predicate Readable(w: World, plan: seq<Action>, sizes: Sizes) {
    forall i :: 0 <= i < |plan| && plan[i].Import? && sizes(plan[i].pkg).Some? ==> plan[i].pkg in w.blobs
  }

  /** No package can be read. */
  const NOTHING_READ: Sizes := p => None

  ghost predicate NewIds(queue: map<MsgId, Msg>, ids: seq<MsgId>) {
    && (forall id :: id in ids ==> id !in queue)
    && (forall i, j :: 0 <= i < j < |ids| ==> ids[i] != ids[j])
  }

  lemma RunningSettles(run: seq<Step>, m: MsgId, maxWait: int)
    requires IsRun(run, maxWait) && m in After(run, maxWait).active && After(run, maxWait).active[m].Running?
    ensures var w := After(run, maxWait);
            m in w.queue && Settles(w.active[m].plan) && (w.active[m].plan[0].Import? ==> w.queue[m].Process())
  {
    InvHolds(run, maxWait);
    var w := After(run, maxWait);
    assert WorkOk(w, w.queue[m], w.active[m]);
  }

  /** Nothing but the handler of `m`, its package and the statements executed has changed. */
  ghost predicate OnlyImported(w: World, w': World, m: MsgId) {
    && w'.rows == w.rows && w'.queue == w.queue && w'.now == w.now && w'.blobs == w.blobs
    && w'.reverify == w.reverify && w'.orphans == w.orphans
    && m in w'.active && w'.active - {m} == w.active - {m}
  }

  /** The statements of an opened package, up to number `k`, none failing. */
  lemma {:induction false} ExecuteUpTo(run: seq<Step>, m: MsgId, size: nat, k: nat, maxWait: int) returns (longer: seq<Step>)
    requires IsRun(run, maxWait) && Enabled(After(run, maxWait), OpenPackage(m, size)) && k <= size
    ensures IsRun(longer, maxWait) && OnlyImported(After(run, maxWait), After(longer, maxWait), m)
    ensures var (w, w') := (After(run, maxWait), After(longer, maxWait));
            && w'.active[m] == Importing(w.active[m].plan, k, size, true)
            && w'.imported == w.imported + StatementsOf(w.queue[m].MetadataMsg?, w.active[m].plan[0].pkg, k)
    decreases k
  {
    var w := After(run, maxWait);
    if k == 0 {
      longer := Extend(run, OpenPackage(m, size), maxWait);
      assert After(longer, maxWait).active - {m} == w.active - {m};
    } else {
      longer := ExecuteUpTo(run, m, size, k - 1, maxWait);
      var v := After(longer, maxWait);
      longer := Extend(longer, Execute(m, true), maxWait);
      OneStatementMore(w, v, m, k - 1, size);
    }
  }

  lemma OneStatementMore(w: World, v: World, m: MsgId, k: nat, size: nat)
    requires OnlyImported(w, v, m) && AtImport(w, m) && k < size && v.active[m] == Importing(w.active[m].plan, k, size, true)
    requires v.imported == w.imported + StatementsOf(w.queue[m].MetadataMsg?, w.active[m].plan[0].pkg, k)
    ensures InImport(v, m) && OnlyImported(w, Executed(v, m, true), m)
    ensures Executed(v, m, true).active[m] == Importing(w.active[m].plan, k + 1, size, true)
    ensures Executed(v, m, true).imported
              == w.imported + StatementsOf(w.queue[m].MetadataMsg?, w.active[m].plan[0].pkg, k + 1)
  {
    var w' := Executed(v, m, true);
    assert w'.active - {m} == v.active - {m};
    var p, kind := w.active[m].plan[0].pkg, w.queue[m].MetadataMsg?;
    assert StatementsOf(kind, p, k + 1) == StatementsOf(kind, p, k) + [Statement(kind, p, k)];
  }

  /** One package, read or not, and its import over. */
  lemma ImportThrough(run: seq<Step>, m: MsgId, sizes: Sizes, maxWait: int) returns (longer: seq<Step>)
    requires IsRun(run, maxWait) && AtImport(After(run, maxWait), m)
    requires var w := After(run, maxWait); sizes(w.active[m].plan[0].pkg).Some? ==> w.active[m].plan[0].pkg in w.blobs
    ensures IsRun(longer, maxWait) && OnlyImported(After(run, maxWait), After(longer, maxWait), m)
    ensures var (w, w') := (After(run, maxWait), After(longer, maxWait));
            && w'.active[m] == Running(w.active[m].plan[1..])
            && w'.imported == w.imported + ImportedOf(w.queue[m], w.active[m].plan[0].pkg, sizes)
  {
    var w := After(run, maxWait);
    var read := sizes(w.active[m].plan[0].pkg);
    if read.None? {
      longer := Extend(run, SkipPackage(m), maxWait);
      assert After(longer, maxWait).active - {m} == w.active - {m};
    } else {
      longer := ReadThrough(run, m, read.value, maxWait);
    }
  }

  lemma ReadThrough(run: seq<Step>, m: MsgId, size: nat, maxWait: int) returns (longer: seq<Step>)
    requires IsRun(run, maxWait) && Enabled(After(run, maxWait), OpenPackage(m, size))
    ensures IsRun(longer, maxWait) && OnlyImported(After(run, maxWait), After(longer, maxWait), m)
    ensures var (w, w') := (After(run, maxWait), After(longer, maxWait));
            && w'.active[m] == Running(w.active[m].plan[1..])
            && w'.imported == w.imported + StatementsOf(w.queue[m].MetadataMsg?, w.active[m].plan[0].pkg, size)
  {
    longer := ExecuteUpTo(run, m, size, size, maxWait);
    var v := After(longer, maxWait);
    longer := Extend(longer, ClosePackage(m), maxWait);
    assert After(longer, maxWait).active - {m} == v.active - {m};
  }

  /** Undisturbed, a handler carries out its whole plan: the rows, the published events and the
      settlement come out as when the plan is carried out in one go, and the packages that can be
      read are imported. */
  lemma {:induction false} HandlerRunsThrough(run: seq<Step>, m: MsgId, sizes: Sizes, maxWait: int)
    returns (longer: seq<Step>, ids: seq<MsgId>)
    requires IsRun(run, maxWait)
    requires var w := After(run, maxWait); m in w.queue && m in w.active && w.active[m].Running?
    requires Readable(After(run, maxWait), After(run, maxWait).active[m].plan, sizes)
    ensures IsRun(longer, maxWait)
    ensures RanThrough(After(run, maxWait), After(longer, maxWait), m, After(run, maxWait).active[m].plan, sizes, ids)
    decreases |After(run, maxWait).active[m].plan|
  {
    var w := After(run, maxWait);
    RunningSettles(run, m, maxWait);
    if w.active[m].plan[0].Import? {
      longer := ImportThrough(run, m, sizes, maxWait);
      var v := After(longer, maxWait);
      ReadableRest(w, v, m, sizes);
      longer, ids := HandlerRunsThrough(longer, m, sizes, maxWait);
      RanOneImport(w, v, After(longer, maxWait), m, sizes, ids);
    } else {
      var out := AboveAll(w.queue.Keys);
      longer := Extend(run, Act(m, out), maxWait);
      ids := [];
      if w.active[m].plan[0].Ack? {
        assert w.active[m].plan == [Ack];
        assert RowsAfter(w.rows, [Ack]) == w.rows;
      } else {
        var v := After(longer, maxWait);
        ReadableRest(w, v, m, sizes);
        longer, ids := HandlerRunsThrough(longer, m, sizes, maxWait);
        if w.active[m].plan[0].Publish? {
          RanOnePublish(w, v, After(longer, maxWait), m, out, sizes, ids);
          ids := [out] + ids;
        } else {
          RanOneWrite(w, v, After(longer, maxWait), m, out, sizes, ids);
        }
      }
    }
  }

  lemma ReadableRest(w: World, v: World, m: MsgId, sizes: Sizes)
    requires m in w.queue && m in w.active && w.active[m].Running? && |w.active[m].plan| > 0
    requires m in v.queue && m in v.active && v.active[m] == Running(w.active[m].plan[1..])
    requires v.queue[m] == w.queue[m] && w.blobs <= v.blobs
    requires Readable(w, w.active[m].plan, sizes)
    ensures Readable(v, v.active[m].plan, sizes)
  {
    var plan, rest := w.active[m].plan, v.active[m].plan;
    assert forall i :: 0 <= i < |rest| ==> rest[i] == plan[i + 1];
  }

  lemma EnqueueOne(queue: map<MsgId, Msg>, id: MsgId, msg: Msg, ids: seq<MsgId>, msgs: seq<Msg>)
    requires |ids| == |msgs|
    ensures Enqueue(queue, [id] + ids, [msg] + msgs) == Enqueue(queue[id := msg], ids, msgs)
  {
    assert ([id] + ids)[1..] == ids && ([msg] + msgs)[1..] == msgs;
  }

  lemma NewIdsOne(queue: map<MsgId, Msg>, id: MsgId, msg: Msg, ids: seq<MsgId>)
    requires id !in queue && NewIds(queue[id := msg], ids)
    ensures NewIds(queue, [id] + ids)
  {
    var all := [id] + ids;
    assert forall j :: 0 < j < |all| ==> all[j] == ids[j - 1] && ids[j - 1] in ids;
  }

  lemma PublishedHead(plan: seq<Action>)
    requires |plan| > 0
    ensures plan[0].Publish? ==> Published(plan) == [plan[0].msg] + Published(plan[1..])
    ensures !plan[0].Publish? ==> Published(plan) == Published(plan[1..])
  {
  }

  lemma RanOneImport(w: World, v: World, w': World, m: MsgId, sizes: Sizes, ids: seq<MsgId>)
    requires AtImport(w, m) && OnlyImported(w, v, m) && v.active[m] == Running(w.active[m].plan[1..])
    requires v.imported == w.imported + ImportedOf(w.queue[m], w.active[m].plan[0].pkg, sizes)
    requires RanThrough(v, w', m, w.active[m].plan[1..], sizes, ids)
    ensures RanThrough(w, w', m, w.active[m].plan, sizes, ids)
  {
    var plan := w.active[m].plan;
    PublishedHead(plan);
    Assoc(w.imported, ImportedOf(w.queue[m], plan[0].pkg, sizes), ImportedBy(w.queue[m], plan[1..], sizes));
  }

  lemma Assoc<X>(a: seq<X>, b: seq<X>, c: seq<X>)
    ensures (a + b) + c == a + (b + c)
  {
  }

  lemma RanOneWrite(w: World, v: World, w': World, m: MsgId, out: MsgId, sizes: Sizes, ids: seq<MsgId>)
    requires Enabled(w, Act(m, out)) && w.active[m].plan[0].SetState? && v == Perform(w, m, out)
    requires RanThrough(v, w', m, w.active[m].plan[1..], sizes, ids)
    ensures RanThrough(w, w', m, w.active[m].plan, sizes, ids)
  {
    var plan := w.active[m].plan;
    assert v.active - {m} == w.active - {m};
    PublishedHead(plan);
    assert ImportedBy(w.queue[m], plan, sizes) == ImportedBy(w.queue[m], plan[1..], sizes);
  }

  lemma RanOnePublish(w: World, v: World, w': World, m: MsgId, out: MsgId, sizes: Sizes, later: seq<MsgId>)
    requires Enabled(w, Act(m, out)) && w.active[m].plan[0].Publish? && v == Perform(w, m, out)
    requires RanThrough(v, w', m, w.active[m].plan[1..], sizes, later)
    ensures RanThrough(w, w', m, w.active[m].plan, sizes, [out] + later)
  {
    var plan := w.active[m].plan;
    assert v.active - {m} == w.active - {m};
    PublishedHead(plan);
    assert ImportedBy(w.queue[m], plan, sizes) == ImportedBy(w.queue[m], plan[1..], sizes);
    EnqueueOne(w.queue, out, plan[0].msg, later, Published(plan[1..]));
    NewIdsOne(w.queue, out, plan[0].msg, later);
  }

  /** Where no package can be read nothing is imported. */
  lemma {:induction false} NothingImported(msg: Msg, plan: seq<Action>, sizes: Sizes)
    requires forall i :: 0 <= i < |plan| && plan[i].Import? ==> sizes(plan[i].pkg).None?
    ensures ImportedBy(msg, plan, sizes) == []
    decreases |plan|
  {
    if plan != [] {
      NothingImported(msg, plan[1..], sizes);
    }
  }

  /** A handler taken up and then left alone. */
  lemma TakenUp(run: seq<Step>, s: Step, sizes: Sizes, maxWait: int) returns (longer: seq<Step>, ids: seq<MsgId>)
    requires IsRun(run, maxWait) && Enabled(After(run, maxWait), s)
    requires s.BeginVerify? || s.BeginProcess? || s.Join? || (s.BeginDownload? && !s.fiel)
    requires var w1 := Apply(After(run, maxWait), s, maxWait); s.m in w1.active && Readable(w1, w1.active[s.m].plan, sizes)
    ensures var (w, w1) := (After(run, maxWait), Apply(After(run, maxWait), s, maxWait));
            && IsRun(longer, maxWait) && s.m in w.queue && s.m in w1.active && w1.active[s.m].Running?
            && RanThrough(w, After(longer, maxWait), s.m, w1.active[s.m].plan, sizes, ids)
  {
    var w := After(run, maxWait);
    longer := Extend(run, s, maxWait);
    var w1 := After(longer, maxWait);
    assert w1.active - {s.m} == w.active - {s.m};
    longer, ids := HandlerRunsThrough(longer, s.m, sizes, maxWait);
  }

  /** The first verification of a fresh query, whose answer names no packages. */
  lemma RunToFinished(rt: RequestType, maxWait: int) returns (run: seq<Step>)
    ensures IsRun(run, maxWait)
    ensures var w := After(run, maxWait);
            && w.rows == map[0 := Row(Sent, rt, Some(0), None, [])] && w.orphans == {} && w.now == 0 && w.blobs == {}
            && w.queue == map[0 := VerifyMsg(0, rt, Some(0), 0)]
            && w.active == map[0 := Running([UpdateQueryState(0, ToDownload, 0, []),
                                             Publish(DownloadMsg(0, rt, 0, [])), Ack])]
  {
    run := [];
    run := Extend(run, Create(0, rt, 0), maxWait);
    run := Extend(run, BeginVerify(0, Answer(Finished, 5000, 0, [])), maxWait);
  }

  /** Up to the start of the row write that marks a query of request type `rt` as downloaded. */
  lemma RunToDownloaded(rt: RequestType, maxWait: int) returns (run: seq<Step>, m: MsgId)
    ensures IsRun(run, maxWait)
    ensures var w := After(run, maxWait);
            && w.rows.Keys == {0} && w.orphans == {}
            && w.queue == map[m := DownloadMsg(0, rt, 0, [])]
            && w.active == map[m := Running(DownloadPlan(w.queue[m], true))]
  {
    var write, msg := UpdateQueryState(0, ToDownload, 0, []), DownloadMsg(0, rt, 0, []);
    run := RunToFinished(rt, maxWait);
    CarryOutBoth(After(run, maxWait).rows, write, msg);
    var w := After(run, maxWait);
    var ids;
    run, ids := HandlerRunsThrough(run, 0, NOTHING_READ, maxWait);
    m := ids[0];
    OneInOneOut(w.queue, 0, ids, msg);
    assert After(run, maxWait).active == map[];
    run := DownloadNothing(run, m, msg, maxWait);
  }

  lemma OneInOneOut(queue: map<MsgId, Msg>, m: MsgId, ids: seq<MsgId>, msg: Msg)
    requires queue.Keys == {m} && |ids| == 1 && ids[0] != m
    ensures Enqueue(queue, ids, [msg]) - {m} == map[ids[0] := msg]
  {
    assert Enqueue(queue[ids[0] := msg], ids[1..], [msg][1..]) == queue[ids[0] := msg];
  }

  lemma DownloadNothing(run: seq<Step>, m: MsgId, msg: Msg, maxWait: int) returns (longer: seq<Step>)
    requires IsRun(run, maxWait) && msg.DownloadMsg? && msg.packages == []
    requires After(run, maxWait).queue == map[m := msg] && After(run, maxWait).active == map[]
    ensures IsRun(longer, maxWait)
    ensures var w, w' := After(run, maxWait), After(longer, maxWait);
            && w'.active == map[m := Running(DownloadPlan(msg, true))]
            && w'.rows == w.rows && w'.queue == w.queue && w'.orphans == w.orphans
  {
    longer := Extend(run, BeginDownload(m, true), maxWait);
    longer := Extend(longer, Join(m), maxWait);
  }

  /** The router drops other request types: such a row can end up DOWNLOADED with no message
      left at all, though no creation was at fault. */
  lemma UnroutableQueryIsLost(name: string, maxWait: int)
    ensures exists run, q :: IsRun(run, maxWait) && LostIn(After(run, maxWait), q)
  {
    var run, m := RunToDownloaded(OtherRequest(name), maxWait);
    var w := After(run, maxWait);
    var write := SetState(0, Downloaded, Some(0), Some([]));
    assert w.active[m].plan == [write, Ack];
    CarryOutWrite(w.rows, write);
    var ids;
    run, ids := HandlerRunsThrough(run, m, NOTHING_READ, maxWait);
    assert LostIn(After(run, maxWait), 0);
  }

  ghost predicate LostIn(w: World, q: QueryId) {
    q in w.rows && w.rows[q].state.InFlight() && w.queue == map[] && w.orphans == {}
  }
}
