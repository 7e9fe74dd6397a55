/** The life of a query when no handler dies, no creation is cut short and nobody asks for
    re-verification; imports may fail. All requests are for metadata or CFDIs. */
module Lifecycle {
  import opened Options
  import opened VerifyBackoff
  import opened Pipeline
  import opened Protocol

  predicate CleanStep(s: Step) {
    !s.Die? && !s.CreateDies? && !s.SelectReverify? && !s.PublishReverify?
    && (s.Create? || s.CreateFails? ==> s.rt.Routable())
  }

  ghost predicate IsCleanRun(run: seq<Step>, maxWait: int) {
    IsRun(run, maxWait) && forall i :: 0 <= i < |run| ==> CleanStep(run[i])
  }

  // ------------------------------------------------------------ the words of states

  /** The verdicts a verification can end a query with. */
  predicate VerifyFinal(s: QueryState) {
    s.ManuallyCancelled? || s.InformationNotFound? || s.ErrorSatWsInternal? || s.ErrorTooBig? || s.Error?
    || s.TimeLimitReached?
  }

  predicate Follows(a: QueryState, b: QueryState) {
    match a
    case Draft => b.ErrorInCerts? || b.ErrorSatWsInternal? || b.Sent?
    case Sent => b.ToDownload? || VerifyFinal(b)
    case ToDownload => b.Downloaded? || b.Error?
    case Downloaded => b.Processed?
    case _ => false
  }

  /** A life from DRAFT on: each state is written after one it may follow. */
  ghost predicate IsLife(log: seq<QueryState>) {
    |log| >= 2 && log[0] == Draft && forall i :: 0 <= i < |log| - 1 ==> Follows(log[i], log[i + 1])
  }

  // ------------------------------------------------------------ what handlers still have to do

  /** A verify message carries the sent date and is due within the wait. */
  ghost predicate InWait(msg: Msg, maxWait: int)
    requires msg.VerifyMsg?
  {
    msg.sentDate.Some? && msg.dueAt <= msg.sentDate.value + MaxWait(maxWait)
  }

  /** A message that carries the work for `msg` on. */
  ghost predicate Successor(msg: Msg, next: Msg, maxWait: int) {
    match msg
    case VerifyMsg(q, _, sent, due) =>
      (next.DownloadMsg? && next.query == q) ||
      (next.VerifyMsg? && next.query == q && next.sentDate == sent && due < next.dueAt && InWait(next, maxWait))
    case DownloadMsg(q, _, _, _) => next.Process() && next.query == q
    case _ => false
  }

  /** The state a handler of `msg` may write, and what is left of its plan then. */
  ghost predicate WriteFits(msg: Msg, s: QueryState, rest: seq<Action>, maxWait: int) {
    match msg
    case VerifyMsg(_, _, _, _) =>
      if s.ToDownload? then |rest| == 2 && rest[0].Publish? && rest[0].msg.DownloadMsg?
                            && Successor(msg, rest[0].msg, maxWait) && rest[1] == Ack
      else VerifyFinal(s) && (rest == [Ack] || rest == [Publish(SplitMsg), Ack])
    case DownloadMsg(_, _, _, _) =>
      if s.Downloaded? then |rest| == 2 && rest[0].Publish? && Successor(msg, rest[0].msg, maxWait) && rest[1] == Ack
      else s.Error? && rest == [Ack]
    case _ => s.Processed? && (rest == [Ack] || rest == [Publish(CompleteCfdisMsg), Ack])
  }

  ghost predicate Shape(msg: Msg, plan: seq<Action>, maxWait: int) {
    || plan == [Ack]
    || (|plan| > 1 && msg.Process() && plan[0].Import? && (plan[1].Import? || plan[1].SetState?)
        && Shape(msg, plan[1..], maxWait))
    || (|plan| == 2 && plan[1] == Ack && plan[0].Publish?
        && (!plan[0].msg.HasQuery() || Successor(msg, plan[0].msg, maxWait)))
    || (|plan| > 1 && plan[0].SetState? && msg.HasQuery() && plan[0].query == msg.query
        && WriteFits(msg, plan[0].state, plan[1..], maxWait))
  }

  /** The row's state goes with how far the handler of its live message has come. */
  ghost predicate Fits(w: World, q: QueryId, m: MsgId)
    requires q in w.rows && m in w.queue
  {
    var st := w.rows[q].state;
    var writing := m !in w.active || !w.active[m].Running?
                   || (|w.active[m].plan| > 0 && (w.active[m].plan[0].SetState? || w.active[m].plan[0].Import?));
    match w.queue[m]
    case VerifyMsg(_, _, _, _) =>
      if writing then st.Sent?
      else |w.active[m].plan| > 0 && w.active[m].plan[0].Publish?
           && if w.active[m].plan[0].msg.VerifyMsg? then st.Sent? else st.ToDownload?
    case DownloadMsg(_, _, _, _) => if writing then st.ToDownload? else st.Downloaded?
    case _ => writing && st.Downloaded?
  }

  ghost predicate OnlyKeeper(w: World, q: QueryId, m: MsgId) {
    Keeper(w, q, m) && forall n :: Keeper(w, q, n) ==> n == m
  }

  /** A row in flight has exactly one live message, which goes with its state; a settled row has none. */
  ghost predicate Tended(w: World, q: QueryId)
    requires q in w.rows
  {
    if w.rows[q].state.InFlight() then exists m :: OnlyKeeper(w, q, m) && Fits(w, q, m)
    else forall m :: !Keeper(w, q, m)
  }

  ghost predicate LogOk(w: World, q: QueryId)
    requires q in w.rows
  {
    q in w.log && IsLife(w.log[q]) && w.log[q][|w.log[q]| - 1] == w.rows[q].state
  }

  ghost predicate ShapesOk(w: World, maxWait: int) {
    && (forall m :: m in w.queue && w.queue[m].VerifyMsg? ==> InWait(w.queue[m], maxWait))
    && (forall m :: m in w.active && m in w.queue && !w.active[m].Downloading? ==>
          Shape(w.queue[m], w.active[m].plan, maxWait))
  }

  ghost predicate CleanInv(w: World, maxWait: int) {
    && Inv(w) && ShapesOk(w, maxWait)
    && (forall q :: q in w.rows ==> w.rows[q].requestType.Routable() && Tended(w, q) && LogOk(w, q))
  }

  // ------------------------------------------------------------ plans have the right shape

  lemma VerifyShape(rows: Rows, msg: Msg, answer: VerifyAnswer, now: int, maxWait: int)
    requires msg.VerifyMsg? && InWait(msg, maxWait) && msg.dueAt <= now && CanEnrich(rows, msg)
    ensures Shape(msg, VerifyPlan(rows, msg, answer, now, maxWait), maxWait)
    ensures var plan := VerifyPlan(rows, msg, answer, now, maxWait);
            plan[0].SetState? || (plan[0].Publish? && plan[0].msg.VerifyMsg?)
  {
    var plan := VerifyPlan(rows, msg, answer, now, maxWait);
    RetryStaysInWindow(now, msg.sentDate.value, maxWait);
    if |plan| > 1 {
      assert plan[1..] == if |plan| == 2 then [plan[1]] else [plan[1], plan[2]];
    }
  }

  lemma DownloadShape(msg: Msg, allStored: bool, maxWait: int)
    requires msg.DownloadMsg? && msg.requestType.Routable()
    ensures Shape(msg, DownloadPlan(msg, allStored), maxWait)
    ensures DownloadPlan(msg, allStored)[0].SetState?
  {
    var plan := DownloadPlan(msg, allStored);
    if allStored {
      assert plan[1..] == Route(msg) + [Ack];
    }
  }

  lemma {:induction false} ProcessShape(msg: Msg, packages: seq<PackageId>, maxWait: int)
    requires msg.Process()
    ensures var plan := ProcessPlan(msg, packages);
            Shape(msg, plan, maxWait) && |plan| > 1 && (plan[0].Import? || plan[0].SetState?)
    decreases |packages|
  {
    var plan := ProcessPlan(msg, packages);
    if packages == [] {
      assert plan == FinishPlan(msg);
      assert plan[1..] == (if msg.MetadataMsg? then [Publish(CompleteCfdisMsg)] else []) + [Ack];
    } else {
      ProcessShape(msg, packages[1..], maxWait);
      assert plan[0] == Import(packages[0]) && plan[1..] == ProcessPlan(msg, packages[1..]);
      assert plan[1] == plan[1..][0];
    }
  }

  /** What is left of a plan after its first action has the right shape too. */
  lemma ShapeRest(msg: Msg, plan: seq<Action>, maxWait: int)
    requires Shape(msg, plan, maxWait) && plan[0] != Ack
    ensures Shape(msg, plan[1..], maxWait)
  {
  }

  lemma ShapesBegin(w: World, s: Step, maxWait: int)
    requires CleanInv(w, maxWait) && Enabled(w, s)
    requires s.BeginVerify? || s.BeginDownload? || s.BeginProcess? || s.Join?
    ensures ShapesOk(Apply(w, s, maxWait), maxWait)
  {
    var msg := w.queue[s.m];
    assert MsgOk(w, msg);
    if s.BeginVerify? {
      VerifyShape(w.rows, msg, s.answer, w.now, maxWait);
    } else if s.BeginDownload? {
      DownloadShape(msg, false, maxWait);
    } else if s.Join? {
      DownloadShape(msg, w.active[s.m].firstErr.None?, maxWait);
    } else {
      ProcessShape(msg, PackagesToProcess(w.rows, msg), maxWait);
    }
  }

  lemma ShapesImport(w: World, s: Step, maxWait: int)
    requires ShapesOk(w, maxWait) && Enabled(w, s) && ImportStep(s)
    ensures ShapesOk(Apply(w, s, maxWait), maxWait)
  {
    ImportMoves(w, s, maxWait);
    ShapeRest(w.queue[s.m], w.active[s.m].plan, maxWait);
  }

  /** What is known of a handler about to act: its plan has the right shape and writes to the row
      its message is about. */
  ghost predicate Acting(w: World, m: MsgId, maxWait: int) {
    && m in w.queue && m in w.active && w.active[m].Running? && |w.active[m].plan| > 0
    && w.active.Keys <= w.queue.Keys && Shape(w.queue[m], w.active[m].plan, maxWait)
    && (w.active[m].plan[0].SetState? ==> w.queue[m].HasQuery() && w.active[m].plan[0].query == w.queue[m].query)
  }

  lemma ActingNow(w: World, m: MsgId, out: MsgId, maxWait: int)
    requires CleanInv(w, maxWait) && Enabled(w, Act(m, out))
    ensures Acting(w, m, maxWait)
  {
    assert WorkOk(w, w.queue[m], w.active[m]);
  }

  lemma ShapesAct(w: World, m: MsgId, out: MsgId, maxWait: int)
    requires ShapesOk(w, maxWait) && Enabled(w, Act(m, out)) && Acting(w, m, maxWait)
    ensures ShapesOk(Perform(w, m, out), maxWait)
  {
    var plan, w' := w.active[m].plan, Perform(w, m, out);
    if plan[0] != Ack {
      ShapeRest(w.queue[m], plan, maxWait);
      assert forall n :: n in w.active ==> w'.queue[n] == w.queue[n];
    }
  }

  lemma ShapesStep(w: World, s: Step, maxWait: int)
    requires CleanInv(w, maxWait) && Enabled(w, s) && CleanStep(s)
    ensures ShapesOk(Apply(w, s, maxWait), maxWait)
  {
    if s.BeginVerify? || s.BeginDownload? || s.BeginProcess? || s.Join? {
      ShapesBegin(w, s, maxWait);
    } else if ImportStep(s) {
      ShapesImport(w, s, maxWait);
    } else if s.Act? {
      ActingNow(w, s.m, s.out, maxWait);
      ShapesAct(w, s.m, s.out, maxWait);
    }
  }

  // ------------------------------------------------------------ one live message per query

  /** Message `n` and what its handler is at are as before. */
  ghost predicate SameMsg(w: World, w': World, n: MsgId) {
    && (n in w.queue <==> n in w'.queue) && (n in w.active <==> n in w'.active)
    && (n in w.queue ==> w'.queue[n] == w.queue[n]) && (n in w.active ==> w'.active[n] == w.active[n])
  }

  /** The row's state is as before, and so are all messages that are or become live for it. */
  ghost predicate SameFor(w: World, w': World, q: QueryId) {
    && q in w.rows && q in w'.rows && w'.rows[q].state == w.rows[q].state
    && forall n :: SameMsg(w, w', n) || (!Keeper(w, q, n) && !Keeper(w', q, n))
  }

  lemma KeeperFrame(w: World, w': World, q: QueryId, n: MsgId)
    requires SameFor(w, w', q)
    ensures Keeper(w', q, n) <==> Keeper(w, q, n)
  {
  }

  lemma TendedFrame(w: World, w': World, q: QueryId)
    requires SameFor(w, w', q) && Tended(w, q)
    ensures Tended(w', q)
    ensures forall k :: OnlyKeeper(w, q, k) ==> OnlyKeeper(w', q, k) && SameMsg(w, w', k)
  {
    forall n ensures Keeper(w', q, n) <==> Keeper(w, q, n) {
      KeeperFrame(w, w', q, n);
    }
    forall k | OnlyKeeper(w, q, k) ensures OnlyKeeper(w', q, k) && SameMsg(w, w', k) {
    }
    if w.rows[q].state.InFlight() {
      var m :| OnlyKeeper(w, q, m) && Fits(w, q, m);
      assert OnlyKeeper(w', q, m) && Fits(w', q, m);
    }
  }

  /** The only live message is `m`; if all others stay as they are, it hands over to `k`. */
  lemma HandsOver(w: World, w': World, q: QueryId, m: MsgId, k: MsgId)
    requires OnlyKeeper(w, q, m) && Keeper(w', q, k) && (k == m || !Keeper(w', q, m))
    requires forall n :: n != m && n != k ==> SameMsg(w, w', n)
    ensures OnlyKeeper(w', q, k)
  {
    forall n | Keeper(w', q, n) ensures n == k {
      if n != m && n != k {
        assert SameMsg(w, w', n);
        assert Keeper(w, q, n);
      }
    }
  }

  /** The only live message is `m`; if it stops being one and all others stay, none is left. */
  lemma LastOneGoes(w: World, w': World, q: QueryId, m: MsgId)
    requires OnlyKeeper(w, q, m) && !Keeper(w', q, m)
    requires forall n :: n != m ==> SameMsg(w, w', n)
    ensures forall n :: !Keeper(w', q, n)
  {
    forall n ensures !Keeper(w', q, n) {
      if n != m && Keeper(w', q, n) {
        assert SameMsg(w, w', n);
        assert Keeper(w, q, n);
      }
    }
  }

  lemma TheKeeper(w: World, q: QueryId, m: MsgId)
    requires q in w.rows && Tended(w, q) && Keeper(w, q, m)
    ensures w.rows[q].state.InFlight() && OnlyKeeper(w, q, m) && Fits(w, q, m)
  {
  }

  /** The handler has not written the row yet: it downloads, imports, is about to write, or will retry. */
  ghost predicate Started(msg: Msg, work: Work) {
    || work.Downloading?
    || (work.Importing? && msg.Process())
    || (work.Running? && |work.plan| > 0
        && (work.plan[0].SetState? || (msg.Process() && work.plan[0].Import?)
            || (msg.VerifyMsg? && work.plan[0].Publish? && work.plan[0].msg.VerifyMsg?
                && work.plan[0].msg.query == msg.query)))
  }

  ghost predicate StartedBy(w: World, w': World, m: MsgId) {
    m in w.queue && m in w'.active && Started(w.queue[m], w'.active[m])
  }

  predicate BeginStep(s: Step) {
    s.BeginVerify? || s.BeginDownload? || s.BeginProcess? || s.Join? || s.Package? || ImportStep(s)
  }

  lemma BeginStarts(w: World, s: Step, maxWait: int)
    requires CleanInv(w, maxWait) && Enabled(w, s) && BeginStep(s)
    ensures StartedBy(w, Apply(w, s, maxWait), s.m)
  {
    var msg := w.queue[s.m];
    assert MsgOk(w, msg);
    if s.BeginVerify? {
      VerifyShape(w.rows, msg, s.answer, w.now, maxWait);
    } else if s.BeginDownload? {
      DownloadShape(msg, false, maxWait);
    } else if s.Join? {
      DownloadShape(msg, w.active[s.m].firstErr.None?, maxWait);
    } else if s.BeginProcess? {
      ProcessShape(msg, PackagesToProcess(w.rows, msg), maxWait);
    } else if ImportStep(s) {
      ImportMoves(w, s, maxWait);
      assert Shape(msg, w.active[s.m].plan, maxWait);
    }
  }

  /** The handler of the live message takes it up: it stays the live message. */
  lemma TendedStart(w: World, w': World, q: QueryId, m: MsgId)
    requires q in w.rows && Tended(w, q) && w'.rows == w.rows && w'.queue == w.queue
    requires m in w.queue && w.queue[m].About(q) && m in w'.active && Started(w.queue[m], w'.active[m])
    requires m in w.active ==> Started(w.queue[m], w.active[m])
    requires forall n :: n != m ==> SameMsg(w, w', n)
    ensures Tended(w', q) && OnlyKeeper(w, q, m) && OnlyKeeper(w', q, m)
    ensures w.rows[q].state.InFlight()
  {
    assert Keeper(w, q, m);
    TheKeeper(w, q, m);
    HandsOver(w, w', q, m, m);
    assert Fits(w', q, m);
  }

  /** Nothing but what the handler of message `m` is at has changed, and that it has not written. */
  ghost predicate TouchesOne(w: World, w': World, m: MsgId) {
    && w'.rows == w.rows && w'.queue == w.queue && m in w.queue && m in w'.active
    && (m in w.active ==> Started(w.queue[m], w.active[m]))
    && forall n :: n != m ==> SameMsg(w, w', n)
  }

  lemma ImportTouchesOne(w: World, s: Step, maxWait: int)
    requires Enabled(w, s) && ImportStep(s)
    ensures TouchesOne(w, Apply(w, s, maxWait), s.m)
  {
    ImportMoves(w, s, maxWait);
  }

  lemma BeginTouchesOne(w: World, s: Step, maxWait: int)
    requires Enabled(w, s) && BeginStep(s)
    ensures TouchesOne(w, Apply(w, s, maxWait), s.m)
  {
    if ImportStep(s) {
      ImportTouchesOne(w, s, maxWait);
    }
  }

  /** A handler starts, gets on with its downloads or with its imports. */
  lemma TendedBegin(w: World, s: Step, maxWait: int, q: QueryId)
    requires CleanInv(w, maxWait) && Enabled(w, s) && q in w.rows && BeginStep(s)
    ensures q in Apply(w, s, maxWait).rows && Tended(Apply(w, s, maxWait), q)
    ensures s.m in w.queue
    ensures w.queue[s.m].About(q) ==>
              w.rows[q].state.InFlight() && OnlyKeeper(w, q, s.m) && OnlyKeeper(Apply(w, s, maxWait), q, s.m)
  {
    BeginStarts(w, s, maxWait);
    BeginTouchesOne(w, s, maxWait);
    if w.queue[s.m].About(q) {
      TendedStart(w, Apply(w, s, maxWait), q, s.m);
    } else {
      TendedFrame(w, Apply(w, s, maxWait), q);
    }
  }

  /** The handler writes the row: it held the only live message, and the new state follows the old. */
  lemma TendedWrite(w: World, m: MsgId, out: MsgId, maxWait: int, q: QueryId)
    requires q in w.rows && Tended(w, q) && Enabled(w, Act(m, out))
    requires Shape(w.queue[m], w.active[m].plan, maxWait)
    requires w.queue[m].About(q) && w.active[m].plan[0].SetState?
    ensures var w' := Perform(w, m, out);
            q in w'.rows && Tended(w', q) && (w'.rows[q].state.InFlight() ==> OnlyKeeper(w', q, m))
    ensures w.rows[q].state.InFlight() && OnlyKeeper(w, q, m)
    ensures Follows(w.rows[q].state, w.active[m].plan[0].state)
    ensures Perform(w, m, out).rows[q].state == w.active[m].plan[0].state
  {
    var w', plan := Perform(w, m, out), w.active[m].plan;
    assert Keeper(w, q, m);
    TheKeeper(w, q, m);
    WriteKeepsRows(w.rows, plan[0]);
    assert w'.active[m].plan == plan[1..];
    if plan[0].state.InFlight() {
      HandsOver(w, w', q, m, m);
      assert Fits(w', q, m);
    } else {
      LastOneGoes(w, w', q, m);
    }
  }

  /** The handler publishes the next message about the row, which takes over. */
  lemma TendedPublish(w: World, m: MsgId, out: MsgId, maxWait: int, q: QueryId)
    requires q in w.rows && Tended(w, q) && Enabled(w, Act(m, out)) && w.active.Keys <= w.queue.Keys
    requires Shape(w.queue[m], w.active[m].plan, maxWait)
    requires w.queue[m].About(q) && w.active[m].plan[0].Publish? && w.active[m].plan[0].msg.HasQuery()
    ensures Tended(Perform(w, m, out), q)
    ensures w.rows[q].state.InFlight() && OnlyKeeper(w, q, m) && OnlyKeeper(Perform(w, m, out), q, out)
  {
    var w', plan := Perform(w, m, out), w.active[m].plan;
    assert Keeper(w, q, m);
    TheKeeper(w, q, m);
    assert w'.active[m].plan == [Ack] && out !in w.active;
    HandsOver(w, w', q, m, out);
    assert Fits(w', q, out);
  }

  /** A step of a handler that neither writes the row nor publishes about it. */
  lemma TendedAside(w: World, m: MsgId, out: MsgId, maxWait: int, q: QueryId)
    requires q in w.rows && Tended(w, q) && Enabled(w, Act(m, out)) && w.active.Keys <= w.queue.Keys
    requires Shape(w.queue[m], w.active[m].plan, maxWait)
    requires var a := w.active[m].plan[0];
             (a.SetState? ==> !w.queue[m].About(q)) && (a.Publish? ==> !a.msg.About(q))
    ensures SameFor(w, Perform(w, m, out), q)
  {
    var w', a := Perform(w, m, out), w.active[m].plan[0];
    if a.SetState? {
      WriteKeepsRows(w.rows, a);
    }
    assert !Keeper(w, q, m) && !Keeper(w', q, m);
    assert forall n :: n != m && n != out ==> SameMsg(w, w', n);
    assert a.Publish? ==> !Keeper(w, q, out) && !Keeper(w', q, out);
    assert !a.Publish? && out != m ==> SameMsg(w, w', out);
  }

  lemma TendedAct(w: World, m: MsgId, out: MsgId, maxWait: int, q: QueryId)
    requires Acting(w, m, maxWait) && Enabled(w, Act(m, out)) && q in w.rows && Tended(w, q)
    ensures q in Perform(w, m, out).rows && Tended(Perform(w, m, out), q)
  {
    var a := w.active[m].plan[0];
    if w.queue[m].About(q) && a.SetState? {
      TendedWrite(w, m, out, maxWait, q);
    } else if w.queue[m].About(q) && a.Publish? && a.msg.HasQuery() {
      TendedPublish(w, m, out, maxWait, q);
    } else {
      TendedAside(w, m, out, maxWait, q);
      TendedFrame(w, Perform(w, m, out), q);
    }
  }

  lemma LogAct(w: World, m: MsgId, out: MsgId, maxWait: int, q: QueryId)
    requires Acting(w, m, maxWait) && Enabled(w, Act(m, out)) && q in w.rows && Tended(w, q) && LogOk(w, q)
    ensures q in Perform(w, m, out).rows && LogOk(Perform(w, m, out), q)
  {
    var w', a := Perform(w, m, out), w.active[m].plan[0];
    if a.SetState? && a.query == q {
      TendedWrite(w, m, out, maxWait, q);
      LifeGoesOn(w.log[q], a.state);
      assert w'.log[q] == w.log[q] + [a.state];
    } else {
      assert w'.rows[q].state == w.rows[q].state && w'.log[q] == w.log[q];
    }
  }

  lemma LifeGoesOn(log: seq<QueryState>, next: QueryState)
    requires IsLife(log) && Follows(log[|log| - 1], next)
    ensures IsLife(log + [next])
  {
  }

  lemma CleanStepInv(w: World, s: Step, maxWait: int)
    requires CleanInv(w, maxWait) && Enabled(w, s) && CleanStep(s)
    requires Inv(Apply(w, s, maxWait))
    ensures CleanInv(Apply(w, s, maxWait), maxWait)
  {
    var w' := Apply(w, s, maxWait);
    ShapesStep(w, s, maxWait);
    forall q | q in w'.rows
      ensures w'.rows[q].requestType.Routable() && Tended(w', q) && LogOk(w', q)
    {
      RowStep(w, s, maxWait, q);
    }
  }

  lemma ActRow(w: World, m: MsgId, out: MsgId, maxWait: int, q: QueryId)
    requires Acting(w, m, maxWait) && Enabled(w, Act(m, out)) && q in w.rows && Tended(w, q) && LogOk(w, q)
    requires w.rows[q].requestType.Routable()
    ensures var w' := Perform(w, m, out);
            q in w'.rows && w'.rows[q].requestType.Routable() && Tended(w', q) && LogOk(w', q)
  {
    if w.active[m].plan[0].SetState? {
      WriteKeepsRows(w.rows, w.active[m].plan[0]);
    }
    TendedAct(w, m, out, maxWait, q);
    LogAct(w, m, out, maxWait, q);
  }

  /** Steps that touch neither the rows there are nor what handlers are at. */
  lemma IdleRow(w: World, s: Step, maxWait: int, q: QueryId)
    requires Enabled(w, s) && CleanStep(s) && !s.Act? && !BeginStep(s) && q in w.rows && Tended(w, q) && LogOk(w, q)
    requires w.active.Keys <= w.queue.Keys
    ensures var w' := Apply(w, s, maxWait);
            q in w'.rows && w'.rows[q].requestType == w.rows[q].requestType && Tended(w', q) && LogOk(w', q)
  {
    TendedFrame(w, Apply(w, s, maxWait), q);
  }

  lemma OtherRow(w: World, s: Step, maxWait: int, q: QueryId)
    requires CleanInv(w, maxWait) && Enabled(w, s) && CleanStep(s) && !s.Act? && q in w.rows
    ensures var w' := Apply(w, s, maxWait);
            q in w'.rows && w'.rows[q].requestType.Routable() && Tended(w', q) && LogOk(w', q)
  {
    if BeginStep(s) {
      TendedBegin(w, s, maxWait, q);
    } else {
      IdleRow(w, s, maxWait, q);
    }
  }

  lemma RowStep(w: World, s: Step, maxWait: int, q: QueryId)
    requires CleanInv(w, maxWait) && Enabled(w, s) && CleanStep(s) && q in Apply(w, s, maxWait).rows
    ensures var w' := Apply(w, s, maxWait);
            w'.rows[q].requestType.Routable() && Tended(w', q) && LogOk(w', q)
  {
    if s.Act? {
      ActingNow(w, s.m, s.out, maxWait);
      ActRow(w, s.m, s.out, maxWait, q);
    } else if q !in w.rows {
      TendedNew(w, s, maxWait, q);
    } else {
      OtherRow(w, s, maxWait, q);
    }
  }

  lemma TendedNew(w: World, s: Step, maxWait: int, q: QueryId)
    requires CleanInv(w, maxWait) && Enabled(w, s) && CleanStep(s) && (s.Create? || s.CreateFails?)
    requires q !in w.rows && q in Apply(w, s, maxWait).rows
    ensures Tended(Apply(w, s, maxWait), q) && LogOk(Apply(w, s, maxWait), q)
    ensures Apply(w, s, maxWait).rows[q].requestType.Routable()
  {
    var w' := Apply(w, s, maxWait);
    forall n | n in w.queue ensures !w.queue[n].About(q) {
      assert MsgOk(w, w.queue[n]);
    }
    if s.Create? {
      assert Keeper(w', q, s.m);
      assert OnlyKeeper(w', q, s.m) && Fits(w', q, s.m);
    }
  }

  lemma {:induction false} CleanInvHolds(run: seq<Step>, maxWait: int)
    requires IsCleanRun(run, maxWait)
    ensures CleanInv(After(run, maxWait), maxWait)
    decreases |run|
  {
    InvHolds(run, maxWait);
    if run != [] {
      var init, s := run[..|run| - 1], run[|run| - 1];
      assert IsCleanRun(init, maxWait);
      CleanInvHolds(init, maxWait);
      CleanStepInv(After(init, maxWait), s, maxWait);
    }
  }

  /** In a clean run every row lives a life: the states written to it, from DRAFT on, each
      follow the one before, and the last is its state now. */
  lemma EveryQueryLivesALife(run: seq<Step>, maxWait: int, q: QueryId)
    requires IsCleanRun(run, maxWait) && q in After(run, maxWait).rows
    ensures var w := After(run, maxWait);
            q in w.log && IsLife(w.log[q]) && w.log[q][|w.log[q]| - 1] == w.rows[q].state
  {
    CleanInvHolds(run, maxWait);
    assert LogOk(After(run, maxWait), q);
  }

  // ------------------------------------------------------------ every step gets closer to the end

  datatype Rank = Rank(stage: nat, wait: nat, inner: nat) {
    predicate Below(r: Rank) {
      stage < r.stage || (stage == r.stage && (wait < r.wait || (wait == r.wait && inner < r.inner)))
    }
  }

  ghost function WaitLeft(msg: Msg, maxWait: int): nat
    requires msg.VerifyMsg?
  {
    if InWait(msg, maxWait) then msg.sentDate.value + MaxWait(maxWait) - msg.dueAt else 0
  }

  /** How far the message and its handler are from settling the row: the stage it is at, the wait a
      verification has left, and the downloads, imports or other work its handler has left. */
  ghost function RankOf(msg: Msg, work: Option<Work>, maxWait: int): Rank {
    var running := work.Some? && work.value.Running?;
    var handsOn := running && |work.value.plan| > 0 && work.value.plan[0].Publish?;
    match msg
    case VerifyMsg(_, _, _, _) =>
      if handsOn && !work.value.plan[0].msg.VerifyMsg? then Rank(4, 0, 0)
      else Rank(5, WaitLeft(msg, maxWait), if work.None? then 1 else 0)
    case DownloadMsg(_, _, _, packages) =>
      if handsOn then Rank(2, 0, 0)
      else if work.None? then Rank(3, 0, |packages| + 2)
      else if work.value.Downloading? then Rank(3, 0, |work.value.pending| + 1)
      else Rank(3, 0, 0)
    case _ =>
      if work.None? || work.value.Downloading? then Rank(1, 0, 0)
      else if running then Rank(0, 2 * |work.value.plan| + 1, 0)
      else Rank(0, 2 * |work.value.plan|, if work.value.done < work.value.size then work.value.size - work.value.done else 0)
  }

  ghost function RankIn(w: World, m: MsgId, maxWait: int): Rank
    requires m in w.queue
  {
    RankOf(w.queue[m], if m in w.active then Some(w.active[m]) else None, maxWait)
  }

  lemma IndicesSize(n: nat)
    ensures |Indices(n)| == n
  {
    if n > 0 {
      IndicesSize(n - 1);
      assert n - 1 !in Indices(n - 1);
    }
  }

  /** The message a step works on. */
  predicate WorksOn(s: Step, m: MsgId) {
    (BeginStep(s) || s.Act?) && s.m == m
  }

  /** The row is settled, or it has a live message of lower rank. */
  ghost predicate Closer(w: World, w': World, q: QueryId, m: MsgId, maxWait: int)
    requires m in w.queue && q in w'.rows
  {
    || !w'.rows[q].state.InFlight()
    || (exists k :: OnlyKeeper(w', q, k) && RankIn(w', k, maxWait).Below(RankIn(w, m, maxWait)))
  }

  lemma BeginGetsCloser(w: World, s: Step, maxWait: int, q: QueryId)
    requires CleanInv(w, maxWait) && Enabled(w, s) && BeginStep(s) && q in w.rows
    requires OnlyKeeper(w, q, s.m)
    ensures q in Apply(w, s, maxWait).rows && Closer(w, Apply(w, s, maxWait), q, s.m, maxWait)
  {
    var w' := Apply(w, s, maxWait);
    TendedBegin(w, s, maxWait, q);
    BeginStarts(w, s, maxWait);
    BeginTouchesOne(w, s, maxWait);
    BeginLowersRank(w, s, maxWait);
  }

  /** On the way through a package the rank falls with every statement, done or failed. */
  lemma ExecuteLowersRank(w: World, m: MsgId, ok: bool, maxWait: int)
    requires Enabled(w, Execute(m, ok))
    ensures m in Executed(w, m, ok).queue && RankIn(Executed(w, m, ok), m, maxWait).Below(RankIn(w, m, maxWait))
  {
  }

  lemma ImportLowersRank(w: World, s: Step, maxWait: int)
    requires Enabled(w, s) && ImportStep(s) && s.m in w.queue && s.m in Apply(w, s, maxWait).queue
    ensures RankIn(Apply(w, s, maxWait), s.m, maxWait).Below(RankIn(w, s.m, maxWait))
  {
    if s.Execute? {
      ExecuteLowersRank(w, s.m, s.ok, maxWait);
    }
  }

  lemma DownloadLowersRank(w: World, s: Step, maxWait: int)
    requires Enabled(w, s) && (s.BeginDownload? || s.Package? || s.Join?)
    requires s.m in w.queue && s.m in Apply(w, s, maxWait).queue
    requires Started(w.queue[s.m], Apply(w, s, maxWait).active[s.m])
    ensures RankIn(Apply(w, s, maxWait), s.m, maxWait).Below(RankIn(w, s.m, maxWait))
  {
    IndicesSize(|w.queue[s.m].packages|);
  }

  lemma BeginLowersRank(w: World, s: Step, maxWait: int)
    requires Enabled(w, s) && BeginStep(s) && s.m in w.queue && s.m in Apply(w, s, maxWait).queue
    requires Apply(w, s, maxWait).queue[s.m] == w.queue[s.m] && s.m in Apply(w, s, maxWait).active
    requires Started(w.queue[s.m], Apply(w, s, maxWait).active[s.m])
    ensures RankIn(Apply(w, s, maxWait), s.m, maxWait).Below(RankIn(w, s.m, maxWait))
  {
    if ImportStep(s) {
      ImportLowersRank(w, s, maxWait);
    } else if !s.BeginVerify? && !s.BeginProcess? {
      DownloadLowersRank(w, s, maxWait);
    }
  }

  lemma ActGetsCloser(w: World, m: MsgId, out: MsgId, maxWait: int, q: QueryId)
    requires Acting(w, m, maxWait) && Enabled(w, Act(m, out)) && q in w.rows && Tended(w, q)
    requires OnlyKeeper(w, q, m)
    ensures q in Perform(w, m, out).rows && Closer(w, Perform(w, m, out), q, m, maxWait)
  {
    var w', plan := Perform(w, m, out), w.active[m].plan;
    if plan[0].SetState? {
      TendedWrite(w, m, out, maxWait, q);
      assert w'.active[m].plan == plan[1..];
      if w'.rows[q].state.InFlight() {
        assert RankIn(w', m, maxWait).Below(RankIn(w, m, maxWait));
      }
    } else {
      TendedPublish(w, m, out, maxWait, q);
      assert RankIn(w', out, maxWait).Below(RankIn(w, m, maxWait));
    }
  }

  /** In a clean run a step on a row's live message settles the row or leaves a live message of
      lower rank; any other step leaves the live message, and its rank, as it is. */
  lemma EveryStepGetsCloser(run: seq<Step>, s: Step, maxWait: int, q: QueryId, m: MsgId)
    requires IsCleanRun(run, maxWait) && CleanStep(s) && Enabled(After(run, maxWait), s)
    requires q in After(run, maxWait).rows && OnlyKeeper(After(run, maxWait), q, m)
    ensures var w, w' := After(run, maxWait), Apply(After(run, maxWait), s, maxWait);
            && q in w'.rows
            && (WorksOn(s, m) ==> Closer(w, w', q, m, maxWait))
            && (!WorksOn(s, m) ==> w'.rows[q].state == w.rows[q].state && OnlyKeeper(w', q, m)
                                   && RankIn(w', m, maxWait) == RankIn(w, m, maxWait))
  {
    var w := After(run, maxWait);
    CleanInvHolds(run, maxWait);
    if WorksOn(s, m) {
      if s.Act? {
        ActingNow(w, m, s.out, maxWait);
        ActGetsCloser(w, m, s.out, maxWait, q);
      } else {
        BeginGetsCloser(w, s, maxWait, q);
      }
    } else {
      ElsewhereSame(w, s, maxWait, q, m);
    }
  }

  lemma ElsewhereBegins(w: World, s: Step, maxWait: int, q: QueryId, m: MsgId)
    requires CleanInv(w, maxWait) && Enabled(w, s) && BeginStep(s) && q in w.rows
    requires OnlyKeeper(w, q, m) && s.m != m
    ensures SameFor(w, Apply(w, s, maxWait), q)
  {
    TendedBegin(w, s, maxWait, q);
    BeginTouchesOne(w, s, maxWait);
  }

  lemma ElsewhereActs(w: World, s: Step, maxWait: int, q: QueryId, m: MsgId)
    requires CleanInv(w, maxWait) && Enabled(w, s) && s.Act? && q in w.rows
    requires OnlyKeeper(w, q, m) && s.m != m
    ensures SameFor(w, Apply(w, s, maxWait), q)
  {
    ActingNow(w, s.m, s.out, maxWait);
    assert !Keeper(w, q, s.m);
    TendedAside(w, s.m, s.out, maxWait, q);
  }

  lemma ElsewhereSame(w: World, s: Step, maxWait: int, q: QueryId, m: MsgId)
    requires CleanInv(w, maxWait) && Enabled(w, s) && CleanStep(s) && q in w.rows
    requires OnlyKeeper(w, q, m) && !WorksOn(s, m)
    ensures var w' := Apply(w, s, maxWait);
            q in w'.rows && SameFor(w, w', q) && OnlyKeeper(w', q, m) && RankIn(w', m, maxWait) == RankIn(w, m, maxWait)
  {
    if s.Act? {
      ElsewhereActs(w, s, maxWait, q, m);
    } else if BeginStep(s) {
      ElsewhereBegins(w, s, maxWait, q, m);
    }
    TendedFrame(w, Apply(w, s, maxWait), q);
  }

  /** A waiting row is never stuck: once enough time has passed, some step on its live message
      is possible. */
  lemma NeverStuck(run: seq<Step>, maxWait: int, q: QueryId)
    requires IsCleanRun(run, maxWait)
    requires q in After(run, maxWait).rows && After(run, maxWait).rows[q].state.InFlight()
    ensures var w := After(run, maxWait);
            exists m, dt: nat, s :: OnlyKeeper(w, q, m) && CanMove(w, m, dt, s, maxWait)
  {
    var w := After(run, maxWait);
    CleanInvHolds(run, maxWait);
    var m :| OnlyKeeper(w, q, m) && Fits(w, q, m);
    var s, dt := NextStep(w, m, maxWait);
    assert CanMove(w, m, dt, s, maxWait);
  }

  ghost predicate CanMove(w: World, m: MsgId, dt: nat, s: Step, maxWait: int) {
    CleanStep(s) && WorksOn(s, m) && Enabled(Apply(w, Tick(dt), maxWait), s)
  }

  lemma NextStep(w: World, m: MsgId, maxWait: int) returns (s: Step, dt: nat)
    requires Inv(w) && ShapesOk(w, maxWait) && m in w.queue && w.queue[m].HasQuery()
    requires m in w.active && w.active[m].Running? ==> |w.active[m].plan| > 0
    ensures CanMove(w, m, dt, s, maxWait)
  {
    dt := 0;
    if m !in w.active {
      s, dt := FirstStep(w, m, maxWait);
    } else if w.active[m].Downloading? {
      assert WorkOk(w, w.queue[m], w.active[m]);
      s := NextPackage(w, m, maxWait);
    } else {
      assert WorkOk(w, w.queue[m], w.active[m]);
      s := NextAction(w, m, maxWait);
    }
  }

  lemma FirstStep(w: World, m: MsgId, maxWait: int) returns (s: Step, dt: nat)
    requires Idle(w, m) && w.queue[m].HasQuery()
    requires w.queue[m].VerifyMsg? ==> w.queue[m].sentDate.Some?
    ensures CanMove(w, m, dt, s, maxWait)
  {
    var msg := w.queue[m];
    dt := if msg.VerifyMsg? && msg.dueAt > w.now then msg.dueAt - w.now else 0;
    s := if msg.VerifyMsg? then BeginVerify(m, NoFiel)
         else if msg.DownloadMsg? then BeginDownload(m, true) else BeginProcess(m);
  }

  lemma NextPackage(w: World, m: MsgId, maxWait: int) returns (s: Step)
    requires m in w.queue && m in w.active && w.active[m].Downloading? && WorkOk(w, w.queue[m], w.active[m])
    ensures CanMove(w, m, 0, s, maxWait)
  {
    if w.active[m].pending == {} {
      s := Join(m);
    } else {
      var i :| i in w.active[m].pending;
      assert i in w.active[m].pending + w.active[m].stored;
      s := Package(m, i, true);
    }
  }

  lemma NextAction(w: World, m: MsgId, maxWait: int) returns (s: Step)
    requires m in w.queue && m in w.active && !w.active[m].Downloading? && WorkOk(w, w.queue[m], w.active[m])
    ensures CanMove(w, m, 0, s, maxWait)
  {
    assert Apply(w, Tick(0), maxWait) == w;
    if w.active[m].Importing? {
      s := if w.active[m].done < w.active[m].size then Execute(m, true) else ClosePackage(m);
    } else if w.active[m].plan[0].Import? {
      s := if w.active[m].plan[0].pkg in w.blobs then OpenPackage(m, 1) else SkipPackage(m);
    } else {
      var out := AboveAll(w.queue.Keys);
      s := Act(m, out);
    }
  }

  /** One more step of a clean run. */
  lemma ExtendClean(run: seq<Step>, s: Step, maxWait: int) returns (longer: seq<Step>)
    requires IsCleanRun(run, maxWait) && CleanStep(s) && Enabled(After(run, maxWait), s)
    ensures longer == run + [s] && IsCleanRun(longer, maxWait)
    ensures After(longer, maxWait) == Apply(After(run, maxWait), s, maxWait)
  {
    longer := Extend(run, s, maxWait);
  }

  /** Time passes and the live message is worked on. */
  lemma MoveOn(run: seq<Step>, maxWait: int, q: QueryId, m: MsgId) returns (longer: seq<Step>)
    requires IsCleanRun(run, maxWait) && q in After(run, maxWait).rows && OnlyKeeper(After(run, maxWait), q, m)
    requires After(run, maxWait).rows[q].state.InFlight()
    ensures IsCleanRun(longer, maxWait) && run <= longer && q in After(longer, maxWait).rows
    ensures Closer(After(run, maxWait), After(longer, maxWait), q, m, maxWait)
  {
    var w := After(run, maxWait);
    CleanInvHolds(run, maxWait);
    var s, dt := NextStep(w, m, maxWait);
    EveryStepGetsCloser(run, Tick(dt), maxWait, q, m);
    var later := ExtendClean(run, Tick(dt), maxWait);
    EveryStepGetsCloser(later, s, maxWait, q, m);
    longer := ExtendClean(later, s, maxWait);
  }

  lemma {:induction false} SettledFrom(run: seq<Step>, maxWait: int, q: QueryId, m: MsgId) returns (longer: seq<Step>)
    requires IsCleanRun(run, maxWait) && q in After(run, maxWait).rows && OnlyKeeper(After(run, maxWait), q, m)
    ensures IsCleanRun(longer, maxWait) && run <= longer
    ensures q in After(longer, maxWait).rows && !After(longer, maxWait).rows[q].state.InFlight()
    decreases RankIn(After(run, maxWait), m, maxWait).stage, RankIn(After(run, maxWait), m, maxWait).wait,
              RankIn(After(run, maxWait), m, maxWait).inner
  {
    var w := After(run, maxWait);
    if w.rows[q].state.InFlight() {
      longer := MoveOn(run, maxWait, q, m);
      if After(longer, maxWait).rows[q].state.InFlight() {
        var w' := After(longer, maxWait);
        var k :| OnlyKeeper(w', q, k) && RankIn(w', k, maxWait).Below(RankIn(w, m, maxWait));
        longer := SettledFrom(longer, maxWait, q, k);
      }
    } else {
      longer := run;
    }
  }

  /** However a clean run has gone so far, it has a clean continuation in which the row is settled. */
  lemma EveryQueryCanSettle(run: seq<Step>, maxWait: int, q: QueryId)
    requires IsCleanRun(run, maxWait) && q in After(run, maxWait).rows
    ensures exists longer :: run <= longer && SettledIn(longer, maxWait, q)
  {
    var w, longer := After(run, maxWait), run;
    if w.rows[q].state.InFlight() {
      CleanInvHolds(run, maxWait);
      var m :| OnlyKeeper(w, q, m) && Fits(w, q, m);
      longer := SettledFrom(run, maxWait, q, m);
    }
    assert SettledIn(longer, maxWait, q);
  }

  ghost predicate SettledIn(run: seq<Step>, maxWait: int, q: QueryId) {
    IsCleanRun(run, maxWait) && q in After(run, maxWait).rows && !After(run, maxWait).rows[q].state.InFlight()
  }
}
