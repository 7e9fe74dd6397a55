/** Which packages a process handler opens, and whether they are in blob storage: its message names
    them, or the row does. */
module Storage {
  import opened Options
  import opened VerifyBackoff
  import opened Pipeline
  import opened Protocol

  /** The states in which a row names stored packages only: it has just been downloaded, or has never
      been given any packages. */
  predicate NamesStored(s: QueryState) {
    s.Downloaded? || Unnamed(s)
  }

  predicate Unnamed(s: QueryState) {
    s.Draft? || s.Sent? || s.ErrorInCerts?
  }

  ghost predicate RowStored(w: World, q: QueryId)
    requires q in w.rows
  {
    && (Unnamed(w.rows[q].state) ==> w.rows[q].packages == [])
    && (w.rows[q].state.Downloaded? ==> StoredAll(w, w.rows[q].packages))
  }

  /** The plan marks rows as downloaded with packages that are stored, and never takes one back to
      where it came from. */
  ghost predicate PlanStored(w: World, plan: seq<Action>) {
    forall i :: 0 <= i < |plan| && plan[i].SetState? ==>
      && !Unnamed(plan[i].state)
      && (plan[i].state.Downloaded? ==> plan[i].pkgs.Some? && StoredAll(w, plan[i].pkgs.value))
  }

  ghost predicate StorageInv(w: World) {
    && (forall q :: q in w.rows ==> RowStored(w, q))
    && (forall m :: m in w.active && !w.active[m].Downloading? ==> PlanStored(w, w.active[m].plan))
  }

  /** Rows, plans and storage as before, or fewer handlers and more packages stored. */
  lemma StorageFrame(w: World, w': World)
    requires StorageInv(w) && w.blobs <= w'.blobs
    requires forall q :: q in w'.rows ==> RowStored(w', q) || (q in w.rows && w'.rows[q] == w.rows[q])
    requires forall m :: m in w'.active && !w'.active[m].Downloading? ==>
               PlanStored(w', w'.active[m].plan) || (m in w.active && w'.active[m] == w.active[m])
    ensures StorageInv(w')
  {
    forall q | q in w'.rows ensures RowStored(w', q) {
      if !RowStored(w', q) {
        assert RowStored(w, q);
      }
    }
    forall m | m in w'.active && !w'.active[m].Downloading? ensures PlanStored(w', w'.active[m].plan) {
      if !PlanStored(w', w'.active[m].plan) {
        assert PlanStored(w, w.active[m].plan);
      }
    }
  }

  lemma VerifyPlanStored(w: World, msg: Msg, answer: VerifyAnswer, maxWait: int)
    requires msg.VerifyMsg? && CanEnrich(w.rows, msg)
    ensures PlanStored(w, VerifyPlan(w.rows, msg, answer, w.now, maxWait))
  {
  }

  lemma DownloadPlanStored(w: World, msg: Msg, ok: bool)
    requires msg.DownloadMsg? && (ok ==> StoredAll(w, msg.packages))
    ensures PlanStored(w, DownloadPlan(msg, ok))
  {
  }

  lemma ProcessPlanStored(w: World, msg: Msg, packages: seq<PackageId>)
    requires msg.Process()
    ensures PlanStored(w, ProcessPlan(msg, packages))
  {
    var plan := ProcessPlan(msg, packages);
    assert forall i :: |packages| <= i < |plan| ==> plan[i] == FinishPlan(msg)[i - |packages|];
  }

  lemma BeginPlanStored(w: World, s: Step, maxWait: int)
    requires Typed(w) && Enabled(w, s) && (s.BeginVerify? || s.BeginDownload? || s.Join? || s.BeginProcess?)
    ensures var w' := Apply(w, s, maxWait);
            s.m in w'.active && (!w'.active[s.m].Downloading? ==> PlanStored(w, w'.active[s.m].plan))
  {
    if s.BeginVerify? {
      VerifyPlanStored(w, w.queue[s.m], s.answer, maxWait);
    } else if s.BeginDownload? {
      DownloadPlanStored(w, w.queue[s.m], false);
    } else if s.BeginProcess? {
      ProcessPlanStored(w, w.queue[s.m], PackagesToProcess(w.rows, w.queue[s.m]));
    } else {
      JoinStored(w, s.m);
      DownloadPlanStored(w, w.queue[s.m], w.active[s.m].firstErr.None?);
    }
  }

  lemma JoinStored(w: World, m: MsgId)
    requires Typed(w) && Enabled(w, Join(m))
    ensures w.active[m].firstErr.None? ==> StoredAll(w, w.queue[m].packages)
  {
    assert WorkOk(w, w.queue[m], w.active[m]);
    assert w.active[m].pending + w.active[m].stored == w.active[m].stored;
  }

  lemma StorageBegin(w: World, s: Step, maxWait: int)
    requires StorageInv(w) && Typed(w) && Enabled(w, s)
    requires s.BeginVerify? || s.BeginDownload? || s.Join? || s.BeginProcess?
    ensures StorageInv(Apply(w, s, maxWait))
  {
    BeginPlanStored(w, s, maxWait);
    StorageFrame(w, Apply(w, s, maxWait));
  }

  lemma PlanStoredRest(w: World, w': World, plan: seq<Action>)
    requires plan != [] && PlanStored(w, plan) && w.blobs <= w'.blobs
    ensures PlanStored(w', plan[1..])
  {
    assert forall i :: 0 <= i < |plan| - 1 ==> plan[1..][i] == plan[i + 1];
  }

  lemma StorageAct(w: World, m: MsgId, out: MsgId)
    requires StorageInv(w) && Enabled(w, Act(m, out))
    ensures StorageInv(Perform(w, m, out))
  {
    var w', plan := Perform(w, m, out), w.active[m].plan;
    assert PlanStored(w, plan);
    PlanStoredRest(w, w', plan);
    forall q | q in w'.rows ensures RowStored(w', q) {
      assert q in w.rows && RowStored(w, q);
    }
    StorageFrame(w, w');
  }

  lemma StorageImport(w: World, s: Step, maxWait: int)
    requires StorageInv(w) && Enabled(w, s) && ImportStep(s)
    ensures StorageInv(Apply(w, s, maxWait))
  {
    ImportMoves(w, s, maxWait);
    PlanStoredRest(w, Apply(w, s, maxWait), w.active[s.m].plan);
    StorageFrame(w, Apply(w, s, maxWait));
  }

  lemma StorageStep(w: World, s: Step, maxWait: int)
    requires StorageInv(w) && Typed(w) && Enabled(w, s)
    ensures StorageInv(Apply(w, s, maxWait))
  {
    if s.Act? {
      StorageAct(w, s.m, s.out);
    } else if ImportStep(s) {
      StorageImport(w, s, maxWait);
    } else if s.BeginVerify? || s.BeginDownload? || s.Join? || s.BeginProcess? {
      StorageBegin(w, s, maxWait);
    } else {
      StorageFrame(w, Apply(w, s, maxWait));
    }
  }

  /** In every run a DOWNLOADED row names packages that are stored. */
  lemma {:induction false} DownloadedIsStored(run: seq<Step>, maxWait: int)
    requires IsRun(run, maxWait)
    ensures StorageInv(After(run, maxWait))
    decreases |run|
  {
    if run != [] {
      var init := run[..|run| - 1];
      DownloadedIsStored(init, maxWait);
      InvHolds(init, maxWait);
      StorageStep(After(init, maxWait), run[|run| - 1], maxWait);
    }
  }

  /** Whatever a process handler opens is stored if its message names packages, or if the row it falls
      back on is DOWNLOADED or was never given any. */
  lemma OpenedPackagesAreStored(run: seq<Step>, maxWait: int, m: MsgId)
    requires IsRun(run, maxWait)
    requires m in After(run, maxWait).queue && After(run, maxWait).queue[m].Process()
    ensures var (w, msg) := (After(run, maxWait), After(run, maxWait).queue[m]);
            && msg.query in w.rows
            && (msg.packages != [] || NamesStored(w.rows[msg.query].state) ==> StoredAll(w, PackagesToProcess(w.rows, msg)))
  {
    InvHolds(run, maxWait);
    DownloadedIsStored(run, maxWait);
    var w := After(run, maxWait);
    assert MsgOk(w, w.queue[m]) && PackagesStored(w, w.queue[m]) && RowStored(w, w.queue[m].query);
  }

  // ------------------------------------------------------------ where the fallback goes wrong

  /** A process message waits whose handler would open a package that is not stored, the row being in
      state `s`. */
  ghost predicate OpensUnstored(w: World, m: MsgId, s: QueryState) {
    && m in w.queue && w.queue[m].Process() && w.queue[m].query in w.rows && w.rows[w.queue[m].query].state == s
    && !StoredAll(w, PackagesToProcess(w.rows, w.queue[m]))
  }

  /** The first verification has written its row and asked for the download. */
  lemma RunToAsked(maxWait: int) returns (run: seq<Step>)
    ensures IsRun(run, maxWait)
    ensures var w := After(run, maxWait);
            && w.rows == map[0 := Row(ToDownload, Metadata, Some(0), None, [])] && w.now == 0 && w.blobs == {}
            && w.queue == map[0 := VerifyMsg(0, Metadata, Some(0), 0), 1 := DownloadMsg(0, Metadata, 0, [])]
            && w.active == map[0 := Running([Ack])]
  {
    run := RunToFinished(Metadata, maxWait);
    run := Extend(run, Act(0, 1), maxWait);
    var w := After(run, maxWait);
    assert w.rows == map[0 := Row(ToDownload, Metadata, Some(0), None, [])];
    assert w.active[0].plan == [Publish(DownloadMsg(0, Metadata, 0, [])), Ack];
    run := Asked(run, maxWait);
  }

  lemma Asked(run: seq<Step>, maxWait: int) returns (longer: seq<Step>)
    requires IsRun(run, maxWait)
    requires var w := After(run, maxWait);
             && w.queue == map[0 := VerifyMsg(0, Metadata, Some(0), 0)]
             && w.active == map[0 := Running([Publish(DownloadMsg(0, Metadata, 0, [])), Ack])]
    ensures IsRun(longer, maxWait)
    ensures var (w, w') := (After(run, maxWait), After(longer, maxWait));
            && w'.rows == w.rows && w'.now == w.now && w'.blobs == w.blobs
            && w'.queue == w.queue[1 := DownloadMsg(0, Metadata, 0, [])] && w'.active == map[0 := Running([Ack])]
  {
    longer := Extend(run, Act(0, 1), maxWait);
    assert [Publish(DownloadMsg(0, Metadata, 0, [])), Ack][1..] == [Ack];
  }

  /** Its handler having died before the settlement, a first verification that named no packages
      leaves its message beside the download it asked for. */
  lemma RunToDoubleVerify(maxWait: int) returns (run: seq<Step>)
    ensures IsRun(run, maxWait)
    ensures var w := After(run, maxWait);
            && w.rows == map[0 := Row(ToDownload, Metadata, Some(0), None, [])]
            && w.active == map[] && w.now == 0 && w.blobs == {}
            && w.queue == map[0 := VerifyMsg(0, Metadata, Some(0), 0), 1 := DownloadMsg(0, Metadata, 0, [])]
  {
    run := RunToAsked(maxWait);
    run := Extend(run, Die(0), maxWait);
  }

  /** The download, which has nothing to fetch, has begun and joined. */
  lemma RunToSecondDownload(maxWait: int) returns (run: seq<Step>)
    ensures IsRun(run, maxWait)
    ensures var w := After(run, maxWait);
            && w.rows.Keys == {0} && w.now == 0 && w.blobs == {}
            && w.queue == map[0 := VerifyMsg(0, Metadata, Some(0), 0), 1 := DownloadMsg(0, Metadata, 0, [])]
            && w.active == map[1 := Running(DownloadPlan(w.queue[1], true))]
  {
    run := RunToDoubleVerify(maxWait);
    run := Extend(run, BeginDownload(1, true), maxWait);
    run := Extend(run, Join(1), maxWait);
  }

  /** The download is through, so that a process message without packages waits. */
  lemma RunToEmptyProcess(maxWait: int) returns (run: seq<Step>, m: MsgId)
    ensures IsRun(run, maxWait) && m != 0
    ensures var w := After(run, maxWait);
            && w.rows.Keys == {0} && w.active == map[] && w.now == 0 && w.blobs == {}
            && w.queue == map[0 := VerifyMsg(0, Metadata, Some(0), 0), m := MetadataMsg(0, [])]
  {
    run := RunToSecondDownload(maxWait);
    var w := After(run, maxWait);
    var write, msg := SetState(0, Downloaded, Some(0), Some([])), MetadataMsg(0, []);
    assert w.active[1].plan == [write, Publish(msg), Ack];
    CarryOutBoth(w.rows, write, msg);
    var ids;
    run, ids := HandlerRunsThrough(run, 1, NOTHING_READ, maxWait);
    m := ids[0];
    assert Enqueue(w.queue[m := msg], ids[1..], [msg][1..]) == w.queue[m := msg];
    assert 0 in w.queue && 1 in w.queue;
  }

  /** A first verification's message is still there, to be delivered again, beside a process message
      without packages; nothing is stored. */
  ghost predicate TwoMessages(w: World, m: MsgId) {
    && m != 0 && w.rows.Keys == {0} && w.active == map[] && w.blobs == {} && w.now >= 0
    && w.queue == map[0 := VerifyMsg(0, Metadata, Some(0), 0), m := MetadataMsg(0, [])]
  }

  /** And the row names packages. */
  ghost predicate Stale(w: World, m: MsgId) {
    TwoMessages(w, m) && w.rows[0].packages != []
  }

  lemma StaleOpens(w: World, m: MsgId)
    requires Stale(w, m)
    ensures OpensUnstored(w, m, w.rows[0].state)
  {
    assert PackagesToProcess(w.rows, w.queue[m])[0] !in w.blobs;
  }

  /** What the verification does first when it gets this answer. */
  ghost function FirstAction(w: World, answer: VerifyAnswer, maxWait: int): Action {
    VerifyPlan(w.rows, VerifyMsg(0, Metadata, Some(0), 0), answer, w.now, maxWait)[0]
  }

  /** Delivered again, the verification gets this answer, and its handler dies after the row write. */
  lemma Overwritten(run: seq<Step>, m: MsgId, answer: VerifyAnswer, maxWait: int) returns (longer: seq<Step>)
    requires IsRun(run, maxWait) && TwoMessages(After(run, maxWait), m)
    requires var w := After(run, maxWait); var a := FirstAction(w, answer, maxWait);
             a.SetState? && a.query == 0 && a.pkgs.GetOr(w.rows[0].packages) != []
    ensures IsRun(longer, maxWait) && Stale(After(longer, maxWait), m)
    ensures After(longer, maxWait).rows[0].state == FirstAction(After(run, maxWait), answer, maxWait).state
  {
    longer := Extend(run, BeginVerify(0, answer), maxWait);
    longer := WrittenAndDead(longer, m, maxWait);
  }

  lemma WrittenAndDead(run: seq<Step>, m: MsgId, maxWait: int) returns (longer: seq<Step>)
    requires IsRun(run, maxWait) && TwoMessages(After(run, maxWait).(active := map[]), m)
    requires var w := After(run, maxWait);
             && w.active.Keys == {0} && w.active[0].Running? && |w.active[0].plan| > 0
             && var a := w.active[0].plan[0];
                a.SetState? && a.query == 0 && a.pkgs.GetOr(w.rows[0].packages) != []
    ensures IsRun(longer, maxWait) && Stale(After(longer, maxWait), m)
    ensures After(longer, maxWait).rows[0].state == After(run, maxWait).active[0].plan[0].state
  {
    longer := Extend(run, Act(0, 0), maxWait);
    longer := Extend(longer, Die(0), maxWait);
  }

  /** The second verification finds packages and dies once they are in the row. */
  lemma RunToStale(maxWait: int) returns (run: seq<Step>, m: MsgId)
    ensures IsRun(run, maxWait) && Stale(After(run, maxWait), m) && After(run, maxWait).rows[0].state.ToDownload?
  {
    run, m := RunToEmptyProcess(maxWait);
    run := Overwritten(run, m, Answer(Finished, 5000, 0, ["p"]), maxWait);
  }

  /** Long after, SAT's certificate being gone, the verification times out. */
  lemma RunToTimedOut(maxWait: int) returns (run: seq<Step>, m: MsgId)
    ensures IsRun(run, maxWait) && Stale(After(run, maxWait), m)
    ensures After(run, maxWait).rows[0].state == QueryState.TimeLimitReached
  {
    run, m := RunToStale(maxWait);
    run := Extend(run, Tick(MaxWait(maxWait)), maxWait);
    RetryStaysInWindow(After(run, maxWait).now, 0, maxWait);
    run := Overwritten(run, m, NoFiel, maxWait);
  }

  /** The process handler passes over what it cannot read, marks the row and dies. */
  lemma RunToProcessed(maxWait: int) returns (run: seq<Step>, m: MsgId)
    ensures IsRun(run, maxWait) && Stale(After(run, maxWait), m) && After(run, maxWait).rows[0].state.Processed?
  {
    run, m := RunToStale(maxWait);
    run := PassedOver(run, m, maxWait);
  }

  lemma {:induction false} SkipAll(run: seq<Step>, m: MsgId, n: nat, maxWait: int) returns (longer: seq<Step>)
    requires IsRun(run, maxWait) && m in After(run, maxWait).queue && After(run, maxWait).queue[m].Process()
    requires var w := After(run, maxWait);
             && m in w.active && w.active[m].Running? && n <= |w.active[m].plan|
             && forall i :: 0 <= i < n ==> w.active[m].plan[i].Import?
    ensures IsRun(longer, maxWait)
    ensures var (w, w') := (After(run, maxWait), After(longer, maxWait));
            && w'.rows == w.rows && w'.queue == w.queue && w'.blobs == w.blobs && w'.now == w.now
            && w'.active == w.active[m := Running(w.active[m].plan[n..])]
    decreases n
  {
    var w := After(run, maxWait);
    if n == 0 {
      longer := run;
      assert w.active[m].plan[0..] == w.active[m].plan;
    } else {
      longer := Extend(run, SkipPackage(m), maxWait);
      longer := SkipAll(longer, m, n - 1, maxWait);
      assert w.active[m].plan[1..][n - 1..] == w.active[m].plan[n..];
    }
  }

  lemma PassedOver(run: seq<Step>, m: MsgId, maxWait: int) returns (longer: seq<Step>)
    requires IsRun(run, maxWait) && Stale(After(run, maxWait), m)
    ensures IsRun(longer, maxWait) && Stale(After(longer, maxWait), m) && After(longer, maxWait).rows[0].state.Processed?
  {
    var packages := After(run, maxWait).rows[0].packages;
    longer := Extend(run, BeginProcess(m), maxWait);
    assert After(longer, maxWait).active[m].plan == Imports(packages) + FinishPlan(MetadataMsg(0, []));
    longer := SkipAll(longer, m, |packages|, maxWait);
    assert (Imports(packages) + FinishPlan(MetadataMsg(0, [])))[|packages|..] == FinishPlan(MetadataMsg(0, []));
    longer := Extend(longer, Act(m, 0), maxWait);
    longer := Extend(longer, Die(m), maxWait);
  }

  /** The answer after which a verification writes this state. */
  function AnswerFor(s: QueryState): VerifyAnswer {
    match s
    case ManuallyCancelled => Answer(Finished, 5000, 0, seq(MAX_PACKAGES + 1, i => "p"))
    case InformationNotFound => Answer(StatusError, CODE_INFO_NOT_FOUND, 0, [])
    case ErrorSatWsInternal => Answer(StatusError, CODE_MAX_LIMIT, 0, [])
    case ErrorTooBig => Answer(StatusError, CODE_MAX_LIMIT, 1, [])
    case _ => Answer(StatusError, 0, 0, [])
  }

  lemma RunToVerdict(maxWait: int, s: QueryState) returns (run: seq<Step>, m: MsgId)
    requires s.ManuallyCancelled? || s.InformationNotFound? || s.ErrorSatWsInternal? || s.ErrorTooBig? || s.Error?
    ensures IsRun(run, maxWait) && Stale(After(run, maxWait), m) && After(run, maxWait).rows[0].state == s
  {
    run, m := RunToStale(maxWait);
    run := Overwritten(run, m, AnswerFor(s), maxWait);
  }

  /** In any state but these a row can name packages that are not stored, with a process message
      waiting whose handler would open them. */
  lemma FallbackOpensUnstored(maxWait: int, s: QueryState)
    requires !NamesStored(s)
    ensures exists run, m :: IsRun(run, maxWait) && OpensUnstored(After(run, maxWait), m, s)
  {
    var run, m;
    if s.ToDownload? {
      run, m := RunToStale(maxWait);
    } else if s.TimeLimitReached? {
      run, m := RunToTimedOut(maxWait);
    } else if s.Processed? {
      run, m := RunToProcessed(maxWait);
    } else {
      run, m := RunToVerdict(maxWait, s);
    }
    StaleOpens(After(run, maxWait), m);
  }

  /** So the state of the row tells exactly when the fallback can open what is not stored. */
  lemma FallbackExactly(maxWait: int, s: QueryState)
    ensures (exists run, m :: IsRun(run, maxWait) && OpensUnstored(After(run, maxWait), m, s)) <==> !NamesStored(s)
  {
    if !NamesStored(s) {
      FallbackOpensUnstored(maxWait, s);
    } else {
      forall run, m | IsRun(run, maxWait) ensures !OpensUnstored(After(run, maxWait), m, s) {
        if m in After(run, maxWait).queue && After(run, maxWait).queue[m].Process() {
          OpenedPackagesAreStored(run, maxWait, m);
        }
      }
    }
  }
}
