/** How often a query is verified over a whole run. */
module Attempts {
  import opened Options
  import opened VerifyBackoff
  import opened Pipeline
  import opened Protocol
  import opened Lifecycle

  /** The times at which a verification of the row of `q` was taken up, in order. */
  ghost function VerifyTimes(run: seq<Step>, maxWait: int, q: QueryId): seq<int>
    requires IsRun(run, maxWait)
    decreases |run|
  {
    if run == [] then []
    else
      var (init, s) := (run[..|run| - 1], run[|run| - 1]);
      VerifyTimes(init, maxWait, q) + if Verifies(After(init, maxWait), s, q) then [After(init, maxWait).now] else []
  }

  predicate Verifies(w: World, s: Step, q: QueryId) {
    s.BeginVerify? && s.m in w.queue && w.queue[s.m].VerifyMsg? && w.queue[s.m].query == q
  }

  /** A verification due at `due` goes on from the ones at `ts`: none has taken place before the query
      was sent, and it is due when the last of them asked for it or later. */
  ghost predicate GoesOn(ts: seq<int>, sent: int, due: int, maxWait: int) {
    && Chain(ts, sent, maxWait)
    && if ts == [] then due >= sent
       else ts[0] >= sent && RetryOrTimeout(ts[|ts| - 1], sent, maxWait).RetryAt?
            && RetryOrTimeout(ts[|ts| - 1], sent, maxWait).at <= due
  }

  ghost predicate Scheduled(row: Row, msg: Msg, ts: seq<int>, maxWait: int)
    requires msg.VerifyMsg?
  {
    row.sentDate.Some? && msg.sentDate == row.sentDate && GoesOn(ts, row.sentDate.value, msg.dueAt, maxWait)
  }

  predicate Waits(w: World, m: MsgId, q: QueryId) {
    Idle(w, m) && w.queue[m].VerifyMsg? && w.queue[m].query == q
  }

  /** The handler of `m` is about to ask for one more verification. */
  predicate Asks(w: World, m: MsgId, q: QueryId) {
    m in w.active && w.active[m].Running? && |w.active[m].plan| > 0 && w.active[m].plan[0].Publish?
    && w.active[m].plan[0].msg.VerifyMsg? && w.active[m].plan[0].msg.query == q
  }

  /** The verifications so far form a chain, and any to come goes on from them. */
  ghost predicate ChainInv(w: World, q: QueryId, ts: seq<int>, maxWait: int) {
    && (q !in w.rows ==> ts == [])
    && (q in w.rows ==>
          && (ts != [] ==> w.rows[q].sentDate.Some? && ts[0] >= w.rows[q].sentDate.value
                           && Chain(ts, w.rows[q].sentDate.value, maxWait))
          && (forall m :: Waits(w, m, q) ==> Scheduled(w.rows[q], w.queue[m], ts, maxWait))
          && (forall m :: Asks(w, m, q) ==> Scheduled(w.rows[q], w.active[m].plan[0].msg, ts, maxWait)))
  }

  lemma ChainFrame(w: World, w': World, q: QueryId, ts: seq<int>, maxWait: int)
    requires ChainInv(w, q, ts, maxWait) && q in w.rows && q in w'.rows && w'.rows[q].sentDate == w.rows[q].sentDate
    requires forall m :: Waits(w', m, q) ==>
               (Waits(w, m, q) && w'.queue[m] == w.queue[m]) || Scheduled(w.rows[q], w'.queue[m], ts, maxWait)
    requires forall m :: Asks(w', m, q) ==> Asks(w, m, q) && w'.active[m] == w.active[m]
    ensures ChainInv(w', q, ts, maxWait)
  {
  }

  /** Verifications wait for, or are asked for by the handler of, the row's live message only. */
  lemma OneAtATime(w: World, maxWait: int, q: QueryId, m: MsgId, n: MsgId)
    requires CleanInv(w, maxWait) && q in w.rows && (Waits(w, m, q) || Asks(w, m, q)) && (Waits(w, n, q) || Asks(w, n, q))
    ensures m == n
  {
    KeepsIt(w, maxWait, q, m);
    KeepsIt(w, maxWait, q, n);
    TheKeeper(w, q, m);
  }

  lemma KeepsIt(w: World, maxWait: int, q: QueryId, m: MsgId)
    requires CleanInv(w, maxWait) && (Waits(w, m, q) || Asks(w, m, q))
    ensures Keeper(w, q, m)
  {
    if Asks(w, m, q) {
      assert Shape(w.queue[m], w.active[m].plan, maxWait);
    }
  }

  lemma OneMore(ts: seq<int>, now: int, sent: int, due: int, maxWait: int)
    requires GoesOn(ts, sent, due, maxWait) && due <= now
    ensures Chain(ts + [now], sent, maxWait) && (ts + [now])[0] >= sent
    ensures RetryOrTimeout(now, sent, maxWait).RetryAt? ==>
              GoesOn(ts + [now], sent, RetryOrTimeout(now, sent, maxWait).at, maxWait)
  {
    var all := ts + [now];
    forall i | 0 <= i < |all| - 1
      ensures RetryOrTimeout(all[i], sent, maxWait).RetryAt? && RetryOrTimeout(all[i], sent, maxWait).at <= all[i + 1]
    {
    }
  }

  /** The verification is taken up: it is the only one, and what it asks for goes on from it. */
  lemma ChainVerify(w: World, s: Step, maxWait: int, q: QueryId, ts: seq<int>)
    requires CleanInv(w, maxWait) && Enabled(w, s) && Verifies(w, s, q) && q in w.rows && ChainInv(w, q, ts, maxWait)
    ensures ChainInv(Apply(w, s, maxWait), q, ts + [w.now], maxWait)
  {
    var w', sent := Apply(w, s, maxWait), w.rows[q].sentDate.value;
    assert Waits(w, s.m, q);
    OneMore(ts, w.now, sent, w.queue[s.m].dueAt, maxWait);
    forall n | Waits(w', n, q) ensures false {
      assert Waits(w, n, q);
      OneAtATime(w, maxWait, q, n, s.m);
    }
    forall n | Asks(w', n, q) ensures Scheduled(w.rows[q], w'.active[n].plan[0].msg, ts + [w.now], maxWait) {
      if n != s.m {
        assert Asks(w, n, q);
        OneAtATime(w, maxWait, q, n, s.m);
      }
    }
  }

  /** After its first action no plan asks for a verification. */
  lemma AskedFirst(w: World, maxWait: int, m: MsgId)
    requires CleanInv(w, maxWait) && m in w.active && m in w.queue && !w.active[m].Downloading?
    requires |w.active[m].plan| > 1
    ensures var a := w.active[m].plan[1]; !(a.Publish? && a.msg.VerifyMsg?)
  {
    assert Shape(w.queue[m], w.active[m].plan, maxWait);
    assert w.active[m].plan[1..][0] == w.active[m].plan[1];
  }

  /** So a handler that is through with its first action does not ask for one. */
  lemma NotAsked(w: World, m: MsgId, plan: seq<Action>, q: QueryId)
    requires |plan| > 0 && (|plan| > 1 ==> !(plan[1].Publish? && plan[1].msg.VerifyMsg?))
    requires m in w.active && w.active[m].Running? ==> w.active[m].plan == plan[1..]
    ensures !Asks(w, m, q)
  {
    assert |plan| > 1 ==> plan[1..][0] == plan[1];
  }

  /** What waits after an action has waited before, or was asked for. */
  lemma WaitsAfterAct(w: World, m: MsgId, out: MsgId, q: QueryId, n: MsgId)
    requires w.active.Keys <= w.queue.Keys && Enabled(w, Act(m, out)) && Waits(Perform(w, m, out), n, q)
    ensures (Waits(w, n, q) && Perform(w, m, out).queue[n] == w.queue[n])
            || (Asks(w, m, q) && Perform(w, m, out).queue[n] == w.active[m].plan[0].msg)
  {
  }

  lemma ChainAct(w: World, m: MsgId, out: MsgId, maxWait: int, q: QueryId, ts: seq<int>)
    requires CleanInv(w, maxWait) && Enabled(w, Act(m, out)) && q in w.rows && ChainInv(w, q, ts, maxWait)
    ensures ChainInv(Perform(w, m, out), q, ts, maxWait)
  {
    var w', plan := Perform(w, m, out), w.active[m].plan;
    if |plan| > 1 {
      AskedFirst(w, maxWait, m);
    }
    NotAsked(w', m, plan, q);
    forall n | Waits(w', n, q)
      ensures (Waits(w, n, q) && w'.queue[n] == w.queue[n]) || Scheduled(w.rows[q], w'.queue[n], ts, maxWait)
    {
      WaitsAfterAct(w, m, out, q, n);
    }
    ChainFrame(w, w', q, ts, maxWait);
  }

  lemma ChainImport(w: World, s: Step, maxWait: int, q: QueryId, ts: seq<int>)
    requires CleanInv(w, maxWait) && Enabled(w, s) && ImportStep(s) && q in w.rows && ChainInv(w, q, ts, maxWait)
    ensures ChainInv(Apply(w, s, maxWait), q, ts, maxWait)
  {
    var w' := Apply(w, s, maxWait);
    ImportMoves(w, s, maxWait);
    if |w.active[s.m].plan| > 1 {
      AskedFirst(w, maxWait, s.m);
    }
    NotAsked(w', s.m, w.active[s.m].plan, q);
    ChainFrame(w, w', q, ts, maxWait);
  }

  /** Before a row is there, no message and no handler is concerned with it. */
  lemma NobodyYet(w: World, maxWait: int, q: QueryId, n: MsgId)
    requires CleanInv(w, maxWait) && q !in w.rows
    ensures !Waits(w, n, q) && !Asks(w, n, q)
  {
    if n in w.queue {
      assert MsgOk(w, w.queue[n]);
    }
    if Asks(w, n, q) {
      KeepsIt(w, maxWait, q, n);
    }
  }

  /** A new row: nothing is known of it yet but the first verification. */
  lemma ChainCreate(w: World, s: Step, maxWait: int, q: QueryId)
    requires CleanInv(w, maxWait) && Enabled(w, s) && CleanStep(s) && q !in w.rows
    ensures ChainInv(Apply(w, s, maxWait), q, [], maxWait)
  {
    var w' := Apply(w, s, maxWait);
    if q in w'.rows {
      forall n | Asks(w', n, q) ensures false {
        NobodyYet(w, maxWait, q, n);
      }
      forall n | Waits(w', n, q) ensures s.Create? && n == s.m {
        NobodyYet(w, maxWait, q, n);
      }
    }
  }

  lemma ChainStart(w: World, s: Step, maxWait: int, q: QueryId, ts: seq<int>)
    requires CleanInv(w, maxWait) && Enabled(w, s) && q in w.rows && ChainInv(w, q, ts, maxWait) && !Verifies(w, s, q)
    requires s.BeginVerify? || s.BeginDownload? || s.BeginProcess? || s.Join? || s.Package?
    ensures ChainInv(Apply(w, s, maxWait), q, ts, maxWait)
  {
    var w' := Apply(w, s, maxWait);
    BeginStarts(w, s, maxWait);
    forall n | Asks(w', n, q) ensures Asks(w, n, q) && w'.active[n] == w.active[n] {
      assert n != s.m;
    }
    ChainFrame(w, w', q, ts, maxWait);
  }

  lemma NotVerified(w: World, s: Step, maxWait: int, q: QueryId)
    requires CleanInv(w, maxWait) && Enabled(w, s) && q !in w.rows
    ensures !Verifies(w, s, q)
  {
    if s.BeginVerify? {
      assert MsgOk(w, w.queue[s.m]);
    }
  }

  lemma ChainOther(w: World, s: Step, maxWait: int, q: QueryId, ts: seq<int>)
    requires CleanInv(w, maxWait) && Enabled(w, s) && CleanStep(s) && q in w.rows
    requires ChainInv(w, q, ts, maxWait) && !Verifies(w, s, q)
    ensures ChainInv(Apply(w, s, maxWait), q, ts, maxWait)
  {
    if s.Act? {
      ChainAct(w, s.m, s.out, maxWait, q, ts);
    } else if ImportStep(s) {
      ChainImport(w, s, maxWait, q, ts);
    } else if BeginStep(s) {
      ChainStart(w, s, maxWait, q, ts);
    } else {
      ChainFrame(w, Apply(w, s, maxWait), q, ts, maxWait);
    }
  }

  lemma ChainStep(w: World, s: Step, maxWait: int, q: QueryId, ts: seq<int>)
    requires CleanInv(w, maxWait) && Enabled(w, s) && CleanStep(s) && ChainInv(w, q, ts, maxWait)
    ensures ChainInv(Apply(w, s, maxWait), q, ts + if Verifies(w, s, q) then [w.now] else [], maxWait)
  {
    assert ts + [] == ts;
    if q !in w.rows {
      NotVerified(w, s, maxWait, q);
      ChainCreate(w, s, maxWait, q);
    } else if Verifies(w, s, q) {
      ChainVerify(w, s, maxWait, q, ts);
    } else {
      ChainOther(w, s, maxWait, q, ts);
    }
  }

  lemma {:induction false} TimesFormChain(run: seq<Step>, maxWait: int, q: QueryId)
    requires IsCleanRun(run, maxWait)
    ensures ChainInv(After(run, maxWait), q, VerifyTimes(run, maxWait, q), maxWait)
    decreases |run|
  {
    if run != [] {
      var init := run[..|run| - 1];
      TimesFormChain(init, maxWait, q);
      CleanInvHolds(init, maxWait);
      ChainStep(After(init, maxWait), run[|run| - 1], maxWait, q, VerifyTimes(init, maxWait, q));
    }
  }

  /** In every clean run, whatever SAT answers and however late each delivery is, a row is verified at
      most so many times. */
  lemma AttemptsBoundedInRuns(run: seq<Step>, maxWait: int, q: QueryId)
    requires IsCleanRun(run, maxWait)
    ensures |VerifyTimes(run, maxWait, q)| <= AttemptBound(maxWait)
  {
    TimesFormChain(run, maxWait, q);
    var ts, w := VerifyTimes(run, maxWait, q), After(run, maxWait);
    if ts != [] {
      AttemptsBounded(ts, w.rows[q].sentDate.value, maxWait);
    }
  }

  // ------------------------------------------------------------ the bound is reached

  lemma ExtendTimes(run: seq<Step>, s: Step, maxWait: int, q: QueryId) returns (longer: seq<Step>)
    requires IsCleanRun(run, maxWait) && CleanStep(s) && Enabled(After(run, maxWait), s)
    ensures longer == run + [s] && IsCleanRun(longer, maxWait)
    ensures After(longer, maxWait) == Apply(After(run, maxWait), s, maxWait)
    ensures VerifyTimes(longer, maxWait, q)
              == VerifyTimes(run, maxWait, q) + if Verifies(After(run, maxWait), s, q) then [After(run, maxWait).now] else []
  {
    longer := ExtendClean(run, s, maxWait);
    assert longer[..|longer| - 1] == run && longer[|longer| - 1] == s;
  }

  /** A verification of query 0, sent at time 0, is due this moment. */
  ghost predicate DueNow(run: seq<Step>, m: MsgId, maxWait: int) {
    && IsCleanRun(run, maxWait)
    && var w := After(run, maxWait); Idle(w, m) && w.queue[m] == VerifyMsg(0, Metadata, Some(0), w.now)
  }

  /** SAT's certificate cannot be read: the handler is going to ask for one more verification. */
  lemma Retried(run: seq<Step>, m: MsgId, maxWait: int) returns (longer: seq<Step>)
    requires DueNow(run, m, maxWait) && RetryOrTimeout(After(run, maxWait).now, 0, maxWait).RetryAt?
    ensures IsCleanRun(longer, maxWait) && After(longer, maxWait).now == After(run, maxWait).now
    ensures After(longer, maxWait).queue == After(run, maxWait).queue
    ensures var w := After(longer, maxWait);
            var next := VerifyMsg(0, Metadata, Some(0), RetryOrTimeout(w.now, 0, maxWait).at);
            m in w.active && w.active[m] == Running([Publish(next), Ack])
    ensures VerifyTimes(longer, maxWait, 0) == VerifyTimes(run, maxWait, 0) + [After(run, maxWait).now]
  {
    longer := ExtendTimes(run, BeginVerify(m, NoFiel), maxWait, 0);
  }

  /** It asks for it. */
  lemma AskedFor(run: seq<Step>, m: MsgId, msg: Msg, maxWait: int) returns (longer: seq<Step>, out: MsgId)
    requires IsCleanRun(run, maxWait) && m in After(run, maxWait).active && m in After(run, maxWait).queue
    requires After(run, maxWait).active[m] == Running([Publish(msg), Ack])
    ensures IsCleanRun(longer, maxWait) && After(longer, maxWait).now == After(run, maxWait).now
    ensures Idle(After(longer, maxWait), out) && After(longer, maxWait).queue[out] == msg
    ensures VerifyTimes(longer, maxWait, 0) == VerifyTimes(run, maxWait, 0)
  {
    InvHolds(run, maxWait);
    out := AboveAll(After(run, maxWait).queue.Keys);
    longer := ExtendTimes(run, Act(m, out), maxWait, 0);
  }

  /** And the time comes. */
  lemma NextAttempt(run: seq<Step>, m: MsgId, maxWait: int) returns (longer: seq<Step>, out: MsgId)
    requires DueNow(run, m, maxWait) && RetryOrTimeout(After(run, maxWait).now, 0, maxWait).RetryAt?
    ensures DueNow(longer, out, maxWait)
    ensures After(longer, maxWait).now == RetryOrTimeout(After(run, maxWait).now, 0, maxWait).at
    ensures VerifyTimes(longer, maxWait, 0) == VerifyTimes(run, maxWait, 0) + [After(run, maxWait).now]
  {
    var now := After(run, maxWait).now;
    RetryStaysInWindow(now, 0, maxWait);
    var at := RetryOrTimeout(now, 0, maxWait).at;
    longer := Retried(run, m, maxWait);
    longer, out := AskedFor(longer, m, VerifyMsg(0, Metadata, Some(0), at), maxWait);
    longer := ExtendTimes(longer, Tick(at - now), maxWait, 0);
  }

  lemma {:induction false} PunctualRun(run: seq<Step>, m: MsgId, maxWait: int) returns (longer: seq<Step>)
    requires DueNow(run, m, maxWait)
    ensures IsCleanRun(longer, maxWait)
    ensures |VerifyTimes(longer, maxWait, 0)|
              == |VerifyTimes(run, maxWait, 0)| + |Punctual(After(run, maxWait).now, 0, maxWait)|
    decreases MaxWait(maxWait) - After(run, maxWait).now
  {
    var now := After(run, maxWait).now;
    RetryStaysInWindow(now, 0, maxWait);
    if RetryOrTimeout(now, 0, maxWait).TimeLimitReached? {
      longer := ExtendTimes(run, BeginVerify(m, NoFiel), maxWait, 0);
    } else {
      var out;
      longer, out := NextAttempt(run, m, maxWait);
      longer := PunctualRun(longer, out, maxWait);
    }
  }

  /** For every wait over 15 minutes some clean run reaches the bound. */
  lemma AttemptBoundReached(maxWait: int)
    requires MaxWait(maxWait) > 15 * MINUTE
    ensures exists run, q :: IsCleanRun(run, maxWait) && |VerifyTimes(run, maxWait, q)| == AttemptBound(maxWait)
  {
    var run := ExtendTimes([], Create(0, Metadata, 0), maxWait, 0);
    run := PunctualRun(run, 0, maxWait);
    AttemptBoundTight(0, maxWait);
  }
}
