/** How often an unfinished query is verified again (`verifyBackoffDelay`,
    `retryOrTimeout`). Times and durations are whole nanoseconds. */
module VerifyBackoff {

  const MINUTE: int := 60_000_000_000
  const DEFAULT_WS_MAX_WAIT: int := 240 * MINUTE

  /** What a verification that got no final answer does next. */
  datatype Verdict = RetryAt(at: int) | TimeLimitReached

  function VerifyBackoffDelay(elapsed: int): int {
    if elapsed < 15 * MINUTE then 15 * MINUTE
    else if elapsed < 45 * MINUTE then 30 * MINUTE
    else 60 * MINUTE
  }

  function MaxWait(configured: int): int {
    if configured <= 0 then DEFAULT_WS_MAX_WAIT else configured
  }

  function RetryOrTimeout(now: int, sentDate: int, configured: int): Verdict {
    var elapsed := now - sentDate;
    var maxWait := MaxWait(configured);
    if elapsed >= maxWait then TimeLimitReached
    else
      var remain := maxWait - elapsed;
      var delay := if VerifyBackoffDelay(elapsed) > remain then remain else VerifyBackoffDelay(elapsed);
      if delay <= 0 then TimeLimitReached else RetryAt(now + delay)
  }

  /** A query times out exactly when the maximum wait is over, and a retry is always
      scheduled in the future and no later than the moment the wait ends. */
  lemma RetryStaysInWindow(now: int, sentDate: int, configured: int)
    ensures RetryOrTimeout(now, sentDate, configured).TimeLimitReached? <==> now >= sentDate + MaxWait(configured)
    ensures RetryOrTimeout(now, sentDate, configured).RetryAt? ==>
              now < RetryOrTimeout(now, sentDate, configured).at <= sentDate + MaxWait(configured)
  {
  }

  function CeilDiv(a: int, b: int): (q: nat)
    requires b > 0
    ensures a <= 0 ==> q == 0
    ensures a > 0 ==> (q - 1) * b < a <= q * b
  {
    if a <= 0 then 0 else (a + b - 1) / b
  }

  /** The times at which one chain of verify messages is handled: each handling but the
      last schedules the next one, which is delivered no earlier than scheduled. */
  ghost predicate Chain(ts: seq<int>, sentDate: int, configured: int) {
    forall i :: 0 <= i < |ts| - 1 ==>
      && RetryOrTimeout(ts[i], sentDate, configured).RetryAt?
      && RetryOrTimeout(ts[i], sentDate, configured).at <= ts[i + 1]
  }

  /** The least time that can have passed at handling `k`, unless the wait is over. */
  function Floor(k: nat): int {
    if k == 0 then 0 else if k == 1 then 15 * MINUTE else 45 * MINUTE + (k - 2) * 60 * MINUTE
  }

  lemma {:induction false} ElapsedFloor(ts: seq<int>, sentDate: int, configured: int, k: nat)
    requires Chain(ts, sentDate, configured) && k < |ts| && ts[0] >= sentDate
    ensures ts[k] - sentDate >= if Floor(k) < MaxWait(configured) then Floor(k) else MaxWait(configured)
  {
    if k > 0 {
      ElapsedFloor(ts, sentDate, configured, k - 1);
      assert RetryOrTimeout(ts[k - 1], sentDate, configured).at <= ts[(k - 1) + 1];
    }
  }

  /** The most handlings one chain can have. */
  function AttemptBound(configured: int): nat {
    3 + CeilDiv(MaxWait(configured) - 45 * MINUTE, 60 * MINUTE)
  }

  /** However late each delivery is, a query SAT never finishes is handled a bounded
      number of times before it is marked as timed out. */
  lemma AttemptsBounded(ts: seq<int>, sentDate: int, configured: int)
    requires Chain(ts, sentDate, configured) && |ts| > 0 && ts[0] >= sentDate
    ensures |ts| <= AttemptBound(configured)
  {
    if |ts| >= 4 {
      var k := |ts| - 2;
      ElapsedFloor(ts, sentDate, configured, k);
      RetryStaysInWindow(ts[k], sentDate, configured);
      assert RetryOrTimeout(ts[k], sentDate, configured).RetryAt?;
      assert Floor(k) < MaxWait(configured);
    }
  }

  /** The chain in which every retry is handled exactly when scheduled. */
  function Punctual(now: int, sentDate: int, configured: int): (ts: seq<int>)
    ensures |ts| > 0 && ts[0] == now
    decreases sentDate + MaxWait(configured) - now
  {
    var v := RetryOrTimeout(now, sentDate, configured);
    if v.TimeLimitReached? then [now] else [now] + Punctual(v.at, sentDate, configured)
  }

  lemma {:induction false} PunctualChain(now: int, sentDate: int, configured: int)
    ensures Chain(Punctual(now, sentDate, configured), sentDate, configured)
    ensures var ts := Punctual(now, sentDate, configured);
            RetryOrTimeout(ts[|ts| - 1], sentDate, configured).TimeLimitReached?
    decreases sentDate + MaxWait(configured) - now
  {
    var v := RetryOrTimeout(now, sentDate, configured);
    if v.RetryAt? {
      PunctualChain(v.at, sentDate, configured);
      var ts, rest := Punctual(now, sentDate, configured), Punctual(v.at, sentDate, configured);
      forall i | 0 <= i < |ts| - 1
        ensures RetryOrTimeout(ts[i], sentDate, configured).RetryAt?
        ensures RetryOrTimeout(ts[i], sentDate, configured).at <= ts[i + 1]
      {
        assert ts[i + 1] == rest[i];
        if i > 0 {
          assert ts[i] == rest[i - 1];
        }
      }
    }
  }

  lemma {:induction false} PunctualTail(now: int, sentDate: int, configured: int)
    requires now - sentDate >= 45 * MINUTE
    ensures |Punctual(now, sentDate, configured)| == 1 + CeilDiv(MaxWait(configured) - (now - sentDate), 60 * MINUTE)
    decreases sentDate + MaxWait(configured) - now
  {
    var v := RetryOrTimeout(now, sentDate, configured);
    if v.RetryAt? {
      PunctualTail(v.at, sentDate, configured);
    }
  }

  lemma OneMoreHandling(now: int, sentDate: int, configured: int, next: int)
    requires RetryOrTimeout(now, sentDate, configured) == RetryAt(next)
    ensures |Punctual(now, sentDate, configured)| == 1 + |Punctual(next, sentDate, configured)|
  {
  }

  /** A wait of up to 45 minutes leaves room for three handlings. */
  lemma ShortWait(sentDate: int, configured: int)
    requires 15 * MINUTE < MaxWait(configured) < 45 * MINUTE
    ensures |Punctual(sentDate, sentDate, configured)| == 3
  {
    var t1, t2 := sentDate + 15 * MINUTE, sentDate + MaxWait(configured);
    assert RetryOrTimeout(sentDate, sentDate, configured) == RetryAt(t1);
    assert RetryOrTimeout(t1, sentDate, configured) == RetryAt(t2);
    assert RetryOrTimeout(t2, sentDate, configured).TimeLimitReached?;
    OneMoreHandling(sentDate, sentDate, configured, t1);
    OneMoreHandling(t1, sentDate, configured, t2);
    assert Punctual(t2, sentDate, configured) == [t2];
  }

  /** A longer one leaves room for the first two and then for one an hour. */
  lemma LongWait(sentDate: int, configured: int)
    requires MaxWait(configured) >= 45 * MINUTE
    ensures |Punctual(sentDate, sentDate, configured)| == AttemptBound(configured)
  {
    var t1, t2 := sentDate + 15 * MINUTE, sentDate + 45 * MINUTE;
    assert RetryOrTimeout(sentDate, sentDate, configured) == RetryAt(t1);
    assert RetryOrTimeout(t1, sentDate, configured) == RetryAt(t2);
    OneMoreHandling(sentDate, sentDate, configured, t1);
    OneMoreHandling(t1, sentDate, configured, t2);
    PunctualTail(t2, sentDate, configured);
  }

  /** The bound is attained, by the punctual chain, whenever the wait is over 15 minutes. */
  lemma AttemptBoundTight(sentDate: int, configured: int)
    requires MaxWait(configured) > 15 * MINUTE
    ensures Chain(Punctual(sentDate, sentDate, configured), sentDate, configured)
    ensures |Punctual(sentDate, sentDate, configured)| == AttemptBound(configured)
  {
    PunctualChain(sentDate, sentDate, configured);
    if MaxWait(configured) < 45 * MINUTE {
      ShortWait(sentDate, configured);
    } else {
      LongWait(sentDate, configured);
    }
  }
}
