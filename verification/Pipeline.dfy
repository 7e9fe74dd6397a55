/** The SAT download pipeline as messages and handler plans.

    A handler reads its message, asks SAT, and from the answer fixes a plan: the row
    write, the events to publish and the settlement of its own message, in that order.
    `Protocol` runs these plans one action at a time; the methods of `Handlers` carry them out
    in one go. */
module Pipeline {
  import opened Options
  import opened VerifyBackoff

  type QueryId = nat
  type PackageId = string

  const MAX_PACKAGES := 200
  const MAX_CFDI_QTY_IN_QUERY := 500_000
  const CODE_INFO_NOT_FOUND := 5004
  const CODE_MAX_LIMIT := 5002

  datatype QueryState =
    | Draft | Sent | ToDownload | Downloaded
    | ErrorInCerts | ErrorSatWsInternal | ErrorTooBig | TimeLimitReached | Error
    | ManuallyCancelled | InformationNotFound | Processed
  {
    /** The states in which the row waits for some handler to move it on. */
    predicate InFlight() {
      Sent? || ToDownload? || Downloaded?
    }

    /** The states manual re-verification selects. */
    predicate Reverifiable() {
      Sent? || TimeLimitReached?
    }
  }

  datatype RequestType = Metadata | Cfdi | OtherRequest(name: string) {
    /** The router knows a processing queue for this type. */
    predicate Routable() {
      Metadata? || Cfdi?
    }
  }

  /** A row of the `sat_query` table. */
  datatype Row = Row(state: QueryState, requestType: RequestType, sentDate: Option<int>,
                     cfdisQty: Option<int>, packages: seq<PackageId>)

  datatype Msg =
    | VerifyMsg(query: QueryId, requestType: RequestType, sentDate: Option<int>, dueAt: int)
    | DownloadMsg(query: QueryId, requestType: RequestType, cfdisQty: int, packages: seq<PackageId>)
    | MetadataMsg(query: QueryId, packages: seq<PackageId>)
    | XmlMsg(query: QueryId, packages: seq<PackageId>)
    | CompleteCfdisMsg
    | SplitMsg
  {
    predicate About(q: QueryId) {
      (VerifyMsg? || DownloadMsg? || MetadataMsg? || XmlMsg?) && query == q
    }

    predicate HasQuery() {
      VerifyMsg? || DownloadMsg? || MetadataMsg? || XmlMsg?
    }

    predicate Process() {
      MetadataMsg? || XmlMsg?
    }
  }

  datatype Action =
    | SetState(query: QueryId, state: QueryState, qty: Option<int>, pkgs: Option<seq<PackageId>>)
    | Import(pkg: PackageId)
    | Publish(msg: Msg)
    | Ack

  type Rows = map<QueryId, Row>

  /** `UPDATE sat_query SET … WHERE identifier = query`; columns without a value stay. */
  function Write(rows: Rows, a: Action): Rows
    requires a.SetState?
  {
    if a.query !in rows then rows
    else
      var row := rows[a.query];
      rows[a.query := row.(state := a.state,
                           cfdisQty := if a.qty.Some? then a.qty else row.cfdisQty,
                           packages := a.pkgs.GetOr(row.packages))]
  }

  /** Between two states of the table only row `q` has changed, if it exists, and of that the state
      and, where there is something to write, quantity and packages. */
  ghost predicate Moved(before: Rows, after: Rows, q: QueryId, state: QueryState,
                        qty: Option<int>, pkgs: Option<seq<PackageId>>)
  {
    && after.Keys == before.Keys
    && (forall p :: p in before && p != q ==> after[p] == before[p])
    && (q in before ==>
          && after[q].state == state
          && after[q].requestType == before[q].requestType && after[q].sentDate == before[q].sentDate
          && after[q].cfdisQty == (if qty.Some? then qty else before[q].cfdisQty)
          && after[q].packages == (if pkgs.Some? then pkgs.value else before[q].packages))
  }

  // ---------------------------------------------------------------- verify

  datatype VerifyStatus =
    | StatusUnknown | Accepted | InProcess | Finished | StatusError | Rejected | Expired | OtherStatus(code: int)

  /** What one call to SAT's VerificaSolicitud brings back. */
  datatype VerifyAnswer =
    | NoFiel
    | CallFailed
    | Answer(status: VerifyStatus, statusCode: int, cfdiQty: int, packages: seq<PackageId>)

  /** `updateQueryState`: the quantity is written when positive, the packages when there are any. */
  function UpdateQueryState(q: QueryId, state: QueryState, qty: int, pkgs: seq<PackageId>): Action {
    SetState(q, state, if qty > 0 then Some(qty) else None, if |pkgs| > 0 then Some(pkgs) else None)
  }

  /** A message without a sent date needs its row; without one the handler fails and the
      message is abandoned. */
  predicate CanEnrich(rows: Rows, msg: Msg)
    requires msg.VerifyMsg?
  {
    msg.sentDate.Some? || msg.query in rows
  }

  /** The sent date the handler works with: the message's, or the row's if that is missing. */
  function EnrichedSentDate(rows: Rows, msg: Msg): Option<int>
    requires msg.VerifyMsg? && CanEnrich(rows, msg)
  {
    if msg.sentDate.Some? then msg.sentDate else rows[msg.query].sentDate
  }

  /** Without any sent date the time elapsed is counted from year 1, past every limit. */
  function RetryPlan(msg: Msg, sent: Option<int>, now: int, maxWait: int): seq<Action>
    requires msg.VerifyMsg?
  {
    var verdict := if sent.Some? then RetryOrTimeout(now, sent.value, maxWait) else Verdict.TimeLimitReached;
    match verdict
    case TimeLimitReached => [UpdateQueryState(msg.query, QueryState.TimeLimitReached, 0, []), Ack]
    case RetryAt(at) => [Publish(VerifyMsg(msg.query, msg.requestType, sent, at)), Ack]
  }

  function FinishedPlan(msg: Msg, qty: int, pkgs: seq<PackageId>): seq<Action>
    requires msg.VerifyMsg?
  {
    if |pkgs| > MAX_PACKAGES || (msg.requestType != Metadata && qty > MAX_CFDI_QTY_IN_QUERY) then
      [UpdateQueryState(msg.query, ManuallyCancelled, qty, pkgs), Ack]
    else
      [UpdateQueryState(msg.query, ToDownload, qty, pkgs),
       Publish(DownloadMsg(msg.query, msg.requestType, qty, pkgs)), Ack]
  }

  function ErrorPlan(msg: Msg, statusCode: int, qty: int): seq<Action>
    requires msg.VerifyMsg?
  {
    if statusCode == CODE_INFO_NOT_FOUND then
      [UpdateQueryState(msg.query, InformationNotFound, 0, []), Ack]
    else if statusCode == CODE_MAX_LIMIT then
      if qty == 0 then [UpdateQueryState(msg.query, ErrorSatWsInternal, 0, []), Ack]
      else if msg.requestType == Metadata then
        [UpdateQueryState(msg.query, ErrorTooBig, 0, []), Publish(SplitMsg), Ack]
      else [UpdateQueryState(msg.query, ErrorTooBig, 0, []), Ack]
    else [UpdateQueryState(msg.query, Error, 0, []), Ack]
  }

  function VerifyPlan(rows: Rows, msg: Msg, answer: VerifyAnswer, now: int, maxWait: int): seq<Action>
    requires msg.VerifyMsg? && CanEnrich(rows, msg)
  {
    var sent := EnrichedSentDate(rows, msg);
    match answer
    case NoFiel => RetryPlan(msg, sent, now, maxWait)
    case CallFailed => RetryPlan(msg, sent, now, maxWait)
    case Answer(status, code, qty, pkgs) =>
      match status
      case Finished => FinishedPlan(msg, qty, pkgs)
      case StatusError => ErrorPlan(msg, code, qty)
      case Rejected => ErrorPlan(msg, code, qty)
      case Expired => ErrorPlan(msg, code, qty)
      case _ => RetryPlan(msg, sent, now, maxWait)
  }

  // ---------------------------------------------------------------- download

  /** `updateDownloadState` always writes packages and quantity back. */
  function UpdateDownloadState(msg: Msg, state: QueryState): Action
    requires msg.DownloadMsg?
  {
    SetState(msg.query, state, Some(msg.cfdisQty), Some(msg.packages))
  }

  /** The routing of a downloaded query to its processing queue. */
  function Route(msg: Msg): seq<Action>
    requires msg.DownloadMsg?
  {
    match msg.requestType
    case Metadata => [Publish(MetadataMsg(msg.query, msg.packages))]
    case Cfdi => [Publish(XmlMsg(msg.query, msg.packages))]
    case OtherRequest(_) => []
  }

  /** The positions of `n` packages. */
  function Indices(n: nat): (r: set<nat>)
    ensures forall i: nat :: i in r <==> i < n
  {
    if n == 0 then {} else Indices(n - 1) + {n - 1}
  }

  function DownloadPlan(msg: Msg, allStored: bool): seq<Action>
    requires msg.DownloadMsg?
  {
    if allStored then [UpdateDownloadState(msg, Downloaded)] + Route(msg) + [Ack]
    else [UpdateDownloadState(msg, Error), Ack]
  }

  // ---------------------------------------------------------------- process

  /** The contents of each package go into the tables, in order. */
  function Imports(packages: seq<PackageId>): (plan: seq<Action>)
    ensures |plan| == |packages| && forall i :: 0 <= i < |plan| ==> plan[i] == Import(packages[i])
  {
    seq(|packages|, i requires 0 <= i < |packages| => Import(packages[i]))
  }

  function FinishPlan(msg: Msg): seq<Action>
    requires msg.Process()
  {
    [SetState(msg.query, Processed, None, None)] + (if msg.MetadataMsg? then [Publish(CompleteCfdisMsg)] else []) + [Ack]
  }

  function ProcessPlan(msg: Msg, packages: seq<PackageId>): seq<Action>
    requires msg.Process()
  {
    Imports(packages) + FinishPlan(msg)
  }

  /** The packages a process handler opens: the message's, or the row's if it names none. */
  function PackagesToProcess(rows: Rows, msg: Msg): seq<PackageId>
    requires msg.Process()
  {
    if |msg.packages| > 0 || msg.query !in rows then msg.packages else rows[msg.query].packages
  }

  // ---------------------------------------------------------------- plans carried out

  /** The rows once the plan is carried out. */
  function RowsAfter(rows: Rows, plan: seq<Action>): Rows {
    if plan == [] then rows
    else RowsAfter(if plan[0].SetState? then Write(rows, plan[0]) else rows, plan[1..])
  }

  /** The events the plan publishes, in order. */
  function Published(plan: seq<Action>): seq<Msg> {
    if plan == [] then []
    else (if plan[0].Publish? then [plan[0].msg] else []) + Published(plan[1..])
  }

  /** Imports leave the rows alone and publish nothing. */
  lemma {:induction false} CarryOutImports(rows: Rows, packages: seq<PackageId>, rest: seq<Action>)
    ensures RowsAfter(rows, Imports(packages) + rest) == RowsAfter(rows, rest)
    ensures Published(Imports(packages) + rest) == Published(rest)
    decreases |packages|
  {
    if packages == [] {
      assert Imports(packages) + rest == rest;
    } else {
      CarryOutImports(rows, packages[1..], rest);
      var plan := Imports(packages) + rest;
      assert plan[1..] == Imports(packages[1..]) + rest && plan[0] == Import(packages[0]);
      assert [] + Published(plan[1..]) == Published(plan[1..]);
    }
  }

  lemma CarryOutWrite(rows: Rows, write: Action)
    requires write.SetState?
    ensures RowsAfter(rows, [write, Ack]) == Write(rows, write) && Published([write, Ack]) == []
  {
    assert [write, Ack][1..] == [Ack] && [Ack][1..] == [];
    assert RowsAfter(Write(rows, write), [Ack]) == Write(rows, write);
  }

  lemma CarryOutPublish(rows: Rows, msg: Msg)
    ensures RowsAfter(rows, [Publish(msg), Ack]) == rows && Published([Publish(msg), Ack]) == [msg]
  {
    assert [Publish(msg), Ack][1..] == [Ack] && [Ack][1..] == [];
    assert RowsAfter(rows, [Ack]) == rows;
  }

  lemma CarryOutBoth(rows: Rows, write: Action, msg: Msg)
    requires write.SetState?
    ensures RowsAfter(rows, [write, Publish(msg), Ack]) == Write(rows, write)
    ensures Published([write, Publish(msg), Ack]) == [msg]
  {
    assert [write, Publish(msg), Ack][1..] == [Publish(msg), Ack];
    CarryOutPublish(Write(rows, write), msg);
  }

  /** What the plans of the handlers, which all have at most three actions, come to. */
  lemma ShortPlans(rows: Rows)
    ensures forall a: Action | a.SetState? :: RowsAfter(rows, [a, Ack]) == Write(rows, a) && Published([a, Ack]) == []
    ensures forall m: Msg :: RowsAfter(rows, [Publish(m), Ack]) == rows && Published([Publish(m), Ack]) == [m]
    ensures forall a: Action, m: Msg | a.SetState? ::
              RowsAfter(rows, [a, Publish(m), Ack]) == Write(rows, a) && Published([a, Publish(m), Ack]) == [m]
  {
    forall a: Action | a.SetState? {
      CarryOutWrite(rows, a);
    }
    forall m: Msg {
      CarryOutPublish(rows, m);
    }
    forall a: Action, m: Msg | a.SetState? {
      CarryOutBoth(rows, a, m);
    }
  }
}
