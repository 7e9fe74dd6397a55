/** The message handlers as the worker runs them: each reads its message, changes the rows and
    the tables, publishes events, and says how its message is to be settled. */
module Handlers {
  import opened Options
  import opened VerifyBackoff
  import opened Pipeline
  import MetadataJoiner
  import Ledger
  import Payments
  import opened TenantTables

  /** How the consumer settles the message of a finished handler. */
  datatype AckOutcome = AckComplete | AckAbandon

  type MetadataFile = seq<MetadataJoiner.Row>

  /** The metadata of `packages` in order; packages that cannot be read are passed over. */
  function MetadataOf(packages: seq<PackageId>, files: map<PackageId, MetadataFile>, norm: string -> string)
    : seq<MetadataJoiner.Record>
  {
    if packages == [] then []
    else
      var init := MetadataOf(packages[..|packages| - 1], files, norm);
      var p := packages[|packages| - 1];
      if p in files then init + MetadataJoiner.Parsed(files[p], norm) else init
  }

  /** The documents processed for `packages`, one per UUID within each package. */
  function DocumentsOf(packages: seq<PackageId>, zips: map<PackageId, seq<XmlFile>>): seq<XmlFile> {
    if packages == [] then []
    else
      var init := DocumentsOf(packages[..|packages| - 1], zips);
      var p := packages[|packages| - 1];
      if p in zips then init + FirstFiles(zips[p], {}) else init
  }

  /** The packages whose download and upload both succeeded. */
  function Fetched(packages: seq<PackageId>, ok: seq<bool>): set<PackageId>
    requires |ok| == |packages|
  {
    set i | 0 <= i < |packages| && ok[i] :: packages[i]
  }

  predicate AllTrue(ok: seq<bool>) {
    forall i :: 0 <= i < |ok| ==> ok[i]
  }

  /** The events manual re-verification publishes for the rows it selected. */
  function Reverifications(rows: Rows, selected: seq<QueryId>, now: int): (msgs: seq<Msg>)
    requires forall q :: q in selected ==> q in rows
    ensures |msgs| == |selected|
  {
    if selected == [] then []
    else
      var q := selected[|selected| - 1];
      Reverifications(rows, selected[..|selected| - 1], now)
      + [VerifyMsg(q, rows[q].requestType, rows[q].sentDate, now)]
  }

  lemma {:induction false} ReverificationsExactly(rows: Rows, selected: seq<QueryId>, now: int)
    requires forall q :: q in selected ==> q in rows
    ensures forall i :: 0 <= i < |selected| ==>
              Reverifications(rows, selected, now)[i]
                == VerifyMsg(selected[i], rows[selected[i]].requestType, rows[selected[i]].sentDate, now)
  {
    if selected != [] {
      ReverificationsExactly(rows, selected[..|selected| - 1], now);
    }
  }

  /** Two cascades of cancellations are one. */
  lemma CancelTwice(t: Payments.Tables, a: set<string>, b: set<string>)
    ensures Payments.Cancel(Payments.Cancel(t, a), b) == Payments.Cancel(t, a + b)
  {
    var x, y := Payments.Cancel(Payments.Cancel(t, a), b), Payments.Cancel(t, a + b);
    assert x.payments == y.payments;
    assert x.relations == y.relations;
  }

  lemma RunConcat(t: Payments.Tables, a: seq<Payments.Op>, b: seq<Payments.Op>, norm: string -> string)
    ensures Payments.Run(t, a + b, norm) == Payments.Run(Payments.Run(t, a, norm), b, norm)
  {
    if b == [] {
      assert a + b == a;
    } else {
      RunConcat(t, a, b[..|b| - 1], norm);
      assert (a + b)[..|a + b| - 1] == a + b[..|b| - 1];
    }
  }

  /** One more batch of documents, for either group of tables. */
  lemma MoreXmlOps(c: Ledger.Table, a: seq<XmlFile>, b: seq<XmlFile>, company: string)
    ensures Ledger.ExecAll(c, XmlOps(a + b), company) == Ledger.ExecAll(Ledger.ExecAll(c, XmlOps(a), company), XmlOps(b), company)
  {
    assert XmlOps(a + b) == XmlOps(a) + XmlOps(b);
    Ledger.ExecAllConcat(c, XmlOps(a), XmlOps(b), company);
  }

  lemma MoreImports(t: Payments.Tables, a: seq<XmlFile>, b: seq<XmlFile>, norm: string -> string)
    ensures Payments.Run(t, ImportOps(a + b), norm) == Payments.Run(Payments.Run(t, ImportOps(a), norm), ImportOps(b), norm)
  {
    assert ImportOps(a + b) == ImportOps(a) + ImportOps(b);
    RunConcat(t, ImportOps(a), ImportOps(b), norm);
  }

  class Worker {
    const maxWait: int
    const db: TenantDb
    var rows: Rows
    var sent: seq<Msg>
    var blobs: set<PackageId>

    constructor (maxWait: int, db: TenantDb)
      ensures this.maxWait == maxWait && this.db == db
      ensures rows == map[] && sent == [] && blobs == {}
    {
      this.maxWait, this.db := maxWait, db;
      rows, sent, blobs := map[], [], {};
    }

    /** The handler has carried out `plan`, which began with these rows and events. */
    ghost predicate CarriedOut(rows0: Rows, sent0: seq<Msg>, plan: seq<Action>)
      reads this
    {
      rows == RowsAfter(rows0, plan) && sent == sent0 + Published(plan)
    }

    /** No other row has changed, and if the row is left waiting, a message about it was sent. */
    ghost predicate LookedAfter(rows0: Rows, sent0: seq<Msg>, q: QueryId)
      reads this
    {
      && rows.Keys == rows0.Keys && (forall p :: p in rows && p != q ==> rows[p] == rows0[p])
      && (q in rows && rows[q].state.InFlight() ==>
            |sent| == |sent0| + 1 && sent[..|sent0|] == sent0 && sent[|sent0|].About(q))
    }

    /** A verification that got no final answer has timed out, its row marked and nothing sent, once the
        wait is over or if no sent date is known; otherwise no row has changed and one more
        verification is asked for, 15, 30 or 60 minutes from now but no later than the end of the wait. */
    ghost predicate RetryDone(rows0: Rows, sent0: seq<Msg>, msg: Msg, sentDate: Option<int>, now: int)
      requires msg.VerifyMsg?
      reads this
    {
      var wait := if maxWait <= 0 then 240 * 60_000_000_000 else maxWait;
      var late := sentDate.None? || now >= sentDate.value + wait;
      && (late ==> Moved(rows0, rows, msg.query, QueryState.TimeLimitReached, None, None) && sent == sent0)
      && (!late ==>
            var (elapsed, end) := (now - sentDate.value, sentDate.value + wait);
            var minutes := if elapsed < 15 * 60_000_000_000 then 15 else if elapsed < 45 * 60_000_000_000 then 30 else 60;
            var due := now + minutes * 60_000_000_000;
            && rows == rows0
            && sent == sent0 + [VerifyMsg(msg.query, msg.requestType, sentDate, if due < end then due else end)])
    }

    /** A finished query is cancelled, and nothing sent, if it has over 200 packages or, unless it is for
        metadata, over 500,000 CFDIs; otherwise its download is asked for. */
    ghost predicate FinishedDone(rows0: Rows, sent0: seq<Msg>, msg: Msg, qty: int, pkgs: seq<PackageId>)
      requires msg.VerifyMsg?
      reads this
    {
      var tooMuch := |pkgs| > 200 || (msg.requestType != Metadata && qty > 500_000);
      && Moved(rows0, rows, msg.query, if tooMuch then ManuallyCancelled else ToDownload,
               if qty > 0 then Some(qty) else None, if pkgs != [] then Some(pkgs) else None)
      && sent == sent0 + if tooMuch then [] else [DownloadMsg(msg.query, msg.requestType, qty, pkgs)]
    }

    /** A refused query gets the state that goes with SAT's code, and is split if it was for metadata and
        over SAT's limit. */
    ghost predicate ErrorDone(rows0: Rows, sent0: seq<Msg>, msg: Msg, code: int, qty: int)
      requires msg.VerifyMsg?
      reads this
    {
      && Moved(rows0, rows, msg.query,
               if code == 5004 then InformationNotFound
               else if code != 5002 then Error
               else if qty == 0 then ErrorSatWsInternal else ErrorTooBig, None, None)
      && sent == sent0 + if code == 5002 && qty != 0 && msg.requestType == Metadata then [SplitMsg] else []
    }

    /** What each answer of SAT leads to. */
    ghost predicate VerifyDone(rows0: Rows, sent0: seq<Msg>, msg: Msg, sentDate: Option<int>, answer: VerifyAnswer, now: int)
      requires msg.VerifyMsg?
      reads this
    {
      && (answer.NoFiel? || answer.CallFailed? ==> RetryDone(rows0, sent0, msg, sentDate, now))
      && (answer.Answer? ==>
            var st := answer.status;
            && (st.StatusUnknown? || st.Accepted? || st.InProcess? || st.OtherStatus? ==>
                  RetryDone(rows0, sent0, msg, sentDate, now))
            && (st.Finished? ==> FinishedDone(rows0, sent0, msg, answer.cfdiQty, answer.packages))
            && (st.StatusError? || st.Rejected? || st.Expired? ==>
                  ErrorDone(rows0, sent0, msg, answer.statusCode, answer.cfdiQty)))
    }

    method Publish(msg: Msg)
      modifies this`sent
      ensures sent == old(sent) + [msg]
    {
      sent := sent + [msg];
    }

    // ------------------------------------------------------------ create

    /** `CreateQuery.Handle` with SAT's answer: the row is born as DRAFT and then marked. */
    method HandleCreate(q: QueryId, rt: RequestType, certs: bool, accepted: bool, now: int)
      requires q !in rows
      modifies this`rows, this`sent
      ensures var state := if !certs then ErrorInCerts else if !accepted then ErrorSatWsInternal else Sent;
              rows == old(rows)[q := Row(state, rt, if state.Sent? then Some(now) else None, None, [])]
      ensures sent == old(sent) + if certs && accepted then [VerifyMsg(q, rt, Some(now), now)] else []
    {
      rows := rows[q := Row(Draft, rt, None, None, [])];
      if !certs {
        MarkError(q, ErrorInCerts);
        return;
      }
      if !accepted {
        MarkError(q, ErrorSatWsInternal);
        return;
      }
      rows := rows[q := rows[q].(state := Sent, sentDate := Some(now))];
      Publish(VerifyMsg(q, rt, Some(now), now));
    }

    method MarkError(q: QueryId, state: QueryState)
      requires q in rows
      modifies this`rows
      ensures rows == old(rows)[q := old(rows)[q].(state := state)]
    {
      rows := rows[q := rows[q].(state := state)];
    }

    // ------------------------------------------------------------ verify

    /** `VerifyQuery.Handle` */
    method HandleVerify(msg: Msg, answer: VerifyAnswer, now: int) returns (outcome: AckOutcome)
      requires msg.VerifyMsg?
      modifies this`rows, this`sent
      ensures outcome.AckComplete? <==> msg.sentDate.Some? || msg.query in old(rows)
      ensures outcome.AckComplete? ==>
                VerifyDone(old(rows), old(sent), msg,
                           if msg.sentDate.Some? then msg.sentDate else old(rows)[msg.query].sentDate, answer, now)
      ensures outcome.AckComplete? ==> CarriedOut(old(rows), old(sent), VerifyPlan(old(rows), msg, answer, now, maxWait))
      ensures outcome.AckAbandon? ==> rows == old(rows) && sent == old(sent)
      ensures outcome.AckComplete? ==> LookedAfter(old(rows), old(sent), msg.query)
    {
      var sentDate := msg.sentDate;
      if sentDate.None? {
        if msg.query !in rows {
          return AckAbandon;
        }
        sentDate := rows[msg.query].sentDate;
      }
      outcome := AckComplete;
      match answer
      case NoFiel => HandleRetry(msg, sentDate, now);
      case CallFailed => HandleRetry(msg, sentDate, now);
      case Answer(status, code, qty, pkgs) =>
        match status
        case Finished => HandleFinished(msg, qty, pkgs);
        case StatusError => HandleError(msg, code, qty);
        case Rejected => HandleError(msg, code, qty);
        case Expired => HandleError(msg, code, qty);
        case _ => HandleRetry(msg, sentDate, now);
    }

    /** `handleFinished` */
    method HandleFinished(msg: Msg, qty: int, pkgs: seq<PackageId>)
      requires msg.VerifyMsg?
      modifies this`rows, this`sent
      ensures FinishedDone(old(rows), old(sent), msg, qty, pkgs)
      ensures CarriedOut(old(rows), old(sent), FinishedPlan(msg, qty, pkgs))
      ensures LookedAfter(old(rows), old(sent), msg.query)
    {
      ShortPlans(rows);
      if |pkgs| > MAX_PACKAGES {
        UpdateQueryState(msg.query, ManuallyCancelled, qty, pkgs);
        return;
      }
      if msg.requestType != Metadata && qty > MAX_CFDI_QTY_IN_QUERY {
        UpdateQueryState(msg.query, ManuallyCancelled, qty, pkgs);
        return;
      }
      UpdateQueryState(msg.query, ToDownload, qty, pkgs);
      Publish(DownloadMsg(msg.query, msg.requestType, qty, pkgs));
    }

    /** `handleError` */
    method HandleError(msg: Msg, code: int, qty: int)
      requires msg.VerifyMsg?
      modifies this`rows, this`sent
      ensures ErrorDone(old(rows), old(sent), msg, code, qty)
      ensures CarriedOut(old(rows), old(sent), ErrorPlan(msg, code, qty))
      ensures LookedAfter(old(rows), old(sent), msg.query)
    {
      ShortPlans(rows);
      if code == CODE_INFO_NOT_FOUND {
        UpdateQueryState(msg.query, InformationNotFound, 0, []);
      } else if code == CODE_MAX_LIMIT {
        if qty == 0 {
          UpdateQueryState(msg.query, ErrorSatWsInternal, 0, []);
          return;
        }
        UpdateQueryState(msg.query, ErrorTooBig, 0, []);
        if msg.requestType == Metadata {
          Publish(SplitMsg);
        }
      } else {
        UpdateQueryState(msg.query, Error, 0, []);
      }
    }

    /** `retryOrTimeout`; without a sent date the wait is long over. */
    method HandleRetry(msg: Msg, sentDate: Option<int>, now: int)
      requires msg.VerifyMsg?
      modifies this`rows, this`sent
      ensures RetryDone(old(rows), old(sent), msg, sentDate, now)
      ensures CarriedOut(old(rows), old(sent), RetryPlan(msg, sentDate, now, maxWait))
      ensures LookedAfter(old(rows), old(sent), msg.query)
    {
      ShortPlans(rows);
      if sentDate.None? {
        UpdateQueryState(msg.query, QueryState.TimeLimitReached, 0, []);
        return;
      }
      var elapsed, wait := now - sentDate.value, MaxWait(maxWait);
      var delay := VerifyBackoffDelay(elapsed);
      if delay > wait - elapsed {
        delay := wait - elapsed;
      }
      if elapsed >= wait || delay <= 0 {
        UpdateQueryState(msg.query, QueryState.TimeLimitReached, 0, []);
        return;
      }
      Publish(VerifyMsg(msg.query, msg.requestType, sentDate, now + delay));
    }

    /** `updateQueryState` */
    method UpdateQueryState(q: QueryId, state: QueryState, qty: int, pkgs: seq<PackageId>)
      modifies this`rows
      ensures Moved(old(rows), rows, q, state, if qty > 0 then Some(qty) else None, if pkgs != [] then Some(pkgs) else None)
      ensures rows == Write(old(rows), Pipeline.UpdateQueryState(q, state, qty, pkgs))
    {
      if q in rows {
        rows := rows[q := rows[q].(state := state)];
        if qty > 0 {
          rows := rows[q := rows[q].(cfdisQty := Some(qty))];
        }
        if |pkgs| > 0 {
          rows := rows[q := rows[q].(packages := pkgs)];
        }
      }
    }

    // ------------------------------------------------------------ download

    /** `DownloadQuery.Handle`: one goroutine per package, finishing in any order; `ok` says
        which of them succeed. */
    method HandleDownload(msg: Msg, fiel: bool, ok: seq<bool>)
      requires msg.DownloadMsg? && |ok| == |msg.packages|
      modifies this`rows, this`sent, this`blobs
      ensures var allIn := fiel && forall i :: 0 <= i < |ok| ==> ok[i];
              && Moved(old(rows), rows, msg.query, if allIn then Downloaded else Error, Some(msg.cfdisQty), Some(msg.packages))
              && sent == old(sent)
                   + if allIn && msg.requestType == Metadata then [MetadataMsg(msg.query, msg.packages)]
                     else if allIn && msg.requestType == Cfdi then [XmlMsg(msg.query, msg.packages)]
                     else []
      ensures CarriedOut(old(rows), old(sent), DownloadPlan(msg, fiel && AllTrue(ok)))
      ensures blobs == old(blobs) + if fiel then Fetched(msg.packages, ok) else {}
    {
      ShortPlans(rows);
      if !fiel {
        UpdateDownloadState(msg, Error);
        return;
      }
      var firstErr := DownloadPackages(msg.packages, ok);
      if firstErr.Some? {
        UpdateDownloadState(msg, Error);
        return;
      }
      UpdateDownloadState(msg, Downloaded);
      match msg.requestType
      case Metadata => Publish(MetadataMsg(msg.query, msg.packages));
      case Cfdi => Publish(XmlMsg(msg.query, msg.packages));
      case OtherRequest(_) =>
    }

    method DownloadPackages(packages: seq<PackageId>, ok: seq<bool>) returns (firstErr: Option<nat>)
      requires |ok| == |packages|
      modifies this`blobs
      ensures firstErr.None? <==> AllTrue(ok)
      ensures firstErr.Some? ==> firstErr.value < |ok| && !ok[firstErr.value]
      ensures blobs == old(blobs) + Fetched(packages, ok)
    {
      firstErr := None;
      var pending := Indices(|packages|);
      while pending != {}
        invariant pending <= Indices(|packages|)
        invariant forall i :: 0 <= i < |ok| && i !in pending && !ok[i] ==> firstErr.Some?
        invariant firstErr.Some? ==> firstErr.value < |ok| && !ok[firstErr.value]
        invariant blobs == old(blobs) + set i | 0 <= i < |packages| && i !in pending && ok[i] :: packages[i]
        decreases pending
      {
        var i :| i in pending;
        pending := pending - {i};
        if ok[i] {
          blobs := blobs + {packages[i]};
        } else if firstErr.None? {
          firstErr := Some(i);
        }
      }
    }

    /** `updateDownloadState` */
    method UpdateDownloadState(msg: Msg, state: QueryState)
      requires msg.DownloadMsg?
      modifies this`rows
      ensures Moved(old(rows), rows, msg.query, state, Some(msg.cfdisQty), Some(msg.packages))
      ensures rows == Write(old(rows), Pipeline.UpdateDownloadState(msg, state))
    {
      if msg.query in rows {
        rows := rows[msg.query := rows[msg.query].(state := state, cfdisQty := Some(msg.cfdisQty), packages := msg.packages)];
      }
    }

    // ------------------------------------------------------------ process

    /** The message's packages, or the row's if it names none. */
    method LoadPackages(msg: Msg) returns (packages: seq<PackageId>)
      requires msg.Process()
      ensures msg.packages != [] || msg.query !in rows ==> packages == msg.packages
      ensures msg.packages == [] && msg.query in rows ==> packages == rows[msg.query].packages
      ensures packages == PackagesToProcess(rows, msg)
    {
      packages := msg.packages;
      if |packages| == 0 && msg.query in rows && |rows[msg.query].packages| > 0 {
        packages := rows[msg.query].packages;
      }
    }

    method MarkProcessed(q: QueryId)
      modifies this`rows
      ensures Moved(old(rows), rows, q, Processed, None, None)
      ensures rows == Write(old(rows), SetState(q, Processed, None, None))
    {
      if q in rows {
        rows := rows[q := rows[q].(state := Processed)];
      }
    }

    /** `ProcessMetadata.Handle`: without the company's RFC the message is abandoned. */
    method HandleMetadata(msg: Msg, rfcKnown: bool, files: map<PackageId, MetadataFile>, norm: string -> string)
      returns (outcome: AckOutcome)
      requires msg.MetadataMsg?
      modifies this`rows, this`sent, db`cfdi, db`payments, db`relations
      ensures outcome.AckComplete? <==> rfcKnown
      ensures outcome.AckComplete? ==> Moved(old(rows), rows, msg.query, Processed, None, None)
                                       && sent == old(sent) + [CompleteCfdisMsg]
      ensures outcome.AckComplete? ==>
                CarriedOut(old(rows), old(sent), ProcessPlan(msg, PackagesToProcess(old(rows), msg)))
      ensures outcome.AckAbandon? ==> rows == old(rows) && sent == old(sent)
      ensures var records := if rfcKnown then MetadataOf(PackagesToProcess(old(rows), msg), files, norm) else [];
              && db.cfdi == Ledger.ExecAll(old(db.cfdi), Ledger.Records(records), db.company)
              && db.PaymentTables() == Payments.Cancel(old(db.PaymentTables()), CancelledIn(records))
    {
      var packages := LoadPackages(msg);
      if !rfcKnown {
        CancelNothing(db.PaymentTables());
        return AckAbandon;
      }
      ImportMetadata(packages, files, norm);
      ShortPlans(rows);
      CarryOutImports(rows, packages, FinishPlan(msg));
      assert FinishPlan(msg) == [SetState(msg.query, Processed, None, None), Pipeline.Publish(CompleteCfdisMsg), Ack];
      MarkProcessed(msg.query);
      Publish(CompleteCfdisMsg);
      outcome := AckComplete;
    }

    method ImportMetadata(packages: seq<PackageId>, files: map<PackageId, MetadataFile>, norm: string -> string)
      modifies db`cfdi, db`payments, db`relations
      ensures db.cfdi == Ledger.ExecAll(old(db.cfdi), Ledger.Records(MetadataOf(packages, files, norm)), db.company)
      ensures db.PaymentTables() == Payments.Cancel(old(db.PaymentTables()), CancelledIn(MetadataOf(packages, files, norm)))
    {
      ghost var (c0, t0) := (db.cfdi, db.PaymentTables());
      CancelNothing(t0);
      for i := 0 to |packages|
        invariant db.cfdi == Ledger.ExecAll(c0, Ledger.Records(MetadataOf(packages[..i], files, norm)), db.company)
        invariant db.PaymentTables() == Payments.Cancel(t0, CancelledIn(MetadataOf(packages[..i], files, norm)))
      {
        assert packages[..i + 1][..i] == packages[..i];
        if packages[i] in files {
          ghost var (a, b) := (MetadataOf(packages[..i], files, norm), MetadataJoiner.Parsed(files[packages[i]], norm));
          UpsertsConcat(c0, a, b, db.company);
          CancelTwice(t0, CancelledIn(a), CancelledIn(b));
          db.ProcessMetadataFile(files[packages[i]], norm);
        }
      }
      assert packages[..|packages|] == packages;
    }

    /** `ProcessXML.Handle` */
    method HandleXml(msg: Msg, rfcKnown: bool, zips: map<PackageId, seq<XmlFile>>, norm: string -> string)
      returns (outcome: AckOutcome)
      requires msg.XmlMsg?
      modifies this`rows, db`cfdi, db`payments, db`relations, db`prCount
      ensures outcome.AckComplete? <==> rfcKnown
      ensures outcome.AckComplete? ==> Moved(old(rows), rows, msg.query, Processed, None, None)
      ensures outcome.AckComplete? ==>
                CarriedOut(old(rows), old(sent), ProcessPlan(msg, PackagesToProcess(old(rows), msg)))
      ensures outcome.AckAbandon? ==> rows == old(rows)
      ensures var files := if rfcKnown then DocumentsOf(PackagesToProcess(old(rows), msg), zips) else [];
              && db.cfdi == Ledger.ExecAll(old(db.cfdi), XmlOps(files), db.company)
              && db.PaymentTables() == Payments.Run(old(db.PaymentTables()), ImportOps(files), norm)
    {
      var packages := LoadPackages(msg);
      if !rfcKnown {
        return AckAbandon;
      }
      ImportXmls(packages, zips, norm);
      ShortPlans(rows);
      CarryOutImports(rows, packages, FinishPlan(msg));
      assert FinishPlan(msg) == [SetState(msg.query, Processed, None, None), Ack];
      MarkProcessed(msg.query);
      outcome := AckComplete;
    }

    method ImportXmls(packages: seq<PackageId>, zips: map<PackageId, seq<XmlFile>>, norm: string -> string)
      modifies db`cfdi, db`payments, db`relations, db`prCount
      ensures db.cfdi == Ledger.ExecAll(old(db.cfdi), XmlOps(DocumentsOf(packages, zips)), db.company)
      ensures db.PaymentTables() == Payments.Run(old(db.PaymentTables()), ImportOps(DocumentsOf(packages, zips)), norm)
    {
      ghost var (c0, t0) := (db.cfdi, db.PaymentTables());
      for i := 0 to |packages|
        invariant db.cfdi == Ledger.ExecAll(c0, XmlOps(DocumentsOf(packages[..i], zips)), db.company)
        invariant db.PaymentTables() == Payments.Run(t0, ImportOps(DocumentsOf(packages[..i], zips)), norm)
      {
        assert packages[..i + 1][..i] == packages[..i];
        if packages[i] in zips {
          MoreXmlOps(c0, DocumentsOf(packages[..i], zips), FirstFiles(zips[packages[i]], {}), db.company);
          MoreImports(t0, DocumentsOf(packages[..i], zips), FirstFiles(zips[packages[i]], {}), norm);
          db.ProcessPackageXmls(zips[packages[i]], norm);
        }
      }
      assert packages[..|packages|] == packages;
    }

    // ------------------------------------------------------------ manual re-verification

    /** `publishReverifications`, for the rows created lately: those that wait for SAT or ran out of time. */
    method PublishReverifications(recent: seq<QueryId>, now: int) returns (count: nat, ghost selected: seq<QueryId>)
      requires forall q :: q in recent ==> q in rows
      modifies this`sent
      ensures forall q :: q in selected <==>
                q in recent && (rows[q].state == Sent || rows[q].state == QueryState.TimeLimitReached)
      ensures forall q :: q in selected ==> multiset(selected)[q] == multiset(recent)[q]
      ensures count == |selected| && |sent| == |old(sent)| + |selected| && sent[..|old(sent)|] == old(sent)
      ensures forall i :: 0 <= i < |selected| ==>
                sent[|old(sent)| + i]
                  == VerifyMsg(selected[i], rows[selected[i]].requestType, rows[selected[i]].sentDate, now)
      ensures sent == old(sent) + Reverifications(rows, selected, now)
    {
      count, selected := 0, [];
      for i := 0 to |recent|
        invariant forall q :: q in selected <==> q in recent[..i] && rows[q].state.Reverifiable()
        invariant forall q :: q in selected ==> multiset(selected)[q] == multiset(recent[..i])[q]
        invariant count == |selected| && sent == old(sent) + Reverifications(rows, selected, now)
      {
        var q := recent[i];
        assert recent[..i + 1] == recent[..i] + [q];
        if rows[q].state.Reverifiable() {
          Publish(VerifyMsg(q, rows[q].requestType, rows[q].sentDate, now));
          assert (selected + [q])[..|selected|] == selected;
          count, selected := count + 1, selected + [q];
        }
      }
      assert recent[..|recent|] == recent;
      ReverificationsExactly(rows, selected, now);
    }
  }
}
