/** The `cfdi` table as a replica fed by metadata files and XML documents in any order. */
module Ledger {
  import opened MetadataJoiner

  type Uuid = string
  type Rfc = string

  /** The primary key within one company. */
  datatype Key = Key(isIssued: bool, uuid: Uuid)

  datatype CfdiRow = CfdiRow(estatus: bool, fechaCancelacion: string, fromXml: bool)

  type Table = map<Key, CfdiRow>

  /** One write to the table: a metadata record, or an XML document. The two statements a
      document takes, an update and, if that touched no row, an insert, also occur apart. */
  datatype Op =
    | Meta(rec: Record)
    | Xml(uuid: Uuid, emisor: Rfc)
    | XmlUpdate(uuid: Uuid)
    | XmlInsert(uuid: Uuid, emisor: Rfc)
  {
    /** A metadata record that reports the CFDI as no longer in force. */
    predicate Cancels(u: Uuid) {
      Meta? && rec.uuid == u && rec.estatus != "Vigente" && rec.estatus != "1" && rec.estatus != "t"
    }

    /** A write that leaves a row for the CFDI behind. */
    predicate Mentions(u: Uuid) {
      (Meta? && rec.uuid == u) || ((Xml? || XmlInsert?) && uuid == u)
    }

    predicate IsXmlOf(u: Uuid) {
      !Meta? && uuid == u
    }

    /** Everybody agrees on who issued each CFDI. */
    predicate Consistent(issuer: Uuid -> Rfc) {
      (Meta? ==> rec.rfcEmisor == issuer(rec.uuid)) && (Xml? || XmlInsert? ==> emisor == issuer(uuid))
    }
  }

  predicate Vigente(estatus: string) {
    estatus == "Vigente" || estatus == "1" || estatus == "t"
  }

  /** `INSERT … ON CONFLICT DO UPDATE … WHERE cfdi."Estatus" AND NOT EXCLUDED."Estatus"` for one record. */
  function Upsert(t: Table, rec: Record, company: Rfc): Table {
    var k := Key(rec.rfcEmisor == company, rec.uuid);
    var estatus := Vigente(rec.estatus);
    if k !in t then t[k := CfdiRow(estatus, rec.fechaCancelacion, false)]
    else if t[k].estatus && !estatus then t[k := t[k].(estatus := false, fechaCancelacion := rec.fechaCancelacion)]
    else t
  }

  predicate HasUuid(t: Table, u: Uuid) {
    Key(true, u) in t || Key(false, u) in t
  }

  /** The update goes by UUID alone, whoever issued the CFDI. */
  function MarkFromXml(t: Table, u: Uuid): Table {
    map k | k in t :: if k.uuid == u then t[k].(fromXml := true) else t[k]
  }

  function InsertFromXml(t: Table, u: Uuid, emisor: Rfc, company: Rfc): Table {
    var k := Key(emisor == company, u);
    if k in t then t else t[k := CfdiRow(true, "", true)]
  }

  function Exec(t: Table, op: Op, company: Rfc): Table {
    match op
    case Meta(rec) => Upsert(t, rec, company)
    case Xml(u, emisor) => if HasUuid(t, u) then MarkFromXml(t, u) else InsertFromXml(t, u, emisor, company)
    case XmlUpdate(u) => MarkFromXml(t, u)
    case XmlInsert(u, emisor) => InsertFromXml(t, u, emisor, company)
  }

  function ExecAll(t: Table, ops: seq<Op>, company: Rfc): Table {
    if ops == [] then t else Exec(ExecAll(t, ops[..|ops| - 1], company), ops[|ops| - 1], company)
  }

  function Records(rs: seq<Record>): (ops: seq<Op>)
    ensures |ops| == |rs| && forall i :: 0 <= i < |rs| ==> ops[i] == Meta(rs[i])
  {
    seq(|rs|, i requires 0 <= i < |rs| => Meta(rs[i]))
  }

  lemma {:induction false} ExecAllConcat(t: Table, a: seq<Op>, b: seq<Op>, company: Rfc)
    ensures ExecAll(t, a + b, company) == ExecAll(ExecAll(t, a, company), b, company)
  {
    if b == [] {
      assert a + b == a;
    } else {
      ExecAllConcat(t, a, b[..|b| - 1], company);
      assert (a + b)[..|a + b| - 1] == a + b[..|b| - 1];
    }
  }

  ghost predicate AllConsistent(ops: seq<Op>, issuer: Uuid -> Rfc) {
    forall op :: op in ops ==> op.Consistent(issuer)
  }

  function KeyOf(u: Uuid, issuer: Uuid -> Rfc, company: Rfc): Key {
    Key(issuer(u) == company, u)
  }

  ghost predicate Mentioned(ops: seq<Op>, u: Uuid) {
    exists op :: op in ops && op.Mentions(u)
  }

  ghost predicate Cancelled(ops: seq<Op>, u: Uuid) {
    exists op :: op in ops && op.Cancels(u)
  }

  ghost predicate SeenAsXml(ops: seq<Op>, u: Uuid) {
    exists op :: op in ops && op.Xml? && op.uuid == u
  }

  /** The last write of a history, and the writes before it. */
  lemma LastOp(ops: seq<Op>, u: Uuid)
    requires ops != []
    ensures var (init, last) := (ops[..|ops| - 1], ops[|ops| - 1]);
            && (Mentioned(ops, u) <==> Mentioned(init, u) || last.Mentions(u))
            && (Cancelled(ops, u) <==> Cancelled(init, u) || last.Cancels(u))
            && (SeenAsXml(ops, u) <==> SeenAsXml(init, u) || (last.Xml? && last.uuid == u))
  {
    var init, last := ops[..|ops| - 1], ops[|ops| - 1];
    assert forall op :: op in ops <==> op in init || op == last;
  }

  /** Presence and status converge whatever the order, the repetition and the interleaving of
      single statements: a CFDI is in the table exactly if some write mentioned it, and is in
      force exactly if no record ever reported it cancelled. */
  lemma {:induction false} StatusConverges(ops: seq<Op>, issuer: Uuid -> Rfc, company: Rfc, u: Uuid)
    requires AllConsistent(ops, issuer)
    ensures var t, k := ExecAll(map[], ops, company), KeyOf(u, issuer, company);
            && (k in t <==> Mentioned(ops, u))
            && (k in t ==> (t[k].estatus <==> !Cancelled(ops, u)))
            && Key(!k.isIssued, u) !in t
    decreases |ops|
  {
    if ops != [] {
      StatusConverges(ops[..|ops| - 1], issuer, company, u);
      LastOp(ops, u);
      var last := ops[|ops| - 1];
      assert last in ops && last.Consistent(issuer);
      assert Cancelled(ops[..|ops| - 1], u) ==> Mentioned(ops[..|ops| - 1], u);
    }
  }

  /** Write `i` is the first to report the CFDI cancelled. */
  ghost predicate FirstCancels(ops: seq<Op>, u: Uuid, i: nat)
    requires i < |ops|
  {
    ops[i].Cancels(u) && !Cancelled(ops[..i], u)
  }

  /** No write reports the CFDI cancelled, and write `i` is the first to mention it. */
  ghost predicate BroughtInForce(ops: seq<Op>, u: Uuid, i: nat)
    requires i < |ops|
  {
    !Cancelled(ops, u) && ops[i].Mentions(u) && !Mentioned(ops[..i], u)
  }

  ghost predicate DateSet(ops: seq<Op>, issuer: Uuid -> Rfc, company: Rfc, u: Uuid, i: nat)
    requires i < |ops|
  {
    var (t, k) := (ExecAll(map[], ops, company), KeyOf(u, issuer, company));
    && (FirstCancels(ops, u, i) ==> k in t && t[k].fechaCancelacion == ops[i].rec.fechaCancelacion)
    && (BroughtInForce(ops, u, i) ==>
          k in t && t[k].fechaCancelacion == if ops[i].Meta? then ops[i].rec.fechaCancelacion else "")
  }

  /** Which cancellation date a CFDI is left with, under any interleaving of statements: that of the first
      record to report it cancelled; if none does, that of the record that brought it there, or none if
      a document did. */
  lemma {:induction false} DateExact(ops: seq<Op>, issuer: Uuid -> Rfc, company: Rfc, u: Uuid, i: nat)
    requires AllConsistent(ops, issuer) && i < |ops|
    ensures DateSet(ops, issuer, company, u, i)
    decreases |ops|
  {
    if i < |ops| - 1 {
      DateExact(ops[..|ops| - 1], issuer, company, u, i);
      DateStays(ops, issuer, company, u, i);
    } else {
      DateArrives(ops, issuer, company, u);
    }
  }

  /** The last write is the one. */
  lemma DateArrives(ops: seq<Op>, issuer: Uuid -> Rfc, company: Rfc, u: Uuid)
    requires AllConsistent(ops, issuer) && ops != []
    ensures DateSet(ops, issuer, company, u, |ops| - 1)
  {
    var init, last := ops[..|ops| - 1], ops[|ops| - 1];
    assert last in ops && last.Consistent(issuer);
    StatusConverges(init, issuer, company, u);
    LastOp(ops, u);
    assert Cancelled(init, u) ==> Mentioned(init, u);
  }

  /** An earlier one was, and the last write leaves the date alone. */
  lemma DateStays(ops: seq<Op>, issuer: Uuid -> Rfc, company: Rfc, u: Uuid, i: nat)
    requires AllConsistent(ops, issuer) && i < |ops| - 1 && DateSet(ops[..|ops| - 1], issuer, company, u, i)
    ensures DateSet(ops, issuer, company, u, i)
  {
    var init, last := ops[..|ops| - 1], ops[|ops| - 1];
    assert last in ops && last.Consistent(issuer);
    StatusConverges(init, issuer, company, u);
    LastOp(ops, u);
    assert ops[..i] == init[..i] && init[i] in init;
  }


  /** Write `i` sets the XML flag of CFDI `u`: it is an update of a CFDI mentioned before, an insert
      of one that was not, or a document that is both. */
  ghost predicate Marks(ops: seq<Op>, u: Uuid, i: nat)
    requires i < |ops|
  {
    ops[i].IsXmlOf(u) && if Mentioned(ops[..i], u) then !ops[i].XmlInsert? else !ops[i].XmlUpdate?
  }

  ghost predicate Marked(ops: seq<Op>, u: Uuid) {
    exists i :: 0 <= i < |ops| && Marks(ops, u, i)
  }

  lemma LastMark(ops: seq<Op>, u: Uuid)
    requires ops != []
    ensures Marked(ops, u) <==> Marked(ops[..|ops| - 1], u) || Marks(ops, u, |ops| - 1)
  {
    var init := ops[..|ops| - 1];
    forall i | 0 <= i < |init| ensures Marks(init, u, i) <==> Marks(ops, u, i) {
      assert init[..i] == ops[..i];
    }
  }

  /** What becomes of the XML flag under any interleaving of single statements: it is set exactly
      if some update found the CFDI there, or some insert found it missing. */
  lemma {:induction false} FromXmlExact(ops: seq<Op>, issuer: Uuid -> Rfc, company: Rfc, u: Uuid)
    requires AllConsistent(ops, issuer)
    ensures var t, k := ExecAll(map[], ops, company), KeyOf(u, issuer, company);
            k in t ==> (t[k].fromXml <==> Marked(ops, u))
    decreases |ops|
  {
    if ops != [] {
      var init, last := ops[..|ops| - 1], ops[|ops| - 1];
      FromXmlExact(init, issuer, company, u);
      StatusConverges(init, issuer, company, u);
      LastOp(ops, u);
      LastMark(ops, u);
      assert last in ops && last.Consistent(issuer);
      if Marked(init, u) && !Mentioned(init, u) {
        MarkedMentioned(init, u);
      }
    }
  }

  lemma MarkedMentioned(ops: seq<Op>, u: Uuid)
    requires Marked(ops, u)
    ensures Mentioned(ops, u)
  {
    var i :| 0 <= i < |ops| && Marks(ops, u, i);
    if op :| op in ops[..i] && op.Mentions(u) {
      assert op in ops;
    } else {
      assert ops[i].Mentions(u) && ops[i] in ops;
    }
  }

  /** The first write that mentions the CFDI is a metadata record, and of its documents nothing but
      inserts comes after. */
  ghost predicate RecordFirst(ops: seq<Op>, u: Uuid) {
    exists j :: 0 <= j < |ops| && RecordFirstAt(ops, u, j)
  }

  ghost predicate RecordFirstAt(ops: seq<Op>, u: Uuid, j: nat)
    requires j < |ops|
  {
    && ops[j].Meta? && ops[j].rec.uuid == u && !Mentioned(ops[..j], u)
    && forall i :: j < i < |ops| && ops[i].IsXmlOf(u) ==> ops[i].XmlInsert?
  }

  lemma MentionedBy(ops: seq<Op>, u: Uuid, i: nat, j: nat)
    requires i < j <= |ops| && ops[i].Mentions(u)
    ensures Mentioned(ops[..j], u)
  {
    assert ops[..j][i] == ops[i];
  }

  lemma MentionedLater(ops: seq<Op>, u: Uuid, i: nat, j: nat)
    requires i <= j <= |ops| && Mentioned(ops[..i], u)
    ensures Mentioned(ops[..j], u)
  {
    var op :| op in ops[..i] && op.Mentions(u);
    var n :| 0 <= n < i && ops[..i][n] == op;
    MentionedBy(ops, u, n, j);
  }

  /** Where a history first mentions a CFDI. */
  lemma {:induction false} FirstMention(ops: seq<Op>, u: Uuid) returns (j: nat)
    requires Mentioned(ops, u)
    ensures j < |ops| && ops[j].Mentions(u) && !Mentioned(ops[..j], u)
    decreases |ops|
  {
    var init, last := ops[..|ops| - 1], |ops| - 1;
    LastOp(ops, u);
    if Mentioned(init, u) {
      j := FirstMention(init, u);
      assert ops[..j] == init[..j];
    } else {
      j := last;
    }
  }

  /** A CFDI that is in the table lacks the XML flag exactly if a metadata record brought it there and
      no update of a document came after. */
  lemma FlagUnsetExactly(ops: seq<Op>, u: Uuid)
    requires Mentioned(ops, u)
    ensures !Marked(ops, u) <==> RecordFirst(ops, u)
  {
    var j := FirstMention(ops, u);
    assert forall i :: j < i < |ops| ==> ops[..i][j] == ops[j];
    if !Marked(ops, u) {
      assert !Marks(ops, u, j);
      forall i | j < i < |ops| && ops[i].IsXmlOf(u) ensures ops[i].XmlInsert? {
        assert !Marks(ops, u, i) && Mentioned(ops[..i], u);
      }
      assert RecordFirstAt(ops, u, j);
    }
    if RecordFirst(ops, u) {
      NotMarked(ops, u);
    }
  }

  lemma NotMarked(ops: seq<Op>, u: Uuid)
    requires RecordFirst(ops, u)
    ensures !Marked(ops, u)
  {
    var j :| 0 <= j < |ops| && RecordFirstAt(ops, u, j);
    forall i | 0 <= i < |ops| ensures !Marks(ops, u, i) {
      if j < i {
        MentionedBy(ops, u, j, i);
      } else if i < j {
        if Mentioned(ops[..i], u) {
          MentionedLater(ops, u, i, j);
        }
        if ops[i].Mentions(u) {
          MentionedBy(ops, u, i, j);
        }
      }
    }
  }

  /** Every document's insert comes right after its update. */
  ghost predicate Undivided(ops: seq<Op>, u: Uuid) {
    && (forall i :: 0 <= i < |ops| && ops[i] == XmlUpdate(u) ==> InsertAt(ops, u, i + 1))
    && (forall i :: 0 <= i < |ops| && InsertAt(ops, u, i) ==> i > 0 && ops[i - 1] == XmlUpdate(u))
  }

  ghost predicate InsertAt(ops: seq<Op>, u: Uuid, i: int) {
    0 <= i < |ops| && ops[i].XmlInsert? && ops[i].uuid == u
  }

  /** With the two statements of a document undivided, a CFDI lacks the flag exactly if there was no
      document of it. */
  lemma UndividedFlag(ops: seq<Op>, u: Uuid)
    requires Undivided(ops, u) && Mentioned(ops, u) && forall op :: op in ops ==> !op.Xml?
    ensures RecordFirst(ops, u) <==> XmlUpdate(u) !in ops
  {
    if XmlUpdate(u) in ops {
      var i :| 0 <= i < |ops| && ops[i] == XmlUpdate(u);
      assert InsertAt(ops, u, i + 1);
      forall j | 0 <= j < |ops| ensures !RecordFirstAt(ops, u, j) {
        if i + 1 < j {
          MentionedBy(ops, u, i + 1, j);
        }
      }
    } else {
      var j := FirstMention(ops, u);
      assert forall i :: 0 <= i < |ops| ==> ops[i] in ops && !InsertAt(ops, u, i);
      assert RecordFirstAt(ops, u, j);
    }
  }

  /** With each document's two statements undivided the flag converges as well: it is set exactly
      if the CFDI was ever seen as XML. */
  lemma FromXmlConverges(ops: seq<Op>, issuer: Uuid -> Rfc, company: Rfc, u: Uuid)
    requires AllConsistent(ops, issuer)
    requires forall op :: op in ops ==> op.Meta? || op.Xml?
    ensures var t, k := ExecAll(map[], ops, company), KeyOf(u, issuer, company);
            k in t ==> (t[k].fromXml <==> SeenAsXml(ops, u))
  {
    FromXmlExact(ops, issuer, company, u);
    if op :| op in ops && op.Xml? && op.uuid == u {
      var i :| 0 <= i < |ops| && ops[i] == op;
      assert Marks(ops, u, i);
    }
    if i :| 0 <= i < |ops| && Marks(ops, u, i) {
      assert ops[i] in ops;
    }
  }

  ghost predicate SameFlags(t: Table, t': Table, k: Key) {
    (k in t <==> k in t') && (k in t ==> t[k].estatus == t'[k].estatus && t[k].fromXml == t'[k].fromXml)
  }

  /** Convergence: two histories made of the same writes, in whatever order and however often
      each, leave the same rows with the same status and XML flag. */
  lemma Convergence(ops: seq<Op>, ops': seq<Op>, issuer: Uuid -> Rfc, company: Rfc, k: Key)
    requires AllConsistent(ops, issuer) && AllConsistent(ops', issuer)
    requires forall op :: op in ops ==> op.Meta? || op.Xml?
    requires forall op :: op in ops <==> op in ops'
    ensures SameFlags(ExecAll(map[], ops, company), ExecAll(map[], ops', company), k)
  {
    StatusConverges(ops, issuer, company, k.uuid);
    StatusConverges(ops', issuer, company, k.uuid);
    FromXmlConverges(ops, issuer, company, k.uuid);
    FromXmlConverges(ops', issuer, company, k.uuid);
  }

  /** A write already made changes nothing when it is made again. */
  lemma Absorbed(ops: seq<Op>, op: Op, issuer: Uuid -> Rfc, company: Rfc)
    requires AllConsistent(ops, issuer) && op in ops
    requires forall o :: o in ops ==> o.Meta? || o.Xml?
    ensures Exec(ExecAll(map[], ops, company), op, company) == ExecAll(map[], ops, company)
  {
    var u := if op.Meta? then op.rec.uuid else op.uuid;
    StatusConverges(ops, issuer, company, u);
    FromXmlConverges(ops, issuer, company, u);
    assert op.Consistent(issuer) && op.Mentions(u) && Mentioned(ops, u);
    if op.Meta? {
      assert !Vigente(op.rec.estatus) ==> Cancelled(ops, u);
    } else {
      var t, k := ExecAll(map[], ops, company), KeyOf(u, issuer, company);
      assert SeenAsXml(ops, u);
      forall j | j in t && j.uuid == u ensures t[j].fromXml {
        assert j == k || j == Key(!k.isIssued, u);
      }
    }
  }

  /** Redelivery is harmless: replaying any of the writes already made, in any order and any
      number of times, leaves the table exactly as it is, cancellation dates included. */
  lemma {:induction false} ReplaysAbsorbed(ops: seq<Op>, replay: seq<Op>, issuer: Uuid -> Rfc, company: Rfc)
    requires AllConsistent(ops, issuer)
    requires forall op :: op in ops ==> op.Meta? || op.Xml?
    requires forall op :: op in replay ==> op in ops
    ensures ExecAll(map[], ops + replay, company) == ExecAll(map[], ops, company)
    decreases |replay|
  {
    if replay == [] {
      assert ops + replay == ops;
    } else {
      var init, last := replay[..|replay| - 1], replay[|replay| - 1];
      ReplaysAbsorbed(ops, init, issuer, company);
      Absorbed(ops, last, issuer, company);
      ExecLast(map[], ops + init, last, company);
      assert ops + replay == (ops + init) + [last];
    }
  }

  lemma ExecLast(t: Table, ops: seq<Op>, op: Op, company: Rfc)
    ensures ExecAll(t, ops + [op], company) == Exec(ExecAll(t, ops, company), op, company)
  {
    assert (ops + [op])[..|ops|] == ops;
  }

  /** No write ever deletes a row, revives a cancelled CFDI or forgets that its XML was read,
      whether or not the writes agree on issuers. */
  lemma {:induction false} FlagsNeverRevert(t: Table, ops: seq<Op>, company: Rfc, k: Key)
    requires k in t
    ensures var t' := ExecAll(t, ops, company);
            k in t' && (!t[k].estatus ==> !t'[k].estatus) && (t[k].fromXml ==> t'[k].fromXml)
    decreases |ops|
  {
    if ops != [] {
      FlagsNeverRevert(t, ops[..|ops| - 1], company, k);
    }
  }

  /** A metadata record that slips in between a document's update and its insert costs the
      document its flag, until the document is processed again. */
  lemma DividedDocumentLosesFlag(rec: Record, company: Rfc)
    ensures var ops := [XmlUpdate(rec.uuid), Meta(rec), XmlInsert(rec.uuid, rec.rfcEmisor)];
            var k := Key(rec.rfcEmisor == company, rec.uuid);
            && k in ExecAll(map[], ops, company) && !ExecAll(map[], ops, company)[k].fromXml
            && k in ExecAll(map[], ops + [Xml(rec.uuid, rec.rfcEmisor)], company)
            && ExecAll(map[], ops + [Xml(rec.uuid, rec.rfcEmisor)], company)[k].fromXml
  {
    var u, m, i, x := XmlUpdate(rec.uuid), Meta(rec), XmlInsert(rec.uuid, rec.rfcEmisor), Xml(rec.uuid, rec.rfcEmisor);
    ExecTwo(map[], u, m, company);
    assert MarkFromXml(map[], rec.uuid) == map[];
    ExecAllConcat(map[], [u, m], [i], company);
    ExecOne(ExecAll(map[], [u, m], company), i, company);
    assert [u, m] + [i] == [u, m, i];
    ExecAllConcat(map[], [u, m, i], [x], company);
    ExecOne(ExecAll(map[], [u, m, i], company), x, company);
  }

  lemma ExecOne(t: Table, op: Op, company: Rfc)
    ensures ExecAll(t, [op], company) == Exec(t, op, company)
  {
    assert [op][..0] == [];
  }

  lemma ExecTwo(t: Table, op: Op, op': Op, company: Rfc)
    ensures ExecAll(t, [op, op'], company) == Exec(Exec(t, op, company), op', company)
  {
    assert [op, op'][..1] == [op];
    ExecOne(t, op, company);
  }

  /** Documents, each as its two statements. */
  function Halves(docs: seq<Op>): seq<Op>
    requires forall op :: op in docs ==> op.Xml?
  {
    if docs == [] then []
    else
      var last := docs[|docs| - 1];
      Halves(docs[..|docs| - 1]) + [XmlUpdate(last.uuid), XmlInsert(last.uuid, last.emisor)]
  }

  /** Undisturbed, a document's two statements do what the document does. */
  lemma HalvesAgree(ops: seq<Op>, doc: Op, issuer: Uuid -> Rfc, company: Rfc)
    requires AllConsistent(ops, issuer) && doc.Xml? && doc.Consistent(issuer)
    ensures var t := ExecAll(map[], ops, company);
            Exec(Exec(t, XmlUpdate(doc.uuid), company), XmlInsert(doc.uuid, doc.emisor), company) == Exec(t, doc, company)
  {
    var t := ExecAll(map[], ops, company);
    StatusConverges(ops, issuer, company, doc.uuid);
    if !HasUuid(t, doc.uuid) {
      forall k | k in t ensures k.uuid != doc.uuid {
        assert k == Key(k.isIssued, k.uuid);
      }
      assert MarkFromXml(t, doc.uuid) == t;
    }
  }

  lemma {:induction false} HalvesConsistent(docs: seq<Op>, issuer: Uuid -> Rfc)
    requires AllConsistent(docs, issuer) && forall op :: op in docs ==> op.Xml?
    ensures AllConsistent(Halves(docs), issuer)
    decreases |docs|
  {
    if docs != [] {
      var init, last := docs[..|docs| - 1], docs[|docs| - 1];
      HalvesConsistent(init, issuer);
      assert last in docs && last.Consistent(issuer);
      var u, i := XmlUpdate(last.uuid), XmlInsert(last.uuid, last.emisor);
      assert forall op :: op in Halves(docs) ==> op in Halves(init) || op == u || op == i;
    }
  }

  lemma {:induction false} HalvesSame(ops: seq<Op>, docs: seq<Op>, issuer: Uuid -> Rfc, company: Rfc)
    requires AllConsistent(ops, issuer) && AllConsistent(docs, issuer) && forall op :: op in docs ==> op.Xml?
    ensures var t := ExecAll(map[], ops, company);
            ExecAll(t, Halves(docs), company) == ExecAll(t, docs, company)
    decreases |docs|
  {
    if docs != [] {
      var init, doc, t := docs[..|docs| - 1], docs[|docs| - 1], ExecAll(map[], ops, company);
      HalvesSame(ops, init, issuer, company);
      HalvesConsistent(init, issuer);
      ExecAllConcat(map[], ops, Halves(init), company);
      HalvesAgree(ops + Halves(init), doc, issuer, company);
      ExecHalves(t, Halves(init), doc, company);
    }
  }

  lemma ExecHalves(t: Table, ops: seq<Op>, doc: Op, company: Rfc)
    requires doc.Xml?
    ensures ExecAll(t, ops + [XmlUpdate(doc.uuid), XmlInsert(doc.uuid, doc.emisor)], company)
              == Exec(Exec(ExecAll(t, ops, company), XmlUpdate(doc.uuid), company), XmlInsert(doc.uuid, doc.emisor), company)
  {
    var u, i := XmlUpdate(doc.uuid), XmlInsert(doc.uuid, doc.emisor);
    ExecLast(t, ops, u, company);
    ExecLast(t, ops + [u], i, company);
    assert ops + [u, i] == ops + [u] + [i];
  }

  /** If sources disagree on the issuer, the order of arrival shows in the table. */
  lemma IssuersMustAgree(rec: Record, emisor: Rfc, company: Rfc)
    requires rec.rfcEmisor == company && emisor != company
    ensures ExecAll(map[], [Meta(rec), Xml(rec.uuid, emisor)], company).Keys
              != ExecAll(map[], [Xml(rec.uuid, emisor), Meta(rec)], company).Keys
  {
    ExecTwo(map[], Meta(rec), Xml(rec.uuid, emisor), company);
    ExecTwo(map[], Xml(rec.uuid, emisor), Meta(rec), company);
    assert Key(false, rec.uuid) !in ExecAll(map[], [Meta(rec), Xml(rec.uuid, emisor)], company);
    assert Key(false, rec.uuid) in ExecAll(map[], [Xml(rec.uuid, emisor), Meta(rec)], company);
  }
}
