/** The payment tables: what importing a payment document (`insertPayments`) adds and what
    cancelling a CFDI (`cancelRelated`) switches off. */
module Payments {

  type Uuid = string

  /** One related document of a payment; `norm` trims and lower-cases its UUID. */
  datatype Docto = Docto(idDocumento: string, numParcialidad: int, impPagado: real)

  datatype Pago = Pago(monto: real, doctos: seq<Docto>)

  datatype Document = Document(uuid: Uuid, tipoDeComprobante: string, pagos: seq<Pago>)

  /** The identifiers are name-based, so equal exactly when their parts are. */
  datatype PaymentId = PaymentId(origin: Uuid, index: nat)
  datatype RelationId = RelationId(payment: PaymentId, uuidRelated: Uuid, numParcialidad: int)

  datatype PaymentRow = PaymentRow(uuidOrigin: Uuid, monto: real, estatus: bool)
  datatype RelationRow = RelationRow(uuid: Uuid, uuidRelated: Uuid, impPagado: real, estatus: bool)

  datatype Tables = Tables(payments: map<PaymentId, PaymentRow>, relations: map<RelationId, RelationRow>,
                           prCount: map<Uuid, nat>)

  /** `INSERT … ON CONFLICT DO NOTHING`, row by row. */
  function InsertAbsent<K, V>(m: map<K, V>, rows: seq<(K, V)>): map<K, V> {
    if rows == [] then m
    else
      var m' := InsertAbsent(m, rows[..|rows| - 1]);
      var (k, v) := rows[|rows| - 1];
      if k in m' then m' else m'[k := v]
  }

  function PaymentRows(doc: Document, n: nat): (rows: seq<(PaymentId, PaymentRow)>)
    requires n <= |doc.pagos|
    ensures |rows| == n
    ensures forall i :: 0 <= i < n ==>
              rows[i] == (PaymentId(doc.uuid, i), PaymentRow(doc.uuid, doc.pagos[i].monto, true))
  {
    seq(n, i requires 0 <= i < n => (PaymentId(doc.uuid, i), PaymentRow(doc.uuid, doc.pagos[i].monto, true)))
  }

  /** The related documents that name a UUID. */
  function Named(ds: seq<Docto>, norm: string -> string): seq<Docto> {
    if ds == [] then []
    else Named(ds[..|ds| - 1], norm) + (if norm(ds[|ds| - 1].idDocumento) == "" then [] else [ds[|ds| - 1]])
  }

  function ToRow(doc: Document, i: nat, d: Docto, norm: string -> string): (RelationId, RelationRow) {
    (RelationId(PaymentId(doc.uuid, i), norm(d.idDocumento), d.numParcialidad),
     RelationRow(doc.uuid, norm(d.idDocumento), d.impPagado, true))
  }

  /** The rows of related documents `ds` of payment `i`. */
  function RelationRows(doc: Document, i: nat, ds: seq<Docto>, norm: string -> string): (rows: seq<(RelationId, RelationRow)>)
    ensures var ns := Named(ds, norm);
            |rows| == |ns| && forall j :: 0 <= j < |ns| ==> rows[j] == ToRow(doc, i, ns[j], norm)
  {
    var ns := Named(ds, norm);
    seq(|ns|, j requires 0 <= j < |ns| => ToRow(doc, i, ns[j], norm))
  }

  function AllRelationRows(doc: Document, n: nat, norm: string -> string): seq<(RelationId, RelationRow)>
    requires n <= |doc.pagos|
  {
    if n == 0 then []
    else AllRelationRows(doc, n - 1, norm) + RelationRows(doc, n - 1, doc.pagos[n - 1].doctos, norm)
  }

  function Import(t: Tables, doc: Document, norm: string -> string): Tables {
    if doc.tipoDeComprobante != "P" || doc.pagos == [] then t
    else
      var rows := AllRelationRows(doc, |doc.pagos|, norm);
      Tables(InsertAbsent(t.payments, PaymentRows(doc, |doc.pagos|)),
             InsertAbsent(t.relations, rows),
             if |rows| > 0 then t.prCount[doc.uuid := |rows|] else t.prCount)
  }

  function Cancel(t: Tables, uuids: set<Uuid>): Tables {
    t.(payments := map k | k in t.payments ::
                     if t.payments[k].uuidOrigin in uuids then t.payments[k].(estatus := false) else t.payments[k],
       relations := map k | k in t.relations ::
                      if t.relations[k].uuid in uuids then t.relations[k].(estatus := false) else t.relations[k])
  }

  // ------------------------------------------------------------ inserting absent rows

  lemma {:induction false} InsertAbsentMeaning<K, V>(m: map<K, V>, rows: seq<(K, V)>)
    ensures var m' := InsertAbsent(m, rows);
            && (forall k :: k in m' <==> k in m || exists i :: 0 <= i < |rows| && rows[i].0 == k)
            && (forall k :: k in m ==> m'[k] == m[k])
            && (forall k :: k in m' && k !in m ==> exists i :: 0 <= i < |rows| && rows[i] == (k, m'[k]))
    decreases |rows|
  {
    if rows != [] {
      var init := rows[..|rows| - 1];
      InsertAbsentMeaning(m, init);
      var before, m' := InsertAbsent(m, init), InsertAbsent(m, rows);
      forall k | k in m' && k !in m
        ensures exists i :: 0 <= i < |rows| && rows[i] == (k, m'[k])
      {
        if k in before {
          var i :| 0 <= i < |init| && init[i] == (k, before[k]);
          assert rows[i] == (k, m'[k]);
        } else {
          assert rows[|rows| - 1] == (k, m'[k]);
        }
      }
      forall k
        ensures k in m' <==> k in m || exists i :: 0 <= i < |rows| && rows[i].0 == k
      {
        if i :| 0 <= i < |init| && init[i].0 == k {
          assert rows[i].0 == k;
        }
      }
    }
  }

  /** Rows whose keys are all taken change nothing. */
  lemma {:induction false} InsertPresent<K, V>(m: map<K, V>, rows: seq<(K, V)>)
    requires forall i :: 0 <= i < |rows| ==> rows[i].0 in m
    ensures InsertAbsent(m, rows) == m
    decreases |rows|
  {
    if rows != [] {
      InsertPresent(m, rows[..|rows| - 1]);
    }
  }

  lemma InsertTwice<K, V>(m: map<K, V>, rows: seq<(K, V)>)
    ensures InsertAbsent(InsertAbsent(m, rows), rows) == InsertAbsent(m, rows)
  {
    InsertAbsentMeaning(m, rows);
    InsertPresent(InsertAbsent(m, rows), rows);
  }

  // ------------------------------------------------------------ properties of the import

  /** Importing a document again changes nothing. */
  lemma ImportIdempotent(t: Tables, doc: Document, norm: string -> string)
    ensures Import(Import(t, doc, norm), doc, norm) == Import(t, doc, norm)
  {
    if doc.tipoDeComprobante == "P" && doc.pagos != [] {
      InsertTwice(t.payments, PaymentRows(doc, |doc.pagos|));
      InsertTwice(t.relations, AllRelationRows(doc, |doc.pagos|, norm));
    }
  }

  // ------------------------------------------------------------ what an import stores

  lemma {:induction false} NamedExactly(ds: seq<Docto>, norm: string -> string, d: Docto)
    ensures d in Named(ds, norm) <==> d in ds && norm(d.idDocumento) != ""
    decreases |ds|
  {
    if ds != [] {
      NamedExactly(ds[..|ds| - 1], norm, d);
      assert ds == ds[..|ds| - 1] + [ds[|ds| - 1]];
    }
  }

  /** The row is that of a related document of payment `i`, under the identifier made of the payment, the
      UUID it names and its partiality. */
  ghost predicate RowOf(doc: Document, i: nat, norm: string -> string, id: RelationId, row: RelationRow) {
    && i < |doc.pagos|
    && exists d ::
         && d in doc.pagos[i].doctos && norm(d.idDocumento) != ""
         && id == RelationId(PaymentId(doc.uuid, i), norm(d.idDocumento), d.numParcialidad)
         && row == RelationRow(doc.uuid, norm(d.idDocumento), d.impPagado, true)
  }

  lemma PagoRowsExactly(doc: Document, i: nat, norm: string -> string, id: RelationId, row: RelationRow)
    requires i < |doc.pagos|
    ensures (id, row) in RelationRows(doc, i, doc.pagos[i].doctos, norm) <==> RowOf(doc, i, norm, id, row)
  {
    var ds := doc.pagos[i].doctos;
    var ns, rows := Named(ds, norm), RelationRows(doc, i, ds, norm);
    if (id, row) in rows {
      var j :| 0 <= j < |rows| && rows[j] == (id, row);
      NamedExactly(ds, norm, ns[j]);
    }
    if RowOf(doc, i, norm, id, row) {
      var d :| d in ds && norm(d.idDocumento) != ""
               && id == RelationId(PaymentId(doc.uuid, i), norm(d.idDocumento), d.numParcialidad)
               && row == RelationRow(doc.uuid, norm(d.idDocumento), d.impPagado, true);
      NamedExactly(ds, norm, d);
      var j :| 0 <= j < |ns| && ns[j] == d;
      assert rows[j] == (id, row);
    }
  }

  lemma {:induction false} AllRowsExactly(doc: Document, n: nat, norm: string -> string, id: RelationId, row: RelationRow)
    requires n <= |doc.pagos|
    ensures (id, row) in AllRelationRows(doc, n, norm) <==> exists i :: 0 <= i < n && RowOf(doc, i, norm, id, row)
  {
    if n > 0 {
      AllRowsExactly(doc, n - 1, norm, id, row);
      PagoRowsExactly(doc, n - 1, norm, id, row);
      var before, own := AllRelationRows(doc, n - 1, norm), RelationRows(doc, n - 1, doc.pagos[n - 1].doctos, norm);
      assert (id, row) in before + own <==> (id, row) in before || (id, row) in own;
    }
  }

  /** What importing a document adds, and that it changes nothing else: for a payment document a row in
      force for each payment not yet there, with its amount, and one for each related document not yet
      there; for any other document nothing. */
  lemma ImportStores(t: Tables, doc: Document, norm: string -> string)
    ensures doc.tipoDeComprobante != "P" ==> Import(t, doc, norm) == t
    ensures doc.tipoDeComprobante == "P" ==>
            var t' := Import(t, doc, norm);
            && (forall p :: p in t'.payments <==> p in t.payments || (p.origin == doc.uuid && p.index < |doc.pagos|))
            && (forall p :: p in t'.payments ==>
                  t'.payments[p] == if p in t.payments then t.payments[p]
                                    else PaymentRow(doc.uuid, doc.pagos[p.index].monto, true))
  {
    if doc.tipoDeComprobante == "P" && doc.pagos != [] {
      var rows := PaymentRows(doc, |doc.pagos|);
      InsertAbsentMeaning(t.payments, rows);
      forall p: PaymentId
        ensures (exists i :: 0 <= i < |rows| && rows[i].0 == p) <==> p.origin == doc.uuid && p.index < |doc.pagos|
      {
        if p.origin == doc.uuid && p.index < |doc.pagos| {
          assert rows[p.index].0 == p;
        }
      }
    }
  }

  lemma ImportStoresRelations(t: Tables, doc: Document, norm: string -> string, id: RelationId)
    requires doc.tipoDeComprobante == "P"
    ensures var t' := Import(t, doc, norm);
            && (id in t.relations ==> id in t'.relations && t'.relations[id] == t.relations[id])
            && (id !in t.relations && id in t'.relations ==> exists i: nat :: RowOf(doc, i, norm, id, t'.relations[id]))
            && (forall i: nat, row :: RowOf(doc, i, norm, id, row) ==> id in t'.relations)
  {
    if doc.pagos != [] {
      var rows, t' := AllRelationRows(doc, |doc.pagos|, norm), Import(t, doc, norm);
      InsertAbsentMeaning(t.relations, rows);
      if id !in t.relations && id in t'.relations {
        AllRowsExactly(doc, |doc.pagos|, norm, id, t'.relations[id]);
      }
      forall i: nat, row | RowOf(doc, i, norm, id, row) ensures id in t'.relations {
        AllRowsExactly(doc, |doc.pagos|, norm, id, row);
        var j :| 0 <= j < |rows| && rows[j] == (id, row);
        assert rows[j].0 == id;
      }
    }
  }

  datatype Op = Imports(doc: Document) | Cancels(uuids: set<Uuid>)

  function Step(t: Tables, op: Op, norm: string -> string): Tables {
    match op
    case Imports(doc) => Import(t, doc, norm)
    case Cancels(uuids) => Cancel(t, uuids)
  }

  function Run(t: Tables, ops: seq<Op>, norm: string -> string): Tables {
    if ops == [] then t else Step(Run(t, ops[..|ops| - 1], norm), ops[|ops| - 1], norm)
  }

  /** A payment or relation once cancelled stays so under every further import and
      cancellation, and no row is ever deleted. */
  lemma {:induction false} CancelledStaysCancelled(t: Tables, ops: seq<Op>, norm: string -> string)
    ensures var t' := Run(t, ops, norm);
            && (forall p :: p in t.payments ==>
                  p in t'.payments && t'.payments[p].uuidOrigin == t.payments[p].uuidOrigin
                  && (!t.payments[p].estatus ==> !t'.payments[p].estatus))
            && (forall r :: r in t.relations ==>
                  r in t'.relations && t'.relations[r].uuid == t.relations[r].uuid
                  && (!t.relations[r].estatus ==> !t'.relations[r].estatus))
    decreases |ops|
  {
    if ops != [] {
      CancelledStaysCancelled(t, ops[..|ops| - 1], norm);
      var t' := Run(t, ops[..|ops| - 1], norm);
      if ops[|ops| - 1].Imports? {
        var doc := ops[|ops| - 1].doc;
        InsertAbsentMeaning(t'.payments, PaymentRows(doc, |doc.pagos|));
        InsertAbsentMeaning(t'.relations, AllRelationRows(doc, |doc.pagos|, norm));
      }
    }
  }

  /** Cancelling reaches exactly the rows of the cancelled CFDIs, and import after it cannot undo it. */
  lemma CancelThenImport(t: Tables, uuids: set<Uuid>, doc: Document, norm: string -> string)
    ensures var t' := Import(Cancel(t, uuids), doc, norm);
            && (forall p :: p in t.payments ==>
                  p in t'.payments && t'.payments[p].estatus == (t.payments[p].estatus && t.payments[p].uuidOrigin !in uuids))
            && (forall r :: r in t.relations ==>
                  r in t'.relations && t'.relations[r].estatus == (t.relations[r].estatus && t.relations[r].uuid !in uuids))
  {
    var c := Cancel(t, uuids);
    InsertAbsentMeaning(c.payments, PaymentRows(doc, |doc.pagos|));
    InsertAbsentMeaning(c.relations, AllRelationRows(doc, |doc.pagos|, norm));
  }

  // ------------------------------------------------------------ the relation count

  function Ids(rows: seq<(RelationId, RelationRow)>): (ids: set<RelationId>)
    ensures forall k :: k in ids <==> exists i :: 0 <= i < |rows| && rows[i].0 == k
  {
    if rows == [] then {} else Ids(rows[..|rows| - 1]) + {rows[|rows| - 1].0}
  }

  ghost predicate Distinct(rows: seq<(RelationId, RelationRow)>) {
    forall i, j :: 0 <= i < j < |rows| ==> rows[i].0 != rows[j].0
  }

  lemma AppendId(rows: seq<(RelationId, RelationRow)>, row: (RelationId, RelationRow))
    ensures Ids(rows + [row]) == Ids(rows) + {row.0}
    ensures Distinct(rows + [row]) <==> Distinct(rows) && row.0 !in Ids(rows)
  {
    var more := rows + [row];
    assert more[..|more| - 1] == rows;
    assert more[|rows|] == row && forall i :: 0 <= i < |rows| ==> more[i] == rows[i];
    if Distinct(more) {
      forall i, j | 0 <= i < j < |rows| ensures rows[i].0 != rows[j].0 {
        assert more[i].0 != more[j].0;
      }
      forall i | 0 <= i < |rows| ensures rows[i].0 != row.0 {
        assert more[i].0 != more[|rows|].0;
      }
    }
  }

  /** As many identifiers as rows exactly when none repeats. */
  lemma {:induction false} IdCount(rows: seq<(RelationId, RelationRow)>)
    ensures |Ids(rows)| <= |rows|
    ensures |Ids(rows)| == |rows| <==> Distinct(rows)
    decreases |rows|
  {
    if rows != [] {
      var init, last := rows[..|rows| - 1], rows[|rows| - 1];
      IdCount(init);
      assert rows == init + [last];
      IdCountAppend(init, last);
    }
  }

  lemma IdCountAppend(rows: seq<(RelationId, RelationRow)>, row: (RelationId, RelationRow))
    requires |Ids(rows)| <= |rows| && (|Ids(rows)| == |rows| <==> Distinct(rows))
    ensures |Ids(rows + [row])| <= |rows| + 1 && (|Ids(rows + [row])| == |rows| + 1 <==> Distinct(rows + [row]))
  {
    AppendId(rows, row);
    OneIdMore(Ids(rows), row.0);
  }

  lemma OneIdMore(ids: set<RelationId>, id: RelationId)
    ensures |ids + {id}| == if id in ids then |ids| else |ids| + 1
  {
    if id in ids {
      assert ids + {id} == ids;
    }
  }

  /** Rows inserted one after the other, in one go or in two. */
  lemma {:induction false} InsertConcat<K, V>(m: map<K, V>, a: seq<(K, V)>, b: seq<(K, V)>)
    ensures InsertAbsent(m, a + b) == InsertAbsent(InsertAbsent(m, a), b)
    decreases |b|
  {
    if b == [] {
      assert a + b == a;
    } else {
      InsertConcat(m, a, b[..|b| - 1]);
      assert (a + b)[..|a + b| - 1] == a + b[..|b| - 1] && (a + b)[|a + b| - 1] == b[|b| - 1];
    }
  }

  ghost predicate DistinctWithin(ds: seq<Docto>, norm: string -> string) {
    var ns := Named(ds, norm);
    forall j, k :: 0 <= j < k < |ns| ==> !SamePair(ns[j], ns[k], norm)
  }

  predicate SamePair(a: Docto, b: Docto, norm: string -> string) {
    norm(a.idDocumento) == norm(b.idDocumento) && a.numParcialidad == b.numParcialidad
  }

  lemma PagoRowsDistinct(doc: Document, i: nat, ds: seq<Docto>, norm: string -> string)
    ensures Distinct(RelationRows(doc, i, ds, norm)) <==> DistinctWithin(ds, norm)
  {
    var rows, ns := RelationRows(doc, i, ds, norm), Named(ds, norm);
    assert forall j, k :: 0 <= j < k < |ns| ==> (rows[j].0 == rows[k].0 <==> SamePair(ns[j], ns[k], norm));
  }

  ghost predicate Apart(a: seq<(RelationId, RelationRow)>, b: seq<(RelationId, RelationRow)>) {
    forall x, y :: x in a && y in b ==> x.0 != y.0
  }

  lemma JoinDistinct(a: seq<(RelationId, RelationRow)>, b: seq<(RelationId, RelationRow)>)
    requires Apart(a, b)
    ensures Distinct(a + b) <==> Distinct(a) && Distinct(b)
  {
    var c := a + b;
    assert forall i :: 0 <= i < |a| ==> c[i] == a[i] && a[i] in a;
    assert forall i :: 0 <= i < |b| ==> c[|a| + i] == b[i] && b[i] in b;
    if Distinct(c) {
      forall i, j | 0 <= i < j < |b| ensures b[i].0 != b[j].0 {
        assert c[|a| + i].0 != c[|a| + j].0;
      }
      forall i, j | 0 <= i < j < |a| ensures a[i].0 != a[j].0 {
        assert c[i].0 != c[j].0;
      }
    }
  }

  /** Whose payment each row belongs to. */
  lemma {:induction false} RowOwners(doc: Document, n: nat, norm: string -> string)
    requires n <= |doc.pagos|
    ensures forall row :: row in AllRelationRows(doc, n, norm) ==>
              row.0.payment.index < n && row.0.payment.origin == doc.uuid && row.1.uuid == doc.uuid
  {
    if n > 0 {
      RowOwners(doc, n - 1, norm);
    }
  }

  lemma PagosApart(doc: Document, n: nat, norm: string -> string)
    requires n < |doc.pagos|
    ensures Apart(AllRelationRows(doc, n, norm), RelationRows(doc, n, doc.pagos[n].doctos, norm))
  {
    RowOwners(doc, n, norm);
  }

  /** Within each of the first `n` payments, no two related documents share UUID and
      partiality number. */
  ghost predicate DistinctUpTo(doc: Document, n: nat, norm: string -> string)
    requires n <= |doc.pagos|
  {
    forall i :: 0 <= i < n ==> DistinctWithin(doc.pagos[i].doctos, norm)
  }

  lemma {:induction false} AllRowsDistinct(doc: Document, n: nat, norm: string -> string)
    requires n <= |doc.pagos|
    ensures Distinct(AllRelationRows(doc, n, norm)) <==> DistinctUpTo(doc, n, norm)
  {
    if n > 0 {
      var a, b := AllRelationRows(doc, n - 1, norm), RelationRows(doc, n - 1, doc.pagos[n - 1].doctos, norm);
      assert Distinct(a) <==> DistinctUpTo(doc, n - 1, norm) by {
        AllRowsDistinct(doc, n - 1, norm);
      }
      assert Distinct(b) <==> DistinctWithin(doc.pagos[n - 1].doctos, norm) by {
        PagoRowsDistinct(doc, n - 1, doc.pagos[n - 1].doctos, norm);
      }
      assert Distinct(a + b) <==> Distinct(a) && Distinct(b) by {
        PagosApart(doc, n - 1, norm);
        JoinDistinct(a, b);
      }
    }
  }

  /** The relations stored for a CFDI. */
  function StoredFor(t: Tables, u: Uuid): set<RelationId> {
    set r | r in t.relations && t.relations[r].uuid == u
  }

  /** A relation row names the CFDI that its payment belongs to. */
  ghost predicate WellKeyed(t: Tables) {
    forall r :: r in t.relations ==> t.relations[r].uuid == r.payment.origin
  }

  lemma {:induction false} RunWellKeyed(t: Tables, ops: seq<Op>, norm: string -> string)
    requires WellKeyed(t)
    ensures WellKeyed(Run(t, ops, norm))
    decreases |ops|
  {
    if ops != [] {
      RunWellKeyed(t, ops[..|ops| - 1], norm);
      if ops[|ops| - 1].Imports? {
        var doc := ops[|ops| - 1].doc;
        RowOwners(doc, |doc.pagos|, norm);
        InsertAbsentMeaning(Run(t, ops[..|ops| - 1], norm).relations, AllRelationRows(doc, |doc.pagos|, norm));
      }
    }
  }

  /** After an import the CFDI has the relations it had and those the document names, and `pr_count`
      is the number of related documents named; that many are distinct exactly when the pairs of
      related UUID and partiality number are distinct within each payment. */
  lemma PrCountExact(t: Tables, doc: Document, norm: string -> string)
    requires doc.tipoDeComprobante == "P" && AllRelationRows(doc, |doc.pagos|, norm) != [] && WellKeyed(t)
    ensures var (t', named) := (Import(t, doc, norm), Ids(AllRelationRows(doc, |doc.pagos|, norm)));
            && StoredFor(t', doc.uuid) == StoredFor(t, doc.uuid) + named
            && doc.uuid in t'.prCount && |named| <= t'.prCount[doc.uuid]
            && (|named| == t'.prCount[doc.uuid] <==> DistinctUpTo(doc, |doc.pagos|, norm))
  {
    var rows := AllRelationRows(doc, |doc.pagos|, norm);
    assert doc.pagos != [];
    AllRowsDistinct(doc, |doc.pagos|, norm);
    IdCount(rows);
    StoredAfterImport(t, doc, norm);
  }

  /** All imports of a CFDI are of the same document. */
  ghost predicate OneDocument(ops: seq<Op>, doc: Document) {
    forall op :: op in ops && op.Imports? && op.doc.uuid == doc.uuid ==> op.doc == doc
  }

  /** The relations stored for a document's CFDI are its own, all of them once it was imported, and
      `pr_count` is then their number as the document states it. */
  ghost predicate Accounted(t: Tables, doc: Document, norm: string -> string, imported: bool) {
    var rows := AllRelationRows(doc, |doc.pagos|, norm);
    && StoredFor(t, doc.uuid) <= Ids(rows)
    && (imported ==> StoredFor(t, doc.uuid) == Ids(rows) && doc.uuid in t.prCount && t.prCount[doc.uuid] == |rows|)
  }

  lemma {:induction false} StoredOverRun(ops: seq<Op>, doc: Document, norm: string -> string)
    requires OneDocument(ops, doc) && doc.tipoDeComprobante == "P" && AllRelationRows(doc, |doc.pagos|, norm) != []
    ensures Accounted(Run(Tables(map[], map[], map[]), ops, norm), doc, norm, Imports(doc) in ops)
    ensures WellKeyed(Run(Tables(map[], map[], map[]), ops, norm))
    decreases |ops|
  {
    var none := Tables(map[], map[], map[]);
    RunWellKeyed(none, ops, norm);
    if ops != [] {
      var init, last := ops[..|ops| - 1], ops[|ops| - 1];
      assert ops == init + [last];
      StoredOverRun(init, doc, norm);
      var t := Run(none, init, norm);
      if last == Imports(doc) {
        OwnImport(t, doc, norm, Imports(doc) in init);
      } else if last.Imports? {
        OtherImport(t, last.doc, doc, norm, Imports(doc) in init);
      } else {
        assert StoredFor(Cancel(t, last.uuids), doc.uuid) == StoredFor(t, doc.uuid);
      }
    }
  }

  lemma OwnImport(t: Tables, doc: Document, norm: string -> string, before: bool)
    requires WellKeyed(t) && Accounted(t, doc, norm, before)
    requires doc.tipoDeComprobante == "P" && AllRelationRows(doc, |doc.pagos|, norm) != []
    ensures Accounted(Import(t, doc, norm), doc, norm, true)
  {
    assert doc.pagos != [];
    StoredAfterImport(t, doc, norm);
  }

  lemma OtherImport(t: Tables, other: Document, doc: Document, norm: string -> string, before: bool)
    requires other.uuid != doc.uuid && Accounted(t, doc, norm, before)
    ensures Accounted(Import(t, other, norm), doc, norm, before)
  {
    var t' := Import(t, other, norm);
    RowOwners(other, |other.pagos|, norm);
    InsertAbsentMeaning(t.relations, AllRelationRows(other, |other.pagos|, norm));
    assert StoredFor(t', doc.uuid) == StoredFor(t, doc.uuid);
  }

  /** Over any run of imports and cancellations, a payment document imported at least once has its
      `pr_count` equal to its stored relations exactly when the pairs of related UUID and partiality
      number are distinct within each of its payments. */
  lemma PrCountOverRun(ops: seq<Op>, doc: Document, norm: string -> string)
    requires OneDocument(ops, doc) && Imports(doc) in ops && doc.tipoDeComprobante == "P"
    requires AllRelationRows(doc, |doc.pagos|, norm) != []
    ensures var t := Run(Tables(map[], map[], map[]), ops, norm);
            && doc.uuid in t.prCount && |StoredFor(t, doc.uuid)| <= t.prCount[doc.uuid]
            && (|StoredFor(t, doc.uuid)| == t.prCount[doc.uuid] <==> DistinctUpTo(doc, |doc.pagos|, norm))
  {
    StoredOverRun(ops, doc, norm);
    AllRowsDistinct(doc, |doc.pagos|, norm);
    IdCount(AllRelationRows(doc, |doc.pagos|, norm));
  }

  lemma StoredAfterImport(t: Tables, doc: Document, norm: string -> string)
    requires doc.tipoDeComprobante == "P" && doc.pagos != [] && WellKeyed(t)
    ensures StoredFor(Import(t, doc, norm), doc.uuid)
              == StoredFor(t, doc.uuid) + Ids(AllRelationRows(doc, |doc.pagos|, norm))
  {
    var rows := AllRelationRows(doc, |doc.pagos|, norm);
    var t' := Import(t, doc, norm);
    RowOwners(doc, |doc.pagos|, norm);
    InsertAbsentMeaning(t.relations, rows);
    forall r ensures r in StoredFor(t', doc.uuid) <==> r in StoredFor(t, doc.uuid) || r in Ids(rows) {
      if r in t.relations {
        assert t'.relations[r] == t.relations[r];
      }
    }
  }

  /** A payment that names the same document and partiality twice. */
  const REPEATED_PAIR := Document("c", "P", [Pago(2.0, [Docto("r", 1, 1.0), Docto("r", 1, 1.0)])])

  /** Its two rows are the same. */
  lemma RepeatedRows(norm: string -> string) returns (row: (RelationId, RelationRow))
    requires norm("r") == "r"
    ensures AllRelationRows(REPEATED_PAIR, 1, norm) == [row, row] && row.0.payment.origin == "c"
  {
    var d := Docto("r", 1, 1.0);
    assert [d, d][..1] == [d] && [d][..0] == [];
    assert Named([d], norm) == [d] && Named([d, d], norm) == [d, d];
    row := ToRow(REPEATED_PAIR, 0, d, norm);
    assert RelationRows(REPEATED_PAIR, 0, [d, d], norm) == [row, row];
    assert AllRelationRows(REPEATED_PAIR, 0, norm) == [];
    assert [] + [row, row] == [row, row];
  }

  /** Imported, it has a `pr_count` of two and one relation. */
  lemma RepeatedPairCountsTwice(norm: string -> string)
    requires norm("r") == "r"
    ensures var t := Import(Tables(map[], map[], map[]), REPEATED_PAIR, norm);
            "c" in t.prCount && t.prCount["c"] == 2 && |StoredFor(t, "c")| == 1
  {
    var row := RepeatedRows(norm);
    var t := Import(Tables(map[], map[], map[]), REPEATED_PAIR, norm);
    StoredAfterImport(Tables(map[], map[], map[]), REPEATED_PAIR, norm);
    assert Ids([row, row]) == {row.0};
    assert StoredFor(t, "c") == {row.0};
  }
}
