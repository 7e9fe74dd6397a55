/** The tables of one company and the statements that change them. */
module TenantTables {
  import opened MetadataJoiner
  import opened Ledger
  import opened Payments

  const BATCH_SIZE := 500

  /** The CFDIs some record reports as no longer in force. */
  function CancelledIn(rs: seq<Record>): set<string> {
    set r | r in rs && r.estatus != "Vigente" && r.estatus != "1" && r.estatus != "t" :: r.uuid
  }

  lemma CancelNothing(t: Tables)
    ensures Cancel(t, {}) == t
  {
  }

  lemma UpsertsConcat(t: Table, a: seq<Record>, b: seq<Record>, company: Rfc)
    ensures ExecAll(t, Records(a + b), company) == ExecAll(ExecAll(t, Records(a), company), Records(b), company)
    ensures CancelledIn(a + b) == CancelledIn(a) + CancelledIn(b)
  {
    assert Records(a + b) == Records(a) + Records(b);
    ExecAllConcat(t, Records(a), Records(b), company);
  }

  /** One more batch. */
  lemma BatchConcat(t: Table, records: seq<Record>, i: nat, end: nat, company: Rfc)
    requires i <= end <= |records|
    ensures ExecAll(t, Records(records[..end]), company)
              == ExecAll(ExecAll(t, Records(records[..i]), company), Records(records[i..end]), company)
    ensures CancelledIn(records[..end]) == CancelledIn(records[..i]) + CancelledIn(records[i..end])
  {
    var a, b := records[..i], records[i..end];
    UpsertsConcat(t, a, b, company);
    assert records[..end] == a + b;
  }

  /** A document of a package: what the payment import reads, and who issued it. */
  datatype XmlFile = XmlFile(doc: Document, emisor: Rfc)

  /** The first document of every UUID, leaving out the UUIDs already seen. */
  function FirstFiles(files: seq<XmlFile>, seen: set<string>): seq<XmlFile> {
    if files == [] then []
    else if files[0].doc.uuid in seen then FirstFiles(files[1..], seen)
    else [files[0]] + FirstFiles(files[1..], seen + {files[0].doc.uuid})
  }

  function XmlOps(files: seq<XmlFile>): (ops: seq<Ledger.Op>)
    ensures |ops| == |files| && forall i :: 0 <= i < |files| ==> ops[i] == Xml(files[i].doc.uuid, files[i].emisor)
  {
    seq(|files|, i requires 0 <= i < |files| => Xml(files[i].doc.uuid, files[i].emisor))
  }

  function ImportOps(files: seq<XmlFile>): (ops: seq<Payments.Op>)
    ensures |ops| == |files| && forall i :: 0 <= i < |files| ==> ops[i] == Imports(files[i].doc)
  {
    seq(|files|, i requires 0 <= i < |files| => Imports(files[i].doc))
  }

  /** No UUID is processed twice, and none that was seen before. */
  lemma {:induction false} FilesDistinct(files: seq<XmlFile>, seen: set<string>)
    ensures var kept := FirstFiles(files, seen);
            && (forall f :: f in kept ==> f in files && f.doc.uuid !in seen)
            && (forall i, j :: 0 <= i < j < |kept| ==> kept[i].doc.uuid != kept[j].doc.uuid)
  {
    if files != [] && files[0].doc.uuid in seen {
      FilesDistinct(files[1..], seen);
    } else if files != [] {
      FilesDistinct(files[1..], seen + {files[0].doc.uuid});
      var kept, rest := FirstFiles(files, seen), FirstFiles(files[1..], seen + {files[0].doc.uuid});
      forall i, j | 0 <= i < j < |kept| ensures kept[i].doc.uuid != kept[j].doc.uuid {
        assert kept[j] == rest[j - 1] && rest[j - 1] in rest;
      }
    }
  }

  /** The first file of each new UUID is kept. */
  lemma {:induction false} FirstFileKept(files: seq<XmlFile>, seen: set<string>, k: nat)
    requires k < |files| && files[k].doc.uuid !in seen
    requires forall j :: 0 <= j < k ==> files[j].doc.uuid != files[k].doc.uuid
    ensures files[k] in FirstFiles(files, seen)
  {
    if k > 0 {
      var seen' := if files[0].doc.uuid in seen then seen else seen + {files[0].doc.uuid};
      assert files[0].doc.uuid != files[k].doc.uuid;
      assert files[1..][k - 1] == files[k];
      FirstFileKept(files[1..], seen', k - 1);
    }
  }

  /** Taking the next file of a package into account. */
  lemma NextFile(done: seq<XmlFile>, files: seq<XmlFile>, i: nat, seen: set<string>)
    requires i < |files|
    ensures var u := files[i].doc.uuid;
            done + FirstFiles(files[i..], seen)
            == if u in seen then done + FirstFiles(files[i + 1..], seen)
               else (done + [files[i]]) + FirstFiles(files[i + 1..], seen + {u})
  {
    assert files[i..][1..] == files[i + 1..];
  }

  lemma OneMoreFile(cfdi: Table, t: Tables, done: seq<XmlFile>, f: XmlFile, norm: string -> string, company: Rfc)
    ensures ExecAll(cfdi, XmlOps(done + [f]), company)
         == ExecAll(ExecAll(cfdi, XmlOps(done), company), [Xml(f.doc.uuid, f.emisor)], company)
    ensures Run(t, ImportOps(done + [f]), norm) == Import(Run(t, ImportOps(done), norm), f.doc, norm)
  {
    ExecAllConcat(cfdi, XmlOps(done), [Xml(f.doc.uuid, f.emisor)], company);
    assert XmlOps(done + [f]) == XmlOps(done) + [Xml(f.doc.uuid, f.emisor)];
    var ops := ImportOps(done + [f]);
    assert ops[..|ops| - 1] == ImportOps(done);
  }

  lemma TouchedExactly(t: Table, u: string)
    ensures HasUuid(t, u) <==> exists k :: k in t && k.uuid == u
  {
    if k :| k in t && k.uuid == u {
      assert k == Key(true, u) || k == Key(false, u);
    }
  }

  /** Two of the records fall on one row of the table, which makes the database refuse the statement. */
  ghost predicate KeyTwice(rs: seq<Record>, company: Rfc) {
    exists i, j :: 0 <= i < j < |rs| && SameKey(rs[i], rs[j], company)
  }

  predicate SameKey(a: Record, b: Record, company: Rfc) {
    a.uuid == b.uuid && (a.rfcEmisor == company <==> b.rfcEmisor == company)
  }

  /** The records of the statement that begins with record `i`. */
  function BatchAt(records: seq<Record>, i: nat): seq<Record>
    requires i < |records|
  {
    records[i..if i + 500 > |records| then |records| else i + 500]
  }

  /** No statement before record `i` is refused. */
  ghost predicate AcceptedUpTo(records: seq<Record>, i: nat, company: Rfc)
    requires i <= |records|
  {
    forall j :: 0 <= j < i && j % 500 == 0 ==> !KeyTwice(BatchAt(records, j), company)
  }

  lemma OneMoreAccepted(records: seq<Record>, i: nat, end: nat, company: Rfc)
    requires i < end <= |records| && end <= i + 500 && i % 500 == 0
    requires AcceptedUpTo(records, i, company) && !KeyTwice(BatchAt(records, i), company)
    ensures AcceptedUpTo(records, end, company)
  {
    assert forall j :: i < j < end ==> j % 500 != 0;
  }

  class TenantDb {
    const company: Rfc
    var cfdi: Table
    var payments: map<PaymentId, PaymentRow>
    var relations: map<RelationId, RelationRow>
    var prCount: map<string, nat>

    constructor (company: Rfc)
      ensures this.company == company && cfdi == map[] && PaymentTables() == Tables(map[], map[], map[])
    {
      this.company := company;
      cfdi, payments, relations, prCount := map[], map[], map[], map[];
    }

    function PaymentTables(): Tables
      reads this
    {
      Tables(payments, relations, prCount)
    }

    /** One multi-row upsert. The database refuses a statement that meets a key twice. */
    method UpsertStatement(batch: seq<Record>) returns (ok: bool)
      modifies this`cfdi
      ensures ok <==> !KeyTwice(batch, company)
      ensures cfdi == if ok then ExecAll(old(cfdi), Records(batch), company) else old(cfdi)
    {
      var t := cfdi;
      var keys: set<Key> := {};
      for i := 0 to |batch|
        invariant t == ExecAll(old(cfdi), Records(batch[..i]), company)
        invariant forall k :: k in keys <==> exists j :: 0 <= j < i && k == Key(batch[j].rfcEmisor == company, batch[j].uuid)
        invariant cfdi == old(cfdi) && !KeyTwice(batch[..i], company)
      {
        var rec := batch[i];
        var k := Key(rec.rfcEmisor == company, rec.uuid);
        if k in keys {
          var j :| 0 <= j < i && k == Key(batch[j].rfcEmisor == company, batch[j].uuid);
          assert SameKey(batch[j], batch[i], company);
          return false;
        }
        keys := keys + {k};
        t := Upsert(t, rec, company);
        assert batch[..i + 1] == batch[..i] + [rec];
        assert Records(batch[..i + 1]) == Records(batch[..i]) + [Meta(rec)];
      }
      assert batch[..|batch|] == batch;
      cfdi := t;
      ok := true;
    }

    /** `cancelRelated` */
    method CancelRelated(uuids: set<string>)
      modifies this`payments, this`relations
      ensures PaymentTables() == Cancel(old(PaymentTables()), uuids)
    {
      relations := map k | k in relations ::
        if relations[k].uuid in uuids then relations[k].(estatus := false) else relations[k];
      payments := map k | k in payments ::
        if payments[k].uuidOrigin in uuids then payments[k].(estatus := false) else payments[k];
    }

    /** The CFDIs a batch reports as no longer in force. */
    method Cancellations(batch: seq<Record>) returns (cancelled: set<string>)
      ensures cancelled == CancelledIn(batch)
    {
      cancelled := {};
      for j := 0 to |batch|
        invariant cancelled == CancelledIn(batch[..j])
      {
        assert batch[..j + 1] == batch[..j] + [batch[j]];
        if !Vigente(batch[j].estatus) {
          cancelled := cancelled + {batch[j].uuid};
        }
      }
      assert batch[..|batch|] == batch;
    }

    /** One batch of `upsertMetadataRecords`: what it cancels, and its statement. */
    method UpsertBatch(ghost before: Table, records: seq<Record>, i: nat, end: nat, ghost cancelled: set<string>)
      returns (ok: bool, reported: set<string>)
      requires i < |records| && i % 500 == 0 && end == if i + 500 > |records| then |records| else i + 500
      requires Upserted(before, records[..i], cancelled) && AcceptedUpTo(records, i, company)
      modifies this`cfdi
      ensures ok ==> Upserted(before, records[..end], cancelled + reported) && AcceptedUpTo(records, end, company)
      ensures !ok ==> StoppedAt(before, records, i)
    {
      BatchConcat(before, records, i, end, company);
      reported := Cancellations(records[i..end]);
      ok := UpsertStatement(records[i..end]);
      if ok {
        OneMoreAccepted(records, i, end, company);
      }
    }

    /** The statements of `upsertMetadataRecords`, five hundred records each. A refused one stops
        the file, leaving the ones before it in place. */
    method UpsertBatches(records: seq<Record>) returns (ok: bool, cancelled: set<string>)
      modifies this`cfdi
      ensures ok <==> AcceptedUpTo(records, |records|, company)
      ensures ok ==> cfdi == ExecAll(old(cfdi), Records(records), company) && cancelled == CancelledIn(records)
      ensures !ok ==> StoppedEarly(old(cfdi), records)
    {
      ghost var c0 := cfdi;
      ok, cancelled := true, {};
      var i := 0;
      while i < |records|
        invariant 0 <= i <= |records| && ok && (i % BATCH_SIZE == 0 || i == |records|)
        invariant Upserted(c0, records[..i], cancelled) && AcceptedUpTo(records, i, company)
      {
        var end := if i + BATCH_SIZE > |records| then |records| else i + BATCH_SIZE;
        var reported;
        ok, reported := UpsertBatch(c0, records, i, end, cancelled);
        if !ok {
          assert StoppedAt(c0, records, i);
          return;
        }
        cancelled := cancelled + reported;
        i := end;
      }
      assert records[..|records|] == records;
    }

    ghost predicate Upserted(before: Table, records: seq<Record>, cancelled: set<string>)
      reads this
    {
      cfdi == ExecAll(before, Records(records), company) && cancelled == CancelledIn(records)
    }

    /** The batches before `i` are in the table, the one from `i` on and those behind it are not, as it is
        the first to be refused. */
    ghost predicate StoppedAt(before: Table, records: seq<Record>, i: nat)
      requires i < |records|
      reads this
    {
      && i % 500 == 0 && cfdi == ExecAll(before, Records(records[..i]), company)
      && AcceptedUpTo(records, i, company) && KeyTwice(BatchAt(records, i), company)
    }

    ghost predicate StoppedEarly(before: Table, records: seq<Record>)
      reads this
    {
      exists i :: 0 <= i < |records| && StoppedAt(before, records, i)
    }

    /** `upsertMetadataRecords`: the batches, then the cascade of cancellations. */
    method UpsertMetadataRecords(records: seq<Record>) returns (ok: bool)
      modifies this`cfdi, this`payments, this`relations
      ensures ok <==> AcceptedUpTo(records, |records|, company)
      ensures DistinctUuids(records) ==> ok
      ensures ok ==> cfdi == ExecAll(old(cfdi), Records(records), company)
      ensures !ok ==> StoppedEarly(old(cfdi), records)
      ensures PaymentTables() == if ok then Cancel(old(PaymentTables()), CancelledIn(records)) else old(PaymentTables())
    {
      var cancelled;
      ok, cancelled := UpsertBatches(records);
      if ok {
        if cancelled != {} {
          CancelRelated(cancelled);
        } else {
          CancelNothing(PaymentTables());
        }
      }
    }

    /** One metadata file, from its rows to the tables: no statement is ever refused, because the
        parser keeps one record per UUID. */
    method ProcessMetadataFile(rows: seq<Row>, norm: string -> string)
      modifies this`cfdi, this`payments, this`relations
      ensures cfdi == ExecAll(old(cfdi), Records(Parsed(rows, norm)), company)
      ensures PaymentTables() == Cancel(old(PaymentTables()), CancelledIn(Parsed(rows, norm)))
    {
      var records := ParseMetadataRows(rows, norm);
      ParsedDistinct(rows, norm);
      if |records| == 0 {
        CancelNothing(PaymentTables());
        return;
      }
      var ok := UpsertMetadataRecords(records);
    }

    /** `upsertFromXML`: update by UUID, and insert if that touched no row. */
    method UpsertFromXml(uuid: string, emisor: Rfc)
      modifies this`cfdi
      ensures cfdi == ExecAll(old(cfdi), [Xml(uuid, emisor)], company)
      ensures (exists k :: k in old(cfdi) && k.uuid == uuid) ==>
                && cfdi.Keys == old(cfdi.Keys)
                && forall k :: k in cfdi ==> cfdi[k] == if k.uuid == uuid then old(cfdi)[k].(fromXml := true) else old(cfdi)[k]
      ensures !(exists k :: k in old(cfdi) && k.uuid == uuid) ==>
                cfdi == old(cfdi)[Key(emisor == company, uuid) := CfdiRow(true, "", true)]
    {
      TouchedExactly(cfdi, uuid);
      ExecOne(cfdi, Xml(uuid, emisor), company);
      var touched := HasUuid(cfdi, uuid);
      cfdi := map k | k in cfdi :: if k.uuid == uuid then cfdi[k].(fromXml := true) else cfdi[k];
      if !touched {
        var k := Key(emisor == company, uuid);
        assert cfdi == old(cfdi);
        if k !in cfdi {
          cfdi := cfdi[k := CfdiRow(true, "", true)];
        }
      }
    }

    /** One document: first the `cfdi` table, then the payment tables. */
    method ProcessXmlFile(f: XmlFile, norm: string -> string)
      modifies this`cfdi, this`payments, this`relations, this`prCount
      ensures cfdi == ExecAll(old(cfdi), [Xml(f.doc.uuid, f.emisor)], company)
      ensures PaymentTables() == Import(old(PaymentTables()), f.doc, norm)
    {
      UpsertFromXml(f.doc.uuid, f.emisor);
      InsertPayments(f.doc, norm);
    }

    /** `processPackageXMLs`: every document of a package, unless it held the UUID before. */
    method ProcessPackageXmls(files: seq<XmlFile>, norm: string -> string)
      modifies this`cfdi, this`payments, this`relations, this`prCount
      ensures cfdi == ExecAll(old(cfdi), XmlOps(FirstFiles(files, {})), company)
      ensures PaymentTables() == Run(old(PaymentTables()), ImportOps(FirstFiles(files, {})), norm)
    {
      ghost var (c0, t0) := (cfdi, PaymentTables());
      ghost var done: seq<XmlFile> := [];
      var seen: set<string> := {};
      for i := 0 to |files|
        invariant done + FirstFiles(files[i..], seen) == FirstFiles(files, {})
        invariant After(c0, t0, done, norm)
      {
        NextFile(done, files, i, seen);
        if files[i].doc.uuid !in seen {
          AddXmlFile(c0, t0, done, files[i], norm);
          seen := seen + {files[i].doc.uuid};
          done := done + [files[i]];
        }
      }
      assert done == done + FirstFiles(files[|files|..], seen);
    }

    /** The tables are what processing `done` one after the other makes of `c0` and `t0`. */
    ghost predicate After(c0: Table, t0: Tables, done: seq<XmlFile>, norm: string -> string)
      reads this
    {
      cfdi == ExecAll(c0, XmlOps(done), company) && PaymentTables() == Run(t0, ImportOps(done), norm)
    }

    method AddXmlFile(ghost c0: Table, ghost t0: Tables, ghost done: seq<XmlFile>, f: XmlFile, norm: string -> string)
      requires After(c0, t0, done, norm)
      modifies this`cfdi, this`payments, this`relations, this`prCount
      ensures After(c0, t0, done + [f], norm)
    {
      OneMoreFile(c0, t0, done, f, norm, company);
      ProcessXmlFile(f, norm);
    }

    /** The related documents of one payment, and how many of them name a UUID. */
    method InsertDoctos(doc: Document, idx: nat, norm: string -> string) returns (count: nat)
      requires idx < |doc.pagos|
      modifies this`relations
      ensures relations == InsertAbsent(old(relations), RelationRows(doc, idx, doc.pagos[idx].doctos, norm))
      ensures count == |RelationRows(doc, idx, doc.pagos[idx].doctos, norm)|
    {
      count := 0;
      var doctos := doc.pagos[idx].doctos;
      for j := 0 to |doctos|
        invariant relations == InsertAbsent(old(relations), RelationRows(doc, idx, doctos[..j], norm))
        invariant count == |RelationRows(doc, idx, doctos[..j], norm)|
      {
        var docto := doctos[j];
        var uuidRelated := norm(docto.idDocumento);
        InsertOneMore(old(relations), doc, idx, doctos, j, norm);
        if uuidRelated != "" {
          var doctoId := RelationId(PaymentId(doc.uuid, idx), uuidRelated, docto.numParcialidad);
          if doctoId !in relations {
            relations := relations[doctoId := RelationRow(doc.uuid, uuidRelated, docto.impPagado, true)];
          }
          count := count + 1;
        }
      }
      assert doctos[..|doctos|] == doctos;
    }

    /** One payment: its row and those of its related documents. */
    method InsertPago(doc: Document, idx: nat, norm: string -> string,
                      ghost payments0: map<PaymentId, PaymentRow>, ghost relations0: map<RelationId, RelationRow>)
      returns (count: nat)
      requires idx < |doc.pagos| && payments == InsertAbsent(payments0, PaymentRows(doc, idx))
      requires relations == InsertAbsent(relations0, AllRelationRows(doc, idx, norm))
      modifies this`payments, this`relations
      ensures payments == InsertAbsent(payments0, PaymentRows(doc, idx + 1))
      ensures relations == InsertAbsent(relations0, AllRelationRows(doc, idx + 1, norm))
      ensures |AllRelationRows(doc, idx, norm)| + count == |AllRelationRows(doc, idx + 1, norm)|
    {
      var paymentId := PaymentId(doc.uuid, idx);
      assert PaymentRows(doc, idx + 1)[..idx] == PaymentRows(doc, idx);
      if paymentId !in payments {
        payments := payments[paymentId := PaymentRow(doc.uuid, doc.pagos[idx].monto, true)];
      }
      InsertConcat(relations0, AllRelationRows(doc, idx, norm), RelationRows(doc, idx, doc.pagos[idx].doctos, norm));
      count := InsertDoctos(doc, idx, norm);
    }

    /** `insertPayments` */
    method InsertPayments(doc: Document, norm: string -> string)
      modifies this`payments, this`relations, this`prCount
      ensures PaymentTables() == Import(old(PaymentTables()), doc, norm)
    {
      if doc.tipoDeComprobante != "P" || |doc.pagos| == 0 {
        return;
      }
      var totalDoctos := 0;
      for idx := 0 to |doc.pagos|
        invariant payments == InsertAbsent(old(payments), PaymentRows(doc, idx))
        invariant relations == InsertAbsent(old(relations), AllRelationRows(doc, idx, norm))
        invariant totalDoctos == |AllRelationRows(doc, idx, norm)| && prCount == old(prCount)
      {
        var count := InsertPago(doc, idx, norm, old(payments), old(relations));
        totalDoctos := totalDoctos + count;
      }
      if totalDoctos > 0 {
        prCount := prCount[doc.uuid := totalDoctos];
      }
    }
  }

  lemma InsertOneMore(m: map<RelationId, RelationRow>, doc: Document, i: nat, ds: seq<Docto>, j: nat, norm: string -> string)
    requires j < |ds|
    ensures var (a, b) := (RelationRows(doc, i, ds[..j], norm), RelationRows(doc, i, ds[..j + 1], norm));
            var (k, v) := ToRow(doc, i, ds[j], norm);
            if norm(ds[j].idDocumento) == "" then b == a
            else |b| == |a| + 1
                 && InsertAbsent(m, b) == var m' := InsertAbsent(m, a); if k in m' then m' else m'[k := v]
  {
    assert ds[..j + 1][..j] == ds[..j];
    var a, b := RelationRows(doc, i, ds[..j], norm), RelationRows(doc, i, ds[..j + 1], norm);
    if norm(ds[j].idDocumento) == "" {
      assert Named(ds[..j + 1], norm) == Named(ds[..j], norm);
    } else {
      assert Named(ds[..j + 1], norm) == Named(ds[..j], norm) + [ds[j]];
      assert b == a + [ToRow(doc, i, ds[j], norm)];
      assert b[..|b| - 1] == a;
    }
  }
}
