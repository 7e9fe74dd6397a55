/** What a search under a table alias sees of a row in which several tables are joined. */
module Aliases {
  import opened Options
  import opened Sql
  import opened DomainFilter
  import opened FilterCorrect
  import opened Search

  /** The row with every column that names no table taken from the alias. */
  function Under(alias: string, row: RowOf): RowOf {
    (c: Column) => if c.table.None? then row(Column(Some(alias), c.name)) else row(c)
  }

  lemma QualifiedHasTable(field: string, alias: string)
    requires '.' !in alias
    ensures QuoteIdent(QualifyField(field, alias)).table.Some? && !IsVirtual(QualifyField(field, alias))
  {
    var q := QualifyField(field, alias);
    if '.' !in field {
      QualifiedParts(field, alias);
    }
    NoDot(q, 0);
    assert q[0..] == q;
    BareNames();
  }

  lemma QualifiedSees(field: string, op: string, v: Json, alias: string, fmt: Fmt, db: Db, row: RowOf)
    requires '.' !in alias
    ensures var q := QualifyField(field, alias);
            ConditionMeaning(q, op, v, fmt, db, row) == ConditionMeaning(q, op, v, fmt, db, Under(alias, row))
  {
    QualifiedHasTable(field, alias);
  }

  /** A qualified domain reads no column that names no table. */
  lemma {:induction false} DomainSees(d: seq<Json>, alias: string, fmt: Fmt, db: Db, row: RowOf)
    requires !IsCondition(d) && '.' !in alias
    ensures var q := QualifyDomainFields(d, alias);
            Meaning(q, fmt, db, row) == Meaning(q, fmt, db, Under(alias, row))
    decreases d, 1
  {
    if d != [] {
      var q := QualifyDomainFields(d, alias);
      QualifiedShape(d, alias);
      if d[0] == Str("|") {
        QualifiedBar(d, alias);
        if HasGroup(d) {
          ItemsSee(d[1].items, alias, fmt, db, row);
        } else {
          assert q[1..] == QualifyDomainFields(d[1..], alias);
          ItemsSee(d[1..], alias, fmt, db, row);
        }
      } else {
        ItemsSee(d, alias, fmt, db, row);
      }
    }
  }

  lemma {:induction false} ItemsSee(items: seq<Json>, alias: string, fmt: Fmt, db: Db, row: RowOf)
    requires '.' !in alias
    ensures var (q, under) := (QualifyDomainFields(items, alias), Under(alias, row));
            && AllMeaning(q, fmt, db, row) == AllMeaning(q, fmt, db, under)
            && AnyMeaning(q, fmt, db, row) == AnyMeaning(q, fmt, db, under)
    decreases items, 0
  {
    if items != [] {
      ItemsSee(items[1..], alias, fmt, db, row);
      QualifiedHead(items, alias);
      if items[0].Arr? {
        ItemSees(items[0], alias, fmt, db, row);
      }
    }
  }

  lemma {:induction false} ItemSees(item: Json, alias: string, fmt: Fmt, db: Db, row: RowOf)
    requires item.Arr? && '.' !in alias
    ensures var q := QualifyItem(item, alias);
            q.Arr? && Meaning(q.items, fmt, db, row) == Meaning(q.items, fmt, db, Under(alias, row))
    decreases item, 0
  {
    var d := item.items;
    if IsCondition(d) {
      QualifiedSees(d[0].s, d[1].s, d[2], alias, fmt, db, row);
    } else {
      DomainSees(d, alias, fmt, db, row);
    }
  }

  lemma UnderIsAlias(alias: string, row: RowOf)
    requires '.' !in alias && alias != "cfdis"
    ensures AliasOf(alias, Under(alias, row))
  {
  }

  /** Whatever the tables joined to it hold, a search under an alias keeps exactly the rows that its
      domain is true of when each plain field is read as a column of the alias's own table. */
  lemma AliasedSearch(domain: seq<Json>, alias: string, column: string, active: Option<bool>, fmt: Fmt, db: Db, row: RowOf)
    requires alias != "" && '.' !in alias && alias != "cfdis" && NoVirtualField(domain)
    requires ListShaped(domain) && Compile(Prepared(domain, alias), fmt).Ok?
    requires Supported(Without(Without(domain, COMPANY), BALANCE), fmt)
    requires DroppedHold(domain, COMPANY, fmt, db, Under(alias, row))
    ensures var cs := Compile(Prepared(domain, alias), fmt).value + ActiveClause(column, active);
            Keeps(cs, db, row) <==>
              Meaning(Without(domain, BALANCE), fmt, db, Under(alias, row)) == T && IsActive(column, active, db, row)
  {
    var p, under := Prepared(domain, alias), Under(alias, row);
    UnderIsAlias(alias, row);
    PreparedMeaning(domain, alias, fmt, db, under);
    PreparedSupported(domain, alias, fmt, under);
    StrippedShape(domain);
    DomainSees(Without(Without(domain, COMPANY), BALANCE), alias, fmt, db, row);
    PreparedRows(p, column, active, fmt, db, row);
  }
}
