/** The generic search (`crud.Search`): rewrites of the domain, the active filter, and paging. */
module Search {
  import opened Options
  import opened Sql
  import opened DomainFilter
  import opened FilterCorrect
  import opened FilterRows

  // ------------------------------------------------------------ dropping conditions

  predicate IsCompanyCondition(item: Json) {
    item.Arr? && |item.items| == 3 && item.items[0] == Str("company_identifier")
  }

  function LowerAscii(s: string): string {
    if s == "" then ""
    else [if 'A' <= s[0] <= 'Z' then s[0] + ' ' else s[0]] + LowerAscii(s[1..])
  }

  predicate IsBalanceCondition(item: Json) {
    item.Arr? && |item.items| >= 3 && item.items[0].Str? && LowerAscii(item.items[0].s) == "balance"
  }

  /** The items `drop` does not apply to. */
  function Without(d: seq<Json>, drop: Json -> bool): seq<Json> {
    if d == [] then []
    else Without(d[..|d| - 1], drop) + (if drop(d[|d| - 1]) then [] else [d[|d| - 1]])
  }

  /** The word in any mixture of small and capital letters. */
  predicate SpellsBalance(s: string) {
    |s| == 7 && forall k :: 0 <= k < 7 ==> s[k] == "balance"[k] || s[k] == "BALANCE"[k]
  }

  lemma {:induction false} LowerAsciiAt(s: string)
    ensures |LowerAscii(s)| == |s|
    ensures forall k :: 0 <= k < |s| ==> LowerAscii(s)[k] == if 'A' <= s[k] <= 'Z' then s[k] + ' ' else s[k]
  {
    if s != "" {
      LowerAsciiAt(s[1..]);
    }
  }

  lemma BalanceSpelled(s: string)
    ensures LowerAscii(s) == "balance" <==> SpellsBalance(s)
  {
    LowerAsciiAt(s);
    var low := LowerAscii(s);
    if |s| == 7 {
      assert low == "balance" <==> forall k :: 0 <= k < 7 ==> low[k] == "balance"[k];
      forall k | 0 <= k < 7 ensures low[k] == "balance"[k] <==> s[k] == "balance"[k] || s[k] == "BALANCE"[k] {
        LetterCases(s[k], k);
      }
    }
  }

  lemma LetterCases(c: char, k: nat)
    requires k < 7
    ensures (if 'A' <= c <= 'Z' then c + ' ' else c) == "balance"[k] <==> c == "balance"[k] || c == "BALANCE"[k]
  {
    assert "BALANCE"[k] + ' ' == "balance"[k];
  }

  const COMPANY: Json -> bool := item => IsCompanyCondition(item)
  const BALANCE: Json -> bool := item => IsBalanceCondition(item)

  lemma BalanceItems()
    ensures forall item: Json :: BALANCE(item) <==>
              item.Arr? && |item.items| >= 3 && item.items[0].Str? && SpellsBalance(item.items[0].s)
  {
    forall item: Json | item.Arr? && |item.items| >= 3 && item.items[0].Str?
      ensures LowerAscii(item.items[0].s) == "balance" <==> SpellsBalance(item.items[0].s)
    {
      BalanceSpelled(item.items[0].s);
    }
  }

  lemma {:induction false} WithoutKeeps(d: seq<Json>, drop: Json -> bool)
    ensures forall item :: item in Without(d, drop) <==> item in d && !drop(item)
    decreases |d|
  {
    if d != [] {
      assert d == d[..|d| - 1] + [d[|d| - 1]];
      WithoutKeeps(d[..|d| - 1], drop);
    }
  }

  method StripCompanyIdentifier(domain: seq<Json>) returns (result: seq<Json>)
    ensures result == Without(domain, COMPANY)
    ensures forall item :: item in result <==>
              item in domain && !(item.Arr? && |item.items| == 3 && item.items[0] == Str("company_identifier"))
  {
    WithoutKeeps(domain, COMPANY);
    result := [];
    for i := 0 to |domain|
      invariant result == Without(domain[..i], COMPANY)
    {
      assert domain[..i + 1][..i] == domain[..i];
      if !IsCompanyCondition(domain[i]) {
        result := result + [domain[i]];
      }
    }
    assert domain[..|domain|] == domain;
  }

  method StripUnsupportedFilters(domain: seq<Json>) returns (result: seq<Json>)
    ensures result == Without(domain, BALANCE)
    ensures forall item :: item in result <==>
              item in domain
              && !(item.Arr? && |item.items| >= 3 && item.items[0].Str? && SpellsBalance(item.items[0].s))
  {
    WithoutKeeps(domain, BALANCE);
    BalanceItems();
    result := [];
    for i := 0 to |domain|
      invariant result == Without(domain[..i], BALANCE)
    {
      assert domain[..i + 1][..i] == domain[..i];
      if !IsBalanceCondition(domain[i]) {
        result := result + [domain[i]];
      }
    }
    assert domain[..|domain|] == domain;
  }

  /** A list of lists, as the front end sends it. */
  predicate ListShaped(d: seq<Json>) {
    forall item :: item in d ==> item.Arr?
  }

  /** The dropped items are true of the row. */
  ghost predicate DroppedHold(d: seq<Json>, drop: Json -> bool, fmt: Fmt, db: Db, row: RowOf) {
    forall item :: item in d && drop(item) ==> item.Arr? && Meaning(item.items, fmt, db, row) == T
  }

  lemma ListMeaning(d: seq<Json>, fmt: Fmt, db: Db, row: RowOf)
    requires ListShaped(d)
    ensures Meaning(d, fmt, db, row) == AllMeaning(d, fmt, db, row)
    ensures Compile(d, fmt) == CompileAll(d, fmt)
  {
    if d != [] {
      assert d[0] in d;
    }
  }

  lemma {:induction false} AllMeaningAppend(a: seq<Json>, b: seq<Json>, fmt: Fmt, db: Db, row: RowOf)
    ensures AllMeaning(a + b, fmt, db, row) == And3(AllMeaning(a, fmt, db, row), AllMeaning(b, fmt, db, row))
  {
    if a == [] {
      assert a + b == b;
    } else {
      assert (a + b)[0] == a[0] && (a + b)[1..] == a[1..] + b;
      AllMeaningAppend(a[1..], b, fmt, db, row);
    }
  }

  lemma AllMeaningOne(item: Json, fmt: Fmt, db: Db, row: RowOf)
    ensures AllMeaning([item], fmt, db, row) == if item.Arr? then Meaning(item.items, fmt, db, row) else U
  {
    assert [item][1..] == [];
    assert AllMeaning([item][1..], fmt, db, row) == T;
  }

  /** Dropping conditions can only let more rows through, and none more if the dropped
      conditions are true of the row. */
  lemma {:induction false} WithoutMeaning(d: seq<Json>, drop: Json -> bool, fmt: Fmt, db: Db, row: RowOf)
    ensures AllMeaning(d, fmt, db, row) == T ==> AllMeaning(Without(d, drop), fmt, db, row) == T
    ensures DroppedHold(d, drop, fmt, db, row) ==> AllMeaning(Without(d, drop), fmt, db, row) == AllMeaning(d, fmt, db, row)
    decreases |d|
  {
    if d != [] {
      var init, last := d[..|d| - 1], d[|d| - 1];
      assert d == init + [last];
      WithoutMeaning(init, drop, fmt, db, row);
      AllMeaningAppend(init, [last], fmt, db, row);
      AllMeaningOne(last, fmt, db, row);
      if !drop(last) {
        AllMeaningAppend(Without(init, drop), [last], fmt, db, row);
      } else {
        assert Without(d, drop) == Without(init, drop);
      }
    }
  }

  lemma {:induction false} WithoutListShaped(d: seq<Json>, drop: Json -> bool)
    requires ListShaped(d)
    ensures ListShaped(Without(d, drop))
    ensures forall item :: item in Without(d, drop) ==> item in d && !drop(item)
    decreases |d|
  {
    if d != [] {
      assert d == d[..|d| - 1] + [d[|d| - 1]];
      WithoutListShaped(d[..|d| - 1], drop);
    }
  }

  // ------------------------------------------------------------ qualifying fields

  function QualifyField(field: string, alias: string): string {
    if '.' in field then field else alias + "." + field
  }

  function QualifyDomainFields(d: seq<Json>, alias: string): (r: seq<Json>)
    ensures |r| == |d|
    decreases d, 1
  {
    if d == [] then []
    else [QualifyItem(d[0], alias)] + QualifyDomainFields(d[1..], alias)
  }

  function QualifyItem(item: Json, alias: string): Json
    decreases item, 0
  {
    if !item.Arr? then item
    else if IsCondition(item.items) then
      Arr([Str(QualifyField(item.items[0].s, alias)), item.items[1], item.items[2]])
    else Arr(QualifyDomainFields(item.items, alias))
  }

  /** The fields that stand for SQL of their own and go by their bare name. */
  predicate IsVirtual(field: string) {
    field == "efos" || field == "used_in_isr"
  }

  /** No condition of the domain is on such a field. */
  predicate NoVirtualField(d: seq<Json>)
    decreases d
  {
    forall i :: 0 <= i < |d| && d[i].Arr? ==>
      if IsCondition(d[i].items) then !IsVirtual(d[i].items[0].s) else NoVirtualField(d[i].items)
  }

  /** The alias names the searched table: qualified or not, a column is the same. */
  ghost predicate AliasOf(alias: string, row: RowOf) {
    && '.' !in alias && alias != "cfdis"
    && forall f: string :: '.' !in f ==> row(Column(Some(alias), f)) == row(Column(None, f))
  }

  lemma {:induction false} NoDot(s: string, i: nat)
    requires i <= |s|
    ensures DotFrom(s, i) == |s| <==> '.' !in s[i..]
    decreases |s| - i
  {
    if i < |s| {
      NoDot(s, i + 1);
      assert s[i..] == [s[i]] + s[i + 1..];
    }
  }

  lemma {:induction false} FirstDot(s: string, i: nat, d: nat)
    requires i <= d < |s| && s[d] == '.' && forall k :: i <= k < d ==> s[k] != '.'
    ensures DotFrom(s, i) == d
    decreases d - i
  {
    if i < d {
      FirstDot(s, i + 1, d);
    }
  }

  lemma QualifiedParts(field: string, alias: string)
    requires '.' !in alias && '.' !in field
    ensures var q := QualifyField(field, alias);
            && '.' in q && DotFrom(q, 0) == |alias| && q[..|alias|] == alias && q[|alias| + 1..] == field
  {
    var q := QualifyField(field, alias);
    assert q[|alias|] == '.';
    forall k | 0 <= k < |alias| ensures q[k] != '.' {
      assert q[k] == alias[k] && alias[k] in alias;
    }
    FirstDot(q, 0, |alias|);
  }

  lemma QualifiedColumn(field: string, alias: string, row: RowOf)
    requires AliasOf(alias, row)
    ensures row(QuoteIdent(QualifyField(field, alias))) == row(QuoteIdent(field))
    ensures '.' !in field ==> '.' in QualifyField(field, alias) && QualifyField(field, alias) != "cfdis.is_issued"
  {
    if '.' !in field {
      NoDot(field, 0);
      assert field[0..] == field;
      QualifiedParts(field, alias);
      CfdisPrefix();
    }
  }

  lemma CfdisPrefix()
    ensures DotFrom("cfdis.is_issued", 0) == 5 && "cfdis.is_issued"[..5] == "cfdis"
  {
    FirstDot("cfdis.is_issued", 0, 5);
  }

  lemma QualifiedCondition(field: string, op: string, v: Json, alias: string, fmt: Fmt, db: Db, row: RowOf)
    requires AliasOf(alias, row) && !IsVirtual(field)
    ensures ConditionMeaning(QualifyField(field, alias), op, v, fmt, db, row) == ConditionMeaning(field, op, v, fmt, db, row)
    ensures BuildCondition(QualifyField(field, alias), op, v, fmt).Ok? <==> BuildCondition(field, op, v, fmt).Ok?
    ensures SupportedCondition(QualifyField(field, alias), op, v, fmt) == SupportedCondition(field, op, v, fmt)
  {
    QualifiedColumn(field, alias, row);
    if '.' !in field {
      var q := QualifyField(field, alias);
      BareNames();
      assert q != "efos" && q != "used_in_isr" && field != "cfdis.is_issued";
      assert ConditionMeaning(q, op, v, fmt, db, row) == ColumnMeaning(row(QuoteIdent(q)), op, Unquote(v), fmt, db);
    }
  }

  lemma BareNames()
    ensures '.' !in "efos" && '.' !in "used_in_isr" && '.' in "cfdis.is_issued"
  {
    assert "cfdis.is_issued"[5] == '.';
  }

  lemma QualifiedSame(d: seq<Json>, alias: string, i: nat)
    requires i < |d|
    ensures QualifyDomainFields(d, alias)[i] == QualifyItem(d[i], alias)
  {
    if i > 0 {
      QualifiedSame(d[1..], alias, i - 1);
    }
  }

  lemma NoVirtualTail(items: seq<Json>)
    requires items != [] && NoVirtualField(items)
    ensures NoVirtualField(items[1..])
  {
    assert forall i :: 0 <= i < |items[1..]| ==> items[1..][i] == items[i + 1];
  }

  /** Qualifying the items of a list does not make a condition of it, or unmake one. */
  lemma QualifiedShape(d: seq<Json>, alias: string)
    ensures IsCondition(QualifyDomainFields(d, alias)) <==> IsCondition(d)
    ensures d != [] ==> (QualifyDomainFields(d, alias)[0] == Str("|") <==> d[0] == Str("|"))
  {
    if |d| > 0 {
      QualifiedSame(d, alias, 0);
    }
    if |d| > 1 {
      QualifiedSame(d, alias, 1);
    }
  }

  lemma {:induction false} QualifiedGroup(items: seq<Json>, alias: string, fmt: Fmt, row: RowOf)
    requires AliasOf(alias, row) && NoVirtualField(items)
    ensures GroupClauses(QualifyDomainFields(items, alias), fmt).Ok? <==> GroupClauses(items, fmt).Ok?
  {
    if items != [] {
      NoVirtualTail(items);
      QualifiedGroup(items[1..], alias, fmt, row);
      var q := QualifyDomainFields(items, alias);
      assert q[0] == QualifyItem(items[0], alias) && q[1..] == QualifyDomainFields(items[1..], alias);
      if items[0].Arr? {
        var c := items[0].items;
        if IsCondition(c) {
          QualifiedCondition(c[0].s, c[1].s, c[2], alias, fmt, NoData(), row);
        } else {
          QualifiedShape(c, alias);
        }
      }
    }
  }

  /** A single triple where a group of conditions is expected: its field is no condition either way. */
  lemma ConditionAsGroup(c: seq<Json>, field: string, fmt: Fmt)
    requires IsCondition(c)
    ensures GroupClauses([Str(field), c[1], c[2]], fmt) == GroupClauses(c, fmt)
  {
    assert [Str(field), c[1], c[2]][1..] == c[1..];
  }

  lemma {:induction false} QualifyCompiles(d: seq<Json>, alias: string, fmt: Fmt, row: RowOf)
    requires !IsCondition(d) && AliasOf(alias, row) && NoVirtualField(d)
    ensures Compile(QualifyDomainFields(d, alias), fmt).Ok? <==> Compile(d, fmt).Ok?
    decreases d, 1
  {
    if d != [] {
      QualifiedShape(d, alias);
      if d[0] != Str("|") {
        QualifyItemsCompile(d, alias, fmt, row);
      } else if |d| >= 2 {
        QualifiedSame(d, alias, 1);
        if d[1].Arr? {
          if IsCondition(d[1].items) {
            ConditionAsGroup(d[1].items, QualifyField(d[1].items[0].s, alias), fmt);
          } else {
            QualifiedGroup(d[1].items, alias, fmt, row);
          }
        }
      }
    }
  }

  lemma {:induction false} QualifyItemsCompile(items: seq<Json>, alias: string, fmt: Fmt, row: RowOf)
    requires AliasOf(alias, row) && NoVirtualField(items)
    ensures CompileAll(QualifyDomainFields(items, alias), fmt).Ok? <==> CompileAll(items, fmt).Ok?
    decreases items, 0
  {
    if items != [] {
      NoVirtualTail(items);
      QualifyItemsCompile(items[1..], alias, fmt, row);
      QualifiedHead(items, alias);
      if items[0].Arr? {
        QualifyItemCompiles(items[0], alias, fmt, row);
      }
    }
  }

  lemma {:induction false} QualifyItemCompiles(item: Json, alias: string, fmt: Fmt, row: RowOf)
    requires item.Arr? && AliasOf(alias, row)
    requires if IsCondition(item.items) then !IsVirtual(item.items[0].s) else NoVirtualField(item.items)
    ensures QualifyItem(item, alias).Arr?
    ensures Compile(QualifyItem(item, alias).items, fmt).Ok? <==> Compile(item.items, fmt).Ok?
    decreases item, 0
  {
    var c := item.items;
    if IsCondition(c) {
      QualifiedCondition(c[0].s, c[1].s, c[2], alias, fmt, NoData(), row);
    } else {
      QualifyCompiles(c, alias, fmt, row);
    }
  }

  /** A database to speak of conditions in that do not depend on one. */
  function NoData(): Db {
    Db((a, b) => false, (a, b) => false, v => "", (a, b) => false, [], [])
  }

  /** Qualifying the fields of a domain that is a list of conditions and groups changes neither
      whether it compiles nor what it means. */
  lemma {:induction false} QualifyPreserves(d: seq<Json>, alias: string, fmt: Fmt, db: Db, row: RowOf)
    requires !IsCondition(d) && AliasOf(alias, row) && NoVirtualField(d)
    ensures Meaning(QualifyDomainFields(d, alias), fmt, db, row) == Meaning(d, fmt, db, row)
    ensures Compile(QualifyDomainFields(d, alias), fmt).Ok? <==> Compile(d, fmt).Ok?
    decreases d, 1
  {
    QualifyCompiles(d, alias, fmt, row);
    if d != [] {
      var q := QualifyDomainFields(d, alias);
      QualifiedShape(d, alias);
      if d[0] == Str("|") {
        QualifiedBar(d, alias);
        if HasGroup(d) {
          QualifyItemsPreserves(d[1].items, alias, fmt, db, row);
        } else {
          NoVirtualTail(d);
          assert q[1..] == QualifyDomainFields(d[1..], alias);
          QualifyItemsPreserves(d[1..], alias, fmt, db, row);
        }
      } else {
        QualifyItemsPreserves(d, alias, fmt, db, row);
      }
    }
  }

  /** What follows a bar keeps its shape. */
  lemma QualifiedBar(d: seq<Json>, alias: string)
    requires d != [] && d[0] == Str("|")
    ensures HasGroup(QualifyDomainFields(d, alias)) <==> HasGroup(d)
    ensures HasGroup(d) ==> QualifyDomainFields(d, alias)[1] == Arr(QualifyDomainFields(d[1].items, alias))
  {
    if |d| == 2 {
      QualifiedSame(d, alias, 1);
      if d[1].Arr? {
        QualifiedShape(d[1].items, alias);
      }
    }
  }

  lemma {:induction false} QualifyItemsPreserves(items: seq<Json>, alias: string, fmt: Fmt, db: Db, row: RowOf)
    requires AliasOf(alias, row) && NoVirtualField(items)
    ensures AllMeaning(QualifyDomainFields(items, alias), fmt, db, row) == AllMeaning(items, fmt, db, row)
    ensures AnyMeaning(QualifyDomainFields(items, alias), fmt, db, row) == AnyMeaning(items, fmt, db, row)
    decreases items, 0
  {
    if items != [] {
      NoVirtualTail(items);
      QualifyItemsPreserves(items[1..], alias, fmt, db, row);
      QualifiedHead(items, alias);
      if items[0].Arr? {
        QualifyItemPreserves(items[0], alias, fmt, db, row);
      }
    }
  }

  lemma QualifiedHead(items: seq<Json>, alias: string)
    requires items != []
    ensures var q := QualifyDomainFields(items, alias);
            q[0] == QualifyItem(items[0], alias) && q[1..] == QualifyDomainFields(items[1..], alias)
    ensures QualifyItem(items[0], alias).Arr? <==> items[0].Arr?
  {
  }

  lemma {:induction false} QualifyItemPreserves(item: Json, alias: string, fmt: Fmt, db: Db, row: RowOf)
    requires item.Arr? && AliasOf(alias, row)
    requires if IsCondition(item.items) then !IsVirtual(item.items[0].s) else NoVirtualField(item.items)
    ensures QualifyItem(item, alias).Arr?
    ensures Meaning(QualifyItem(item, alias).items, fmt, db, row) == Meaning(item.items, fmt, db, row)
    decreases item, 0
  {
    var d := item.items;
    if IsCondition(d) {
      QualifiedCondition(d[0].s, d[1].s, d[2], alias, fmt, db, row);
    } else {
      QualifyPreserves(d, alias, fmt, db, row);
    }
  }

  /** Nor does it change whether the domain is in one of the documented forms. */
  lemma {:induction false} QualifySupported(d: seq<Json>, alias: string, fmt: Fmt, row: RowOf)
    requires !IsCondition(d) && AliasOf(alias, row) && NoVirtualField(d) && Supported(d, fmt)
    ensures Supported(QualifyDomainFields(d, alias), fmt)
    decreases d
  {
    if d != [] {
      var q := QualifyDomainFields(d, alias);
      QualifiedShape(d, alias);
      if d[0] == Str("|") {
        assert d[1].items[0] in d[1].items;
        QualifiedBar(d, alias);
        QualifyTriples(d[1].items, alias, fmt, row);
      } else {
        forall i | 0 <= i < |q| ensures q[i].Arr? && Supported(q[i].items, fmt) {
          QualifiedSame(d, alias, i);
          var c := d[i].items;
          if IsCondition(c) {
            QualifiedCondition(c[0].s, c[1].s, c[2], alias, fmt, NoData(), row);
          } else {
            QualifySupported(c, alias, fmt, row);
          }
        }
      }
    }
  }

  lemma QualifyTriples(items: seq<Json>, alias: string, fmt: Fmt, row: RowOf)
    requires AliasOf(alias, row) && NoVirtualField(items) && forall item :: item in items ==> SupportedTriple(item, fmt)
    ensures forall item :: item in QualifyDomainFields(items, alias) ==> SupportedTriple(item, fmt)
  {
    var q := QualifyDomainFields(items, alias);
    forall i | 0 <= i < |q| ensures SupportedTriple(q[i], fmt) {
      QualifiedSame(items, alias, i);
      assert items[i] in items;
      var c := items[i].items;
      QualifiedCondition(c[0].s, c[1].s, c[2], alias, fmt, NoData(), row);
    }
  }

  // ------------------------------------------------------------ virtual fields do not survive qualifying

  /** The two conditions are accepted alike and let the same rows through in every database. */
  ghost predicate SameRows(field: string, field': string, op: string, v: Json, alias: string, fmt: Fmt) {
    && (BuildCondition(field', op, v, fmt).Ok? <==> BuildCondition(field, op, v, fmt).Ok?)
    && forall db: Db, row: RowOf | AliasOf(alias, row) :: SameVerdict(field, field', op, v, fmt, db, row)
  }

  ghost predicate SameVerdict(field: string, field': string, op: string, v: Json, fmt: Fmt, db: Db, row: RowOf) {
    Eval(ConditionExpr(field', op, v, fmt), db, row) == T <==> Eval(ConditionExpr(field, op, v, fmt), db, row) == T
  }

  /** Every issuer and type of document is `v`, and every other column is something else. */
  function IssuedBy(v: string): RowOf {
    (c: Column) => if c.name == "RfcEmisor" || c.name == "TipoDeComprobante" then Str(v) else Str("X")
  }

  function OneEfos(): Db {
    Db((a, b) => a == b, (a, b) => false, v => "", (a, b) => true, [Str("P")], [])
  }

  /** The rows of issuer and type `P` and those of `Q` differ in the virtual fields only. */
  lemma VirtualDistinguishes(field: string, op: string, v: Json, fmt: Fmt)
    requires IsVirtual(field) && BuildCondition(field, op, v, fmt).Ok?
    ensures var (e, db) := (ConditionExpr(field, op, v, fmt), OneEfos());
            Eval(e, db, IssuedBy("P")) == T <==> Eval(e, db, IssuedBy("Q")) != T
  {
    var db, p, q := OneEfos(), IssuedBy("P"), IssuedBy("Q");
    if field == "efos" {
      assert db.efos[1..] == [];
      assert Member3(db, Str("P"), db.efos) == T && Member3(db, Str("Q"), db.efos) == F;
      assert Eval(InEfos(RFC_EMISOR), db, p) == T && Eval(InEfos(RFC_EMISOR), db, q) == F;
      assert Eval(Not(InEfos(RFC_EMISOR)), db, p) == F && Eval(Not(InEfos(RFC_EMISOR)), db, q) == T;
    } else {
      UsedInIsrMeans(db, p);
      UsedInIsrMeans(db, q);
      assert Eval(Not(UsedInIsr()), db, p) == F && Eval(Not(UsedInIsr()), db, q) == T;
    }
  }

  lemma ColumnDoesNot(c: Column, op: string, v: Json, fmt: Fmt, field: string)
    requires c == QuoteIdent(field) && c.name != "RfcEmisor" && c.name != "TipoDeComprobante"
    requires field !in {"efos", "cfdis.is_issued", "used_in_isr"}
    ensures var (e, db) := (ConditionExpr(field, op, v, fmt), OneEfos());
            Eval(e, db, IssuedBy("P")) == Eval(e, db, IssuedBy("Q"))
  {
    var db, p, q := OneEfos(), IssuedBy("P"), IssuedBy("Q");
    assert p(c) == q(c);
    var e := ConditionExpr(field, op, v, fmt);
    if e.Not? {
      assert Eval(e.e, db, p) == Eval(e.e, db, q);
    }
  }

  lemma VirtualChanges(field: string, op: string, v: Json, alias: string, fmt: Fmt)
    requires BuildCondition(field, op, v, fmt).Ok? && '.' !in alias && alias != "cfdis" && IsVirtual(field)
    ensures !SameRows(field, QualifyField(field, alias), op, v, alias, fmt)
  {
    var f := QualifyField(field, alias);
    var p, q := IssuedBy("P"), IssuedBy("Q");
    assert AliasOf(alias, p) && AliasOf(alias, q);
    QualifiedVirtual(field, alias);
    VirtualDistinguishes(field, op, v, fmt);
    ColumnDoesNot(QuoteIdent(f), op, v, fmt, f);
    assert !SameVerdict(field, f, op, v, fmt, OneEfos(), p) || !SameVerdict(field, f, op, v, fmt, OneEfos(), q);
  }

  /** Qualified, the name of a virtual field is that of an ordinary column. */
  lemma QualifiedVirtual(field: string, alias: string)
    requires IsVirtual(field) && '.' !in alias && alias != "cfdis"
    ensures var f := QualifyField(field, alias);
            QuoteIdent(f) == Column(Some(alias), field) && f !in {"efos", "cfdis.is_issued", "used_in_isr"}
  {
    BareNames();
    QualifiedParts(field, alias);
    var p := IssuedBy("P");
    assert AliasOf(alias, p);
    QualifiedColumn(field, alias, p);
  }

  lemma ColumnStays(field: string, op: string, v: Json, alias: string, fmt: Fmt, db: Db, row: RowOf)
    requires AliasOf(alias, row) && !IsVirtual(field)
    ensures SameVerdict(field, QualifyField(field, alias), op, v, fmt, db, row)
  {
    QualifiedColumn(field, alias, row);
    BareNames();
    SameColumn(field, QualifyField(field, alias), op, v, fmt, db, row);
  }

  /** Which conditions may be qualified: an accepted condition lets the same rows through under its
      qualified field exactly if the field is none of those that stand for SQL of their own. */
  lemma QualifiesExactly(field: string, op: string, v: Json, alias: string, fmt: Fmt)
    requires BuildCondition(field, op, v, fmt).Ok? && '.' !in alias && alias != "cfdis"
    ensures SameRows(field, QualifyField(field, alias), op, v, alias, fmt) <==> !IsVirtual(field)
  {
    if IsVirtual(field) {
      VirtualChanges(field, op, v, alias, fmt);
    } else {
      var p := IssuedBy("P");
      assert AliasOf(alias, p);
      QualifiedCondition(field, op, v, alias, fmt, OneEfos(), p);
      forall db: Db, row: RowOf | AliasOf(alias, row)
        ensures SameVerdict(field, QualifyField(field, alias), op, v, fmt, db, row)
      {
        ColumnStays(field, op, v, alias, fmt, db, row);
      }
    }
  }

  lemma SameColumn(field: string, f: string, op: string, v: Json, fmt: Fmt, db: Db, row: RowOf)
    requires || f == field
             || (field !in {"efos", "cfdis.is_issued", "used_in_isr"} && f !in {"efos", "cfdis.is_issued", "used_in_isr"})
    requires row(QuoteIdent(f)) == row(QuoteIdent(field))
    ensures SameVerdict(field, f, op, v, fmt, db, row)
  {
    var e, e' := ConditionExpr(field, op, v, fmt), ConditionExpr(f, op, v, fmt);
    if e.Not? && f != field {
      assert Eval(e.e, db, row) == Eval(e'.e, db, row);
    }
  }

  // ------------------------------------------------------------ the whole search

  /** The rewritten domain the filters are compiled from. */
  function Prepared(domain: seq<Json>, alias: string): seq<Json> {
    var d := Without(Without(domain, COMPANY), BALANCE);
    if alias == "" then d else QualifyDomainFields(d, alias)
  }

  /** `applyActiveFilter`: active unless told otherwise, a missing flag counting as active. */
  function ActiveClause(column: string, active: Option<bool>): seq<Clause> {
    if column == "" then []
    else
      var c := Col(QuoteIdent(column));
      if active.GetOr(true) then [Clause([c, Cmp(Eq), Hole, KwOr, c, KwIs, KwNull], [Bool(true)])]
      else [Clause([c, Cmp(Eq), Hole], [Bool(false)])]
  }

  ghost predicate IsActive(column: string, active: Option<bool>, db: Db, row: RowOf) {
    column == "" ||
    (var x := row(QuoteIdent(column));
     if active.GetOr(true) then x.Null? || db.eq(x, Bool(true)) else !x.Null? && db.eq(x, Bool(false)))
  }

  function ActiveExpr(column: string, active: Option<bool>): seq<Expr> {
    if column == "" then []
    else
      var c := QuoteIdent(column);
      if active.GetOr(true) then [Or(Compare(c, Eq, Bool(true)), IsNull(c))] else [Compare(c, Eq, Bool(false))]
  }

  lemma ActiveOnlyReads(c: Column)
    ensures ReadsAs(Clause([Col(c), Cmp(Eq), Hole, KwOr, Col(c), KwIs, KwNull], [Bool(true)]),
                    Or(Compare(c, Eq, Bool(true)), IsNull(c)))
  {
    var isNull := [Col(c), KwIs, KwNull];
    forall rest: seq<Token> ensures ReadNot(isNull + rest) == Some((IsNull(c), rest)) {
      ReadIs(c, rest);
    }
    AtomReadsTo(isNull, IsNull(c));
    CompareAtom(c, Eq, Bool(true));
    OrThen([Col(c), Cmp(Eq), Lit(Bool(true))], Compare(c, Eq, Bool(true)), isNull, IsNull(c));
    BindLast([Col(c), Cmp(Eq)], Bool(true), [KwOr] + isNull);
    assert [Col(c), Cmp(Eq)] + ([Hole] + ([KwOr] + isNull)) == [Col(c), Cmp(Eq), Hole, KwOr, Col(c), KwIs, KwNull];
    assert [Col(c), Cmp(Eq)] + ([Lit(Bool(true))] + ([KwOr] + isNull))
           == [Col(c), Cmp(Eq), Lit(Bool(true))] + ([KwOr] + isNull);
  }

  lemma InactiveOnlyReads(c: Column)
    ensures ReadsAs(Clause([Col(c), Cmp(Eq), Hole], [Bool(false)]), Compare(c, Eq, Bool(false)))
  {
    CompareAtom(c, Eq, Bool(false));
    AtomReadsTo([Col(c), Cmp(Eq), Lit(Bool(false))], Compare(c, Eq, Bool(false)));
    BindLast([Col(c), Cmp(Eq)], Bool(false), []);
    assert [Col(c), Cmp(Eq)] + ([Hole] + []) == [Col(c), Cmp(Eq), Hole];
    assert [Col(c), Cmp(Eq)] + ([Lit(Bool(false))] + []) == [Col(c), Cmp(Eq), Lit(Bool(false))];
  }

  lemma ActiveReads(column: string, active: Option<bool>)
    ensures AllReadAs(ActiveClause(column, active), ActiveExpr(column, active))
  {
    if column != "" {
      ActiveOnlyReads(QuoteIdent(column));
      InactiveOnlyReads(QuoteIdent(column));
    }
  }

  /** Whatever the search, it has as many placeholders as arguments. */
  lemma SearchBinds(domain: seq<Json>, alias: string, column: string, active: Option<bool>, fmt: Fmt)
    requires Compile(Prepared(domain, alias), fmt).Ok?
    ensures var cs := Compile(Prepared(domain, alias), fmt).value + ActiveClause(column, active);
            Holes(WhereText(cs)) == |WhereArgs(cs)|
  {
    var p := Prepared(domain, alias);
    DomainReads(p, fmt);
    ActiveReads(column, active);
    AppendReads(Compile(p, fmt).value, DomainExprs(p, fmt), ActiveClause(column, active), ActiveExpr(column, active));
    KeepsExactly(Compile(p, fmt).value + ActiveClause(column, active), DomainExprs(p, fmt) + ActiveExpr(column, active),
                 NoData(), c => Null);
  }

  lemma PreparedRows(p: seq<Json>, column: string, active: Option<bool>, fmt: Fmt, db: Db, row: RowOf)
    requires Compile(p, fmt).Ok? && Supported(p, fmt)
    ensures Keeps(Compile(p, fmt).value + ActiveClause(column, active), db, row) <==>
              Meaning(p, fmt, db, row) == T && IsActive(column, active, db, row)
  {
    DomainReads(p, fmt);
    DomainMeans(p, fmt, db, row);
    ActiveReads(column, active);
    AppendReads(Compile(p, fmt).value, DomainExprs(p, fmt), ActiveClause(column, active), ActiveExpr(column, active));
    AllTrueAppend(DomainExprs(p, fmt), ActiveExpr(column, active), db, row);
    ActiveMeans(column, active, db, row);
    KeepsExactly(Compile(p, fmt).value + ActiveClause(column, active), DomainExprs(p, fmt) + ActiveExpr(column, active), db, row);
  }

  /** With the rewrites and the active filter added, a search on a list-shaped domain keeps
      exactly the active rows of which the domain without its balance conditions is true, the
      company conditions being true of every row of the company. */
  lemma SearchKeepsExactly(domain: seq<Json>, alias: string, column: string, active: Option<bool>, fmt: Fmt, db: Db, row: RowOf)
    requires ListShaped(domain) && Compile(Prepared(domain, alias), fmt).Ok?
    requires Supported(Without(Without(domain, COMPANY), BALANCE), fmt)
    requires DroppedHold(domain, COMPANY, fmt, db, row)
    requires alias != "" ==> AliasOf(alias, row) && NoVirtualField(domain)
    ensures var cs := Compile(Prepared(domain, alias), fmt).value + ActiveClause(column, active);
            && (Keeps(cs, db, row) <==>
                  Meaning(Without(domain, BALANCE), fmt, db, row) == T && IsActive(column, active, db, row))
            && (Meaning(domain, fmt, db, row) == T && IsActive(column, active, db, row) ==> Keeps(cs, db, row))
  {
    PreparedMeaning(domain, alias, fmt, db, row);
    PreparedSupported(domain, alias, fmt, row);
    PreparedRows(Prepared(domain, alias), column, active, fmt, db, row);
  }

  lemma {:induction false} AllMeaningTrue(d: seq<Json>, fmt: Fmt, db: Db, row: RowOf)
    requires ListShaped(d)
    ensures AllMeaning(d, fmt, db, row) == T <==> forall item :: item in d ==> Meaning(item.items, fmt, db, row) == T
    decreases |d|
  {
    if d != [] {
      assert d == [d[0]] + d[1..] && d[0] in d;
      AllMeaningTrue(d[1..], fmt, db, row);
    }
  }

  /** What is left of the domain is compiled item by item. */
  lemma PreparedItems(domain: seq<Json>, alias: string, fmt: Fmt, row: RowOf, item: Json)
    requires ListShaped(domain) && Compile(Prepared(domain, alias), fmt).Ok?
    requires Supported(Without(Without(domain, COMPANY), BALANCE), fmt)
    requires alias != "" ==> AliasOf(alias, row) && NoVirtualField(domain)
    requires item in domain && !COMPANY(item) && !BALANCE(item)
    ensures item.Arr? && Compile(item.items, fmt).Ok? && Supported(item.items, fmt)
  {
    var d := Without(Without(domain, COMPANY), BALANCE);
    WithoutKeeps(domain, COMPANY);
    WithoutKeeps(Without(domain, COMPANY), BALANCE);
    StrippedShape(domain);
    var i :| 0 <= i < |d| && d[i] == item;
    if alias != "" {
      QualifyCompiles(d, alias, fmt, row);
    }
    ListMeaning(d, fmt, NoData(), row);
    AllCompiled(d, fmt);
    assert d[i].Arr? && Supported(d[i].items, fmt);
  }

  lemma ItemsKept(domain: seq<Json>, alias: string, fmt: Fmt, db: Db, row: RowOf)
    requires ListShaped(domain) && Compile(Prepared(domain, alias), fmt).Ok?
    requires Supported(Without(Without(domain, COMPANY), BALANCE), fmt)
    requires DroppedHold(domain, COMPANY, fmt, db, row)
    requires alias != "" ==> AliasOf(alias, row) && NoVirtualField(domain)
    ensures Meaning(Without(domain, BALANCE), fmt, db, row) == T <==>
              forall item :: item in domain && !COMPANY(item) && !BALANCE(item) ==> item.Arr? && Kept(item.items, fmt, db, row)
  {
    var b := Without(domain, BALANCE);
    WithoutKeeps(domain, BALANCE);
    ListMeaning(b, fmt, db, row);
    AllMeaningTrue(b, fmt, db, row);
    forall item | item in domain && !COMPANY(item) && !BALANCE(item)
      ensures item.Arr? && (Kept(item.items, fmt, db, row) <==> Meaning(item.items, fmt, db, row) == T)
    {
      PreparedItems(domain, alias, fmt, row, item);
      CompilerCorrect(item.items, fmt, db, row);
    }
  }

  /** Written out: a search keeps the rows that each item of the domain keeps for itself, company and
      balance conditions set aside, and of these the active ones, or the inactive ones if those are
      asked for. */
  lemma SearchRows(domain: seq<Json>, alias: string, column: string, active: Option<bool>, fmt: Fmt, db: Db, row: RowOf)
    requires ListShaped(domain) && Compile(Prepared(domain, alias), fmt).Ok? && '.' !in column
    requires Supported(Without(Without(domain, COMPANY), BALANCE), fmt)
    requires DroppedHold(domain, COMPANY, fmt, db, row)
    requires alias != "" ==> AliasOf(alias, row) && NoVirtualField(domain)
    ensures var cs := Compile(Prepared(domain, alias), fmt).value + ActiveClause(column, active);
            var x := row(Column(None, column));
            Keeps(cs, db, row) <==>
              && (forall item ::
                    item in domain
                    && !(|item.items| == 3 && item.items[0] == Str("company_identifier"))
                    && !(|item.items| >= 3 && item.items[0].Str? && SpellsBalance(item.items[0].s))
                    ==> Kept(item.items, fmt, db, row))
              && (column == ""
                  || if active == Some(false) then !x.Null? && db.eq(x, Bool(false)) else x.Null? || db.eq(x, Bool(true)))
  {
    SearchKeepsExactly(domain, alias, column, active, fmt, db, row);
    ItemsKept(domain, alias, fmt, db, row);
    BalanceItems();
    Named(column, "");
  }

  lemma PreparedSupported(domain: seq<Json>, alias: string, fmt: Fmt, row: RowOf)
    requires ListShaped(domain) && Supported(Without(Without(domain, COMPANY), BALANCE), fmt)
    requires alias != "" ==> AliasOf(alias, row) && NoVirtualField(domain)
    ensures Supported(Prepared(domain, alias), fmt)
  {
    if alias != "" {
      StrippedShape(domain);
      QualifySupported(Without(Without(domain, COMPANY), BALANCE), alias, fmt, row);
    }
  }

  /** The domain without its company and balance conditions is a list of lists still. */
  lemma StrippedShape(domain: seq<Json>)
    requires ListShaped(domain)
    ensures var d := Without(Without(domain, COMPANY), BALANCE);
            ListShaped(d) && !IsCondition(d) && (NoVirtualField(domain) ==> NoVirtualField(d))
  {
    var d1 := Without(domain, COMPANY);
    var d := Without(d1, BALANCE);
    WithoutListShaped(domain, COMPANY);
    WithoutListShaped(d1, BALANCE);
    if NoVirtualField(domain) {
      forall i | 0 <= i < |d| && d[i].Arr?
        ensures if IsCondition(d[i].items) then !IsVirtual(d[i].items[0].s) else NoVirtualField(d[i].items)
      {
        assert d[i] in d && d[i] in domain;
        var k :| 0 <= k < |domain| && domain[k] == d[i];
      }
    }
    if |d| == 3 {
      assert d[0] in d;
    }
  }

  lemma ActiveMeans(column: string, active: Option<bool>, db: Db, row: RowOf)
    ensures AllTrue(ActiveExpr(column, active), db, row) <==> IsActive(column, active, db, row)
  {
    if column != "" {
      var e, c := ActiveExpr(column, active)[0], QuoteIdent(column);
      assert ActiveExpr(column, active) == [e];
      if active.GetOr(true) {
        assert Eval(e, db, row) == Or3(Compare3(db, row(c), Eq, Bool(true)), Truly(row(c).Null?));
      } else {
        assert Eval(e, db, row) == Compare3(db, row(c), Eq, Bool(false));
      }
      assert AllTrue([e], db, row) <==> Eval(e, db, row) == T;
    }
  }

  lemma PreparedMeaning(domain: seq<Json>, alias: string, fmt: Fmt, db: Db, row: RowOf)
    requires ListShaped(domain) && DroppedHold(domain, COMPANY, fmt, db, row)
    requires alias != "" ==> AliasOf(alias, row) && NoVirtualField(domain)
    ensures Meaning(Prepared(domain, alias), fmt, db, row) == Meaning(Without(domain, BALANCE), fmt, db, row)
    ensures Meaning(domain, fmt, db, row) == T ==> Meaning(Without(domain, BALANCE), fmt, db, row) == T
  {
    var d1, b := Without(domain, COMPANY), Without(domain, BALANCE);
    var d2 := Without(d1, BALANCE);
    WithoutListShaped(domain, COMPANY);
    WithoutListShaped(domain, BALANCE);
    WithoutListShaped(d1, BALANCE);
    WithoutMeaning(domain, BALANCE, fmt, db, row);
    WithoutCommutes(domain, COMPANY, BALANCE);
    assert DroppedHold(b, COMPANY, fmt, db, row);
    WithoutMeaning(b, COMPANY, fmt, db, row);
    ListMeaning(domain, fmt, db, row);
    ListMeaning(b, fmt, db, row);
    ListMeaning(d2, fmt, db, row);
    if alias != "" {
      StrippedShape(domain);
      QualifyPreserves(d2, alias, fmt, db, row);
    }
  }

  lemma {:induction false} WithoutCommutes(d: seq<Json>, p: Json -> bool, q: Json -> bool)
    ensures Without(Without(d, p), q) == Without(Without(d, q), p)
    decreases |d|
  {
    if d != [] {
      WithoutCommutes(d[..|d| - 1], p, q);
      WithoutLast(Without(d[..|d| - 1], p), d[|d| - 1], q);
      WithoutLast(Without(d[..|d| - 1], q), d[|d| - 1], p);
      assert Without(d[..|d| - 1], p) + [] == Without(d[..|d| - 1], p);
      assert Without(d[..|d| - 1], q) + [] == Without(d[..|d| - 1], q);
    }
  }

  lemma WithoutLast(d: seq<Json>, item: Json, drop: Json -> bool)
    ensures Without(d + [item], drop) == Without(d, drop) + if drop(item) then [] else [item]
  {
    assert (d + [item])[..|d|] == d;
  }

  // ------------------------------------------------------------ paging

  datatype Page<R> = Page(data: seq<R>, nextPage: bool, total: nat)

  /** The rows from position `from` on, at most `n` of them. */
  function Window<R>(rows: seq<R>, from: nat, n: nat): seq<R> {
    if from >= |rows| then [] else if from + n > |rows| then rows[from..] else rows[from..from + n]
  }

  /** One page of an ordered result; without a limit there is one page. */
  function PageOf<R>(rows: seq<R>, limit: int, offset: int): Page<R> {
    if limit <= 0 then Page(rows, false, |rows|)
    else
      var o := if offset < 0 then 0 else offset;
      assert o * limit >= 0;
      Page(Window(rows, o * limit, limit), |rows| > 0 && (offset + 1) * limit < |rows|, |rows|)
  }

  /** What a page is: it always tells the size of the whole result; without a limit it holds every row,
      and with one the rows `offset` pages on, as many as there are up to the limit; there is a next
      page exactly if some row comes after it. A negative offset shows the first page, with a next one
      announced if there are rows at all. */
  lemma PageExact<R>(rows: seq<R>, limit: int, offset: int, from: int)
    requires from == (if offset < 0 then 0 else offset) * limit
    ensures var p := PageOf(rows, limit, offset);
            && p.total == |rows|
            && (limit <= 0 ==> p.data == rows && !p.nextPage)
            && (limit > 0 ==>
                  && |p.data| == (if from >= |rows| then 0 else if from + limit > |rows| then |rows| - from else limit)
                  && (forall k :: 0 <= k < |p.data| ==> p.data[k] == rows[from + k])
                  && (p.nextPage <==> if offset < 0 then |rows| > 0 else from + limit < |rows|))
  {
    if limit > 0 && offset >= 0 {
      PageAt(rows, limit, offset);
    } else if limit > 0 {
      assert (offset + 1) * limit <= 0;
    }
  }

  /** The pages a client sees that asks for the next one as long as there is one. */
  function Crawl<R>(rows: seq<R>, limit: int, offset: nat): (ps: seq<Page<R>>)
    requires limit > 0
    ensures |ps| > 0
    decreases |rows| - offset * limit
  {
    var p := PageOf(rows, limit, offset);
    if p.nextPage then
      assert (offset + 1) * limit == offset * limit + limit;
      [p] + Crawl(rows, limit, offset + 1)
    else [p]
  }

  function AllData<R>(ps: seq<Page<R>>): seq<R> {
    if ps == [] then [] else ps[0].data + AllData(ps[1..])
  }

  /** `n` pages are enough for all rows, and one fewer is not (one page is always fetched). */
  ghost predicate JustEnough(total: nat, limit: int, n: int) {
    (n - 1) * limit < (if total == 0 then 1 else total) && total <= n * limit
  }

  lemma PageAt<R>(rows: seq<R>, limit: int, offset: nat)
    requires limit > 0
    ensures offset * limit >= 0 && (offset + 1) * limit == offset * limit + limit
    ensures PageOf(rows, limit, offset).data == Window(rows, offset * limit, limit)
    ensures PageOf(rows, limit, offset).nextPage <==> |rows| > 0 && offset * limit + limit < |rows|
  {
  }

  lemma FirstPage<R>(p: Page<R>, rest: seq<Page<R>>)
    ensures AllData([p] + rest) == p.data + AllData(rest)
    ensures rest == [] ==> AllData([p]) == p.data
  {
    assert ([p] + rest)[1..] == rest && [p][1..] == [];
    assert p.data + [] == p.data;
  }

  lemma {:induction false} CrawlData<R>(rows: seq<R>, limit: int, offset: nat, from: nat)
    requires limit > 0 && from == offset * limit <= |rows|
    ensures AllData(Crawl(rows, limit, offset)) == rows[from..]
    decreases |rows| - from
  {
    PageAt(rows, limit, offset);
    var p := PageOf(rows, limit, offset);
    assert p.data == Window(rows, from, limit);
    if p.nextPage {
      assert from + limit == (offset + 1) * limit;
      CrawlData(rows, limit, offset + 1, from + limit);
      FirstPage(p, Crawl(rows, limit, offset + 1));
      assert p.data == rows[from..from + limit];
      assert rows[from..] == rows[from..from + limit] + rows[from + limit..];
    } else {
      FirstPage(p, []);
    }
  }

  lemma {:induction false} CrawlTotals<R>(rows: seq<R>, limit: int, offset: nat)
    requires limit > 0
    ensures forall p :: p in Crawl(rows, limit, offset) ==> p.total == |rows|
    decreases |rows| - offset * limit
  {
    PageAt(rows, limit, offset);
    if PageOf(rows, limit, offset).nextPage {
      CrawlTotals(rows, limit, offset + 1);
    }
  }

  lemma {:induction false} CrawlCount<R>(rows: seq<R>, limit: int, offset: nat)
    requires limit > 0 && (offset == 0 || offset * limit < |rows|)
    ensures JustEnough(|rows|, limit, offset + |Crawl(rows, limit, offset)|)
    decreases |rows| - offset * limit
  {
    PageAt(rows, limit, offset);
    if PageOf(rows, limit, offset).nextPage {
      CrawlCount(rows, limit, offset + 1);
      assert offset + |Crawl(rows, limit, offset)| == (offset + 1) + |Crawl(rows, limit, offset + 1)|;
    }
  }

  /** Paging is complete: the pages put together are the whole result, each row once, and there
      are as many as pages are needed, one if there are no rows. */
  lemma CrawlComplete<R>(rows: seq<R>, limit: int)
    requires limit > 0
    ensures AllData(Crawl(rows, limit, 0)) == rows
    ensures JustEnough(|rows|, limit, |Crawl(rows, limit, 0)|)
    ensures forall p :: p in Crawl(rows, limit, 0) ==> p.total == |rows|
  {
    CrawlData(rows, limit, 0, 0);
    CrawlTotals(rows, limit, 0);
    CrawlCount(rows, limit, 0);
  }
}
