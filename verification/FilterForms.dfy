/** Where the filter compiler's reading of a domain and the domain's own part company: which single
    conditions it takes at their word, and which shapes of domains it misreads. */
module FilterForms {
  import opened LikePatterns
  import opened Sql
  import opened DomainFilter
  import opened FilterCorrect

  // ------------------------------------------------------------ single conditions

  ghost predicate AlwaysAgrees(field: string, op: string, v: Json, fmt: Fmt) {
    forall db: Db, row: RowOf :: Agrees(field, op, v, fmt, db, row)
  }

  /** Values are equal if they are the same; nothing is listed anywhere. */
  function PlainDb(): Db {
    Db((a, b) => a == b, (a, b) => false, v => "", EQUAL, [], [])
  }

  /** Every column has this value. */
  function Everywhere(v: Json): RowOf {
    c => v
  }

  lemma IsrMisread(op: string, v: Json, fmt: Fmt)
    requires BuildCondition("used_in_isr", op, v, fmt).Ok? && op != "="
    ensures !AlwaysAgrees("used_in_isr", op, v, fmt)
  {
    var db := PlainDb();
    var p, x := Everywhere(Str("P")), Everywhere(Str("X"));
    UsedInIsrMeans(db, p);
    UsedInIsrMeans(db, x);
    assert Eval(UsedInIsr(), db, p) == T && Eval(UsedInIsr(), db, x) == F;
    assert Eval(Not(UsedInIsr()), db, p) == F && Eval(Not(UsedInIsr()), db, x) == T;
    assert !Agrees("used_in_isr", op, v, fmt, db, p) || !Agrees("used_in_isr", op, v, fmt, db, x);
  }

  lemma LikeMisread(field: string, op: string, v: Json, fmt: Fmt)
    requires field !in {"efos", "cfdis.is_issued", "used_in_isr"} && op in {"like", "ilike"}
    requires !SupportedCondition(field, op, v, fmt)
    ensures !AlwaysAgrees(field, op, v, fmt)
  {
    var t := fmt.sprint(Unquote(v));
    PatternMatches(t);
    LiteralExactly(t);
    assert !Agrees(field, op, v, fmt, PlainDb(), Everywhere(Str(Misread(t))));
  }

  lemma ColumnMisread(field: string, op: string, v: Json, fmt: Fmt)
    requires field !in {"efos", "cfdis.is_issued", "used_in_isr"} && op !in {"like", "ilike"}
    requires BuildCondition(field, op, v, fmt).Ok? && !SupportedCondition(field, op, v, fmt)
    ensures !AlwaysAgrees(field, op, v, fmt)
  {
    var db, row, e := PlainDb(), Everywhere(Null), ConditionExpr(field, op, v, fmt);
    if op == "not in" {
      assert e == Const(true);
    } else if op == "is" {
      assert e == IsNull(QuoteIdent(field)) && Eval(e, db, row) == T;
    } else {
      assert op == "is not" && e == Not(IsNull(QuoteIdent(field)));
      assert Eval(IsNull(QuoteIdent(field)), db, row) == T && Eval(e, db, row) == F;
    }
    assert !Agrees(field, op, v, fmt, db, row);
  }

  /** Which conditions the compiler takes at their word: a condition it accepts lets through the
      rows it is true of, in every database, exactly if it is one of the supported ones. Others it
      misreads: any operator on `used_in_isr` as `=`, any value of `is` as null, `not in` a single
      value as true, and wildcards in the text of `like` as wildcards. */
  lemma SupportedExactly(field: string, op: string, v: Json, fmt: Fmt)
    requires BuildCondition(field, op, v, fmt).Ok?
    ensures AlwaysAgrees(field, op, v, fmt) <==> SupportedCondition(field, op, v, fmt)
  {
    if SupportedCondition(field, op, v, fmt) {
      forall db: Db, row: RowOf ensures Agrees(field, op, v, fmt, db, row) {
        ConditionExprMeans(field, op, v, fmt, db, row);
      }
    } else if field == "used_in_isr" {
      IsrMisread(op, v, fmt);
    } else if op in {"like", "ilike"} {
      LikeMisread(field, op, v, fmt);
    } else {
      ColumnMisread(field, op, v, fmt);
    }
  }

  // ------------------------------------------------------------ shapes of domains

  predicate Triple(item: Json) {
    item.Arr? && IsCondition(item.items)
  }

  /** A bar in front of the conditions themselves, instead of a list of them, filters nothing,
      though it means that one of the two holds. */
  lemma PrefixBarKeepsAll(a: Json, b: Json, fmt: Fmt, db: Db, row: RowOf)
    requires Triple(a) && Triple(b) && !Triple(a.items[2])
    ensures var d := [Str("|"), a, b];
            && Compile(d, fmt) == Ok([]) && Keeps(Compile(d, fmt).value, db, row)
            && (Meaning(d, fmt, db, row) == T <==>
                  Meaning(a.items, fmt, db, row) == T || Meaning(b.items, fmt, db, row) == T)
  {
    var d := [Str("|"), a, b];
    NoConditionInside(a.items, fmt);
    assert d[1..] == [a, b];
    TwoAlternatives(a, b, fmt, db, row);
  }

  /** The members of a condition, taken for a list of conditions, hold none. */
  lemma NoConditionInside(c: seq<Json>, fmt: Fmt)
    requires IsCondition(c) && !Triple(c[2])
    ensures GroupClauses(c, fmt) == Ok([])
  {
    assert c[1..][1..] == [c[2]] && [c[2]][1..] == [];
    assert GroupClauses([c[2]][1..], fmt) == Ok([]);
    assert GroupClauses([c[2]], fmt) == Ok([]);
    assert GroupClauses(c[1..], fmt) == Ok([]);
  }

  lemma TwoAlternatives(a: Json, b: Json, fmt: Fmt, db: Db, row: RowOf)
    requires a.Arr? && b.Arr?
    ensures AnyMeaning([a, b], fmt, db, row) == T <==>
              Meaning(a.items, fmt, db, row) == T || Meaning(b.items, fmt, db, row) == T
  {
    assert [a, b][1..] == [b] && [b][1..] == [];
    assert AnyMeaning([b], fmt, db, row) == Or3(Meaning(b.items, fmt, db, row), F);
  }

  /** A bar with nothing behind it, or with an empty list, filters nothing, though no alternative holds. */
  lemma EmptyBarKeepsAll(fmt: Fmt, db: Db, row: RowOf)
    ensures EmptyBarMisread([Str("|")], fmt, db, row) && EmptyBarMisread([Str("|"), Arr([])], fmt, db, row)
  {
    assert [Str("|")][1..] == [];
  }

  ghost predicate EmptyBarMisread(d: seq<Json>, fmt: Fmt, db: Db, row: RowOf) {
    Compile(d, fmt) == Ok([]) && Keeps([], db, row) && Meaning(d, fmt, db, row) == F
  }

  /** A domain nested in an OR group is passed over: only the rows of the condition beside it are
      kept, though those of the nested domain belong to the group as well. */
  lemma NestedDomainSkipped(nested: Json, c: Json, fmt: Fmt, db: Db, row: RowOf)
    requires nested.Arr? && !Triple(nested) && SupportedTriple(c, fmt)
    requires Compile([Str("|"), Arr([c])], fmt).Ok?
    ensures var d := [Str("|"), Arr([nested, c])];
            && Compile(d, fmt) == Compile([Str("|"), Arr([c])], fmt)
            && (Keeps(Compile(d, fmt).value, db, row) <==> Meaning(c.items, fmt, db, row) == T)
            && (Meaning(d, fmt, db, row) == T <==>
                  Meaning(nested.items, fmt, db, row) == T || Meaning(c.items, fmt, db, row) == T)
  {
    var one := [Str("|"), Arr([c])];
    assert [nested, c][1..] == [c];
    CompilerCorrect(one, fmt, db, row);
    assert [c][1..] == [] && AnyMeaning([c], fmt, db, row) == Or3(Meaning(c.items, fmt, db, row), F);
    TwoAlternatives(nested, c, fmt, db, row);
  }

  /** Lists behind the first are passed over, though each is an alternative. */
  lemma SecondListSkipped(c: Json, e: Json, fmt: Fmt, db: Db, row: RowOf)
    requires SupportedTriple(c, fmt) && Triple(e) && Compile([Str("|"), Arr([c])], fmt).Ok?
    ensures var d := [Str("|"), Arr([c]), Arr([e])];
            && (Keeps(Compile(d, fmt).value, db, row) <==> Meaning(c.items, fmt, db, row) == T)
            && (Meaning(d, fmt, db, row) == T <==>
                  Meaning(c.items, fmt, db, row) == T || Meaning(e.items, fmt, db, row) == T)
  {
    var d := [Str("|"), Arr([c]), Arr([e])];
    assert [c][1..] == [] && [e][1..] == [];
    CompilerCorrect([Str("|"), Arr([c])], fmt, db, row);
    assert AnyMeaning([c], fmt, db, row) == Or3(Meaning(c.items, fmt, db, row), F);
    assert AllMeaning([c][1..], fmt, db, row) == T && AllMeaning([e][1..], fmt, db, row) == T;
    assert d[1..] == [Arr([c]), Arr([e])];
    TwoAlternatives(Arr([c]), Arr([e]), fmt, db, row);
  }

  /** An item that is no list, such as a bar between conditions, is passed over, though the list is
      then no domain that any row is known to satisfy. */
  lemma StrayItemSkipped(a: seq<Json>, x: Json, b: seq<Json>, fmt: Fmt, db: Db, row: RowOf)
    requires a != [] && a[0].Arr? && !x.Arr?
    ensures Compile(a + [x] + b, fmt) == Compile(a + b, fmt)
    ensures Meaning(a + [x] + b, fmt, db, row) != T
  {
    StrayInList(a, x, b, fmt, db, row);
  }

  lemma {:induction false} StrayInList(a: seq<Json>, x: Json, b: seq<Json>, fmt: Fmt, db: Db, row: RowOf)
    requires !x.Arr?
    ensures CompileAll(a + [x] + b, fmt) == CompileAll(a + b, fmt)
    ensures AllMeaning(a + [x] + b, fmt, db, row) != T
  {
    var d := a + [x] + b;
    if a == [] {
      assert d == [x] + b && d[1..] == b && a + b == b;
      NothingAdded(b, fmt);
    } else {
      StrayInList(a[1..], x, b, fmt, db, row);
      assert d[0] == a[0] && d[1..] == a[1..] + [x] + b;
      assert (a + b)[0] == a[0] && (a + b)[1..] == a[1..] + b;
    }
  }

  lemma NothingAdded(b: seq<Json>, fmt: Fmt)
    ensures CompileAll(b, fmt).Ok? ==> [] + CompileAll(b, fmt).value == CompileAll(b, fmt).value
  {
  }
}
