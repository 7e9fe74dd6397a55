/** Which rows each documented filter keeps, operator by operator and form by form, in terms of the
    values in the row alone. */
module FilterRows {
  import opened Options
  import opened LikePatterns
  import opened Sql
  import opened DomainFilter
  import opened FilterCorrect

  /** The domain is accepted, and the row gets through what it is compiled to. */
  predicate Kept(d: seq<Json>, fmt: Fmt, db: Db, row: RowOf) {
    var r := Compile(d, fmt);
    r.Ok? && Keeps(r.value, db, row)
  }

  /** The same for a single condition. */
  predicate RowKept(field: string, op: string, v: Json, fmt: Fmt, db: Db, row: RowOf) {
    Kept([Str(field), Str(op), v], fmt, db, row)
  }

  lemma KeptByExpr(field: string, op: string, v: Json, fmt: Fmt, db: Db, row: RowOf)
    ensures RowKept(field, op, v, fmt, db, row) <==>
              BuildCondition(field, op, v, fmt).Ok? && Eval(ConditionExpr(field, op, v, fmt), db, row) == T
  {
    var d := [Str(field), Str(op), v];
    if BuildCondition(field, op, v, fmt).Ok? {
      CompiledKeeps(d, fmt, db, row);
      var e := ConditionExpr(field, op, v, fmt);
      assert DomainExprs(d, fmt) == [e];
      assert AllTrue([e], db, row) <==> Eval([e][0], db, row) == T;
    }
  }

  // ------------------------------------------------------------ columns

  /** A name without a dot is a column, one with a dot a table and a column of it. */
  lemma Named(a: string, b: string)
    requires '.' !in a
    ensures QuoteIdent(a) == Column(None, a) && QuoteIdent(a + "." + b) == Column(Some(a), b)
  {
    var s := a + "." + b;
    assert s[|a|] == '.' && forall k :: 0 <= k < |a| ==> s[k] == a[k];
    assert s[..|a|] == a && s[|a| + 1..] == b;
  }

  /** The field is the plain name of a column. */
  predicate Plain(field: string) {
    '.' !in field && field != "efos" && field != "used_in_isr"
  }

  lemma PlainColumn(field: string)
    requires Plain(field)
    ensures QuoteIdent(field) == Column(None, field) && field !in {"efos", "cfdis.is_issued", "used_in_isr"}
  {
    Named(field, "");
    assert "cfdis.is_issued"[5] == '.';
  }

  /** The comparisons, with a value that is not missing, keep the rows whose column has a value that
      compares so. */
  lemma ComparisonKeeps(field: string, op: string, v: Json, fmt: Fmt, db: Db, row: RowOf)
    requires Plain(field) && v != Null && v != Str("null")
    requires op in {"=", "!=", ">", "<", ">=", "<="}
    ensures var x := row(Column(None, field));
            RowKept(field, op, v, fmt, db, row) <==>
              !x.Null? && if op == "=" then db.eq(x, v)
                          else if op == "!=" then !db.eq(x, v)
                          else if op == ">" then db.lt(v, x)
                          else if op == "<" then db.lt(x, v)
                          else if op == ">=" then db.lt(v, x) || db.eq(x, v)
                          else db.lt(x, v) || db.eq(x, v)
  {
    PlainColumn(field);
    KeptByExpr(field, op, v, fmt, db, row);
  }

  lemma NullExprs(c: Column, db: Db, row: RowOf)
    ensures Eval(IsNull(c), db, row) == T <==> row(c).Null?
    ensures Eval(Not(IsNull(c)), db, row) == T <==> !row(c).Null?
  {
    assert Eval(Not(IsNull(c)), db, row) == Not3(Eval(IsNull(c), db, row));
  }

  /** With a missing value, which may be written "null", equality asks whether the column has one, and
      so do `is` and `is not` with any value. */
  lemma MissingKeeps(field: string, v: Json, any: Json, fmt: Fmt, db: Db, row: RowOf)
    requires Plain(field) && (v == Null || v == Str("null"))
    ensures var x := row(Column(None, field));
            && (RowKept(field, "=", v, fmt, db, row) <==> x.Null?)
            && (RowKept(field, "!=", v, fmt, db, row) <==> !x.Null?)
            && (RowKept(field, "is", any, fmt, db, row) <==> x.Null?)
            && (RowKept(field, "is not", any, fmt, db, row) <==> !x.Null?)
  {
    PlainColumn(field);
    NullExprs(Column(None, field), db, row);
    KeptByExpr(field, "=", v, fmt, db, row);
    KeptByExpr(field, "!=", v, fmt, db, row);
    KeptByExpr(field, "is", any, fmt, db, row);
    KeptByExpr(field, "is not", any, fmt, db, row);
  }

  /** `x` is equal to one of the values. */
  predicate OneOf(db: Db, x: Json, vs: seq<Json>) {
    !x.Null? && exists w :: w in vs && !w.Null? && db.eq(x, w)
  }

  /** `x` is different from each of the values, all of them known. */
  predicate NoneOf(db: Db, x: Json, vs: seq<Json>) {
    vs == [] || (!x.Null? && forall w :: w in vs ==> !w.Null? && !db.eq(x, w))
  }

  lemma {:induction false} MemberExactly(db: Db, x: Json, vs: seq<Json>)
    ensures Member3(db, x, vs) == T <==> OneOf(db, x, vs)
    ensures Member3(db, x, vs) == F <==> NoneOf(db, x, vs)
  {
    if vs != [] {
      MemberExactly(db, x, vs[1..]);
      assert vs == [vs[0]] + vs[1..];
      if NoneOf(db, x, vs) {
        assert vs[0] in vs;
      }
    }
  }

  /** Membership: `in` keeps the rows whose value is equal to one of the list, `not in` those whose value
      differs from all of them; a missing value counts for neither, unless the list is empty. */
  lemma ListKeeps(field: string, vs: seq<Json>, fmt: Fmt, db: Db, row: RowOf)
    requires Plain(field)
    ensures var x := row(Column(None, field));
            && (RowKept(field, "in", Arr(vs), fmt, db, row) <==> OneOf(db, x, vs))
            && (RowKept(field, "not in", Arr(vs), fmt, db, row) <==> NoneOf(db, x, vs))
  {
    PlainColumn(field);
    KeptByExpr(field, "in", Arr(vs), fmt, db, row);
    KeptByExpr(field, "not in", Arr(vs), fmt, db, row);
    ListExprMeans(field, vs, fmt, db, row);
  }

  lemma ListExprMeans(field: string, vs: seq<Json>, fmt: Fmt, db: Db, row: RowOf)
    requires Plain(field)
    ensures var x := row(Column(None, field));
            && (Eval(ConditionExpr(field, "in", Arr(vs), fmt), db, row) == T <==> OneOf(db, x, vs))
            && (Eval(ConditionExpr(field, "not in", Arr(vs), fmt), db, row) == T <==> NoneOf(db, x, vs))
  {
    PlainColumn(field);
    var c := Column(None, field);
    MemberExactly(db, row(c), vs);
    assert Eval(Not(In(c, vs)), db, row) == Not3(Eval(In(c, vs), db, row));
  }

  /** `like` and `ilike` keep the rows whose text contains the one asked for, if that has no percent sign,
      underscore or backslash in it. */
  lemma LikeKeeps(field: string, op: string, v: Json, fmt: Fmt, db: Db, row: RowOf)
    requires Plain(field) && op in {"like", "ilike"} && v != Null && v != Str("null")
    requires var s := fmt.sprint(v); '%' !in s && '_' !in s && '\\' !in s
    ensures var x := row(Column(None, field));
            RowKept(field, op, v, fmt, db, row) <==>
              !x.Null? && Contains(if x.Str? then x.s else db.text(x), fmt.sprint(v), db.same)
  {
    PlainColumn(field);
    KeptByExpr(field, op, v, fmt, db, row);
    var x := row(Column(None, field));
    LiteralMatches(TextOf(db, x), fmt.sprint(v), db.same);
  }

  /** On an ordinary column these twelve operators are accepted and no others. */
  lemma OperatorsAccepted(field: string, op: string, v: Json, fmt: Fmt)
    requires Plain(field)
    ensures Compile([Str(field), Str(op), v], fmt).Ok? <==>
              op in {"=", "!=", ">", "<", ">=", "<=", "in", "not in", "like", "ilike", "is", "is not"}
  {
    PlainColumn(field);
  }

  /** A dotted name is a column of the table before the dot. */
  lemma DottedKeeps(table: string, column: string, v: Json, fmt: Fmt, db: Db, row: RowOf)
    requires '.' !in table && table != "cfdis" && v != Null && v != Str("null")
    ensures var x := row(Column(Some(table), column));
            && (RowKept(table + "." + column, "=", v, fmt, db, row) <==> !x.Null? && db.eq(x, v))
            && (RowKept(table + "." + column, ">", v, fmt, db, row) <==> !x.Null? && db.lt(v, x))
  {
    var f := table + "." + column;
    Named(table, column);
    NoVirtualName(table, column);
    KeptByExpr(f, "=", v, fmt, db, row);
    KeptByExpr(f, ">", v, fmt, db, row);
  }

  lemma NoVirtualName(table: string, column: string)
    requires '.' !in table && table != "cfdis"
    ensures table + "." + column !in {"efos", "cfdis.is_issued", "used_in_isr"}
  {
    var f := table + "." + column;
    assert f[|table|] == '.';
    assert "cfdis.is_issued" == "cfdis" + "." + "is_issued";
    if f == "cfdis" + "." + "is_issued" {
      Named(table, column);
      Named("cfdis", "is_issued");
    }
  }

  // ------------------------------------------------------------ fields that stand for SQL of their own

  /** `efos` keeps the rows whose issuer is listed, or those whose issuer is known not to be. */
  lemma EfosKeeps(fmt: Fmt, db: Db, row: RowOf)
    ensures var x := row(Column(None, "RfcEmisor"));
            && (RowKept("efos", "=", Str("any"), fmt, db, row) <==> OneOf(db, x, db.efos))
            && (RowKept("efos", "!=", Str("any"), fmt, db, row) <==> NoneOf(db, x, db.efos))
  {
    var c := Column(None, "RfcEmisor");
    MemberExactly(db, row(c), db.efos);
    KeptByExpr("efos", "=", Str("any"), fmt, db, row);
    KeptByExpr("efos", "!=", Str("any"), fmt, db, row);
    assert Eval(Not(InEfos(c)), db, row) == Not3(Eval(InEfos(c), db, row));
  }

  /** Some CFDI was issued by this RFC, on the side asked for. */
  predicate SomeIssued(db: Db, rfc: Json, issued: bool) {
    exists c :: c in db.cfdis && !rfc.Null? && !c.rfcEmisor.Null? && db.eq(c.rfcEmisor, rfc)
                && !c.isIssued.Null? && db.eq(c.isIssued, Bool(issued))
  }

  /** The value stands for yes, or for no. */
  predicate SaysYes(v: Json, fmt: Fmt) {
    match v
    case Bool(b) => b
    case Num(n) => n == 1.0
    case Str(s) => fmt.norm(s) in {"true", "1", "t", "yes"}
    case _ => false
  }

  predicate SaysNo(v: Json, fmt: Fmt) {
    match v
    case Bool(b) => !b
    case Num(n) => n == 0.0
    case Str(s) => fmt.norm(s) in {"false", "0", "f", "no"}
    case _ => false
  }

  /** `cfdis.is_issued` keeps the listed companies with a CFDI on the side asked for; what stands for
      neither yes nor no is refused. */
  lemma IssuedKeeps(v: Json, fmt: Fmt, db: Db, row: RowOf)
    requires v != Str("null")
    ensures var rfc := row(Column(Some("e"), "rfc"));
            && (SaysYes(v, fmt) ==>
                  && (RowKept("cfdis.is_issued", "=", v, fmt, db, row) <==> SomeIssued(db, rfc, true))
                  && (RowKept("cfdis.is_issued", "!=", v, fmt, db, row) <==> SomeIssued(db, rfc, false)))
            && (SaysNo(v, fmt) ==>
                  && (RowKept("cfdis.is_issued", "=", v, fmt, db, row) <==> SomeIssued(db, rfc, false))
                  && (RowKept("cfdis.is_issued", "!=", v, fmt, db, row) <==> SomeIssued(db, rfc, true)))
            && (!SaysYes(v, fmt) && !SaysNo(v, fmt) ==> Compile([Str("cfdis.is_issued"), Str("="), v], fmt).Err?)
  {
    SaysExactly(v, fmt);
    KeptByExpr("cfdis.is_issued", "=", v, fmt, db, row);
    KeptByExpr("cfdis.is_issued", "!=", v, fmt, db, row);
    if CoerceToBool(v, fmt).Some? {
      IssuedExprs(v, fmt, db, row);
    }
  }

  lemma SaysExactly(v: Json, fmt: Fmt)
    ensures CoerceToBool(v, fmt) == Some(true) <==> SaysYes(v, fmt)
    ensures CoerceToBool(v, fmt) == Some(false) <==> SaysNo(v, fmt)
  {
  }

  lemma IssuedExprs(v: Json, fmt: Fmt, db: Db, row: RowOf)
    requires v != Str("null") && CoerceToBool(v, fmt).Some?
    ensures var (rfc, b) := (row(Column(Some("e"), "rfc")), CoerceToBool(v, fmt).value);
            && (Eval(ConditionExpr("cfdis.is_issued", "=", v, fmt), db, row) == T <==> SomeIssued(db, rfc, b))
            && (Eval(ConditionExpr("cfdis.is_issued", "!=", v, fmt), db, row) == T <==> SomeIssued(db, rfc, !b))
  {
    var rfc := row(Column(Some("e"), "rfc"));
    SomeCfdiIs(db, rfc, true);
    SomeCfdiIs(db, rfc, false);
  }

  lemma SomeCfdiIs(db: Db, rfc: Json, issued: bool)
    ensures SomeCfdi(db, rfc, Bool(issued)) <==> SomeIssued(db, rfc, issued)
  {
    forall c ensures Compare3(db, c, Eq, rfc) == T <==> !c.Null? && !rfc.Null? && db.eq(c, rfc) {
    }
  }

  /** `used_in_isr` keeps payments and income paid at once, or the rows known to be neither. */
  lemma IsrKeeps(fmt: Fmt, db: Db, row: RowOf)
    ensures var (t, m) := (row(Column(None, "TipoDeComprobante")), row(Column(None, "MetodoPago")));
            && (RowKept("used_in_isr", "=", Bool(true), fmt, db, row) <==>
                  !t.Null? && (db.eq(t, Str("P")) || (db.eq(t, Str("I")) && !m.Null? && db.eq(m, Str("PUE")))))
            && (RowKept("used_in_isr", "=", Bool(false), fmt, db, row) <==>
                  !t.Null? && !db.eq(t, Str("P")) && (!db.eq(t, Str("I")) || (!m.Null? && !db.eq(m, Str("PUE")))))
  {
    KeptByExpr("used_in_isr", "=", Bool(true), fmt, db, row);
    KeptByExpr("used_in_isr", "=", Bool(false), fmt, db, row);
    UsedInIsrMeans(db, row);
    assert Eval(Not(UsedInIsr()), db, row) == Not3(Eval(UsedInIsr(), db, row));
  }

  // ------------------------------------------------------------ lists and groups

  /** Field, operator and value: what counts as a single condition. */
  predicate Triple(x: Json) {
    x.Arr? && |x.items| == 3 && x.items[0].Str? && x.items[1].Str?
  }

  /** A list, which is no condition and begins with no bar, keeps the rows that all the lists in it keep,
      and is accepted if all of them are. An item that is no list counts for nothing. */
  lemma {:induction false} AndKeeps(d: seq<Json>, fmt: Fmt, db: Db, row: RowOf)
    requires !Triple(Arr(d)) && (d == [] || d[0] != Str("|"))
    ensures Compile(d, fmt).Ok? <==> forall i :: 0 <= i < |d| && d[i].Arr? ==> Compile(d[i].items, fmt).Ok?
    ensures Kept(d, fmt, db, row) <==> forall i :: 0 <= i < |d| && d[i].Arr? ==> Kept(d[i].items, fmt, db, row)
    decreases |d|
  {
    AllCompiled(d, fmt);
    assert Compile(d, fmt) == CompileAll(d, fmt);
    if CompileAll(d, fmt).Ok? {
      CompiledKeeps(d, fmt, db, row);
      assert DomainExprs(d, fmt) == ListExprs(d, fmt);
      AllKept(d, fmt, db, row);
    }
  }

  lemma {:induction false} AllCompiled(d: seq<Json>, fmt: Fmt)
    ensures CompileAll(d, fmt).Ok? <==> forall i :: 0 <= i < |d| && d[i].Arr? ==> Compile(d[i].items, fmt).Ok?
    decreases |d|
  {
    if d != [] {
      AllCompiled(d[1..], fmt);
      assert forall i :: 0 < i < |d| ==> d[i] == d[1..][i - 1];
    }
  }

  lemma {:induction false} AllKept(d: seq<Json>, fmt: Fmt, db: Db, row: RowOf)
    requires CompileAll(d, fmt).Ok?
    ensures AllTrue(ListExprs(d, fmt), db, row) <==>
              forall i :: 0 <= i < |d| && d[i].Arr? ==> Kept(d[i].items, fmt, db, row)
    decreases |d|
  {
    if d != [] {
      AllKept(d[1..], fmt, db, row);
      var first := if d[0].Arr? then DomainExprs(d[0].items, fmt) else [];
      AllTrueAppend(first, ListExprs(d[1..], fmt), db, row);
      if d[0].Arr? {
        CompiledKeeps(d[0].items, fmt, db, row);
      }
      assert forall i :: 0 < i < |d| ==> d[i] == d[1..][i - 1];
    }
  }

  /** A bar keeps the rows that one of the conditions in the list behind it keeps, or all rows if there
      is none. It is refused if what follows is no list or some condition in it is refused. */
  lemma OrKeeps(d: seq<Json>, fmt: Fmt, db: Db, row: RowOf)
    requires !Triple(Arr(d)) && d != [] && d[0] == Str("|")
    ensures |d| == 1 ==> Kept(d, fmt, db, row)
    ensures |d| > 1 && !d[1].Arr? ==> Compile(d, fmt).Err?
    ensures |d| > 1 && d[1].Arr? ==>
              var items := d[1].items;
              && (Compile(d, fmt).Ok? <==>
                    forall i :: 0 <= i < |items| && Triple(items[i]) ==> Compile(items[i].items, fmt).Ok?)
              && (Compile(d, fmt).Ok? ==>
                    (Kept(d, fmt, db, row) <==>
                       || (forall i :: 0 <= i < |items| ==> !Triple(items[i]))
                       || exists i :: 0 <= i < |items| && Triple(items[i]) && Kept(items[i].items, fmt, db, row)))
  {
    if |d| > 1 && d[1].Arr? {
      var items := d[1].items;
      GroupCompiled(items, fmt);
      if Compile(d, fmt).Ok? {
        SomeKept(items, fmt, db, row);
        CompiledKeeps(d, fmt, db, row);
        if GroupExprs(items, fmt) != [] {
          var e := Disjunction(GroupExprs(items, fmt));
          assert DomainExprs(d, fmt) == [e];
          assert AllTrue([e], db, row) <==> Eval([e][0], db, row) == T;
        }
      }
    }
  }

  lemma {:induction false} GroupCompiled(items: seq<Json>, fmt: Fmt)
    ensures GroupClauses(items, fmt).Ok? <==>
              forall i :: 0 <= i < |items| && Triple(items[i]) ==> Compile(items[i].items, fmt).Ok?
    decreases |items|
  {
    if items != [] {
      GroupCompiled(items[1..], fmt);
      assert forall i :: 0 < i < |items| ==> items[i] == items[1..][i - 1];
    }
  }

  /** Some condition among the items keeps the row. */
  ghost predicate OneKeeps(items: seq<Json>, fmt: Fmt, db: Db, row: RowOf) {
    exists i :: 0 <= i < |items| && Triple(items[i]) && Kept(items[i].items, fmt, db, row)
  }

  lemma {:induction false} SomeKept(items: seq<Json>, fmt: Fmt, db: Db, row: RowOf)
    requires GroupClauses(items, fmt).Ok?
    ensures GroupExprs(items, fmt) == [] <==> forall i :: 0 <= i < |items| ==> !Triple(items[i])
    ensures GroupExprs(items, fmt) != [] ==>
              (Eval(Disjunction(GroupExprs(items, fmt)), db, row) == T <==> OneKeeps(items, fmt, db, row))
    decreases |items|
  {
    if items != [] {
      SomeKept(items[1..], fmt, db, row);
      OneKeepsCons(items, fmt, db, row);
      assert forall i :: 0 < i < |items| ==> items[i] == items[1..][i - 1];
      if Triple(items[0]) {
        var c, es := items[0].items, GroupExprs(items, fmt);
        assert c == [Str(c[0].s), Str(c[1].s), c[2]];
        KeptByExpr(c[0].s, c[1].s, c[2], fmt, db, row);
        assert es[0] == ConditionExpr(c[0].s, c[1].s, c[2], fmt) && es[1..] == GroupExprs(items[1..], fmt);
      }
    }
  }

  lemma OneKeepsCons(items: seq<Json>, fmt: Fmt, db: Db, row: RowOf)
    requires items != []
    ensures OneKeeps(items, fmt, db, row) <==>
              (Triple(items[0]) && Kept(items[0].items, fmt, db, row)) || OneKeeps(items[1..], fmt, db, row)
  {
    if i :| 0 <= i < |items[1..]| && Triple(items[1..][i]) && Kept(items[1..][i].items, fmt, db, row) {
      assert items[i + 1] == items[1..][i];
    }
  }
}
