/** The filter compiler keeps the meaning of a domain: read back as SQL, the clauses it emits
    keep exactly the rows for which the domain is true. */
module FilterCorrect {
  import opened Options
  import opened LikePatterns
  import opened Sql
  import opened DomainFilter

  /** Read as `e` with anything at all behind it. */
  ghost predicate Atom(ts: seq<Token>, e: Expr) {
    forall rest: seq<Token> :: ReadNot(ts + rest) == Some((e, rest))
  }

  lemma AtomReadsTo(ts: seq<Token>, e: Expr)
    requires Atom(ts, e)
    ensures ReadsTo(ts, e)
  {
    forall rest: seq<Token> | rest == [] || rest[0] == RParen
      ensures ReadOr(ts + rest) == Some((e, rest))
    {
      assert ReadNot(ts + rest) == Some((e, rest));
    }
  }

  // ------------------------------------------------------------ single conditions

  /** A column, an operator and a value, read inside any text. */
  lemma ReadCompare(c: Column, op: CmpOp, v: Json, rest: seq<Token>)
    ensures ReadNot([Col(c), Cmp(op), Lit(v)] + rest) == Some((Compare(c, op, v), rest))
  {
    var ts := [Col(c), Cmp(op), Lit(v)] + rest;
    assert ts[1..] == [Cmp(op), Lit(v)] + rest && ts[1..][2..] == rest;
  }

  lemma ReadLike(c: Column, v: Json, rest: seq<Token>)
    ensures ReadNot([Col(c), KwILike, Lit(v)] + rest) == Some((ILike(c, v), rest))
  {
    var ts := [Col(c), KwILike, Lit(v)] + rest;
    assert ts[1..] == [KwILike, Lit(v)] + rest && ts[1..][2..] == rest;
  }

  lemma ReadIs(c: Column, rest: seq<Token>)
    ensures ReadNot([Col(c), KwIs, KwNull] + rest) == Some((IsNull(c), rest))
    ensures ReadNot([Col(c), KwIs, KwNot, KwNull] + rest) == Some((Not(IsNull(c)), rest))
  {
    var ts := [Col(c), KwIs, KwNull] + rest;
    assert ts[1..] == [KwIs, KwNull] + rest && ts[1..][2..] == rest;
    var ns := [Col(c), KwIs, KwNot, KwNull] + rest;
    assert ns[1..] == [KwIs, KwNot, KwNull] + rest && ns[1..][3..] == rest;
  }

  lemma ReadExists(v: Json, rest: seq<Token>)
    ensures ReadNot([ExistsCfdi, Lit(v), RParen] + rest) == Some((ExistsIssued(v), rest))
  {
    var ts := [ExistsCfdi, Lit(v), RParen] + rest;
    assert ts[3..] == rest;
  }

  lemma ReadConst(rest: seq<Token>)
    ensures ReadNot([KwTrue] + rest) == Some((Const(true), rest))
    ensures ReadNot([KwFalse] + rest) == Some((Const(false), rest))
  {
    assert ([KwTrue] + rest)[1..] == rest && ([KwFalse] + rest)[1..] == rest;
  }

  /** The values in place of the placeholders of a list. */
  function Values(vs: seq<Json>): seq<Token>
    requires vs != []
  {
    if |vs| == 1 then [Lit(vs[0])] else [Lit(vs[0]), Comma] + Values(vs[1..])
  }

  lemma {:induction false} ReadValues(vs: seq<Json>, rest: seq<Token>)
    requires vs != []
    ensures ReadList(Values(vs) + ([RParen] + rest)) == Some((vs, rest))
  {
    var ts := Values(vs) + ([RParen] + rest);
    assert vs == [vs[0]] + vs[1..];
    if |vs| == 1 {
      assert vs == [vs[0]];
      assert ts[0] == Lit(vs[0]) && ts[1] == RParen && ts[2..] == rest;
    } else {
      ReadValues(vs[1..], rest);
      assert ts[2..] == Values(vs[1..]) + ([RParen] + rest);
    }
  }

  lemma ReadColumnIn(c: Column, tail: seq<Token>, e: Expr, rest: seq<Token>)
    requires ReadIn(c, tail) == Some((e, rest))
    ensures ReadNot([Col(c)] + ([KwIn] + tail)) == Some((e, rest))
  {
    var after := [KwIn] + tail;
    var ts := [Col(c)] + after;
    assert ts[0] == Col(c) && ts[1..] == after && after[1..] == tail;
    assert ReadPrimary(ts) == ReadColumn(c, after);
  }

  lemma ReadColumnNotIn(c: Column, tail: seq<Token>, e: Expr, rest: seq<Token>)
    requires ReadIn(c, tail) == Some((e, rest))
    ensures ReadNot([Col(c)] + ([KwNot, KwIn] + tail)) == Some((Not(e), rest))
  {
    var after := [KwNot, KwIn] + tail;
    var ts := [Col(c)] + after;
    assert ts[0] == Col(c) && ts[1..] == after && after[2..] == tail;
    assert ReadPrimary(ts) == ReadColumn(c, after);
  }

  /** The subquery over the EFOS list. */
  lemma ReadSubquery(c: Column, rest: seq<Token>)
    ensures ReadIn(c, [LParen, SelectEfos, RParen] + rest) == Some((InEfos(c), rest))
  {
    assert ([LParen, SelectEfos, RParen] + rest)[3..] == rest;
  }

  lemma ReadEfos(c: Column, rest: seq<Token>)
    ensures ReadNot([Col(c), KwIn, LParen, SelectEfos, RParen] + rest) == Some((InEfos(c), rest))
  {
    ReadSubquery(c, rest);
    ReadColumnIn(c, [LParen, SelectEfos, RParen] + rest, InEfos(c), rest);
    Prefix5(Col(c), KwIn, LParen, SelectEfos, RParen, rest);
  }

  lemma Prefix5<X>(a: X, b: X, c: X, d: X, e: X, rest: seq<X>)
    ensures [a, b, c, d, e] + rest == [a] + ([b] + ([c, d, e] + rest))
  {
  }

  lemma Prefix6<X>(a: X, b: X, c: X, d: X, e: X, f: X, rest: seq<X>)
    ensures [a, b, c, d, e, f] + rest == [a] + ([b, c] + ([d, e, f] + rest))
  {
  }

  lemma ReadNotEfos(c: Column, rest: seq<Token>)
    ensures ReadNot([Col(c), KwNot, KwIn, LParen, SelectEfos, RParen] + rest) == Some((Not(InEfos(c)), rest))
  {
    var tail := [LParen, SelectEfos, RParen] + rest;
    ReadSubquery(c, rest);
    ReadColumnNotIn(c, tail, InEfos(c), rest);
    Prefix6(Col(c), KwNot, KwIn, LParen, SelectEfos, RParen, rest);
  }

  lemma ReadMember(c: Column, vs: seq<Json>, rest: seq<Token>)
    requires vs != []
    ensures ReadIn(c, [LParen] + (Values(vs) + ([RParen] + rest))) == Some((In(c, vs), rest))
  {
    ReadValues(vs, rest);
    var list := Values(vs) + ([RParen] + rest);
    assert ([LParen] + list)[1..] == list && list[0].Lit?;
  }

  // ------------------------------------------------------------ putting readings together

  lemma AndAtoms(a: seq<Token>, e: Expr, b: seq<Token>, f: Expr)
    requires Atom(a, e) && Atom(b, f)
    ensures ReadsTo(a + ([KwAnd] + b), And(e, f))
  {
    forall rest: seq<Token> | rest == [] || rest[0] == RParen
      ensures ReadOr((a + ([KwAnd] + b)) + rest) == Some((And(e, f), rest))
    {
      var more := [KwAnd] + (b + rest);
      assert (a + ([KwAnd] + b)) + rest == a + more;
      assert ReadNot(a + more) == Some((e, more)) && ReadNot(b + rest) == Some((f, rest));
      assert more[1..] == b + rest;
      assert ReadAnd(b + rest) == Some((f, rest));
      assert ReadAnd(a + more) == Some((And(e, f), rest));
    }
  }

  lemma OrThen(a: seq<Token>, e: Expr, b: seq<Token>, f: Expr)
    requires Atom(a, e) && ReadsTo(b, f)
    ensures ReadsTo(a + ([KwOr] + b), Or(e, f))
  {
    forall rest: seq<Token> | rest == [] || rest[0] == RParen
      ensures ReadOr((a + ([KwOr] + b)) + rest) == Some((Or(e, f), rest))
    {
      var more := [KwOr] + (b + rest);
      assert (a + ([KwOr] + b)) + rest == a + more;
      assert ReadNot(a + more) == Some((e, more)) && ReadOr(b + rest) == Some((f, rest));
      assert more[1..] == b + rest;
    }
  }

  lemma ParenAtom(ts: seq<Token>, e: Expr)
    requires ReadsTo(ts, e)
    ensures Atom([LParen] + (ts + [RParen]), e)
  {
    forall rest: seq<Token> ensures ReadNot(([LParen] + (ts + [RParen])) + rest) == Some((e, rest)) {
      ReadParenthesised(ts, e, rest);
      assert ([LParen] + (ts + [RParen])) + rest == [LParen] + (ts + ([RParen] + rest));
    }
  }

  lemma NotAtom(ts: seq<Token>, e: Expr)
    requires Atom(ts, e)
    ensures Atom([KwNot] + ts, Not(e))
  {
    forall rest: seq<Token> ensures ReadNot(([KwNot] + ts) + rest) == Some((Not(e), rest)) {
      assert ReadNot(ts + rest) == Some((e, rest));
      assert (([KwNot] + ts) + rest)[1..] == ts + rest;
    }
  }

  lemma CompareAtom(c: Column, op: CmpOp, v: Json)
    ensures Atom([Col(c), Cmp(op), Lit(v)], Compare(c, op, v))
  {
    forall rest: seq<Token> ensures ReadNot([Col(c), Cmp(op), Lit(v)] + rest) == Some((Compare(c, op, v), rest)) {
      ReadCompare(c, op, v, rest);
    }
  }

  function UsedInIsr(): Expr {
    Or(Compare(TIPO, Eq, Str("P")), And(Compare(TIPO, Eq, Str("I")), Compare(METODO, Eq, Str("PUE"))))
  }

  /** The bound text of the virtual field, from its three comparisons. */
  function IsrText(p: seq<Token>, i: seq<Token>, pue: seq<Token>): seq<Token> {
    [LParen] + ((p + ([KwOr] + ([LParen] + ((i + ([KwAnd] + pue)) + [RParen])))) + [RParen])
  }

  function Compared(c: Column, s: string): seq<Token> {
    [Col(c), Cmp(Eq), Lit(Str(s))]
  }

  lemma IsrAtom()
    ensures Atom(IsrText(Compared(TIPO, "P"), Compared(TIPO, "I"), Compared(METODO, "PUE")), UsedInIsr())
  {
    var p, i, pue := Compared(TIPO, "P"), Compared(TIPO, "I"), Compared(METODO, "PUE");
    CompareAtom(TIPO, Eq, Str("P"));
    CompareAtom(TIPO, Eq, Str("I"));
    CompareAtom(METODO, Eq, Str("PUE"));
    var e, f := Compare(TIPO, Eq, Str("P")), And(Compare(TIPO, Eq, Str("I")), Compare(METODO, Eq, Str("PUE")));
    AndAtoms(i, Compare(TIPO, Eq, Str("I")), pue, Compare(METODO, Eq, Str("PUE")));
    ParenAtom(i + ([KwAnd] + pue), f);
    var inner := [LParen] + ((i + ([KwAnd] + pue)) + [RParen]);
    AtomReadsTo(inner, f);
    OrThen(p, e, inner, f);
    ParenAtom(p + ([KwOr] + inner), Or(e, f));
  }

  /** The condition as an expression. */
  function ConditionExpr(field: string, op: string, v: Json, fmt: Fmt): Expr {
    var value := Unquote(v);
    if field == "efos" then (if op == "=" then InEfos(RFC_EMISOR) else Not(InEfos(RFC_EMISOR)))
    else if field == "cfdis.is_issued" then
      var b := CoerceToBool(value, fmt).GetOr(false);
      ExistsIssued(Bool(if op == "=" then b else !b))
    else if field == "used_in_isr" then
      var used := UsedInIsr();
      if value == Bool(true) then used else Not(used)
    else
      var c := QuoteIdent(field);
      if op == "is" || (op == "=" && value.Null?) then IsNull(c)
      else if op == "is not" || (op == "!=" && value.Null?) then Not(IsNull(c))
      else if op == "in" then (if ListItems(value) == [] then Const(false) else In(c, ListItems(value)))
      else if op == "not in" then (if ListItems(value) == [] then Const(true) else Not(In(c, ListItems(value))))
      else if op == "ilike" || op == "like" then ILike(c, LikePattern(value, fmt))
      else Compare(c, CmpOf(op).GetOr(Eq), value)
  }

  /** The rows the compiled condition lets through are those the condition is true of. */
  ghost predicate Agrees(field: string, op: string, v: Json, fmt: Fmt, db: Db, row: RowOf) {
    Eval(ConditionExpr(field, op, v, fmt), db, row) == T <==> ConditionMeaning(field, op, v, fmt, db, row) == T
  }

  lemma ConditionExprMeans(field: string, op: string, v: Json, fmt: Fmt, db: Db, row: RowOf)
    requires BuildCondition(field, op, v, fmt).Ok? && SupportedCondition(field, op, v, fmt)
    ensures Agrees(field, op, v, fmt, db, row)
  {
    var e := ConditionExpr(field, op, v, fmt);
    if field == "efos" {
      assert e == InEfos(RFC_EMISOR) || e == Not(InEfos(RFC_EMISOR));
    } else if field == "cfdis.is_issued" {
      assert e.ExistsIssued?;
    } else if field == "used_in_isr" {
      UsedInIsrMeans(db, row);
      assert Eval(Not(UsedInIsr()), db, row) == Not3(Eval(UsedInIsr(), db, row));
    } else {
      ColumnExprMeans(field, op, v, fmt, db, row);
    }
  }

  lemma UsedInIsrMeans(db: Db, row: RowOf)
    ensures Eval(UsedInIsr(), db, row)
              == Or3(Compare3(db, row(TIPO), Eq, Str("P")),
                     And3(Compare3(db, row(TIPO), Eq, Str("I")), Compare3(db, row(METODO), Eq, Str("PUE"))))
  {
    var i := And(Compare(TIPO, Eq, Str("I")), Compare(METODO, Eq, Str("PUE")));
    assert Eval(i, db, row) == And3(Compare3(db, row(TIPO), Eq, Str("I")), Compare3(db, row(METODO), Eq, Str("PUE")));
  }

  lemma ColumnExprMeans(field: string, op: string, v: Json, fmt: Fmt, db: Db, row: RowOf)
    requires field !in {"efos", "cfdis.is_issued", "used_in_isr"}
    requires BuildCondition(field, op, v, fmt).Ok? && SupportedCondition(field, op, v, fmt)
    ensures Agrees(field, op, v, fmt, db, row)
  {
    var c, value := QuoteIdent(field), Unquote(v);
    if op == "like" || op == "ilike" {
      LiteralMatches(TextOf(db, row(c)), fmt.sprint(value), db.same);
      assert ConditionExpr(field, op, v, fmt) == ILike(c, LikePattern(value, fmt));
    } else if op in {"is", "is not"} || (value.Null? && op in {"=", "!="}) {
      assert Eval(Not(IsNull(c)), db, row) == Not3(Eval(IsNull(c), db, row));
    } else if op == "in" || op == "not in" {
      MemberExprMeans(field, op, v, fmt, db, row);
    } else {
      assert CmpOf(op).Some? && ConditionExpr(field, op, v, fmt) == Compare(c, CmpOf(op).value, value);
    }
  }

  lemma MemberExprMeans(field: string, op: string, v: Json, fmt: Fmt, db: Db, row: RowOf)
    requires field !in {"efos", "cfdis.is_issued", "used_in_isr"} && op in {"in", "not in"}
    requires SupportedCondition(field, op, v, fmt)
    ensures Agrees(field, op, v, fmt, db, row)
  {
    var c, vals := QuoteIdent(field), ListItems(Unquote(v));
    assert Eval(Not(In(c, vals)), db, row) == Not3(Eval(In(c, vals), db, row));
  }

  lemma {:induction false} BindNone(ts: seq<Token>)
    requires forall t :: t in ts ==> !t.Hole?
    ensures Bind(ts, []) == Some(ts)
  {
    if ts != [] {
      BindNone(ts[1..]);
      assert ts == [ts[0]] + ts[1..];
    }
  }

  lemma BindHole(pre: seq<Token>, v: Json, ts: seq<Token>, args: seq<Json>)
    requires Bind(ts, args).Some? && forall t :: t in pre ==> !t.Hole?
    ensures Bind(pre + ([Hole] + ts), [v] + args) == Some(pre + ([Lit(v)] + Bind(ts, args).value))
  {
    assert ([Hole] + ts)[1..] == ts && ([v] + args)[1..] == args;
    BindPrefixes(pre, [Hole] + ts, [v] + args);
  }

  lemma BindLast(pre: seq<Token>, v: Json, post: seq<Token>)
    requires forall t :: t in pre + post ==> !t.Hole?
    ensures Bind(pre + ([Hole] + post), [v]) == Some(pre + ([Lit(v)] + post))
  {
    assert forall t :: t in pre || t in post ==> t in pre + post;
    BindNone(post);
    BindHole(pre, v, post, []);
    assert [v] + [] == [v];
  }

  lemma {:induction false} BindPlaces(vs: seq<Json>)
    requires vs != []
    ensures Bind(Places(|vs|), vs) == Some(Values(vs))
  {
    assert vs == [vs[0]] + vs[1..];
    if |vs| == 1 {
      BindLast([], vs[0], []);
      assert [] + ([Hole] + []) == Places(1) && [] + ([Lit(vs[0])] + []) == Values(vs);
    } else {
      var rest := Places(|vs| - 1);
      BindPlaces(vs[1..]);
      BindPrefixes([Comma], rest, vs[1..]);
      BindHole([], vs[0], [Comma] + rest, vs[1..]);
      assert [] + ([Hole] + ([Comma] + rest)) == Places(|vs|);
      assert [] + ([Lit(vs[0])] + ([Comma] + Values(vs[1..]))) == Values(vs);
    }
  }

  lemma BindMember(pre: seq<Token>, vs: seq<Json>)
    requires vs != [] && forall t :: t in pre ==> !t.Hole?
    ensures Bind(pre + Places(|vs|) + [RParen], vs) == Some(pre + Values(vs) + [RParen])
  {
    BindPlaces(vs);
    BindPrefixes(pre, Places(|vs|), vs);
    BindNone([RParen]);
    BindConcat(pre + Places(|vs|), vs, [RParen], []);
    assert vs + [] == vs;
  }

  lemma BindIsr()
    ensures Bind(USED_IN_ISR, ISR_ARGS) == Some(IsrText(Compared(TIPO, "P"), Compared(TIPO, "I"), Compared(METODO, "PUE")))
  {
    var p, i, pue := [LParen, Col(TIPO), Cmp(Eq)], [KwOr, LParen, Col(TIPO), Cmp(Eq)], [KwAnd, Col(METODO), Cmp(Eq)];
    var close := [RParen, RParen];
    BindLast(pue, Str("PUE"), close);
    BindHole(i, Str("I"), pue + ([Hole] + close), [Str("PUE")]);
    BindHole(p, Str("P"), i + ([Hole] + (pue + ([Hole] + close))), [Str("I")] + [Str("PUE")]);
    assert [Str("P")] + ([Str("I")] + [Str("PUE")]) == ISR_ARGS;
    IsrPieces(p, i, pue, close);
    IsrTextPieces(p, i, pue, close);
  }

  lemma IsrPieces(p: seq<Token>, i: seq<Token>, pue: seq<Token>, close: seq<Token>)
    requires p == [LParen, Col(TIPO), Cmp(Eq)] && i == [KwOr, LParen, Col(TIPO), Cmp(Eq)]
    requires pue == [KwAnd, Col(METODO), Cmp(Eq)] && close == [RParen, RParen]
    ensures USED_IN_ISR == p + ([Hole] + (i + ([Hole] + (pue + ([Hole] + close)))))
  {
  }

  lemma IsrTextPieces(p: seq<Token>, i: seq<Token>, pue: seq<Token>, close: seq<Token>)
    requires p == [LParen, Col(TIPO), Cmp(Eq)] && i == [KwOr, LParen, Col(TIPO), Cmp(Eq)]
    requires pue == [KwAnd, Col(METODO), Cmp(Eq)] && close == [RParen, RParen]
    ensures p + ([Lit(Str("P"))] + (i + ([Lit(Str("I"))] + (pue + ([Lit(Str("PUE"))] + close)))))
              == IsrText(Compared(TIPO, "P"), Compared(TIPO, "I"), Compared(METODO, "PUE"))
  {
  }

  /** A clause that is read as `e` wherever it stands. */
  ghost predicate AtomClause(c: Clause, e: Expr) {
    Bind(c.text, c.args).Some? && Atom(Bind(c.text, c.args).value, e)
  }

  lemma EfosIsAtom(op: string, v: Json, fmt: Fmt)
    requires BuildCondition("efos", op, v, fmt).Ok?
    ensures AtomClause(BuildCondition("efos", op, v, fmt).value, ConditionExpr("efos", op, v, fmt))
  {
    var c, e := BuildCondition("efos", op, v, fmt).value, ConditionExpr("efos", op, v, fmt);
    BindNone(c.text);
    forall rest: seq<Token> ensures ReadNot(c.text + rest) == Some((e, rest)) {
      if op == "=" {
        ReadEfos(RFC_EMISOR, rest);
      } else {
        ReadNotEfos(RFC_EMISOR, rest);
      }
    }
  }

  lemma IssuedIsAtom(op: string, v: Json, fmt: Fmt)
    requires BuildCondition("cfdis.is_issued", op, v, fmt).Ok?
    ensures AtomClause(BuildCondition("cfdis.is_issued", op, v, fmt).value, ConditionExpr("cfdis.is_issued", op, v, fmt))
  {
    var c, e := BuildCondition("cfdis.is_issued", op, v, fmt).value, ConditionExpr("cfdis.is_issued", op, v, fmt);
    BindLast([ExistsCfdi], c.args[0], [RParen]);
    assert c.text == [ExistsCfdi] + ([Hole] + [RParen]) && c.args == [c.args[0]];
    forall rest: seq<Token> ensures ReadNot([ExistsCfdi, Lit(c.args[0]), RParen] + rest) == Some((e, rest)) {
      ReadExists(c.args[0], rest);
    }
  }

  lemma IsrIsAtom(op: string, v: Json, fmt: Fmt)
    requires BuildCondition("used_in_isr", op, v, fmt).Ok?
    ensures AtomClause(BuildCondition("used_in_isr", op, v, fmt).value, ConditionExpr("used_in_isr", op, v, fmt))
  {
    BindIsr();
    IsrAtom();
    var bound := Bind(USED_IN_ISR, ISR_ARGS).value;
    BindPrefixes([KwNot], USED_IN_ISR, ISR_ARGS);
    NotAtom(bound, UsedInIsr());
  }

  lemma VirtualIsAtom(field: string, op: string, v: Json, fmt: Fmt)
    requires field in {"efos", "cfdis.is_issued", "used_in_isr"}
    requires BuildCondition(field, op, v, fmt).Ok?
    ensures AtomClause(BuildCondition(field, op, v, fmt).value, ConditionExpr(field, op, v, fmt))
  {
    if field == "efos" {
      EfosIsAtom(op, v, fmt);
    } else if field == "cfdis.is_issued" {
      IssuedIsAtom(op, v, fmt);
    } else {
      IsrIsAtom(op, v, fmt);
    }
  }

  lemma ColumnIsAtom(field: string, op: string, v: Json, fmt: Fmt)
    requires field !in {"efos", "cfdis.is_issued", "used_in_isr"}
    requires BuildCondition(field, op, v, fmt).Ok?
    ensures AtomClause(BuildCondition(field, op, v, fmt).value, ConditionExpr(field, op, v, fmt))
  {
    var c, e, col := BuildCondition(field, op, v, fmt).value, ConditionExpr(field, op, v, fmt), QuoteIdent(field);
    var value := Unquote(v);
    if op in {"is", "is not"} || (op in {"=", "!="} && value.Null?) {
      BindNone(c.text);
      forall rest: seq<Token> ensures ReadNot(c.text + rest) == Some((e, rest)) {
        ReadIs(col, rest);
      }
    } else if op in {"in", "not in"} {
      MemberIsAtom(field, op, v, fmt);
    } else {
      BindLast([c.text[0], c.text[1]], c.args[0], []);
      assert c.text == [c.text[0], c.text[1]] + ([Hole] + []) && c.args == [c.args[0]];
      assert [c.text[0], c.text[1]] + ([Lit(c.args[0])] + []) == [c.text[0], c.text[1], Lit(c.args[0])];
      forall rest: seq<Token> ensures ReadNot([c.text[0], c.text[1], Lit(c.args[0])] + rest) == Some((e, rest)) {
        if CmpOf(op).Some? {
          ReadCompare(col, CmpOf(op).value, value, rest);
        } else {
          ReadLike(col, LikePattern(value, fmt), rest);
        }
      }
    }
  }

  lemma Regroup<X>(a: seq<X>, b: seq<X>, c: seq<X>, d: seq<X>)
    ensures (a + b + c) + d == a + (b + (c + d))
  {
  }

  lemma ReadInText(c: Column, list: seq<Token>, e: Expr, rest: seq<Token>)
    requires ReadIn(c, [LParen] + (list + ([RParen] + rest))) == Some((e, rest))
    ensures ReadNot(([Col(c), KwIn, LParen] + list + [RParen]) + rest) == Some((e, rest))
  {
    var tail := [LParen] + (list + ([RParen] + rest));
    ReadColumnIn(c, tail, e, rest);
    Regroup([Col(c), KwIn, LParen], list, [RParen], rest);
    Prefix3(Col(c), KwIn, LParen, list + ([RParen] + rest));
  }

  lemma Prefix3<X>(a: X, b: X, c: X, d: seq<X>)
    ensures [a, b, c] + d == [a] + ([b] + ([c] + d))
  {
  }

  lemma ReadNotInText(c: Column, list: seq<Token>, e: Expr, rest: seq<Token>)
    requires ReadIn(c, [LParen] + (list + ([RParen] + rest))) == Some((e, rest))
    ensures ReadNot(([Col(c), KwNot, KwIn, LParen] + list + [RParen]) + rest) == Some((Not(e), rest))
  {
    var inner := list + ([RParen] + rest);
    Regroup([Col(c), KwNot, KwIn, LParen], list, [RParen], rest);
    ReadColumnNotIn(c, [LParen] + inner, e, rest);
    Prefix4(Col(c), KwNot, KwIn, LParen, inner);
  }

  lemma Prefix4<X>(a: X, b: X, c: X, d: X, e: seq<X>)
    ensures [a, b, c, d] + e == [a] + ([b, c] + ([d] + e))
  {
  }

  lemma InAtoms(c: Column, vals: seq<Json>)
    requires vals != []
    ensures Atom([Col(c), KwIn, LParen] + Values(vals) + [RParen], In(c, vals))
    ensures Atom([Col(c), KwNot, KwIn, LParen] + Values(vals) + [RParen], Not(In(c, vals)))
  {
    var list := Values(vals);
    forall rest: seq<Token>
      ensures ReadNot(([Col(c), KwIn, LParen] + list + [RParen]) + rest) == Some((In(c, vals), rest))
      ensures ReadNot(([Col(c), KwNot, KwIn, LParen] + list + [RParen]) + rest) == Some((Not(In(c, vals)), rest))
    {
      ReadMember(c, vals, rest);
      ReadInText(c, list, In(c, vals), rest);
      ReadNotInText(c, list, In(c, vals), rest);
    }
  }

  lemma MemberIsAtom(field: string, op: string, v: Json, fmt: Fmt)
    requires field !in {"efos", "cfdis.is_issued", "used_in_isr"} && op in {"in", "not in"}
    ensures BuildCondition(field, op, v, fmt).Ok?
    ensures AtomClause(BuildCondition(field, op, v, fmt).value, ConditionExpr(field, op, v, fmt))
  {
    var vals := ListItems(Unquote(v));
    if vals == [] {
      var c, e := BuildCondition(field, op, v, fmt).value, ConditionExpr(field, op, v, fmt);
      BindNone(c.text);
      forall rest: seq<Token> ensures ReadNot(c.text + rest) == Some((e, rest)) {
        ReadConst(rest);
      }
    } else {
      var col := QuoteIdent(field);
      InAtoms(col, vals);
      BindMember([Col(col), KwIn, LParen], vals);
      BindMember([Col(col), KwNot, KwIn, LParen], vals);
    }
  }

  lemma ConditionIsAtom(field: string, op: string, v: Json, fmt: Fmt)
    requires BuildCondition(field, op, v, fmt).Ok?
    ensures AtomClause(BuildCondition(field, op, v, fmt).value, ConditionExpr(field, op, v, fmt))
  {
    if field in {"efos", "cfdis.is_issued", "used_in_isr"} {
      VirtualIsAtom(field, op, v, fmt);
    } else {
      ColumnIsAtom(field, op, v, fmt);
    }
  }

  // ------------------------------------------------------------ groups and whole domains

  /** The conditions among the items as expressions. */
  function GroupExprs(items: seq<Json>, fmt: Fmt): seq<Expr> {
    if items == [] then []
    else if items[0].Arr? && IsCondition(items[0].items) then
      [ConditionExpr(items[0].items[0].s, items[0].items[1].s, items[0].items[2], fmt)] + GroupExprs(items[1..], fmt)
    else GroupExprs(items[1..], fmt)
  }

  ghost predicate AllAtoms(cs: seq<Clause>, es: seq<Expr>) {
    |cs| == |es| && forall i :: 0 <= i < |cs| ==> AtomClause(cs[i], es[i])
  }

  function Disjunction(es: seq<Expr>): Expr
    requires es != []
  {
    if |es| == 1 then es[0] else Or(es[0], Disjunction(es[1..]))
  }

  lemma {:induction false} GroupAtoms(items: seq<Json>, fmt: Fmt)
    requires GroupClauses(items, fmt).Ok?
    ensures AllAtoms(GroupClauses(items, fmt).value, GroupExprs(items, fmt))
  {
    if items != [] {
      GroupAtoms(items[1..], fmt);
      if items[0].Arr? && IsCondition(items[0].items) {
        var t := items[0].items;
        ConditionIsAtom(t[0].s, t[1].s, t[2], fmt);
        AtomsCons(BuildCondition(t[0].s, t[1].s, t[2], fmt).value, GroupClauses(items[1..], fmt).value,
                  ConditionExpr(t[0].s, t[1].s, t[2], fmt), GroupExprs(items[1..], fmt));
      }
    }
  }

  lemma AtomsCons(c: Clause, cs: seq<Clause>, e: Expr, es: seq<Expr>)
    requires AtomClause(c, e) && AllAtoms(cs, es)
    ensures AllAtoms([c] + cs, [e] + es)
  {
  }

  /** A supported group is read as what it means: some condition of it is true. */
  lemma {:induction false} GroupMeans(items: seq<Json>, fmt: Fmt, db: Db, row: RowOf)
    requires GroupClauses(items, fmt).Ok? && forall item :: item in items ==> SupportedTriple(item, fmt)
    ensures |GroupExprs(items, fmt)| == |items|
    ensures items != [] ==>
              (Eval(Disjunction(GroupExprs(items, fmt)), db, row) == T <==> AnyMeaning(items, fmt, db, row) == T)
  {
    if items != [] {
      assert items[0] in items;
      GroupMeans(items[1..], fmt, db, row);
      var c := items[0].items;
      ConditionExprMeans(c[0].s, c[1].s, c[2], fmt, db, row);
      assert Meaning(c, fmt, db, row) == ConditionMeaning(c[0].s, c[1].s, c[2], fmt, db, row);
      var es, rest := GroupExprs(items, fmt), GroupExprs(items[1..], fmt);
      assert es[0] == ConditionExpr(c[0].s, c[1].s, c[2], fmt) && es[1..] == rest;
    }
  }

  lemma {:induction false} OrReads(cs: seq<Clause>, es: seq<Expr>)
    requires cs != [] && AllAtoms(cs, es)
    ensures Bind(OrText(cs), WhereArgs(cs)).Some?
    ensures ReadsTo(Bind(OrText(cs), WhereArgs(cs)).value, Disjunction(es))
    decreases |cs|
  {
    assert AtomClause(cs[0], es[0]);
    var first := Bind(cs[0].text, cs[0].args).value;
    if |cs| == 1 {
      assert cs[1..] == [] && WhereArgs(cs) == cs[0].args;
      AtomReadsTo(first, es[0]);
    } else {
      OrReads(cs[1..], es[1..]);
      var text, args := OrText(cs[1..]), WhereArgs(cs[1..]);
      BindPrefixes([KwOr], text, args);
      BindConcat(cs[0].text, cs[0].args, [KwOr] + text, args);
      OrThen(first, es[0], Bind(text, args).value, Disjunction(es[1..]));
    }
  }

  /** An OR group is one clause, read as the disjunction of its conditions. */
  lemma OrClauseReads(cs: seq<Clause>, es: seq<Expr>)
    requires cs != [] && AllAtoms(cs, es)
    ensures AllReadAs(OrClause(cs), [Disjunction(es)])
  {
    OrReads(cs, es);
    var text, args := OrText(cs), WhereArgs(cs);
    var bound := Bind(text, args).value;
    BindNone([RParen]);
    BindConcat(text, args, [RParen], []);
    assert args + [] == args;
    BindPrefixes([LParen], text + [RParen], args);
    ParenAtom(bound, Disjunction(es));
    AtomReadsTo([LParen] + (bound + [RParen]), Disjunction(es));
  }

  /** What the clauses of a domain are read as, one expression each. */
  function DomainExprs(d: seq<Json>, fmt: Fmt): seq<Expr>
    decreases d, 1
  {
    if d == [] then []
    else if IsCondition(d) then [ConditionExpr(d[0].s, d[1].s, d[2], fmt)]
    else if d[0] == Str("|") then
      if |d| < 2 || !d[1].Arr? || GroupExprs(d[1].items, fmt) == [] then []
      else [Disjunction(GroupExprs(d[1].items, fmt))]
    else ListExprs(d, fmt)
  }

  function ListExprs(items: seq<Json>, fmt: Fmt): seq<Expr>
    decreases items, 0
  {
    if items == [] then []
    else (if items[0].Arr? then DomainExprs(items[0].items, fmt) else []) + ListExprs(items[1..], fmt)
  }

  lemma AppendReads(cs: seq<Clause>, es: seq<Expr>, cs': seq<Clause>, es': seq<Expr>)
    requires AllReadAs(cs, es) && AllReadAs(cs', es')
    ensures AllReadAs(cs + cs', es + es')
  {
  }

  lemma {:induction false} DomainReads(d: seq<Json>, fmt: Fmt)
    requires Compile(d, fmt).Ok?
    ensures AllReadAs(Compile(d, fmt).value, DomainExprs(d, fmt))
    decreases d, 1
  {
    if d == [] {
    } else if IsCondition(d) {
      ConditionIsAtom(d[0].s, d[1].s, d[2], fmt);
      var c := BuildCondition(d[0].s, d[1].s, d[2], fmt).value;
      AtomReadsTo(Bind(c.text, c.args).value, ConditionExpr(d[0].s, d[1].s, d[2], fmt));
    } else if d[0] == Str("|") {
      if |d| >= 2 {
        GroupAtoms(d[1].items, fmt);
        var cs := GroupClauses(d[1].items, fmt).value;
        if cs != [] {
          OrClauseReads(cs, GroupExprs(d[1].items, fmt));
        }
      }
    } else {
      ListReads(d, fmt);
    }
  }

  lemma {:induction false} ListReads(items: seq<Json>, fmt: Fmt)
    requires CompileAll(items, fmt).Ok?
    ensures AllReadAs(CompileAll(items, fmt).value, ListExprs(items, fmt))
    decreases items, 0
  {
    if items != [] {
      ListReads(items[1..], fmt);
      if items[0].Arr? {
        DomainReads(items[0].items, fmt);
        AppendReads(Compile(items[0].items, fmt).value, DomainExprs(items[0].items, fmt),
                    CompileAll(items[1..], fmt).value, ListExprs(items[1..], fmt));
      }
    }
  }

  lemma AllTrueAppend(es: seq<Expr>, es': seq<Expr>, db: Db, row: RowOf)
    ensures AllTrue(es + es', db, row) <==> AllTrue(es, db, row) && AllTrue(es', db, row)
  {
    var all := es + es';
    assert forall i :: 0 <= i < |es| ==> all[i] == es[i];
    assert forall i :: 0 <= i < |es'| ==> all[|es| + i] == es'[i];
  }

  lemma {:induction false} DomainMeans(d: seq<Json>, fmt: Fmt, db: Db, row: RowOf)
    requires Compile(d, fmt).Ok? && Supported(d, fmt)
    ensures AllTrue(DomainExprs(d, fmt), db, row) <==> Meaning(d, fmt, db, row) == T
    decreases d, 1
  {
    if d == [] {
    } else if IsCondition(d) {
      ConditionExprMeans(d[0].s, d[1].s, d[2], fmt, db, row);
      assert DomainExprs(d, fmt)[0] == ConditionExpr(d[0].s, d[1].s, d[2], fmt);
    } else if d[0] == Str("|") {
      GroupMeans(d[1].items, fmt, db, row);
      assert d[1].items[0] in d[1].items;
      assert DomainExprs(d, fmt)[0] == Disjunction(GroupExprs(d[1].items, fmt));
    } else {
      ListMeans(d, fmt, db, row);
    }
  }

  lemma {:induction false} ListMeans(items: seq<Json>, fmt: Fmt, db: Db, row: RowOf)
    requires CompileAll(items, fmt).Ok?
    requires forall i :: 0 <= i < |items| ==> items[i].Arr? && Supported(items[i].items, fmt)
    ensures AllTrue(ListExprs(items, fmt), db, row) <==> AllMeaning(items, fmt, db, row) == T
    decreases items, 0
  {
    if items != [] {
      ListMeans(items[1..], fmt, db, row);
      DomainMeans(items[0].items, fmt, db, row);
      AllTrueAppend(DomainExprs(items[0].items, fmt), ListExprs(items[1..], fmt), db, row);
    }
  }

  /** Whatever the domain, as long as it is accepted: there are as many placeholders as arguments,
      and the text is SQL that keeps the rows all its conditions are true of. */
  lemma CompiledKeeps(d: seq<Json>, fmt: Fmt, db: Db, row: RowOf)
    requires Compile(d, fmt).Ok?
    ensures var cs := Compile(d, fmt).value;
            && Holes(WhereText(cs)) == |WhereArgs(cs)|
            && (Keeps(cs, db, row) <==> AllTrue(DomainExprs(d, fmt), db, row))
  {
    DomainReads(d, fmt);
    KeepsExactly(Compile(d, fmt).value, DomainExprs(d, fmt), db, row);
  }

  /** The compiler preserves meaning: of a domain in one of the documented forms, the clauses,
      read as SQL with the arguments bound from left to right, keep a row exactly when the domain
      read directly is true of it. */
  lemma CompilerCorrect(d: seq<Json>, fmt: Fmt, db: Db, row: RowOf)
    requires Compile(d, fmt).Ok? && Supported(d, fmt)
    ensures Keeps(Compile(d, fmt).value, db, row) <==> Meaning(d, fmt, db, row) == T
  {
    CompiledKeeps(d, fmt, db, row);
    DomainMeans(d, fmt, db, row);
  }
}
