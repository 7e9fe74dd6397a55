/** The part of SQL the filters are written in: tokens, a reader with the usual precedence of
    OR, AND and NOT, and three-valued evaluation. */
module Sql {
  import opened Options
  import opened LikePatterns

  /** A decoded JSON value; also a column value or a bound argument. */
  datatype Json = Null | Bool(b: bool) | Num(n: real) | Str(s: string) | Arr(items: seq<Json>) | Obj

  /** A column, possibly qualified by a table. */
  datatype Column = Column(table: Option<string>, name: string)

  datatype CmpOp = Eq | Ne | Gt | Ge | Lt | Le

  /** Quoted identifiers are one token. `SelectEfos` is the subquery over the EFOS list, and
      `ExistsCfdi` the opening of the correlated subquery over CFDIs up to its last `=`. */
  datatype Token =
    | LParen | RParen | Comma | KwOr | KwAnd | KwNot | KwIn | KwIs | KwNull | KwTrue | KwFalse | KwILike
    | Cmp(op: CmpOp) | Col(column: Column) | Hole | Lit(value: Json) | SelectEfos | ExistsCfdi

  // ------------------------------------------------------------ reading

  datatype Expr =
    | Or(l: Expr, r: Expr) | And(l: Expr, r: Expr) | Not(e: Expr)
    | Compare(c: Column, op: CmpOp, v: Json)
    | IsNull(c: Column) | In(c: Column, vs: seq<Json>) | InEfos(c: Column) | ILike(c: Column, v: Json)
    | ExistsIssued(v: Json) | Const(value: bool)

  type Read = Option<(Expr, seq<Token>)>

  function ReadOr(ts: seq<Token>): (r: Read)
    ensures r.Some? ==> |r.value.1| < |ts|
    decreases |ts|, 3
  {
    var a := ReadAnd(ts);
    if a.None? || |a.value.1| == 0 || a.value.1[0] != KwOr then a
    else
      var b := ReadOr(a.value.1[1..]);
      if b.None? then None else Some((Or(a.value.0, b.value.0), b.value.1))
  }

  function ReadAnd(ts: seq<Token>): (r: Read)
    ensures r.Some? ==> |r.value.1| < |ts|
    decreases |ts|, 2
  {
    var a := ReadNot(ts);
    if a.None? || |a.value.1| == 0 || a.value.1[0] != KwAnd then a
    else
      var b := ReadAnd(a.value.1[1..]);
      if b.None? then None else Some((And(a.value.0, b.value.0), b.value.1))
  }

  function ReadNot(ts: seq<Token>): (r: Read)
    ensures r.Some? ==> |r.value.1| < |ts|
    decreases |ts|, 1
  {
    if |ts| > 0 && ts[0] == KwNot then
      var a := ReadNot(ts[1..]);
      if a.None? then None else Some((Not(a.value.0), a.value.1))
    else ReadPrimary(ts)
  }

  function ReadPrimary(ts: seq<Token>): (r: Read)
    ensures r.Some? ==> |r.value.1| < |ts|
    decreases |ts|, 0
  {
    if |ts| == 0 then None
    else if ts[0] == LParen then
      var a := ReadOr(ts[1..]);
      if a.Some? && |a.value.1| > 0 && a.value.1[0] == RParen then Some((a.value.0, a.value.1[1..])) else None
    else if ts[0] == KwTrue then Some((Const(true), ts[1..]))
    else if ts[0] == KwFalse then Some((Const(false), ts[1..]))
    else if ts[0] == ExistsCfdi then
      if |ts| > 2 && ts[1].Lit? && ts[2] == RParen then Some((ExistsIssued(ts[1].value), ts[3..])) else None
    else if ts[0].Col? then ReadColumn(ts[0].column, ts[1..])
    else None
  }

  /** What follows a column. */
  function ReadColumn(c: Column, ts: seq<Token>): (r: Read)
    ensures r.Some? ==> |r.value.1| < |ts|
  {
    if |ts| < 2 then None
    else if ts[0].Cmp? && ts[1].Lit? then Some((Compare(c, ts[0].op, ts[1].value), ts[2..]))
    else if ts[0] == KwILike && ts[1].Lit? then Some((ILike(c, ts[1].value), ts[2..]))
    else if ts[0] == KwIs && ts[1] == KwNull then Some((IsNull(c), ts[2..]))
    else if ts[0] == KwIs && ts[1] == KwNot && |ts| > 2 && ts[2] == KwNull then Some((Not(IsNull(c)), ts[3..]))
    else if ts[0] == KwIn then ReadIn(c, ts[1..])
    else if ts[0] == KwNot && ts[1] == KwIn then
      var a := ReadIn(c, ts[2..]);
      if a.None? then None else Some((Not(a.value.0), a.value.1))
    else None
  }

  function ReadIn(c: Column, ts: seq<Token>): (r: Read)
    ensures r.Some? ==> |r.value.1| < |ts|
  {
    if |ts| == 0 || ts[0] != LParen then None
    else if |ts| > 2 && ts[1] == SelectEfos && ts[2] == RParen then Some((InEfos(c), ts[3..]))
    else
      var l := ReadList(ts[1..]);
      if l.None? then None else Some((In(c, l.value.0), l.value.1))
  }

  /** Values separated by commas, up to a closing parenthesis. */
  function ReadList(ts: seq<Token>): (r: Option<(seq<Json>, seq<Token>)>)
    ensures r.Some? ==> |r.value.1| < |ts|
  {
    if |ts| < 2 || !ts[0].Lit? then None
    else if ts[1] == RParen then Some(([ts[0].value], ts[2..]))
    else if ts[1] == Comma then
      var l := ReadList(ts[2..]);
      if l.None? then None else Some(([ts[0].value] + l.value.0, l.value.1))
    else None
  }

  // ------------------------------------------------------------ evaluation

  datatype Truth = T | F | U

  function Truly(b: bool): Truth {
    if b then T else F
  }

  function And3(a: Truth, b: Truth): Truth {
    if a == F || b == F then F else if a == T && b == T then T else U
  }

  function Or3(a: Truth, b: Truth): Truth {
    if a == T || b == T then T else if a == F && b == F then F else U
  }

  function Not3(a: Truth): Truth {
    match a case T => F case F => T case U => U
  }

  datatype CfdiRef = CfdiRef(rfcEmisor: Json, isIssued: Json)

  /** The database a filter is evaluated in. How values compare, what text other values than
      texts are shown as, and which characters differ in case only are left open. */
  datatype Db = Db(eq: (Json, Json) -> bool, lt: (Json, Json) -> bool, text: Json -> string, same: (char, char) -> bool,
                   efos: seq<Json>, cfdis: seq<CfdiRef>)

  /** The row under consideration: the value of every column. */
  type RowOf = Column -> Json

  function Compare3(db: Db, a: Json, op: CmpOp, b: Json): Truth {
    if a.Null? || b.Null? then U
    else match op
      case Eq => Truly(db.eq(a, b))
      case Ne => Truly(!db.eq(a, b))
      case Gt => Truly(db.lt(b, a))
      case Ge => Truly(db.lt(b, a) || db.eq(a, b))
      case Lt => Truly(db.lt(a, b))
      case Le => Truly(db.lt(a, b) || db.eq(a, b))
  }

  function TextOf(db: Db, v: Json): string {
    if v.Str? then v.s else db.text(v)
  }

  function Like3(db: Db, a: Json, p: Json): Truth {
    if a.Null? || p.Null? then U else Truly(LikeMatch(TextOf(db, a), TextOf(db, p), db.same))
  }

  /** Membership, unknown when no element is equal and some comparison is unknown. */
  function Member3(db: Db, a: Json, vs: seq<Json>): Truth {
    if vs == [] then F else Or3(Compare3(db, a, Eq, vs[0]), Member3(db, a, vs[1..]))
  }

  predicate SomeCfdi(db: Db, rfc: Json, isIssued: Json) {
    exists c :: c in db.cfdis && Compare3(db, c.rfcEmisor, Eq, rfc) == T && Compare3(db, c.isIssued, Eq, isIssued) == T
  }

  const OUTER_RFC := Column(Some("e"), "rfc")

  function Eval(e: Expr, db: Db, row: RowOf): Truth {
    match e
    case Or(l, r) => Or3(Eval(l, db, row), Eval(r, db, row))
    case And(l, r) => And3(Eval(l, db, row), Eval(r, db, row))
    case Not(x) => Not3(Eval(x, db, row))
    case Compare(c, op, v) => Compare3(db, row(c), op, v)
    case IsNull(c) => Truly(row(c).Null?)
    case In(c, vs) => Member3(db, row(c), vs)
    case InEfos(c) => Member3(db, row(c), db.efos)
    case ILike(c, v) => Like3(db, row(c), v)
    case ExistsIssued(v) => Truly(SomeCfdi(db, row(OUTER_RFC), v))
    case Const(b) => Truly(b)
  }

  // ------------------------------------------------------------ arguments and clauses

  /** The text of one Where, with its arguments. */
  datatype Clause = Clause(text: seq<Token>, args: seq<Json>)

  function Holes(ts: seq<Token>): nat {
    if ts == [] then 0 else (if ts[0].Hole? then 1 else 0) + Holes(ts[1..])
  }

  /** Each `?` takes the next argument; all arguments must be used up. */
  function Bind(ts: seq<Token>, args: seq<Json>): Option<seq<Token>> {
    if ts == [] then (if args == [] then Some([]) else None)
    else if ts[0].Hole? then
      if args == [] then None
      else
        var rest := Bind(ts[1..], args[1..]);
        if rest.None? then None else Some([Lit(args[0])] + rest.value)
    else
      var rest := Bind(ts[1..], args);
      if rest.None? then None else Some([ts[0]] + rest.value)
  }

  /** A closing parenthesis, and AND if something follows. */
  function Closed(rest: seq<Token>): seq<Token> {
    if rest == [] then [RParen] else [RParen, KwAnd] + rest
  }

  /** The whole condition: every clause in parentheses, joined by AND. */
  function WhereText(cs: seq<Clause>): seq<Token> {
    if cs == [] then [] else [LParen] + (cs[0].text + Closed(WhereText(cs[1..])))
  }

  function WhereArgs(cs: seq<Clause>): seq<Json> {
    if cs == [] then [] else cs[0].args + WhereArgs(cs[1..])
  }

  /** The rows a query with these clauses keeps. */
  predicate Keeps(cs: seq<Clause>, db: Db, row: RowOf) {
    cs == [] ||
    (var bound := Bind(WhereText(cs), WhereArgs(cs));
     bound.Some? && ReadOr(bound.value).Some? && ReadOr(bound.value).value.1 == []
     && Eval(ReadOr(bound.value).value.0, db, row) == T)
  }

  lemma {:induction false} BindConcat(a: seq<Token>, x: seq<Json>, b: seq<Token>, y: seq<Json>)
    requires Bind(a, x).Some?
    ensures Bind(a + b, x + y) == if Bind(b, y).Some? then Some(Bind(a, x).value + Bind(b, y).value) else None
    decreases |a|
  {
    if a == [] {
      assert a + b == b && x + y == y;
      assert forall v: seq<Token> :: [] + v == v;
    } else {
      assert (a + b)[0] == a[0] && (a + b)[1..] == a[1..] + b;
      if a[0].Hole? {
        assert (x + y)[0] == x[0] && (x + y)[1..] == x[1..] + y;
        BindConcat(a[1..], x[1..], b, y);
      } else {
        BindConcat(a[1..], x, b, y);
      }
      var bound, more := Bind(a, x).value, Bind(b, y);
      if more.Some? {
        assert [bound[0]] + (bound[1..] + more.value) == bound + more.value;
      }
    }
  }

  /** Binding succeeds exactly when there are as many arguments as placeholders. */
  lemma {:induction false} BindCounts(ts: seq<Token>, args: seq<Json>)
    ensures Bind(ts, args).Some? <==> Holes(ts) == |args|
    decreases |ts|
  {
    if ts != [] {
      if ts[0].Hole? {
        if args != [] {
          BindCounts(ts[1..], args[1..]);
        }
      } else {
        BindCounts(ts[1..], args);
      }
    }
  }

  /** The tokens are read as `e` wherever they end or are closed off. */
  ghost predicate ReadsTo(ts: seq<Token>, e: Expr) {
    forall rest: seq<Token> :: rest == [] || rest[0] == RParen ==> ReadOr(ts + rest) == Some((e, rest))
  }

  ghost predicate ReadsAs(c: Clause, e: Expr) {
    Bind(c.text, c.args).Some? && ReadsTo(Bind(c.text, c.args).value, e)
  }

  function Conjunction(es: seq<Expr>): Expr
    requires es != []
  {
    if |es| == 1 then es[0] else And(es[0], Conjunction(es[1..]))
  }

  ghost predicate AllReadAs(cs: seq<Clause>, es: seq<Expr>) {
    |cs| == |es| && forall i :: 0 <= i < |cs| ==> ReadsAs(cs[i], es[i])
  }

  /** A clause in parentheses is read as a unit, whatever follows. */
  lemma ReadParenthesised(ts: seq<Token>, e: Expr, rest: seq<Token>)
    requires ReadsTo(ts, e)
    ensures ReadNot([LParen] + (ts + ([RParen] + rest))) == Some((e, rest))
  {
    var after := [RParen] + rest;
    var all := [LParen] + (ts + after);
    assert all[1..] == ts + after;
    assert ReadOr(ts + after) == Some((e, after));
    assert after[1..] == rest;
  }

  ghost predicate Bindable(cs: seq<Clause>) {
    forall i :: 0 <= i < |cs| ==> Bind(cs[i].text, cs[i].args).Some?
  }

  /** The whole condition with the arguments of every clause in place. */
  function BoundWhere(cs: seq<Clause>): seq<Token>
    requires Bindable(cs)
  {
    if cs == [] then []
    else [LParen] + (Bind(cs[0].text, cs[0].args).value + Closed(BoundWhere(cs[1..])))
  }

  lemma BindClosed(ts: seq<Token>, args: seq<Json>, bound: seq<Token>)
    requires Bind(ts, args) == Some(bound) && (ts == [] <==> bound == [])
    ensures Bind(Closed(ts), args) == Some(Closed(bound))
  {
    if ts == [] {
      assert [RParen] + [] == [RParen] && [RParen][1..] == [];
      assert Bind([RParen][1..], args) == Some([]);
    } else {
      BindPrefixes([RParen, KwAnd], ts, args);
    }
  }

  /** Bound left to right over the joined text, every argument lands in its own clause. */
  lemma {:induction false} BindWhere(cs: seq<Clause>)
    requires Bindable(cs)
    ensures Bind(WhereText(cs), WhereArgs(cs)) == Some(BoundWhere(cs))
    decreases |cs|
  {
    if cs != [] {
      BindWhere(cs[1..]);
      BindClosed(WhereText(cs[1..]), WhereArgs(cs[1..]), BoundWhere(cs[1..]));
      BindConcat(cs[0].text, cs[0].args, Closed(WhereText(cs[1..])), WhereArgs(cs[1..]));
      BindPrefixes([LParen], cs[0].text + Closed(WhereText(cs[1..])), WhereArgs(cs));
    }
  }

  lemma ReadAndThen(ts: seq<Token>, e: Expr, rest: seq<Token>, e': Expr)
    requires ReadsTo(ts, e) && ReadAnd(rest) == Some((e', [])) && rest != []
    ensures ReadAnd([LParen] + (ts + Closed(rest))) == Some((And(e, e'), []))
  {
    var more := [KwAnd] + rest;
    ReadParenthesised(ts, e, more);
    assert [RParen] + more == Closed(rest);
    assert more[1..] == rest;
  }

  lemma ReadLast(ts: seq<Token>, e: Expr)
    requires ReadsTo(ts, e)
    ensures ReadAnd([LParen] + (ts + Closed([]))) == Some((e, []))
  {
    ReadParenthesised(ts, e, []);
    assert [RParen] + [] == Closed([]);
  }

  /** Joined by AND, the clauses are read as their conjunction. */
  lemma {:induction false} ReadWhere(cs: seq<Clause>, es: seq<Expr>)
    requires cs != [] && AllReadAs(cs, es) && Bindable(cs)
    ensures ReadAnd(BoundWhere(cs)) == Some((Conjunction(es), []))
    decreases |cs|
  {
    assert ReadsAs(cs[0], es[0]);
    var first := Bind(cs[0].text, cs[0].args).value;
    if |cs| == 1 {
      ReadLast(first, es[0]);
    } else {
      ReadWhere(cs[1..], es[1..]);
      ReadAndThen(first, es[0], BoundWhere(cs[1..]), Conjunction(es[1..]));
    }
  }

  lemma {:induction false} BindPrefixes(pre: seq<Token>, ts: seq<Token>, args: seq<Json>)
    requires Bind(ts, args).Some? && forall t :: t in pre ==> !t.Hole?
    ensures Bind(pre + ts, args) == Some(pre + Bind(ts, args).value)
  {
    if pre == [] {
      assert pre + ts == ts && pre + Bind(ts, args).value == Bind(ts, args).value;
    } else {
      BindPrefixes(pre[1..], ts, args);
      assert (pre + ts)[1..] == pre[1..] + ts;
      assert pre + Bind(ts, args).value == [pre[0]] + (pre[1..] + Bind(ts, args).value);
    }
  }

  ghost predicate AllTrue(es: seq<Expr>, db: Db, row: RowOf) {
    forall i :: 0 <= i < |es| ==> Eval(es[i], db, row) == T
  }

  lemma {:induction false} ConjunctionTrue(es: seq<Expr>, db: Db, row: RowOf)
    requires es != []
    ensures Eval(Conjunction(es), db, row) == T <==> AllTrue(es, db, row)
    decreases |es|
  {
    if |es| > 1 {
      ConjunctionTrue(es[1..], db, row);
      assert AllTrue(es, db, row) <==> Eval(es[0], db, row) == T && AllTrue(es[1..], db, row) by {
        assert forall i :: 0 < i < |es| ==> es[i] == es[1..][i - 1];
      }
    }
  }

  /** The condition keeps exactly the rows for which every clause is true, and has as many
      placeholders as arguments. */
  lemma KeepsExactly(cs: seq<Clause>, es: seq<Expr>, db: Db, row: RowOf)
    requires AllReadAs(cs, es)
    ensures Keeps(cs, db, row) <==> AllTrue(es, db, row)
    ensures Holes(WhereText(cs)) == |WhereArgs(cs)|
  {
    assert Bindable(cs) by {
      forall i | 0 <= i < |cs| ensures Bind(cs[i].text, cs[i].args).Some? {
        assert ReadsAs(cs[i], es[i]);
      }
    }
    BindWhere(cs);
    if cs != [] {
      ReadWhere(cs, es);
      ConjunctionTrue(es, db, row);
    }
    BindCounts(WhereText(cs), WhereArgs(cs));
  }
}
