/** Compiling a domain filter, a nested JSON list of conditions, to SQL with positional
    arguments (`ApplyDomain`), and what a domain means read directly. */
module DomainFilter {
  import opened Options
  import opened LikePatterns
  import opened Sql

  datatype Result<+R> = Ok(value: R) | Err

  /** How values are printed, and how text is trimmed and lower-cased. */
  datatype Fmt = Fmt(sprint: Json -> string, norm: string -> string)

  const RFC_EMISOR := Column(None, "RfcEmisor")
  const TIPO := Column(None, "TipoDeComprobante")
  const METODO := Column(None, "MetodoPago")

  /** A triple of field, operator and value. */
  predicate IsCondition(items: seq<Json>) {
    |items| == 3 && items[0].Str? && items[1].Str?
  }

  /** Position of the first dot from `i` on, or the length. */
  function DotFrom(s: string, i: nat): (r: nat)
    requires i <= |s|
    ensures i <= r <= |s| && (r < |s| ==> s[r] == '.')
    ensures forall k :: i <= k < r ==> s[k] != '.'
    decreases |s| - i
  {
    if i == |s| || s[i] == '.' then i else DotFrom(s, i + 1)
  }

  /** A dotted name is a table and a column, split at the first dot. */
  function QuoteIdent(name: string): Column {
    var d := DotFrom(name, 0);
    if d == |name| then Column(None, name) else Column(Some(name[..d]), name[d + 1..])
  }

  function CoerceToBool(v: Json, fmt: Fmt): Option<bool> {
    match v
    case Bool(b) => Some(b)
    case Str(s) =>
      if fmt.norm(s) in {"true", "1", "t", "yes"} then Some(true)
      else if fmt.norm(s) in {"false", "0", "f", "no"} then Some(false)
      else None
    case Num(n) => if n == 0.0 then Some(false) else if n == 1.0 then Some(true) else None
    case _ => None
  }

  function LikePattern(v: Json, fmt: Fmt): Json {
    Str(Pattern(fmt.sprint(v)))
  }

  function ListItems(v: Json): seq<Json> {
    if v.Arr? then v.items else []
  }

  /** The text "null" stands for a missing value. */
  function Unquote(v: Json): Json {
    if v == Str("null") then Null else v
  }

  function CmpOf(op: string): Option<CmpOp> {
    if op == "=" then Some(Eq) else if op == "!=" then Some(Ne)
    else if op == ">" then Some(Gt) else if op == ">=" then Some(Ge)
    else if op == "<" then Some(Lt) else if op == "<=" then Some(Le)
    else None
  }

  // ------------------------------------------------------------ what a domain means

  /** A condition read directly, over SQL's three truth values. What is no sensible condition is
      unknown. */
  function ConditionMeaning(field: string, op: string, v: Json, fmt: Fmt, db: Db, row: RowOf): Truth {
    var value := Unquote(v);
    if field == "efos" then Equals(op, Member3(db, row(RFC_EMISOR), db.efos))
    else if field == "cfdis.is_issued" then
      var b := CoerceToBool(value, fmt).GetOr(false);
      Truly(SomeCfdi(db, row(OUTER_RFC), Bool(if op == "=" then b else !b)))
    else if field == "used_in_isr" then
      var used := Or3(Compare3(db, row(TIPO), Eq, Str("P")),
                      And3(Compare3(db, row(TIPO), Eq, Str("I")), Compare3(db, row(METODO), Eq, Str("PUE"))));
      Equals(op, if value == Bool(true) then used else Not3(used))
    else ColumnMeaning(row(QuoteIdent(field)), op, value, fmt, db)
  }

  /** A yes-or-no property asked for with `=` or ruled out with `!=`. */
  function Equals(op: string, t: Truth): Truth {
    if op == "=" then t else if op == "!=" then Not3(t) else U
  }

  /** A condition on a column whose value is `x`. Equality with a missing value asks whether the
      column has one; `like` asks whether the column's text contains the value's. */
  function ColumnMeaning(x: Json, op: string, value: Json, fmt: Fmt, db: Db): Truth {
    if op == "is" || (op == "=" && value.Null?) then Truly(IsSame(db, x, value))
    else if op == "is not" || (op == "!=" && value.Null?) then Truly(!IsSame(db, x, value))
    else if op == "in" then if value.Arr? then Member3(db, x, value.items) else U
    else if op == "not in" then if value.Arr? then Not3(Member3(db, x, value.items)) else U
    else if op == "ilike" || op == "like" then
      if x.Null? || value.Null? then U else Truly(Contains(TextOf(db, x), fmt.sprint(value), db.same))
    else if x.Null? || value.Null? then U
    else if op == "=" then Truly(db.eq(x, value))
    else if op == "!=" then Truly(!db.eq(x, value))
    else if op == ">" then Truly(db.lt(value, x))
    else if op == "<" then Truly(db.lt(x, value))
    else if op == ">=" then Truly(db.lt(value, x) || db.eq(x, value))
    else if op == "<=" then Truly(db.lt(x, value) || db.eq(x, value))
    else U
  }

  /** The column has this very value, a missing value being a value too. */
  predicate IsSame(db: Db, x: Json, value: Json) {
    if value.Null? then x.Null? else !x.Null? && db.eq(x, value)
  }

  /** A domain read directly: a condition; after a bar, the disjunction of the domains that follow
      it, or of those in the one list that follows it; or the conjunction of a list of domains. */
  function Meaning(d: seq<Json>, fmt: Fmt, db: Db, row: RowOf): Truth
    decreases d, 1
  {
    if d == [] then T
    else if IsCondition(d) then ConditionMeaning(d[0].s, d[1].s, d[2], fmt, db, row)
    else if d[0] == Str("|") then
      if HasGroup(d) then AnyMeaning(d[1].items, fmt, db, row) else AnyMeaning(d[1..], fmt, db, row)
    else AllMeaning(d, fmt, db, row)
  }

  /** The bar is followed by a single list that is no condition. */
  predicate HasGroup(d: seq<Json>) {
    |d| == 2 && d[1].Arr? && !IsCondition(d[1].items)
  }

  /** Some domain among the items is true; an item that is no list is unknown. */
  function AnyMeaning(items: seq<Json>, fmt: Fmt, db: Db, row: RowOf): Truth
    decreases items, 0
  {
    if items == [] then F
    else Or3(if items[0].Arr? then Meaning(items[0].items, fmt, db, row) else U, AnyMeaning(items[1..], fmt, db, row))
  }

  /** Every domain among the items is true; an item that is no list is unknown. */
  function AllMeaning(items: seq<Json>, fmt: Fmt, db: Db, row: RowOf): Truth
    decreases items, 0
  {
    if items == [] then T
    else And3(if items[0].Arr? then Meaning(items[0].items, fmt, db, row) else U, AllMeaning(items[1..], fmt, db, row))
  }

  // ------------------------------------------------------------ domains the compiler is made for

  /** A condition the compiler takes at its word: `used_in_isr` asked for with `=`, `is` and `is not`
      with a missing value, `not in` with a list, `like` with text that has no wildcards in it. */
  predicate SupportedCondition(field: string, op: string, v: Json, fmt: Fmt) {
    var value := Unquote(v);
    if field == "used_in_isr" then op == "="
    else if field == "efos" || field == "cfdis.is_issued" then true
    else if op == "is" || op == "is not" then value.Null?
    else if op == "not in" then value.Arr?
    else if op == "like" || op == "ilike" then !value.Null? && Literal(fmt.sprint(value))
    else true
  }

  predicate SupportedTriple(item: Json, fmt: Fmt) {
    item.Arr? && IsCondition(item.items) && SupportedCondition(item.items[0].s, item.items[1].s, item.items[2], fmt)
  }

  /** One of the documented forms: a condition, a bar with one non-empty list of conditions, or a
      list of such domains. */
  predicate Supported(d: seq<Json>, fmt: Fmt)
    decreases d
  {
    if d == [] then true
    else if IsCondition(d) then SupportedCondition(d[0].s, d[1].s, d[2], fmt)
    else if d[0] == Str("|") then
      |d| == 2 && d[1].Arr? && d[1].items != [] && forall item :: item in d[1].items ==> SupportedTriple(item, fmt)
    else forall i :: 0 <= i < |d| ==> d[i].Arr? && Supported(d[i].items, fmt)
  }

  // ------------------------------------------------------------ the compiler

  function Places(n: nat): seq<Token>
    requires n > 0
  {
    if n == 1 then [Hole] else [Hole, Comma] + Places(n - 1)
  }

  const USED_IN_ISR: seq<Token> :=
    [LParen, Col(TIPO), Cmp(Eq), Hole, KwOr,
     LParen, Col(TIPO), Cmp(Eq), Hole, KwAnd, Col(METODO), Cmp(Eq), Hole, RParen, RParen]

  const ISR_ARGS: seq<Json> := [Str("P"), Str("I"), Str("PUE")]

  /** `buildConditionSQL` */
  function BuildCondition(field: string, op: string, v: Json, fmt: Fmt): Result<Clause> {
    var value := Unquote(v);
    if field == "efos" then
      if value != Str("any") then Err
      else if op == "=" then Ok(Clause([Col(RFC_EMISOR), KwIn, LParen, SelectEfos, RParen], []))
      else if op == "!=" then Ok(Clause([Col(RFC_EMISOR), KwNot, KwIn, LParen, SelectEfos, RParen], []))
      else Err
    else if field == "cfdis.is_issued" then
      var b := CoerceToBool(value, fmt);
      if b.None? then Err
      else if op == "=" then Ok(Clause([ExistsCfdi, Hole, RParen], [Bool(b.value)]))
      else if op == "!=" then Ok(Clause([ExistsCfdi, Hole, RParen], [Bool(!b.value)]))
      else Err
    else if field == "used_in_isr" then
      if !value.Bool? then Err
      else if value.b then Ok(Clause(USED_IN_ISR, ISR_ARGS))
      else Ok(Clause([KwNot] + USED_IN_ISR, ISR_ARGS))
    else BuildColumnCondition(Col(QuoteIdent(field)), op, value, fmt)
  }

  function BuildColumnCondition(col: Token, op: string, value: Json, fmt: Fmt): (r: Result<Clause>)
    ensures r.Ok? <==> CmpOf(op).Some? || op in {"in", "not in", "like", "ilike", "is", "is not"}
  {
    if op == "=" && value.Null? then Ok(Clause([col, KwIs, KwNull], []))
    else if op == "!=" && value.Null? then Ok(Clause([col, KwIs, KwNot, KwNull], []))
    else if CmpOf(op).Some? then Ok(Clause([col, Cmp(CmpOf(op).value), Hole], [value]))
    else if op == "in" then
      var vals := ListItems(value);
      if vals == [] then Ok(Clause([KwFalse], []))
      else Ok(Clause([col, KwIn, LParen] + Places(|vals|) + [RParen], vals))
    else if op == "not in" then
      var vals := ListItems(value);
      if vals == [] then Ok(Clause([KwTrue], []))
      else Ok(Clause([col, KwNot, KwIn, LParen] + Places(|vals|) + [RParen], vals))
    else if op == "ilike" || op == "like" then Ok(Clause([col, KwILike, Hole], [LikePattern(value, fmt)]))
    else if op == "is" then Ok(Clause([col, KwIs, KwNull], []))
    else if op == "is not" then Ok(Clause([col, KwIs, KwNot, KwNull], []))
    else Err
  }

  /** The conditions among the items, compiled in order. */
  function GroupClauses(items: seq<Json>, fmt: Fmt): Result<seq<Clause>> {
    if items == [] then Ok([])
    else if items[0].Arr? && IsCondition(items[0].items) then
      match BuildCondition(items[0].items[0].s, items[0].items[1].s, items[0].items[2], fmt)
      case Err => Err
      case Ok(c) =>
        match GroupClauses(items[1..], fmt)
        case Err => Err
        case Ok(cs) => Ok([c] + cs)
    else GroupClauses(items[1..], fmt)
  }

  function OrText(cs: seq<Clause>): seq<Token>
    requires cs != []
  {
    if |cs| == 1 then cs[0].text else cs[0].text + ([KwOr] + OrText(cs[1..]))
  }

  function OrClause(cs: seq<Clause>): seq<Clause> {
    if cs == [] then [] else [Clause([LParen] + (OrText(cs) + [RParen]), WhereArgs(cs))]
  }

  /** The Where clauses a domain adds to a query. */
  function Compile(d: seq<Json>, fmt: Fmt): Result<seq<Clause>>
    decreases d, 1
  {
    if d == [] then Ok([])
    else if IsCondition(d) then
      match BuildCondition(d[0].s, d[1].s, d[2], fmt)
      case Err => Err
      case Ok(c) => Ok([c])
    else if d[0] == Str("|") then
      if |d| < 2 then Ok([])
      else if !d[1].Arr? then Err
      else
        match GroupClauses(d[1].items, fmt)
        case Err => Err
        case Ok(cs) => Ok(OrClause(cs))
    else CompileAll(d, fmt)
  }

  function CompileAll(items: seq<Json>, fmt: Fmt): Result<seq<Clause>>
    decreases items, 0
  {
    if items == [] then Ok([])
    else
      match if items[0].Arr? then Compile(items[0].items, fmt) else Ok([])
      case Err => Err
      case Ok(cs) =>
        match CompileAll(items[1..], fmt)
        case Err => Err
        case Ok(rest) => Ok(cs + rest)
  }

  function After(q: seq<Clause>, r: Result<seq<Clause>>): Result<seq<Clause>> {
    if r.Ok? then Ok(q + r.value) else Err
  }

  /** Adding `a`, and then what `r` brings, is adding both at once. */
  lemma AfterInTurn(q: seq<Clause>, a: seq<Clause>, r: Result<seq<Clause>>)
    ensures After(q + a, r) == After(q, if r.Ok? then Ok(a + r.value) else Err)
    ensures q + [] == q
  {
    if r.Ok? {
      assert (q + a) + r.value == q + (a + r.value);
    }
  }

  method ApplyDomain(q: seq<Clause>, domain: seq<Json>, fmt: Fmt) returns (r: Result<seq<Clause>>)
    ensures r == After(q, Compile(domain, fmt))
    decreases domain, 1
  {
    AfterInTurn(q, [], Ok([]));
    if |domain| == 0 {
      return Ok(q);
    }
    if IsCondition(domain) {
      var c := BuildCondition(domain[0].s, domain[1].s, domain[2], fmt);
      return if c.Ok? then Ok(q + [c.value]) else Err;
    }
    if domain[0] == Str("|") {
      if |domain| < 2 {
        return Ok(q);
      }
      if !domain[1].Arr? {
        return Err;
      }
      r := ApplyOrGroup(q, domain[1].items, fmt);
      return;
    }
    r := ApplyAndConditions(q, domain, fmt);
  }

  method ApplyAndConditions(q: seq<Clause>, domain: seq<Json>, fmt: Fmt) returns (r: Result<seq<Clause>>)
    ensures r == After(q, CompileAll(domain, fmt))
    decreases domain, 0
  {
    var out := q;
    assert domain[0..] == domain;
    for i := 0 to |domain|
      invariant After(out, CompileAll(domain[i..], fmt)) == After(q, CompileAll(domain, fmt))
    {
      assert domain[i..][0] == domain[i] && domain[i..][1..] == domain[i + 1..];
      if domain[i].Arr? {
        var step := ApplyDomain(out, domain[i].items, fmt);
        if step.Err? {
          return Err;
        }
        AfterInTurn(out, Compile(domain[i].items, fmt).value, CompileAll(domain[i + 1..], fmt));
        out := step.value;
      } else {
        AfterInTurn(out, [], CompileAll(domain[i + 1..], fmt));
      }
    }
    assert domain[|domain|..] == [] && out + [] == out;
    r := Ok(out);
  }

  method ApplyOrGroup(q: seq<Clause>, conditions: seq<Json>, fmt: Fmt) returns (r: Result<seq<Clause>>)
    ensures r == match GroupClauses(conditions, fmt) case Err => Err case Ok(cs) => Ok(q + OrClause(cs))
  {
    var clauses: seq<Clause> := [];
    assert conditions[0..] == conditions;
    assert forall cs: seq<Clause> :: [] + cs == cs;
    for i := 0 to |conditions|
      invariant After(clauses, GroupClauses(conditions[i..], fmt)) == GroupClauses(conditions, fmt)
    {
      assert conditions[i..][0] == conditions[i] && conditions[i..][1..] == conditions[i + 1..];
      if conditions[i].Arr? && IsCondition(conditions[i].items) {
        var items := conditions[i].items;
        var c := BuildCondition(items[0].s, items[1].s, items[2], fmt);
        if c.Err? {
          return Err;
        }
        AfterInTurn(clauses, [c.value], GroupClauses(conditions[i + 1..], fmt));
        clauses := clauses + [c.value];
      }
    }
    assert conditions[|conditions|..] == [] && clauses + [] == clauses;
    r := Ok(q + OrClause(clauses));
  }
}
