/** The "exercise" totals of the CFDI summary (`CFDIResume`): the date filter is widened to the
    first of January of the year the filtered period begins in. */
module Exercise {
  import opened Options
  import opened Calendar

  const FECHA := "FechaFiltro"
  const LONG_SPAN_DAYS := 300

  /** A condition's value: a time as text, or anything else. The text shows `local`; with its
      zone taken into account it is the moment `instant`. The database compares by what the
      text shows. `readable` tells whether the text is in one of the layouts Go reads. */
  datatype Value = Stamp(local: nat, instant: nat, readable: bool) | Other(text: string)

  datatype Item =
    | Cond(field: string, op: string, value: Value)
    | Pair(field: string, op: string)
    | Single(field: string)
    | NoCondition

  /** A row: its filter date, if any, and whether any other condition is true of it. */
  datatype Row = Row(fecha: Option<nat>, other: Item -> bool)

  predicate IsLower(d: Item) {
    (d.Cond? || d.Pair?) && d.field == FECHA && (d.op == ">" || d.op == ">=")
  }

  predicate IsUpper(d: Item) {
    (d.Cond? || d.Pair?) && d.field == FECHA && (d.op == "<" || d.op == "<=")
  }

  predicate Bounds(d: Item) {
    d.Cond? && d.value.Stamp? && (IsLower(d) || IsUpper(d))
  }

  predicate MeetsBound(f: nat, d: Item)
    requires Bounds(d)
  {
    if d.op == ">" then f > d.value.local
    else if d.op == ">=" then f >= d.value.local
    else if d.op == "<" then f < d.value.local
    else f <= d.value.local
  }

  /** The part of `buildDomainWhereSQL` an item gives rise to, evaluated: items that are no
      triples and the company give none. */
  predicate Holds(d: Item, row: Row) {
    if !d.Cond? || d.field == "company_identifier" then true
    else if Bounds(d) then row.fecha.Some? && MeetsBound(row.fecha.value, d)
    else row.other(d)
  }

  ghost predicate Matches(domain: seq<Item>, row: Row) {
    forall i :: 0 <= i < |domain| ==> Holds(domain[i], row)
  }

  // ------------------------------------------------------------ the rewrite

  function Least(a: Option<nat>, b: nat): Option<nat> {
    if a.Some? && a.value <= b then a else Some(b)
  }

  /** The earliest readable lower bound, as a moment (first of `collectFechaFiltroLowerStarts`). */
  function EarliestLower(domain: seq<Item>): Option<nat> {
    if domain == [] then None
    else
      var (init, d) := (EarliestLower(domain[..|domain| - 1]), domain[|domain| - 1]);
      if IsLower(d) && d.Cond? && d.value.Stamp? && d.value.readable then Least(init, d.value.instant) else init
  }

  /** `earliestFechaFiltroUpper` */
  function EarliestUpper(domain: seq<Item>): Option<nat> {
    if domain == [] then None
    else
      var (init, d) := (EarliestUpper(domain[..|domain| - 1]), domain[|domain| - 1]);
      if IsUpper(d) && d.Cond? && d.value.Stamp? && d.value.readable then Least(init, d.value.instant) else init
  }

  function WithoutLowers(domain: seq<Item>): seq<Item> {
    if domain == [] then []
    else WithoutLowers(domain[..|domain| - 1]) + (if IsLower(domain[|domain| - 1]) then [] else [domain[|domain| - 1]])
  }

  lemma {:induction false} WithoutLowersKeeps(domain: seq<Item>)
    ensures forall d :: d in WithoutLowers(domain) <==> d in domain && !IsLower(d)
    decreases |domain|
  {
    if domain != [] {
      WithoutLowersKeeps(domain[..|domain| - 1]);
      assert domain == domain[..|domain| - 1] + [domain[|domain| - 1]];
    }
  }

  method StripFechaFiltroLowerBounds(domain: seq<Item>) returns (newDomain: seq<Item>)
    ensures newDomain == WithoutLowers(domain)
    ensures forall d :: d in newDomain <==>
              d in domain && !((d.Cond? || d.Pair?) && d.field == "FechaFiltro" && (d.op == ">" || d.op == ">="))
  {
    WithoutLowersKeeps(domain);
    newDomain := [];
    for i := 0 to |domain|
      invariant newDomain == WithoutLowers(domain[..i])
    {
      assert domain[..i + 1][..i] == domain[..i];
      if !IsLower(domain[i]) {
        newDomain := newDomain + [domain[i]];
      }
    }
    assert domain[..|domain|] == domain;
  }

  /** Midnight of 1 January of the year of a moment. */
  function YearStart(t: nat): (s: nat)
    ensures s <= t
  {
    var y := DateOf(t).year;
    WithinYear(DateOf(t));
    assert Date(y, 1, 1).Valid();
    YearStartFirst(DateOf(t));
    Midnight(Date(y, 1, 1))
  }

  lemma YearStartFirst(d: Date)
    requires d.Valid()
    ensures Date(d.year, 1, 1).Valid() && 0 <= Midnight(Date(d.year, 1, 1)) <= Midnight(d)
  {
    DayNumberOrders(Date(d.year, 1, 1), d);
  }

  lemma YearStartTwice(t: nat)
    ensures YearStart(YearStart(t)) == YearStart(t)
  {
    DateOfMidnight(Date(DateOf(t).year, 1, 1));
  }

  function FromDate(t: nat): Item {
    Cond(FECHA, ">=", Stamp(t, t, true))
  }

  /** `domainCopyForExercise` */
  function ForExercise(domain: seq<Item>, maxFecha: Option<nat>): seq<Item> {
    var lower := EarliestLower(domain);
    var anchor := if lower.Some? then lower else maxFecha;
    if anchor.None? then WithoutLowers(domain)
    else WithoutLowers(domain) + [FromDate(YearStart(anchor.value))]
  }

  predicate IsHistoric(domain: seq<Item>) {
    forall i :: 0 <= i < |domain| ==> domain[i].NoCondition? || domain[i].field != FECHA
  }

  predicate LongWindow(domain: seq<Item>) {
    var (lo, hi) := (EarliestLower(domain), EarliestUpper(domain));
    lo.Some? && hi.Some? && hi.value > lo.value && (hi.value - lo.value) / DAY >= LONG_SPAN_DAYS
  }

  /** The domain `CFDIResume` computes the exercise totals over. */
  function ExerciseDomain(domain: seq<Item>, maxFecha: Option<nat>): seq<Item> {
    if IsHistoric(domain) || LongWindow(domain) then domain else ForExercise(domain, maxFecha)
  }

  /** A date bound, of the filter, whose text can be read. */
  predicate ReadableBound(d: Item) {
    d.Cond? && d.field == "FechaFiltro" && d.value.Stamp? && d.value.readable
  }

  predicate ReadableLower(d: Item) {
    ReadableBound(d) && (d.op == ">" || d.op == ">=")
  }

  predicate ReadableUpper(d: Item) {
    ReadableBound(d) && (d.op == "<" || d.op == "<=")
  }

  /** `t` is the earliest moment of a readable lower bound. */
  ghost predicate IsEarliestLower(domain: seq<Item>, t: nat) {
    && (exists d :: d in domain && ReadableLower(d) && d.value.instant == t)
    && (forall d :: d in domain && ReadableLower(d) ==> t <= d.value.instant)
  }

  ghost predicate IsEarliestUpper(domain: seq<Item>, t: nat) {
    && (exists d :: d in domain && ReadableUpper(d) && d.value.instant == t)
    && (forall d :: d in domain && ReadableUpper(d) ==> t <= d.value.instant)
  }

  lemma {:induction false} EarliestLowerExact(domain: seq<Item>)
    ensures EarliestLower(domain).Some? ==> IsEarliestLower(domain, EarliestLower(domain).value)
    ensures EarliestLower(domain).None? ==> forall d :: d in domain ==> !ReadableLower(d)
    decreases |domain|
  {
    if domain != [] {
      var init, last := domain[..|domain| - 1], domain[|domain| - 1];
      EarliestLowerExact(init);
      assert domain == init + [last];
      assert last in domain && forall d :: d in domain <==> d in init || d == last;
    }
  }

  lemma {:induction false} EarliestUpperExact(domain: seq<Item>)
    ensures EarliestUpper(domain).Some? ==> IsEarliestUpper(domain, EarliestUpper(domain).value)
    ensures EarliestUpper(domain).None? ==> forall d :: d in domain ==> !ReadableUpper(d)
    decreases |domain|
  {
    if domain != [] {
      var init, last := domain[..|domain| - 1], domain[|domain| - 1];
      EarliestUpperExact(init);
      assert domain == init + [last];
      assert last in domain && forall d :: d in domain <==> d in init || d == last;
    }
  }

  /** The domain has a date condition. */
  ghost predicate HasDates(domain: seq<Item>) {
    exists d :: d in domain && !d.NoCondition? && d.field == "FechaFiltro"
  }

  /** The readable bounds are 300 days apart or more: every upper one from some lower one. */
  ghost predicate SpansLong(domain: seq<Item>) {
    && (exists d :: d in domain && ReadableUpper(d))
    && forall hi :: hi in domain && ReadableUpper(hi) ==>
         exists lo :: lo in domain && ReadableLower(lo) && hi.value.instant - lo.value.instant >= 300 * 86_400
  }

  lemma LongExactly(domain: seq<Item>)
    ensures LongWindow(domain) <==> SpansLong(domain)
  {
    EarliestLowerExact(domain);
    EarliestUpperExact(domain);
    var lo, hi := EarliestLower(domain), EarliestUpper(domain);
    if lo.Some? && hi.Some? {
      var l :| l in domain && ReadableLower(l) && l.value.instant == lo.value;
      var h :| h in domain && ReadableUpper(h) && h.value.instant == hi.value;
      if LongWindow(domain) {
        forall u | u in domain && ReadableUpper(u)
          ensures exists d :: d in domain && ReadableLower(d) && u.value.instant - d.value.instant >= 300 * 86_400
        {
          assert u.value.instant - l.value.instant >= 300 * 86_400;
        }
      }
    }
  }

  /** Which domain the exercise totals are computed over: the rewritten one exactly if the domain has a
      date condition and its readable bounds are not 300 days apart or more; otherwise its own. */
  lemma RewrittenExactly(domain: seq<Item>, maxFecha: Option<nat>)
    ensures ExerciseDomain(domain, maxFecha)
              == if HasDates(domain) && !SpansLong(domain) then ForExercise(domain, maxFecha) else domain
  {
    LongExactly(domain);
    if !IsHistoric(domain) {
      var i :| 0 <= i < |domain| && !domain[i].NoCondition? && domain[i].field == FECHA;
      assert domain[i] in domain;
    }
  }

  // ------------------------------------------------------------ what it does to the rows

  ghost predicate MeetsLowers(domain: seq<Item>, row: Row) {
    forall i :: 0 <= i < |domain| && IsLower(domain[i]) ==> Holds(domain[i], row)
  }

  lemma {:induction false} SplitConditions(domain: seq<Item>, row: Row)
    ensures Matches(domain, row) <==> Matches(WithoutLowers(domain), row) && MeetsLowers(domain, row)
    ensures forall d :: d in WithoutLowers(domain) ==> !IsLower(d)
    decreases |domain|
  {
    if domain != [] {
      var init, last := domain[..|domain| - 1], domain[|domain| - 1];
      SplitConditions(init, row);
      assert domain == init + [last];
      MatchesAppend(init, last, row);
      assert MeetsLowers(domain, row) <==> MeetsLowers(init, row) && (IsLower(last) ==> Holds(last, row)) by {
        assert forall i :: 0 <= i < |init| ==> domain[i] == init[i];
      }
      if IsLower(last) {
        assert WithoutLowers(domain) == WithoutLowers(init);
      } else {
        MatchesAppend(WithoutLowers(init), last, row);
      }
    }
  }

  lemma MatchesAppend(domain: seq<Item>, d: Item, row: Row)
    ensures Matches(domain + [d], row) <==> Matches(domain, row) && Holds(d, row)
  {
    var all := domain + [d];
    assert all[|domain|] == d && forall i :: 0 <= i < |domain| ==> all[i] == domain[i];
  }

  /** The exercise rows are exactly those that meet the remaining conditions and are dated on or
      after 1 January of the year of the earliest lower bound or, without one, of the latest row. */
  lemma ExerciseRows(domain: seq<Item>, maxFecha: Option<nat>, row: Row)
    ensures var anchor := if EarliestLower(domain).Some? then EarliestLower(domain) else maxFecha;
            Matches(ForExercise(domain, maxFecha), row) <==>
              && Matches(WithoutLowers(domain), row)
              && (anchor.Some? ==> row.fecha.Some? && row.fecha.value >= YearStart(anchor.value))
  {
    var anchor := if EarliestLower(domain).Some? then EarliestLower(domain) else maxFecha;
    if anchor.Some? {
      MatchesAppend(WithoutLowers(domain), FromDate(YearStart(anchor.value)), row);
    }
  }

  /** Midnight, in seconds, of 1 January of the year a moment falls in by UTC. */
  function FirstOfYear(t: nat): nat {
    DayNumber(Date(DateOf(t).year, 1, 1)) * 86_400
  }

  /** The row meets all conditions of the domain but its lower date bounds. */
  ghost predicate MeetsOthers(domain: seq<Item>, row: Row) {
    forall d :: d in domain && !((d.Cond? || d.Pair?) && d.field == "FechaFiltro" && (d.op == ">" || d.op == ">="))
      ==> Holds(d, row)
  }

  lemma WithoutLowersMet(domain: seq<Item>, row: Row)
    ensures Matches(WithoutLowers(domain), row) <==> MeetsOthers(domain, row)
  {
    var rest := WithoutLowers(domain);
    WithoutLowersKeeps(domain);
    if Matches(rest, row) {
      forall d | d in domain && !IsLower(d) ensures Holds(d, row) {
        assert d in rest;
      }
    }
    if MeetsOthers(domain, row) {
      forall i | 0 <= i < |rest| ensures Holds(rest[i], row) {
        assert rest[i] in rest;
      }
    }
  }

  /** The rows of the exercise totals, written out. Of a domain with dates whose bounds are not 300 days
      apart: those that meet its other conditions, from 1 January of the year of the earliest readable
      lower bound on or, if there is none, of the year of the latest row. Of any other: the filtered
      rows. */
  lemma ExerciseTotals(domain: seq<Item>, maxFecha: Option<nat>, row: Row)
    ensures HasDates(domain) && !SpansLong(domain) ==>
              && (forall t: nat :: IsEarliestLower(domain, t) ==>
                    (Matches(ExerciseDomain(domain, maxFecha), row) <==>
                       MeetsOthers(domain, row) && row.fecha.Some? && row.fecha.value >= FirstOfYear(t)))
              && ((forall d :: d in domain ==> !ReadableLower(d)) ==>
                    (Matches(ExerciseDomain(domain, maxFecha), row) <==>
                       MeetsOthers(domain, row)
                       && (maxFecha.Some? ==> row.fecha.Some? && row.fecha.value >= FirstOfYear(maxFecha.value))))
    ensures !HasDates(domain) || SpansLong(domain) ==>
              (Matches(ExerciseDomain(domain, maxFecha), row) <==> Matches(domain, row))
  {
    RewrittenExactly(domain, maxFecha);
    EarliestLowerExact(domain);
    ExerciseRows(domain, maxFecha, row);
    WithoutLowersMet(domain, row);
    forall t: nat ensures YearStart(t) == FirstOfYear(t) {
      YearStartIs(t);
    }
    forall t: nat | IsEarliestLower(domain, t) ensures EarliestLower(domain) == Some(t) {
      EarliestUnique(domain, t);
    }
  }

  lemma YearStartIs(t: nat)
    ensures YearStart(t) == FirstOfYear(t)
  {
    YearStartFirst(DateOf(t));
  }

  lemma EarliestUnique(domain: seq<Item>, t: nat)
    requires IsEarliestLower(domain, t)
    ensures EarliestLower(domain) == Some(t)
  {
    EarliestLowerExact(domain);
  }

  /** The least date the lower bounds let through, as the database reads them. */
  function LeastAllowed(domain: seq<Item>): nat {
    if domain == [] then 0
    else
      var (init, d) := (LeastAllowed(domain[..|domain| - 1]), domain[|domain| - 1]);
      var own := if !(IsLower(d) && Bounds(d)) then 0 else if d.op == ">" then d.value.local + 1 else d.value.local;
      if own > init then own else init
  }

  lemma {:induction false} LeastAllowedExact(domain: seq<Item>, f: nat)
    ensures f >= LeastAllowed(domain) <==>
              forall i :: 0 <= i < |domain| && IsLower(domain[i]) && Bounds(domain[i]) ==> MeetsBound(f, domain[i])
    decreases |domain|
  {
    if domain != [] {
      LeastAllowedExact(domain[..|domain| - 1], f);
      assert domain == domain[..|domain| - 1] + [domain[|domain| - 1]];
    }
  }

  /** Some date meets every bound. */
  predicate Satisfiable(domain: seq<Item>) {
    forall i :: 0 <= i < |domain| && Bounds(domain[i]) ==> MeetsBound(LeastAllowed(domain), domain[i])
  }

  /** The rewrite lets every filtered row through. */
  ghost predicate Widens(domain: seq<Item>, maxFecha: Option<nat>) {
    forall row :: Matches(domain, row) ==> Matches(ForExercise(domain, maxFecha), row)
  }

  /** When the rewrite widens: with a readable lower bound it does so exactly if 1 January of its
      year in UTC is no later than the least date the bounds let through, or they let none through. */
  lemma WidensExactly(domain: seq<Item>, maxFecha: Option<nat>)
    requires EarliestLower(domain).Some?
    ensures Widens(domain, maxFecha) <==>
              YearStart(EarliestLower(domain).value) <= LeastAllowed(domain) || !Satisfiable(domain)
  {
    var jan1, least := YearStart(EarliestLower(domain).value), LeastAllowed(domain);
    if jan1 <= least || !Satisfiable(domain) {
      forall row | Matches(domain, row)
        ensures Matches(ForExercise(domain, maxFecha), row)
      {
        SplitConditions(domain, row);
        ExerciseRows(domain, maxFecha, row);
        EarliestReadable(domain);
        LeastAllowedExact(domain, row.fecha.value);
        if !Satisfiable(domain) {
          BoundsUnmet(domain, row.fecha.value);
        }
      }
    } else {
      var row := Row(Some(least), _ => true);
      assert Matches(domain, row);
      ExerciseRows(domain, maxFecha, row);
    }
  }

  /** If the least date the lower bounds allow fails a bound, every date does. */
  lemma BoundsUnmet(domain: seq<Item>, f: nat)
    requires !Satisfiable(domain)
    ensures exists i :: 0 <= i < |domain| && Bounds(domain[i]) && !MeetsBound(f, domain[i])
  {
    LeastAllowedExact(domain, f);
    LeastAllowedExact(domain, LeastAllowed(domain));
    var i :| 0 <= i < |domain| && Bounds(domain[i]) && !MeetsBound(LeastAllowed(domain), domain[i]);
    if f >= LeastAllowed(domain) {
      assert !MeetsBound(f, domain[i]);
    }
  }

  /** In particular it widens when no readable lower bound carries a zone offset. */
  lemma ZonelessBoundsWiden(domain: seq<Item>, maxFecha: Option<nat>)
    requires EarliestLower(domain).Some?
    requires forall i :: 0 <= i < |domain| && IsLower(domain[i]) && Bounds(domain[i]) && domain[i].value.readable
               ==> domain[i].value.local == domain[i].value.instant
    ensures Widens(domain, maxFecha)
    ensures forall row :: Matches(domain, row) ==> Matches(ExerciseDomain(domain, maxFecha), row)
  {
    EarliestReadable(domain);
    LeastAllowedExact(domain, LeastAllowed(domain));
    WidensExactly(domain, maxFecha);
  }

  lemma {:induction false} EarliestReadable(domain: seq<Item>)
    requires EarliestLower(domain).Some?
    ensures exists i :: 0 <= i < |domain| && IsLower(domain[i]) && Bounds(domain[i]) && domain[i].value.readable
              && domain[i].value.instant == EarliestLower(domain).value
    decreases |domain|
  {
    var init, last := domain[..|domain| - 1], domain[|domain| - 1];
    if EarliestLower(domain) != EarliestLower(init) {
      assert domain[|domain| - 1] == last;
    } else {
      EarliestReadable(init);
      var i :| 0 <= i < |init| && IsLower(init[i]) && Bounds(init[i]) && init[i].value.readable
               && init[i].value.instant == EarliestLower(init).value;
      assert domain[i] == init[i];
    }
  }

  /** A zone offset can make it lose rows: a bound on New Year's Eve local time that falls in
      January in UTC moves the start past it. */
  lemma OffsetCanNarrow(y: nat)
    requires y > 0
    ensures var jan1 := Midnight(Date(y, 1, 1));
            jan1 >= 2 * 3600 && !Widens([Cond(FECHA, ">=", Stamp(jan1 - 4 * 3600, jan1 + 2 * 3600, true))], None)
  {
    var jan1 := YearOpens(y);
    OneBoundNarrows(jan1 - 4 * 3600, jan1 + 2 * 3600);
  }

  /** A single bound before the 1 January of its moment's year. */
  lemma OneBoundNarrows(local: nat, instant: nat)
    requires local < YearStart(instant)
    ensures !Widens([Cond(FECHA, ">=", Stamp(local, instant, true))], None)
  {
    OneBound(local, instant);
    WidensExactly([Cond(FECHA, ">=", Stamp(local, instant, true))], None);
  }

  /** Two hours into a year, the year has just begun. */
  lemma YearOpens(y: nat) returns (jan1: nat)
    requires y > 0
    ensures jan1 == Midnight(Date(y, 1, 1)) && jan1 >= DAY && YearStart(jan1 + 2 * 3600) == jan1
  {
    var d := Date(y, 1, 1);
    YearsMonotone(0, y);
    assert DaysBeforeYear(1) == 366 && DayNumber(d) == DaysBeforeYear(y);
    jan1 := Midnight(d);
    DayNumberOrders(DateOf(jan1 + 2 * 3600), d);
  }

  lemma OneBound(local: nat, instant: nat)
    ensures var d := [Cond(FECHA, ">=", Stamp(local, instant, true))];
            EarliestLower(d) == Some(instant) && LeastAllowed(d) == local && Satisfiable(d)
  {
    var d := [Cond(FECHA, ">=", Stamp(local, instant, true))];
    assert d[..0] == [];
    assert EarliestLower(d[..0]) == None && LeastAllowed(d[..0]) == 0;
  }

  /** Without a readable lower bound, but with a latest row, the rewrite narrows instead: its
      rows are the filtered rows of that row's year and later, whenever no bound is stripped. */
  lemma NoLowerBoundNarrows(domain: seq<Item>, maxFecha: nat, row: Row)
    requires forall i :: 0 <= i < |domain| ==> !IsLower(domain[i])
    ensures Matches(ForExercise(domain, Some(maxFecha)), row) <==>
              Matches(domain, row) && row.fecha.Some? && row.fecha.value >= YearStart(maxFecha)
  {
    SplitConditions(domain, row);
    NoLowers(domain);
    ExerciseRows(domain, Some(maxFecha), row);
  }

  lemma {:induction false} NoLowers(domain: seq<Item>)
    requires forall i :: 0 <= i < |domain| ==> !IsLower(domain[i])
    ensures WithoutLowers(domain) == domain && EarliestLower(domain) == None
    decreases |domain|
  {
    if domain != [] {
      NoLowers(domain[..|domain| - 1]);
      assert domain == domain[..|domain| - 1] + [domain[|domain| - 1]];
    }
  }

  lemma {:induction false} WithoutLowersHasNone(domain: seq<Item>)
    ensures forall i :: 0 <= i < |WithoutLowers(domain)| ==> !IsLower(WithoutLowers(domain)[i])
    decreases |domain|
  {
    if domain != [] {
      WithoutLowersHasNone(domain[..|domain| - 1]);
    }
  }

  /** Rewriting twice is rewriting once, whatever latest row the second time is given. */
  lemma ExerciseIdempotent(domain: seq<Item>, maxFecha: Option<nat>, later: Option<nat>)
    requires EarliestLower(domain).Some? || maxFecha.Some?
    ensures ForExercise(ForExercise(domain, maxFecha), later) == ForExercise(domain, maxFecha)
  {
    var anchor := if EarliestLower(domain).Some? then EarliestLower(domain) else maxFecha;
    WithoutLowersHasNone(domain);
    AddedBound(WithoutLowers(domain), YearStart(anchor.value));
    YearStartTwice(anchor.value);
  }

  lemma AddedBound(rest: seq<Item>, t: nat)
    requires forall i :: 0 <= i < |rest| ==> !IsLower(rest[i])
    ensures EarliestLower(rest + [FromDate(t)]) == Some(t) && WithoutLowers(rest + [FromDate(t)]) == rest
  {
    NoLowers(rest);
    var all := rest + [FromDate(t)];
    assert all[..|all| - 1] == rest && all[|all| - 1] == FromDate(t);
    assert rest + [] == rest;
  }
}
