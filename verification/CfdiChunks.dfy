/** The row walk that plans XML downloads (`getCFDIChunks`): a two-pointer greedy
    pass over the CFDI rows of a period, ordered by date. */
module CfdiChunks {

  /** The most rows one download request may span. */
  const MAX_CFDI_PER_CHUNK: nat := 10_000

  /** One row of the ordered date query. */
  datatype DateRow = DateRow(fecha: int, needDownload: bool)

  /** A date range to request, both ends included. */
  datatype DateChunk = DateChunk(start: int, end: int)

  /** A run of consecutive row positions, both ends included. */
  datatype Window = Window(lo: nat, hi: nat) {
    predicate Has(i: nat) {
      lo <= i <= hi
    }

    predicate Fits(n: nat) {
      lo <= hi < lo + n
    }
  }

  /** The last row before `top` that needs download, `from` being one of them. */
  function LastNeed(rows: seq<DateRow>, from: nat, top: nat): (r: nat)
    requires from < top <= |rows| && rows[from].needDownload
    ensures from <= r < top && rows[r].needDownload
    ensures forall k :: r < k < top ==> !rows[k].needDownload
    decreases top
  {
    if rows[top - 1].needDownload then top - 1 else LastNeed(rows, from, top - 1)
  }

  /** The windows the walk picks, starting at position `from`. */
  function Greedy(rows: seq<DateRow>, from: nat, n: nat): (ws: seq<Window>)
    requires n > 0
    decreases |rows| - from
  {
    if from >= |rows| then []
    else if !rows[from].needDownload then Greedy(rows, from + 1, n)
    else
      var top := if from + n < |rows| then from + n else |rows|;
      [Window(from, LastNeed(rows, from, top))] + Greedy(rows, top, n)
  }

  predicate InRange(rows: seq<DateRow>, ws: seq<Window>) {
    forall w :: w in ws ==> w.lo < |rows| && w.hi < |rows|
  }

  /** The date range a window stands for. */
  function Dates(rows: seq<DateRow>, ws: seq<Window>): (cs: seq<DateChunk>)
    requires InRange(rows, ws)
    ensures |cs| == |ws|
  {
    seq(|ws|, i requires 0 <= i < |ws| => DateChunk(rows[ws[i].lo].fecha, rows[ws[i].hi].fecha))
  }

  /** Windows in order, disjoint, of at most `n` rows, whose end rows need download. */
  ghost predicate Sound(rows: seq<DateRow>, from: nat, n: nat, ws: seq<Window>) {
    && (forall i :: 0 <= i < |ws| ==>
          && from <= ws[i].lo && ws[i].Fits(n) && ws[i].hi < |rows|
          && rows[ws[i].lo].needDownload && rows[ws[i].hi].needDownload)
    && (forall i, j :: 0 <= i < j < |ws| ==> ws[i].hi < ws[j].lo)
  }

  /** One more window in front. */
  lemma SoundCons(rows: seq<DateRow>, from: nat, n: nat, w: Window, top: nat, ws: seq<Window>)
    requires Sound(rows, top, n, ws) && from <= w.lo && w.Fits(n) && w.hi < top && w.hi < |rows|
    requires rows[w.lo].needDownload && rows[w.hi].needDownload
    ensures Sound(rows, from, n, [w] + ws)
  {
    var all := [w] + ws;
    assert forall i :: 0 < i < |all| ==> all[i] == ws[i - 1];
  }

  lemma {:induction false} GreedySound(rows: seq<DateRow>, from: nat, n: nat)
    requires n > 0
    ensures Sound(rows, from, n, Greedy(rows, from, n))
    decreases |rows| - from
  {
    if from < |rows| {
      if !rows[from].needDownload {
        GreedySound(rows, from + 1, n);
      } else {
        var top := if from + n < |rows| then from + n else |rows|;
        GreedySound(rows, top, n);
        SoundCons(rows, from, n, Window(from, LastNeed(rows, from, top)), top, Greedy(rows, top, n));
      }
    }
  }

  /** Every row that needs download lies in exactly one window. */
  lemma {:induction false} GreedyCoversOnce(rows: seq<DateRow>, from: nat, n: nat, k: nat)
    requires n > 0 && from <= k < |rows| && rows[k].needDownload
    ensures exists i :: 0 <= i < |Greedy(rows, from, n)| && Greedy(rows, from, n)[i].Has(k)
    ensures var ws := Greedy(rows, from, n);
            forall i, j | 0 <= i < |ws| && 0 <= j < |ws| && ws[i].Has(k) && ws[j].Has(k) :: i == j
    decreases |rows| - from
  {
    var ws := Greedy(rows, from, n);
    GreedySound(rows, from, n);
    if !rows[from].needDownload {
      GreedyCoversOnce(rows, from + 1, n, k);
    } else {
      var top := if from + n < |rows| then from + n else |rows|;
      if k < top {
        assert ws[0].Has(k);
      } else {
        GreedyCoversOnce(rows, top, n, k);
        var i :| 0 <= i < |Greedy(rows, top, n)| && Greedy(rows, top, n)[i].Has(k);
        assert ws[i + 1].Has(k);
      }
    }
  }

  /** `family` is a way to download everything from position `from` on with
      windows of at most `n` rows. */
  ghost predicate Covers(rows: seq<DateRow>, from: nat, n: nat, family: set<Window>) {
    && (forall w :: w in family ==> w.Fits(n))
    && (forall k :: from <= k < |rows| && rows[k].needDownload ==> exists w :: w in family && w.Has(k))
  }

  /** Optimality: nobody can do it with fewer windows. */
  lemma {:induction false} GreedyOptimal(rows: seq<DateRow>, from: nat, n: nat, family: set<Window>)
    requires n > 0 && Covers(rows, from, n, family)
    ensures |Greedy(rows, from, n)| <= |family|
    decreases |rows| - from
  {
    if from < |rows| {
      if !rows[from].needDownload {
        GreedyOptimal(rows, from + 1, n, family);
      } else {
        var top := if from + n < |rows| then from + n else |rows|;
        var w :| w in family && w.Has(from);
        forall k | top <= k < |rows| && rows[k].needDownload
          ensures exists v :: v in family - {w} && v.Has(k)
        {
          var v :| v in family && v.Has(k);
          assert v != w;
        }
        GreedyOptimal(rows, top, n, family - {w});
      }
    }
  }

  /** The chunks are the windows' date ranges, each from its window's first row to its last. */
  ghost predicate RangesOf(chunks: seq<DateChunk>, dates: seq<DateRow>, ws: seq<Window>)
    requires InRange(dates, ws)
  {
    |chunks| == |ws| && forall i :: 0 <= i < |ws| ==>
      chunks[i].start == dates[ws[i].lo].fecha && chunks[i].end == dates[ws[i].hi].fecha
  }

  lemma DatesAreRanges(rows: seq<DateRow>, ws: seq<Window>)
    requires InRange(rows, ws)
    ensures RangesOf(Dates(rows, ws), rows, ws)
  {
  }

  lemma OneMoreRange(rows: seq<DateRow>, ws: seq<Window>, w: Window)
    requires InRange(rows, ws) && w.lo < |rows| && w.hi < |rows|
    ensures InRange(rows, ws + [w])
    ensures Dates(rows, ws + [w]) == Dates(rows, ws) + [DateChunk(rows[w.lo].fecha, rows[w.hi].fecha)]
  {
  }

  /** What the walk has returned so far and what it has still to go through make up the greedy windows. */
  ghost predicate Walked(rows: seq<DateRow>, taken: seq<Window>, chunks: seq<DateChunk>, from: nat) {
    && taken + Greedy(rows, from, 10_000) == Greedy(rows, 0, 10_000)
    && InRange(rows, taken) && chunks == Dates(rows, taken)
  }

  lemma WalkPast(rows: seq<DateRow>, taken: seq<Window>, chunks: seq<DateChunk>, from: nat)
    requires from < |rows| && !rows[from].needDownload && Walked(rows, taken, chunks, from)
    ensures Walked(rows, taken, chunks, from + 1)
  {
  }

  /** The window that begins at `from` is the next greedy one. */
  lemma WalkOn(rows: seq<DateRow>, taken: seq<Window>, chunks: seq<DateChunk>, from: nat, end: nat, last: nat)
    requires from <= end <= last < |rows| && rows[from].needDownload && rows[end].needDownload
    requires last == (if from + 10_000 < |rows| then from + 10_000 else |rows|) - 1
    requires forall k :: end < k <= last ==> !rows[k].needDownload
    requires Walked(rows, taken, chunks, from)
    ensures Walked(rows, taken + [Window(from, end)], chunks + [DateChunk(rows[from].fecha, rows[end].fecha)], last + 1)
  {
    assert end == LastNeed(rows, from, last + 1);
    OneMoreRange(rows, taken, Window(from, end));
    assert taken + Greedy(rows, from, 10_000) == (taken + [Window(from, end)]) + Greedy(rows, last + 1, 10_000);
  }

  lemma WalkedAll(rows: seq<DateRow>, taken: seq<Window>, chunks: seq<DateChunk>)
    requires Walked(rows, taken, chunks, |rows|)
    ensures var ws := Greedy(rows, 0, 10_000);
            InRange(rows, ws) && RangesOf(chunks, rows, ws) && chunks == Dates(rows, ws)
  {
    assert taken + [] == taken;
    DatesAreRanges(rows, taken);
  }

  /** The walk itself. */
  method GetCfdiChunks(dates: seq<DateRow>) returns (chunks: seq<DateChunk>)
    ensures InRange(dates, Greedy(dates, 0, 10_000)) && RangesOf(chunks, dates, Greedy(dates, 0, 10_000))
    ensures chunks == Dates(dates, Greedy(dates, 0, 10_000))
  {
    chunks := [];
    if |dates| == 0 {
      return;
    }
    ghost var taken: seq<Window> := [];
    var maxIx := |dates| - 1;
    var ixStart := 0;
    while ixStart <= maxIx
      invariant 0 <= ixStart <= maxIx + 1
      invariant Walked(dates, taken, chunks, ixStart)
    {
      while ixStart < maxIx && !dates[ixStart].needDownload
        invariant 0 <= ixStart <= maxIx
        invariant Walked(dates, taken, chunks, ixStart)
      {
        WalkPast(dates, taken, chunks, ixStart);
        ixStart := ixStart + 1;
      }
      var ixEnd := ixStart + MAX_CFDI_PER_CHUNK - 1;
      if ixEnd > maxIx {
        ixEnd := maxIx;
      }
      var lastEnd := ixEnd;
      while ixEnd > ixStart && !dates[ixEnd].needDownload
        invariant ixStart <= ixEnd <= lastEnd
        invariant forall k :: ixEnd < k <= lastEnd ==> !dates[k].needDownload
      {
        ixEnd := ixEnd - 1;
      }
      if dates[ixStart].needDownload {
        WalkOn(dates, taken, chunks, ixStart, ixEnd, lastEnd);
        taken := taken + [Window(ixStart, ixEnd)];
        chunks := chunks + [DateChunk(dates[ixStart].fecha, dates[ixEnd].fecha)];
      } else {
        WalkPast(dates, taken, chunks, ixStart);
      }
      ixStart := lastEnd + 1;
    }
    WalkedAll(dates, taken, chunks);
  }

  /** Read back on dates: with the rows in date order, every row that needs download
      falls inside the date range of one of the chunks returned. */
  lemma ChunksReachEveryRow(rows: seq<DateRow>, n: nat, k: nat)
    requires n > 0 && k < |rows| && rows[k].needDownload
    requires forall i, j :: 0 <= i < j < |rows| ==> rows[i].fecha <= rows[j].fecha
    ensures InRange(rows, Greedy(rows, 0, n))
    ensures exists c :: c in Dates(rows, Greedy(rows, 0, n)) && c.start <= rows[k].fecha <= c.end
  {
    GreedySound(rows, 0, n);
    GreedyCoversOnce(rows, 0, n, k);
    var i :| 0 <= i < |Greedy(rows, 0, n)| && Greedy(rows, 0, n)[i].Has(k);
    var c := Dates(rows, Greedy(rows, 0, n))[i];
    assert c.start <= rows[k].fecha <= c.end;
  }

  // ------------------------------------------------------------ the rows a request takes in

  ghost predicate InDateOrder(rows: seq<DateRow>) {
    forall i, j :: 0 <= i < j < |rows| ==> rows[i].fecha <= rows[j].fecha
  }

  /** The rows dated within a range. */
  function RowsWithin(rows: seq<DateRow>, start: int, end: int): (ks: set<nat>)
    ensures forall k: nat :: k in ks <==> k < |rows| && start <= rows[k].fecha <= end
  {
    set k: nat | k < |rows| && start <= rows[k].fecha <= end
  }

  /** The neighbours of a window are dated differently from its ends. */
  predicate ClearEnds(rows: seq<DateRow>, w: Window)
    requires w.lo < |rows| && w.hi < |rows|
  {
    && (w.lo > 0 ==> rows[w.lo - 1].fecha != rows[w.lo].fecha)
    && (w.hi + 1 < |rows| ==> rows[w.hi + 1].fecha != rows[w.hi].fecha)
  }

  /** With the rows in date order, a window's date range takes in the rows of the window and, exactly if
      a neighbour has the date of an end, others as well. */
  lemma RangeTakesWindow(rows: seq<DateRow>, w: Window)
    requires InDateOrder(rows) && w.lo <= w.hi < |rows|
    ensures var ks := RowsWithin(rows, rows[w.lo].fecha, rows[w.hi].fecha);
            && (forall k: nat :: w.Has(k) ==> k in ks)
            && ((forall k :: k in ks ==> w.Has(k)) <==> ClearEnds(rows, w))
  {
    var ks := RowsWithin(rows, rows[w.lo].fecha, rows[w.hi].fecha);
    if forall k :: k in ks ==> w.Has(k) {
      assert w.lo > 0 ==> w.lo - 1 !in ks;
      assert w.hi + 1 !in ks;
    }
    if ClearEnds(rows, w) {
      forall k: nat | k < |rows| && !w.Has(k) ensures k !in ks {
        if k < w.lo {
          assert rows[k].fecha <= rows[w.lo - 1].fecha < rows[w.lo].fecha;
        } else {
          assert rows[w.hi].fecha < rows[w.hi + 1].fecha <= rows[k].fecha;
        }
      }
    }
  }

  lemma {:induction false} AtMost(ks: set<nat>, lo: nat, n: nat)
    requires forall k :: k in ks ==> lo <= k < lo + n
    ensures |ks| <= n
    decreases n
  {
    if n > 0 {
      AtMost(ks - {lo + n - 1}, lo, n - 1);
    } else {
      assert ks == {};
    }
  }

  ghost predicate DatesDistinct(rows: seq<DateRow>) {
    forall i, j :: 0 <= i < j < |rows| ==> rows[i].fecha < rows[j].fecha
  }

  /** The range takes in at most 10,000 rows, and begins and ends at one that needs download. */
  ghost predicate StaysInLimit(rows: seq<DateRow>, c: DateChunk) {
    var ks := RowsWithin(rows, c.start, c.end);
    && |ks| <= 10_000
    && (exists k :: k in ks && rows[k].needDownload && rows[k].fecha == c.start)
    && (exists k :: k in ks && rows[k].needDownload && rows[k].fecha == c.end)
  }

  lemma RangeStaysInLimit(rows: seq<DateRow>, w: Window)
    requires DatesDistinct(rows) && w.Fits(10_000) && w.hi < |rows| && rows[w.lo].needDownload && rows[w.hi].needDownload
    ensures StaysInLimit(rows, DateChunk(rows[w.lo].fecha, rows[w.hi].fecha))
  {
    var ks := RowsWithin(rows, rows[w.lo].fecha, rows[w.hi].fecha);
    RangeTakesWindow(rows, w);
    AtMost(ks, w.lo, 10_000);
    assert w.lo in ks && w.hi in ks;
  }

  /** With a date of its own for every row, each range requested takes in at most 10,000 rows, begins and
      ends at one that needs download, and shares no row with another. */
  lemma RangesStayInLimit(rows: seq<DateRow>, chunks: seq<DateChunk>)
    requires DatesDistinct(rows)
    requires InRange(rows, Greedy(rows, 0, 10_000)) && RangesOf(chunks, rows, Greedy(rows, 0, 10_000))
    ensures forall i :: 0 <= i < |chunks| ==> StaysInLimit(rows, chunks[i])
    ensures forall i, j :: 0 <= i < j < |chunks| ==> chunks[i].end < chunks[j].start
  {
    var ws := Greedy(rows, 0, 10_000);
    GreedySound(rows, 0, 10_000);
    forall i | 0 <= i < |chunks| ensures StaysInLimit(rows, chunks[i]) {
      assert chunks[i] == DateChunk(rows[ws[i].lo].fecha, rows[ws[i].hi].fecha);
      RangeStaysInLimit(rows, ws[i]);
    }
    forall i, j | 0 <= i < j < |chunks| ensures chunks[i].end < chunks[j].start {
      assert ws[i].hi < ws[j].lo;
    }
  }

  /** Where dates repeat the limit can be exceeded: more rows of one date than fit, all of them needing
      download, make two requests for that date, each of which takes in all of them. */
  lemma SameDateExceedsLimit(chunks: seq<DateChunk>)
    requires var rows := seq(10_001, i => DateRow(0, true));
             InRange(rows, Greedy(rows, 0, 10_000)) && RangesOf(chunks, rows, Greedy(rows, 0, 10_000))
    ensures var rows := seq(10_001, i => DateRow(0, true));
            chunks == [DateChunk(0, 0), DateChunk(0, 0)] && forall k: nat :: k < 10_001 ==> k in RowsWithin(rows, 0, 0)
  {
    var rows := seq(10_001, i => DateRow(0, true));
    assert Greedy(rows, 10_001, 10_000) == [];
    assert Greedy(rows, 10_000, 10_000) == [Window(10_000, 10_000)] + Greedy(rows, 10_001, 10_000);
    assert LastNeed(rows, 0, 10_000) == 9_999;
    assert Greedy(rows, 0, 10_000) == [Window(0, 9_999), Window(10_000, 10_000)];
  }
}
