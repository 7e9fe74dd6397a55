/** Splitting a half-open range into request windows (`ChunkRangeByDays`). Windows count
    calendar days of UTC, where adding a day adds 86,400 seconds. */
module RangeChunks {
  import opened Calendar

  datatype Chunk = Chunk(start: int, end: int) {
    predicate Has(t: int) {
      start <= t < end
    }
  }

  function Chunks(start: int, end: int, days: int): (cs: seq<Chunk>)
    ensures cs == [] <==> days <= 0 || start >= end
    decreases end - start
  {
    if days <= 0 || start >= end then []
    else
      var ce := if start + days * DAY > end then end else start + days * DAY;
      [Chunk(start, ce)] + Chunks(ce, end, days)
  }

  method ChunkRangeByDays(start: int, endExclusive: int, chunkDays: int) returns (out: seq<Chunk>)
    ensures out == Chunks(start, endExclusive, chunkDays)
  {
    out := [];
    if chunkDays <= 0 || start >= endExclusive {
      return;
    }
    var cursor := start;
    while cursor < endExclusive
      invariant start <= cursor <= endExclusive
      invariant out + Chunks(cursor, endExclusive, chunkDays) == Chunks(start, endExclusive, chunkDays)
    {
      var ce := cursor + chunkDays * DAY;
      if ce > endExclusive {
        ce := endExclusive;
      }
      out := out + [Chunk(cursor, ce)];
      cursor := ce;
    }
  }

  /** The windows follow one another without gap or overlap from `start` to `end`. */
  ghost predicate Tiles(cs: seq<Chunk>, start: int, end: int) {
    && |cs| > 0 && cs[0].start == start && cs[|cs| - 1].end == end
    && (forall i :: 0 <= i < |cs| ==> cs[i].start < cs[i].end)
    && (forall i :: 0 <= i < |cs| - 1 ==> cs[i].end == cs[i + 1].start)
  }

  /** The windows tile the range; all but the last span exactly `days` days, and there are as
      many as `days` days fit into the range, rounded up. */
  lemma {:induction false} ChunksTile(start: int, end: int, days: int)
    requires days > 0 && start < end
    ensures var cs, step := Chunks(start, end, days), days * 86_400;
            && Tiles(cs, start, end)
            && (forall i :: 0 <= i < |cs| - 1 ==> cs[i].end == cs[i].start + step)
            && cs[|cs| - 1].end <= cs[|cs| - 1].start + step
            && (|cs| - 1) * step < end - start <= |cs| * step
    decreases end - start
  {
    var step := days * DAY;
    if start + step < end {
      ChunksTile(start + step, end, days);
      var rest := Chunks(start + step, end, days);
      assert Chunks(start, end, days) == [Chunk(start, start + step)] + rest;
      assert (|rest| + 1) * step == |rest| * step + step;
      assert (|rest| - 1) * step == |rest| * step - step;
    } else {
      assert Chunks(start, end, days) == [Chunk(start, end)];
    }
  }

  lemma {:induction false} ChunksWithin(start: int, end: int, days: int)
    ensures forall c :: c in Chunks(start, end, days) ==> start <= c.start < c.end <= end
    decreases end - start
  {
    if days > 0 && start < end {
      ChunksWithin(if start + days * DAY > end then end else start + days * DAY, end, days);
    }
  }

  /** Every instant of the range lies in exactly one window, and no other instant in any. */
  lemma {:induction false} ChunksPartition(start: int, end: int, days: int, t: int)
    requires days > 0
    ensures var cs := Chunks(start, end, days);
            && (start <= t < end <==> exists i :: 0 <= i < |cs| && cs[i].Has(t))
            && (forall i, j | 0 <= i < |cs| && 0 <= j < |cs| && cs[i].Has(t) && cs[j].Has(t) :: i == j)
    decreases end - start
  {
    if start < end {
      var ce := if start + days * DAY > end then end else start + days * DAY;
      ChunksPartition(ce, end, days, t);
      ChunksWithin(ce, end, days);
      var cs, rest := Chunks(start, end, days), Chunks(ce, end, days);
      assert cs == [Chunk(start, ce)] + rest;
      assert forall i :: 0 < i < |cs| ==> cs[i] == rest[i - 1] && cs[i] in rest;
      if start <= t < ce {
        assert cs[0].Has(t);
      } else if ce <= t < end {
        var i :| 0 <= i < |rest| && rest[i].Has(t);
        assert cs[i + 1].Has(t);
      }
    }
  }
}
