/**
 * Request windows and the cutting of a long window into consecutive
 * sub-windows, as the price and intensity requests do when the span
 * exceeds what the upstream API accepts in one call.
 */
module Chunking {

  const Day: int := 86400

  /** A span the price API accepts in one call: 31 days. */
  const PriceMaxSpan: int := 31 * Day
  /** The length of one price chunk: 30 days. */
  const PriceChunk: int := 30 * Day
  /** A span the intensity API accepts in one call: 14 days. */
  const IntensityMaxSpan: int := 14 * Day
  /** The length of one intensity chunk: 13 days. */
  const IntensityChunk: int := 13 * Day

  /** A request window `[start, end]` in Unix seconds. */
  datatype Window = Window(start: int, end: int)
  {
    function Span(): int { end - start }
  }

  function Min(a: int, b: int): int { if a <= b then a else b }

  /**
   * The windows the chunk loop requests for `[lo, hi]`: the first starts
   * at `lo`, each ends `step` seconds after its start or at `hi`, and the
   * next starts where the previous ended.
   */
  function Chunks(lo: int, hi: int, step: int): seq<Window>
    decreases hi - lo
  {
    if step > 0 && lo < hi then [Window(lo, Min(lo + step, hi))] + Chunks(Min(lo + step, hi), hi, step)
    else []
  }

  /**
   * `ws` tiles `[lo, hi]` with windows of at most `step` seconds: the first
   * starts at `lo`, the last ends at `hi`, each starts where the previous
   * ended, and none is empty.
   */
  predicate Tiles(ws: seq<Window>, lo: int, hi: int, step: int)
  {
    && |ws| > 0
    && ws[0].start == lo
    && ws[|ws| - 1].end == hi
    && (forall i :: 0 < i < |ws| ==> ws[i].start == ws[i - 1].end)
    && (forall i :: 0 <= i < |ws| ==> 0 < ws[i].Span() <= step)
  }

  /** The chunk windows of a non-empty span tile it. */
  lemma {:induction false} ChunksTile(lo: int, hi: int, step: int)
    requires step > 0 && lo < hi
    ensures Tiles(Chunks(lo, hi, step), lo, hi, step)
    decreases hi - lo
  {
    var next := Min(lo + step, hi);
    var ws := Chunks(lo, hi, step);
    var rest := Chunks(next, hi, step);
    assert ws == [Window(lo, next)] + rest;
    if next < hi {
      ChunksTile(next, hi, step);
      assert forall i :: 0 < i < |ws| ==> ws[i] == rest[i - 1];
    } else {
      assert rest == [];
    }
  }

  /** The loop makes ceil((hi - lo) / step) requests: the fewest windows of `step` seconds that cover the span. */
  lemma {:induction false} ChunksCount(lo: int, hi: int, step: int)
    requires step > 0 && lo < hi
    ensures (|Chunks(lo, hi, step)| - 1) * step < hi - lo <= |Chunks(lo, hi, step)| * step
    decreases hi - lo
  {
    var next := Min(lo + step, hi);
    var rest := Chunks(next, hi, step);
    assert Chunks(lo, hi, step) == [Window(lo, next)] + rest;
    if next < hi {
      ChunksCount(next, hi, step);
      var n := |rest|;
      assert (n - 1) * step < hi - next <= n * step;
      assert next == lo + step;
      assert (n + 1) * step == n * step + step;
      assert (n + 1 - 1) * step == n * step;
    } else {
      assert rest == [];
    }
  }

  /** Each price chunk is short enough that its own request is made in one call. */
  lemma PriceChunksFitOneCall(lo: int, hi: int)
    requires lo < hi
    ensures forall w :: w in Chunks(lo, hi, PriceChunk) ==> 0 < w.Span() <= PriceMaxSpan
  {
    ChunksTile(lo, hi, PriceChunk);
  }

  /** Each intensity chunk is short enough that its own request is made in one call. */
  lemma IntensityChunksFitOneCall(lo: int, hi: int)
    requires lo < hi
    ensures forall w :: w in Chunks(lo, hi, IntensityChunk) ==> 0 < w.Span() <= IntensityMaxSpan
  {
    ChunksTile(lo, hi, IntensityChunk);
  }
}
