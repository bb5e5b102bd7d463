/**
 Instants are integer milliseconds since the epoch, as the hub's clock reports them.
 A rollup bucket is keyed by the UTC hour its events fall in.
 */
module Timeline {
  const HOUR_MS := 3_600_000
  const DAY_MS := 24 * HOUR_MS

  /** The rollup bucket key: `Math.floor(at / HOUR_MS) * HOUR_MS`. */
  function StartOfHour(at: int): (h: int)
    ensures h <= at < h + HOUR_MS && h % HOUR_MS == 0
  {
    at / HOUR_MS * HOUR_MS
  }

  /** The first whole hour at or after an instant. */
  function CeilHour(at: int): (h: int)
    ensures at <= h < at + HOUR_MS && h % HOUR_MS == 0
  {
    StartOfHour(at + HOUR_MS - 1)
  }

  predicate Aligned(at: int) { StartOfHour(at) == at }

  /** An instant belongs to exactly one hour, so a bucket key is stable. */
  lemma HourIsUnique(at: int, h: int)
    requires Aligned(h) && h <= at < h + HOUR_MS
    ensures StartOfHour(at) == h
  {
    assert at / HOUR_MS == h / HOUR_MS;
  }

  lemma HourIsAligned(at: int)
    ensures Aligned(StartOfHour(at)) && Aligned(StartOfHour(at) + HOUR_MS)
  {
    assert StartOfHour(at) / HOUR_MS == at / HOUR_MS;
  }

  /** Whole hours are at least an hour apart. */
  lemma AlignedGap(h: int, k: int)
    requires Aligned(h) && Aligned(k) && h < k
    ensures h + HOUR_MS <= k
  {
  }

  /** `"hour" >= bound` on buckets is `createdAt >= CeilHour(bound)` on the events inside them. */
  lemma HourAtLeast(at: int, bound: int)
    ensures StartOfHour(at) >= bound <==> at >= CeilHour(bound)
  {
  }

  /** Against a whole-hour bound, comparing the bucket and comparing the instant agree. */
  lemma HourBelow(at: int, bound: int)
    requires Aligned(bound)
    ensures StartOfHour(at) < bound <==> at < bound
    ensures StartOfHour(at) < bound <==> StartOfHour(at) + HOUR_MS <= bound
  {
  }
}
