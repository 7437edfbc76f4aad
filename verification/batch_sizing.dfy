/**
 Batch sizing (`get_optimal_batch_size`): how many images of a resolution
 class fit in a fraction of the GPU memory that is free right now.

 The free-memory reading is a parameter (the device query is I/O); the
 memory fraction is an exact rational instead of a float.
 */
module BatchSizing {

  const MiB: nat := 1024 * 1024

  /** Per-image memory estimate, in bytes, of each known resolution tag. */
  const BytesPerTag: map<string, nat> := map[
    "720p" := 50 * MiB,
    "1080p" := 100 * MiB,
    "1440p" := 200 * MiB,
    "4k" := 400 * MiB
  ]

  /** The estimate used for a tag missing from the table. */
  const DefaultBytes: nat := 100 * MiB

  /** `resolution_to_memory.get(tag, 100 MiB)` */
  function BytesPerImage(resolution: string): nat {
    if resolution in BytesPerTag then BytesPerTag[resolution] else DefaultBytes
  }

  /**
   The table's estimates are 50, 100, 200 and 400 MiB, doubling with each
   step up in resolution, and any other tag is costed like 1080p.
   */
  lemma BytesPerImageTable(other: string)
    requires other !in {"720p", "1080p", "1440p", "4k"}
    ensures BytesPerImage("720p") == 50 * MiB
    ensures BytesPerImage("1080p") == 2 * BytesPerImage("720p")
    ensures BytesPerImage("1440p") == 2 * BytesPerImage("1080p")
    ensures BytesPerImage("4k") == 2 * BytesPerImage("1440p")
    ensures BytesPerImage(other) == BytesPerImage("1080p") == 100 * MiB
  {
  }

  /** A memory fraction `num / den`. */
  datatype Fraction = Fraction(num: int, den: int)

  /** The default `max_memory_fraction` of 0.8. */
  const DefaultFraction: Fraction := Fraction(4, 5)

  /** The usable memory `free * fraction`, scaled by the fraction's denominator. */
  function Usable(free: nat, fraction: Fraction): int {
    free * fraction.num
  }

  /** One image's estimate, scaled by the fraction's denominator. */
  function Cost(resolution: string, fraction: Fraction): int {
    BytesPerImage(resolution) * fraction.den
  }

  /**
   `max(1, int(free * fraction / perImage))`. Scaled by the fraction's
   denominator, the usable memory is `free * num` and one image costs
   `perImage * den`; the batch is the largest number of images whose cost
   fits, or 1 when not even one fits.

   Python's `int` truncates toward zero while `/` here floors; the two
   differ only on a negative quotient, which `max(1, _)` maps to 1 either way.
   */
  function BatchSize(free: nat, resolution: string, fraction: Fraction): (size: nat)
    requires fraction.den > 0
    ensures size >= 1
    ensures size == 1 || size * Cost(resolution, fraction) <= Usable(free, fraction)
    ensures Usable(free, fraction) < (size + 1) * Cost(resolution, fraction)
  {
    var cost := Cost(resolution, fraction);
    var fits := Usable(free, fraction) / cost;
    DivBounds(Usable(free, fraction), cost);
    if fits < 1 then 1 else fits
  }

  lemma DivBounds(a: int, d: int)
    requires d > 0
    ensures (a / d) * d <= a < (a / d + 1) * d
  {
  }

  /** The size is exactly 1 when the usable memory is below one image's estimate. */
  lemma BatchSizeOneWhenShort(free: nat, resolution: string, fraction: Fraction)
    requires fraction.den > 0
    requires Usable(free, fraction) < Cost(resolution, fraction)
    ensures BatchSize(free, resolution, fraction) == 1
  {
    var size := BatchSize(free, resolution, fraction);
    MulAtLeastOnce(size, Cost(resolution, fraction));
  }

  lemma MulAtLeastOnce(k: nat, c: nat)
    requires k >= 1
    ensures k * c >= c
  {
    assert k * c == (k - 1) * c + c;
  }

  /** Otherwise it is the floor of usable memory over one image's estimate. */
  lemma BatchSizeIsFloor(free: nat, resolution: string, fraction: Fraction)
    requires fraction.den > 0
    requires Usable(free, fraction) >= Cost(resolution, fraction)
    ensures BatchSize(free, resolution, fraction) == Usable(free, fraction) / Cost(resolution, fraction)
  {
    var size := BatchSize(free, resolution, fraction);
    var cost := Cost(resolution, fraction);
    var usable := Usable(free, fraction);
    assert size * cost <= usable < (size + 1) * cost by {
      if size == 1 {
        assert 1 * cost <= usable;
      }
    }
    FloorUnique(usable, cost, size);
  }

  /** The quotient is the only `q` with `q * d <= a < (q + 1) * d`. */
  lemma FloorUnique(a: int, d: int, q: int)
    requires d > 0
    requires q * d <= a < (q + 1) * d
    ensures a / d == q
  {
    var r := a / d;
    DivBounds(a, d);
    MulCancelLt(r, q + 1, d);
    MulCancelLt(q, r + 1, d);
  }

  lemma MulMono(a: int, b: int, d: int)
    requires a <= b && d >= 0
    ensures a * d <= b * d
  {
    assert b * d - a * d == (b - a) * d;
  }

  lemma MulCancelLt(x: int, y: int, d: int)
    requires d > 0
    ensures x * d < y * d ==> x < y
  {
    if y <= x {
      MulMono(y, x, d);
    }
  }

  /**
   For a fixed tag and a non-negative fraction, more free memory never
   gives a smaller batch.
   */
  lemma BatchSizeMonotone(free1: nat, free2: nat, resolution: string, fraction: Fraction)
    requires fraction.den > 0 && fraction.num >= 0
    requires free1 <= free2
    ensures BatchSize(free1, resolution, fraction) <= BatchSize(free2, resolution, fraction)
  {
    var s1 := BatchSize(free1, resolution, fraction);
    var s2 := BatchSize(free2, resolution, fraction);
    var cost := Cost(resolution, fraction);
    if s1 > 1 {
      MulMono(free1, free2, fraction.num);
      assert Usable(free1, fraction) <= Usable(free2, fraction);
      assert s1 * cost < (s2 + 1) * cost;
      MulCancelLt(s1, s2 + 1, cost);
    }
  }

  /** A 720p folder with 200 MiB free at the default fraction: 160 MiB usable, 3 images. */
  lemma SizingExample720p()
    ensures BatchSize(200 * MiB, "720p", DefaultFraction) == 3
  {
    BatchSizeIsFloor(200 * MiB, "720p", DefaultFraction);
  }
}
