/** Rounding the number of work items up to the device's work-group granularity. */
module WorkSize {

  /** Width and height of the viewport, which are also the dimensions of the image the kernel fills. */
  const WindowWidth: nat := 1280
  const WindowHeight: nat := 720

  /** One work item per pixel. */
  const PixelCount: nat := WindowWidth * WindowHeight

  /**
   * The global work size handed to the kernel launch: the pixel count is kept
   * when it is already a multiple of the group size, otherwise it is replaced by
   * (pixels / group + 1) * group. The result is a multiple of the group size, is
   * at least the pixel count, and overshoots it by less than one group.
   */
  function GlobalWorkSize(pixels: nat, group: nat): (r: nat)
    requires group > 0
    ensures r % group == 0
    ensures pixels <= r < pixels + group
  {
    if pixels % group != 0 then
      var q := pixels / group;
      DivModParts(pixels, group);
      MultipleMod(q + 1, group);
      (q + 1) * group
    else
      pixels
  }

  /** No multiple of the group size that covers every pixel is smaller than the global work size. */
  lemma GlobalWorkSizeIsLeast(pixels: nat, group: nat, m: nat)
    requires group > 0
    requires m % group == 0 && pixels <= m
    ensures GlobalWorkSize(pixels, group) <= m
  {
    var r := GlobalWorkSize(pixels, group);
    var q, k := r / group, m / group;
    DivModParts(r, group);
    DivModParts(m, group);
    // r < pixels + group <= m + group == (k + 1) * group, so q <= k
    MulCancelLess(q, k + 1, group);
    MulMonotone(q, k, group);
  }

  lemma DivModParts(x: nat, g: nat)
    requires g > 0
    ensures x == (x / g) * g + x % g
    ensures (x / g + 1) * g == (x / g) * g + g
  {
  }

  lemma MultipleMod(k: nat, g: nat)
    requires g > 0
    ensures (k * g) % g == 0
  {
    DivModUnique(k * g, g, k, 0);
  }

  /** Quotient and remainder are determined by any decomposition x == q * g + rem with rem < g. */
  lemma DivModUnique(x: nat, g: nat, q: nat, rem: nat)
    requires g > 0 && rem < g && x == q * g + rem
    ensures x / g == q && x % g == rem
  {
    var q', rem' := x / g, x % g;
    DivModParts(x, g);
    if q < q' {
      MulAddOne(q, g);
      MulMonotone(q + 1, q', g);
    } else if q' < q {
      MulAddOne(q', g);
      MulMonotone(q' + 1, q, g);
    }
  }

  lemma MulAddOne(a: nat, c: nat)
    ensures (a + 1) * c == a * c + c
  {
  }

  lemma MulMonotone(a: nat, b: nat, c: nat)
    requires a <= b
    ensures a * c <= b * c
  {
  }

  lemma MulCancelLess(a: nat, b: nat, c: nat)
    requires a * c < b * c
    ensures a < b
  {
    if a >= b {
      MulMonotone(b, a, c);
    }
  }

  /** A pixel count that is already a multiple of the group size is left unchanged. */
  lemma AlignedPixelCountUnchanged(pixels: nat, group: nat)
    requires group > 0 && pixels % group == 0
    ensures GlobalWorkSize(pixels, group) == pixels
  {
  }

  /** A 1280 x 720 viewport with 256-wide groups needs no padding: 921600 = 3600 * 256. */
  lemma ViewportWithGroup256()
    ensures PixelCount == 921600
    ensures GlobalWorkSize(PixelCount, 256) == 921600
  {
  }

  /** A group width that does not divide the pixel count pads to the next multiple. */
  lemma ViewportWithGroup1000()
    ensures GlobalWorkSize(PixelCount, 1000) == 922000
  {
  }
}
