/** Conversion between logical (DPI-independent) and physical pixels. Both
    directions are the source's macros: unsigned 32-bit multiplication
    followed by truncating division, with 96 as the baseline DPI. */
module Pixels {
  import opened Machine

  /** `USER_DEFAULT_SCREEN_DPI`: one logical pixel is one physical pixel at this DPI. */
  const BaselineDpi: U32 := 96

  /** `PhysicalToLogicalPixels(dim, dpi)`; division by zero is undefined in C. */
  function PhysicalToLogical(dim: U32, dpi: U32): (r: U32)
    requires dpi > 0
    ensures dim * BaselineDpi < TWO_32 ==> r * dpi <= dim * BaselineDpi < (r + 1) * dpi
  {
    WrapU32(dim * BaselineDpi) / dpi
  }

  /** `LogicalToPhysicalPixels(dim, dpi)`. */
  function LogicalToPhysical(dim: U32, dpi: U32): (r: U32)
    ensures dim * dpi < TWO_32 ==> r * BaselineDpi <= dim * dpi < (r + 1) * BaselineDpi
  {
    WrapU32(dim * dpi) / BaselineDpi
  }

  /** At the baseline DPI both conversions are the identity. */
  lemma BaselineIsIdentity(dim: U32)
    requires dim * BaselineDpi < TWO_32
    ensures LogicalToPhysical(dim, BaselineDpi) == dim
    ensures PhysicalToLogical(dim, BaselineDpi) == dim
  {
  }

  /** Logical-to-physical conversion is monotone in the dimension. */
  lemma LogicalToPhysicalMonotone(a: U32, b: U32, dpi: U32)
    requires a <= b && b * dpi < TWO_32
    ensures LogicalToPhysical(a, dpi) <= LogicalToPhysical(b, dpi)
  {
    assert a * dpi <= b * dpi by {
      assert (b - a) * dpi >= 0;
    }
    DivMonotone(a * dpi, b * dpi, BaselineDpi);
  }

  /** Physical-to-logical conversion is monotone in the dimension. */
  lemma PhysicalToLogicalMonotone(a: U32, b: U32, dpi: U32)
    requires dpi > 0 && a <= b && b * BaselineDpi < TWO_32
    ensures PhysicalToLogical(a, dpi) <= PhysicalToLogical(b, dpi)
  {
    DivMonotone(a * BaselineDpi, b * BaselineDpi, dpi);
  }

  /** Converting a logical size to physical pixels and back never grows it,
      even where the first product wraps: each truncating division and each
      wrap-around can only make the value smaller. */
  lemma RoundTripNeverGrows(dim: U32, dpi: U32)
    requires dpi > 0
    ensures LogicalToPhysical(dim, dpi) * BaselineDpi < TWO_32
    ensures PhysicalToLogical(LogicalToPhysical(dim, dpi), dpi) <= dim
  {
    var d: int, k: int := dim, dpi;
    var p: int := LogicalToPhysical(dim, dpi);
    assert p * BaselineDpi <= WrapU32(d * k) <= d * k;
    var q: int := PhysicalToLogical(p, dpi);
    assert q * k <= p * BaselineDpi;
    if q > d {
      MulMonotone(d + 1, q, k);
      assert false;
    }
  }

  /** At or above the baseline DPI the logical round trip loses at most one pixel. */
  lemma RoundTripTolerance(dim: U32, dpi: U32)
    requires BaselineDpi <= dpi && dim * dpi < TWO_32
    ensures dim - 1 <= PhysicalToLogical(LogicalToPhysical(dim, dpi), dpi) <= dim
  {
    RoundTripNeverGrows(dim, dpi);
    var p := LogicalToPhysical(dim, dpi);
    var q := PhysicalToLogical(p, dpi);
    // dim * dpi < (p + 1) * 96 and p * 96 < (q + 1) * dpi
    assert dim * dpi < p * BaselineDpi + BaselineDpi;
    assert p * BaselineDpi < (q + 1) * dpi;
    assert dim * dpi < (q + 1) * dpi + dpi by {
      assert BaselineDpi <= dpi;
    }
    if q + 2 <= dim {
      assert (q + 2) * dpi <= dim * dpi by { MulMonotone(q + 2, dim, dpi); }
      assert false;
    }
  }

  /** Converting a physical size to logical pixels and back never grows it,
      even where the first product wraps. */
  lemma InverseRoundTripNeverGrows(dim: U32, dpi: U32)
    requires dpi > 0
    ensures PhysicalToLogical(dim, dpi) * dpi < TWO_32
    ensures LogicalToPhysical(PhysicalToLogical(dim, dpi), dpi) <= dim
  {
    var d: int, k: int := dim, dpi;
    var q: int := PhysicalToLogical(dim, dpi);
    assert q * k <= WrapU32(d * BaselineDpi) <= d * BaselineDpi;
    var p: int := LogicalToPhysical(q, dpi);
    assert p * BaselineDpi <= q * k;
    if p > d {
      assert false;
    }
  }

  /** Beyond 2^32 / dpi the unsigned product wraps: a logical width of
      44739243 at the baseline DPI converts to 0 physical pixels. */
  lemma ConversionWraps()
    ensures LogicalToPhysical(44739243, BaselineDpi) == 0
    ensures 44739243 * BaselineDpi >= TWO_32
  {
  }
}
