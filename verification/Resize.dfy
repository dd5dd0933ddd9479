/**
 backend/imageproc/imageproc.go, fit: the dimensions of a downscaled picture, over exact rationals,
 and their relation to turning the picture upright first.
 */
module Resize {
  import opened Orientation

  function Max(a: int, b: int): int {
    if a > b then a else b
  }

  function LongSide(d: Dim): int {
    Max(d.w, d.h)
  }

  /** max(1, int(side * scale + 0.5)); the conversion drops the fraction. */
  function ScaleSide(side: nat, scale: real): nat
    requires scale >= 0.0
  {
    assert side as real * scale >= 0.0;
    Max(1, (side as real * scale + 0.5).Floor)
  }

  /** The dimensions that fit gives a picture: unchanged when they are small enough, scaled otherwise. */
  function Fit(d: Dim, maxEdge: nat): Dim
    requires maxEdge >= 1
  {
    if LongSide(d) <= maxEdge then d
    else
      var scale := maxEdge as real / LongSide(d) as real;
      Dim(ScaleSide(d.w, scale), ScaleSide(d.h, scale))
  }

  /** The exact length of a side after scaling. */
  function Exact(side: nat, long: nat, maxEdge: nat): real
    requires long > 0
  {
    side as real * (maxEdge as real / long as real)
  }

  ghost predicate Near(r: int, exact: real) {
    exact - 0.5 <= r as real <= exact + 0.5 || (r == 1 && exact < 0.5)
  }

  lemma MulMono(a: real, b: real, c: real)
    requires a <= b && c >= 0.0
    ensures a * c <= b * c && c * a <= c * b
  {
  }

  lemma ExactBounds(side: nat, long: nat, maxEdge: nat)
    requires side <= long && long > maxEdge >= 1
    ensures 0.0 <= Exact(side, long, maxEdge) <= maxEdge as real
    ensures Exact(side, long, maxEdge) <= side as real
    ensures side == long ==> Exact(side, long, maxEdge) == maxEdge as real
  {
    var scale := maxEdge as real / long as real;
    assert long as real * scale == maxEdge as real;
    assert 0.0 < scale < 1.0;
    MulMono(side as real, long as real, scale);
    MulMono(scale, 1.0, side as real);
  }

  /** Rounding to the nearest pixel and clamping to one. */
  lemma Rounding(exact: real, side: nat, maxEdge: nat)
    requires 0.0 <= exact <= maxEdge as real && exact <= side as real && maxEdge >= 1
    ensures var r := Max(1, (exact + 0.5).Floor);
            && 1 <= r <= maxEdge && Near(r, exact)
            && (side >= 1 ==> r <= side)
            && (exact == maxEdge as real ==> r == maxEdge)
  {
    var whole := (exact + 0.5).Floor;
    assert whole as real <= exact + 0.5 < whole as real + 1.0;
    assert whole > maxEdge ==> whole as real >= maxEdge as real + 1.0;
    assert whole > side ==> whole as real >= side as real + 1.0;
  }

  lemma ScaledSide(side: nat, long: nat, maxEdge: nat)
    requires side <= long && long > maxEdge >= 1
    ensures var r := ScaleSide(side, maxEdge as real / long as real);
            && 1 <= r <= maxEdge && Near(r, Exact(side, long, maxEdge))
            && (side >= 1 ==> r <= side)
            && (side == long ==> r == maxEdge)
  {
    ExactBounds(side, long, maxEdge);
    Rounding(Exact(side, long, maxEdge), side, maxEdge);
  }

  /**
   A picture that is too large comes out with its long side exactly the limit; the other side is at
   least one pixel, at most the limit and the source, and within half a pixel of the exact ratio
   unless it was clamped to one.
   */
  lemma FitIsExact(d: Dim, maxEdge: nat)
    requires maxEdge >= 1 && (d.w > maxEdge || d.h > maxEdge)
    ensures var f := Fit(d, maxEdge);
            && LongSide(f) == maxEdge && f.w <= maxEdge && f.h <= maxEdge
            && 1 <= f.w && 1 <= f.h
            && (d.w >= 1 ==> f.w <= d.w) && (d.h >= 1 ==> f.h <= d.h)
            && (d.w >= d.h ==> f.w == maxEdge) && (d.h >= d.w ==> f.h == maxEdge)
            && Near(f.w, Exact(d.w, LongSide(d), maxEdge))
            && Near(f.h, Exact(d.h, LongSide(d), maxEdge))
  {
    ScaledSide(d.w, LongSide(d), maxEdge);
    ScaledSide(d.h, LongSide(d), maxEdge);
  }

  /** Fitting never leaves a picture above the limit, never enlarges it, and a second time changes nothing. */
  lemma FitIsIdempotent(d: Dim, maxEdge: nat)
    requires maxEdge >= 1
    ensures Fit(d, maxEdge).w <= maxEdge && Fit(d, maxEdge).h <= maxEdge
    ensures d.w <= maxEdge && d.h <= maxEdge ==> Fit(d, maxEdge) == d
    ensures LongSide(Fit(d, maxEdge)) <= LongSide(d)
    ensures Fit(Fit(d, maxEdge), maxEdge) == Fit(d, maxEdge)
  {
    if LongSide(d) > maxEdge {
      FitIsExact(d, maxEdge);
    }
  }

  /** A smaller limit after a larger one reaches the smaller limit, as the thumbnail of a stored copy does. */
  lemma FitAgainReachesTheLimit(d: Dim, first: nat, second: nat)
    requires 1 <= second <= first
    ensures LongSide(Fit(Fit(d, first), second)) == LongSide(Fit(d, second))
  {
    if LongSide(d) > first {
      FitIsExact(d, first);
      FitIsExact(d, second);
      if first > second {
        FitIsExact(Fit(d, first), second);
      }
    }
  }

  /** Turning upright and fitting commute on dimensions, for each orientation. */
  lemma FitCommutesWithTurning(o: int, d: Dim, maxEdge: nat)
    requires maxEdge >= 1
    ensures Fit(OrientedDim(o, d), maxEdge) == OrientedDim(o, Fit(d, maxEdge))
  {
  }
}
