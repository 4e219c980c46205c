/** The ten deviation bars drawn around a car: five on the left for a
    negative score, five on the right for a positive one. Fills are
    fractions in [0, 1]; the animation smooths current fills toward the
    targets. */
module DeviationBars {
  import opened Common

  const Bars: nat := 10
  const Side: nat := 5
  /** The score range each bar covers. */
  const BandWidth: real := 0.2
  /** The smoothing time constant, in milliseconds. */
  const ResponseMs: real := 150.0
  /** The frame time the renderer passes to `update`. */
  const FrameMs: real := 16.0

  /** Bar i of a side for score magnitude a: full from threshold
      0.2 (i + 1), partial inside its band, empty below. */
  function BandFill(a: real, i: int): real
  {
    var threshold := (i + 1) as real * BandWidth;
    if a >= threshold then 1.0
    else if a > threshold - BandWidth then (a - (threshold - BandWidth)) / BandWidth
    else 0.0
  }

  /** A bar's fill is the clamped position of a within its band. */
  lemma BandFillIsClamp(a: real, i: int)
    ensures BandFill(a, i) == ClampReal((a - i as real * BandWidth) / BandWidth, 0.0, 1.0)
  {
  }

  function SideFills(a: real): (r: seq<real>)
    ensures |r| == Side
  {
    [BandFill(a, 0), BandFill(a, 1), BandFill(a, 2), BandFill(a, 3), BandFill(a, 4)]
  }

  function Zeros(n: nat): (r: seq<real>)
    ensures |r| == n && forall k :: 0 <= k < n ==> r[k] == 0.0
  {
    seq(n, k => 0.0)
  }

  /** `compute_bar_fills`: the clamped score fills the left bars when
      negative and the right bars otherwise. */
  function BarFills(deviationScore: real): (r: seq<real>)
    ensures |r| == Bars
    ensures forall k :: 0 <= k < Bars ==> 0.0 <= r[k] <= 1.0
  {
    var score := ClampReal(deviationScore, -1.0, 1.0);
    if score < 0.0 then SideFills(-score) + Zeros(Side) else Zeros(Side) + SideFills(score)
  }

  /** Only the side of the score's sign is filled; score 0 fills nothing;
      the active side reads bar i as the clamped band position of |s|. */
  lemma BarFillsSides(deviationScore: real)
    ensures var score := ClampReal(deviationScore, -1.0, 1.0);
      var r := BarFills(deviationScore);
      (score < 0.0 ==> forall k :: Side <= k < Bars ==> r[k] == 0.0)
      && (score >= 0.0 ==> forall k :: 0 <= k < Side ==> r[k] == 0.0)
      && (score == 0.0 ==> forall k :: 0 <= k < Bars ==> r[k] == 0.0)
      && (score < 0.0 ==> forall i :: 0 <= i < Side ==> r[i] == BandFill(AbsReal(score), i))
      && (score >= 0.0 ==> forall i :: 0 <= i < Side ==> r[Side + i] == BandFill(AbsReal(score), i))
  {
  }

  /** Full bars, then at most one partial bar, then empty bars. */
  lemma SideShape(a: real)
    ensures var f := SideFills(a);
      (forall i, j :: 0 <= i < j < Side ==> f[i] >= f[j])
      && (forall i, j :: 0 <= i < j < Side && 0.0 < f[i] < 1.0 ==> f[j] == 0.0)
  {
  }

  /** On the active side the fills add up to 5 |s|. */
  lemma SideSum(a: real)
    requires 0.0 <= a <= 1.0
    ensures SumReal(SideFills(a)) == 5.0 * a
  {
    var f := SideFills(a);
    assert SumReal(f[..1]) == f[0] by { assert f[..1][..0] == []; }
    assert SumReal(f[..2]) == SumReal(f[..1]) + f[1] by { assert f[..2][..1] == f[..1]; }
    assert SumReal(f[..3]) == SumReal(f[..2]) + f[2] by { assert f[..3][..2] == f[..2]; }
    assert SumReal(f[..4]) == SumReal(f[..3]) + f[3] by { assert f[..4][..3] == f[..3]; }
    assert SumReal(f) == SumReal(f[..4]) + f[4];
  }

  lemma BarFillsSum(deviationScore: real)
    ensures var score := ClampReal(deviationScore, -1.0, 1.0);
      SumReal(BarFills(deviationScore)) == 5.0 * AbsReal(score)
  {
    var score := ClampReal(deviationScore, -1.0, 1.0);
    var r := BarFills(deviationScore);
    SideSum(AbsReal(score));
    SumConcat(r[..Side], r[Side..]);
    assert r[..Side] + r[Side..] == r;
    ZerosSum(Side);
  }

  lemma {:induction false} SumConcat(a: seq<real>, b: seq<real>)
    ensures SumReal(a + b) == SumReal(a) + SumReal(b)
  {
    if b == [] {
      assert a + b == a;
    } else {
      assert (a + b)[..|a + b| - 1] == a + b[..|b| - 1];
      assert (a + b)[|a + b| - 1] == b[|b| - 1];
      SumConcat(a, b[..|b| - 1]);
    }
  }

  lemma {:induction false} ZerosSum(n: nat)
    ensures SumReal(Zeros(n)) == 0.0
  {
    if n > 0 {
      assert Zeros(n)[..n - 1] == Zeros(n - 1);
      ZerosSum(n - 1);
    }
  }

  /** The smoothing factor min(1, dt / 150). */
  function Alpha(dtMs: real): real
  {
    MinReal(1.0, dtMs / ResponseMs)
  }

  /** One smoothing step of a single fill. */
  function Smooth(current: real, target: real, alpha: real): real
  {
    current + Scale(target - current, alpha)
  }

  function Scale(d: real, alpha: real): real
  {
    d * alpha
  }

  /** With dt >= 0 a step never overshoots the target, and with
      dt >= 150 ms it lands on it. */
  lemma SmoothSpec(current: real, target: real, dtMs: real)
    requires dtMs >= 0.0
    ensures var v := Smooth(current, target, Alpha(dtMs));
      MinReal(current, target) <= v <= MaxReal(current, target)
      && (dtMs >= ResponseMs ==> v == target)
  {
    SmoothBetween(current, target, Alpha(dtMs));
  }

  lemma SmoothBetween(current: real, target: real, alpha: real)
    requires 0.0 <= alpha <= 1.0
    ensures var v := Smooth(current, target, alpha);
      MinReal(current, target) <= v <= MaxReal(current, target)
      && (alpha == 1.0 ==> v == target)
  {
    if target >= current {
      ScaledGap(target - current, alpha);
    } else {
      ScaledGap(current - target, alpha);
      ScaleNeg(current - target, alpha);
    }
  }

  lemma ScaledGap(d: real, alpha: real)
    requires d >= 0.0 && 0.0 <= alpha <= 1.0
    ensures 0.0 <= Scale(d, alpha) <= d
    ensures alpha == 1.0 ==> Scale(d, alpha) == d
  {
    assert d * (1.0 - alpha) >= 0.0;
  }

  lemma ScaleNeg(d: real, alpha: real)
    ensures Scale(-d, alpha) == -Scale(d, alpha)
  {
  }

  /** `DeviationBarState`: the fills drawn (updated in place) and the
      targets they move toward. */
  class DeviationBarState {
    var current: array<real>
    var target: seq<real>

    predicate Valid()
      reads this
    {
      current.Length == Bars && |target| == Bars
    }

    constructor ()
      ensures Valid() && fresh(current)
      ensures current[..] == Zeros(Bars) && target == Zeros(Bars)
    {
      current := new real[Bars](k => 0.0);
      target := Zeros(Bars);
    }

    /** `update`: every current fill moves the fraction min(1, dt / 150)
        of its gap toward its target; targets stay. */
    method Update(dtMs: real)
      requires Valid()
      modifies current
      ensures Valid() && target == old(target)
      ensures forall k :: 0 <= k < Bars ==> current[k] == Smooth(old(current[k]), target[k], Alpha(dtMs))
    {
      var alpha := MinReal(1.0, dtMs / ResponseMs);
      var i := 0;
      while i < Bars
        invariant 0 <= i <= Bars
        invariant forall k :: 0 <= k < i ==> current[k] == Smooth(old(current[k]), target[k], alpha)
        invariant forall k :: i <= k < Bars ==> current[k] == old(current[k])
      {
        var diff := target[i] - current[i];
        current[i] := current[i] + Scale(diff, alpha);
        i := i + 1;
      }
    }

    /** The renderer's per-frame step: normalise the deviation by 2 m into
        [-1, 1], set the targets from it, then smooth by one 16 ms frame. */
    method ShowDeviation(deviation: real)
      requires Valid()
      modifies this, current
      ensures Valid() && current == old(current)
      ensures target == BarFills(ClampReal(deviation / 2.0, -1.0, 1.0))
      ensures forall k :: 0 <= k < Bars ==> current[k] == Smooth(old(current[k]), target[k], Alpha(FrameMs))
    {
      target := BarFills(ClampReal(deviation / 2.0, -1.0, 1.0));
      Update(FrameMs);
    }
  }

  /** Fills in [0, 1] stay in [0, 1] under a smoothing step with dt >= 0. */
  lemma SmoothKeepsUnit(current: real, target: real, dtMs: real)
    requires dtMs >= 0.0 && 0.0 <= current <= 1.0 && 0.0 <= target <= 1.0
    ensures 0.0 <= Smooth(current, target, Alpha(dtMs)) <= 1.0
  {
    SmoothSpec(current, target, dtMs);
  }
}
