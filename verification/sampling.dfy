/** How a duration becomes a number of samples, and the step-current
    waveform built with numpy's `arange` and `put` (HH_back.py:24-41; the same
    lines appear in HH_backend.py and old_HH.py). Reals are exact here: the
    rounding of `time_tot / DeltaT` in floating point is not modelled. */
module Sampling {

  /** math.ceil on an exact real. */
  function Ceil(x: real): (r: int)
    ensures (r - 1) as real < x <= r as real
  {
    -((-x).Floor)
  }

  /** Python's int() on a real: truncation toward zero. */
  function Trunc(x: real): (r: int)
    ensures 0.0 <= x ==> r as real <= x < r as real + 1.0
    ensures x < 0.0 ==> r as real - 1.0 < x <= r as real
  {
    if x >= 0.0 then x.Floor else -((-x).Floor)
  }

  /** samples = ceil(time_tot / DeltaT): the number of grid points t_k = k dt
      whose left neighbour lies before time_tot. */
  function SampleCount(timeTot: real, dt: real): (n: int)
    requires dt > 0.0
    ensures (n - 1) as real * dt < timeTot <= n as real * dt
    ensures n <= 0 <==> timeTot <= 0.0
  {
    var q := timeTot / dt;
    assert q * dt == timeTot;
    var n := Ceil(q);
    assert (n - 1) as real * dt < q * dt by {
      assert (n - 1) as real < q;
    }
    assert q * dt <= n as real * dt by {
      assert q <= n as real;
    }
    n
  }

  /** np.arange(start, stop, 1, dtype=int): ceil(stop - start) entries, or
      none when stop <= start. numpy computes the first two values in the
      integer type, int(start) and int(start + 1), and repeats their
      difference; that difference is 1 except for -1 < start < 0, where both
      truncate to 0 and every entry is 0. */
  function Arange(start: real, stop: real): (r: seq<int>)
    ensures |r| == if stop > start then Ceil(stop - start) else 0
    ensures |r| > 0 ==> r[0] == Trunc(start)
    ensures forall k :: 0 < k < |r| ==> r[k] == r[k - 1] + (if -1.0 < start < 0.0 then 0 else 1)
  {
    var len := if stop > start then Ceil(stop - start) else 0;
    var step := Trunc(start + 1.0) - Trunc(start);
    TruncStep(start);
    seq(len, k requires 0 <= k < len => Trunc(start) + k * step)
  }

  /** int(x + 1) - int(x) is 1, except on (-1, 0) where it is 0. */
  lemma TruncStep(x: real)
    ensures Trunc(x + 1.0) - Trunc(x) == if -1.0 < x < 0.0 then 0 else 1
  {
    if x >= 0.0 {
      assert Trunc(x + 1.0) == Trunc(x) + 1;
    } else if x > -1.0 {
      assert Trunc(x) == 0 && Trunc(x + 1.0) == 0;
    } else if x == -1.0 {
      assert Trunc(x) == -1 && Trunc(x + 1.0) == 0;
    } else {
      assert Trunc(x + 1.0) == Trunc(x) + 1;
    }
  }

  /** A start in (-1, 0) repeats 0: np.arange(-0.5, 2, 1, dtype=int) is
      [0, 0, 0], not [0, 1, 2]. */
  lemma ArangeRepeatsOnNegativeFraction()
    ensures Arange(-0.5, 2.0) == [0, 0, 0]
  {
    var r := Arange(-0.5, 2.0);
    assert Ceil(2.5) == 3;
    assert r[0] == 0 && r[1] == 0 && r[2] == 0;
  }

  /** np.put(a, ind, x): every listed index receives x, every other entry is
      kept. numpy raises IndexError for an index outside the array; callers
      here always pass indices inside it. */
  function Put(a: seq<real>, ind: seq<int>, x: real): (r: seq<real>)
    requires forall j :: 0 <= j < |ind| ==> 0 <= ind[j] < |a|
    ensures |r| == |a|
    ensures forall k :: 0 <= k < |a| ==> r[k] == (if k in ind then x else a[k])
    decreases |ind|
  {
    if |ind| == 0 then a
    else
      var rest := Put(a[ind[0] := x], ind[1..], x);
      assert forall k :: k in ind <==> k == ind[0] || k in ind[1..];
      rest
  }

  /** The stimulated samples, stated in integers: they start at
      floor(0.15 n) and there are ceil(0.15 n) of them. */
  function WindowStart(n: nat): nat
  {
    (15 * n) / 100
  }

  function WindowLength(n: nat): nat
  {
    (15 * n + 99) / 100
  }

  predicate InWindow(n: nat, k: int)
  {
    WindowStart(n) <= k < WindowStart(n) + WindowLength(n)
  }

  lemma FifteenPercent(n: nat)
    ensures Trunc(n as real * 0.15) == WindowStart(n)
    ensures n as real * 0.30 > n as real * 0.15 ==> Ceil(n as real * 0.30 - n as real * 0.15) == WindowLength(n)
    ensures n as real * 0.30 > n as real * 0.15 <==> n > 0
  {
    var q, r := (15 * n) / 100, (15 * n) % 100;
    assert 15 * n == 100 * q + r;
    assert n as real * 0.15 == q as real + r as real / 100.0;
    assert n as real * 0.30 - n as real * 0.15 == n as real * 0.15;
    if r == 0 {
      assert WindowLength(n) == q;
    } else {
      assert WindowLength(n) == q + 1;
    }
  }

  /** The window never reaches past the last sample, so np.put never raises. */
  lemma WindowFits(n: nat)
    ensures WindowStart(n) + WindowLength(n) <= n
  {
  }

  /** The injected current vector: i_inj inside the window, 0 elsewhere. */
  function StepCurrent(n: nat, amplitude: real): (s: seq<real>)
    ensures |s| == n
    ensures forall k :: 0 <= k < n ==> s[k] == (if InWindow(n, k) then amplitude else 0.0)
  {
    FifteenPercent(n);
    WindowFits(n);
    var ind := Arange(n as real * 0.15, n as real * 0.30);
    assert forall k :: k in ind <==> InWindow(n, k) by {
      forall k
        ensures k in ind <==> InWindow(n, k)
      {
        if InWindow(n, k) {
          assert ind[k - WindowStart(n)] == k;
        }
      }
    }
    Put(seq(n, _ => 0.0), ind, amplitude)
  }

  /** When n is a multiple of 20 the window is exactly [15%, 30%) of the
      samples. */
  lemma WindowForMultiplesOfTwenty(n: nat, k: int)
    requires n % 20 == 0
    ensures InWindow(n, k) <==> 3 * n / 20 <= k < 3 * n / 10
  {
  }

  /** In general the window ends at floor(0.30 n) or one sample later; it is
      not the half-open range [floor(0.15 n), floor(0.30 n)). */
  lemma WindowEnd(n: nat)
    ensures var end := WindowStart(n) + WindowLength(n);
      end == (30 * n) / 100 || end == (30 * n) / 100 + 1
  {
  }

  /** A one-sample simulation is stimulated at its only sample, although
      floor(0.30) == 0. */
  lemma SingleSampleIsStimulated()
    ensures InWindow(1, 0)
    ensures (30 * 1) / 100 == 0
  {
  }
}
