/**
 * The progress bar of a run: `setProgress` clamps every value to 0..100, and
 * while results stream in the bar moves from 50 to
 * `50 + Math.round(i / n * 50)` after the i-th of n results.
 */
module Progress {
  /** `Math.max(0, Math.min(100, pct))`, the width `setProgress` gives the bar. */
  function Clamp(pct: int): (w: int)
    ensures 0 <= w <= 100
    ensures 0 <= pct <= 100 ==> w == pct
    ensures pct < 0 ==> w == 0
    ensures pct > 100 ==> w == 100
  {
    if pct < 0 then 0 else if pct > 100 then 100 else pct
  }

  /**
   * `Math.round(i / n * 50)` computed on integers: the integer nearest to
   * 50i/n, a half rounded up, that is k - 1/2 <= 50i/n < k + 1/2.
   */
  function Round50(i: nat, n: nat): (k: int)
    requires n > 0
    ensures 2 * n * k - n <= 100 * i < 2 * n * k + n
  {
    var q := (100 * i + n) / (2 * n);
    assert 2 * n * q <= 100 * i + n < 2 * n * q + 2 * n;
    q
  }

  lemma MulSign(m: int, d: int)
    requires m > 0
    ensures d >= 1 ==> m * d >= m
    ensures d <= -1 ==> m * d <= -m
  {
  }

  /** The rounding is the only integer within a half of 50i/n. */
  lemma RoundUnique(i: nat, n: nat, k: int)
    requires n > 0
    requires 2 * n * k - n <= 100 * i < 2 * n * k + n
    ensures k == Round50(i, n)
  {
    var r := Round50(i, n);
    assert 2 * n * k - 2 * n * r == 2 * n * (k - r);
    MulSign(2 * n, k - r);
  }

  lemma RoundBounds(i: nat, n: nat)
    requires 0 < n && i <= n
    ensures 0 <= Round50(i, n) <= 50
  {
    var k := Round50(i, n);
    MulSign(2 * n, k);
    MulSign(2 * n, k - 50);
    assert 2 * n * k == 2 * n * (k - 50) + 100 * n;
  }

  lemma RoundMonotone(i: nat, j: nat, n: nat)
    requires 0 < n && i <= j
    ensures Round50(i, n) <= Round50(j, n)
  {
    var a, b := Round50(i, n), Round50(j, n);
    MulSign(2 * n, a - b);
    assert 2 * n * a == 2 * n * (a - b) + 2 * n * b;
  }

  lemma RoundFull(n: nat)
    requires n > 0
    ensures Round50(n, n) == 50
  {
    RoundUnique(n, n, 50);
  }

  /** The bar widths after the first i of n results. */
  function Steps(i: nat, n: nat): (r: seq<int>)
    requires 0 < n && i <= n
    ensures |r| == i
  {
    if i == 0 then [] else Steps(i - 1, n) + [Clamp(50 + Round50(i, n))]
  }

  /** After the k-th result of n the bar sits at 50 plus the rounding of 50k/n. */
  lemma {:induction false} StepsAt(i: nat, n: nat)
    requires 0 < n && i <= n
    ensures forall k :: 0 <= k < i ==> Steps(i, n)[k] == 50 + Round50(k + 1, n)
  {
    if i > 0 {
      StepsAt(i - 1, n);
      RoundBounds(i, n);
      assert Steps(i, n) == Steps(i - 1, n) + [Clamp(50 + Round50(i, n))];
    }
  }

  predicate NonDecreasing(s: seq<int>) {
    forall i, j :: 0 <= i <= j < |s| ==> s[i] <= s[j]
  }

  /** The widths the results loop sets for n results, one per result. */
  function Ticks(n: nat): (r: seq<int>)
    ensures |r| == n
  {
    if n == 0 then [] else Steps(n, n)
  }

  /** The bar widths of a run whose dispatch returned n results: 12, 28, 50, then one per result. */
  function Trace(n: nat): seq<int> {
    [Clamp(12), Clamp(28), Clamp(50)] + Ticks(n)
  }

  /** Every width of the streaming phase lies in 50..100, and they never decrease. */
  lemma StepsProgress(n: nat)
    requires n > 0
    ensures forall k :: 0 <= k < n ==> 50 <= Steps(n, n)[k] <= 100
    ensures forall i, j :: 0 <= i <= j < n ==> Steps(n, n)[i] <= Steps(n, n)[j]
    ensures Steps(n, n)[n - 1] == 100
  {
    var s := Steps(n, n);
    StepsAt(n, n);
    forall k | 0 <= k < n ensures 50 <= s[k] <= 100 {
      RoundBounds(k + 1, n);
    }
    forall i, j | 0 <= i <= j < n ensures s[i] <= s[j] {
      RoundMonotone(i + 1, j + 1, n);
    }
    RoundFull(n);
  }

  /**
   * The bar of a completed run never moves back, stays within 0..100, and
   * ends at 100 once at least one result was shown (at 50 when none was).
   */
  lemma TraceProgresses(n: nat)
    ensures |Trace(n)| == n + 3
    ensures NonDecreasing(Trace(n))
    ensures forall k :: 0 <= k < |Trace(n)| ==> 0 <= Trace(n)[k] <= 100
    ensures Trace(n)[n + 2] == if n == 0 then 50 else 100
  {
    var t := Trace(n);
    if n > 0 {
      var s := Steps(n, n);
      StepsProgress(n);
      assert t == [12, 28, 50] + s;
      assert forall k :: 3 <= k < |t| ==> t[k] == s[k - 3];
    }
  }
}
