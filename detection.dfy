/**
 * Signal-detection scores of a 2-choice session: Laplace-corrected hit and
 * false-alarm rates `(count + 0.5) / (total + 1)`, clipped to [0.01, 0.99],
 * and d' = ppf(hit rate) - ppf(false-alarm rate). The inverse normal CDF
 * `norm.ppf` is a parameter; the lemmas about d' only assume it is
 * non-decreasing.
 */
module Detection {
  import opened Tables

  const Floor: real := 0.01
  const Ceiling: real := 0.99

  /** `(count + 0.5) / (total + 1)`: strictly between 0 and 1 whenever `count <= total`. */
  function Rate(count: nat, total: nat): (r: real)
    ensures r > 0.0
    ensures count <= total ==> r < 1.0
  {
    Quotient(count as real + 0.5, total as real + 1.0)
  }

  function Quotient(x: real, y: real): (q: real)
    requires x > 0.0 && y > 0.0
    ensures q > 0.0
    ensures x < y ==> q < 1.0
    ensures q * y == x
  {
    var q := x / y;
    assert q * y == x;
    assert x < y ==> q < 1.0 by {
      if x < y && q >= 1.0 { ScaleLe(1.0, q, y); }
    }
    q
  }

  lemma DivMono(x1: real, x2: real, y: real)
    requires x1 <= x2 && y > 0.0
    ensures x1 / y <= x2 / y
  {
    var d := x2 / y - x1 / y;
    assert d * y == x2 - x1;
  }

  lemma ScaleLe(a: real, b: real, y: real)
    requires a <= b && y > 0.0
    ensures a * y <= b * y
  {}

  /** `min(max(x, 0.01), 0.99)`, equivalently `np.clip(x, 0.01, 0.99)`. */
  function Clip(x: real): (y: real)
    ensures Floor <= y <= Ceiling
    ensures Floor <= x <= Ceiling ==> y == x
    ensures x < Floor ==> y == Floor
    ensures x > Ceiling ==> y == Ceiling
  {
    var lifted := if x < Floor then Floor else x;
    if lifted > Ceiling then Ceiling else lifted
  }

  /** The rate a script reports: corrected, then clipped. */
  function ClippedRate(count: nat, total: nat): (r: real)
    ensures Floor <= r <= Ceiling
  {
    Clip(Rate(count, total))
  }

  /** More hits over the same trials never lower the rate. */
  lemma RateMonotone(c1: nat, c2: nat, total: nat)
    requires c1 <= c2
    ensures Rate(c1, total) <= Rate(c2, total)
  {
    DivMono(c1 as real + 0.5, c2 as real + 0.5, total as real + 1.0);
  }

  lemma ClipMonotone(x: real, y: real)
    requires x <= y
    ensures Clip(x) <= Clip(y)
  {}

  lemma ClippedRateMonotone(c1: nat, c2: nat, total: nat)
    requires c1 <= c2
    ensures ClippedRate(c1, total) <= ClippedRate(c2, total)
  {
    RateMonotone(c1, c2, total);
    ClipMonotone(Rate(c1, total), Rate(c2, total));
  }

  /** A count and its complement have corrected rates that add up to one. */
  lemma RateComplement(count: nat, total: nat)
    requires count <= total
    ensures Rate(count, total) + Rate(total - count, total) == 1.0
  {
    var y := total as real + 1.0;
    var x1 := count as real + 0.5;
    var x2 := (total - count) as real + 0.5;
    assert Rate(count, total) == x1 / y && Rate(total - count, total) == x2 / y;
    assert x1 + x2 == y;
    DivAdd(x1, x2, y);
  }

  lemma DivAdd(a: real, b: real, y: real)
    requires y > 0.0
    ensures a / y + b / y == (a + b) / y
  {
  }

  ghost predicate NonDecreasing(f: real -> real)
  {
    forall x, y :: x <= y ==> f(x) <= f(y)
  }

  /** `norm.ppf(hr) - norm.ppf(fa)`. */
  function DPrime(ppf: real -> real, hr: real, fa: real): real
  {
    ppf(hr) - ppf(fa)
  }

  /** d' of a session with `hits` hit trials and `misses` false-alarm trials among `total`. */
  function SessionDPrime(ppf: real -> real, hits: nat, falseAlarms: nat, total: nat): real
  {
    DPrime(ppf, ClippedRate(hits, total), ClippedRate(falseAlarms, total))
  }

  /** As many false alarms as hits give d' = 0. */
  lemma BalancedSessionHasZeroDPrime(ppf: real -> real, count: nat, total: nat)
    ensures SessionDPrime(ppf, count, count, total) == 0.0
  {}

  /** Swapping the two counts negates d'. */
  lemma SwappedCountsNegateDPrime(ppf: real -> real, hits: nat, falseAlarms: nat, total: nat)
    ensures SessionDPrime(ppf, falseAlarms, hits, total) == -SessionDPrime(ppf, hits, falseAlarms, total)
  {}

  /** With a non-decreasing `ppf`, more hits never lower d' and more false alarms never raise it. */
  lemma DPrimeMonotone(ppf: real -> real, h1: nat, h2: nat, f1: nat, f2: nat, total: nat)
    requires NonDecreasing(ppf)
    requires h1 <= h2 && f2 <= f1
    ensures SessionDPrime(ppf, h1, f1, total) <= SessionDPrime(ppf, h2, f2, total)
  {
    ClippedRateMonotone(h1, h2, total);
    ClippedRateMonotone(f2, f1, total);
  }

  /**
   * `(mask).cumsum()`, defined entry by entry: entry `i` counts the rows
   * among the first `i + 1` that satisfy `p`. Its properties are those of
   * `RunningCountProperties`.
   */
  function RunningCount(rows: seq<Row>, p: Row -> bool): (run: seq<nat>)
    ensures |run| == |rows|
    ensures forall i :: 0 <= i < |rows| ==> run[i] == Count(rows[..i + 1], p)
  {
    seq(|rows|, i requires 0 <= i < |rows| => Count(rows[..i + 1], p))
  }

  /** A running count never decreases, never exceeds the number of rows seen, and ends at the total. */
  lemma RunningCountProperties(rows: seq<Row>, p: Row -> bool)
    ensures forall i :: 0 <= i < |rows| ==> RunningCount(rows, p)[i] <= i + 1
    ensures forall i, j :: 0 <= i <= j < |rows| ==> RunningCount(rows, p)[i] <= RunningCount(rows, p)[j]
    ensures |rows| > 0 ==> RunningCount(rows, p)[|rows| - 1] == Count(rows, p)
  {
    var run := RunningCount(rows, p);
    forall i, j | 0 <= i <= j < |rows| ensures run[i] <= run[j] {
      assert rows[..j + 1] == rows[..i + 1] + rows[i + 1..j + 1];
      CountSplit(rows[..i + 1], rows[i + 1..j + 1], p);
    }
    if |rows| > 0 {
      assert rows[..|rows|] == rows;
    }
  }
}
