/**
 * The per-session outcome bars shared by analyze_adapt_sensorimotor.py,
 * analyze_2choice_auditory.py and 2choice.py, and the percentage ratios the
 * scripts report. Each bar is the number of rows matching a conjunction of
 * `== 1` tests, computed from the raw flags and not from the category.
 */
module Outcomes {
  import opened Wrappers
  import opened Tables
  import Classification

  /** The nine bars, in plotting order; `low`/`high` are the two tone columns. */
  datatype Bars = Bars(
    lowTone: nat, highTone: nat,
    lowOmissions: nat, highOmissions: nat,
    earlyLicks: nat,
    leftCorrect: nat, leftIncorrect: nat,
    rightCorrect: nat, rightIncorrect: nat)

  predicate Both(r: Row, a: Column, b: Column) { Flag(r, a) && Flag(r, b) }

  function CountBoth(rows: seq<Row>, a: Column, b: Column): nat
  {
    Count(rows, r => Both(r, a, b))
  }

  function CountFlag(rows: seq<Row>, a: Column): nat
  {
    Count(rows, r => Flag(r, a))
  }

  /** A conjunction never matches more rows than either of its parts. */
  lemma CountBothBounded(rows: seq<Row>, a: Column, b: Column)
    ensures CountBoth(rows, a, b) <= CountFlag(rows, a)
    ensures CountBoth(rows, a, b) <= CountFlag(rows, b)
  {
    CountMonotone(rows, r => Both(r, a, b), r => Flag(r, a));
    CountMonotone(rows, r => Both(r, a, b), r => Flag(r, b));
  }

  /** `count_5khz`, `omission_5khz`, ..., `count_right_incorrect` over `rows`. */
  function SessionBars(rows: seq<Row>, low: Column, high: Column): (b: Bars)
    ensures b.lowOmissions <= b.lowTone && b.highOmissions <= b.highTone
    ensures b.leftCorrect <= CountFlag(rows, LeftSpout) && b.leftIncorrect <= CountFlag(rows, LeftSpout)
    ensures b.rightCorrect <= CountFlag(rows, RightSpout) && b.rightIncorrect <= CountFlag(rows, RightSpout)
    ensures b.lowTone <= |rows| && b.highTone <= |rows| && b.earlyLicks <= |rows|
  {
    CountBothBounded(rows, Omission, low);
    CountBothBounded(rows, Omission, high);
    CountBothBounded(rows, LeftSpout, Reward);
    CountBothBounded(rows, LeftSpout, Punishment);
    CountBothBounded(rows, RightSpout, Reward);
    CountBothBounded(rows, RightSpout, Punishment);
    Bars(
      CountFlag(rows, low), CountFlag(rows, high),
      CountBoth(rows, Omission, low), CountBoth(rows, Omission, high),
      CountFlag(rows, EarlyLick),
      CountBoth(rows, LeftSpout, Reward), CountBoth(rows, LeftSpout, Punishment),
      CountBoth(rows, RightSpout, Reward), CountBoth(rows, RightSpout, Punishment))
  }

  function CountCategory(rows: seq<Row>, c: Classification.Category): nat
  {
    Count(rows, r => Classification.CategoryOf(r) == Some(c))
  }

  /**
   * The bars ignore the category: the early-lick bar counts every early-lick
   * row, including those the classification files under a side outcome, and
   * the correct-left bar every rewarded left row, including punished ones;
   * only "incorrect right", the last pass, matches its bar exactly.
   */
  lemma BarsCoverCategories(rows: seq<Row>, low: Column, high: Column)
    ensures CountCategory(rows, Classification.Early) <= SessionBars(rows, low, high).earlyLicks
    ensures CountCategory(rows, Classification.CorrectLeft) <= SessionBars(rows, low, high).leftCorrect
    ensures CountCategory(rows, Classification.CorrectRight) <= SessionBars(rows, low, high).rightCorrect
    ensures CountCategory(rows, Classification.IncorrectLeft) <= SessionBars(rows, low, high).leftIncorrect
    ensures CountCategory(rows, Classification.IncorrectRight) == SessionBars(rows, low, high).rightIncorrect
  {
    var b := SessionBars(rows, low, high);
    assert b.earlyLicks == CountFlag(rows, EarlyLick);
    assert b.leftCorrect == CountBoth(rows, LeftSpout, Reward);
    assert b.rightCorrect == CountBoth(rows, RightSpout, Reward);
    assert b.leftIncorrect == CountBoth(rows, LeftSpout, Punishment);
    assert b.rightIncorrect == CountBoth(rows, RightSpout, Punishment);
    CategoryWithin(rows, Classification.Early, r => Flag(r, EarlyLick));
    CategoryWithin(rows, Classification.CorrectLeft, r => Both(r, LeftSpout, Reward));
    CategoryWithin(rows, Classification.CorrectRight, r => Both(r, RightSpout, Reward));
    CategoryWithin(rows, Classification.IncorrectLeft, r => Both(r, LeftSpout, Punishment));
    CategoryWithin(rows, Classification.IncorrectRight, r => Both(r, RightSpout, Punishment));
    CountMonotone(rows, r => Both(r, RightSpout, Punishment),
                  r => Classification.CategoryOf(r) == Some(Classification.IncorrectRight));
  }

  lemma CategoryWithin(rows: seq<Row>, c: Classification.Category, p: Row -> bool)
    requires forall r :: Classification.CategoryOf(r) == Some(c) ==> p(r)
    ensures CountCategory(rows, c) <= Count(rows, p)
  {
    CountMonotone(rows, r => Classification.CategoryOf(r) == Some(c), p);
  }

  lemma CountSame(rows: seq<Row>, p: Row -> bool, q: Row -> bool)
    requires forall r :: p(r) <==> q(r)
    ensures Count(rows, p) == Count(rows, q)
  {
    CountMonotone(rows, p, q);
    CountMonotone(rows, q, p);
  }

  /** A single early, rewarded left trial raises both the early-lick and the correct-left bar. */
  lemma EarlyRewardedLeftCountsTwice(low: Column, high: Column)
    ensures var r := Row(1, None, map[EarlyLick := 1.0, LeftSpout := 1.0, Reward := 1.0]);
      SessionBars([r], low, high).earlyLicks == 1 && SessionBars([r], low, high).leftCorrect == 1
      && CountCategory([r], Classification.Early) == 0
  {
    var r := Row(1, None, map[EarlyLick := 1.0, LeftSpout := 1.0, Reward := 1.0]);
    assert [r][1..] == [];
  }

  /** `count / total * 100`. */
  function Percent(count: nat, total: nat): (p: real)
    requires total > 0
    ensures count <= total ==> 0.0 <= p <= 100.0
  {
    var q := count as real / total as real;
    assert count <= total ==> q <= 1.0 by {
      if count <= total { DivAtMostOne(count as real, total as real); }
    }
    q * 100.0
  }

  lemma DivAtMostOne(x: real, y: real)
    requires 0.0 <= x <= y && y > 0.0
    ensures 0.0 <= x / y <= 1.0
  {
    var q := x / y;
    assert q * y == x;
    assert (1.0 - q) * y == y - x;
  }

  /** A smaller count over the same total gives a smaller percentage. */
  lemma PercentMonotone(a: nat, b: nat, total: nat)
    requires total > 0 && a <= b
    ensures Percent(a, total) <= Percent(b, total)
  {
    var y := total as real;
    var d := b as real / y - a as real / y;
    assert d * y == (b - a) as real;
  }
}
