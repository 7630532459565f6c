/**
 * analyze_free_pressing.py: the press counts of a free-pressing session.
 * Only rows with `lick == 1` are presses; the cumulative curves count them
 * trial by trial, in ascending trial-number order.
 */
module FreePressing {
  import opened Wrappers
  import opened Tables
  import Sorting

  /** The columns the script requires before it does anything. */
  const PressColumns: set<Column> := {Lick, LeftSpout, RightSpout, QW, TrialStart, TrialEnd, LickTime, SessionStart}

  /**
   * The numbers behind the figure: the three press totals and the
   * `groupby('trial_number').size().cumsum()` series, as (trial, running count) pairs.
   */
  datatype PressSummary = PressSummary(
    total: nat, left: real, right: real,
    cumulativeTotal: seq<(int, nat)>, cumulativeLeft: seq<(int, nat)>, cumulativeRight: seq<(int, nat)>)

  /**
   * `df['session_start'].iloc[0]` raises `IndexError` on a file without
   * rows; copying the lick columns raises `KeyError` without `trial_number`;
   * a `trial_start` or `trial_end` column without any value makes the
   * session length NaN, which `ax0.set_xlim` refuses with `ValueError`.
   */
  datatype PressError = NoFirstRow | MissingTrialNumber | NoSessionSpan

  /** Some row holds a value in column `c`: `min()`/`max()` of it is not NaN. */
  predicate HasValue(rows: seq<Row>, c: Column)
  {
    exists i :: 0 <= i < |rows| && c in rows[i].cells
  }

  predicate IsLick(r: Row) { Flag(r, Lick) }

  predicate IsLeft(r: Row) { Flag(r, LeftSpout) }

  predicate IsRight(r: Row) { Flag(r, RightSpout) }

  function TrialOf(r: Row): int { r.trial }

  function AtOrBefore(x: int): Row -> bool { (r: Row) => r.trial <= x }

  // ---- `groupby(...).size().cumsum()` over ascending trial numbers ----

  predicate Ascending(ts: seq<int>) { forall i, j :: 0 <= i < j < |ts| ==> ts[i] <= ts[j] }

  predicate StrictlyAscendingKeys(c: seq<(int, nat)>) { forall i, j :: 0 <= i < j < |c| ==> c[i].0 < c[j].0 }

  function Keys(c: seq<(int, nat)>): (ks: seq<int>)
    ensures |ks| == |c| && forall k :: 0 <= k < |c| ==> ks[k] == c[k].0
  {
    seq(|c|, k requires 0 <= k < |c| => c[k].0)
  }

  /** How many of `ts` are at most `x`. */
  function AtMost(ts: seq<int>, x: int): (n: nat)
    ensures n <= |ts|
  {
    if ts == [] then 0 else (if ts[0] <= x then 1 else 0) + AtMost(ts[1..], x)
  }

  lemma {:induction false} AtMostSnoc(ts: seq<int>, t: int, x: int)
    ensures AtMost(ts + [t], x) == AtMost(ts, x) + (if t <= x then 1 else 0)
  {
    if ts != [] {
      assert (ts + [t])[1..] == ts[1..] + [t];
      AtMostSnoc(ts[1..], t, x);
    }
  }

  lemma {:induction false} AtMostAll(ts: seq<int>, x: int)
    requires forall i :: 0 <= i < |ts| ==> ts[i] <= x
    ensures AtMost(ts, x) == |ts|
  {
    if ts != [] {
      AtMostAll(ts[1..], x);
    }
  }

  /**
   * The running group sizes of an ascending sequence: one pair per distinct
   * value, holding the value and how many elements are at most it.
   */
  function RunningSizes(ts: seq<int>): (c: seq<(int, nat)>)
    ensures c == [] <==> ts == []
    ensures c != [] ==> c[|c| - 1] == (ts[|ts| - 1], |ts|)
  {
    if ts == [] then []
    else
      var prev := RunningSizes(ts[..|ts| - 1]);
      var t := ts[|ts| - 1];
      if prev != [] && prev[|prev| - 1].0 == t then prev[..|prev| - 1] + [(t, |ts|)]
      else prev + [(t, |ts|)]
  }

  lemma {:induction false} RunningSizesKeysAscend(ts: seq<int>)
    requires Ascending(ts)
    ensures StrictlyAscendingKeys(RunningSizes(ts))
  {
    if ts != [] {
      var init := ts[..|ts| - 1];
      var t := ts[|ts| - 1];
      AscendingInit(ts);
      RunningSizesKeysAscend(init);
      AppendKeepsKeysAscending(init, t);
      assert init + [t] == ts;
    }
  }

  /** Dropping the last element keeps a sequence ascending, and the dropped one is at least the new last. */
  lemma AscendingInit(ts: seq<int>)
    requires ts != [] && Ascending(ts)
    ensures Ascending(ts[..|ts| - 1])
    ensures |ts| > 1 ==> ts[..|ts| - 1][|ts| - 2] <= ts[|ts| - 1]
  {
    var init := ts[..|ts| - 1];
    forall i, j | 0 <= i < j < |init| ensures init[i] <= init[j] {
      assert init[i] == ts[i] && init[j] == ts[j];
    }
  }

  lemma AppendKeepsKeysAscending(init: seq<int>, t: int)
    requires init != [] ==> init[|init| - 1] <= t
    requires StrictlyAscendingKeys(RunningSizes(init))
    ensures StrictlyAscendingKeys(RunningSizes(init + [t]))
  {
    var prev := RunningSizes(init);
    var c := RunningSizes(init + [t]);
    forall k | 0 <= k < |c| - 1 ensures k < |prev| && c[k] == prev[k] && prev[k].0 < t {
      EarlierPair(init, t, k);
    }
    forall i, j | 0 <= i < j < |c| ensures c[i].0 < c[j].0 {
      if j < |c| - 1 {
        assert c[i] == prev[i] && c[j] == prev[j];
      } else {
        assert c[j].0 == t;
      }
    }
  }

  /** A pair before the last is the pair before the append, and its value is below the appended one. */
  lemma EarlierPair(init: seq<int>, t: int, k: nat)
    requires init != [] ==> init[|init| - 1] <= t
    requires StrictlyAscendingKeys(RunningSizes(init))
    requires k < |RunningSizes(init + [t])| - 1
    ensures k < |RunningSizes(init)| && RunningSizes(init + [t])[k] == RunningSizes(init)[k]
    ensures RunningSizes(init)[k].0 < t
  {
    var ts := init + [t];
    assert ts[..|ts| - 1] == init;
    RunningSizesStep(ts);
    var prev := RunningSizes(init);
    if k < |prev| - 1 {
      assert prev[k].0 < prev[|prev| - 1].0;
    }
  }

  /** In strictly ascending keys every key is at most the last. */
  lemma KeysBelowLast(c: seq<(int, nat)>)
    requires StrictlyAscendingKeys(c)
    ensures forall k :: 0 <= k < |c| - 1 ==> c[k].0 < c[|c| - 1].0
  {
  }

  /** One more element either replaces the last pair (same value) or adds one; the other pairs stay. */
  lemma RunningSizesStep(ts: seq<int>)
    requires ts != []
    ensures var prev := RunningSizes(ts[..|ts| - 1]);
            var c := RunningSizes(ts);
            |prev| <= |c| <= |prev| + 1
            && (forall k :: 0 <= k < |c| - 1 ==> c[k] == prev[k])
            && (|c| == |prev| ==> prev[|prev| - 1].0 == ts[|ts| - 1])
            && (|c| == |prev| + 1 && prev != [] ==> prev[|prev| - 1].0 != ts[|ts| - 1])
  {
  }

  lemma {:induction false} RunningSizesCount(ts: seq<int>)
    requires Ascending(ts)
    ensures forall k :: 0 <= k < |RunningSizes(ts)| ==> RunningSizes(ts)[k].1 == AtMost(ts, RunningSizes(ts)[k].0)
  {
    if ts != [] {
      var init := ts[..|ts| - 1];
      var t := ts[|ts| - 1];
      AscendingInit(ts);
      RunningSizesCount(init);
      RunningSizesKeysAscend(init);
      assert init + [t] == ts;
      var c := RunningSizes(ts);
      forall k | 0 <= k < |c| - 1 ensures c[k].1 == AtMost(ts, c[k].0) {
        EarlierPairCount(init, t, k);
      }
      AtMostAll(ts, t);
    }
  }

  /** A pair before the last keeps its count when a value at least the last is appended. */
  lemma EarlierPairCount(init: seq<int>, t: int, k: nat)
    requires init != [] && init[|init| - 1] <= t && StrictlyAscendingKeys(RunningSizes(init))
    requires k < |RunningSizes(init)| && RunningSizes(init)[k].1 == AtMost(init, RunningSizes(init)[k].0)
    requires k < |RunningSizes(init + [t])| - 1
    ensures RunningSizes(init + [t])[k].1 == AtMost(init + [t], RunningSizes(init + [t])[k].0)
  {
    EarlierPair(init, t, k);
    AtMostSnoc(init, t, RunningSizes(init)[k].0);
  }

  lemma RunningSizesKeysAreValues(ts: seq<int>)
    ensures var c := RunningSizes(ts);
            (forall k :: 0 <= k < |c| ==> c[k].0 in ts) && (forall i :: 0 <= i < |ts| ==> ts[i] in Keys(c))
  {
    KeysAreValues(ts);
    ValuesAreKeys(ts);
  }

  lemma {:induction false} KeysAreValues(ts: seq<int>)
    ensures forall k :: 0 <= k < |RunningSizes(ts)| ==> RunningSizes(ts)[k].0 in ts
  {
    if ts != [] {
      var init := ts[..|ts| - 1];
      var prev := RunningSizes(init);
      KeysAreValues(init);
      RunningSizesStep(ts);
      var c := RunningSizes(ts);
      forall k | 0 <= k < |c| ensures c[k].0 in ts {
        if k < |c| - 1 {
          assert c[k] == prev[k];
          var j :| 0 <= j < |init| && init[j] == prev[k].0;
          assert ts[j] == init[j];
        } else {
          assert c[k].0 == ts[|ts| - 1];
        }
      }
    }
  }

  lemma {:induction false} ValuesAreKeys(ts: seq<int>)
    ensures forall i :: 0 <= i < |ts| ==> ts[i] in Keys(RunningSizes(ts))
  {
    if ts != [] {
      var init := ts[..|ts| - 1];
      var t := ts[|ts| - 1];
      var prev := RunningSizes(init);
      ValuesAreKeys(init);
      RunningSizesStep(ts);
      var c := RunningSizes(ts);
      forall i | 0 <= i < |ts| ensures ts[i] in Keys(c) {
        if i < |init| {
          assert ts[i] == init[i] && init[i] in Keys(prev);
          var k :| 0 <= k < |prev| && Keys(prev)[k] == init[i];
          if k < |c| - 1 { assert Keys(c)[k] == ts[i]; } else { assert Keys(c)[|c| - 1] == ts[i]; }
        } else {
          assert Keys(c)[|c| - 1] == t;
        }
      }
    }
  }

  function Trials(rows: seq<Row>): (ts: seq<int>)
    ensures |ts| == |rows| && forall k :: 0 <= k < |rows| ==> ts[k] == rows[k].trial
  {
    seq(|rows|, k requires 0 <= k < |rows| => rows[k].trial)
  }

  lemma {:induction false} AtMostCounts(rows: seq<Row>, x: int)
    ensures AtMost(Trials(rows), x) == Count(rows, AtOrBefore(x))
  {
    if rows != [] {
      assert Trials(rows)[1..] == Trials(rows[1..]);
      AtMostCounts(rows[1..], x);
    }
  }

  /** The sorted trial numbers count, below every `x`, the rows of any order. */
  lemma SortedTrialsCount(rows: seq<Row>)
    ensures forall x :: AtMost(Trials(Sorting.SortBy(rows, TrialOf)), x) == Count(rows, AtOrBefore(x))
  {
    var sorted := Sorting.SortBy(rows, TrialOf);
    forall x ensures AtMost(Trials(sorted), x) == Count(rows, AtOrBefore(x)) {
      AtMostCounts(sorted, x);
      CountPermutation(sorted, rows, AtOrBefore(x));
    }
  }

  /** The trial numbers of `rows`, sorted ascending. */
  function SortedTrials(rows: seq<Row>): (ts: seq<int>)
    ensures Ascending(ts) && |ts| == |rows|
  {
    var sorted := Sorting.SortBy(rows, TrialOf);
    assert Sorting.SortedBy(sorted, TrialOf);
    Trials(sorted)
  }

  /**
   * `rows.groupby('trial_number').size().cumsum()`: one pair per trial number
   * in ascending order, with the number of rows up to and including it.
   */
  function CumulativeCounts(rows: seq<Row>): (c: seq<(int, nat)>)
    ensures c == [] <==> rows == []
    ensures c != [] ==> c[|c| - 1].1 == |rows|
  {
    RunningSizes(SortedTrials(rows))
  }

  /** One pair per trial number, in ascending order. */
  lemma CumulativeCountsKeys(rows: seq<Row>)
    ensures StrictlyAscendingKeys(CumulativeCounts(rows))
    ensures forall k :: 0 <= k < |CumulativeCounts(rows)| ==> CumulativeCounts(rows)[k].0 in Trials(rows)
    ensures forall i :: 0 <= i < |rows| ==> rows[i].trial in Keys(CumulativeCounts(rows))
  {
    var ts := SortedTrials(rows);
    var c := CumulativeCounts(rows);
    RunningSizesKeysAscend(ts);
    KeysAreValues(ts);
    ValuesAreKeys(ts);
    forall k | 0 <= k < |c| ensures c[k].0 in Trials(rows) {
      var i :| 0 <= i < |ts| && ts[i] == c[k].0;
      SortedTrialIsTrial(rows, i);
    }
    forall i | 0 <= i < |rows| ensures rows[i].trial in Keys(c) {
      TrialIsSortedTrial(rows, i);
    }
  }

  lemma SortedTrialIsTrial(rows: seq<Row>, i: nat)
    requires i < |rows|
    ensures SortedTrials(rows)[i] in Trials(rows)
  {
    var sorted := Sorting.SortBy(rows, TrialOf);
    assert sorted[i] in multiset(rows);
    var j :| 0 <= j < |rows| && rows[j] == sorted[i];
    assert Trials(rows)[j] == SortedTrials(rows)[i];
  }

  lemma TrialIsSortedTrial(rows: seq<Row>, i: nat)
    requires i < |rows|
    ensures rows[i].trial in SortedTrials(rows)
  {
    var sorted := Sorting.SortBy(rows, TrialOf);
    assert rows[i] in multiset(sorted);
    var j :| 0 <= j < |sorted| && sorted[j] == rows[i];
    assert SortedTrials(rows)[j] == rows[i].trial;
  }

  /** The count paired with a trial number is the number of rows up to and including that trial. */
  lemma CumulativeCountsCount(rows: seq<Row>)
    ensures forall k :: 0 <= k < |CumulativeCounts(rows)| ==>
              CumulativeCounts(rows)[k].1 == Count(rows, AtOrBefore(CumulativeCounts(rows)[k].0))
  {
    RunningSizesCount(SortedTrials(rows));
    SortedTrialsCount(rows);
  }

  /** The running counts rise from one trial to the next. */
  lemma CumulativeCountsIncrease(rows: seq<Row>)
    ensures forall i, j :: 0 <= i < j < |CumulativeCounts(rows)| ==>
              CumulativeCounts(rows)[i].1 < CumulativeCounts(rows)[j].1
  {
    var c := CumulativeCounts(rows);
    CumulativeCountsKeys(rows);
    CumulativeCountsCount(rows);
    forall i, j | 0 <= i < j < |c| ensures c[i].1 < c[j].1 {
      assert c[i].0 < c[j].0 && c[j].0 in Trials(rows);
      var k :| 0 <= k < |rows| && Trials(rows)[k] == c[j].0;
      CountStrict(rows, c[i].0, c[j].0, k);
    }
  }

  /** A row on a later trial adds to the later count. */
  lemma {:induction false} CountStrict(rows: seq<Row>, x: int, y: int, k: nat)
    requires x < y && k < |rows| && rows[k].trial == y
    ensures Count(rows, AtOrBefore(x)) < Count(rows, AtOrBefore(y))
  {
    if k == 0 {
      CountMonotone(rows[1..], AtOrBefore(x), AtOrBefore(y));
    } else {
      CountStrict(rows[1..], x, y, k - 1);
    }
  }

  // ---- `analyze` ----

  /** `licks_only`: the rows with `lick == 1`, in file order. */
  function Licks(rows: seq<Row>): (r: seq<Row>)
    ensures forall x :: x in r <==> x in rows && IsLick(x)
    ensures |r| == Count(rows, IsLick)
  {
    Filter(rows, IsLick)
  }

  /** A cumulative curve over the presses that satisfy `side`. */
  function SideCurve(rows: seq<Row>, side: Row -> bool): seq<(int, nat)>
  {
    CumulativeCounts(Filter(Licks(rows), side))
  }

  /**
   * The counts of `analyze`: nothing when a required column is missing,
   * `NoFirstRow` for a file without rows, `MissingTrialNumber` when the file
   * lacks `trial_number`, which the gate does not ask for but the lick
   * table copies, and `NoSessionSpan` when `trial_start` or `trial_end` has
   * no value on any row, so that the first plot's x range is NaN.
   */
  function AnalyzePresses(t: Table): (r: Result<Option<PressSummary>, PressError>)
    ensures r == Ok(None) <==> !(PressColumns <= t.columns)
    ensures r.Err? <==> PressColumns <= t.columns
                        && (t.rows == [] || TrialNumber !in t.columns
                            || !HasValue(t.rows, TrialStart) || !HasValue(t.rows, TrialEnd))
    ensures r == Err(NoFirstRow) <==> PressColumns <= t.columns && t.rows == []
    ensures r == Err(MissingTrialNumber) <==> PressColumns <= t.columns && t.rows != [] && TrialNumber !in t.columns
    ensures r == Err(NoSessionSpan) <==> PressColumns <= t.columns && t.rows != [] && TrialNumber in t.columns
                                         && (!HasValue(t.rows, TrialStart) || !HasValue(t.rows, TrialEnd))
    ensures r.Ok? && r.value.Some? ==> r.value.value.total == Count(t.rows, IsLick)
  {
    if !(PressColumns <= t.columns) then Ok(None)
    else if t.rows == [] then Err(NoFirstRow)
    else if TrialNumber !in t.columns then Err(MissingTrialNumber)
    else if !HasValue(t.rows, TrialStart) || !HasValue(t.rows, TrialEnd) then Err(NoSessionSpan)
    else
      var licks := Licks(t.rows);
      Ok(Some(PressSummary(
        |licks|, CellSum(licks, LeftSpout), CellSum(licks, RightSpout),
        CumulativeCounts(licks), SideCurve(t.rows, IsLeft), SideCurve(t.rows, IsRight))))
  }

  /**
   * A one-row log with every column, `trial_end` included, but no value
   * written in `trial_end` has no session span.
   */
  lemma CutOffLogStops()
    ensures var cols := PressColumns + {TrialNumber};
            var row := Row(1, None, map[Lick := 0.0, LeftSpout := 0.0, RightSpout := 0.0, QW := 1.0,
                                        TrialStart := 10.0, LickTime := 0.0, SessionStart := 0.0]);
            AnalyzePresses(Table(cols, [row])) == Err(NoSessionSpan)
  {
    var row := Row(1, None, map[Lick := 0.0, LeftSpout := 0.0, RightSpout := 0.0, QW := 1.0,
                                TrialStart := 10.0, LickTime := 0.0, SessionStart := 0.0]);
    var t := Table(PressColumns + {TrialNumber}, [row]);
    assert PressColumns <= t.columns && TrialNumber in t.columns;
    assert !HasValue(t.rows, TrialEnd) by { assert TrialEnd !in row.cells; }
  }

  /** `Count` of a non-empty sequence, one row at a time. */
  lemma CountCons(rows: seq<Row>, p: Row -> bool)
    requires rows != []
    ensures Count(rows, p) == (if p(rows[0]) then 1 else 0) + Count(rows[1..], p)
  {
    assert rows == [rows[0]] + rows[1..];
    CountSplit([rows[0]], rows[1..], p);
    assert [rows[0]][1..] == [];
  }

  /** The rows satisfying both masks. */
  function And(p: Row -> bool, q: Row -> bool): Row -> bool
  {
    (r: Row) => p(r) && q(r)
  }

  /** Selecting `q` among the rows selected by `p` counts the rows satisfying both. */
  lemma {:induction false} CountFiltered(rows: seq<Row>, p: Row -> bool, q: Row -> bool)
    ensures Count(Filter(rows, p), q) == Count(rows, And(p, q))
  {
    if rows != [] {
      CountFiltered(rows[1..], p, q);
      CountCons(rows, And(p, q));
      assert And(p, q)(rows[0]) == (p(rows[0]) && q(rows[0]));
      if p(rows[0]) {
        assert Filter(rows, p) == [rows[0]] + Filter(rows[1..], p);
        CountCons(Filter(rows, p), q);
        assert Filter(rows, p)[1..] == Filter(rows[1..], p);
      } else {
        assert Filter(rows, p) == [] + Filter(rows[1..], p);
        assert [] + Filter(rows[1..], p) == Filter(rows[1..], p);
      }
    }
  }

  /**
   * The cumulative-total curve ends at the total number of presses and
   * rises at every trial that has one.
   */
  lemma CumulativeTotalEndsAtTotal(t: Table)
    requires AnalyzePresses(t).Ok? && AnalyzePresses(t).value.Some?
    ensures var s := AnalyzePresses(t).value.value;
            (s.cumulativeTotal == [] <==> s.total == 0)
            && (s.cumulativeTotal != [] ==> s.cumulativeTotal[|s.cumulativeTotal| - 1].1 == s.total)
            && forall i, j :: 0 <= i < j < |s.cumulativeTotal| ==> s.cumulativeTotal[i].1 < s.cumulativeTotal[j].1
  {
    CumulativeCountsIncrease(Licks(t.rows));
  }

  /**
   * A side curve counts, up to each of its trials, exactly the rows that are
   * both a press and a press at that side.
   */
  lemma SideCurveCountsSidePresses(rows: seq<Row>, side: Row -> bool)
    ensures forall k :: 0 <= k < |SideCurve(rows, side)| ==>
              SideCurve(rows, side)[k].1 == Count(rows, And(IsLick, And(side, AtOrBefore(SideCurve(rows, side)[k].0))))
  {
    var licks := Licks(rows);
    var c := SideCurve(rows, side);
    CumulativeCountsCount(Filter(licks, side));
    forall k | 0 <= k < |c|
      ensures c[k].1 == Count(rows, And(IsLick, And(side, AtOrBefore(c[k].0))))
    {
      var x := c[k].0;
      CountFiltered(licks, side, AtOrBefore(x));
      CountFiltered(rows, IsLick, And(side, AtOrBefore(x)));
    }
  }

  /**
   * With 0/1 spout flags, `left_presses` and `right_presses` count the
   * presses at each spout, which is where the side curves end.
   */
  lemma SidePressesAreSideCounts(t: Table)
    requires AnalyzePresses(t).Ok? && AnalyzePresses(t).value.Some?
    requires forall r :: r in t.rows && LeftSpout in r.cells ==> r.cells[LeftSpout] == 0.0 || r.cells[LeftSpout] == 1.0
    requires forall r :: r in t.rows && RightSpout in r.cells ==> r.cells[RightSpout] == 0.0 || r.cells[RightSpout] == 1.0
    ensures var s := AnalyzePresses(t).value.value;
            s.left == Count(t.rows, And(IsLick, IsLeft)) as real
            && s.right == Count(t.rows, And(IsLick, IsRight)) as real
            && (s.cumulativeLeft != [] ==> s.cumulativeLeft[|s.cumulativeLeft| - 1].1 as real == s.left)
            && (s.cumulativeRight != [] ==> s.cumulativeRight[|s.cumulativeRight| - 1].1 as real == s.right)
  {
    SpoutSumCountsPresses(t.rows, LeftSpout, IsLeft);
    SpoutSumCountsPresses(t.rows, RightSpout, IsRight);
  }

  lemma SpoutSumCountsPresses(rows: seq<Row>, c: Column, side: Row -> bool)
    requires forall r :: r in rows && c in r.cells ==> r.cells[c] == 0.0 || r.cells[c] == 1.0
    requires forall r :: side(r) <==> Flag(r, c)
    ensures CellSum(Licks(rows), c) == Count(rows, And(IsLick, side)) as real
    ensures |Filter(Licks(rows), side)| == Count(rows, And(IsLick, side))
  {
    var licks := Licks(rows);
    CellSumOfFlags(licks, c);
    CountFiltered(rows, IsLick, side);
    CountSameMask(licks, r => Flag(r, c), side);
  }

  lemma {:induction false} CountSameMask(rows: seq<Row>, p: Row -> bool, q: Row -> bool)
    requires forall r :: p(r) <==> q(r)
    ensures Count(rows, p) == Count(rows, q)
  {
    if rows != [] {
      CountCons(rows, p);
      CountCons(rows, q);
      CountSameMask(rows[1..], p, q);
    }
  }
}
