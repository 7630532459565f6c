/**
 * analyze_spout_sampling.py: each trial of a spout-sampling session in
 * which the animal went to a spout becomes a point at that spout's height,
 * green when rewarded; the bars count rewarded and unrewarded visits.
 */
module SpoutSampling {
  import opened Wrappers
  import opened Tables
  import Sorting

  /** The columns the script requires before it does anything. */
  const SamplingColumns: set<Column> := {TrialNumber, LeftSpout, RightSpout, Reward, Omission, Lick}

  /** The `outcome` column once it is not "": the spout the trial went to. */
  datatype Side = LeftSide | RightSide

  /** One scatter point: trial number, spout, `y_pos` and whether it is drawn green. */
  datatype Point = Point(trial: int, side: Side, y: int, green: bool)

  /** The seven bars, in plotting order. */
  datatype SamplingBars = SamplingBars(
    total: nat, correct: nat, incorrect: nat,
    correctLeft: nat, incorrectLeft: nat, correctRight: nat, incorrectRight: nat)

  datatype Sampling = Sampling(points: seq<Point>, bars: SamplingBars)

  function TrialOf(r: Row): int { r.trial }

  /**
   * The outcome both passes leave on a row: the right pass runs second and
   * overwrites the left one; a trial with an omission (after `fillna(0)`, a
   * missing omission is 0) gets neither.
   */
  function OutcomeOf(r: Row): Option<Side>
  {
    if Flag(r, RightSpout) && IsZero(r, Omission) then Some(RightSide)
    else if Flag(r, LeftSpout) && IsZero(r, Omission) then Some(LeftSide)
    else None
  }

  predicate HasOutcome(r: Row) { OutcomeOf(r).Some? }

  /** What the first pass alone writes. */
  function LeftPass(r: Row): Option<Side>
  {
    if Flag(r, LeftSpout) && IsZero(r, Omission) then Some(LeftSide) else None
  }

  /**
   * `df["outcome"] = ""` and the two `df.loc` passes over the sorted rows,
   * one slot per row; `None` is the empty string.
   */
  method AssignOutcomes(rows: seq<Row>) returns (outcome: array<Option<Side>>)
    ensures fresh(outcome) && outcome.Length == |rows|
    ensures forall i :: 0 <= i < |rows| ==> outcome[i] == OutcomeOf(rows[i])
  {
    outcome := new Option<Side>[|rows|](_ => None);
    for i := 0 to |rows|
      invariant forall j :: 0 <= j < i ==> outcome[j] == LeftPass(rows[j])
      invariant forall j :: i <= j < |rows| ==> outcome[j] == None
    {
      if Flag(rows[i], LeftSpout) && IsZero(rows[i], Omission) {
        outcome[i] := Some(LeftSide);
      }
    }
    for i := 0 to |rows|
      invariant forall j :: 0 <= j < i ==> outcome[j] == OutcomeOf(rows[j])
      invariant forall j :: i <= j < |rows| ==> outcome[j] == LeftPass(rows[j])
    {
      if Flag(rows[i], RightSpout) && IsZero(rows[i], Omission) {
        outcome[i] := Some(RightSide);
      }
    }
  }

  /** `y_pos` and `color` of a kept row. */
  function PointOf(r: Row): (p: Point)
    requires HasOutcome(r)
    ensures p.trial == r.trial && Some(p.side) == OutcomeOf(r)
    ensures p.y == 1 <==> p.side == LeftSide
    ensures p.y == 0 || p.y == 1
    ensures p.green <==> Flag(r, Reward)
  {
    var side := OutcomeOf(r).value;
    Point(r.trial, side, if side == LeftSide then 1 else 0, Flag(r, Reward))
  }

  function Points(kept: seq<Row>): (ps: seq<Point>)
    requires forall i :: 0 <= i < |kept| ==> HasOutcome(kept[i])
    ensures |ps| == |kept| && forall i :: 0 <= i < |kept| ==> ps[i] == PointOf(kept[i])
  {
    seq(|kept|, i requires 0 <= i < |kept| => PointOf(kept[i]))
  }

  predicate Rewarded(r: Row) { Flag(r, Reward) }

  predicate Unrewarded(r: Row) { IsZero(r, Reward) }

  function BarsOf(kept: seq<Row>): SamplingBars
  {
    SamplingBars(
      |kept|,
      Count(kept, r => Flag(r, Lick) && Rewarded(r)),
      Count(kept, r => Flag(r, Lick) && Unrewarded(r)),
      Count(kept, r => Flag(r, LeftSpout) && Rewarded(r)),
      Count(kept, r => Flag(r, LeftSpout) && Unrewarded(r)),
      Count(kept, r => Flag(r, RightSpout) && Rewarded(r)),
      Count(kept, r => Flag(r, RightSpout) && Unrewarded(r)))
  }

  /** The rows of the table after `fillna(0)` and `sort_values("trial_number")`. */
  function Prepared(t: Table): (rows: seq<Row>)
    ensures multiset(rows) == multiset(FillRows(t.rows, t.columns))
    ensures Sorting.SortedBy(rows, TrialOf)
  {
    Sorting.SortBy(FillRows(t.rows, t.columns), TrialOf)
  }

  /** The rows `df[df["outcome"] != ""]` keeps, in sorted order. */
  function Kept(t: Table): (kept: seq<Row>)
    ensures forall i :: 0 <= i < |kept| ==> HasOutcome(kept[i])
  {
    var kept := Filter(Prepared(t), HasOutcome);
    assert forall i :: 0 <= i < |kept| ==> kept[i] in kept;
    kept
  }

  /** What the figure shows, for a table that has the required columns. */
  function SamplingOf(t: Table): Sampling
  {
    Sampling(Points(Kept(t)), BarsOf(Kept(t)))
  }

  /** `df[df["outcome"] != ""]`: the rows whose slot the passes filled. */
  method KeepAssigned(rows: seq<Row>, outcome: array<Option<Side>>) returns (kept: seq<Row>)
    requires outcome.Length == |rows|
    requires forall i :: 0 <= i < |rows| ==> outcome[i] == OutcomeOf(rows[i])
    ensures kept == Filter(rows, HasOutcome)
  {
    kept := [];
    for i := 0 to |rows|
      invariant kept == Filter(rows[..i], HasOutcome)
    {
      FilterSnoc(rows, i, HasOutcome);
      assert outcome[i].Some? == HasOutcome(rows[i]);
      if outcome[i].Some? {
        kept := kept + [rows[i]];
      }
    }
    assert rows[..|rows|] == rows;
  }

  /**
   * How `analyze` ends: it returns early on a file that lacks a required
   * column, raises `ValueError` at `set_xlim` when no row is kept (the trial
   * range of an empty frame is NaN), and otherwise draws the figure.
   */
  datatype Run = SkippedMissingColumns | NoKeptRow | Drawn(figure: Sampling)

  /**
   * `analyze`: skipped when a required column is missing; otherwise the
   * outcome passes over the sorted rows, the kept rows, their points and
   * bars, as long as some row is kept.
   */
  method Analyze(t: Table) returns (r: Run)
    ensures r.SkippedMissingColumns? <==> !(SamplingColumns <= t.columns)
    ensures r.NoKeptRow? <==> SamplingColumns <= t.columns && Kept(t) == []
    ensures r.Drawn? ==> r.figure == SamplingOf(t) && r.figure.points != []
  {
    if !(SamplingColumns <= t.columns) {
      return SkippedMissingColumns;
    }
    var rows := Prepared(t);
    var outcome := AssignOutcomes(rows);
    var kept := KeepAssigned(rows, outcome);
    if kept == [] {
      return NoKeptRow;
    }
    return Drawn(Sampling(Points(kept), BarsOf(kept)));
  }

  // ---- what the figure promises ----

  /** A trial at both spouts without omission is plotted as a right-spout trial. */
  lemma RightOverridesLeft(r: Row)
    requires Flag(r, LeftSpout) && Flag(r, RightSpout) && IsZero(r, Omission)
    ensures OutcomeOf(r) == Some(RightSide)
  {
  }

  /**
   * A row is kept exactly when its omission is 0 after the fill and one of
   * its spout flags is 1.
   */
  lemma KeptRows(t: Table)
    ensures forall x :: x in Kept(t) <==>
              x in Prepared(t) && IsZero(x, Omission) && (Flag(x, LeftSpout) || Flag(x, RightSpout))
  {
  }

  /** Sorting does not change how many trials are kept: the total bar counts the file's visits. */
  lemma TotalCountsVisits(t: Table)
    ensures SamplingOf(t).bars.total == Count(FillRows(t.rows, t.columns), HasOutcome)
  {
    CountPermutation(Prepared(t), FillRows(t.rows, t.columns), HasOutcome);
  }

  /** The points follow ascending trial numbers. */
  lemma {:induction false} PointsAscend(t: Table)
    ensures forall i, j :: 0 <= i < j < |SamplingOf(t).points| ==>
              SamplingOf(t).points[i].trial <= SamplingOf(t).points[j].trial
  {
    FilterKeepsOrder(Prepared(t), HasOutcome);
  }

  /** Filtering a sequence sorted by trial number keeps it sorted. */
  lemma {:induction false} FilterKeepsOrder(rows: seq<Row>, p: Row -> bool)
    requires Sorting.SortedBy(rows, TrialOf)
    ensures Sorting.SortedBy(Filter(rows, p), TrialOf)
  {
    if rows != [] {
      assert Sorting.SortedBy(rows[1..], TrialOf);
      FilterKeepsOrder(rows[1..], p);
      var rest := Filter(rows[1..], p);
      forall x | x in rest ensures rows[0].trial <= x.trial {
        var j :| 0 <= j < |rows[1..]| && rows[1..][j] == x;
        assert rows[j + 1] == x;
      }
    }
  }

  /**
   * Every visit is rewarded (reward 1) or not (reward 0) at most once, so
   * the correct and incorrect bars together never exceed the number of
   * kept trials; likewise at each spout.
   */
  lemma BarsWithinTotal(t: Table)
    ensures var b := SamplingOf(t).bars;
            b.correct + b.incorrect <= b.total
            && b.correctLeft + b.incorrectLeft <= b.total
            && b.correctRight + b.incorrectRight <= b.total
  {
    var kept := Kept(t);
    Disjoint(kept, r => Flag(r, Lick) && Rewarded(r), r => Flag(r, Lick) && Unrewarded(r));
    Disjoint(kept, r => Flag(r, LeftSpout) && Rewarded(r), r => Flag(r, LeftSpout) && Unrewarded(r));
    Disjoint(kept, r => Flag(r, RightSpout) && Rewarded(r), r => Flag(r, RightSpout) && Unrewarded(r));
  }

  /** Two masks no row satisfies together select at most all rows between them. */
  lemma {:induction false} Disjoint(rows: seq<Row>, p: Row -> bool, q: Row -> bool)
    requires forall r :: !(p(r) && q(r))
    ensures Count(rows, p) + Count(rows, q) <= |rows|
  {
    if rows != [] {
      Disjoint(rows[1..], p, q);
      CountSplit([rows[0]], rows[1..], p);
      CountSplit([rows[0]], rows[1..], q);
      assert [rows[0]] + rows[1..] == rows;
    }
  }

  /** The points at height 1 are the left-spout trials and the green ones the rewarded trials. */
  lemma PointsMeanWhatTheyShow(t: Table)
    requires SamplingColumns <= t.columns
    ensures forall i :: 0 <= i < |SamplingOf(t).points| ==>
              var p := SamplingOf(t).points[i];
              var r := Kept(t)[i];
              (p.y == 1 <==> p.side == LeftSide) && (p.y == 0 <==> p.side == RightSide)
              && (p.side == RightSide <==> Flag(r, RightSpout)) && (p.green <==> Flag(r, Reward))
  {
  }
}
