/**
 * The task blocks of an adaptive sensorimotor session
 * (analyze_adapt_sensorimotor.py): where a new block starts in the trial
 * table, how many blocks of each type the session ran, and how the trials
 * of one block type split into separate instances of that block.
 */
module Blocks {
  import opened Wrappers
  import opened Tables
  import Sorting

  /** The `block` column; `None` is an empty cell. */
  type Label = Option<string>

  function BlockColumn(rows: seq<Row>): (bs: seq<Label>)
    ensures |bs| == |rows|
    ensures forall i :: 0 <= i < |rows| ==> bs[i] == rows[i].block
  {
    seq(|rows|, i requires 0 <= i < |rows| => rows[i].block)
  }

  /**
   * `block != block.shift()`: the first row differs from the NaN shifted in
   * front of it, every other row from its predecessor.
   */
  predicate StartsBlock(bs: seq<Label>, i: nat)
    requires i < |bs|
  {
    i == 0 || bs[i] != bs[i - 1]
  }

  /** `block_starts["block"]`: the labels of the rows that start a block, from row `i` on. */
  function StartLabelsFrom(bs: seq<Label>, i: nat): seq<Label>
    requires i <= |bs|
    decreases |bs| - i
  {
    if i == |bs| then []
    else (if StartsBlock(bs, i) then [bs[i]] else []) + StartLabelsFrom(bs, i + 1)
  }

  function StartLabels(bs: seq<Label>): seq<Label>
  {
    StartLabelsFrom(bs, 0)
  }

  /** `block_counts.get(label, 0)`. */
  function BlockCount(bs: seq<Label>, name: string): nat
  {
    multiset(StartLabels(bs))[Some(name)]
  }

  /** A maximal run: a label and how many consecutive rows carry it. */
  datatype Run = Run(value: Label, length: nat)

  function Expand(runs: seq<Run>): seq<Label>
  {
    if runs == [] then [] else Repeat(runs[0].value, runs[0].length) + Expand(runs[1..])
  }

  /** `n` rows carrying label `v`. */
  function Repeat(v: Label, n: nat): seq<Label>
  {
    if n == 0 then [] else [v] + Repeat(v, n - 1)
  }

  /** Run-length encoding: runs of positive length, neighbours with different labels, expanding back to `bs`. */
  function Runs(bs: seq<Label>): (rs: seq<Run>)
    ensures Expand(rs) == bs
    ensures forall k :: 0 <= k < |rs| ==> rs[k].length > 0
    ensures forall k :: 0 < k < |rs| ==> rs[k].value != rs[k - 1].value
    ensures bs == [] <==> rs == []
    ensures rs != [] ==> rs[0].value == bs[0]
  {
    if bs == [] then []
    else
      var rest := Runs(bs[1..]);
      PushExpand(bs[0], rest);
      Push(bs[0], rest)
  }

  /** One more row in front: it lengthens the first run when the labels agree, or starts a new one. */
  function Push(x: Label, rest: seq<Run>): seq<Run>
  {
    if rest != [] && rest[0].value == x then [Run(x, rest[0].length + 1)] + rest[1..]
    else [Run(x, 1)] + rest
  }

  lemma PushExpand(x: Label, rest: seq<Run>)
    ensures Expand(Push(x, rest)) == [x] + Expand(rest)
  {
    if rest != [] && rest[0].value == x {
      PushLengthens(x, rest);
    } else {
      assert Push(x, rest) == [Run(x, 1)] + rest;
      ExpandCons(Run(x, 1), rest);
      assert Repeat(x, 1) == [x] + Repeat(x, 0);
    }
  }

  /** The row joins the first run, whose expansion then starts with one more `x`. */
  lemma PushLengthens(x: Label, rest: seq<Run>)
    requires rest != [] && rest[0].value == x
    ensures Expand(Push(x, rest)) == [x] + Expand(rest)
  {
    var n := rest[0].length;
    var tail := rest[1..];
    var longer := Run(x, n + 1);
    assert Push(x, rest) == [longer] + tail;
    ExpandCons(longer, tail);
    ExpandFirst(rest);
    RepeatSucc(x, n);
    ConsAssoc(x, Repeat(x, n), Expand(tail));
  }

  lemma ExpandFirst(rs: seq<Run>)
    requires rs != []
    ensures Expand(rs) == Repeat(rs[0].value, rs[0].length) + Expand(rs[1..])
  {
  }

  lemma RepeatSucc(v: Label, n: nat)
    ensures Repeat(v, n + 1) == [v] + Repeat(v, n)
  {
  }

  lemma ConsAssoc(x: Label, a: seq<Label>, b: seq<Label>)
    ensures ([x] + a) + b == [x] + (a + b)
  {
  }

  lemma ExpandCons(r: Run, rs: seq<Run>)
    ensures Expand([r] + rs) == Repeat(r.value, r.length) + Expand(rs)
  {
    assert ([r] + rs)[1..] == rs;
  }

  function RunLabels(rs: seq<Run>): (ls: seq<Label>)
    ensures |ls| == |rs|
    ensures forall k :: 0 <= k < |rs| ==> ls[k] == rs[k].value
  {
    seq(|rs|, k requires 0 <= k < |rs| => rs[k].value)
  }

  lemma {:induction false} StartLabelsShift(x: Label, bs: seq<Label>, i: nat)
    requires 1 <= i <= |bs|
    ensures StartLabelsFrom([x] + bs, i + 1) == StartLabelsFrom(bs, i)
    decreases |bs| - i
  {
    var xs := [x] + bs;
    if i < |bs| {
      StartLabelsShift(x, bs, i + 1);
      assert xs[i + 1] == bs[i] && xs[i] == bs[i - 1];
      assert StartsBlock(xs, i + 1) == StartsBlock(bs, i);
    }
  }

  /** Prepending a row adds a start label, and removes the tail's first one when the labels agree. */
  lemma StartLabelsCons(x: Label, tail: seq<Label>)
    requires tail != []
    ensures StartLabels([x] + tail)
         == [x] + (if tail[0] == x then StartLabels(tail)[1..] else StartLabels(tail))
  {
    var bs := [x] + tail;
    StartLabelsShift(x, tail, 1);
    assert StartLabels(tail) == [tail[0]] + StartLabelsFrom(tail, 1);
    assert StartLabels(bs) == [x] + StartLabelsFrom(bs, 1);
    assert bs[1] == tail[0];
    assert StartLabelsFrom(bs, 1) == (if StartsBlock(bs, 1) then [bs[1]] else []) + StartLabelsFrom(bs, 2);
  }

  lemma RunLabelsCons(x: Label, tail: seq<Label>)
    requires tail != []
    ensures RunLabels(Runs([x] + tail))
         == [x] + (if tail[0] == x then RunLabels(Runs(tail))[1..] else RunLabels(Runs(tail)))
  {
    RunsCons(x, tail);
    PushLabels(x, Runs(tail));
  }

  lemma RunsCons(x: Label, tail: seq<Label>)
    requires tail != []
    ensures Runs([x] + tail) == Push(x, Runs(tail)) && Runs(tail)[0].value == tail[0]
  {
    assert ([x] + tail)[1..] == tail;
  }

  lemma PushLabels(x: Label, rest: seq<Run>)
    requires rest != []
    ensures RunLabels(Push(x, rest)) == [x] + (if rest[0].value == x then RunLabels(rest)[1..] else RunLabels(rest))
  {
    var ls := RunLabels(Push(x, rest));
    if rest[0].value == x {
      assert ls == [x] + RunLabels(rest)[1..];
    } else {
      assert ls == [x] + RunLabels(rest);
    }
  }

  /** The labels at block starts are the labels of the maximal runs, in order. */
  lemma {:induction false} StartLabelsAreRunLabels(bs: seq<Label>)
    ensures StartLabels(bs) == RunLabels(Runs(bs))
  {
    if bs != [] {
      var x := bs[0];
      var tail := bs[1..];
      assert bs == [x] + tail;
      if tail == [] {
        assert StartLabelsFrom(bs, 1) == [];
        assert StartLabels(bs) == [x] + StartLabelsFrom(bs, 1);
        assert Runs(bs) == [Run(x, 1)];
      } else {
        StartLabelsAreRunLabels(tail);
        StartLabelsCons(x, tail);
        RunLabelsCons(x, tail);
      }
    }
  }

  /**
   * The first row always starts a block, the count for a label is the number
   * of maximal runs of rows with that label, and the counts over all labels
   * add up to the number of runs.
   */
  lemma BlockCountIsRunCount(bs: seq<Label>, name: string)
    ensures bs != [] ==> StartLabels(bs) != [] && StartLabels(bs)[0] == bs[0]
    ensures BlockCount(bs, name) == multiset(RunLabels(Runs(bs)))[Some(name)]
    ensures |StartLabels(bs)| == |Runs(bs)|
  {
    StartLabelsAreRunLabels(bs);
  }

  /** Two trials of one block, one of another, then the first again: two blocks of the first type, one of the second. */
  lemma ReturningBlockCountsTwice(a: string, b: string)
    requires a != b
    ensures BlockCount([Some(a), Some(a), Some(b), Some(a)], a) == 2
    ensures BlockCount([Some(a), Some(a), Some(b), Some(a)], b) == 1
  {
    ExampleStartLabels(a, b);
    var ls: seq<Label> := [Some(a), Some(b), Some(a)];
    assert ls == [Some(a)] + [Some(b)] + [Some(a)];
    assert multiset(ls) == multiset{Some(a), Some(a), Some(b)};
  }

  lemma ExampleStartLabels(a: string, b: string)
    requires a != b
    ensures StartLabels([Some(a), Some(a), Some(b), Some(a)]) == [Some(a), Some(b), Some(a)]
  {
    var bs := [Some(a), Some(a), Some(b), Some(a)];
    assert StartLabelsFrom(bs, 4) == [];
    assert StartLabelsFrom(bs, 3) == [Some(a)];
    assert StartLabelsFrom(bs, 2) == [Some(b), Some(a)];
    assert StartLabelsFrom(bs, 1) == [Some(b), Some(a)];
  }

  // ---- instances of one block type ----

  predicate Ascending(trials: seq<int>)
  {
    forall i, j :: 0 <= i <= j < |trials| ==> trials[i] <= trials[j]
  }

  function TrialKey(r: Row): int { r.trial }

  function Trials(rows: seq<Row>): (ts: seq<int>)
    ensures |ts| == |rows|
    ensures forall i :: 0 <= i < |rows| ==> ts[i] == rows[i].trial
  {
    seq(|rows|, i requires 0 <= i < |rows| => rows[i].trial)
  }

  /** `df_block`: the rows of one block type, sorted by trial number. */
  function BlockRows(rows: seq<Row>, name: string): (b: seq<Row>)
    ensures multiset(b) == multiset(Filter(rows, (r: Row) => r.block == Some(name)))
    ensures Ascending(Trials(b))
  {
    var b := Sorting.SortBy(Filter(rows, (r: Row) => r.block == Some(name)), TrialKey);
    assert forall i, j :: 0 <= i <= j < |b| ==> TrialKey(b[i]) <= TrialKey(b[j]);
    b
  }

  /** `trial_number.diff() > 1` (false on the first row, whose difference is NaN). */
  predicate GapAt(trials: seq<int>, i: nat)
    requires i < |trials|
  {
    i > 0 && trials[i] - trials[i - 1] > 1
  }

  /** `block_instance` of row `i`: the number of gaps up to and including row `i`. */
  function Instance(trials: seq<int>, i: nat): nat
    requires i < |trials|
  {
    if i == 0 then 0 else Instance(trials, i - 1) + (if GapAt(trials, i) then 1 else 0)
  }

  /** The instance number never decreases along the sorted rows. */
  lemma {:induction false} InstanceMonotone(trials: seq<int>, i: nat, j: nat)
    requires i <= j < |trials|
    ensures Instance(trials, i) <= Instance(trials, j)
    decreases j
  {
    if i < j { InstanceMonotone(trials, i, j - 1); }
  }

  /** Rows in different instances are more than one trial number apart. */
  lemma {:induction false} InstancesAreSeparated(trials: seq<int>, i: nat, j: nat)
    requires Ascending(trials)
    requires i < j < |trials| && Instance(trials, i) < Instance(trials, j)
    ensures trials[j] - trials[i] > 1
    decreases j
  {
    if GapAt(trials, j) {
      assert trials[i] <= trials[j - 1];
    } else {
      InstancesAreSeparated(trials, i, j - 1);
      assert trials[j - 1] <= trials[j];
    }
  }

  /** Equal trial numbers never start a new instance. */
  lemma SameTrialSameInstance(trials: seq<int>, i: nat, j: nat)
    requires Ascending(trials)
    requires i < |trials| && j < |trials| && trials[i] == trials[j]
    ensures Instance(trials, i) == Instance(trials, j)
  {
    if i < j {
      InstanceMonotone(trials, i, j);
      if Instance(trials, i) < Instance(trials, j) { InstancesAreSeparated(trials, i, j); }
    } else if j < i {
      InstanceMonotone(trials, j, i);
      if Instance(trials, j) < Instance(trials, i) { InstancesAreSeparated(trials, j, i); }
    }
  }

  /** The positions among the first `n` rows at which an instance begins. */
  function InstanceStarts(trials: seq<int>, n: nat): (s: seq<nat>)
    requires n <= |trials|
    ensures n == 0 ==> |s| == 0
    ensures n > 0 ==> |s| == Instance(trials, n - 1) + 1
    ensures forall k :: 0 <= k < |s| ==> s[k] < n && Instance(trials, s[k]) == k
    ensures forall k :: 0 <= k < |s| ==> s[k] == 0 || GapAt(trials, s[k])
    ensures forall k, l :: 0 <= k < l < |s| ==> s[k] < s[l]
  {
    if n == 0 then []
    else
      var s := InstanceStarts(trials, n - 1);
      if n - 1 == 0 || GapAt(trials, n - 1) then s + [n - 1] else s
  }

  /** An instance's first row has the smallest trial number of the instance. */
  lemma StartIsFirstOfInstance(trials: seq<int>, k: nat, i: nat)
    requires Ascending(trials) && i < |trials|
    requires k < |InstanceStarts(trials, |trials|)| && Instance(trials, i) == k
    ensures InstanceStarts(trials, |trials|)[k] <= i
  {
    var starts := InstanceStarts(trials, |trials|);
    var s := starts[k];
    assert s < |trials| && Instance(trials, s) == k && (s == 0 || GapAt(trials, s));
    if i < s {
      assert Instance(trials, s) == Instance(trials, s - 1) + 1;
      InstanceMonotone(trials, i, s - 1);
    }
  }

  /** Some row of instance `k` has trial number `t`. */
  predicate InInstance(trials: seq<int>, k: nat, t: int)
  {
    exists i :: 0 <= i < |trials| && Instance(trials, i) == k && trials[i] == t
  }

  /**
   * `change_points`: `groupby("block_instance")["trial_number"].min()`, one
   * entry per instance in instance order.
   */
  function ChangePoints(trials: seq<int>): (cp: seq<int>)
    requires Ascending(trials)
    ensures trials == [] <==> cp == []
    ensures trials != [] ==> |cp| == Instance(trials, |trials| - 1) + 1
    ensures forall k, i :: 0 <= k < |cp| && 0 <= i < |trials| && Instance(trials, i) == k ==> cp[k] <= trials[i]
    ensures forall k :: 0 <= k < |cp| ==> InInstance(trials, k, cp[k])
  {
    var s := InstanceStarts(trials, |trials|);
    var cp := seq(|s|, k requires 0 <= k < |s| => trials[s[k]]);
    forall k, i | 0 <= k < |cp| && 0 <= i < |trials| && Instance(trials, i) == k
      ensures cp[k] <= trials[i]
    {
      StartIsFirstOfInstance(trials, k, i);
    }
    forall k | 0 <= k < |cp|
      ensures InInstance(trials, k, cp[k])
    {
      var i := s[k];
      assert 0 <= i < |trials| && Instance(trials, i) == k && trials[i] == cp[k];
    }
    assert |cp| == |s|;
    cp
  }

  /** The change points rise strictly, and the first is the block's smallest trial number. */
  lemma ChangePointsAscend(trials: seq<int>)
    requires Ascending(trials) && trials != []
    ensures ChangePoints(trials)[0] == trials[0]
    ensures forall t :: t in trials ==> ChangePoints(trials)[0] <= t
    ensures forall k, l :: 0 <= k < l < |ChangePoints(trials)| ==> ChangePoints(trials)[k] < ChangePoints(trials)[l]
  {
    var cp := ChangePoints(trials);
    var s := InstanceStarts(trials, |trials|);
    assert s[0] == 0;
    forall k, l | 0 <= k < l < |cp| ensures cp[k] < cp[l] {
      assert Instance(trials, s[k]) < Instance(trials, s[l]);
      InstancesAreSeparated(trials, s[k], s[l]);
    }
  }

  /** Separator lines: the change points after the first, i.e. the trial numbers where a gap opens. */
  function Separators(trials: seq<int>): (sep: seq<int>)
    requires Ascending(trials)
    ensures forall t :: t in sep <==> exists i :: 0 <= i < |trials| && GapAt(trials, i) && trials[i] == t
  {
    var cp := ChangePoints(trials);
    var sep := if cp == [] then [] else cp[1..];
    forall t | t in sep ensures exists i :: 0 <= i < |trials| && GapAt(trials, i) && trials[i] == t {
      var k :| 0 <= k < |sep| && sep[k] == t;
      LaterStartIsGap(trials, k + 1);
    }
    forall i | 0 <= i < |trials| && GapAt(trials, i) ensures trials[i] in sep {
      GapIsLaterStart(trials, i);
    }
    sep
  }

  lemma LaterStartIsGap(trials: seq<int>, k: nat)
    requires Ascending(trials) && 0 < k < |ChangePoints(trials)|
    ensures var i := InstanceStarts(trials, |trials|)[k];
      GapAt(trials, i) && trials[i] == ChangePoints(trials)[k]
  {
    var s := InstanceStarts(trials, |trials|);
    assert s[0] < s[k];
  }

  lemma GapIsLaterStart(trials: seq<int>, i: nat)
    requires Ascending(trials) && i < |trials| && GapAt(trials, i)
    ensures exists k :: 0 < k < |ChangePoints(trials)| && ChangePoints(trials)[k] == trials[i]
  {
    var s := InstanceStarts(trials, |trials|);
    var k := Instance(trials, i);
    InstanceMonotone(trials, i, |trials| - 1);
    StartIsFirstOfInstance(trials, k, i);
    var j := s[k];
    if j < i {
      InstanceMonotone(trials, j, i - 1);
    }
    assert j == i;
    assert Instance(trials, i - 1) < Instance(trials, i);
    assert 0 < k < |ChangePoints(trials)|;
    assert ChangePoints(trials)[k] == trials[s[k]];
  }
}
