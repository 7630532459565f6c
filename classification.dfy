/**
 * Trial-outcome classification, as analyze_adapt_sensorimotor.py,
 * analyze_2choice_auditory.py and 2choice.py write it: a `category` column
 * that starts empty and is overwritten by six successive `df.loc` passes.
 * Only the omission pass checks that the row is still unclassified, so the
 * last matching pass among the other five decides.
 */
module Classification {
  import opened Wrappers
  import opened Tables
  import Sorting

  datatype Category = Early | Omitted | CorrectLeft | CorrectRight | IncorrectLeft | IncorrectRight

  /** The rows the `k`-th pass (1 to 6) selects, leaving aside the omission pass's `isna()` guard. */
  predicate Selects(k: nat, r: Row)
  {
    match k
    case 1 => Flag(r, EarlyLick)
    case 2 => Flag(r, Omission)
    case 3 => Flag(r, LeftSpout) && Flag(r, Reward)
    case 4 => Flag(r, RightSpout) && Flag(r, Reward)
    case 5 => Flag(r, Punishment) && Flag(r, LeftSpout)
    case 6 => Flag(r, Punishment) && Flag(r, RightSpout)
    case _ => false
  }

  /** The label the `k`-th pass writes. */
  function Label(k: nat): Category
    requires 1 <= k <= 6
  {
    match k
    case 1 => Early
    case 2 => Omitted
    case 3 => CorrectLeft
    case 4 => CorrectRight
    case 5 => IncorrectLeft
    case _ => IncorrectRight
  }

  /** One pass over one row: only the omission pass leaves a row that already has a label alone. */
  function Pass(k: nat, r: Row, current: Option<Category>): Option<Category>
    requires 1 <= k <= 6
  {
    if Selects(k, r) && (k != 2 || current == None) then Some(Label(k)) else current
  }

  /** A row's category after the first `k` passes. */
  function AfterPasses(k: nat, r: Row): Option<Category>
    requires k <= 6
  {
    if k == 0 then None else Pass(k, r, AfterPasses(k - 1, r))
  }

  /**
   * The category as a single priority rule: incorrect right, incorrect left,
   * correct right, correct left, early lick, omission, else none.
   */
  function CategoryOf(r: Row): Option<Category>
  {
    if Flag(r, Punishment) && Flag(r, RightSpout) then Some(IncorrectRight)
    else if Flag(r, Punishment) && Flag(r, LeftSpout) then Some(IncorrectLeft)
    else if Flag(r, RightSpout) && Flag(r, Reward) then Some(CorrectRight)
    else if Flag(r, LeftSpout) && Flag(r, Reward) then Some(CorrectLeft)
    else if Flag(r, EarlyLick) then Some(Early)
    else if Flag(r, Omission) then Some(Omitted)
    else None
  }

  /** All six passes, written out one after another. */
  lemma UnfoldPasses(r: Row)
    ensures AfterPasses(6, r)
         == Pass(6, r, Pass(5, r, Pass(4, r, Pass(3, r, Pass(2, r, Pass(1, r, None))))))
  {
    assert AfterPasses(1, r) == Pass(1, r, None);
    assert AfterPasses(2, r) == Pass(2, r, AfterPasses(1, r));
    assert AfterPasses(3, r) == Pass(3, r, AfterPasses(2, r));
    assert AfterPasses(4, r) == Pass(4, r, AfterPasses(3, r));
    assert AfterPasses(5, r) == Pass(5, r, AfterPasses(4, r));
  }

  /** The six in-place passes, in the order the scripts run them, give the priority rule. */
  lemma SixPassesArePriorityRule(r: Row)
    ensures AfterPasses(6, r) == CategoryOf(r)
  {
    UnfoldPasses(r);
  }

  /**
   * `df["category"] = None` followed by the six `df.loc` passes, run over a
   * category column of one entry per row.
   */
  method Categorize(rows: seq<Row>) returns (category: array<Option<Category>>)
    ensures category.Length == |rows|
    ensures forall i :: 0 <= i < |rows| ==> category[i] == CategoryOf(rows[i])
  {
    category := new Option<Category>[|rows|](_ => None);
    var k := 1;
    while k <= 6
      invariant 1 <= k <= 7
      invariant category.Length == |rows|
      invariant forall i :: 0 <= i < |rows| ==> category[i] == AfterPasses(k - 1, rows[i])
    {
      var i := 0;
      while i < |rows|
        invariant 0 <= i <= |rows|
        invariant forall j :: 0 <= j < i ==> category[j] == AfterPasses(k, rows[j])
        invariant forall j :: i <= j < |rows| ==> category[j] == AfterPasses(k - 1, rows[j])
      {
        if Selects(k, rows[i]) && (k != 2 || category[i] == None) {
          category[i] := Some(Label(k));
        }
        i := i + 1;
      }
      k := k + 1;
    }
    forall i | 0 <= i < |rows| ensures category[i] == CategoryOf(rows[i]) {
      SixPassesArePriorityRule(rows[i]);
    }
  }

  /** A punished right-spout trial is "incorrect right" whatever its other flags say. */
  lemma PunishedRightIsIncorrectRight(r: Row)
    requires Flag(r, Punishment) && Flag(r, RightSpout)
    ensures AfterPasses(6, r) == Some(IncorrectRight)
  {
    UnfoldPasses(r);
  }

  /** "omission" is given only to a row without an early lick and without a spout outcome. */
  lemma OmissionOnlyWithoutEarlyLick(r: Row)
    ensures AfterPasses(6, r) == Some(Omitted)
        <==> Flag(r, Omission) && !Flag(r, EarlyLick) && !(exists k :: 3 <= k <= 6 && Selects(k, r))
  {
    UnfoldPasses(r);
    assert Selects(3, r) && Selects(4, r) && Selects(5, r) && Selects(6, r)
        ==> exists k :: 3 <= k <= 6 && Selects(k, r);
  }

  /** Any side-and-outcome pass that matches overwrites an early-lick or omission label. */
  lemma SideOutcomeOverridesEarlyAndOmission(r: Row, k: nat)
    requires 3 <= k <= 6 && Selects(k, r)
    ensures AfterPasses(6, r) != None
    ensures AfterPasses(6, r) != Some(Early) && AfterPasses(6, r) != Some(Omitted)
  {
    UnfoldPasses(r);
  }

  /** A row that no pass selects keeps no category. */
  lemma UnselectedStaysUnclassified(r: Row)
    ensures AfterPasses(6, r) == None <==> forall k :: 1 <= k <= 6 ==> !Selects(k, r)
  {
    UnfoldPasses(r);
    if AfterPasses(6, r) == None {
      forall k | 1 <= k <= 6 ensures !Selects(k, r) {}
    } else {
      var k := match AfterPasses(6, r).value
        case Early => 1 case Omitted => 2 case CorrectLeft => 3
        case CorrectRight => 4 case IncorrectLeft => 5 case IncorrectRight => 6;
      assert Selects(k, r);
    }
  }

  /** A rewarded left-spout trial that also licked early is "correct left", not "early lick". */
  lemma EarlyRewardedLeftIsCorrectLeft()
    ensures CategoryOf(Row(1, None, map[EarlyLick := 1.0, LeftSpout := 1.0, Reward := 1.0]))
         == Some(CorrectLeft)
  {}

  /** The category depends on flags only; `fillna(0)` first changes nothing. */
  lemma CategoryIgnoresFill(r: Row, columns: set<Column>)
    ensures CategoryOf(FillRow(r, columns)) == CategoryOf(r)
  {}

  /** `df_plot`: the classified rows, in table order. */
  function Classified(rows: seq<Row>): (p: seq<Row>)
    ensures forall r :: r in p <==> r in rows && CategoryOf(r) != None
  {
    Filter(rows, r => CategoryOf(r) != None)
  }

  function TrialKey(r: Row): int { r.trial }

  /** `df_sorted`: the classified rows ordered by trial number. */
  function SortedClassified(rows: seq<Row>): (s: seq<Row>)
    ensures Sorting.SortedBy(s, TrialKey)
    ensures multiset(s) == multiset(Classified(rows))
  {
    Sorting.SortBy(Classified(rows), TrialKey)
  }

  /** `df[...]["trial_number"].min()`; `None` (NaN) for no rows. */
  function MinTrial(rows: seq<Row>): (m: Option<int>)
    ensures m == None <==> rows == []
    ensures m.Some? ==> (exists r :: r in rows && r.trial == m.value)
                        && forall r :: r in rows ==> m.value <= r.trial
  {
    if rows == [] then None
    else
      var rest := MinTrial(rows[1..]);
      assert forall r :: r in rows ==> r == rows[0] || r in rows[1..];
      if rest == None || rows[0].trial <= rest.value then Some(rows[0].trial) else rest
  }

  /** `...max()`; `None` (NaN) for no rows. */
  function MaxTrial(rows: seq<Row>): (m: Option<int>)
    ensures m == None <==> rows == []
    ensures m.Some? ==> (exists r :: r in rows && r.trial == m.value)
                        && forall r :: r in rows ==> r.trial <= m.value
  {
    if rows == [] then None
    else
      var rest := MaxTrial(rows[1..]);
      assert forall r :: r in rows ==> r == rows[0] || r in rows[1..];
      if rest == None || rows[0].trial >= rest.value then Some(rows[0].trial) else rest
  }

  /** `min_trial` and `max_trial` are the first and last trial numbers of `df_sorted`. */
  lemma SortedEndsAreMinAndMax(rows: seq<Row>)
    requires Classified(rows) != []
    ensures var s := SortedClassified(rows);
      MinTrial(Classified(rows)) == Some(s[0].trial)
      && MaxTrial(Classified(rows)) == Some(s[|s| - 1].trial)
  {
    SortedEnds(Classified(rows), SortedClassified(rows));
  }

  lemma SortedEnds(p: seq<Row>, s: seq<Row>)
    requires p != [] && multiset(s) == multiset(p) && Sorting.SortedBy(s, TrialKey)
    ensures s != []
    ensures MinTrial(p) == Some(s[0].trial) && MaxTrial(p) == Some(s[|s| - 1].trial)
  {
    assert |s| == |p| by {
      assert |multiset(s)| == |s| && |multiset(p)| == |p|;
    }
    SortedFirstIsMin(p, s);
    SortedLastIsMax(p, s);
  }

  lemma SortedFirstIsMin(p: seq<Row>, s: seq<Row>)
    requires p != [] && s != [] && multiset(s) == multiset(p) && Sorting.SortedBy(s, TrialKey)
    ensures MinTrial(p) == Some(s[0].trial)
  {
    var m := MinTrial(p).value;
    assert s[0] in multiset(p);
    assert m <= s[0].trial;
    var lo :| lo in p && lo.trial == m;
    assert lo in multiset(s);
    var i :| 0 <= i < |s| && s[i] == lo;
    assert TrialKey(s[0]) <= TrialKey(s[i]);
  }

  lemma SortedLastIsMax(p: seq<Row>, s: seq<Row>)
    requires p != [] && s != [] && multiset(s) == multiset(p) && Sorting.SortedBy(s, TrialKey)
    ensures MaxTrial(p) == Some(s[|s| - 1].trial)
  {
    var m := MaxTrial(p).value;
    assert s[|s| - 1] in multiset(p);
    assert s[|s| - 1].trial <= m;
    var hi :| hi in p && hi.trial == m;
    assert hi in multiset(s);
    var i :| 0 <= i < |s| && s[i] == hi;
    assert TrialKey(s[i]) <= TrialKey(s[|s| - 1]);
  }
}
