/**
 * clean_duplicates.py: a session log that recorded some trials more than
 * once is reduced to one row per trial number. Within a trial number's
 * rows the rewarded ones are preferred, exact duplicates are dropped, and
 * the first remaining row is kept; the trials come out in ascending order.
 */
module Duplicates {
  import opened Wrappers
  import opened Tables

  /** What stops the script: a column it reads is missing, or there is no group to concatenate. */
  datatype CleanError = MissingColumn(column: Column) | NothingToConcatenate

  predicate StrictlyAscending(ks: seq<int>)
  {
    forall i, j :: 0 <= i < j < |ks| ==> ks[i] < ks[j]
  }

  /** `k` put into its place in an ascending sequence of distinct numbers, unless already there. */
  function InsertKey(k: int, ks: seq<int>): (r: seq<int>)
    requires StrictlyAscending(ks)
    ensures StrictlyAscending(r)
    ensures forall x :: x in r <==> x == k || x in ks
  {
    if ks == [] then [k]
    else if k < ks[0] then [k] + ks
    else if k == ks[0] then ks
    else
      var rest := InsertKey(k, ks[1..]);
      assert forall x :: x in ks <==> x == ks[0] || x in ks[1..];
      assert forall j :: 0 <= j < |rest| ==> rest[j] in rest && ks[0] < rest[j];
      [ks[0]] + rest
  }

  predicate HasTrial(rows: seq<Row>, k: int)
  {
    exists r :: r in rows && r.trial == k
  }

  /** The keys `groupby("trial_number")` visits: each trial number once, ascending. */
  function TrialKeys(rows: seq<Row>): (ks: seq<int>)
    ensures StrictlyAscending(ks)
    ensures forall k :: k in ks <==> HasTrial(rows, k)
  {
    if rows == [] then []
    else
      var rest := TrialKeys(rows[1..]);
      assert forall x :: x in rows <==> x == rows[0] || x in rows[1..];
      InsertKey(rows[0].trial, rest)
  }

  /** One group of the `groupby`: the rows with trial number `k`, in file order. */
  function Group(rows: seq<Row>, k: int): (g: seq<Row>)
    ensures |g| <= |rows|
    ensures forall x :: x in g <==> x in rows && x.trial == k
  {
    if rows == [] then []
    else
      assert forall x :: x in rows <==> x == rows[0] || x in rows[1..];
      (if rows[0].trial == k then [rows[0]] else []) + Group(rows[1..], k)
  }

  /** `group[group["reward"] == 1]`. */
  function RewardedRows(group: seq<Row>): (g: seq<Row>)
    ensures forall x :: x in g <==> x in group && Flag(x, Reward)
  {
    Filter(group, x => Flag(x, Reward))
  }

  /** `drop_duplicates()`: the first occurrence of every row, in order. */
  function DropDuplicates(group: seq<Row>): (g: seq<Row>)
    ensures forall x :: x in g <==> x in group
    ensures group != [] ==> g != [] && g[0] == group[0]
  {
    if group == [] then []
    else
      var rest := DropDuplicates(group[1..]);
      assert forall x :: x in group <==> x == group[0] || x in group[1..];
      [group[0]] + Without(rest, group[0])
  }

  function Without(s: seq<Row>, y: Row): (r: seq<Row>)
    ensures forall x :: x in r <==> x in s && x != y
  {
    if s == [] then []
    else (if s[0] == y then [] else [s[0]]) + Without(s[1..], y)
  }

  /** `resolve_duplicates` of one (never empty) group. */
  function Resolve(group: seq<Row>): Row
    requires group != []
  {
    var rewarded := RewardedRows(group);
    var g := if rewarded != [] then rewarded else group;
    DropDuplicates(g)[0]
  }

  /**
   * The kept row: the first rewarded row of the group if there is one, the
   * group's first row otherwise; so it is a row of the group, and rewarded
   * whenever some row of the group is.
   */
  lemma ResolveKeepsFirstPreferred(group: seq<Row>)
    requires group != []
    ensures Resolve(group) in group
    ensures (exists x :: x in group && Flag(x, Reward)) ==> Flag(Resolve(group), Reward)
    ensures (forall j :: 0 <= j < |group| ==> !Flag(group[j], Reward)) ==> Resolve(group) == group[0]
    ensures forall i :: 0 <= i < |group| && Flag(group[i], Reward) && (forall j :: 0 <= j < i ==> !Flag(group[j], Reward))
              ==> Resolve(group) == group[i]
  {
    var rewarded := RewardedRows(group);
    if rewarded == [] {
      forall j | 0 <= j < |group| ensures !Flag(group[j], Reward) {
        assert group[j] in group;
      }
    } else {
      forall i | 0 <= i < |group| && Flag(group[i], Reward) && (forall j :: 0 <= j < i ==> !Flag(group[j], Reward))
        ensures rewarded[0] == group[i]
      {
        FirstOfFilter(group, i);
      }
    }
  }

  /** The first row a mask keeps is the first row of the sequence it holds for. */
  lemma {:induction false} FirstOfFilter(group: seq<Row>, i: nat)
    requires i < |group| && Flag(group[i], Reward) && forall j :: 0 <= j < i ==> !Flag(group[j], Reward)
    ensures RewardedRows(group) != [] && RewardedRows(group)[0] == group[i]
  {
    assert group[i] in group;
    if i > 0 {
      FirstOfFilter(group[1..], i - 1);
    }
  }

  /** `[resolve_duplicates(g) for _, g in df.groupby("trial_number")]`. */
  function Cleaned(rows: seq<Row>): (out: seq<Row>)
    ensures |out| == |TrialKeys(rows)|
  {
    var ks := TrialKeys(rows);
    seq(|ks|, i requires 0 <= i < |ks| => ResolveKey(rows, ks[i]))
  }

  function ResolveKey(rows: seq<Row>, k: int): Row
    requires HasTrial(rows, k)
  {
    var x :| x in rows && x.trial == k;
    assert x in Group(rows, k);
    Resolve(Group(rows, k))
  }

  /**
   * The script on a table: `groupby` needs `trial_number`; no rows leave
   * nothing for `pd.concat`; the first group reads `reward`.
   */
  function Clean(t: Table): (r: Result<Table, CleanError>)
    ensures r.Err? <==> TrialNumber !in t.columns || t.rows == [] || Reward !in t.columns
    ensures r.Ok? ==> r.value.columns == t.columns
  {
    if TrialNumber !in t.columns then Err(MissingColumn(TrialNumber))
    else if t.rows == [] then Err(NothingToConcatenate)
    else if Reward !in t.columns then Err(MissingColumn(Reward))
    else Ok(Table(t.columns, Cleaned(t.rows)))
  }

  // ---- what the cleaning promises ----

  /**
   * One row per distinct trial number, in ascending order: the output's
   * trial numbers are strictly ascending and are exactly the input's.
   */
  lemma OnePerTrial(rows: seq<Row>)
    ensures var out := Cleaned(rows);
            (forall i, j :: 0 <= i < j < |out| ==> out[i].trial < out[j].trial)
            && forall k :: HasTrial(out, k) <==> HasTrial(rows, k)
  {
    var out := Cleaned(rows);
    var ks := TrialKeys(rows);
    forall i | 0 <= i < |out| ensures out[i].trial == ks[i] && out[i] in rows {
      KeptRow(rows, ks[i]);
    }
    forall k | HasTrial(rows, k) ensures HasTrial(out, k) {
      var i :| 0 <= i < |ks| && ks[i] == k;
      assert out[i] in out;
    }
  }

  /** The row kept for trial `k` is a row of trial `k` of the input, and rewarded whenever one of them is. */
  lemma KeptRow(rows: seq<Row>, k: int)
    requires HasTrial(rows, k)
    ensures ResolveKey(rows, k) in rows && ResolveKey(rows, k).trial == k
    ensures (exists x :: x in rows && x.trial == k && Flag(x, Reward)) ==> Flag(ResolveKey(rows, k), Reward)
  {
    var g := Group(rows, k);
    ResolveKeepsFirstPreferred(g);
  }

  /** The output is never longer than the input. */
  lemma {:induction false} NoLonger(rows: seq<Row>)
    ensures |Cleaned(rows)| <= |rows|
  {
    KeysAtMostRows(rows);
  }

  lemma {:induction false} KeysAtMostRows(rows: seq<Row>)
    ensures |TrialKeys(rows)| <= |rows|
  {
    if rows != [] {
      KeysAtMostRows(rows[1..]);
      InsertKeyGrowsByOne(rows[0].trial, TrialKeys(rows[1..]));
    }
  }

  lemma {:induction false} InsertKeyGrowsByOne(k: int, ks: seq<int>)
    requires StrictlyAscending(ks)
    ensures |InsertKey(k, ks)| <= |ks| + 1
  {
    if ks != [] && k > ks[0] {
      InsertKeyGrowsByOne(k, ks[1..]);
    }
  }

  /** Two ascending sequences of distinct numbers with the same elements are equal. */
  lemma {:induction false} AscendingUnique(a: seq<int>, b: seq<int>)
    requires StrictlyAscending(a) && StrictlyAscending(b)
    requires forall x :: x in a <==> x in b
    ensures a == b
  {
    if a != [] {
      assert a[0] in a;
    }
    if b != [] {
      assert b[0] in b;
    }
    if a != [] && b != [] {
      var i :| 0 <= i < |b| && b[i] == a[0];
      var j :| 0 <= j < |a| && a[j] == b[0];
      assert b[0] <= b[i] && a[0] <= a[j];
      forall x ensures x in a[1..] <==> x in b[1..] {
        if x in a[1..] {
          var p :| 1 <= p < |a| && a[p] == x;
          assert x in a;
          var q :| 0 <= q < |b| && b[q] == x;
          assert q != 0;
        }
        if x in b[1..] {
          var p :| 1 <= p < |b| && b[p] == x;
          assert x in b;
          var q :| 0 <= q < |a| && a[q] == x;
          assert q != 0;
        }
      }
      AscendingUnique(a[1..], b[1..]);
    }
  }

  /** Cleaning a cleaned log changes nothing. */
  lemma Idempotent(t: Table)
    requires Clean(t).Ok?
    ensures Clean(Clean(t).value) == Clean(t)
  {
    var out := Cleaned(t.rows);
    OnePerTrial(t.rows);
    var ks := TrialKeys(t.rows);
    forall i | 0 <= i < |out| ensures out[i].trial == ks[i] {
      KeptRow(t.rows, ks[i]);
    }
    AscendingUnique(TrialKeys(out), ks);
    forall i | 0 <= i < |out| ensures ResolveKey(out, ks[i]) == out[i] {
      SingletonGroup(out, i);
    }
    assert Cleaned(out) == out;
  }

  /** In a log with ascending trial numbers, every group is one row, which is kept. */
  lemma SingletonGroup(out: seq<Row>, i: nat)
    requires i < |out| && forall a, b :: 0 <= a < b < |out| ==> out[a].trial < out[b].trial
    ensures HasTrial(out, out[i].trial) && ResolveKey(out, out[i].trial) == out[i]
  {
    assert out[i] in out;
    var g := Group(out, out[i].trial);
    assert g == [out[i]] by {
      GroupOfDistinct(out, i);
    }
    if Flag(out[i], Reward) {
      assert RewardedRows(g) == [out[i]];
    }
  }

  lemma {:induction false} GroupOfDistinct(out: seq<Row>, i: nat)
    requires i < |out| && forall a, b :: 0 <= a < b < |out| ==> out[a].trial < out[b].trial
    ensures Group(out, out[i].trial) == [out[i]]
  {
    if i == 0 {
      GroupEmpty(out[1..], out[0].trial);
    } else {
      assert out[0].trial < out[i].trial;
      GroupOfDistinct(out[1..], i - 1);
    }
  }

  lemma GroupEmpty(rows: seq<Row>, k: int)
    requires forall a :: 0 <= a < |rows| ==> rows[a].trial > k
    ensures Group(rows, k) == []
  {
  }
}
