/**
 * The trial table every script reads from a session CSV: a set of column
 * names and one row per logged trial. A row's numeric cells are a map from
 * column to value; a cell that is absent from the map is NaN (an empty CSV
 * field, or a column the file does not have).
 */
module Tables {
  import opened Wrappers

  /** The CSV columns the analysis scripts read. */
  datatype Column =
    | TrialNumber | Block
    | LeftSpout | RightSpout | Reward | Punishment | Omission | EarlyLick
    | AutomReward | CatchTrial | Lick
    | Tone5k | Tone10k | Tone8k | Tone16k
    | QW | TrialStart | TrialEnd | LickTime | SessionStart
    | DPrimeColumn | HitRateColumn | FalseAlarmColumn

  /**
   * One trial. `trial` is `trial_number`; `block` is the task block label
   * (`None` when empty, which `fillna(0)` turns into the number 0, a value no
   * label equals); `cells` holds every other numeric column.
   */
  datatype Row = Row(trial: int, block: Option<string>, cells: map<Column, real>)

  datatype Table = Table(columns: set<Column>, rows: seq<Row>)

  /** A row holds values only for columns its table has. */
  predicate WellFormed(t: Table)
  {
    forall r :: r in t.rows ==> r.cells.Keys <= t.columns
  }

  /** `df[c] == 1` for one row: false for NaN. */
  predicate Flag(r: Row, c: Column) { c in r.cells && r.cells[c] == 1.0 }

  /** `df[c] == 0` for one row: false for NaN. */
  predicate IsZero(r: Row, c: Column) { c in r.cells && r.cells[c] == 0.0 }

  /** Boolean-mask selection `df[mask]`, keeping row order. */
  function Filter(rows: seq<Row>, p: Row -> bool): (r: seq<Row>)
    ensures |r| <= |rows|
    ensures forall x :: x in r ==> x in rows && p(x)
    ensures forall i :: 0 <= i < |rows| && p(rows[i]) ==> rows[i] in r
  {
    if rows == [] then []
    else (if p(rows[0]) then [rows[0]] else []) + Filter(rows[1..], p)
  }

  /** `df[mask].shape[0]`, equivalently `mask.sum()`. */
  function Count(rows: seq<Row>, p: Row -> bool): (n: nat)
    ensures n <= |rows|
  {
    |Filter(rows, p)|
  }

  lemma {:induction false} FilterSplit(a: seq<Row>, b: seq<Row>, p: Row -> bool)
    ensures Filter(a + b, p) == Filter(a, p) + Filter(b, p)
  {
    if a == [] {
      assert a + b == b;
    } else {
      assert (a + b)[1..] == a[1..] + b;
      FilterSplit(a[1..], b, p);
    }
  }

  /** One more row at the end: the mask keeps it or not. */
  lemma FilterSnoc(rows: seq<Row>, i: nat, p: Row -> bool)
    requires i < |rows|
    ensures Filter(rows[..i + 1], p) == Filter(rows[..i], p) + (if p(rows[i]) then [rows[i]] else [])
  {
    assert rows[..i + 1] == rows[..i] + [rows[i]];
    FilterSplit(rows[..i], [rows[i]], p);
    assert Filter([rows[i]], p) == (if p(rows[i]) then [rows[i]] else []) + Filter([], p);
  }

  lemma CountSplit(a: seq<Row>, b: seq<Row>, p: Row -> bool)
    ensures Count(a + b, p) == Count(a, p) + Count(b, p)
  {
    FilterSplit(a, b, p);
  }

  /** Reordering the rows does not change how many of them match. */
  lemma {:induction false} CountPermutation(a: seq<Row>, b: seq<Row>, p: Row -> bool)
    requires multiset(a) == multiset(b)
    ensures Count(a, p) == Count(b, p)
    decreases |a|
  {
    if a == [] {
      assert |multiset(b)| == |b|;
    } else {
      assert a[0] in multiset(b);
      var j :| 0 <= j < |b| && b[j] == a[0];
      var rest := b[..j] + b[j + 1..];
      RemoveOne(b, j);
      assert a == [a[0]] + a[1..];
      assert multiset(a[1..]) == multiset(rest);
      CountPermutation(a[1..], rest, p);
      CountRemove(b, j, p);
      CountRemove(a, 0, p);
      assert a[..0] + a[1..] == a[1..];
    }
  }

  lemma CountRemove(b: seq<Row>, j: nat, p: Row -> bool)
    requires j < |b|
    ensures Count(b, p) == Count(b[..j] + b[j + 1..], p) + (if p(b[j]) then 1 else 0)
  {
    assert b == b[..j] + ([b[j]] + b[j + 1..]);
    CountSplit(b[..j], [b[j]] + b[j + 1..], p);
    CountSplit([b[j]], b[j + 1..], p);
    CountSplit(b[..j], b[j + 1..], p);
    assert Count([b[j]], p) == if p(b[j]) then 1 else 0;
  }

  lemma RemoveOne(b: seq<Row>, j: nat)
    requires j < |b|
    ensures multiset(b[..j] + b[j + 1..]) == multiset(b) - multiset{b[j]}
  {
    assert b == b[..j] + ([b[j]] + b[j + 1..]);
  }

  /** A weaker mask never selects more rows. */
  lemma {:induction false} CountMonotone(rows: seq<Row>, p: Row -> bool, q: Row -> bool)
    requires forall r :: p(r) ==> q(r)
    ensures Count(rows, p) <= Count(rows, q)
  {
    if rows != [] { CountMonotone(rows[1..], p, q); }
  }

  /** Counting a mask that nothing can satisfy gives zero; one that everything satisfies, every row. */
  lemma {:induction false} CountAll(rows: seq<Row>, p: Row -> bool)
    requires forall r :: r in rows ==> p(r)
    ensures Count(rows, p) == |rows|
  {
    if rows != [] {
      assert forall r :: r in rows[1..] ==> r in rows;
      CountAll(rows[1..], p);
    }
  }

  lemma {:induction false} CountNone(rows: seq<Row>, p: Row -> bool)
    requires forall r :: r in rows ==> !p(r)
    ensures Count(rows, p) == 0
  {
    if rows != [] {
      assert forall r :: r in rows[1..] ==> r in rows;
      CountNone(rows[1..], p);
    }
  }

  /** Counting `p && q` and `p && !q` splits the count of `p`. */
  lemma {:induction false} CountPartition(rows: seq<Row>, p: Row -> bool, q: Row -> bool)
    ensures Count(rows, r => p(r) && q(r)) + Count(rows, r => p(r) && !q(r)) == Count(rows, p)
  {
    if rows != [] { CountPartition(rows[1..], p, q); }
  }

  /** `fillna(0)` on one row: every column of the table gets a value, 0 where it was NaN. */
  function FillRow(r: Row, columns: set<Column>): (f: Row)
    ensures f.trial == r.trial && f.block == r.block
    ensures f.cells.Keys == columns + r.cells.Keys
    ensures forall c :: c in r.cells ==> f.cells[c] == r.cells[c]
    ensures forall c :: c in columns && c !in r.cells ==> f.cells[c] == 0.0
  {
    Row(r.trial, r.block, map c | c in columns + r.cells.Keys :: if c in r.cells then r.cells[c] else 0.0)
  }

  function FillRows(rows: seq<Row>, columns: set<Column>): (f: seq<Row>)
    ensures |f| == |rows|
    ensures forall i :: 0 <= i < |rows| ==> f[i] == FillRow(rows[i], columns)
  {
    if rows == [] then [] else [FillRow(rows[0], columns)] + FillRows(rows[1..], columns)
  }

  /** `df.fillna(0)`. */
  function FillNa(t: Table): (f: Table)
    ensures f.columns == t.columns && |f.rows| == |t.rows|
    ensures WellFormed(t) ==> WellFormed(f)
    ensures WellFormed(t) ==> forall r, c :: r in f.rows && c in t.columns ==> c in r.cells
  {
    Table(t.columns, FillRows(t.rows, t.columns))
  }

  /** A `== 1` test cannot tell a NaN from the 0 that `fillna(0)` puts there. */
  lemma FlagIgnoresFill(r: Row, columns: set<Column>, c: Column)
    ensures Flag(FillRow(r, columns), c) <==> Flag(r, c)
  {}

  /** A row test that cannot tell NaN from 0 selects as many rows after `fillna(0)` as before. */
  lemma {:induction false} CountIgnoresFill(rows: seq<Row>, columns: set<Column>, p: Row -> bool)
    requires forall r :: p(FillRow(r, columns)) <==> p(r)
    ensures Count(FillRows(rows, columns), p) == Count(rows, p)
  {
    if rows != [] {
      CountIgnoresFill(rows[1..], columns, p);
      var f := FillRows(rows, columns);
      assert f[1..] == FillRows(rows[1..], columns);
    }
  }

  /** `pd.concat(frames, ignore_index=True)`: union of columns, rows one after another. */
  function Concat(tables: seq<Table>): (t: Table)
    ensures forall i :: 0 <= i < |tables| ==> tables[i].columns <= t.columns
    ensures forall c :: c in t.columns ==> exists i :: 0 <= i < |tables| && c in tables[i].columns
  {
    if tables == [] then Table({}, [])
    else
      var rest := Concat(tables[1..]);
      assert forall i :: 1 <= i < |tables| ==> tables[i] == tables[1..][i - 1];
      Table(tables[0].columns + rest.columns, tables[0].rows + rest.rows)
  }

  /** `df[c].sum()`: NaN cells are skipped. */
  function CellSum(rows: seq<Row>, c: Column): real
  {
    if rows == [] then 0.0
    else (if c in rows[0].cells then rows[0].cells[c] else 0.0) + CellSum(rows[1..], c)
  }

  /** Summing a 0/1 column counts its ones. */
  lemma {:induction false} CellSumOfFlags(rows: seq<Row>, c: Column)
    requires forall r :: r in rows && c in r.cells ==> r.cells[c] == 0.0 || r.cells[c] == 1.0
    ensures CellSum(rows, c) == Count(rows, r => Flag(r, c)) as real
  {
    if rows != [] {
      assert forall r :: r in rows[1..] ==> r in rows;
      CellSumOfFlags(rows[1..], c);
    }
  }

  /** The non-NaN values of column `c`, in row order. */
  function Values(rows: seq<Row>, c: Column): (vs: seq<real>)
    ensures |vs| <= |rows|
    ensures (exists r :: r in rows && c in r.cells) ==> |vs| > 0
  {
    if rows == [] then []
    else (if c in rows[0].cells then [rows[0].cells[c]] else []) + Values(rows[1..], c)
  }

  /** How often `v` occurs in `vs`. */
  function Occurrences(vs: seq<real>, v: real): nat
  {
    multiset(vs)[v]
  }

  /** `x` is a better mode candidate than `y`: more frequent, or as frequent and smaller. */
  predicate Beats(vs: seq<real>, x: real, y: real)
  {
    Occurrences(vs, x) > Occurrences(vs, y) || (Occurrences(vs, x) == Occurrences(vs, y) && x < y)
  }

  function BestOf(vs: seq<real>, candidates: seq<real>): (m: real)
    requires |candidates| > 0
    ensures m in candidates
    ensures forall k :: 0 <= k < |candidates| ==> !Beats(vs, candidates[k], m)
  {
    if |candidates| == 1 then candidates[0]
    else
      var rest := BestOf(vs, candidates[1..]);
      assert forall k :: 1 <= k < |candidates| ==> candidates[k] == candidates[1..][k - 1];
      if Beats(vs, candidates[0], rest) then candidates[0] else rest
  }

  /** `Series.mode()[0]`: the most frequent value, the smallest one on a tie. */
  function Mode(vs: seq<real>): (m: real)
    requires |vs| > 0
    ensures m in vs
    ensures forall k :: 0 <= k < |vs| ==> Occurrences(vs, vs[k]) <= Occurrences(vs, m)
    ensures forall k :: 0 <= k < |vs| && Occurrences(vs, vs[k]) == Occurrences(vs, m) ==> m <= vs[k]
  {
    BestOf(vs, vs)
  }

  /** The water-restriction level of a session, or "NA". */
  datatype Qw = NA | Level(level: real)

  /**
   * `df["QW"].mode()[0]` when the column exists and is not all NaN, "NA"
   * otherwise (overall_plots.py, general_2choice_auditory.py,
   * general_free_licking.py and general_spout_sampling.py use this rule).
   */
  function QwOf(t: Table): (q: Qw)
    ensures q == NA <==> QW !in t.columns || |Values(t.rows, QW)| == 0
    ensures q.Level? ==> q.level in Values(t.rows, QW)
  {
    var vs := Values(t.rows, QW);
    if QW in t.columns && |vs| > 0 then Level(Mode(vs)) else NA
  }

  /** After `fillna(0)` the level is "NA" only when the column is missing or the table is empty. */
  lemma {:induction false} QwOfFilled(t: Table)
    requires WellFormed(t)
    ensures QwOf(FillNa(t)) == NA <==> QW !in t.columns || |t.rows| == 0
  {
    var f := FillNa(t);
    if QW in t.columns && |t.rows| > 0 {
      assert f.rows[0] in f.rows;
      assert QW in f.rows[0].cells;
    }
  }

  /**
   * `(df["autom_reward"] == 1).sum() > len(df) / 2` when the column exists,
   * `False` otherwise.
   */
  function AutomRewardDominant(t: Table): bool
  {
    AutomReward in t.columns
    && (Count(t.rows, r => Flag(r, AutomReward)) as real) > (|t.rows| as real) / 2.0
  }

  /** The session is flagged exactly when a strict majority of its trials were automatically rewarded. */
  lemma AutomRewardIsStrictMajority(t: Table)
    ensures AutomRewardDominant(t)
        <==> AutomReward in t.columns && 2 * Count(t.rows, r => Flag(r, AutomReward)) > |t.rows|
  {}
}
