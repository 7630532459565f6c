/**
 * concat_files.py: a session that was restarted on the same day leaves two
 * timestamped 2ChoiceAuditory logs in one date folder. The script merges
 * them into one: the older log first, then the newer one with its trial
 * numbers shifted past the older log's last trial, written under the older
 * log's name after both originals are moved to `old/`.
 */
module Merge {
  import opened Wrappers
  import opened Tables
  import opened Text
  import Names
  import Classification

  /** `name.isdigit()`, for ASCII names: not empty and digits only. */
  predicate IsDigitFolder(name: string) { name != [] && AllDigits(name) }

  /** The names the listing comprehension keeps. */
  predicate IsCandidate(f: string) { StartsWith(f, "2ChoiceAuditory") && EndsWith(f, ".csv") }

  /**
   * `extract_timestamp` as the gate sees it: `Names.ExtractTimestamp` in the
   * walk below; the gate's properties hold for any such function.
   */
  type Stamper = string -> Result<Option<Names.Stamp>, Names.NameError>

  /** A name carrying a timestamp that `strptime` accepts. */
  predicate HasStamp(stamp: Stamper, f: string) { stamp(f).Ok? && stamp(f).value.Some? }

  function StampOf(stamp: Stamper, f: string): Names.Stamp
    requires HasStamp(stamp, f)
  {
    stamp(f).value.value
  }

  /**
   * `files_with_time`: the candidates of the listing whose name carries a
   * timestamp, paired with it, in listing order. A date or time that does
   * not exist makes `strptime` raise outside the `try`, which ends the
   * script; the first such name in the listing is the error.
   */
  function Stamped(listing: seq<string>, stamp: Stamper): (r: Result<seq<(string, Names.Stamp)>, Names.NameError>)
    ensures r.Ok? ==> |r.value| <= |listing|
  {
    if listing == [] then Ok([])
    else
      var f := listing[0];
      var rest := Stamped(listing[1..], stamp);
      if !IsCandidate(f) then rest
      else match stamp(f)
        case Err(e) => Err(e)
        case Ok(None) => rest
        case Ok(Some(t)) => if rest.Err? then rest else Ok([(f, t)] + rest.value)
  }

  /** The script ends exactly when some candidate names a date or time that does not exist. */
  lemma {:induction false} StampedFails(listing: seq<string>, stamp: Stamper)
    ensures Stamped(listing, stamp).Ok? <==> forall f :: f in listing && IsCandidate(f) ==> stamp(f).Ok?
  {
    if listing != [] {
      StampedFails(listing[1..], stamp);
      assert forall g :: g in listing ==> g == listing[0] || g in listing[1..];
    }
  }

  /** Every entry is a candidate of the listing with the timestamp its name carries. */
  lemma {:induction false} StampedEntries(listing: seq<string>, stamp: Stamper)
    requires Stamped(listing, stamp).Ok?
    ensures var w := Stamped(listing, stamp).value;
            forall k :: 0 <= k < |w| ==> w[k].0 in listing && IsCandidate(w[k].0) && HasStamp(stamp, w[k].0) && w[k].1 == StampOf(stamp, w[k].0)
  {
    if listing != [] {
      var f := listing[0];
      var rest := Stamped(listing[1..], stamp);
      if !(IsCandidate(f) && HasStamp(stamp, f)) {
        assert Stamped(listing, stamp) == rest;
        StampedEntries(listing[1..], stamp);
      } else {
        StampedEntries(listing[1..], stamp);
        assert Stamped(listing, stamp).value == [(f, StampOf(stamp, f))] + rest.value;
      }
    }
  }

  /** Every candidate of the listing that carries a timestamp has its entry. */
  lemma {:induction false} StampedComplete(listing: seq<string>, stamp: Stamper, f: string)
    requires Stamped(listing, stamp).Ok?
    requires f in listing && IsCandidate(f) && HasStamp(stamp, f)
    ensures (f, StampOf(stamp, f)) in Stamped(listing, stamp).value
  {
    var g := listing[0];
    if f == g {
      assert Stamped(listing, stamp).value[0] == (f, StampOf(stamp, f));
    } else {
      assert f in listing[1..];
      if IsCandidate(g) && HasStamp(stamp, g) {
        StampedComplete(listing[1..], stamp, f);
        assert Stamped(listing, stamp).value == [(g, StampOf(stamp, g))] + Stamped(listing[1..], stamp).value;
      } else {
        StampedComplete(listing[1..], stamp, f);
      }
    }
  }

  /** What the gate decides for one date folder. */
  datatype Plan = Skip(found: nat) | Combine(older: string, newer: string)

  /**
   * The exactly-two gate and `files_with_time.sort(key=lambda x: x[1])`: a
   * folder is merged only when exactly two candidates carry a timestamp; the
   * stable sort puts the earlier one first and keeps listing order on a tie.
   */
  function PlanOf(listing: seq<string>, stamp: Stamper): (r: Result<Plan, Names.NameError>)
    ensures r.Err? <==> Stamped(listing, stamp).Err?
    ensures r.Ok? ==> (r.value.Skip? <==> |Stamped(listing, stamp).value| != 2)
    ensures r.Ok? && r.value.Skip? ==> r.value.found == |Stamped(listing, stamp).value|
    ensures r.Ok? && r.value.Combine? ==>
              var w := Stamped(listing, stamp).value;
              |w| == 2 && Names.StampKey(w[0].1) <= Names.StampKey(w[1].1) ==> r.value == Combine(w[0].0, w[1].0)
    ensures r.Ok? && r.value.Combine? ==>
              var w := Stamped(listing, stamp).value;
              |w| == 2 && Names.StampKey(w[1].1) < Names.StampKey(w[0].1) ==> r.value == Combine(w[1].0, w[0].0)
  {
    match Stamped(listing, stamp)
    case Err(e) => Err(e)
    case Ok(w) =>
      if |w| != 2 then Ok(Skip(|w|))
      else if Names.StampKey(w[1].1) < Names.StampKey(w[0].1) then Ok(Combine(w[1].0, w[0].0))
      else Ok(Combine(w[0].0, w[1].0))
  }

  /**
   * The two logs merged are timestamped candidates of the listing, the older
   * one no later than the newer one, and on equal timestamps the one listed
   * first is the older; there is no third timestamped candidate.
   */
  lemma OldestFirst(listing: seq<string>, stamp: Stamper, f: string)
    requires PlanOf(listing, stamp).Ok? && PlanOf(listing, stamp).value.Combine?
    ensures var (o, n) := (PlanOf(listing, stamp).value.older, PlanOf(listing, stamp).value.newer);
            o in listing && n in listing && IsCandidate(o) && IsCandidate(n) && HasStamp(stamp, o) && HasStamp(stamp, n)
            && Names.StampKey(StampOf(stamp, o)) <= Names.StampKey(StampOf(stamp, n))
            && (Names.StampKey(StampOf(stamp, o)) == Names.StampKey(StampOf(stamp, n)) ==> Stamped(listing, stamp).value[0].0 == o)
    ensures f in listing && IsCandidate(f) && HasStamp(stamp, f) ==>
              f == PlanOf(listing, stamp).value.older || f == PlanOf(listing, stamp).value.newer
  {
    var w := Stamped(listing, stamp).value;
    StampedEntries(listing, stamp);
    assert w[0] in w && w[1] in w;
    if f in listing && IsCandidate(f) && HasStamp(stamp, f) {
      StampedComplete(listing, stamp, f);
    }
  }

  // ---- the merged table ----

  /** Why a merge of two logs is not written: the errors the `try` catches, and an empty older log. */
  datatype MergeError = Unreadable(name: string) | MissingTrialNumber(name: string) | EmptyOlder

  /** `df_new["trial_number"] += offset`: every row's trial number moved by `offset`, nothing else changed. */
  function Shifted(rows: seq<Row>, offset: int): (s: seq<Row>)
    ensures |s| == |rows|
    ensures forall i :: 0 <= i < |rows| ==> s[i].trial == rows[i].trial + offset
    ensures forall i :: 0 <= i < |rows| ==> s[i].block == rows[i].block && s[i].cells == rows[i].cells
  {
    seq(|rows|, i requires 0 <= i < |rows| => rows[i].(trial := rows[i].trial + offset))
  }

  /** Shifting back undoes the shift. */
  lemma ShiftedBack(rows: seq<Row>, offset: int)
    ensures Shifted(Shifted(rows, offset), -offset) == rows
  {
    var s := Shifted(Shifted(rows, offset), -offset);
    forall i | 0 <= i < |rows| ensures s[i] == rows[i] {
      assert s[i].trial == rows[i].trial && s[i].block == rows[i].block && s[i].cells == rows[i].cells;
    }
  }

  /** The in-place `+=` on the newer log's rows. */
  method ShiftTrials(rows: array<Row>, offset: int)
    modifies rows
    ensures rows[..] == Shifted(old(rows[..]), offset)
  {
    for i := 0 to rows.Length
      invariant forall j :: 0 <= j < i ==> rows[j] == old(rows[j]).(trial := old(rows[j]).trial + offset)
      invariant forall j :: i <= j < rows.Length ==> rows[j] == old(rows[j])
    {
      rows[i] := rows[i].(trial := rows[i].trial + offset);
    }
  }

  /**
   * The body of the `try` for the two logs: both read, `trial_number` taken
   * from both, the newer one shifted by the older one's maximum, and
   * `pd.concat` of the two. `contents` maps a file name of the folder to its
   * parsed table; a missing name is a file `read_csv` fails on.
   */
  function Merged(contents: map<string, Table>, older: string, newer: string): (r: Result<Table, MergeError>)
    ensures r.Err? <==> older !in contents || newer !in contents
                        || TrialNumber !in contents[older].columns || TrialNumber !in contents[newer].columns
                        || contents[older].rows == []
  {
    if older !in contents then Err(Unreadable(older))
    else if newer !in contents then Err(Unreadable(newer))
    else
      var a := contents[older];
      var b := contents[newer];
      if TrialNumber !in a.columns then Err(MissingTrialNumber(older))
      else if TrialNumber !in b.columns then Err(MissingTrialNumber(newer))
      else match Classification.MaxTrial(a.rows)
        case None => Err(EmptyOlder)
        case Some(m) => Ok(Concat([a, Table(b.columns, Shifted(b.rows, m))]))
  }

  lemma ConcatTwo(a: Table, b: Table)
    ensures Concat([a, b]) == Table(a.columns + b.columns, a.rows + b.rows)
  {
    assert [a, b][1..] == [b];
    assert [b][1..] == [];
    assert Concat([]) == Table({}, []);
    assert Concat([b]) == Table(b.columns + {}, b.rows + []);
    assert b.rows + [] == b.rows;
    assert b.columns + {} == b.columns;
  }

  /**
   * The merged log has the columns of both, the older log's rows unchanged
   * and then every newer row with only its trial number moved, by the older
   * log's largest trial number; so its length is the sum of both lengths.
   */
  lemma MergedShape(contents: map<string, Table>, older: string, newer: string)
    requires Merged(contents, older, newer).Ok?
    ensures var t := Merged(contents, older, newer).value;
            var (a, b) := (contents[older], contents[newer]);
            var m := Classification.MaxTrial(a.rows).value;
            && t.columns == a.columns + b.columns
            && |t.rows| == |a.rows| + |b.rows|
            && t.rows[..|a.rows|] == a.rows
            && t.rows[|a.rows|..] == Shifted(b.rows, m)
            && (forall r :: r in a.rows ==> r.trial <= m)
            && (exists r :: r in a.rows && r.trial == m)
  {
    var a := contents[older];
    var b := contents[newer];
    var m := Classification.MaxTrial(a.rows).value;
    ConcatTwo(a, Table(b.columns, Shifted(b.rows, m)));
    var t := Merged(contents, older, newer).value;
    assert t.rows == a.rows + Shifted(b.rows, m);
  }

  /**
   * When the newer log's trial numbers start at 1 or more, every shifted
   * trial number exceeds every trial number of the older log.
   */
  lemma NewerTrialsFollowOlder(contents: map<string, Table>, older: string, newer: string)
    requires Merged(contents, older, newer).Ok?
    requires forall r :: r in contents[newer].rows ==> r.trial >= 1
    ensures var t := Merged(contents, older, newer).value;
            var k := |contents[older].rows|;
            k <= |t.rows| && forall i, j :: 0 <= i < k <= j < |t.rows| ==> t.rows[i].trial < t.rows[j].trial
  {
    MergedShape(contents, older, newer);
    var t := Merged(contents, older, newer).value;
    var a := contents[older];
    var b := contents[newer];
    var m := Classification.MaxTrial(a.rows).value;
    var k := |a.rows|;
    assert t.rows == t.rows[..k] + t.rows[k..];
    ShiftedFollow(a.rows, b.rows, m, t.rows);
  }

  lemma ShiftedFollow(older: seq<Row>, newer: seq<Row>, m: int, rows: seq<Row>)
    requires forall r :: r in older ==> r.trial <= m
    requires forall r :: r in newer ==> r.trial >= 1
    requires rows == older + Shifted(newer, m)
    ensures forall i, j :: 0 <= i < |older| <= j < |rows| ==> rows[i].trial < rows[j].trial
  {
    var k := |older|;
    forall i, j | 0 <= i < k <= j < |rows| ensures rows[i].trial < rows[j].trial {
      assert rows[i] == older[i] && older[i] in older;
      assert rows[j] == Shifted(newer, m)[j - k] && newer[j - k] in newer;
    }
  }

  /** The same merge, computed as the script does it: the shift in place on the newer rows. */
  method MergeLogs(contents: map<string, Table>, older: string, newer: string) returns (r: Result<Table, MergeError>)
    ensures r == Merged(contents, older, newer)
  {
    if older !in contents { return Err(Unreadable(older)); }
    if newer !in contents { return Err(Unreadable(newer)); }
    var a := contents[older];
    var b := contents[newer];
    if TrialNumber !in a.columns { return Err(MissingTrialNumber(older)); }
    if TrialNumber !in b.columns { return Err(MissingTrialNumber(newer)); }
    var m := Classification.MaxTrial(a.rows);
    if m.None? { return Err(EmptyOlder); }
    var rows := new Row[|b.rows|](i requires 0 <= i < |b.rows| => b.rows[i]);
    assert rows[..] == b.rows;
    ShiftTrials(rows, m.value);
    return Ok(Concat([a, Table(b.columns, rows[..])]));
  }

  // ---- the folder walk ----

  /** A date folder: its name, whether it is a directory, its listing and the tables of its files. */
  datatype DateFolder = DateFolder(name: string, isDir: bool, listing: seq<string>, contents: map<string, Table>)

  /** A subject folder with its `Behavior` folder's entries, `None` when there is none. */
  datatype SubjectFolder = SubjectFolder(name: string, behavior: Option<seq<DateFolder>>)

  /**
   * What happens in one date folder: skipped with the number of logs found,
   * merged (both originals moved to `old/` under `_old.csv` names and the
   * merge written under the older name), or an error the `try` reports.
   */
  datatype Outcome =
    | Skipped(found: nat)
    | Concatenated(older: string, newer: string, movedOlder: string, movedNewer: string, merged: Table)
    | Failed(error: MergeError)

  datatype Action = Action(subject: string, date: string, outcome: Outcome)

  /** The actions taken so far, and the error that ended the script, if one did. */
  datatype Run = Run(actions: seq<Action>, aborted: Option<Names.NameError>)

  /** One date folder: nothing when it is not a directory. */
  function FolderStep(d: DateFolder): (r: Result<Option<Outcome>, Names.NameError>)
    ensures r.Err? <==> d.isDir && PlanOf(d.listing, Names.ExtractTimestamp).Err?
    ensures r == Ok(None) <==> !d.isDir
    ensures r.Ok? && r.value.Some? && r.value.value.Skipped? ==>
              d.isDir && PlanOf(d.listing, Names.ExtractTimestamp) == Ok(Skip(r.value.value.found))
    ensures d.isDir && PlanOf(d.listing, Names.ExtractTimestamp).Ok? && PlanOf(d.listing, Names.ExtractTimestamp).value.Skip? ==>
              r == Ok(Some(Skipped(PlanOf(d.listing, Names.ExtractTimestamp).value.found)))
    ensures r.Ok? && r.value.Some? && r.value.value.Failed? ==>
              PlanOf(d.listing, Names.ExtractTimestamp).Ok? && PlanOf(d.listing, Names.ExtractTimestamp).value.Combine?
              && Merged(d.contents, PlanOf(d.listing, Names.ExtractTimestamp).value.older,
                        PlanOf(d.listing, Names.ExtractTimestamp).value.newer) == Err(r.value.value.error)
    ensures r.Ok? && r.value.Some? && r.value.value.Concatenated? ==>
              var o := r.value.value;
              PlanOf(d.listing, Names.ExtractTimestamp) == Ok(Combine(o.older, o.newer))
              && Merged(d.contents, o.older, o.newer) == Ok(o.merged)
  {
    if !d.isDir then Ok(None)
    else match PlanOf(d.listing, Names.ExtractTimestamp)
      case Err(e) => Err(e)
      case Ok(Skip(k)) => Ok(Some(Skipped(k)))
      case Ok(Combine(o, n)) =>
        match Merged(d.contents, o, n)
        case Err(e) => Ok(Some(Failed(e)))
        case Ok(t) =>
          Ok(Some(Concatenated(o, n, ReplaceAll(o, ".csv", "_old.csv"), ReplaceAll(n, ".csv", "_old.csv"), t)))
  }

  /** The date folders of one subject, in listing order, up to the first error. */
  function DatesRun(subject: string, dates: seq<DateFolder>): Run
    decreases |dates|
  {
    if dates == [] then Run([], None)
    else
      var r := DatesRun(subject, dates[..|dates| - 1]);
      var d := dates[|dates| - 1];
      if r.aborted.Some? then r
      else match FolderStep(d)
        case Err(e) => Run(r.actions, Some(e))
        case Ok(None) => r
        case Ok(Some(o)) => Run(r.actions + [Action(subject, d.name, o)], None)
  }

  /** The subject folders in listing order; only digit-named ones with a `Behavior` folder are walked. */
  function SubjectsRun(subjects: seq<SubjectFolder>): Run
    decreases |subjects|
  {
    if subjects == [] then Run([], None)
    else
      var r := SubjectsRun(subjects[..|subjects| - 1]);
      var s := subjects[|subjects| - 1];
      if r.aborted.Some? || !IsDigitFolder(s.name) || s.behavior.None? then r
      else
        var d := DatesRun(s.name, s.behavior.value);
        Run(r.actions + d.actions, d.aborted)
  }

  lemma {:induction false} DatesAbortPersist(subject: string, dates: seq<DateFolder>, i: nat)
    requires i <= |dates| && DatesRun(subject, dates[..i]).aborted.Some?
    ensures DatesRun(subject, dates) == DatesRun(subject, dates[..i])
    decreases |dates| - i
  {
    if i < |dates| {
      assert dates[..i + 1][..i] == dates[..i];
      DatesAbortPersist(subject, dates, i + 1);
    } else {
      assert dates[..i] == dates;
    }
  }

  lemma {:induction false} SubjectsAbortPersist(subjects: seq<SubjectFolder>, i: nat)
    requires i <= |subjects| && SubjectsRun(subjects[..i]).aborted.Some?
    ensures SubjectsRun(subjects) == SubjectsRun(subjects[..i])
    decreases |subjects| - i
  {
    if i < |subjects| {
      assert subjects[..i + 1][..i] == subjects[..i];
      SubjectsAbortPersist(subjects, i + 1);
    } else {
      assert subjects[..i] == subjects;
    }
  }

  /** The walk over the date folders of one subject, stopping at the first error. */
  method WalkDates(subject: string, dates: seq<DateFolder>) returns (run: Run)
    ensures run == DatesRun(subject, dates)
  {
    run := Run([], None);
    for j := 0 to |dates|
      invariant run == DatesRun(subject, dates[..j])
      invariant run.aborted.None?
    {
      assert dates[..j + 1][..j] == dates[..j];
      var step := FolderStep(dates[j]);
      if step.Err? {
        run := Run(run.actions, Some(step.error));
        DatesAbortPersist(subject, dates, j + 1);
        return;
      }
      if step.value.Some? {
        run := Run(run.actions + [Action(subject, dates[j].name, step.value.value)], None);
      }
    }
    assert dates[..|dates|] == dates;
  }

  /** The script's two nested loops over subject and date folders. */
  method ConcatSessions(subjects: seq<SubjectFolder>) returns (run: Run)
    ensures run == SubjectsRun(subjects)
  {
    run := Run([], None);
    for i := 0 to |subjects|
      invariant run == SubjectsRun(subjects[..i])
      invariant run.aborted.None?
    {
      assert subjects[..i + 1][..i] == subjects[..i];
      var s := subjects[i];
      if !IsDigitFolder(s.name) || s.behavior.None? {
        continue;
      }
      var d := WalkDates(s.name, s.behavior.value);
      run := Run(run.actions + d.actions, d.aborted);
      if d.aborted.Some? {
        SubjectsAbortPersist(subjects, i + 1);
        return;
      }
    }
    assert subjects[..|subjects|] == subjects;
  }

  // ---- what the walk promises ----

  /** The action is what one of these date folders yields. */
  predicate TakenIn(dates: seq<DateFolder>, a: Action)
  {
    exists d :: d in dates && d.name == a.date && FolderStep(d) == Ok(Some(a.outcome))
  }

  /** Every action of a subject's walk names that subject and one of its date folders. */
  lemma {:induction false} DatesRunActions(subject: string, dates: seq<DateFolder>)
    ensures forall a :: a in DatesRun(subject, dates).actions ==>
              a.subject == subject && TakenIn(dates, a)
    decreases |dates|
  {
    if dates != [] {
      var init := dates[..|dates| - 1];
      DatesRunActions(subject, init);
      assert forall d :: d in init ==> d in dates;
    }
  }

  /**
   * Only digit-named subject folders are walked, and every merge written
   * comes from a date folder whose gate chose those two logs.
   */
  lemma {:induction false} ActionsComeFromDigitFolders(subjects: seq<SubjectFolder>)
    ensures forall a :: a in SubjectsRun(subjects).actions ==>
              IsDigitFolder(a.subject)
              && exists s :: s in subjects && s.name == a.subject && s.behavior.Some? && TakenIn(s.behavior.value, a)
    decreases |subjects|
  {
    if subjects != [] {
      var init := subjects[..|subjects| - 1];
      var s := subjects[|subjects| - 1];
      ActionsComeFromDigitFolders(init);
      assert forall x :: x in init ==> x in subjects;
      if SubjectsRun(init).aborted.None? && IsDigitFolder(s.name) && s.behavior.Some? {
        DatesRunActions(s.name, s.behavior.value);
      }
    }
  }

  /** The originals are moved to `old/` under the same stem with `_old.csv`. */
  lemma MovedUnderOldName(stem: string)
    requires !Contains(stem, '.')
    ensures ReplaceAll(stem + ".csv", ".csv", "_old.csv") == stem + "_old.csv"
  {
    ReplaceCsvExtension(stem, "_old.csv");
  }

  // ---- a rerun ----

  /** The listing without the name `x`. */
  function Without(listing: seq<string>, x: string): (r: seq<string>)
    ensures forall f :: f in r <==> f in listing && f != x
  {
    if listing == [] then []
    else (if listing[0] == x then [] else [listing[0]]) + Without(listing[1..], x)
  }

  function EntriesWithout(w: seq<(string, Names.Stamp)>, x: string): seq<(string, Names.Stamp)>
  {
    if w == [] then []
    else (if w[0].0 == x then [] else [w[0]]) + EntriesWithout(w[1..], x)
  }

  predicate Distinct(listing: seq<string>)
  {
    forall i, j :: 0 <= i < j < |listing| ==> listing[i] != listing[j]
  }

  lemma {:induction false} StampedWithout(listing: seq<string>, stamp: Stamper, x: string)
    requires Stamped(listing, stamp).Ok?
    ensures Stamped(Without(listing, x), stamp) == Ok(EntriesWithout(Stamped(listing, stamp).value, x))
  {
    if listing != [] {
      StampedWithout(listing[1..], stamp, x);
      var f := listing[0];
      if f != x {
        assert Without(listing, x) == [f] + Without(listing[1..], x);
        assert Without(listing, x)[1..] == Without(listing[1..], x);
      } else {
        assert Without(listing, x) == Without(listing[1..], x);
        var w := Stamped(listing, stamp).value;
        if IsCandidate(f) && HasStamp(stamp, f) {
          assert w == [(f, StampOf(stamp, f))] + Stamped(listing[1..], stamp).value;
          assert w[1..] == Stamped(listing[1..], stamp).value;
          assert w[0].0 == x;
          assert EntriesWithout(w, x) == EntriesWithout(w[1..], x);
        } else {
          assert w == Stamped(listing[1..], stamp).value;
        }
      }
    }
  }

  lemma {:induction false} StampedAppend(a: seq<string>, b: seq<string>, stamp: Stamper)
    requires Stamped(a, stamp).Ok? && Stamped(b, stamp) == Ok([])
    ensures Stamped(a + b, stamp) == Stamped(a, stamp)
  {
    if a == [] {
      assert a + b == b;
    } else {
      assert (a + b)[1..] == a[1..] + b;
      StampedAppend(a[1..], b, stamp);
    }
  }

  lemma {:induction false} StampedOfNonCandidates(extra: seq<string>, stamp: Stamper)
    requires forall e :: e in extra ==> !IsCandidate(e)
    ensures Stamped(extra, stamp) == Ok([])
  {
    if extra != [] {
      StampedOfNonCandidates(extra[1..], stamp);
    }
  }

  lemma {:induction false} StampedDistinct(listing: seq<string>, stamp: Stamper)
    requires Distinct(listing) && Stamped(listing, stamp).Ok?
    ensures var w := Stamped(listing, stamp).value; forall i, j :: 0 <= i < j < |w| ==> w[i].0 != w[j].0
  {
    if listing != [] {
      assert Distinct(listing[1..]) by {
        forall i, j | 0 <= i < j < |listing[1..]| ensures listing[1..][i] != listing[1..][j] {
          assert listing[1..][i] == listing[i + 1] && listing[1..][j] == listing[j + 1];
        }
      }
      StampedDistinct(listing[1..], stamp);
      StampedEntries(listing[1..], stamp);
      var rest := Stamped(listing[1..], stamp).value;
      forall k | 0 <= k < |rest| ensures rest[k].0 != listing[0] {
        var j :| 0 <= j < |listing[1..]| && listing[1..][j] == rest[k].0;
        assert listing[j + 1] == rest[k].0;
      }
    }
  }

  /**
   * Running the script again on a folder it merged skips that folder: the
   * newer log is gone, the older name holds the merge, and whatever else was
   * added (the `old` folder) is no candidate; so one log is found.
   */
  lemma RerunSkips(listing: seq<string>, stamp: Stamper, extra: seq<string>)
    requires Distinct(listing)
    requires PlanOf(listing, stamp).Ok? && PlanOf(listing, stamp).value.Combine?
    requires forall e :: e in extra ==> !IsCandidate(e)
    ensures PlanOf(Without(listing, PlanOf(listing, stamp).value.newer) + extra, stamp) == Ok(Skip(1))
  {
    var n := PlanOf(listing, stamp).value.newer;
    var w := Stamped(listing, stamp).value;
    StampedDistinct(listing, stamp);
    StampedWithout(listing, stamp, n);
    StampedOfNonCandidates(extra, stamp);
    StampedAppend(Without(listing, n), extra, stamp);
    assert w[1..][1..] == [];
    assert n == w[0].0 || n == w[1].0;
    assert w[0].0 != w[1].0;
    assert EntriesWithout(w[1..][1..], n) == [];
    if n == w[0].0 {
      assert EntriesWithout(w, n) == [w[1]];
    } else {
      assert EntriesWithout(w, n) == [w[0]];
    }
  }
}
