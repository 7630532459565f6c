/**
 * overall_plots.py: the across-sessions view of the 2-choice task for chosen
 * animals. `find_files` selects the recordings by name and orders them by
 * animal and instant, `extract_metadata` reads the instant from the file
 * name and the box from the nearest folder that names one,
 * `load_trial_counts` reduces a session table to its counts, rates and
 * performances, and `run_for_animals` gathers the sessions that load for
 * each animal and sorts them by date.
 */
module Overall {
  import opened Wrappers
  import opened Tables
  import opened Text
  import Detection
  import Outcomes
  import Names
  import Sorting
  import GeneralSessions

  /** A listed file: the folder names from the root down, then its own name. */
  datatype FilePath = FilePath(folders: seq<string>, name: string)

  // ---- `extract_metadata` ----

  /**
   * The instant in a name `fname_rx` accepts, `Ok(None)` for a name it
   * refuses, and `Err` for the `ValueError` of `strptime` on a date or time
   * that does not exist.
   */
  function RecordingStamp(name: string): (r: Result<Option<Names.Stamp>, Names.NameError>)
    ensures r == Ok(None) <==> Names.MatchRecordingName(name).None?
    ensures r.Ok? && r.value.Some? ==>
              var g := Names.MatchRecordingName(name).value.groups;
              AllDigits(g.date + g.time) && Names.StampKey(r.value.value) == DigitsValue(g.date + g.time)
  {
    match Names.MatchRecordingName(name)
    case None => Ok(None)
    case Some(m) =>
      var digits := m.groups.date + m.groups.time;
      DigitsValueAppend(m.groups.date, m.groups.time);
      match Names.ParseStamp(digits)
      case None => Err(Names.InvalidCalendarValue)
      case Some(s) =>
        Names.StampKeyIsDigitsValue(digits);
        Ok(Some(s))
  }

  /** The last position of `names` whose entry satisfies `p`; -1 when none does. */
  function LastWhere(names: seq<string>, p: string -> bool): (k: int)
    ensures -1 <= k < |names|
    ensures k >= 0 ==> p(names[k])
    ensures forall j :: k < j < |names| ==> !p(names[j])
  {
    if names == [] then -1
    else if p(names[|names| - 1]) then |names| - 1
    else
      var inner := names[..|names| - 1];
      assert forall j :: 0 <= j < |inner| ==> inner[j] == names[j];
      LastWhere(inner, p)
  }

  /**
   * The position of the nearest folder, walking from the file towards the
   * root, whose name holds a `box_rx` match; -1 when none does.
   */
  function NearestBoxFolder(folders: seq<string>): (k: int)
    ensures -1 <= k < |folders|
    ensures k >= 0 ==> Names.FolderBox(folders[k]).Some?
    ensures forall j :: k < j < |folders| ==> Names.FolderBox(folders[j]).None?
  {
    LastWhere(folders, name => Names.FolderBox(name).Some?)
  }

  /** Those two properties pin the position down. */
  lemma NearestBoxFolderIsUnique(folders: seq<string>, k: int)
    requires -1 <= k < |folders|
    requires k >= 0 ==> Names.FolderBox(folders[k]).Some?
    requires forall j :: k < j < |folders| ==> Names.FolderBox(folders[j]).None?
    ensures NearestBoxFolder(folders) == k
  {
  }

  /** The digits of the nearest box, `None` when no folder names one. */
  function NearestBox(folders: seq<string>): (r: Option<string>)
    ensures r.None? <==> forall j :: 0 <= j < |folders| ==> Names.FolderBox(folders[j]).None?
    ensures r.Some? ==> r.value != [] && AllDigits(r.value)
  {
    var k := NearestBoxFolder(folders);
    if k < 0 then None else Names.FolderBox(folders[k])
  }

  /** What `extract_metadata` returns: the instant (`None` for a refused name) and the box. */
  datatype Metadata = Metadata(dt: Option<Names.Stamp>, box: Option<string>)

  function MetadataOf(path: FilePath): (r: Result<Metadata, Names.NameError>)
    ensures r.Err? <==> RecordingStamp(path.name).Err?
    ensures r.Ok? ==> r.value.dt == RecordingStamp(path.name).value && r.value.box == NearestBox(path.folders)
  {
    match RecordingStamp(path.name)
    case Err(e) => Err(e)
    case Ok(dt) => Ok(Metadata(dt, NearestBox(path.folders)))
  }

  /** `extract_metadata`: parse the name, then walk up the parents and stop at the first box. */
  method ExtractMetadata(path: FilePath) returns (r: Result<Metadata, Names.NameError>)
    ensures r == MetadataOf(path)
  {
    var dt := RecordingStamp(path.name);
    if dt.Err? {
      return Err(dt.error);
    }
    var box := FindNearestBox(path.folders);
    return Ok(Metadata(dt.value, box));
  }

  /** The walk up the parents: the first folder, from the file up, whose name holds a box. */
  method FindNearestBox(folders: seq<string>) returns (box: Option<string>)
    ensures box == NearestBox(folders)
  {
    box := None;
    var i := |folders|;
    while i > 0
      invariant 0 <= i <= |folders|
      invariant box == None
      invariant forall j :: i <= j < |folders| ==> Names.FolderBox(folders[j]).None?
      decreases i
    {
      var found := Names.FolderBox(folders[i - 1]);
      if found.Some? {
        NearestBoxFolderIsUnique(folders, i - 1);
        box := found;
        return;
      }
      assert forall j :: i - 1 <= j < |folders| ==> Names.FolderBox(folders[j]).None?;
      i := i - 1;
    }
    NearestBoxFolderIsUnique(folders, -1);
  }

  /** The nearest box wins over any box further up the path. */
  lemma NearestFolderWins(outer: seq<string>, inner: string, digits: string)
    requires Names.FolderBox(inner) == Some(digits)
    ensures NearestBox(outer + [inner]) == Some(digits)
  {
    NearestBoxFolderIsUnique(outer + [inner], |outer|);
  }

  /** Folders that name no box are transparent to the search. */
  lemma BoxlessFoldersAreSkipped(outer: seq<string>, inner: seq<string>)
    requires forall k :: 0 <= k < |inner| ==> Names.FolderBox(inner[k]).None?
    ensures NearestBox(outer + inner) == NearestBox(outer)
  {
    var folders := outer + inner;
    var k := NearestBoxFolder(outer);
    forall j | k < j < |folders| ensures Names.FolderBox(folders[j]).None? {
      if j < |outer| { assert folders[j] == outer[j]; } else { assert folders[j] == inner[j - |outer|]; }
    }
    if k >= 0 { assert folders[k] == outer[k]; }
    NearestBoxFolderIsUnique(folders, k);
  }

  // ---- `find_files` ----

  /** A file `find_files` keeps: its animal id, its instant and its path. */
  datatype Recording = Recording(animal: string, stamp: Names.Stamp, path: FilePath)

  /**
   * `find_files` raises: `strptime` on a kept name whose date or time does
   * not exist, or `FileNotFoundError` when no file is kept.
   */
  datatype FindError = InvalidTimestamp(path: FilePath) | NoMatchingFiles

  /** The loop's treatment of one listed file: skip it, keep it, or crash in `strptime`. */
  datatype Verdict = Skip | Keep(recording: Recording) | Crash(path: FilePath)

  /** An empty list of animals of interest lets every animal through. */
  predicate OfInterest(animal: string, animals: seq<string>)
  {
    animals == [] || animal in animals
  }

  /** A recording whose name carries exactly its animal and instant. */
  predicate Found(x: Recording)
  {
    Names.MatchRecordingName(x.path.name).Some?
    && Names.MatchRecordingName(x.path.name).value.groups.animal == x.animal
    && RecordingStamp(x.path.name) == Ok(Some(x.stamp))
  }

  /**
   * One pass of the loop: a name `fname_rx` refuses and an animal not of
   * interest are skipped before the instant is parsed.
   */
  function Judge(path: FilePath, animals: seq<string>): (v: Verdict)
    ensures v.Skip? <==> Names.MatchRecordingName(path.name).None?
                         || !OfInterest(Names.MatchRecordingName(path.name).value.groups.animal, animals)
    ensures v.Crash? <==> Names.MatchRecordingName(path.name).Some?
                          && OfInterest(Names.MatchRecordingName(path.name).value.groups.animal, animals)
                          && RecordingStamp(path.name).Err?
    ensures v.Crash? ==> v.path == path
    ensures v.Keep? ==> v.recording.path == path && Found(v.recording) && OfInterest(v.recording.animal, animals)
  {
    match Names.MatchRecordingName(path.name)
    case None => Skip
    case Some(m) =>
      if !OfInterest(m.groups.animal, animals) then Skip
      else
        var digits := m.groups.date + m.groups.time;
        DigitsValueAppend(m.groups.date, m.groups.time);
        match Names.ParseStamp(digits)
        case None => Crash(path)
        case Some(s) => Keep(Recording(m.groups.animal, s, path))
  }

  /** The verdict on every listed file, in listing order. */
  function Verdicts(files: seq<FilePath>, animals: seq<string>): (vs: seq<Verdict>)
    ensures |vs| == |files|
    ensures forall k :: 0 <= k < |files| ==> vs[k] == Judge(files[k], animals)
  {
    seq(|files|, k requires 0 <= k < |files| => Judge(files[k], animals))
  }

  /** The records the loop appends, in order, or the first crash. */
  function Gather(vs: seq<Verdict>): Result<seq<Recording>, FindError>
  {
    if vs == [] then Ok([]) else Extend(Gather(vs[..|vs| - 1]), vs[|vs| - 1])
  }

  /** One pass of the loop after the earlier ones. */
  function Extend(g: Result<seq<Recording>, FindError>, v: Verdict): Result<seq<Recording>, FindError>
  {
    match g
    case Err(e) => Err(e)
    case Ok(rs) =>
      match v
      case Skip => Ok(rs)
      case Crash(path) => Err(InvalidTimestamp(path))
      case Keep(x) => Ok(rs + [x])
  }

  /**
   * An error is a crash of the list; otherwise nothing crashed, every
   * record comes from a kept file, and every kept file is recorded.
   */
  lemma {:induction false} GatherMeaning(vs: seq<Verdict>)
    ensures Gather(vs).Err? ==> Gather(vs).error.InvalidTimestamp? && Crash(Gather(vs).error.path) in vs
    ensures Gather(vs).Ok? ==> forall k :: 0 <= k < |vs| ==> !vs[k].Crash?
    ensures Gather(vs).Ok? ==> |Gather(vs).value| <= |vs|
    ensures Gather(vs).Ok? ==> forall x :: x in Gather(vs).value ==> Keep(x) in vs
    ensures Gather(vs).Ok? ==> forall k :: 0 <= k < |vs| && vs[k].Keep? ==> vs[k].recording in Gather(vs).value
  {
    if vs != [] {
      var last := |vs| - 1;
      var prefix := vs[..last];
      GatherMeaning(prefix);
      assert forall k :: 0 <= k < last ==> prefix[k] == vs[k];
      assert forall v :: v in prefix ==> v in vs;
    }
  }

  /** What the loop of `find_files` collects before sorting. */
  function Collect(files: seq<FilePath>, animals: seq<string>): Result<seq<Recording>, FindError>
  {
    Gather(Verdicts(files, animals))
  }

  /** The first crash ends the loop: the error it raises is the error of the whole list. */
  lemma {:induction false} CrashEndsGather(vs: seq<Verdict>, n: nat)
    requires n <= |vs| && Gather(vs[..n]).Err?
    ensures Gather(vs) == Gather(vs[..n])
    decreases |vs| - n
  {
    if n == |vs| {
      assert vs[..n] == vs;
    } else {
      assert vs[..n + 1][..n] == vs[..n];
      CrashEndsGather(vs, n + 1);
    }
  }

  /** `sort_values(["animal", "dt"])`: by animal id as text, then by instant. */
  predicate RecordOrder(a: Recording, b: Recording)
  {
    LexLess(a.animal, b.animal) || (a.animal == b.animal && Names.StampKey(a.stamp) <= Names.StampKey(b.stamp))
  }

  lemma RecordOrderIsTotalPreorder()
    ensures Sorting.TotalPreorder(RecordOrder)
  {
    forall a, b ensures RecordOrder(a, b) || RecordOrder(b, a) {
      LexLessTrichotomy(a.animal, b.animal);
    }
    forall a, b, c | RecordOrder(a, b) && RecordOrder(b, c) ensures RecordOrder(a, c) {
      LexLessTrichotomy(a.animal, c.animal);
      if LexLess(a.animal, b.animal) && LexLess(b.animal, c.animal) {
        LexLessTransitive(a.animal, b.animal, c.animal);
      }
    }
  }

  /** The stable sort `sort_values` performs on the records. */
  function SortRecords(rs: seq<Recording>): (r: seq<Recording>)
    ensures multiset(r) == multiset(rs) && Sorting.Sorted(r, RecordOrder)
  {
    RecordOrderIsTotalPreorder();
    Sorting.SortWith(rs, RecordOrder)
  }

  /** The body of the loop of `find_files` for one listed file. */
  method JudgeFile(path: FilePath, animals: seq<string>) returns (v: Verdict)
    ensures v == Judge(path, animals)
  {
    var m := Names.MatchRecordingName(path.name);
    if m.None? {
      return Skip;
    }
    var animal := m.value.groups.animal;
    if !OfInterest(animal, animals) {
      return Skip;
    }
    var digits := m.value.groups.date + m.value.groups.time;
    DigitsValueAppend(m.value.groups.date, m.value.groups.time);
    var dt := Names.ParseStamp(digits);
    if dt.None? {
      return Crash(path);
    }
    return Keep(Recording(animal, dt.value, path));
  }

  /** The loop of `find_files`: the kept files in listing order, or the first crash. */
  method CollectRecords(files: seq<FilePath>, animals: seq<string>) returns (r: Result<seq<Recording>, FindError>)
    ensures r == Collect(files, animals)
  {
    ghost var vs := Verdicts(files, animals);
    var records: seq<Recording> := [];
    var i := 0;
    while i < |files|
      invariant 0 <= i <= |files|
      invariant Gather(vs[..i]) == Ok(records)
    {
      assert vs[..i + 1][..i] == vs[..i];
      var v := JudgeFile(files[i], animals);
      assert vs[i] == v;
      assert Gather(vs[..i + 1]) == Extend(Ok(records), v);
      if v.Crash? {
        CrashEndsGather(vs, i + 1);
        return Err(InvalidTimestamp(files[i]));
      }
      if v.Keep? {
        records := records + [v.recording];
      }
      i := i + 1;
    }
    assert vs[..i] == vs;
    return Ok(records);
  }

  /** `find_files` over the listed files, in listing order. */
  method FindFiles(files: seq<FilePath>, animals: seq<string>) returns (r: Result<seq<Recording>, FindError>)
    ensures r.Err? <==> Collect(files, animals).Err? || Collect(files, animals).value == []
    ensures Collect(files, animals) == Ok([]) ==> r == Err(NoMatchingFiles)
    ensures r.Ok? ==> r.value == SortRecords(Collect(files, animals).value)
  {
    var records := CollectRecords(files, animals);
    if records.Err? {
      return records;
    }
    if records.value == [] {
      return Err(NoMatchingFiles);
    }
    return Ok(SortRecords(records.value));
  }

  /**
   * What `find_files` returns: the kept files of the animals of interest,
   * each recording its own name's animal and instant, ordered by animal and
   * then by instant, and every kept file among them.
   */
  lemma FoundFiles(files: seq<FilePath>, animals: seq<string>)
    requires Collect(files, animals).Ok?
    ensures var rs := SortRecords(Collect(files, animals).value);
            Sorting.Sorted(rs, RecordOrder)
            && (forall x :: x in rs ==> x.path in files && Found(x) && OfInterest(x.animal, animals))
            && (forall k :: 0 <= k < |files| && Judge(files[k], animals).Keep? ==> Judge(files[k], animals).recording in rs)
  {
    var vs := Verdicts(files, animals);
    GatherMeaning(vs);
    var c := Collect(files, animals).value;
    var rs := SortRecords(c);
    forall x | x in rs ensures x.path in files && Found(x) && OfInterest(x.animal, animals) {
      assert x in multiset(rs);
      assert x in c;
      var k :| 0 <= k < |vs| && vs[k] == Keep(x);
      assert Judge(files[k], animals) == Keep(x);
    }
    forall k | 0 <= k < |files| && Judge(files[k], animals).Keep?
      ensures Judge(files[k], animals).recording in rs
    {
      assert vs[k] == Judge(files[k], animals);
      var x := Judge(files[k], animals).recording;
      assert x in c;
      assert x in multiset(c);
    }
  }

  /** Files of one animal with the same instant keep their listing order. */
  lemma SameInstantKeepsListingOrder(rs: seq<Recording>, animal: string, key: int)
    ensures Sorting.Select(SortRecords(rs), (x: Recording) => x.animal == animal && Names.StampKey(x.stamp) == key)
            == Sorting.Select(rs, (x: Recording) => x.animal == animal && Names.StampKey(x.stamp) == key)
  {
    RecordOrderIsTotalPreorder();
    var p := (x: Recording) => x.animal == animal && Names.StampKey(x.stamp) == key;
    assert Sorting.Tied(RecordOrder, p);
    Sorting.SortWithIsStable(rs, RecordOrder, p);
  }

  // ---- `load_trial_counts` ----

  /** The outcome counts, each a conjunction of `== 1` tests. */
  datatype ToneOutcomes = ToneOutcomes(
    correct8k: nat, correct16k: nat, incorrect8k: nat, incorrect16k: nat,
    early: nat, omissions: nat, omission8k: nat, omission16k: nat)

  function Correct(o: ToneOutcomes): nat { o.correct8k + o.correct16k }
  function Incorrect(o: ToneOutcomes): nat { o.incorrect8k + o.incorrect16k }
  function Attempts(o: ToneOutcomes): nat { Correct(o) + Incorrect(o) + o.omissions }
  function Attempts8k(o: ToneOutcomes): nat { o.correct8k + o.incorrect8k + o.omission8k }
  function Attempts16k(o: ToneOutcomes): nat { o.correct16k + o.incorrect16k + o.omission16k }

  /**
   * The returned dictionary. `hitRate` and `falseAlarm` are the file's own
   * first values, while `dPrime` is computed; standard deviations are not modelled.
   */
  datatype OverallCounts = OverallCounts(
    outcomes: ToneOutcomes, total: nat,
    dPrime: real, hitRate: Option<real>, falseAlarm: Option<real>,
    latency8k: Option<real>, latency16k: Option<real>,
    qw: Qw, automReward: bool,
    performance: real, performance8k: real, performance16k: real)

  /** A `KeyError` or `IndexError` as in the 2-choice loader, or `ZeroDivisionError` in a performance. */
  datatype CountsError = Unreadable(error: GeneralSessions.LoadError) | ZeroDivision

  /** The columns indexed without a guard, in the order the loader reads them. */
  const OverallColumns: seq<Column> := [TrialStart, LickTime, Tone8k, Tone16k, Reward, Punishment, Omission]

  function ToneOutcomesOf(t: Table): (o: ToneOutcomes)
    ensures o.correct8k == Outcomes.CountBoth(t.rows, Tone8k, Reward)
    ensures o.correct16k == Outcomes.CountBoth(t.rows, Tone16k, Reward)
    ensures o.incorrect8k == Outcomes.CountBoth(t.rows, Tone8k, Punishment)
    ensures o.incorrect16k == Outcomes.CountBoth(t.rows, Tone16k, Punishment)
    ensures o.omissions == Outcomes.CountFlag(t.rows, Omission)
    ensures o.omission8k <= o.omissions && o.omission16k <= o.omissions
    ensures o.omission8k == Outcomes.CountBoth(t.rows, Omission, Tone8k)
    ensures o.omission16k == Outcomes.CountBoth(t.rows, Omission, Tone16k)
    ensures EarlyLick !in t.columns ==> o.early == 0
    ensures EarlyLick in t.columns ==> o.early == Outcomes.CountFlag(t.rows, EarlyLick)
  {
    var rows := FillNa(t).rows;
    GeneralSessions.FilledCountBoth(t, Tone8k, Reward);
    GeneralSessions.FilledCountBoth(t, Tone16k, Reward);
    GeneralSessions.FilledCountBoth(t, Tone8k, Punishment);
    GeneralSessions.FilledCountBoth(t, Tone16k, Punishment);
    GeneralSessions.FilledCountBoth(t, Omission, Tone8k);
    GeneralSessions.FilledCountBoth(t, Omission, Tone16k);
    GeneralSessions.FilledCountFlag(t, Omission);
    GeneralSessions.FilledCountFlag(t, EarlyLick);
    OmissionsOfToneWithin(t.rows, Tone8k);
    OmissionsOfToneWithin(t.rows, Tone16k);
    ToneOutcomes(
      Outcomes.CountBoth(rows, Tone8k, Reward), Outcomes.CountBoth(rows, Tone16k, Reward),
      Outcomes.CountBoth(rows, Tone8k, Punishment), Outcomes.CountBoth(rows, Tone16k, Punishment),
      if EarlyLick in t.columns then Outcomes.CountFlag(rows, EarlyLick) else 0,
      Outcomes.CountFlag(rows, Omission),
      Outcomes.CountBoth(rows, Omission, Tone8k), Outcomes.CountBoth(rows, Omission, Tone16k))
  }

  lemma OmissionsOfToneWithin(rows: seq<Row>, tone: Column)
    ensures Outcomes.CountBoth(rows, Omission, tone) <= Outcomes.CountFlag(rows, Omission)
  {
    var p := (r: Row) => Outcomes.Both(r, Omission, tone);
    var q := (r: Row) => Flag(r, Omission);
    CountMonotone(rows, p, q);
  }

  /** The three performances, or the division by zero the first empty denominator raises. */
  function Performances(o: ToneOutcomes): (r: Result<(real, real, real), CountsError>)
    ensures r.Err? <==> Attempts(o) == 0 || Attempts8k(o) == 0 || Attempts16k(o) == 0
    ensures r.Ok? ==> r.value.0 == Outcomes.Percent(Correct(o), Attempts(o))
                      && r.value.1 == Outcomes.Percent(o.correct8k, Attempts8k(o))
                      && r.value.2 == Outcomes.Percent(o.correct16k, Attempts16k(o))
    ensures r.Ok? ==> 0.0 <= r.value.0 <= 100.0 && 0.0 <= r.value.1 <= 100.0 && 0.0 <= r.value.2 <= 100.0
  {
    if Attempts(o) == 0 || Attempts8k(o) == 0 || Attempts16k(o) == 0 then Err(ZeroDivision)
    else
      Ok((Outcomes.Percent(Correct(o), Attempts(o)),
          Outcomes.Percent(o.correct8k, Attempts8k(o)),
          Outcomes.Percent(o.correct16k, Attempts16k(o))))
  }

  /** `df[c].iloc[0]` after `fillna(0)`, `None` when the column is absent. */
  function FirstValue(t: Table, c: Column): (v: Option<real>)
    requires c in t.columns ==> t.rows != []
    ensures v.None? <==> c !in t.columns
  {
    if c in t.columns then Some(GeneralSessions.Cell(t.rows[0], c)) else None
  }

  /** The scores and summaries of a table whose performances exist. */
  function OverallCountsOf(ppf: real -> real, t: Table, o: ToneOutcomes, perf: (real, real, real)): (c: OverallCounts)
    requires !GeneralSessions.NoFirstRowFor(t) && t.rows != []
    ensures c.outcomes == o && c.total == |t.rows|
    ensures c.dPrime == Detection.SessionDPrime(ppf, Correct(o), Incorrect(o), |t.rows|)
    ensures c.hitRate == FirstValue(t, HitRateColumn) && c.falseAlarm == FirstValue(t, FalseAlarmColumn)
    ensures c.latency8k.None? <==> Outcomes.CountFlag(t.rows, Tone8k) == 0
    ensures c.latency16k.None? <==> Outcomes.CountFlag(t.rows, Tone16k) == 0
    ensures WellFormed(t) ==> (c.qw == NA <==> QW !in t.columns)
    ensures c.automReward <==> AutomReward in t.columns && 2 * Outcomes.CountFlag(t.rows, AutomReward) > |t.rows|
    ensures (c.performance, c.performance8k, c.performance16k) == perf
  {
    var f := FillNa(t);
    var rows := f.rows;
    GeneralSessions.FilledCountFlag(t, Tone8k);
    GeneralSessions.FilledCountFlag(t, Tone16k);
    GeneralSessions.FilledCountFlag(t, AutomReward);
    GeneralSessions.QwOfFilledWhenWellFormed(t);
    AutomRewardIsStrictMajority(f);
    OverallCounts(
      o, |rows|,
      Detection.SessionDPrime(ppf, Correct(o), Incorrect(o), |rows|),
      FirstValue(t, HitRateColumn), FirstValue(t, FalseAlarmColumn),
      GeneralSessions.Mean(GeneralSessions.Latencies(Filter(rows, r => Flag(r, Tone8k)))),
      GeneralSessions.Mean(GeneralSessions.Latencies(Filter(rows, r => Flag(r, Tone16k)))),
      QwOf(f), AutomRewardDominant(f),
      perf.0, perf.1, perf.2)
  }

  /**
   * `load_trial_counts`: a missing column raises at its first use, `iloc[0]`
   * of a present scalar column raises on an empty table, and a performance
   * with no attempted trials divides by zero; every other table loads.
   */
  function LoadOverallCounts(ppf: real -> real, t: Table): (r: Result<OverallCounts, CountsError>)
    ensures r.Err? <==> GeneralSessions.FirstMissing(t.columns, OverallColumns).Some?
                        || GeneralSessions.NoFirstRowFor(t)
                        || Performances(ToneOutcomesOf(t)).Err?
    ensures r.Ok? ==> t.rows != [] && r.value.outcomes == ToneOutcomesOf(t)
                      && 0.0 <= r.value.performance <= 100.0
                      && 0.0 <= r.value.performance8k <= 100.0
                      && 0.0 <= r.value.performance16k <= 100.0
    ensures r.Ok? ==> r.value == OverallCountsOf(ppf, t, ToneOutcomesOf(t), Performances(ToneOutcomesOf(t)).value)
  {
    var missing := GeneralSessions.FirstMissing(t.columns, OverallColumns);
    if missing.Some? then Err(Unreadable(GeneralSessions.MissingColumn(missing.value)))
    else if GeneralSessions.NoFirstRowFor(t) then Err(Unreadable(GeneralSessions.NoFirstRow))
    else
      var o := ToneOutcomesOf(t);
      match Performances(o)
      case Err(e) => Err(e)
      case Ok(perf) =>
        EmptyTableHasNoAttempts(t);
        Ok(OverallCountsOf(ppf, t, o, perf))
  }

  lemma EmptyTableHasNoAttempts(t: Table)
    ensures t.rows == [] ==> Attempts(ToneOutcomesOf(t)) == 0
  {
  }

  /**
   * The returned `hit_rate` is the file's column, not the clipped rate the
   * loader computes: a file whose column holds 0 reports 0, below the floor
   * every computed rate keeps.
   */
  lemma ReturnedHitRateIsTheFiles(ppf: real -> real)
    ensures var r := Row(1, None, map[TrialStart := 0.0, LickTime := 2.0, Tone8k := 1.0, Tone16k := 1.0,
                                      Reward := 1.0, Punishment := 0.0, Omission := 0.0, HitRateColumn := 0.0]);
            var t := Table({TrialStart, LickTime, Tone8k, Tone16k, Reward, Punishment, Omission, HitRateColumn}, [r]);
            var loaded := LoadOverallCounts(ppf, t);
            loaded.Ok? && loaded.value.hitRate == Some(0.0)
            && Detection.ClippedRate(Correct(loaded.value.outcomes), 1) >= Detection.Floor
  {
    var r := Row(1, None, map[TrialStart := 0.0, LickTime := 2.0, Tone8k := 1.0, Tone16k := 1.0,
                              Reward := 1.0, Punishment := 0.0, Omission := 0.0, HitRateColumn := 0.0]);
    var t := Table({TrialStart, LickTime, Tone8k, Tone16k, Reward, Punishment, Omission, HitRateColumn}, [r]);
    assert forall k :: 0 <= k < |OverallColumns| ==> OverallColumns[k] in t.columns;
    assert [r][1..] == [];
    assert Outcomes.CountBoth(t.rows, Tone8k, Reward) == 1;
    assert Outcomes.CountBoth(t.rows, Tone16k, Reward) == 1;
    assert GeneralSessions.FirstMissing(t.columns, OverallColumns).None?;
  }

  // ---- `run_for_animals` ----

  /**
   * One plotted session: `load_trial_counts` plus the date and box of
   * `extract_metadata`, and the row of the file list it came from.
   */
  datatype Session = Session(recording: Recording, date: Option<Names.Stamp>, box: Option<string>, counts: OverallCounts)

  /**
   * The session of one recording, or `None` when `extract_metadata`, the
   * read or `load_trial_counts` raises: the `except` skips the file.
   */
  function SessionOf(x: Recording, ppf: real -> real, read: FilePath -> Option<Table>): (s: Option<Session>)
    ensures s.Some? <==> MetadataOf(x.path).Ok? && read(x.path).Some? && LoadOverallCounts(ppf, read(x.path).value).Ok?
    ensures s.Some? ==> s.value.recording == x && s.value.date == MetadataOf(x.path).value.dt
                        && s.value.box == MetadataOf(x.path).value.box
                        && s.value.counts == LoadOverallCounts(ppf, read(x.path).value).value
  {
    match MetadataOf(x.path)
    case Err(_) => None
    case Ok(meta) =>
      match read(x.path)
      case None => None
      case Some(t) =>
        match LoadOverallCounts(ppf, t)
        case Err(_) => None
        case Ok(c) => Some(Session(x, meta.dt, meta.box, c))
  }

  /** The summaries the loop appends for `animal`, in the order of the file list. */
  function SessionsOf(all: seq<Recording>, animal: string, ppf: real -> real, read: FilePath -> Option<Table>): (ss: seq<Session>)
    ensures |ss| <= |all|
  {
    if all == [] then []
    else
      var x := all[|all| - 1];
      Append(SessionsOf(all[..|all| - 1], animal, ppf, read), if x.animal == animal then SessionOf(x, ppf, read) else None)
  }

  function Append(ss: seq<Session>, s: Option<Session>): seq<Session>
  {
    match s
    case None => ss
    case Some(x) => ss + [x]
  }

  /** Every summary comes from a file of `animal` in the list, and is that file's session. */
  lemma {:induction false} SessionsOfAreSessions(all: seq<Recording>, animal: string, ppf: real -> real, read: FilePath -> Option<Table>)
    ensures forall s :: s in SessionsOf(all, animal, ppf, read) ==>
              s.recording in all && s.recording.animal == animal && SessionOf(s.recording, ppf, read) == Some(s)
  {
    if all != [] {
      var last := |all| - 1;
      SessionsOfAreSessions(all[..last], animal, ppf, read);
      assert forall x :: x in all[..last] ==> x in all;
    }
  }

  /** `session_summaries.sort(key=lambda x: x["date"])`; every date is present for a found file. */
  function SessionKey(s: Session): int
  {
    match s.date
    case Some(d) => Names.StampKey(d)
    case None => 0
  }

  /** The body of the `try`: metadata, then the table; any exception skips the file. */
  method TrySession(x: Recording, ppf: real -> real, read: FilePath -> Option<Table>) returns (s: Option<Session>)
    ensures s == SessionOf(x, ppf, read)
  {
    var meta := ExtractMetadata(x.path);
    if meta.Err? {
      return None;
    }
    var table := read(x.path);
    if table.None? {
      return None;
    }
    var counts := LoadOverallCounts(ppf, table.value);
    if counts.Err? {
      return None;
    }
    return Some(Session(x, meta.value.dt, meta.value.box, counts.value));
  }

  /** The sessions of `animal` as plotted: loaded, then sorted by date. */
  function Plotted(all: seq<Recording>, animal: string, ppf: real -> real, read: FilePath -> Option<Table>): seq<Session>
  {
    Sorting.SortBy(SessionsOf(all, animal, ppf, read), SessionKey)
  }

  /**
   * `run_for_animals` for one animal: the files of that animal whose table
   * loads, sorted by date; an empty result is the "no valid data" case,
   * which draws nothing.
   */
  method RunForAnimal(all: seq<Recording>, animal: string, ppf: real -> real, read: FilePath -> Option<Table>)
    returns (sessions: seq<Session>)
    ensures sessions == Plotted(all, animal, ppf, read)
  {
    var summaries := CollectSessions(all, animal, ppf, read);
    sessions := Sorting.SortBy(summaries, SessionKey);
  }

  /** The loop of `run_for_animals` over the file list for one animal. */
  method CollectSessions(all: seq<Recording>, animal: string, ppf: real -> real, read: FilePath -> Option<Table>)
    returns (summaries: seq<Session>)
    ensures summaries == SessionsOf(all, animal, ppf, read)
  {
    summaries := [];
    var i := 0;
    while i < |all|
      invariant 0 <= i <= |all|
      invariant summaries == SessionsOf(all[..i], animal, ppf, read)
    {
      assert all[..i + 1][..i] == all[..i];
      var x := all[i];
      assert SessionsOf(all[..i + 1], animal, ppf, read)
          == Append(summaries, if x.animal == animal then SessionOf(x, ppf, read) else None);
      if x.animal != animal {
        i := i + 1;
        continue;
      }
      var session := TrySession(x, ppf, read);
      if session.Some? {
        summaries := summaries + [session.value];
      }
      i := i + 1;
    }
    assert all[..i] == all;
  }

  /** A found file's session carries the instant `find_files` parsed from the same name. */
  lemma FoundSessionDate(x: Recording, ppf: real -> real, read: FilePath -> Option<Table>)
    requires Found(x) && SessionOf(x, ppf, read).Some?
    ensures SessionOf(x, ppf, read).value.date == Some(x.stamp)
    ensures SessionKey(SessionOf(x, ppf, read).value) == Names.StampKey(x.stamp)
  {
  }

  /**
   * `find_files` already orders one animal's recordings by instant, so the
   * date sort before plotting leaves the sessions where they are.
   */
  lemma DateSortKeepsFoundOrder(all: seq<Recording>, animal: string, ppf: real -> real, read: FilePath -> Option<Table>)
    requires forall x :: x in all ==> Found(x)
    requires Sorting.Sorted(all, RecordOrder)
    ensures Plotted(all, animal, ppf, read) == SessionsOf(all, animal, ppf, read)
  {
    SessionsFollowRecordOrder(all, animal, ppf, read);
    Sorting.SortBySorted(SessionsOf(all, animal, ppf, read), SessionKey);
  }

  /** One step of `SessionsOf`: the last file adds its summary, if any. */
  lemma SessionsOfSnoc(all: seq<Recording>, animal: string, ppf: real -> real, read: FilePath -> Option<Table>)
    requires all != []
    ensures SessionsOf(all, animal, ppf, read)
            == Append(SessionsOf(all[..|all| - 1], animal, ppf, read),
                      if all[|all| - 1].animal == animal then SessionOf(all[|all| - 1], ppf, read) else None)
  {
  }

  lemma {:induction false} SessionsFollowRecordOrder(all: seq<Recording>, animal: string, ppf: real -> real, read: FilePath -> Option<Table>)
    requires forall x :: x in all ==> Found(x)
    requires Sorting.Sorted(all, RecordOrder)
    ensures Sorting.SortedBy(SessionsOf(all, animal, ppf, read), SessionKey)
  {
    if all != [] {
      var last := |all| - 1;
      var earlier := all[..last];
      FoundSortedInit(all);
      SessionsFollowRecordOrder(earlier, animal, ppf, read);
      var ss := SessionsOf(earlier, animal, ppf, read);
      SessionsOfSnoc(all, animal, ppf, read);
      if all[last].animal == animal && SessionOf(all[last], ppf, read).Some? {
        var s := SessionOf(all[last], ppf, read).value;
        EarlierSessionsAreNotLater(all, animal, ppf, read);
        AppendKeepsSortedBy(ss, s);
      }
    }
  }

  /** Dropping the last recording keeps the list found and in order. */
  lemma FoundSortedInit(all: seq<Recording>)
    requires all != [] && (forall x :: x in all ==> Found(x)) && Sorting.Sorted(all, RecordOrder)
    ensures var earlier := all[..|all| - 1];
            (forall x :: x in earlier ==> Found(x)) && Sorting.Sorted(earlier, RecordOrder)
  {
    var earlier := all[..|all| - 1];
    forall i, j | 0 <= i < j < |earlier| ensures RecordOrder(earlier[i], earlier[j]) {
      assert earlier[i] == all[i] && earlier[j] == all[j];
    }
    forall x | x in earlier ensures Found(x) {
      var k :| 0 <= k < |earlier| && earlier[k] == x;
      assert all[k] == x;
    }
  }

  lemma EarlierSessionsAreNotLater(all: seq<Recording>, animal: string, ppf: real -> real, read: FilePath -> Option<Table>)
    requires forall x :: x in all ==> Found(x)
    requires Sorting.Sorted(all, RecordOrder)
    requires all != [] && all[|all| - 1].animal == animal && SessionOf(all[|all| - 1], ppf, read).Some?
    ensures forall e :: e in SessionsOf(all[..|all| - 1], animal, ppf, read) ==>
              SessionKey(e) <= SessionKey(SessionOf(all[|all| - 1], ppf, read).value)
  {
    var last := |all| - 1;
    var earlier := all[..last];
    FoundSessionDate(all[last], ppf, read);
    SessionsOfAreSessions(earlier, animal, ppf, read);
    forall e | e in SessionsOf(earlier, animal, ppf, read)
      ensures SessionKey(e) <= SessionKey(SessionOf(all[last], ppf, read).value)
    {
      var k :| 0 <= k < |earlier| && earlier[k] == e.recording;
      assert RecordOrder(all[k], all[last]);
      LexLessTrichotomy(animal, animal);
      FoundSessionDate(e.recording, ppf, read);
    }
  }

  lemma AppendKeepsSortedBy(ss: seq<Session>, s: Session)
    requires Sorting.SortedBy(ss, SessionKey)
    requires forall e :: e in ss ==> SessionKey(e) <= SessionKey(s)
    ensures Sorting.SortedBy(ss + [s], SessionKey)
  {
    var out := ss + [s];
    forall i, j | 0 <= i < j < |out| ensures SessionKey(out[i]) <= SessionKey(out[j]) {
      if j == |ss| {
        assert out[i] in ss;
      } else {
        assert out[i] == ss[i] && out[j] == ss[j];
      }
    }
  }

  /**
   * The figures `run_for_animals` draws, in the order the animals are
   * requested: one for each requested animal with a session to plot, holding
   * its sessions in date order. An animal with no file, or none that loads,
   * draws nothing.
   */
  function Plots(found: seq<Recording>, animalIds: seq<string>, ppf: real -> real, read: FilePath -> Option<Table>)
    : (plots: seq<(string, seq<Session>)>)
    ensures |plots| <= |animalIds|
    decreases |animalIds|
  {
    if animalIds == [] then []
    else
      var animal := animalIds[|animalIds| - 1];
      var sessions := Plotted(found, animal, ppf, read);
      Plots(found, animalIds[..|animalIds| - 1], ppf, read) + (if sessions != [] then [(animal, sessions)] else [])
  }

  /**
   * An animal gets a figure exactly when it was requested and has sessions
   * to plot, and the figure holds exactly its sessions in date order.
   */
  /** One step of `Plots`: the last requested animal adds its figure when it has sessions. */
  lemma PlotsSnoc(found: seq<Recording>, animalIds: seq<string>, ppf: real -> real, read: FilePath -> Option<Table>)
    requires animalIds != []
    ensures var last := animalIds[|animalIds| - 1];
            var sessions := Plotted(found, last, ppf, read);
            Plots(found, animalIds, ppf, read)
            == Plots(found, animalIds[..|animalIds| - 1], ppf, read) + (if sessions != [] then [(last, sessions)] else [])
  {
  }

  lemma {:induction false} PlotsMeaning(found: seq<Recording>, animalIds: seq<string>, ppf: real -> real,
                                        read: FilePath -> Option<Table>, animal: string, sessions: seq<Session>)
    ensures (animal, sessions) in Plots(found, animalIds, ppf, read) <==>
              animal in animalIds && sessions == Plotted(found, animal, ppf, read) && sessions != []
    decreases |animalIds|
  {
    if animalIds != [] {
      var init := animalIds[..|animalIds| - 1];
      var last := animalIds[|animalIds| - 1];
      PlotsMeaning(found, init, ppf, read, animal, sessions);
      PlotsSnoc(found, animalIds, ppf, read);
      assert animalIds == init + [last];
      assert animal in animalIds <==> animal in init || animal == last;
    }
  }

  /** The loop over the requested animals: those with sessions to plot, with their sessions. */
  method PlotAnimals(found: seq<Recording>, animalIds: seq<string>, ppf: real -> real, read: FilePath -> Option<Table>)
    returns (plots: seq<(string, seq<Session>)>)
    ensures plots == Plots(found, animalIds, ppf, read)
  {
    plots := [];
    var i := 0;
    while i < |animalIds|
      invariant 0 <= i <= |animalIds|
      invariant plots == Plots(found, animalIds[..i], ppf, read)
    {
      assert animalIds[..i + 1][..i] == animalIds[..i];
      var sessions := RunForAnimal(found, animalIds[i], ppf, read);
      if sessions != [] {
        plots := plots + [(animalIds[i], sessions)];
      }
      i := i + 1;
    }
    assert animalIds[..i] == animalIds;
  }

  /**
   * `run_for_animals`: a `find_files` failure ends the run; otherwise every
   * requested animal that has at least one session to plot, in request
   * order, with its sessions.
   */
  method RunForAnimals(files: seq<FilePath>, interest: seq<string>, animalIds: seq<string>,
                       ppf: real -> real, read: FilePath -> Option<Table>)
    returns (r: Result<seq<(string, seq<Session>)>, FindError>)
    ensures r.Err? <==> Collect(files, interest).Err? || Collect(files, interest).value == []
    ensures r.Ok? ==> r.value == Plots(SortRecords(Collect(files, interest).value), animalIds, ppf, read)
  {
    var found := FindFiles(files, interest);
    if found.Err? {
      return Err(found.error);
    }
    var plots := PlotAnimals(found.value, animalIds, ppf, read);
    return Ok(plots);
  }
}
