/**
 * run_daily_analysis.py: for every animal folder with a `Behavior` folder,
 * and every date folder in it that has no `Analysis/<date>` folder yet, the
 * first data file whose stem matches the session pattern and whose protocol
 * has a script is analysed by that script, and the date is then marked as
 * analysed by its `Analysis/<date>` folder.
 */
module Daily {
  import opened Wrappers
  import opened Text
  import Names

  /** `protocol_to_script`. */
  const Scripts: map<string, string> := map[
    "FreeLick" := "analyze_free_licking.py",
    "SpoutSamp" := "analyze_spout_sampling.py",
    "2ChoiceAuditory" := "analyze_2choice_auditory.py",
    "AdaptSensorimotor" := "analyze_adapt_sensorimotor.py"]

  /**
   * `filename_regex.match`: `Names.MatchSessionName` in the walk; the walk's
   * properties hold for any matcher.
   */
  type Matcher = string -> Option<Names.SessionMatch>

  /** A data file the walk can analyse: its stem matches and its protocol group is a key of `Scripts`. */
  predicate Runnable(matcher: Matcher, file: string)
  {
    var m := matcher(Stem(file));
    m.Some? && m.value.groups.protocol in Scripts
  }

  /**
   * One `subprocess.run`: the script, the file (by animal folder, date
   * folder and name), the animal, date and box groups, and the output
   * folder `Analysis/<date folder>` of the animal folder.
   */
  datatype Launch = Launch(script: string, animalDir: string, dateDir: string, file: string,
                           animal: string, date: string, box: string)

  function LaunchOf(matcher: Matcher, animalDir: string, dateDir: string, file: string): Launch
    requires Runnable(matcher, file)
  {
    var g := matcher(Stem(file)).value.groups;
    Launch(Scripts[g.protocol], animalDir, dateDir, file, g.animal, g.date, g.box)
  }

  /** The index of the first runnable file, in listing order. */
  function FirstRunnable(matcher: Matcher, files: seq<string>): (r: Option<nat>)
    ensures r.None? <==> forall i :: 0 <= i < |files| ==> !Runnable(matcher, files[i])
    ensures r.Some? ==> r.value < |files| && Runnable(matcher, files[r.value])
                        && forall j :: 0 <= j < r.value ==> !Runnable(matcher, files[j])
  {
    if files == [] then None
    else if Runnable(matcher, files[0]) then Some(0)
    else match FirstRunnable(matcher, files[1..])
      case None => None
      case Some(i) => Some(i + 1)
  }

  /** The first runnable file is the one before which none is runnable. */
  lemma {:induction false} FirstRunnableAt(matcher: Matcher, files: seq<string>, i: nat)
    requires i < |files| && Runnable(matcher, files[i])
    requires forall j :: 0 <= j < i ==> !Runnable(matcher, files[j])
    ensures FirstRunnable(matcher, files) == Some(i)
  {
    if i > 0 {
      FirstRunnableAt(matcher, files[1..], i - 1);
    }
  }

  /** A date folder: its name, whether it is a directory, and the files `glob("*_*_*_box*.csv")` lists. */
  datatype DateDir = DateDir(name: string, isDir: bool, dataFiles: seq<string>)

  /** An animal folder: its name, whether it is a directory, and its `Behavior` folder's entries if it exists. */
  datatype AnimalDir = AnimalDir(name: string, isDir: bool, behavior: Option<seq<DateDir>>)

  /** The launch for one date folder, given the `Analysis/<date>` folders that exist. */
  function DateStep(matcher: Matcher, animalDir: string, d: DateDir, analyzed: set<(string, string)>): Option<Launch>
  {
    if !d.isDir || (animalDir, d.name) in analyzed then None
    else match FirstRunnable(matcher, d.dataFiles)
      case None => None
      case Some(i) => Some(LaunchOf(matcher, animalDir, d.name, d.dataFiles[i]))
  }

  /** The date folders of one animal in listing order, with the `Analysis/<date>` folders made along the way. */
  function DatesWalk(matcher: Matcher, animalDir: string, dates: seq<DateDir>, analyzed: set<(string, string)>): (seq<Launch>, set<(string, string)>)
    decreases |dates|
  {
    if dates == [] then ([], analyzed)
    else
      var (ls, a) := DatesWalk(matcher, animalDir, dates[..|dates| - 1], analyzed);
      var d := dates[|dates| - 1];
      match DateStep(matcher, animalDir, d, a)
      case None => (ls, a)
      case Some(l) => (ls + [l], a + {(animalDir, d.name)})
  }

  /** The launches so far, the animals with an `Analysis` folder, and the `Analysis/<date>` folders. */
  datatype WalkState = WalkState(launches: seq<Launch>, analysisDirs: set<string>, analyzed: set<(string, string)>)

  /** `analyze_new_data` over the animal folders in listing order. */
  function Walk(matcher: Matcher, animals: seq<AnimalDir>, analysisDirs: set<string>, analyzed: set<(string, string)>): WalkState
    decreases |animals|
  {
    if animals == [] then WalkState([], analysisDirs, analyzed)
    else
      var w := Walk(matcher, animals[..|animals| - 1], analysisDirs, analyzed);
      var x := animals[|animals| - 1];
      if !x.isDir || x.behavior.None? then w
      else
        var (ls, a) := DatesWalk(matcher, x.name, x.behavior.value, w.analyzed);
        WalkState(w.launches + ls, w.analysisDirs + {x.name}, a)
  }

  /** The `Analysis` folders of the data directory and their date subfolders. */
  class AnalysisTree {
    var analysisDirs: set<string>
    var analyzed: set<(string, string)>

    constructor(analysisDirs: set<string>, analyzed: set<(string, string)>)
      ensures this.analysisDirs == analysisDirs && this.analyzed == analyzed
    {
      this.analysisDirs := analysisDirs;
      this.analyzed := analyzed;
    }

    /** The inner loop over the data files: the first one with a script, then `break`. */
    method SelectFile(matcher: Matcher, animalDir: string, d: DateDir) returns (launch: Option<Launch>)
      requires d.isDir
      ensures launch == (match FirstRunnable(matcher, d.dataFiles)
                         case None => None
                         case Some(i) => Some(LaunchOf(matcher, animalDir, d.name, d.dataFiles[i])))
    {
      launch := None;
      var files := d.dataFiles;
      for i := 0 to |files|
        invariant forall j :: 0 <= j < i ==> !Runnable(matcher, files[j])
        invariant launch.None?
      {
        var m := matcher(Stem(files[i]));
        if m.None? {
          continue;
        }
        var g := m.value.groups;
        if g.protocol !in Scripts {
          continue;
        }
        launch := Some(Launch(Scripts[g.protocol], animalDir, d.name, files[i], g.animal, g.date, g.box));
        FirstRunnableAt(matcher, files, i);
        return;
      }
    }

    /** The loop over one animal's date folders. */
    method AnalyzeDates(matcher: Matcher, animalDir: string, dates: seq<DateDir>) returns (launches: seq<Launch>)
      modifies this
      ensures analysisDirs == old(analysisDirs)
      ensures (launches, analyzed) == DatesWalk(matcher, animalDir, dates, old(analyzed))
    {
      launches := [];
      for k := 0 to |dates|
        invariant analysisDirs == old(analysisDirs)
        invariant (launches, analyzed) == DatesWalk(matcher, animalDir, dates[..k], old(analyzed))
      {
        assert dates[..k + 1][..k] == dates[..k];
        var d := dates[k];
        if !d.isDir || (animalDir, d.name) in analyzed {
          continue;
        }
        var launch := SelectFile(matcher, animalDir, d);
        if launch.Some? {
          analyzed := analyzed + {(animalDir, d.name)};
          launches := launches + [launch.value];
        }
      }
      assert dates[..|dates|] == dates;
    }

    /**
     * `analyze_new_data`: the launches, with the `Analysis` folders it makes.
     * The script's matcher is `Names.MatchSessionName`.
     */
    method AnalyzeNewData(matcher: Matcher, animals: seq<AnimalDir>) returns (launches: seq<Launch>)
      modifies this
      ensures WalkState(launches, analysisDirs, analyzed) == Walk(matcher, animals, old(analysisDirs), old(analyzed))
    {
      launches := [];
      for k := 0 to |animals|
        invariant WalkState(launches, analysisDirs, analyzed) == Walk(matcher, animals[..k], old(analysisDirs), old(analyzed))
      {
        assert animals[..k + 1][..k] == animals[..k];
        var x := animals[k];
        if !x.isDir || x.behavior.None? {
          continue;
        }
        analysisDirs := analysisDirs + {x.name};
        var more := AnalyzeDates(matcher, x.name, x.behavior.value);
        launches := launches + more;
      }
      assert animals[..|animals|] == animals;
    }
  }

  // ---- what the walk promises ----

  function Key(l: Launch): (string, string) { (l.animalDir, l.dateDir) }

  /** The `Analysis/<date>` folders the launches make. */
  function Outputs(ls: seq<Launch>): set<(string, string)>
  {
    set l | l in ls :: Key(l)
  }

  /**
   * Per animal: a date folder already analysed is skipped, each launch
   * makes its own `Analysis/<date>` folder and no other folder is made, and
   * no date folder is analysed twice.
   */
  lemma {:induction false} DatesWalkFresh(matcher: Matcher, animalDir: string, dates: seq<DateDir>, analyzed: set<(string, string)>)
    ensures var (ls, a) := DatesWalk(matcher, animalDir, dates, analyzed);
            && a == analyzed + Outputs(ls)
            && (forall i :: 0 <= i < |ls| ==> Key(ls[i]) !in analyzed && ls[i].animalDir == animalDir)
            && (forall i, j :: 0 <= i < j < |ls| ==> Key(ls[i]) != Key(ls[j]))
    decreases |dates|
  {
    if dates != [] {
      var init := dates[..|dates| - 1];
      DatesWalkFresh(matcher, animalDir, init, analyzed);
      var (ls, a) := DatesWalk(matcher, animalDir, init, analyzed);
      var d := dates[|dates| - 1];
      var step := DateStep(matcher, animalDir, d, a);
      if step.Some? {
        var l := step.value;
        assert Key(l) == (animalDir, d.name) && Key(l) !in a;
        var ls' := ls + [l];
        assert Outputs(ls') == Outputs(ls) + {Key(l)} by {
          assert forall x :: x in ls' <==> x in ls || x == l;
        }
        forall i | 0 <= i < |ls| ensures Key(ls[i]) != Key(l) {
          assert ls[i] in ls;
        }
      }
    }
  }

  /**
   * Over the whole walk: the `Analysis/<date>` folders made are exactly the
   * launches' output folders, none existed before, no date folder of an
   * animal is analysed twice, and an `Analysis` folder is made for every
   * animal folder with a `Behavior` folder and for no other.
   */
  lemma {:induction false} WalkFresh(matcher: Matcher, animals: seq<AnimalDir>, analysisDirs: set<string>, analyzed: set<(string, string)>)
    ensures var w := Walk(matcher, animals, analysisDirs, analyzed);
            && w.analyzed == analyzed + Outputs(w.launches)
            && (forall i :: 0 <= i < |w.launches| ==> Key(w.launches[i]) !in analyzed)
            && (forall i, j :: 0 <= i < j < |w.launches| ==> Key(w.launches[i]) != Key(w.launches[j]))
            && w.analysisDirs == analysisDirs + set x | x in animals && x.isDir && x.behavior.Some? :: x.name
    decreases |animals|
  {
    if animals != [] {
      var init := animals[..|animals| - 1];
      var x := animals[|animals| - 1];
      WalkFresh(matcher, init, analysisDirs, analyzed);
      var w := Walk(matcher, init, analysisDirs, analyzed);
      assert forall y :: y in animals <==> y in init || y == x;
      if x.isDir && x.behavior.Some? {
        DatesWalkFresh(matcher, x.name, x.behavior.value, w.analyzed);
        var (ls, a) := DatesWalk(matcher, x.name, x.behavior.value, w.analyzed);
        var all := w.launches + ls;
        assert Outputs(all) == Outputs(w.launches) + Outputs(ls) by {
          assert forall l :: l in all <==> l in w.launches || l in ls;
        }
        forall i, j | 0 <= i < j < |all| ensures Key(all[i]) != Key(all[j]) {
          if j >= |w.launches| && i < |w.launches| {
            assert all[i] in w.launches;
            assert Key(all[j]) == Key(ls[j - |w.launches|]);
          }
        }
      }
    }
  }

  /** The launch is the one the date folder's first runnable file asks for. */
  predicate SelectedIn(matcher: Matcher, d: DateDir, l: Launch)
  {
    var i := FirstRunnable(matcher, d.dataFiles);
    d.isDir && d.name == l.dateDir && i.Some? && l == LaunchOf(matcher, l.animalDir, d.name, d.dataFiles[i.value])
  }

  predicate LaunchedFrom(matcher: Matcher, x: AnimalDir, l: Launch)
  {
    x.isDir && x.behavior.Some? && x.name == l.animalDir && exists d :: d in x.behavior.value && SelectedIn(matcher, d, l)
  }

  lemma {:induction false} DatesWalkSelects(matcher: Matcher, animalDir: string, dates: seq<DateDir>, analyzed: set<(string, string)>)
    ensures forall l :: l in DatesWalk(matcher, animalDir, dates, analyzed).0 ==>
              l.animalDir == animalDir && exists d :: d in dates && SelectedIn(matcher, d, l)
    decreases |dates|
  {
    if dates != [] {
      var init := dates[..|dates| - 1];
      DatesWalkSelects(matcher, animalDir, init, analyzed);
      var (ls, a) := DatesWalk(matcher, animalDir, init, analyzed);
      var d := dates[|dates| - 1];
      forall l | l in DatesWalk(matcher, animalDir, dates, analyzed).0
        ensures l.animalDir == animalDir && exists e :: e in dates && SelectedIn(matcher, e, l)
      {
        if l in ls {
          var e :| e in init && SelectedIn(matcher, e, l);
          assert e in dates;
        } else {
          assert DateStep(matcher, animalDir, d, a) == Some(l);
          assert SelectedIn(matcher, d, l);
        }
      }
    }
  }

  /**
   * Every launch is for the first file, in listing order, of a date folder
   * of a walked animal folder that matches the pattern and has a script.
   */
  lemma {:induction false} LaunchesAreFirstRunnable(matcher: Matcher, animals: seq<AnimalDir>, analysisDirs: set<string>, analyzed: set<(string, string)>)
    ensures forall l :: l in Walk(matcher, animals, analysisDirs, analyzed).launches ==>
              exists x :: x in animals && LaunchedFrom(matcher, x, l)
    decreases |animals|
  {
    if animals != [] {
      var init := animals[..|animals| - 1];
      var x := animals[|animals| - 1];
      LaunchesAreFirstRunnable(matcher, init, analysisDirs, analyzed);
      assert forall y :: y in init ==> y in animals;
      if x.isDir && x.behavior.Some? {
        var w := Walk(matcher, init, analysisDirs, analyzed);
        DatesWalkSelects(matcher, x.name, x.behavior.value, w.analyzed);
        var ls := DatesWalk(matcher, x.name, x.behavior.value, w.analyzed).0;
        forall l | l in w.launches + ls ensures exists y :: y in animals && LaunchedFrom(matcher, y, l) {
          if l in w.launches {
            var y :| y in init && LaunchedFrom(matcher, y, l);
            assert y in animals;
          } else {
            assert LaunchedFrom(matcher, x, l);
          }
        }
      }
    }
  }

  /**
   * A session file's launch carries the pattern's animal, date and box groups
   * unchanged, with the script its protocol maps to, whatever the case of
   * "box".
   */
  lemma LaunchArgumentsAreGroups(animalDir: string, dateDir: string, n: Names.SessionName, tag: string)
    requires Names.WellFormedSession(n) && EqualIgnoreCase(tag, "box") && n.protocol in Scripts
    ensures Runnable(Names.MatchSessionName, Names.SessionText(n, tag) + ".csv")
    ensures LaunchOf(Names.MatchSessionName, animalDir, dateDir, Names.SessionText(n, tag) + ".csv")
            == Launch(Scripts[n.protocol], animalDir, dateDir, Names.SessionText(n, tag) + ".csv", n.animal, n.date, n.box)
  {
    SessionStem(n, tag);
  }

  lemma SessionStem(n: Names.SessionName, tag: string)
    requires Names.WellFormedSession(n) && EqualIgnoreCase(tag, "box")
    ensures Names.MatchSessionName(Stem(Names.SessionText(n, tag) + ".csv")) == Some(Names.SessionMatch(n, tag, []))
  {
    Names.MatchSessionNameComplete(n, tag, []);
    assert Names.SessionText(n, tag) + [] == Names.SessionText(n, tag);
    StemOfCsv(Names.SessionText(n, tag));
  }

  /**
   * The pattern ignores case but the script lookup does not: a file whose
   * protocol is written in lower case is matched, yet has no script and is
   * passed over.
   */
  lemma LowerCaseProtocolHasNoScript(n: Names.SessionName, tag: string)
    requires Names.WellFormedSession(n) && EqualIgnoreCase(tag, "box")
    requires n.protocol == "freelick"
    ensures Names.MatchSessionName(Stem(Names.SessionText(n, tag) + ".csv")).Some?
    ensures !Runnable(Names.MatchSessionName, Names.SessionText(n, tag) + ".csv")
  {
    SessionStem(n, tag);
    NoLowerCaseKey();
  }

  lemma NoLowerCaseKey()
    ensures "freelick" !in Scripts
  {
    assert "freelick"[0] != "FreeLick"[0];
    assert |"freelick"| != |"SpoutSamp"| && |"freelick"| != |"2ChoiceAuditory"| && |"freelick"| != |"AdaptSensorimotor"|;
  }
}
