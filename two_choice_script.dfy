/**
 * 2choice.py: the single-session script for the two-choice auditory task.
 * It reads the protocol, animal, date and box from the file name by
 * splitting on "_", fills missing cells with 0, classifies every trial with
 * the six overwrite passes, and counts the outcome bars over the 5 kHz and
 * 10 kHz tones.
 */
module TwoChoiceScript {
  import opened Wrappers
  import opened Tables
  import opened Text
  import Names
  import Classification
  import Outcomes
  import GeneralSessions

  /** `protocol_raw`, `animal`, `date` and `box` of the script. */
  datatype FileFields = FileFields(protocol: string, animal: string, date: string, box: string)

  /**
   * What stops the script: a name with fewer than three "_"-separated parts
   * (`IndexError`), a column it reads that the file lacks (`KeyError`), or a
   * session without a classified trial, whose NaN trial range `set_xlim`
   * refuses (`ValueError`).
   */
  datatype ScriptError = TooFewParts | MissingColumn(column: Column) | NoClassifiedTrial

  /**
   * `filename.replace(".csv", "").split("_")`, then parts 0, 1, 2 and the
   * last one.
   */
  function FilenameFields(fileName: string): (r: Result<FileFields, ScriptError>)
    ensures r.Err? <==> |Split(ReplaceAll(fileName, ".csv", ""), '_')| < 3
    ensures r.Ok? ==> !Contains(r.value.protocol, '_') && !Contains(r.value.animal, '_')
                      && !Contains(r.value.date, '_') && !Contains(r.value.box, '_')
  {
    var parts := Split(ReplaceAll(fileName, ".csv", ""), '_');
    if |parts| < 3 then Err(TooFewParts)
    else Ok(FileFields(parts[0], parts[1], parts[2], parts[|parts| - 1]))
  }

  /** `name.replace(".csv", "")` and the split give back the name's own parts, then the fields pick them. */
  lemma FilenameFieldsOfParts(parts: seq<string>)
    requires |parts| >= 3
    requires forall k :: 0 <= k < |parts| ==> !Contains(parts[k], '_') && !Contains(parts[k], '.')
    ensures FilenameFields(Join(parts, '_') + ".csv")
            == Ok(FileFields(parts[0], parts[1], parts[2], parts[|parts| - 1]))
  {
    var s := Join(parts, '_');
    JoinHasNoDot(parts);
    ReplaceCsvExtension(s, "");
    assert s + "" == s;
    SplitJoin(parts, '_');
    FieldsOfSplit(s + ".csv", parts);
  }

  lemma FieldsOfSplit(fileName: string, parts: seq<string>)
    requires |parts| >= 3 && Split(ReplaceAll(fileName, ".csv", ""), '_') == parts
    ensures FilenameFields(fileName) == Ok(FileFields(parts[0], parts[1], parts[2], parts[|parts| - 1]))
  {
  }

  lemma ContainsAppend(a: string, b: string, c: char)
    ensures Contains(a + b, c) <==> Contains(a, c) || Contains(b, c)
  {
    if Contains(a + b, c) {
      var i :| 0 <= i < |a + b| && (a + b)[i] == c;
      if i >= |a| { assert b[i - |a|] == c; }
    }
    if Contains(a, c) {
      var i :| 0 <= i < |a| && a[i] == c;
      assert (a + b)[i] == c;
    }
    if Contains(b, c) {
      var i :| 0 <= i < |b| && b[i] == c;
      assert (a + b)[|a| + i] == c;
    }
  }

  lemma {:induction false} JoinHasNoDot(parts: seq<string>)
    requires |parts| >= 1
    requires forall k :: 0 <= k < |parts| ==> !Contains(parts[k], '.')
    ensures !Contains(Join(parts, '_'), '.')
  {
    if |parts| > 1 {
      JoinHasNoDot(parts[1..]);
      ContainsAppend(parts[0], ['_'], '.');
      ContainsAppend(parts[0] + ['_'], Join(parts[1..], '_'), '.');
    }
  }

  /**
   * The split agrees with the session-name pattern of the summary scripts
   * on a well-formed name whose box has no "_": the animal and the date are
   * the pattern's groups, and the script's box is "box" followed by the
   * pattern's box group.
   */
  lemma SplitAgreesWithSessionPattern(n: Names.SessionName, tag: string)
    requires Names.WellFormedSession(n) && EqualIgnoreCase(tag, "box")
    requires !Contains(n.protocol, '.') && !Contains(n.box, '_')
    ensures FilenameFields(Names.SessionText(n, tag) + ".csv")
            == Ok(FileFields(n.protocol, n.animal, n.date, tag + n.box))
    ensures Names.ExtractMetadata(Names.SessionText(n, tag) + ".csv") == Ok((n.date, n.box))
  {
    var parts := [n.protocol, n.animal, n.date, n.time, tag + n.box];
    JoinSessionParts(n, tag);
    NoSeparator(n.protocol, n.animal, n.date, n.time, tag, n.box);
    FilenameFieldsOfParts(parts);
    Names.ExtractMetadataOfSessionFile(n, tag);
  }

  lemma JoinSessionParts(n: Names.SessionName, tag: string)
    ensures Join([n.protocol, n.animal, n.date, n.time, tag + n.box], '_') == Names.SessionText(n, tag)
  {
    var parts := [n.protocol, n.animal, n.date, n.time, tag + n.box];
    var p4 := parts[1..][1..][1..][1..];
    assert p4 == [tag + n.box];
    assert Join(p4, '_') == tag + n.box;
    assert Join(parts[1..][1..][1..], '_') == n.time + "_" + (tag + n.box);
    assert Join(parts[1..][1..], '_') == n.date + "_" + (n.time + "_" + (tag + n.box));
    assert Join(parts[1..], '_') == n.animal + "_" + (n.date + "_" + (n.time + "_" + (tag + n.box)));
  }

  lemma NoSeparator(protocol: string, animal: string, date: string, time: string, tag: string, box: string)
    requires All(protocol, Names.NotUnderscore) && !Contains(protocol, '.')
    requires AllDigits(animal) && AllDigits(date) && AllDigits(time)
    requires EqualIgnoreCase(tag, "box") && All(box, IsWordChar) && !Contains(box, '_')
    ensures var parts := [protocol, animal, date, time, tag + box];
            forall k :: 0 <= k < |parts| ==> !Contains(parts[k], '_') && !Contains(parts[k], '.')
  {
    forall i | 0 <= i < |tag| ensures tag[i] != '_' && tag[i] != '.' {
      assert Lower(tag[i]) == Lower("box"[i]);
    }
    ContainsAppend(tag, box, '_');
    ContainsAppend(tag, box, '.');
    assert !Contains(box, '.') by {
      forall i | 0 <= i < |box| ensures box[i] != '.' { assert IsWordChar(box[i]); }
    }
  }

  // ---- the script body ----

  /** The columns the script reads, in the order it first reads them. */
  const ScriptColumns: seq<Column> :=
    [TrialStart, LickTime, LeftSpout, RightSpout, Reward, EarlyLick, Omission, Punishment, TrialNumber, Tone5k, Tone10k]

  /** What the figure is drawn from. */
  datatype ScriptOutput = ScriptOutput(
    fields: FileFields,
    categories: seq<Option<Classification.Category>>,
    sorted: seq<Row>, minTrial: Option<int>, maxTrial: Option<int>,
    bars: Outcomes.Bars)

  /**
   * The script: file-name fields, `fillna(0)`, the category column, the
   * sorted plot rows with their trial range, and the nine bars. Missing
   * cells change neither the categories nor the bars. The script stops at
   * the first of its three failures: the name, a column, an empty plot.
   */
  method RunScript(fileName: string, t: Table) returns (r: Result<ScriptOutput, ScriptError>)
    ensures r.Err? <==> FilenameFields(fileName).Err? || GeneralSessions.FirstMissing(t.columns, ScriptColumns).Some?
                        || Classification.Classified(FillNa(t).rows) == []
    ensures r.Err? && r.error.TooFewParts? <==> FilenameFields(fileName).Err?
    ensures r.Err? && r.error.MissingColumn? ==> FilenameFields(fileName).Ok? && r.error.column !in t.columns
    ensures r.Err? && r.error.MissingColumn? ==> GeneralSessions.MissingFirst(t.columns, ScriptColumns, r.error.column)
    ensures r.Err? && r.error.NoClassifiedTrial? <==>
              FilenameFields(fileName).Ok? && GeneralSessions.FirstMissing(t.columns, ScriptColumns).None?
              && Classification.Classified(FillNa(t).rows) == []
    ensures r.Ok? ==> r.value.fields == FilenameFields(fileName).value
    ensures r.Ok? ==> |r.value.categories| == |t.rows|
                      && forall i :: 0 <= i < |t.rows| ==> r.value.categories[i] == Classification.CategoryOf(t.rows[i])
    ensures r.Ok? ==> r.value.sorted == Classification.SortedClassified(FillNa(t).rows)
    ensures r.Ok? ==> r.value.minTrial == Classification.MinTrial(Classification.Classified(FillNa(t).rows))
                      && r.value.maxTrial == Classification.MaxTrial(Classification.Classified(FillNa(t).rows))
    ensures r.Ok? ==> r.value.minTrial.Some? && r.value.maxTrial.Some?
    ensures r.Ok? ==> r.value.bars == Outcomes.SessionBars(t.rows, Tone5k, Tone10k)
  {
    var fields := FilenameFields(fileName);
    if fields.Err? {
      return Err(fields.error);
    }
    var missing := GeneralSessions.FirstMissing(t.columns, ScriptColumns);
    if missing.Some? {
      return Err(MissingColumn(missing.value));
    }
    if Classification.Classified(FillNa(t).rows) == [] {
      return Err(NoClassifiedTrial);
    }
    var out := Draw(fields.value, t);
    return Ok(out);
  }

  /** The figure of a file that has every column the script reads. */
  method Draw(fields: FileFields, t: Table) returns (out: ScriptOutput)
    ensures out.fields == fields
    ensures |out.categories| == |t.rows|
            && forall i :: 0 <= i < |t.rows| ==> out.categories[i] == Classification.CategoryOf(t.rows[i])
    ensures out.sorted == Classification.SortedClassified(FillNa(t).rows)
    ensures out.minTrial == Classification.MinTrial(Classification.Classified(FillNa(t).rows))
            && out.maxTrial == Classification.MaxTrial(Classification.Classified(FillNa(t).rows))
    ensures out.bars == Outcomes.SessionBars(t.rows, Tone5k, Tone10k)
  {
    var rows := FillNa(t).rows;
    var categories := CategoryColumn(t);
    var plot := Classification.Classified(rows);
    BarsIgnoreFill(t);
    out := ScriptOutput(fields, categories, Classification.SortedClassified(rows),
                        Classification.MinTrial(plot), Classification.MaxTrial(plot),
                        Outcomes.SessionBars(rows, Tone5k, Tone10k));
  }

  /** `df["category"]`, written by the six passes over the filled table. */
  method CategoryColumn(t: Table) returns (categories: seq<Option<Classification.Category>>)
    ensures |categories| == |t.rows|
            && forall i :: 0 <= i < |t.rows| ==> categories[i] == Classification.CategoryOf(t.rows[i])
  {
    var category := Classification.Categorize(FillNa(t).rows);
    categories := category[..];
    CategoriesIgnoreFill(t);
  }

  /** `fillna(0)` changes no trial's category. */
  lemma CategoriesIgnoreFill(t: Table)
    ensures forall i :: 0 <= i < |t.rows| ==>
              Classification.CategoryOf(FillNa(t).rows[i]) == Classification.CategoryOf(t.rows[i])
  {
    forall i | 0 <= i < |t.rows|
      ensures Classification.CategoryOf(FillNa(t).rows[i]) == Classification.CategoryOf(t.rows[i])
    {
      Classification.CategoryIgnoresFill(t.rows[i], t.columns);
    }
  }

  /** `fillna(0)` changes none of the nine bars: a NaN flag is not 1, and neither is the 0 put there. */
  lemma BarsIgnoreFill(t: Table)
    ensures Outcomes.SessionBars(FillNa(t).rows, Tone5k, Tone10k) == Outcomes.SessionBars(t.rows, Tone5k, Tone10k)
  {
    GeneralSessions.FilledCountFlag(t, Tone5k);
    GeneralSessions.FilledCountFlag(t, Tone10k);
    GeneralSessions.FilledCountFlag(t, EarlyLick);
    GeneralSessions.FilledCountBoth(t, Omission, Tone5k);
    GeneralSessions.FilledCountBoth(t, Omission, Tone10k);
    GeneralSessions.FilledCountBoth(t, LeftSpout, Reward);
    GeneralSessions.FilledCountBoth(t, LeftSpout, Punishment);
    GeneralSessions.FilledCountBoth(t, RightSpout, Reward);
    GeneralSessions.FilledCountBoth(t, RightSpout, Punishment);
  }
}
