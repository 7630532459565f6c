/**
 * analyze_2choice_auditory.py: `analyze` for one two-choice auditory
 * session, called with the animal, date and box the daily launcher parsed.
 * It fills missing cells with 0, classifies every trial with the six
 * overwrite passes, and counts the outcome bars over the 5 kHz and 10 kHz
 * tones, as the single-session script does once it has split the file name.
 */
module TwoChoiceAnalysis {
  import opened Wrappers
  import opened Tables
  import Classification
  import Outcomes
  import GeneralSessions
  import TwoChoiceScript
  import Sorting

  /** What the figure of `analyze` is drawn from. */
  datatype Figure = Figure(
    categories: seq<Option<Classification.Category>>,
    sorted: seq<Row>, minTrial: Option<int>, maxTrial: Option<int>,
    bars: Outcomes.Bars)

  /**
   * What ends `analyze` with an exception: a column it reads that the file
   * lacks (`KeyError`), or a session without a classified trial, whose NaN
   * trial range `ax0.set_xlim` refuses (`ValueError`).
   */
  datatype AnalysisError = MissingColumn(column: Column) | NoClassifiedTrial

  /**
   * `analyze`: a column it reads that the file lacks raises `KeyError` at its
   * first use, in the order the single-session script reads them too; a
   * session none of whose trials gets a category raises at `set_xlim`;
   * otherwise every trial gets its priority-rule category, the classified
   * trials are plotted in trial-number order between their smallest and
   * largest trial number, and the nine bars count the raw flags.
   */
  method Analyze(t: Table) returns (r: Result<Figure, AnalysisError>)
    ensures r.Err? && r.error.MissingColumn? <==>
              exists k :: 0 <= k < |TwoChoiceScript.ScriptColumns| && TwoChoiceScript.ScriptColumns[k] !in t.columns
    ensures r.Err? && r.error.MissingColumn? ==> r.error.column in TwoChoiceScript.ScriptColumns && r.error.column !in t.columns
    ensures r.Err? && r.error.MissingColumn? ==> GeneralSessions.MissingFirst(t.columns, TwoChoiceScript.ScriptColumns, r.error.column)
    ensures r.Err? && r.error.NoClassifiedTrial? <==>
              (forall k :: 0 <= k < |TwoChoiceScript.ScriptColumns| ==> TwoChoiceScript.ScriptColumns[k] in t.columns)
              && Classification.Classified(FillNa(t).rows) == []
    ensures r.Ok? ==> |r.value.categories| == |t.rows|
                      && forall i :: 0 <= i < |t.rows| ==> r.value.categories[i] == Classification.CategoryOf(t.rows[i])
    ensures r.Ok? ==> Sorting.SortedBy(r.value.sorted, Classification.TrialKey)
                      && multiset(r.value.sorted) == multiset(Classification.Classified(FillNa(t).rows))
    ensures r.Ok? ==> r.value.minTrial == Classification.MinTrial(Classification.Classified(FillNa(t).rows))
                      && r.value.maxTrial == Classification.MaxTrial(Classification.Classified(FillNa(t).rows))
    ensures r.Ok? ==> r.value.minTrial.Some? && r.value.maxTrial.Some?
    ensures r.Ok? ==> r.value.bars == Outcomes.SessionBars(t.rows, Tone5k, Tone10k)
  {
    var missing := GeneralSessions.FirstMissing(t.columns, TwoChoiceScript.ScriptColumns);
    if missing.Some? {
      return Err(MissingColumn(missing.value));
    }
    var rows := FillNa(t).rows;
    var categories := TwoChoiceScript.CategoryColumn(t);
    var plot := Classification.Classified(rows);
    if plot == [] {
      return Err(NoClassifiedTrial);
    }
    TwoChoiceScript.BarsIgnoreFill(t);
    var figure := Figure(categories, Classification.SortedClassified(rows),
                         Classification.MinTrial(plot), Classification.MaxTrial(plot),
                         Outcomes.SessionBars(rows, Tone5k, Tone10k));
    return Ok(figure);
  }
}
