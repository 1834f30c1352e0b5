/**
 * `main`: resolve the submission's paths, stop at the first missing one,
 * sanity-check both runs, score the dev run and, when its judgments are on
 * disk, the test run, then optionally build the leaderboard entry.
 *
 * The filesystem is the set of paths that exist; reading a run, the scoring
 * tool and the score formatting are supplied by the environment. The printed
 * progress is modelled as a log of events.
 */
module Pipeline {
  import opened Wrappers
  import AutoOpen
  import Metric
  import Sanity
  import Paths
  import Record
  import Text

  const DevQrelsPath := "eval/msmarco-passage-dev-qrels.tsv"
  const TestQrelsPath := "eval/msmarco-passage-eval-qrels.tsv"

  /** What the pipeline reads from outside. */
  datatype Env = Env(
    existing: set<string>,                      // paths `os.path.exists` accepts
    runLines: string -> seq<string>,            // a run file's lines as iteration yields them, each with its `\n`
    metadata: Record.Metadata,                  // the parsed metadata file
    score: (string, string) -> Option<string>,  // the scoring tool's output for (judgments, run); None: non-zero exit
    formatScore: string -> Option<string>)      // `f'{round(float(x), 3):.3f}'`; None: not a number

  /** What the pipeline reports as it goes. */
  datatype Event =
    | DirectoryVerified(dir: string)
    | FilesVerified
    | SanityChecked(run: string, report: Sanity.Report)
    | ScorerInvoked(qrels: string, run: string)
    | Scored(run: string, mrr: string)
    | TestSkipped
    | RowEmitted(row: string)

  /** How a run of the pipeline ends. */
  datatype Outcome =
    | MissingDirectory(dir: string)
    | MissingFile(file: string)
    | EmptyRun(run: string)               // the sanity check fails on a run without lines
    | ScorerFailed(run: string)           // the scoring tool exits non-zero
    | MetricNotFound(run: string)         // its output holds no `MRR @10: <number>`
    | RowFailed(error: Record.RowError)
    | Completed(devMrr: string, testMrr: Option<string>, row: Option<string>)

  /** The run files are `.bz2`, so the sanity check's fixed bz2 reader is what `autoopen` would pick too. */
  lemma RunFilesAreBz2(id: string)
    ensures AutoOpen.SelectCodec(Paths.Resolve(id).dev) == AutoOpen.Bz2
    ensures AutoOpen.SelectCodec(Paths.Resolve(id).test) == AutoOpen.Bz2
  {
    RunNamesAreBz2();
    var l := Paths.Resolve(id);
    Paths.ResolveSuffixes(id);
    Text.EndsWithTransitive(l.dev, Paths.DevRunName, ".bz2");
    Text.EndsWithTransitive(l.test, Paths.TestRunName, ".bz2");
  }

  /** Both run file names end in `.bz2`. */
  lemma RunNamesAreBz2()
    ensures Text.EndsWith(Paths.DevRunName, ".bz2") && Text.EndsWith(Paths.TestRunName, ".bz2")
  {
    assert Paths.DevRunName[7..] == ".bz2";
    assert Paths.TestRunName[8..] == ".bz2";
  }

  /** The existence check loop: the first of `paths` that does not exist, if any. */
  method FirstMissing(paths: seq<string>, existing: set<string>) returns (missing: Option<string>)
    ensures missing.None? <==> forall k :: 0 <= k < |paths| ==> paths[k] in existing
    ensures missing.Some? ==>
      exists k :: 0 <= k < |paths| && paths[k] == missing.value && missing.value !in existing
                  && forall j :: 0 <= j < k ==> paths[j] in existing
  {
    var k := 0;
    while k < |paths|
      invariant 0 <= k <= |paths|
      invariant forall j :: 0 <= j < k ==> paths[j] in existing
    {
      if paths[k] !in existing {
        return Some(paths[k]);
      }
      k := k + 1;
    }
    return None;
  }

  /** All of the submission's artifacts exist. */
  predicate ArtifactsPresent(l: Paths.Layout, existing: set<string>) {
    l.base in existing && l.dev in existing && l.test in existing && l.metadata in existing
  }

  /** A fatal stop before anything was read. */
  predicate IsMissing(out: Outcome) {
    out.MissingDirectory? || out.MissingFile?
  }

  /** The gate before any reading: the directory, then the three files in order. */
  method CheckArtifacts(l: Paths.Layout, existing: set<string>) returns (stop: Option<Outcome>, log: seq<Event>)
    ensures stop.None? <==> ArtifactsPresent(l, existing)
    ensures stop.None? ==> log == [DirectoryVerified(l.base), FilesVerified]
    ensures stop.Some? ==> IsMissing(stop.value)
    ensures l.base !in existing ==> stop == Some(MissingDirectory(l.base)) && log == []
    ensures l.base in existing && stop.Some? ==>
      stop.value.MissingFile? && log == [DirectoryVerified(l.base)]
      && exists k :: 0 <= k < 3 && l.Required()[k] == stop.value.file && stop.value.file !in existing
                     && forall j :: 0 <= j < k ==> l.Required()[j] in existing
  {
    if l.base !in existing {
      return Some(MissingDirectory(l.base)), [];
    }
    var required := l.Required();
    var missing := FirstMissing(required, existing);
    if missing.Some? {
      return Some(MissingFile(missing.value)), [DirectoryVerified(l.base)];
    }
    assert required[0] in existing && required[1] in existing && required[2] in existing;
    return None, [DirectoryVerified(l.base), FilesVerified];
  }

  /** Both sanity checks, dev run first; only an empty run stops the pipeline. */
  method CheckRuns(l: Paths.Layout, env: Env) returns (stop: Option<Outcome>, log: seq<Event>)
    ensures stop.None? <==> |env.runLines(l.dev)| > 0 && |env.runLines(l.test)| > 0
    ensures stop.None? ==> log == [SanityChecked(l.dev, Sanity.Inspect(env.runLines(l.dev))),
                                   SanityChecked(l.test, Sanity.Inspect(env.runLines(l.test)))]
    ensures |env.runLines(l.dev)| == 0 ==> stop == Some(EmptyRun(l.dev)) && log == []
    ensures |env.runLines(l.dev)| > 0 && |env.runLines(l.test)| == 0 ==>
      stop == Some(EmptyRun(l.test)) && log == [SanityChecked(l.dev, Sanity.Inspect(env.runLines(l.dev)))]
  {
    var devReport := Sanity.SanityCheck(env.runLines(l.dev));
    if devReport.None? {
      return Some(EmptyRun(l.dev)), [];
    }
    var testReport := Sanity.SanityCheck(env.runLines(l.test));
    if testReport.None? {
      return Some(EmptyRun(l.test)), [SanityChecked(l.dev, devReport.value)];
    }
    return None, [SanityChecked(l.dev, devReport.value), SanityChecked(l.test, testReport.value)];
  }

  /** The tool produced output, and the metric it reports is `mrr`. */
  ghost predicate Reports(output: Option<string>, mrr: string) {
    output.Some? && Metric.Reports(output.value, mrr)
  }

  /** The metric the tool reports for (judgments, run): `None` if it fails or its output has no match. */
  function ToolMrr(qrels: string, run: string, env: Env): Option<string> {
    match env.score(qrels, run)
    case None => None
    case Some(output) => Metric.ExtractMrr(output)
  }

  /** Why scoring a run fails: the tool's non-zero exit, or else no metric in its output. */
  function ScoreError(qrels: string, run: string, env: Env): Outcome {
    if env.score(qrels, run).None? then ScorerFailed(run) else MetricNotFound(run)
  }

  /** Scoring succeeds: the dev run always, and the test run when its judgments exist. */
  predicate ScoringSucceeds(l: Paths.Layout, env: Env) {
    ToolMrr(DevQrelsPath, l.dev, env).Some?
    && (TestQrelsPath in env.existing ==> ToolMrr(TestQrelsPath, l.test, env).Some?)
  }

  /** The test score scoring yields: none when the test judgments are absent. */
  function TestScore(l: Paths.Layout, env: Env): Option<string> {
    if TestQrelsPath in env.existing then ToolMrr(TestQrelsPath, l.test, env) else None
  }

  /** `evaluate_run_with_qrels`: invoke the tool, then extract the metric from its output. */
  method ScoreRun(qrels: string, run: string, env: Env) returns (mrr: Result<string, Outcome>)
    ensures env.score(qrels, run).None? ==> mrr == Err(ScorerFailed(run))
    ensures env.score(qrels, run).Some? ==>
      (mrr.Ok? <==> exists i :: Metric.MatchesAt(env.score(qrels, run).value, i))
    ensures env.score(qrels, run).Some? && mrr.Err? ==> mrr.error == MetricNotFound(run)
    ensures mrr.Ok? ==> Reports(env.score(qrels, run), mrr.value)
    ensures mrr.Ok? <==> ToolMrr(qrels, run, env).Some?
    ensures mrr.Ok? ==> mrr.value == ToolMrr(qrels, run, env).value
    ensures mrr.Err? ==> mrr.error == ScoreError(qrels, run, env)
  {
    var output := env.score(qrels, run);
    if output.None? {
      return Err(ScorerFailed(run));
    }
    var m := Metric.ExtractMrr(output.value);
    Metric.ExtractMrrSound(output.value);
    if m.None? {
      return Err(MetricNotFound(run));
    }
    return Ok(m.value);
  }

  /** The two scores: dev always, test only when available. */
  datatype Scores = Scores(dev: string, test: Option<string>)

  /** Score the dev run, then the test run if its judgments exist, else skip it. */
  method ScoreRuns(l: Paths.Layout, env: Env) returns (scores: Result<Scores, Outcome>, log: seq<Event>)
    ensures |log| >= 1 && log[0] == ScorerInvoked(DevQrelsPath, l.dev)
    // scoring succeeds exactly when the tool reports a metric for every run it is given
    ensures scores.Ok? <==> ScoringSucceeds(l, env)
    ensures scores.Ok? ==> scores.value == Scores(ToolMrr(DevQrelsPath, l.dev, env).value, TestScore(l, env))
    // a failure names the run: the dev run first, and its failure stops everything
    ensures ToolMrr(DevQrelsPath, l.dev, env).None? ==>
      scores == Err(ScoreError(DevQrelsPath, l.dev, env)) && log == [ScorerInvoked(DevQrelsPath, l.dev)]
    ensures ToolMrr(DevQrelsPath, l.dev, env).Some? && !ScoringSucceeds(l, env) ==>
      scores == Err(ScoreError(TestQrelsPath, l.test, env))
    ensures ScorerInvoked(TestQrelsPath, l.test) in log ==> TestQrelsPath in env.existing
    ensures scores.Ok? ==> (scores.value.test.Some? <==> TestQrelsPath in env.existing)
    ensures scores.Ok? ==> (TestSkipped in log <==> TestQrelsPath !in env.existing)
    ensures scores.Ok? ==> Reports(env.score(DevQrelsPath, l.dev), scores.value.dev)
    ensures scores.Ok? && scores.value.test.Some? ==> Reports(env.score(TestQrelsPath, l.test), scores.value.test.value)
  {
    log := [ScorerInvoked(DevQrelsPath, l.dev)];
    var devMrr := ScoreRun(DevQrelsPath, l.dev, env);
    if devMrr.Err? {
      return Err(devMrr.error), log;
    }
    log := log + [Scored(l.dev, devMrr.value)];
    if TestQrelsPath !in env.existing {
      return Ok(Scores(devMrr.value, None)), log + [TestSkipped];
    }
    log := log + [ScorerInvoked(TestQrelsPath, l.test)];
    var testMrr := ScoreRun(TestQrelsPath, l.test, env);
    if testMrr.Err? {
      return Err(testMrr.error), log;
    }
    log := log + [Scored(l.test, testMrr.value)];
    return Ok(Scores(devMrr.value, Some(testMrr.value))), log;
  }

  /**
   * What scoring and recording promise about the outcome: a scoring failure
   * is the tool's failure on the dev run, else on the test run; otherwise the
   * scores are the ones the tool reported, the test score is present exactly
   * when its judgments exist, and under `--generate-csv` the entry is the row
   * built from those scores, or the row's own failure.
   */
  ghost predicate OutcomePromise(id: string, l: Paths.Layout, generateCsv: bool, env: Env, out: Outcome) {
    (out.ScorerFailed? || out.MetricNotFound? ==>
       !ScoringSucceeds(l, env)
       && out == (if ToolMrr(DevQrelsPath, l.dev, env).None? then ScoreError(DevQrelsPath, l.dev, env)
                  else ScoreError(TestQrelsPath, l.test, env)))
    && (out.Completed? || out.RowFailed? ==> ScoringSucceeds(l, env))
    && (out.Completed? ==>
          out.devMrr == ToolMrr(DevQrelsPath, l.dev, env).value && out.testMrr == TestScore(l, env)
          && (out.testMrr.Some? <==> TestQrelsPath in env.existing)
          && Reports(env.score(DevQrelsPath, l.dev), out.devMrr)
          && (out.testMrr.Some? ==> Reports(env.score(TestQrelsPath, l.test), out.testMrr.value))
          && (out.row.Some? <==> generateCsv)
          && (generateCsv ==>
                Record.BuildRow(id, env.metadata, out.testMrr, out.devMrr, env.formatScore) == Ok(out.row.value)))
    && (out.RowFailed? ==>
          generateCsv
          && Record.BuildRow(id, env.metadata, TestScore(l, env), ToolMrr(DevQrelsPath, l.dev, env).value,
                             env.formatScore) == Err(out.error))
  }

  /**
   * What scoring and recording promise about the log: the test run is handed
   * to the tool only when its judgments exist and is otherwise reported as
   * skipped, and a built entry is the last event.
   */
  ghost predicate LogPromise(l: Paths.Layout, env: Env, out: Outcome, log: seq<Event>) {
    (ScorerInvoked(TestQrelsPath, l.test) in log ==> TestQrelsPath in env.existing)
    && (out.Completed? ==> (TestSkipped in log <==> TestQrelsPath !in env.existing))
    && (out.Completed? && out.row.Some? ==> |log| > 0 && log[|log| - 1] == RowEmitted(out.row.value))
  }

  /** Both promises of scoring and recording. */
  ghost predicate ScoringPromise(id: string, l: Paths.Layout, generateCsv: bool, env: Env, out: Outcome, log: seq<Event>) {
    OutcomePromise(id, l, generateCsv, env, out) && LogPromise(l, env, out, log)
  }

  /** Events logged before scoring leave the promise about the scoring events intact. */
  lemma PrefixKeepsPromise(l: Paths.Layout, env: Env, out: Outcome, prefix: seq<Event>, log: seq<Event>)
    requires forall e :: e in prefix ==> e.DirectoryVerified? || e.FilesVerified? || e.SanityChecked?
    requires LogPromise(l, env, out, log)
    ensures LogPromise(l, env, out, prefix + log)
  {
    var all := prefix + log;
    assert ScorerInvoked(TestQrelsPath, l.test) in all <==> ScorerInvoked(TestQrelsPath, l.test) in log;
    assert TestSkipped in all <==> TestSkipped in log;
    if |log| > 0 {
      assert all[|all| - 1] == log[|log| - 1];
    }
  }

  /** Scoring both runs, then the entry under `--generate-csv`. */
  method ScoreAndRecord(id: string, l: Paths.Layout, generateCsv: bool, env: Env) returns (out: Outcome, log: seq<Event>)
    ensures |log| >= 1 && log[0] == ScorerInvoked(DevQrelsPath, l.dev)
    ensures out.ScorerFailed? || out.MetricNotFound? || out.RowFailed? || out.Completed?
    ensures ScoringPromise(id, l, generateCsv, env, out, log)
  {
    var scores;
    scores, log := ScoreRuns(l, env);
    if scores.Err? {
      return scores.error, log;
    }
    if !generateCsv {
      return Completed(scores.value.dev, scores.value.test, None), log;
    }
    var row := Record.BuildRow(id, env.metadata, scores.value.test, scores.value.dev, env.formatScore);
    if row.Err? {
      return RowFailed(row.error), log;
    }
    assert ScorerInvoked(TestQrelsPath, l.test) != RowEmitted(row.value);
    log := log + [RowEmitted(row.value)];
    out := Completed(scores.value.dev, scores.value.test, Some(row.value));
  }

  /** Sanity-checking both runs, then scoring; only an empty run stops before scoring. */
  method CheckAndScore(id: string, l: Paths.Layout, generateCsv: bool, env: Env) returns (out: Outcome, log: seq<Event>)
    ensures out.EmptyRun? <==> |env.runLines(l.dev)| == 0 || |env.runLines(l.test)| == 0
    ensures out.EmptyRun? ==> (out.run == l.dev || out.run == l.test) && |env.runLines(out.run)| == 0
    ensures out.EmptyRun? ==> |log| <= 1 && forall e :: e in log ==> e.SanityChecked?
    // the dev run is checked first: an empty dev run is the one named, before any report
    ensures |env.runLines(l.dev)| == 0 ==> out == EmptyRun(l.dev) && log == []
    ensures |env.runLines(l.dev)| > 0 && |env.runLines(l.test)| == 0 ==>
      out == EmptyRun(l.test) && log == [SanityChecked(l.dev, Sanity.Inspect(env.runLines(l.dev)))]
    ensures out.EmptyRun? || out.ScorerFailed? || out.MetricNotFound? || out.RowFailed? || out.Completed?
    ensures !out.EmptyRun? ==>
      |log| >= 3
      && log[0] == SanityChecked(l.dev, Sanity.Inspect(env.runLines(l.dev)))
      && log[1] == SanityChecked(l.test, Sanity.Inspect(env.runLines(l.test)))
      && log[2] == ScorerInvoked(DevQrelsPath, l.dev)
    ensures ScoringPromise(id, l, generateCsv, env, out, log)
  {
    var stop, runLog := CheckRuns(l, env);
    if stop.Some? {
      assert runLog == [] || runLog == [runLog[0]];
      return stop.value, runLog;
    }
    var scoreLog;
    out, scoreLog := ScoreAndRecord(id, l, generateCsv, env);
    PrefixKeepsPromise(l, env, out, runLog, scoreLog);
    log := runLog + scoreLog;
  }

  /** `main` for submission `id`, with `generateCsv` the `--generate-csv` flag. */
  method Evaluate(id: string, generateCsv: bool, env: Env) returns (out: Outcome, log: seq<Event>)
    // a missing directory stops everything, reported by name
    ensures out.MissingDirectory? <==> Paths.Resolve(id).base !in env.existing
    ensures out.MissingDirectory? ==> out.dir == Paths.Resolve(id).base && log == []
    // a missing file stops everything, naming the first one missing in check order
    ensures out.MissingFile? <==> Paths.Resolve(id).base in env.existing && !ArtifactsPresent(Paths.Resolve(id), env.existing)
    ensures out.MissingFile? ==>
      log == [DirectoryVerified(Paths.Resolve(id).base)]
      && exists k :: 0 <= k < 3 && Paths.Resolve(id).Required()[k] == out.file && out.file !in env.existing
                     && forall j :: 0 <= j < k ==> Paths.Resolve(id).Required()[j] in env.existing
    // otherwise both runs are checked, and warnings do not stop the dev run being scored
    ensures !IsMissing(out) ==> ArtifactsPresent(Paths.Resolve(id), env.existing)
    ensures !IsMissing(out) ==> |log| >= 2 && log[0] == DirectoryVerified(Paths.Resolve(id).base) && log[1] == FilesVerified
    ensures out.EmptyRun? <==>
      ArtifactsPresent(Paths.Resolve(id), env.existing)
      && (|env.runLines(Paths.Resolve(id).dev)| == 0 || |env.runLines(Paths.Resolve(id).test)| == 0)
    ensures out.EmptyRun? ==> (out.run == Paths.Resolve(id).dev || out.run == Paths.Resolve(id).test) && |env.runLines(out.run)| == 0
    ensures out.EmptyRun? ==> |log| <= 3 && forall e :: e in log ==> !e.ScorerInvoked?
    // the dev run is checked first: an empty dev run is the one named, before any report
    ensures ArtifactsPresent(Paths.Resolve(id), env.existing) && |env.runLines(Paths.Resolve(id).dev)| == 0 ==>
      out == EmptyRun(Paths.Resolve(id).dev) && log == [DirectoryVerified(Paths.Resolve(id).base), FilesVerified]
    ensures ArtifactsPresent(Paths.Resolve(id), env.existing) && |env.runLines(Paths.Resolve(id).dev)| > 0
            && |env.runLines(Paths.Resolve(id).test)| == 0 ==>
      out == EmptyRun(Paths.Resolve(id).test)
      && log == [DirectoryVerified(Paths.Resolve(id).base), FilesVerified,
                 SanityChecked(Paths.Resolve(id).dev, Sanity.Inspect(env.runLines(Paths.Resolve(id).dev)))]
    // past both checks only scoring or the entry can end the run
    ensures !IsMissing(out) && !out.EmptyRun? ==>
      out.ScorerFailed? || out.MetricNotFound? || out.RowFailed? || out.Completed?
    ensures !IsMissing(out) && !out.EmptyRun? ==>
      |log| >= 5
      && log[2] == SanityChecked(Paths.Resolve(id).dev, Sanity.Inspect(env.runLines(Paths.Resolve(id).dev)))
      && log[3] == SanityChecked(Paths.Resolve(id).test, Sanity.Inspect(env.runLines(Paths.Resolve(id).test)))
      && log[4] == ScorerInvoked(DevQrelsPath, Paths.Resolve(id).dev)
    // the test run is scored only when its judgments exist, the scores are the reported ones, and the entry is built from them
    ensures ScoringPromise(id, Paths.Resolve(id), generateCsv, env, out, log)
  {
    var layout := Paths.Resolve(id);
    var stop, gateLog := CheckArtifacts(layout, env.existing);
    if stop.Some? {
      return stop.value, gateLog;
    }
    var rest;
    out, rest := CheckAndScore(id, layout, generateCsv, env);
    PrefixKeepsPromise(layout, env, out, gateLog, rest);
    log := gateLog + rest;
  }
}
