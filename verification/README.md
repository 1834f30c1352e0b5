# MS MARCO passage leaderboard: submission evaluation, modelled in Dafny

This project models `eval/run_eval.py`, the script that evaluates one
submission to the MS MARCO passage-ranking leaderboard. Its pieces are:

- **`autoopen`** (module `AutoOpen`). It normalises an `open()` mode and
  picks gzip, bz2 or plain `open` from the file-name suffix.
- **Metric extraction in `evaluate_run_with_qrels`** (module `Metric`). The
  scoring tool's output is searched with `MRR @10: ([0-9.]+)` under
  `re.search` semantics.
  - The search finds the leftmost label that is *followed by* a metric
    character. A label followed by anything else is passed over.
  - The value is the greedy, maximal run of `[0-9.]` after that label.
- **`sanity_check_run`** (module `Sanity`). This is the loop that counts a
  run file's lines and its distinct query ids (the first tab-separated
  field). It warns exactly when the line count is not 1000 per query.
- **Path resolution** (module `Paths`). These are `os.path.join` with POSIX
  semantics, the submission directory, the two `.bz2` runs and the metadata
  file.
- **The `--generate-csv` entry** (module `Record`). It covers:
  - the date taken from the id with `(\d\d\d\d)(\d\d)(\d\d)-`;
  - the embargo rule (`"Anonymous"` names, empty links);
  - backslash-style quoting of the description and team (`"` becomes `\"`,
    not the doubled quote of RFC 4180);
  - the 11 fields joined with `,`.
  A reader for that quoting convention is the row's partner. The proof shows
  the row reads back as its 11 fields whenever the values copied verbatim
  (id, paper, code, type and the two formatted scores) hold no `,` or `"`,
  and the description and team do not end in a backslash. The last
  condition cannot be dropped: a trailing backslash escapes the closing
  quote and leaves the field open.
- **`main`** (module `Pipeline`). This is the fail-fast sequence:
  1. the directory must exist;
  2. then the three files, in order;
  3. then both sanity checks;
  4. then dev scoring;
  5. then test scoring, only when `eval/msmarco-passage-eval-qrels.tsv`
     exists;
  6. then, under `--generate-csv`, the entry.

  The printed progress is modelled as a log of events, and every way `main`
  can stop is a distinct `Outcome`.

The environment supplies everything outside the script as a value of
`Pipeline.Env`:

- the set of paths that exist;
- the decompressed lines of each run, as iterating over the open file gives
  them: each keeps its trailing `\n`, so a line without a tab has its whole
  text, newline included, as its query id;
- the parsed metadata as a `map<string, string>`;
- the scoring tool's output (`None` for a non-zero exit);
- the score formatter `f'{round(float(x), 3):.3f}'` (`None` where `float`
  rejects its input).

Where the script raises inside the logic it models, the model has a named
outcome rather than a precondition. Failures of the outside world that the
environment does not represent are listed under "Left out". The modelled
failures are:

- **Empty run file.** `line_cnt = i + 1` reads a loop variable that was
  never bound, so the sanity check fails. The model returns `EmptyRun`.
- **Test judgments absent under `--generate-csv`.** `test_run_mrr` is
  unbound when the row's test-score field is formatted. The model returns
  `RowFailed(TestScoreUndefined)`; it does not invent an empty test field.
- **Unknown suffix.** `autoopen` falls back to plain `open`, and so does the
  model; there is no "unsupported format" outcome.
- **Scoring-tool failures.** A non-zero exit raises, and output without a
  match makes `m.group` fail on `None`. The model names them `ScorerFailed`
  and `MetricNotFound`.

## Model

| member | source | states |
|---|---|---|
| Text.Join | eval/run_eval.py:131 | no parts give the empty text; otherwise the first part is a prefix and the length is the parts' total plus one separator between each two (the reader lemmas below recover the parts) |
| Text.EndsWithSlice | eval/run_eval.py:18-21 | the `endswith` test holds exactly when the tail slice of the text of the suffix's length equals the suffix |
| Text.FirstField | eval/run_eval.py:38 | the query id is a prefix of the line, holds no tab, and is followed by a tab unless it is the whole line |
| AutoOpen.NormalizeMode | eval/run_eval.py:16-17 | the result names `t` or `b`; it equals the input exactly when the input already names one, and otherwise is the input with `t` appended |
| AutoOpen.NormalizeModeIdempotent | eval/run_eval.py:16-17 | normalising a normalised mode changes nothing |
| AutoOpen.SuffixesExclusive | eval/run_eval.py:18-21 | no name ends in both `.gz` and `.bz2`, so the order of the two tests does not matter |
| AutoOpen.SelectCodec | eval/run_eval.py:18-24 | gzip exactly for `.gz` names, bz2 exactly for `.bz2` names, plain `open` exactly for all others |
| AutoOpen.Open | eval/run_eval.py:12-24 | the call opens the given path with the normalised mode, which always names text or binary, using the suffix-selected opener |
| AutoOpen.DefaultModeIsText | eval/run_eval.py:12-17 | with the default mode the file is opened as `rt` |
| Metric.Run | eval/run_eval.py:29 | the greedy group stays within the output |
| Metric.RunIsMaximal | eval/run_eval.py:29 | the group sits right after the label, holds only `[0-9.]` and cannot be extended by one more such character |
| Metric.FirstMatch | eval/run_eval.py:29 | a position the search returns is at or after the start and the pattern matches there |
| Metric.FirstMatchLeftmost | eval/run_eval.py:29 | the search returns nothing only when the pattern matches nowhere, and no match lies before the position it returns |
| Metric.FirstMatchAt | eval/run_eval.py:29 | a match with none before it is the one the search returns |
| Metric.ExtractMrr | eval/run_eval.py:29-30 | a found metric is never empty |
| Metric.ExtractMrrSound | eval/run_eval.py:29-30 | extraction fails exactly when the pattern matches nowhere; otherwise the value is the maximal `[0-9.]` run after the leftmost label followed by one |
| Metric.ExtractFromReport | eval/run_eval.py:29-30 | an output that starts with the label and a number, followed by something that is not a metric character, yields exactly that number |
| Metric.SkipsLabelWithoutNumber | eval/run_eval.py:29 | a label not followed by a metric character is skipped, and the next label's number is reported |
| Metric.LabelWithoutNumberSkipped | eval/run_eval.py:29 | the output `MRR @10: n/a; MRR @10: 0.35` reports `0.35` |
| Sanity.QueryId | eval/run_eval.py:38 | the query id is a tab-free prefix of the line, followed by a tab unless it is the whole line |
| Sanity.QueryIdsImage | eval/run_eval.py:35-38 | the set of query ids holds every line's query id and nothing else |
| Sanity.Inspect | eval/run_eval.py:39-43 | the report counts every line, its query count is the number of distinct query ids and never more than the lines, and it warns exactly when the line count is not 1000 per query |
| Sanity.QueryCountBounds | eval/run_eval.py:35-40 | there are never more distinct queries than lines, and a non-empty file has at least one |
| Sanity.InspectSound | eval/run_eval.py:39-43 | the report counts the lines, has 1 ≤ queries ≤ lines, and warns exactly when the line count differs from 1000 per query |
| Sanity.WarningIffMismatch | eval/run_eval.py:42-43 | with Q distinct queries there is no warning exactly when there are Q * 1000 lines |
| Sanity.SanityCheck | eval/run_eval.py:33-44 | the loop fails only on an empty file; otherwise its counts are the report's, with 1 ≤ queries ≤ lines, and a mismatch never fails it |
| Paths.PathJoin | eval/run_eval.py:49 | an absolute second part replaces the first; otherwise the result is one character longer than the two parts exactly when the first is non-empty and does not end in `/`, and that character, right after the first part, is `/` (with `PathJoinKeepsPrefix` and `PathJoinEndsWith` this fixes the result) |
| Paths.PathJoinEndsWith | eval/run_eval.py:49 | the joined path ends with its second part |
| Paths.PathJoinKeepsPrefix | eval/run_eval.py:49 | joining a relative part keeps the first part as a prefix |
| Paths.Resolve | eval/run_eval.py:49-68 | the metadata file is the directory path with `-metadata.json` appended |
| Paths.ResolveSuffixes | eval/run_eval.py:49-68 | the directory path ends with the id, the runs end with `dev.txt.bz2` and `eval.txt.bz2`, and the metadata path ends with `-metadata.json` |
| Paths.ResolveOrdinaryId | eval/run_eval.py:49-68 | for an ordinary id the four paths are `./submissions/<id>`, `…/<id>/dev.txt.bz2`, `…/<id>/eval.txt.bz2` and `./submissions/<id>-metadata.json` |
| Paths.AbsoluteIdReplacesRoot | eval/run_eval.py:49 | an absolute id is used as the directory itself |
| Paths.RequiredDistinct | eval/run_eval.py:66-71 | the three required files are pairwise distinct, so a missing one is named unambiguously |
| Record.FindDate | eval/run_eval.py:101 | the position found is the leftmost one holding eight digits and `-`, and nothing is found only when there is no such position |
| Record.ExtractDate | eval/run_eval.py:101-104 | no date exactly when the id has no eight digits followed by `-`; otherwise `YYYY/MM/DD` from the leftmost such place |
| Record.DateOfDatedId | eval/run_eval.py:101-104 | an id `YYYYMMDD-slug` yields exactly `YYYY/MM/DD` |
| Record.DateShape | eval/run_eval.py:124 | a date field is ten characters, digits except `/` at positions 4 and 7 |
| Record.DateOfBaselineId | eval/run_eval.py:101-104 | the id `20210615-baseline` has the date `2021/06/15` |
| Record.Escape | eval/run_eval.py:112-113 | escaping never shortens, keeps the last character, and every quote in the result is preceded by a backslash |
| Record.EscapeWithoutQuotes | eval/run_eval.py:112-113 | a text without quotes is left unchanged |
| Record.Quote | eval/run_eval.py:112-113 | a quoted field starts and ends with `"` |
| Record.UnescapeEscape | eval/run_eval.py:112-113 | unescaping recovers the original text |
| Record.QuoteRoundTrip | eval/run_eval.py:112-113 | stripping the quotes and unescaping recovers the original description or team |
| Record.PublicCredits | eval/run_eval.py:106-115 | embargoed: both names `"Anonymous"` and both links empty; otherwise success exactly when the four keys exist, the names are the backslash-quoted metadata values (and unquote back to them), the links are copied, and a failure names the first absent key in the order `model_description`, `team`, `paper`, `code` |
| Record.Fields | eval/run_eval.py:117-128 | exactly 11 fields in the order id, empty, description, team, paper, code, type, date, test, dev, empty |
| Record.BuildRow | eval/run_eval.py:100-131 | a row is built exactly when the date, the metadata lookups, the test score and both conversions succeed, and is then the 11 fields joined by `,`; otherwise the first failing step in the order date, credits, `type`, test score, test conversion, dev conversion gives the error |
| Record.EmbargoHidesCredits | eval/run_eval.py:106-110 | under embargo the row depends on the metadata only through `type`, so no description, team, paper or code value can reach it |
| Record.ReadJoinedCells | eval/run_eval.py:131 | cells joined with `,` read back as exactly those cells |
| Record.PlainIsCell | eval/run_eval.py:114-115 | a value with no `,` and no `"` is read back whole |
| Record.QuotedIsCell | eval/run_eval.py:112-113 | a quoted value not ending in a backslash is read back whole |
| Record.TrailingBackslashLeavesQuoteOpen | eval/run_eval.py:112-113 | a value ending in a backslash leaves its quoted field open: the added backslash escapes the closing quote |
| Record.AnonymousIsCell | eval/run_eval.py:107-108 | the embargo placeholder is read back whole |
| Record.ElevenCellsReadBack | eval/run_eval.py:117-131 | eleven cells joined by `,` read back as those eleven fields |
| Record.RowReadsBack | eval/run_eval.py:117-131 | when the copied values hold no `,` or `"` and the names do not end in a backslash, the built row reads back as exactly its 11 fields |
| Pipeline.RunNamesAreBz2 | eval/run_eval.py:66-67 | both run file names end in `.bz2` |
| Pipeline.RunFilesAreBz2 | eval/run_eval.py:66-67 | `autoopen` would choose bz2 for both runs, the same reader the sanity check always uses |
| Pipeline.FirstMissing | eval/run_eval.py:70-71 | nothing is missing exactly when every path exists; otherwise the result is the first missing path, and all before it exist |
| Pipeline.CheckArtifacts | eval/run_eval.py:62-73 | passes exactly when the directory and all three files exist; a missing directory stops with its name before any file is checked; otherwise it stops at the first missing file |
| Pipeline.CheckRuns | eval/run_eval.py:75-76 | dev is checked before test; only an empty run stops, naming it; a warning never stops |
| Pipeline.ScoreRun | eval/run_eval.py:27-30 | a non-zero exit is `ScorerFailed`; output with no match is `MetricNotFound`; otherwise the score succeeds and is the metric the output reports |
| Pipeline.ScoreRuns | eval/run_eval.py:84-94 | dev is always scored first; scoring succeeds exactly when the tool reports a metric for dev and, when the test judgments exist, for test; the scores are those metrics, the test one absent exactly when skipped with a message; a failure is the dev run's, which stops everything, else the test run's |
| Pipeline.ScoreAndRecord | eval/run_eval.py:84-131 | ends in a scoring failure exactly when scoring does not succeed, naming the failing run; otherwise completes with the reported scores, and under `--generate-csv` only with the row built from them (logged last) or with that row's failure |
| Pipeline.CheckAndScore | eval/run_eval.py:75-131 | both runs are checked, dev first, before any scoring; an empty dev run is named with nothing logged, else an empty test run is named after the dev run's report, and the tool is never invoked; otherwise the scoring and entry outcomes are those of `ScoreAndRecord` |
| Pipeline.Evaluate | eval/run_eval.py:47-131 | `main`: a missing directory or file stops it before any reading, naming the missing path; both runs are checked, dev first, before the dev run is scored, and an empty run stops it with the gate's events and any earlier run's report as the whole log; past the checks it ends in a scoring failure exactly when the tool fails on a run it is given, and otherwise completes with the reported scores and, under `--generate-csv`, the built row or its failure |

## Left out

- The private-key branch and `eval/unpack.sh` (lines 53-58). These are a file test and a foreign executable. The model's set of existing paths is the state after that step.
- The scoring tool `eval/ms_marco_eval.py`. It is a subprocess, modelled as the function `Env.score` from (judgments, run) to its output, or `None` for a non-zero exit. Its own scoring logic is not part of this model.
- Tool output that is not valid UTF-8 (line 28). `.decode('utf-8')` then raises `UnicodeDecodeError`. `Env.score` returns decoded text, so the model has no outcome for this failure.
- Real file access, gzip/bz2 decompression and the `open` call itself. `AutoOpen.Open` returns the call that would be made, and run files are given as their lines.
- JSON parsing of the metadata file (lines 97-98). The metadata is a `map<string, string>`, so unreadable JSON and non-string values are not modelled.
- `float`, `round(…, 3)` and `:.3f` (lines 125-126). These are floating point. They are the parameter `formatScore`, so score-formatting idempotence is not stated.
- `print` output. It is modelled only as the event log.
- The existence gate on lines 62 and 71 is written with `assert`, which `python -O` strips. The model assumes the checks always run, as they do without `-O`.
- `argparse` and the `__main__` block (lines 135-140). The id and the flag are parameters of `Pipeline.Evaluate`.
- Regex `\d` on non-ASCII digits. Python's `re` also matches other Unicode decimal digits; `Text.IsDigit` takes the ASCII ones only.
- Metric.ExtractMrr: its own ensures only states that a found value is non-empty. The full characterisation is `Metric.ExtractMrrSound`.
- `analysis/plot_leaderboard_over_time.py` is not part of this model. It is a plotting script with no logic of its own.
