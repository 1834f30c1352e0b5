/**
 * `sanity_check_run`: a structural check of a (decompressed) run file. Each
 * line is one ranked hit whose first tab-separated field is the query id; the
 * check counts lines and distinct query ids and warns, without failing, when
 * the file does not hold exactly 1000 hits per query.
 */
module Sanity {
  import opened Text
  import opened Wrappers

  /** Hits every query is expected to have. */
  const HitsPerQuery := 1000

  /** `l.split('\t')[0]`. */
  function QueryId(line: string): (q: string)
    ensures q <= line && '\t' !in q
    ensures |q| < |line| ==> line[|q|] == '\t'
  {
    FirstField(line, '\t')
  }

  /** The query ids of the lines, accumulated in file order as the loop does. */
  function QueryIds(lines: seq<string>): set<string> {
    if lines == [] then {}
    else QueryIds(lines[..|lines| - 1]) + {QueryId(lines[|lines| - 1])}
  }

  /** The set holds the query id of every line, and nothing else. */
  lemma {:induction false} QueryIdsImage(lines: seq<string>)
    ensures forall k :: 0 <= k < |lines| ==> QueryId(lines[k]) in QueryIds(lines)
    ensures forall q :: q in QueryIds(lines) ==> exists k :: 0 <= k < |lines| && QueryId(lines[k]) == q
  {
    if lines != [] {
      var init := lines[..|lines| - 1];
      QueryIdsImage(init);
      assert forall k :: 0 <= k < |init| ==> init[k] == lines[k];
    }
  }

  /** What the check reports: line count, distinct queries, and whether it warned. */
  datatype Report = Report(lineCount: nat, queryCount: nat, warning: bool) {
    /** The line count the warning message names as expected. */
    function ExpectedLines(): nat {
      queryCount * HitsPerQuery
    }
  }

  /** The report the check prints for a non-empty file. */
  function Inspect(lines: seq<string>): (r: Report)
    ensures r.lineCount == |lines| && r.queryCount == |QueryIds(lines)| && r.queryCount <= r.lineCount
    ensures r.warning <==> r.lineCount != r.queryCount * 1000
  {
    QueryCountBounds(lines);
    var q := |QueryIds(lines)|;
    Report(|lines|, q, |lines| != q * HitsPerQuery)
  }

  /** There are never more distinct queries than lines, and a non-empty file has one. */
  lemma {:induction false} QueryCountBounds(lines: seq<string>)
    ensures |QueryIds(lines)| <= |lines|
    ensures |lines| > 0 ==> |QueryIds(lines)| >= 1
  {
    if lines != [] {
      QueryCountBounds(lines[..|lines| - 1]);
    }
  }

  /** The report's counts are consistent, and the warning fires exactly on a mismatch. */
  lemma InspectSound(lines: seq<string>)
    requires |lines| > 0
    ensures Inspect(lines).lineCount == |lines|
    ensures 1 <= Inspect(lines).queryCount <= Inspect(lines).lineCount
    ensures Inspect(lines).warning <==> Inspect(lines).lineCount != Inspect(lines).ExpectedLines()
  {
    QueryCountBounds(lines);
  }

  /** `Q` queries with `Q * 1000` lines: no warning; any other line count: a warning. */
  lemma WarningIffMismatch(lines: seq<string>, q: nat)
    requires |QueryIds(lines)| == q
    ensures !Inspect(lines).warning <==> |lines| == q * 1000
  {
  }

  /** Helper: one more line adds its query id to the set. */
  lemma QueryIdsStep(lines: seq<string>, i: nat)
    requires i < |lines|
    ensures QueryIds(lines[..i + 1]) == QueryIds(lines[..i]) + {QueryId(lines[i])}
  {
    assert lines[..i + 1][..i] == lines[..i];
  }

  /**
   * `sanity_check_run`, given the lines of the file. `None` stands for the
   * failure on an empty file, where the source reads the never-bound loop
   * counter; otherwise the report, and the check itself never fails.
   */
  method SanityCheck(lines: seq<string>) returns (report: Option<Report>)
    ensures report.None? <==> |lines| == 0
    ensures report.Some? ==> report.value == Inspect(lines)
    ensures report.Some? ==> 1 <= report.value.queryCount <= report.value.lineCount
  {
    var qids: set<string> := {};
    var i := 0;
    while i < |lines|
      invariant 0 <= i <= |lines|
      invariant qids == QueryIds(lines[..i])
    {
      QueryIdsStep(lines, i);
      qids := qids + {QueryId(lines[i])};
      i := i + 1;
    }
    if i == 0 {
      return None;
    }
    assert lines[..i] == lines;
    var lineCnt := i;
    var numQueries := |qids|;
    report := Some(Report(lineCnt, numQueries, lineCnt != numQueries * HitsPerQuery));
    InspectSound(lines);
  }
}
