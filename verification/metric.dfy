/**
 * Metric extraction in `evaluate_run_with_qrels`: the scoring tool's standard
 * output is searched with the pattern `MRR @10: ([0-9.]+)` and the first group
 * is the run's MRR@10, still as text.
 */
module Metric {
  import opened Text
  import opened Wrappers

  /** The literal part of the pattern. */
  const Label := "MRR @10: "

  /** The character class `[0-9.]`. */
  predicate IsMetricChar(c: char) {
    IsDigit(c) || c == '.'
  }

  /** The pattern matches at `i`: the label, then at least one metric character. */
  predicate MatchesAt(s: string, i: nat) {
    OccursAt(s, Label, i) && i + |Label| < |s| && IsMetricChar(s[i + |Label|])
  }

  /** The maximal run of metric characters starting at `k` (the greedy `+`). */
  function Run(s: string, k: nat): (v: string)
    requires k <= |s|
    ensures k + |v| <= |s|
    decreases |s| - k
  {
    if k == |s| || !IsMetricChar(s[k]) then [] else [s[k]] + Run(s, k + 1)
  }

  /** The run sits at `k`, holds only metric characters and is not followed by one. */
  lemma {:induction false} RunIsMaximal(s: string, k: nat)
    requires k <= |s|
    ensures IsMaximalRunAt(s, k, Run(s, k))
    decreases |s| - k
  {
    if k < |s| && IsMetricChar(s[k]) {
      RunIsMaximal(s, k + 1);
    }
  }

  /** The leftmost position at or after `from` where the pattern matches (`re.search`). */
  function FirstMatch(s: string, from: nat): (r: Option<nat>)
    ensures r.Some? ==> from <= r.value && MatchesAt(s, r.value)
    decreases |s| - from
  {
    if from >= |s| then None
    else if MatchesAt(s, from) then Some(from)
    else FirstMatch(s, from + 1)
  }

  /** The search finds nothing only when nothing matches, and what it finds is the leftmost match. */
  lemma {:induction false} FirstMatchLeftmost(s: string, from: nat)
    ensures FirstMatch(s, from).None? ==> forall j :: from <= j ==> !MatchesAt(s, j)
    ensures FirstMatch(s, from).Some? ==> forall j :: from <= j < FirstMatch(s, from).value ==> !MatchesAt(s, j)
    decreases |s| - from
  {
    if from < |s| && !MatchesAt(s, from) {
      FirstMatchLeftmost(s, from + 1);
    }
  }

  /** A match at `p` with none between `from` and `p` is the one the search finds. */
  lemma {:induction false} FirstMatchAt(s: string, from: nat, p: nat)
    requires from <= p && MatchesAt(s, p)
    requires forall j :: from <= j < p ==> !MatchesAt(s, j)
    ensures FirstMatch(s, from) == Some(p)
    decreases p - from
  {
    if from < p {
      FirstMatchAt(s, from + 1, p);
    }
  }

  /** No match starts before `i`, and one starts at `i`. */
  ghost predicate IsLeftmostMatch(s: string, i: nat) {
    MatchesAt(s, i) && forall j: nat :: j < i ==> !MatchesAt(s, j)
  }

  /** `v` sits at `k` in `s`, is made of metric characters, and cannot be extended. */
  ghost predicate IsMaximalRunAt(s: string, k: nat, v: string) {
    OccursAt(s, v, k)
    && (forall j :: 0 <= j < |v| ==> IsMetricChar(v[j]))
    && (k + |v| == |s| || !IsMetricChar(s[k + |v|]))
  }

  /** The pattern's first group, under `re.search` semantics, is `mrr`. */
  ghost predicate Reports(output: string, mrr: string) {
    exists i: nat :: IsLeftmostMatch(output, i) && IsMaximalRunAt(output, i + |Label|, mrr)
  }

  /**
   * `m.group(1)` of the search, or `None` when the search finds nothing (where
   * the source then fails calling `group` on `None`).
   */
  function ExtractMrr(output: string): (r: Option<string>)
    ensures r.Some? ==> |r.value| > 0
  {
    match FirstMatch(output, 0)
    case None => None
    case Some(i) =>
      Some(Run(output, i + |Label|))
  }

  /**
   * The search fails exactly when the pattern matches nowhere; otherwise the
   * value is the maximal metric run right after the leftmost label that is
   * followed by one.
   */
  lemma ExtractMrrSound(output: string)
    ensures ExtractMrr(output).None? <==> forall i :: !MatchesAt(output, i)
    ensures ExtractMrr(output).Some? ==> Reports(output, ExtractMrr(output).value)
  {
    FirstMatchLeftmost(output, 0);
    match FirstMatch(output, 0)
    case None =>
    case Some(i) =>
      RunIsMaximal(output, i + |Label|);
      assert IsLeftmostMatch(output, i);
  }

  /** A tool report that starts with the metric line yields exactly the printed value. */
  lemma {:induction false} ExtractFromReport(value: string, rest: string)
    requires |value| > 0 && forall j :: 0 <= j < |value| ==> IsMetricChar(value[j])
    requires rest == [] || !IsMetricChar(rest[0])
    ensures ExtractMrr(Label + value + rest) == Some(value)
  {
    var s := Label + value + rest;
    assert s[..|Label|] == Label && s[|Label|..] == value + rest;
    assert MatchesAt(s, 0);
    ExtractAt(s, 0, value);
  }

  /** Helper: a metric-only `value` placed at `k` and not followed by a metric character is the whole run. */
  lemma {:induction false} RunOfValue(s: string, value: string, k: nat)
    requires OccursAt(s, value, k)
    requires forall j :: 0 <= j < |value| ==> IsMetricChar(value[j])
    requires k + |value| == |s| || !IsMetricChar(s[k + |value|])
    ensures Run(s, k) == value
    decreases |value|
  {
    if |value| > 0 {
      assert s[k] == value[0];
      var tail := value[1..];
      assert forall j :: 0 <= j < |tail| ==> s[k + 1 + j] == value[j + 1] == tail[j];
      RunOfValue(s, tail, k + 1);
      assert value == [value[0]] + tail;
    }
  }

  /** The pattern can only start where the text has an `M`. */
  lemma NoMatchWithoutM(s: string, j: nat)
    requires j < |s| && s[j] != 'M'
    ensures !MatchesAt(s, j)
  {
    assert Label[0] == 'M';
  }

  /**
   * A label followed by something other than a metric character is passed
   * over: the search goes on to the next label, provided the text in between
   * holds no `M` that could start another one.
   */
  lemma SkipsLabelWithoutNumber(gap: string, value: string, rest: string)
    requires |gap| > 0 && !IsMetricChar(gap[0]) && 'M' !in gap
    requires |value| > 0 && forall j :: 0 <= j < |value| ==> IsMetricChar(value[j])
    requires rest == [] || !IsMetricChar(rest[0])
    ensures ExtractMrr(Label + gap + Label + value + rest) == Some(value)
  {
    var t := Label + value + rest;
    var s := Label + gap + t;
    assert Label + gap + Label + value + rest == s;
    var p := |Label| + |gap|;
    assert MatchesAt(s, p) by {
      assert s[p..] == t;
      assert t[..|Label|] == Label && t[|Label|] == value[0];
      assert s[p..p + |Label|] == t[..|Label|];
    }
    assert FirstMatch(s, 0) == Some(p) by {
      NoMatchBefore(gap, t);
      FirstMatchAt(s, 0, p);
    }
    assert s[p + |Label|..] == value + rest;
    ExtractAt(s, p, value);
  }

  /** Helper: the leftmost match at `p`, followed by `value` and then no metric character, yields `value`. */
  lemma ExtractAt(s: string, p: nat, value: string)
    requires FirstMatch(s, 0) == Some(p)
    requires OccursAt(s, value, p + |Label|)
    requires forall j :: 0 <= j < |value| ==> IsMetricChar(value[j])
    requires p + |Label| + |value| == |s| || !IsMetricChar(s[p + |Label| + |value|])
    ensures ExtractMrr(s) == Some(value)
  {
    RunOfValue(s, value, p + |Label|);
  }

  /** Helper: no match starts inside a label without a number or the `M`-free text after it. */
  lemma NoMatchBefore(gap: string, t: string)
    requires |gap| > 0 && !IsMetricChar(gap[0]) && 'M' !in gap
    ensures forall j: nat :: j < |Label| + |gap| ==> !MatchesAt(Label + gap + t, j)
  {
    var s := Label + gap + t;
    assert s[..|Label|] == Label && s[|Label|] == gap[0];
    assert !MatchesAt(s, 0);
    forall j: nat | 0 < j < |Label| + |gap| ensures !MatchesAt(s, j) {
      if j < |Label| {
        assert s[j] == Label[j];
      } else {
        assert s[j] == gap[j - |Label|];
      }
      NoMatchWithoutM(s, j);
    }
  }

  /** The tool's line `MRR @10: n/a; MRR @10: 0.35` reports `0.35`. */
  lemma LabelWithoutNumberSkipped()
    ensures ExtractMrr(Label + "n/a; " + Label + "0.35") == Some("0.35")
  {
    var gap, value := "n/a; ", "0.35";
    assert 'M' !in gap by { assert forall k :: 0 <= k < |gap| ==> gap[k] != 'M'; }
    assert forall j :: 0 <= j < |value| ==> IsMetricChar(value[j]);
    SkipsLabelWithoutNumber(gap, value, "");
    assert Label + gap + Label + value + "" == Label + gap + Label + value;
  }
}
