/** The few string operations of Python's `str` that the evaluation script relies on. */
module Text {

  /** `\d` restricted to the ASCII digits. */
  predicate IsDigit(c: char) {
    '0' <= c <= '9'
  }

  /** `p` occurs in `s` starting at index `i`. */
  predicate OccursAt(s: string, p: string, i: nat) {
    i + |p| <= |s| && forall k :: 0 <= k < |p| ==> s[i + k] == p[k]
  }

  /** Python's `s.endswith(suffix)`. */
  predicate EndsWith(s: string, suffix: string) {
    |suffix| <= |s| && OccursAt(s, suffix, |s| - |suffix|)
  }

  /** A suffix of a suffix is a suffix. */
  lemma EndsWithTransitive(s: string, t: string, u: string)
    requires EndsWith(s, t) && EndsWith(t, u)
    ensures EndsWith(s, u)
  {
    forall k | 0 <= k < |u|
      ensures s[|s| - |u| + k] == u[k]
    {
      assert t[|t| - |u| + k] == u[k];
      assert s[|s| - |t| + (|t| - |u| + k)] == t[|t| - |u| + k];
    }
  }

  /** The combined length of the parts. */
  function TotalLength(parts: seq<string>): nat {
    if parts == [] then 0 else |parts[0]| + TotalLength(parts[1..])
  }

  /**
   * Python's `sep.join(parts)`: the parts, in order, with one `sep` between
   * each two of them.
   */
  function Join(parts: seq<string>, sep: string): (r: string)
    ensures parts == [] ==> r == ""
    ensures parts != [] ==> parts[0] <= r && |r| == TotalLength(parts) + (|parts| - 1) * |sep|
  {
    if |parts| == 0 then ""
    else if |parts| == 1 then parts[0]
    else parts[0] + sep + Join(parts[1..], sep)
  }

  /** `EndsWith` agrees with comparing the tail slice of `s` to `suffix`. */
  lemma EndsWithSlice(s: string, suffix: string)
    ensures EndsWith(s, suffix) <==> |suffix| <= |s| && s[|s| - |suffix|..] == suffix
  {
    if |suffix| <= |s| && s[|s| - |suffix|..] == suffix {
      forall k | 0 <= k < |suffix|
        ensures s[|s| - |suffix| + k] == suffix[k]
      {
        assert s[|s| - |suffix|..][k] == suffix[k];
      }
    }
  }

  /** Python's `line.split(sep)[0]`: everything before the first `sep`. */
  function FirstField(line: string, sep: char): (f: string)
    ensures f <= line
    ensures sep !in f
    ensures |f| < |line| ==> line[|f|] == sep
  {
    if line == [] || line[0] == sep then []
    else [line[0]] + FirstField(line[1..], sep)
  }
}
