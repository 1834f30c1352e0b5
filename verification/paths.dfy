/**
 * Artifact-path resolution in `main`: the submission directory and the three
 * files a submission must provide, all derived from the submission id.
 */
module Paths {
  import opened Text

  /**
   * POSIX `os.path.join(a, b)`: an absolute `b` replaces `a`; otherwise a `/`
   * is put between the two unless `a` is empty or already ends with one.
   * With `PathJoinKeepsPrefix` and `PathJoinEndsWith` the contract fixes the
   * result: `a`, then that one `/` or nothing, then `b`.
   */
  function PathJoin(a: string, b: string): (p: string)
    ensures |b| > 0 && b[0] == '/' ==> p == b
    ensures !(|b| > 0 && b[0] == '/') ==> |a| + |b| <= |p| <= |a| + 1 + |b|
    ensures !(|b| > 0 && b[0] == '/') ==> (|p| == |a| + 1 + |b| <==> a != [] && a[|a| - 1] != '/')
    ensures !(|b| > 0 && b[0] == '/') && |p| == |a| + 1 + |b| ==> p[|a|] == '/'
  {
    if |b| > 0 && b[0] == '/' then b
    else if a == [] || a[|a| - 1] == '/' then a + b
    else a + "/" + b
  }

  /** The joined path always ends with `b`. */
  lemma PathJoinEndsWith(a: string, b: string)
    ensures EndsWith(PathJoin(a, b), b)
  {
    var p := PathJoin(a, b);
    if |b| > 0 && b[0] == '/' {
      assert p == [] + b;
      AppendEndsWith([], b);
    } else if a == [] || a[|a| - 1] == '/' {
      assert p == a + b;
      AppendEndsWith(a, b);
    } else {
      assert p == (a + "/") + b;
      AppendEndsWith(a + "/", b);
    }
  }

  /** Joining a relative `b` keeps `a` as a prefix of the result. */
  lemma PathJoinKeepsPrefix(a: string, b: string)
    requires !(|b| > 0 && b[0] == '/')
    ensures a <= PathJoin(a, b)
  {
    if !(a == [] || a[|a| - 1] == '/') {
      assert a + "/" + b == a + ("/" + b);
    }
  }

  /** Helper: `a + b` ends with `b`. */
  lemma AppendEndsWith(a: string, b: string)
    ensures EndsWith(a + b, b)
  {
  }

  const SubmissionsDir := "./submissions"
  const DevRunName := "dev.txt.bz2"
  const TestRunName := "eval.txt.bz2"
  const MetadataSuffix := "-metadata.json"

  /** The directory and the three files of one submission. */
  datatype Layout = Layout(base: string, dev: string, test: string, metadata: string) {
    /** The files checked for, in the order they are checked. */
    function Required(): seq<string> {
      [dev, test, metadata]
    }
  }

  /**
   * `base_dir = os.path.join('.', 'submissions', id)`, the dev and test runs
   * joined under it, and the metadata file next to it.
   */
  function Resolve(id: string): (l: Layout)
    ensures l.metadata == l.base + MetadataSuffix
  {
    var base := PathJoin(PathJoin(".", "submissions"), id);
    Layout(base, PathJoin(base, DevRunName), PathJoin(base, TestRunName), base + MetadataSuffix)
  }

  /** The directory ends with the id, and each run file carries its own name at the end. */
  lemma ResolveSuffixes(id: string)
    ensures EndsWith(Resolve(id).base, id)
    ensures EndsWith(Resolve(id).dev, DevRunName) && EndsWith(Resolve(id).test, TestRunName)
    ensures EndsWith(Resolve(id).metadata, MetadataSuffix)
  {
    var l := Resolve(id);
    PathJoinEndsWith(PathJoin(".", "submissions"), id);
    PathJoinEndsWith(l.base, DevRunName);
    PathJoinEndsWith(l.base, TestRunName);
    AppendEndsWith(l.base, MetadataSuffix);
  }

  /**
   * For an ordinary id (non-empty, neither starting nor ending with `/`) the
   * paths are `./submissions/<id>/dev.txt.bz2`, `./submissions/<id>/eval.txt.bz2`
   * and `./submissions/<id>-metadata.json`.
   */
  lemma ResolveOrdinaryId(id: string)
    requires |id| > 0 && id[0] != '/' && id[|id| - 1] != '/'
    ensures Resolve(id).base == SubmissionsDir + "/" + id
    ensures Resolve(id).dev == SubmissionsDir + "/" + id + "/" + DevRunName
    ensures Resolve(id).test == SubmissionsDir + "/" + id + "/" + TestRunName
    ensures Resolve(id).metadata == SubmissionsDir + "/" + id + MetadataSuffix
  {
    assert PathJoin(".", "submissions") == SubmissionsDir;
    var base := SubmissionsDir + "/" + id;
    assert base[|base| - 1] == id[|id| - 1];
  }

  /** An absolute id is not placed under the submissions directory at all. */
  lemma AbsoluteIdReplacesRoot(id: string)
    requires |id| > 0 && id[0] == '/'
    ensures Resolve(id).base == id
  {
  }

  /** Helper: a path ending in `suffix` carries each of its characters at the matching place. */
  lemma SuffixChar(p: string, suffix: string, k: nat)
    requires EndsWith(p, suffix) && k < |suffix|
    ensures p[|p| - |suffix| + k] == suffix[k]
  {
  }

  /** The three required files are pairwise distinct, so a missing one is named unambiguously. */
  lemma RequiredDistinct(id: string)
    ensures Resolve(id).dev != Resolve(id).test
    ensures Resolve(id).dev != Resolve(id).metadata
    ensures Resolve(id).test != Resolve(id).metadata
  {
    var l := Resolve(id);
    ResolveSuffixes(id);
    SuffixChar(l.dev, DevRunName, 0);
    SuffixChar(l.test, TestRunName, 1);
    SuffixChar(l.dev, DevRunName, 10);
    SuffixChar(l.test, TestRunName, 11);
    SuffixChar(l.metadata, MetadataSuffix, 13);
  }
}
