/**
 * `autoopen`: a drop-in for `open()` that normalises the mode string and picks
 * a decompressor from the file name's suffix. The opening itself is I/O; the
 * model returns the call that would be made.
 */
module AutoOpen {
  import opened Text

  /** Which opener `autoopen` hands the file to. */
  datatype Codec = Gzip | Bz2 | Plain

  /** The call `autoopen` makes: opener, file name and normalised mode. */
  datatype OpenCall = OpenCall(codec: Codec, path: string, mode: string)

  /**
   * A mode that names neither text (`t`) nor binary (`b`) gets `t` appended;
   * any other mode is passed through unchanged.
   */
  function NormalizeMode(mode: string): (m: string)
    ensures 't' in m || 'b' in m
    ensures m == mode <==> ('t' in mode || 'b' in mode)
    ensures m != mode ==> m == mode + "t"
  {
    if !('t' in mode) && !('b' in mode) then mode + "t" else mode
  }

  /** Normalising twice changes nothing more than normalising once. */
  lemma NormalizeModeIdempotent(mode: string)
    ensures NormalizeMode(NormalizeMode(mode)) == NormalizeMode(mode)
  {
  }

  /** No file name ends in both suffixes, so the order of the two tests is immaterial. */
  lemma SuffixesExclusive(filename: string)
    ensures !(EndsWith(filename, ".gz") && EndsWith(filename, ".bz2"))
  {
    var n := |filename|;
    if EndsWith(filename, ".gz") {
      assert filename[n - 3 + 0] == ".gz"[0];
    }
    if EndsWith(filename, ".bz2") {
      assert filename[n - 4 + 1] == ".bz2"[1];
    }
  }

  /** `.gz` goes to gzip, else `.bz2` to bz2, else the plain `open`. */
  function SelectCodec(filename: string): (c: Codec)
    ensures c == Gzip <==> EndsWith(filename, ".gz")
    ensures c == Bz2 <==> EndsWith(filename, ".bz2")
    ensures c == Plain <==> !EndsWith(filename, ".gz") && !EndsWith(filename, ".bz2")
  {
    SuffixesExclusive(filename);
    if EndsWith(filename, ".gz") then Gzip
    else if EndsWith(filename, ".bz2") then Bz2
    else Plain
  }

  /** `autoopen(filename, mode)`: the normalised mode and the suffix-selected opener. */
  function Open(filename: string, mode: string := "rt"): (call: OpenCall)
    ensures call.path == filename
    ensures call.mode == NormalizeMode(mode) && ('t' in call.mode || 'b' in call.mode)
    ensures call.codec == SelectCodec(filename)
  {
    OpenCall(SelectCodec(filename), filename, NormalizeMode(mode))
  }

  /** With the default mode nothing is appended: a text-mode open. */
  lemma DefaultModeIsText(filename: string)
    ensures Open(filename).mode == "rt"
  {
    assert 't' in "rt" by { assert "rt"[1] == 't'; }
  }
}
