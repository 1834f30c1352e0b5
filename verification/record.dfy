/**
 * The leaderboard entry built under `--generate-csv`: the date taken from the
 * submission id, the embargo rule, backslash-style quoting of the description
 * and team, and the eleven fields joined with `,`.
 */
module Record {
  import opened Text
  import opened Wrappers

  // ---------------------------------------------------------------------------
  // Date extraction: re.search(r'(\d\d\d\d)(\d\d)(\d\d)-', id)

  /** Eight digits followed by `-` start at `i`. */
  predicate DateAt(s: string, i: nat) {
    i + 9 <= |s| && (forall k :: i <= k < i + 8 ==> IsDigit(s[k])) && s[i + 8] == '-'
  }

  /** The leftmost match at or after `from`. */
  function FindDate(s: string, from: nat): (r: Option<nat>)
    ensures r.Some? ==> from <= r.value && DateAt(s, r.value)
    ensures r.Some? ==> forall j :: from <= j < r.value ==> !DateAt(s, j)
    ensures r.None? ==> forall j :: from <= j ==> !DateAt(s, j)
    decreases |s| - from
  {
    if from >= |s| then None
    else if DateAt(s, from) then Some(from)
    else FindDate(s, from + 1)
  }

  /** Year, month and day rendered as `YYYY/MM/DD`. */
  function FormatDate(year: string, month: string, day: string): string {
    year + "/" + month + "/" + day
  }

  /**
   * The date of the leftmost match as `YYYY/MM/DD`; `None` when there is no
   * match (the source then fails reading a group of `None`).
   */
  function ExtractDate(id: string): (r: Option<string>)
    ensures r.None? <==> forall i :: !DateAt(id, i)
    ensures r.Some? ==> exists i: nat :: DateAt(id, i) && (forall j: nat :: j < i ==> !DateAt(id, j))
                                         && r.value == FormatDate(id[i..i + 4], id[i + 4..i + 6], id[i + 6..i + 8])
  {
    match FindDate(id, 0)
    case None => None
    case Some(i) => Some(FormatDate(id[i..i + 4], id[i + 4..i + 6], id[i + 6..i + 8]))
  }

  /** An id of the form `YYYYMMDD-slug` yields exactly that year, month and day. */
  lemma DateOfDatedId(digits: string, slug: string)
    requires |digits| == 8 && forall k :: 0 <= k < 8 ==> IsDigit(digits[k])
    ensures ExtractDate(digits + "-" + slug) == Some(FormatDate(digits[..4], digits[4..6], digits[6..]))
  {
    var id := digits + "-" + slug;
    assert DateAt(id, 0);
    assert id[..4] == digits[..4] && id[4..6] == digits[4..6] && id[6..8] == digits[6..];
  }

  /** A found date is ten characters: digits with `/` at positions 4 and 7. */
  lemma DateShape(id: string)
    requires ExtractDate(id).Some?
    ensures |ExtractDate(id).value| == 10
    ensures ExtractDate(id).value[4] == '/' && ExtractDate(id).value[7] == '/'
    ensures forall k :: 0 <= k < 10 && k != 4 && k != 7 ==> IsDigit(ExtractDate(id).value[k])
  {
    var i := FindDate(id, 0).value;
    var year, month, day := id[i..i + 4], id[i + 4..i + 6], id[i + 6..i + 8];
    assert ExtractDate(id).value == FormatDate(year, month, day);
    var d := year + "/" + month + "/" + day;
    forall k | 0 <= k < 10 && k != 4 && k != 7 ensures IsDigit(d[k]) {
      if k < 4 { assert d[k] == year[k] == id[i + k]; }
      else if k < 7 { assert d[k] == month[k - 5] == id[i + k - 1]; }
      else { assert d[k] == day[k - 8] == id[i + k - 2]; }
    }
  }

  /** The date of the id `20210615-baseline`. */
  lemma DateOfBaselineId()
    ensures ExtractDate("20210615-baseline") == Some("2021/06/15")
  {
    var digits := "20210615";
    assert forall k :: 0 <= k < 8 ==> IsDigit(digits[k]);
    DateOfDatedId(digits, "baseline");
    assert digits + "-" + "baseline" == "20210615-baseline";
    assert digits[..4] == "2021" && digits[4..6] == "06" && digits[6..] == "15";
    assert FormatDate("2021", "06", "15") == "2021/06/15";
  }

  // ---------------------------------------------------------------------------
  // Quoting: '"' + s.replace('"', '\\"') + '"'

  /** Every `"` of `s` preceded by a backslash. */
  function Escape(s: string): (e: string)
    ensures |e| >= |s|
    ensures e == [] <==> s == []
    ensures e != [] ==> e[0] != '"'
    ensures e != [] ==> e[|e| - 1] == s[|s| - 1]
    ensures forall k :: 0 <= k < |e| && e[k] == '"' ==> k > 0 && e[k - 1] == '\\'
  {
    if s == [] then []
    else if s[0] == '"' then ['\\', '"'] + Escape(s[1..])
    else [s[0]] + Escape(s[1..])
  }

  /** A text without quotes is escaped to itself. */
  lemma {:induction false} EscapeWithoutQuotes(s: string)
    requires '"' !in s
    ensures Escape(s) == s
  {
    if s != [] {
      assert s == [s[0]] + s[1..];
      assert '"' !in s[1..];
      EscapeWithoutQuotes(s[1..]);
    }
  }

  /** The value of a description or team field: escaped and wrapped in quotes. */
  function Quote(s: string): (q: string)
    ensures |q| >= 2 && q[0] == '"' && q[|q| - 1] == '"'
  {
    "\"" + Escape(s) + "\""
  }

  /** Reads a backslash-escaped text back: `\"` is a quote, every other character stands for itself. */
  function Unescape(t: string): string {
    if t == [] then []
    else if |t| >= 2 && t[0] == '\\' && t[1] == '"' then ['"'] + Unescape(t[2..])
    else [t[0]] + Unescape(t[1..])
  }

  /** Escaping loses nothing: unescaping recovers the original text. */
  lemma {:induction false} UnescapeEscape(s: string)
    ensures Unescape(Escape(s)) == s
  {
    if s != [] {
      var e := Escape(s);
      UnescapeEscape(s[1..]);
      if s[0] == '"' {
        assert e[2..] == Escape(s[1..]);
      } else {
        assert e[1..] == Escape(s[1..]);
      }
    }
  }

  /** Strips the surrounding quotes of a quoted field and unescapes the inside. */
  function Unquote(q: string): string {
    if |q| < 2 then q else Unescape(q[1..|q| - 1])
  }

  /** The quoted field's inside is the escaped text, so the original value is recoverable. */
  lemma QuoteRoundTrip(s: string)
    ensures Unquote(Quote(s)) == s
  {
    assert Quote(s)[1..|Quote(s)| - 1] == Escape(s);
    UnescapeEscape(s);
  }

  // ---------------------------------------------------------------------------
  // Metadata and the embargo rule

  /** The parsed metadata file: top-level keys and their (string) values. */
  type Metadata = map<string, string>

  const EmbargoKey := "embargo_until"
  const Anonymous := "\"Anonymous\""

  /** Why a row could not be built. */
  datatype RowError =
    | NoDateInId               // the date search found nothing
    | MissingKey(key: string)  // a metadata lookup failed
    | TestScoreUndefined       // the test run was never scored
    | BadScore(score: string)  // a score that does not parse as a number

  /** The four fields the embargo rule governs, as they go into the row. */
  datatype Credits = Credits(description: string, team: string, paper: string, code: string)

  /**
   * Embargoed: both names become the quoted placeholder and the links are
   * emptied. Otherwise the names are quoted and the links copied, looked up in
   * the order description, team, paper, code.
   */
  function PublicCredits(meta: Metadata): (r: Result<Credits, RowError>)
    ensures EmbargoKey in meta ==> r == Ok(Credits(Anonymous, Anonymous, "", ""))
    ensures EmbargoKey !in meta ==>
      (r.Ok? <==> "model_description" in meta && "team" in meta && "paper" in meta && "code" in meta)
    ensures EmbargoKey !in meta && r.Err? ==>
      r.error == MissingKey(if "model_description" !in meta then "model_description"
                            else if "team" !in meta then "team"
                            else if "paper" !in meta then "paper"
                            else "code")
    ensures EmbargoKey !in meta && r.Err? ==> r.error.MissingKey? && r.error.key !in meta
    ensures EmbargoKey !in meta && r.Ok? ==>
      r.value.description == Quote(meta["model_description"]) && r.value.team == Quote(meta["team"])
      && r.value.paper == meta["paper"] && r.value.code == meta["code"]
    ensures EmbargoKey !in meta && r.Ok? ==>
      Unquote(r.value.description) == meta["model_description"] && Unquote(r.value.team) == meta["team"]
  {
    if EmbargoKey in meta then Ok(Credits(Anonymous, Anonymous, "", ""))
    else if "model_description" !in meta then Err(MissingKey("model_description"))
    else if "team" !in meta then Err(MissingKey("team"))
    else if "paper" !in meta then Err(MissingKey("paper"))
    else if "code" !in meta then Err(MissingKey("code"))
    else
      QuoteRoundTrip(meta["model_description"]);
      QuoteRoundTrip(meta["team"]);
      Ok(Credits(Quote(meta["model_description"]), Quote(meta["team"]), meta["paper"], meta["code"]))
  }

  // ---------------------------------------------------------------------------
  // Row assembly

  /** The number of fields of a leaderboard row. */
  const FieldCount := 11

  /**
   * The row's fields: id, the empty rank marker, description, team, paper,
   * code, type, date, test score, dev score, and the empty external-id field.
   */
  function Fields(id: string, c: Credits, kind: string, date: string, test: string, dev: string): (f: seq<string>)
    ensures |f| == FieldCount
    ensures f[0] == id && f[1] == "" && f[10] == ""
    ensures f[2] == c.description && f[3] == c.team && f[4] == c.paper && f[5] == c.code
    ensures f[6] == kind && f[7] == date && f[8] == test && f[9] == dev
  {
    [id, "", c.description, c.team, c.paper, c.code, kind, date, test, dev, ""]
  }

  /**
   * The `--generate-csv` entry, failing where the source fails and in its
   * order: the date search, the metadata lookups, the type lookup, the test
   * score (absent when the test run was not scored), then the two number
   * conversions. `formatScore` is `f'{round(float(x), 3):.3f}'`, `None` where
   * `float` rejects its input.
   */
  function BuildRow(id: string, meta: Metadata, testMrr: Option<string>, devMrr: string,
                    formatScore: string -> Option<string>): (r: Result<string, RowError>)
    // the first step that fails decides the error
    ensures ExtractDate(id).None? ==> r == Err(NoDateInId)
    ensures ExtractDate(id).Some? && PublicCredits(meta).Err? ==> r == Err(PublicCredits(meta).error)
    ensures ExtractDate(id).Some? && PublicCredits(meta).Ok? && "type" !in meta ==> r == Err(MissingKey("type"))
    ensures ExtractDate(id).Some? && PublicCredits(meta).Ok? && "type" in meta && testMrr.None? ==>
              r == Err(TestScoreUndefined)
    ensures (ExtractDate(id).Some? && PublicCredits(meta).Ok? && "type" in meta && testMrr.Some?
             && formatScore(testMrr.value).None?) ==> r == Err(BadScore(testMrr.value))
    ensures (ExtractDate(id).Some? && PublicCredits(meta).Ok? && "type" in meta && testMrr.Some?
             && formatScore(testMrr.value).Some? && formatScore(devMrr).None?) ==> r == Err(BadScore(devMrr))
    // when every step succeeds the row is built, and it is the eleven fields joined by `,`
    ensures r.Ok? <==> ExtractDate(id).Some? && PublicCredits(meta).Ok? && "type" in meta && testMrr.Some?
                       && formatScore(testMrr.value).Some? && formatScore(devMrr).Some?
    ensures r.Ok? ==> r.value == Join(Fields(id, PublicCredits(meta).value, meta["type"], ExtractDate(id).value,
                                             formatScore(testMrr.value).value, formatScore(devMrr).value), ",")
  {
    match ExtractDate(id)
    case None => Err(NoDateInId)
    case Some(date) =>
      match PublicCredits(meta)
      case Err(e) => Err(e)
      case Ok(credits) =>
        if "type" !in meta then Err(MissingKey("type"))
        else match testMrr
          case None => Err(TestScoreUndefined)
          case Some(t) =>
            match formatScore(t)
            case None => Err(BadScore(t))
            case Some(test) =>
              match formatScore(devMrr)
              case None => Err(BadScore(devMrr))
              case Some(dev) => Ok(Join(Fields(id, credits, meta["type"], date, test, dev), ","))
  }

  /**
   * Under embargo the row depends on the metadata only through `type`: two
   * metadata files that differ in description, team, paper or code (or in any
   * other key) give the same row, so none of those values can reach it.
   */
  lemma EmbargoHidesCredits(id: string, m1: Metadata, m2: Metadata, testMrr: Option<string>, devMrr: string,
                            formatScore: string -> Option<string>)
    requires EmbargoKey in m1 && EmbargoKey in m2
    requires ("type" in m1 <==> "type" in m2) && ("type" in m1 ==> m1["type"] == m2["type"])
    ensures BuildRow(id, m1, testMrr, devMrr, formatScore) == BuildRow(id, m2, testMrr, devMrr, formatScore)
  {
  }

  // ---------------------------------------------------------------------------
  // Reading a row back under the backslash-escaped quoting convention

  /** One step of the reader: a separator, or `n` characters after which the quote state is `inQuote`. */
  datatype Move = Sep | Take(n: nat, inQuote: bool)

  /**
   * Outside quotes `,` separates and `"` opens; inside quotes `\"` is an
   * escaped quote and `"` closes; anything else is copied.
   */
  function Next(t: string, inQuote: bool): (m: Move)
    requires t != []
    ensures m.Take? ==> 1 <= m.n <= |t|
    ensures m.Sep? <==> !inQuote && t[0] == ','
  {
    if !inQuote && t[0] == ',' then Sep
    else if !inQuote && t[0] == '"' then Take(1, true)
    else if inQuote && |t| >= 2 && t[0] == '\\' && t[1] == '"' then Take(2, true)
    else if inQuote && t[0] == '"' then Take(1, false)
    else Take(1, inQuote)
  }

  /** Splits `t` at the separators outside quotes; `cur` is the field read so far. */
  function Split(t: string, inQuote: bool, cur: string): seq<string>
    decreases |t|
  {
    if t == [] then [cur]
    else match Next(t, inQuote)
      case Sep => [cur] + Split(t[1..], false, [])
      case Take(n, q) => Split(t[n..], q, cur + t[..n])
  }

  /** The fields of a row, each still in its quoted form. */
  function ReadRow(row: string): seq<string> {
    Split(row, false, [])
  }

  /** The quote state after reading `t` whole, or `None` if a separator occurs outside quotes. */
  function Walk(t: string, inQuote: bool): Option<bool>
    decreases |t|
  {
    if t == [] then Some(inQuote)
    else match Next(t, inQuote)
      case Sep => None
      case Take(n, q) => Walk(t[n..], q)
  }

  /** A field text the reader takes as one whole field: no bare separator, every quote closed. */
  predicate IsCell(f: string) {
    Walk(f, false) == Some(false)
  }

  /** Reading a cell followed by anything continues, outside quotes, right after the cell. */
  lemma {:induction false} SplitAfterCell(f: string, r: string, q: bool, cur: string)
    requires Walk(f, q) == Some(false)
    ensures Split(f + r, q, cur) == Split(r, false, cur + f)
    decreases |f|
  {
    if f == [] {
      assert f + r == r && cur + f == cur;
    } else {
      var m := Next(f, q);
      SplitStep(f, r, q, cur);
      SplitAfterCell(f[m.n..], r, m.inQuote, cur + f[..m.n]);
      assert cur + f[..m.n] + f[m.n..] == cur + f;
    }
  }

  /** Helper: one step of reading a cell followed by anything is the same step as on the cell alone. */
  lemma SplitStep(f: string, r: string, q: bool, cur: string)
    requires f != [] && Walk(f, q) == Some(false)
    ensures Next(f, q).Take?
    ensures Walk(f[Next(f, q).n..], Next(f, q).inQuote) == Some(false)
    ensures Split(f + r, q, cur) == Split(f[Next(f, q).n..] + r, Next(f, q).inQuote, cur + f[..Next(f, q).n])
  {
    var t := f + r;
    NextOfPrefix(f, r, q);
    var n := Next(f, q).n;
    assert t[n..] == f[n..] + r && t[..n] == f[..n];
  }

  /** Helper: on a cell, what follows it does not change the reader's next step. */
  lemma NextOfPrefix(f: string, r: string, q: bool)
    requires f != [] && Walk(f, q) == Some(false)
    ensures Next(f + r, q) == Next(f, q)
  {
    var t := f + r;
    assert t[0] == f[0];
    if |f| >= 2 {
      assert t[1] == f[1];
    }
  }

  /** A row joined from cells reads back as exactly those cells. */
  lemma {:induction false} ReadJoinedCells(fields: seq<string>)
    requires |fields| >= 1
    requires forall k :: 0 <= k < |fields| ==> IsCell(fields[k])
    ensures ReadRow(Join(fields, ",")) == fields
  {
    if |fields| == 1 {
      SplitAfterCell(fields[0], [], false, []);
      assert fields[0] + [] == fields[0];
      assert [] + fields[0] == fields[0];
    } else {
      var rest := Join(fields[1..], ",");
      assert Join(fields, ",") == fields[0] + ("," + rest);
      SplitAfterCell(fields[0], "," + rest, false, []);
      assert [] + fields[0] == fields[0];
      assert ("," + rest)[1..] == rest;
      ReadJoinedCells(fields[1..]);
      assert fields == [fields[0]] + fields[1..];
    }
  }

  /** A text with no `,` and no `"` is a cell. */
  lemma {:induction false} PlainIsCell(s: string)
    requires ',' !in s && '"' !in s
    ensures IsCell(s)
    decreases |s|
  {
    if s != [] {
      assert s[0] in s;
      assert forall c :: c in s[1..] ==> c in s;
      PlainIsCell(s[1..]);
    }
  }

  /** Inside quotes, an escaped text not ending in a backslash is read through to the closing quote. */
  lemma {:induction false} EscapedCloses(s: string)
    requires s == [] || s[|s| - 1] != '\\'
    ensures Walk(Escape(s) + "\"", true) == Some(false)
    decreases |s|
  {
    var t := Escape(s) + "\"";
    if s == [] {
      assert t == "\"";
    } else {
      var e := Escape(s[1..]);
      EscapedCloses(s[1..]);
      if s[0] == '"' {
        assert t == ['\\', '"'] + (e + "\"");
        assert t[2..] == e + "\"";
      } else {
        assert t == [s[0]] + (e + "\"");
        assert t[1..] == e + "\"";
        if s[0] == '\\' {
          assert s[1..] != [];
          assert t[1] == e[0];
        }
      }
    }
  }

  /** A quoted value not ending in a backslash is a cell. */
  lemma QuotedIsCell(s: string)
    requires s == [] || s[|s| - 1] != '\\'
    ensures IsCell(Quote(s))
  {
    EscapedCloses(s);
    var q := Quote(s);
    assert q[1..] == Escape(s) + "\"";
  }

  /** A value ending in a backslash leaves its quoted field open: the escape eats the closing quote. */
  lemma {:induction false} TrailingBackslashLeavesQuoteOpen(s: string)
    requires s != [] && s[|s| - 1] == '\\'
    ensures Walk(Escape(s) + "\"", true) == Some(true)
    decreases |s|
  {
    var t := Escape(s) + "\"";
    var e := Escape(s[1..]);
    if |s| == 1 {
      assert t == ['\\', '"'];
    } else {
      TrailingBackslashLeavesQuoteOpen(s[1..]);
      if s[0] == '"' {
        assert t == ['\\', '"'] + (e + "\"");
        assert t[2..] == e + "\"";
      } else {
        assert t == [s[0]] + (e + "\"");
        assert t[1..] == e + "\"";
        assert t[1] == e[0];
      }
    }
  }

  /** Text the reader can carry as an unquoted field. */
  predicate IsPlain(s: string) {
    ',' !in s && '"' !in s
  }

  /** Eleven cells joined with `,` read back as those eleven fields. */
  lemma ElevenCellsReadBack(f: seq<string>)
    requires |f| == FieldCount
    requires IsCell(f[0]) && IsCell(f[1]) && IsCell(f[2]) && IsCell(f[3]) && IsCell(f[4]) && IsCell(f[5])
    requires IsCell(f[6]) && IsCell(f[7]) && IsCell(f[8]) && IsCell(f[9]) && IsCell(f[10])
    ensures ReadRow(Join(f, ",")) == f
  {
    ReadJoinedCells(f);
  }

  /** A quoted text that needs no escaping and does not end in a backslash is a cell. */
  lemma BareQuotedIsCell(s: string)
    requires '"' !in s && (s == [] || s[|s| - 1] != '\\')
    ensures IsCell("\"" + s + "\"")
  {
    EscapeWithoutQuotes(s);
    QuotedIsCell(s);
  }

  /** The embargo placeholder is a cell. */
  lemma AnonymousIsCell()
    ensures IsCell(Anonymous)
  {
    var name := "Anonymous";
    BareQuotedIsCell(name);
    assert "\"" + name + "\"" == Anonymous;
  }

  /** The description or team field of the row is a cell. */
  lemma QuotedCreditIsCell(meta: Metadata, key: string, field: string)
    requires EmbargoKey in meta ==> field == Anonymous
    requires EmbargoKey !in meta ==> key in meta && field == Quote(meta[key])
    requires EmbargoKey !in meta ==> meta[key] == [] || meta[key][|meta[key]| - 1] != '\\'
    ensures IsCell(field)
  {
    if EmbargoKey in meta {
      AnonymousIsCell();
    } else {
      QuotedIsCell(meta[key]);
    }
  }

  /**
   * Whenever the values copied verbatim hold no `,` or `"`, and the quoted
   * names do not end in a backslash, reading the row back gives exactly its
   * eleven fields, in order.
   */
  lemma RowReadsBack(id: string, meta: Metadata, testMrr: Option<string>, devMrr: string,
                     formatScore: string -> Option<string>)
    requires BuildRow(id, meta, testMrr, devMrr, formatScore).Ok?
    requires IsPlain(id) && IsPlain(meta["type"])
    requires IsPlain(formatScore(testMrr.value).value) && IsPlain(formatScore(devMrr).value)
    requires EmbargoKey !in meta ==> IsPlain(meta["paper"]) && IsPlain(meta["code"])
    requires EmbargoKey !in meta ==> meta["model_description"] == [] || meta["model_description"][|meta["model_description"]| - 1] != '\\'
    requires EmbargoKey !in meta ==> meta["team"] == [] || meta["team"][|meta["team"]| - 1] != '\\'
    ensures |ReadRow(BuildRow(id, meta, testMrr, devMrr, formatScore).value)| == FieldCount
    ensures ReadRow(BuildRow(id, meta, testMrr, devMrr, formatScore).value)
         == Fields(id, PublicCredits(meta).value, meta["type"], ExtractDate(id).value,
                   formatScore(testMrr.value).value, formatScore(devMrr).value)
  {
    var c := PublicCredits(meta).value;
    var date := ExtractDate(id).value;
    var test, dev := formatScore(testMrr.value).value, formatScore(devMrr).value;
    var f := Fields(id, c, meta["type"], date, test, dev);
    PlainIsCell(id);
    PlainIsCell("");
    PlainIsCell(meta["type"]);
    PlainIsCell(test);
    PlainIsCell(dev);
    DateShape(id);
    assert IsPlain(date) by {
      forall k | 0 <= k < |date| ensures date[k] != ',' && date[k] != '"' {
        if k != 4 && k != 7 { assert IsDigit(date[k]); }
      }
    }
    PlainIsCell(date);
    QuotedCreditIsCell(meta, "model_description", c.description);
    QuotedCreditIsCell(meta, "team", c.team);
    if EmbargoKey in meta {
      assert c.paper == "" && c.code == "";
    } else {
      PlainIsCell(meta["paper"]);
      PlainIsCell(meta["code"]);
    }
    ElevenCellsReadBack(f);
  }
}
