/**
 * Reading CSV text as the upload routes do: splitting the file into
 * lines, detecting the separator, the two quote-aware line scanners
 * (`parseCSVLine` with and without the doubled-quote escape), the
 * substring-based header validation and the column lookup by name.
 */
module Csv {
  import opened Base

  /** The `file` field of an upload form: its name and its text. */
  datatype UploadedFile = UploadedFile(name: string, text: string)

  /** `file.name.toLowerCase().endsWith('.csv')`. */
  predicate IsCsvName(name: string)
  {
    EndsWith(ToLower(name), ".csv")
  }

  // ---------------------------------------------------------------------
  // Plain splitting: String.prototype.split on a one-character separator
  // ---------------------------------------------------------------------

  /** Pieces of `s` between separator characters; `cur` is the piece read so far. */
  function SplitFrom(s: string, seps: set<char>, cur: string): (r: seq<string>)
    ensures |r| >= 1
    decreases |s|
  {
    if |s| == 0 then [cur]
    else if s[0] in seps then [cur] + SplitFrom(s[1..], seps, "")
    else SplitFrom(s[1..], seps, cur + [s[0]])
  }

  function Split(s: string, sep: char): seq<string>
  {
    SplitFrom(s, {sep}, "")
  }

  function TrimAll(parts: seq<string>): (r: seq<string>)
    ensures |r| == |parts| && forall k :: 0 <= k < |r| ==> r[k] == Trim(parts[k])
  {
    seq(|parts|, k requires 0 <= k < |parts| => Trim(parts[k]))
  }

  /** The non-blank lines of a file: `text.split('\n').filter(line => line.trim())`. */
  function NonBlankLines(text: string): (r: seq<string>)
    ensures forall k :: 0 <= k < |r| ==> Trim(r[k]) != ""
    ensures forall x :: x in r <==> x in Split(text, '\n') && Trim(x) != ""
  {
    NonBlank(Split(text, '\n'))
  }

  function NonBlank(lines: seq<string>): (r: seq<string>)
    ensures forall k :: 0 <= k < |r| ==> Trim(r[k]) != ""
    ensures forall x :: x in r <==> x in lines && Trim(x) != ""
    ensures |r| <= |lines|
  {
    if |lines| == 0 then []
    else if Trim(lines[0]) != "" then [lines[0]] + NonBlank(lines[1..])
    else NonBlank(lines[1..])
  }

  /** `firstLine.includes(';') ? ';' : ','`. */
  function DetectSeparator(firstLine: string): (sep: char)
    ensures sep == ';' <==> ';' in firstLine
    ensures sep == ';' || sep == ','
  {
    if ';' in firstLine then ';' else ','
  }

  /** The header names of the sales and plan uploads: `firstLine.split(sep).map(h => h.trim().toLowerCase())`. */
  function HeaderNames(firstLine: string, sep: char): (r: seq<string>)
    ensures |r| == |Split(firstLine, sep)|
    ensures forall k :: 0 <= k < |r| ==> r[k] == ToLower(Trim(Split(firstLine, sep)[k]))
  {
    var parts := Split(firstLine, sep);
    seq(|parts|, k requires 0 <= k < |parts| => ToLower(Trim(parts[k])))
  }

  // ---------------------------------------------------------------------
  // The quote-aware scanner of the sales and plan uploads
  // ---------------------------------------------------------------------

  /**
   * Fields of the rest `s` of a line: a `"` toggles the in-quotes state and
   * is dropped, a separator outside quotes ends the current field (which is
   * trimmed), any other character joins the current field `cur`.
   */
  function Scan(s: string, seps: set<char>, cur: string, inQ: bool): (r: seq<string>)
    ensures |r| >= 1
    decreases |s|
  {
    if |s| == 0 then [Trim(cur)]
    else if s[0] == '"' then Scan(s[1..], seps, cur, !inQ)
    else if s[0] in seps && !inQ then [Trim(cur)] + Scan(s[1..], seps, "", false)
    else Scan(s[1..], seps, cur + [s[0]], inQ)
  }

  /** Separators in `s` that stand outside quotes, the quote state starting at `inQ`. */
  function SepsOutside(s: string, seps: set<char>, inQ: bool): nat
    decreases |s|
  {
    if |s| == 0 then 0
    else if s[0] == '"' then SepsOutside(s[1..], seps, !inQ)
    else if s[0] in seps && !inQ then 1 + SepsOutside(s[1..], seps, false)
    else SepsOutside(s[1..], seps, inQ)
  }

  /**
   * parseCSVLine of the sales upload (one separator) and of the plan upload
   * (`seps` = {',', ';'}): one field per separator outside quotes, plus one.
   */
  method ParseCsvLine(line: string, seps: set<char>) returns (fields: seq<string>)
    ensures fields == Scan(line, seps, "", false)
    ensures |fields| == 1 + SepsOutside(line, seps, false)
    ensures forall k :: 0 <= k < |fields| ==> IsTrimmed(fields[k]) && '"' !in fields[k]
  {
    fields := [];
    var current := "";
    var inQuotes := false;
    var i := 0;
    while i < |line|
      invariant 0 <= i <= |line|
      invariant fields + Scan(line[i..], seps, current, inQuotes) == Scan(line, seps, "", false)
    {
      var c := line[i];
      assert line[i..][1..] == line[i + 1..];
      if c == '"' {
        inQuotes := !inQuotes;
      } else if c in seps && !inQuotes {
        assert fields + Scan(line[i..], seps, current, inQuotes)
            == (fields + [Trim(current)]) + Scan(line[i + 1..], seps, "", false);
        fields := fields + [Trim(current)];
        current := "";
      } else {
        current := current + [c];
      }
      i := i + 1;
    }
    assert line[i..] == [];
    fields := fields + [Trim(current)];
    ScanCount(line, seps, "", false);
    ScanFieldsClean(line, seps, "", false);
  }

  lemma {:induction false} ScanCount(s: string, seps: set<char>, cur: string, inQ: bool)
    ensures |Scan(s, seps, cur, inQ)| == 1 + SepsOutside(s, seps, inQ)
    decreases |s|
  {
    if |s| > 0 {
      if s[0] == '"' {
        ScanCount(s[1..], seps, cur, !inQ);
      } else if s[0] in seps && !inQ {
        ScanCount(s[1..], seps, "", false);
      } else {
        ScanCount(s[1..], seps, cur + [s[0]], inQ);
      }
    }
  }

  lemma TrimKeepsOut(s: string, c: char)
    requires c !in s
    ensures c !in Trim(s)
  {
    var i, j :| 0 <= i <= j <= |s| && Trim(s) == s[i..j];
  }

  /** Every field the scanner emits is trimmed and holds no quote character. */
  lemma {:induction false} ScanFieldsClean(s: string, seps: set<char>, cur: string, inQ: bool)
    requires '"' !in cur
    ensures forall k :: 0 <= k < |Scan(s, seps, cur, inQ)| ==>
              IsTrimmed(Scan(s, seps, cur, inQ)[k]) && '"' !in Scan(s, seps, cur, inQ)[k]
    decreases |s|
  {
    TrimKeepsOut(cur, '"');
    if |s| > 0 {
      if s[0] == '"' {
        ScanFieldsClean(s[1..], seps, cur, !inQ);
      } else if s[0] in seps && !inQ {
        ScanFieldsClean(s[1..], seps, "", false);
      } else {
        ScanFieldsClean(s[1..], seps, cur + [s[0]], inQ);
      }
    }
  }

  lemma TrimAllCons(x: string, rest: seq<string>)
    ensures TrimAll([x] + rest) == [Trim(x)] + TrimAll(rest)
  {
    assert forall k :: 1 <= k < 1 + |rest| ==> ([x] + rest)[k] == rest[k - 1];
  }

  /** On a line without quotes the scanner is plain `split` followed by `trim` of every piece. */
  lemma {:induction false} ScanWithoutQuotes(s: string, seps: set<char>, cur: string)
    requires '"' !in s
    ensures Scan(s, seps, cur, false) == TrimAll(SplitFrom(s, seps, cur))
    decreases |s|
  {
    if |s| == 0 {
      assert TrimAll([cur]) == [Trim(cur)];
    } else {
      assert s == [s[0]] + s[1..];
      if s[0] in seps {
        ScanWithoutQuotes(s[1..], seps, "");
        TrimAllCons(cur, SplitFrom(s[1..], seps, ""));
      } else {
        ScanWithoutQuotes(s[1..], seps, cur + [s[0]]);
      }
    }
  }

  lemma ParsedHeaderAlignment(line: string, sep: char)
    requires '"' !in line
    ensures Scan(line, {sep}, "", false) == TrimAll(Split(line, sep))
  {
    ScanWithoutQuotes(line, {sep}, "");
  }

  // ---------------------------------------------------------------------
  // The scanner of the scenario upload: `""` inside quotes is one quote
  // ---------------------------------------------------------------------

  function ScanEsc(s: string, seps: set<char>, cur: string, inQ: bool): (r: seq<string>)
    ensures |r| >= 1
    decreases |s|
  {
    if |s| == 0 then [Trim(cur)]
    else if s[0] == '"' then
      if inQ && |s| > 1 && s[1] == '"' then ScanEsc(s[2..], seps, cur + ['"'], inQ)
      else ScanEsc(s[1..], seps, cur, !inQ)
    else if s[0] in seps && !inQ then [Trim(cur)] + ScanEsc(s[1..], seps, "", false)
    else ScanEsc(s[1..], seps, cur + [s[0]], inQ)
  }

  function SepsOutsideEsc(s: string, seps: set<char>, inQ: bool): nat
    decreases |s|
  {
    if |s| == 0 then 0
    else if s[0] == '"' then
      if inQ && |s| > 1 && s[1] == '"' then SepsOutsideEsc(s[2..], seps, inQ)
      else SepsOutsideEsc(s[1..], seps, !inQ)
    else if s[0] in seps && !inQ then 1 + SepsOutsideEsc(s[1..], seps, false)
    else SepsOutsideEsc(s[1..], seps, inQ)
  }

  const ScenarioSeps: set<char> := {',', ';'}

  /** parseCSVLine of the scenario upload: splits on ',' or ';' outside quotes, `""` stands for `"`. */
  method ParseEscapedCsvLine(line: string) returns (fields: seq<string>)
    ensures fields == ScanEsc(line, ScenarioSeps, "", false)
    ensures |fields| == 1 + SepsOutsideEsc(line, ScenarioSeps, false)
  {
    fields := [];
    var current := "";
    var inQuotes := false;
    var i := 0;
    while i < |line|
      invariant 0 <= i <= |line|
      invariant fields + ScanEsc(line[i..], ScenarioSeps, current, inQuotes) == ScanEsc(line, ScenarioSeps, "", false)
    {
      var c := line[i];
      assert line[i..][1..] == line[i + 1..];
      if c == '"' {
        if inQuotes && i + 1 < |line| && line[i + 1] == '"' {
          assert line[i..][2..] == line[i + 2..];
          current := current + ['"'];
          i := i + 1;
        } else {
          inQuotes := !inQuotes;
        }
      } else if c in ScenarioSeps && !inQuotes {
        assert fields + ScanEsc(line[i..], ScenarioSeps, current, inQuotes)
            == (fields + [Trim(current)]) + ScanEsc(line[i + 1..], ScenarioSeps, "", false);
        fields := fields + [Trim(current)];
        current := "";
      } else {
        current := current + [c];
      }
      i := i + 1;
    }
    assert line[i..] == [];
    fields := fields + [Trim(current)];
    ScanEscCount(line, ScenarioSeps, "", false);
  }

  lemma {:induction false} ScanEscCount(s: string, seps: set<char>, cur: string, inQ: bool)
    ensures |ScanEsc(s, seps, cur, inQ)| == 1 + SepsOutsideEsc(s, seps, inQ)
    decreases |s|
  {
    if |s| > 0 {
      if s[0] == '"' {
        if inQ && |s| > 1 && s[1] == '"' {
          ScanEscCount(s[2..], seps, cur + ['"'], inQ);
        } else {
          ScanEscCount(s[1..], seps, cur, !inQ);
        }
      } else if s[0] in seps && !inQ {
        ScanEscCount(s[1..], seps, "", false);
      } else {
        ScanEscCount(s[1..], seps, cur + [s[0]], inQ);
      }
    }
  }

  /** Without quote characters the two scanners read the same fields. */
  lemma {:induction false} ScannersAgreeWithoutQuotes(s: string, seps: set<char>, cur: string, inQ: bool)
    requires '"' !in s
    ensures ScanEsc(s, seps, cur, inQ) == Scan(s, seps, cur, inQ)
    decreases |s|
  {
    if |s| > 0 {
      assert '"' !in s[1..] by {
        assert forall k :: 0 <= k < |s| - 1 ==> s[1..][k] == s[k + 1];
      }
      if s[0] in seps && !inQ {
        ScannersAgreeWithoutQuotes(s[1..], seps, "", false);
      } else {
        ScannersAgreeWithoutQuotes(s[1..], seps, cur + [s[0]], inQ);
      }
    }
  }

  /** Every `"` of `x` doubled, as `String(v).replace(/"/g, '""')` does. */
  function Escape(x: string): (r: string)
    ensures |r| >= |x|
  {
    if |x| == 0 then ""
    else if x[0] == '"' then "\"\"" + Escape(x[1..])
    else [x[0]] + Escape(x[1..])
  }

  /** Inside quotes, an escaped text followed by the closing quote reads back as the text itself. */
  lemma {:induction false} ScanEscapedText(x: string, rest: string, seps: set<char>, cur: string)
    requires |rest| == 0 || rest[0] != '"'
    ensures ScanEsc(Escape(x) + "\"" + rest, seps, cur, true) == ScanEsc(rest, seps, cur + x, false)
    decreases |x|
  {
    if |x| == 0 {
      EscapedNothing(rest, seps, cur);
    } else {
      ScanEscapedText(x[1..], rest, seps, cur + [x[0]]);
      EscapedStep(x, rest, seps, cur);
    }
  }

  lemma EscapedNothing(rest: string, seps: set<char>, cur: string)
    requires |rest| == 0 || rest[0] != '"'
    ensures ScanEsc(Escape("") + "\"" + rest, seps, cur, true) == ScanEsc(rest, seps, cur + "", false)
  {
    var tail := Escape("") + "\"" + rest;
    assert tail == "\"" + rest;
    ClosingQuote(tail, seps, cur);
    assert tail[1..] == rest;
    assert cur + "" == cur;
  }

  /** The first character of an escaped text, inside quotes, joins the field. */
  lemma EscapedStep(x: string, rest: string, seps: set<char>, cur: string)
    requires |x| > 0
    requires ScanEsc(Escape(x[1..]) + "\"" + rest, seps, cur + [x[0]], true) == ScanEsc(rest, seps, cur + [x[0]] + x[1..], false)
    ensures ScanEsc(Escape(x) + "\"" + rest, seps, cur, true) == ScanEsc(rest, seps, cur + x, false)
  {
    var tail := Escape(x) + "\"" + rest;
    var more := Escape(x[1..]) + "\"" + rest;
    assert cur + [x[0]] + x[1..] == cur + x;
    if x[0] == '"' {
      assert Escape(x) == "\"\"" + Escape(x[1..]);
      Regroup("\"\"", Escape(x[1..]), "\"", rest);
      DoubledQuote(tail, seps, cur);
      assert tail[2..] == more;
    } else {
      assert Escape(x) == [x[0]] + Escape(x[1..]);
      Regroup([x[0]], Escape(x[1..]), "\"", rest);
      PlainInQuotes(tail, seps, cur);
      assert tail[1..] == more;
    }
  }

  lemma Regroup(a: string, b: string, c: string, d: string)
    ensures (a + b) + c + d == a + (b + c + d)
  {
  }

  lemma ClosingQuote(s: string, seps: set<char>, cur: string)
    requires |s| >= 1 && s[0] == '"' && (|s| == 1 || s[1] != '"')
    ensures ScanEsc(s, seps, cur, true) == ScanEsc(s[1..], seps, cur, false)
  {
  }

  lemma DoubledQuote(s: string, seps: set<char>, cur: string)
    requires |s| >= 2 && s[0] == '"' && s[1] == '"'
    ensures ScanEsc(s, seps, cur, true) == ScanEsc(s[2..], seps, cur + ['"'], true)
  {
  }

  lemma PlainInQuotes(s: string, seps: set<char>, cur: string)
    requires |s| >= 1 && s[0] != '"'
    ensures ScanEsc(s, seps, cur, true) == ScanEsc(s[1..], seps, cur + [s[0]], true)
  {
  }

  /** A field of the exported CSV: the text in quotes with inner quotes doubled. */
  function QuoteField(x: string): string
  {
    "\"" + Escape(x) + "\""
  }

  /** A line of the exported CSV: the quoted fields joined with ','. */
  function QuotedLine(values: seq<string>): string
    requires |values| >= 1
  {
    if |values| == 1 then QuoteField(values[0])
    else QuoteField(values[0]) + "," + QuotedLine(values[1..])
  }

  /**
   * Reading an exported line back with the scenario scanner yields every
   * value, trimmed: quoting protects separators and quotes inside values.
   */
  lemma {:induction false} QuotedLineRoundTrip(values: seq<string>)
    requires |values| >= 1
    ensures ScanEsc(QuotedLine(values), ScenarioSeps, "", false) == TrimAll(values)
    decreases |values|
  {
    if |values| == 1 {
      FirstFieldRead(values, "");
      assert ScanEsc("", ScenarioSeps, values[0], false) == [Trim(values[0])];
    } else {
      var rest := "," + QuotedLine(values[1..]);
      FirstFieldRead(values, rest);
      QuotedLineRoundTrip(values[1..]);
      LaterFieldsRead(values, rest);
    }
  }

  /** The scanner reads the first quoted field of an exported line back as its value. */
  lemma FirstFieldRead(values: seq<string>, rest: string)
    requires |values| >= 1
    requires rest == if |values| == 1 then "" else "," + QuotedLine(values[1..])
    ensures ScanEsc(QuotedLine(values), ScenarioSeps, "", false) == ScanEsc(rest, ScenarioSeps, values[0], false)
  {
    var v := values[0];
    var line := QuotedLine(values);
    assert line == "\"" + (Escape(v) + "\"" + rest) by {
      if |values| == 1 {
        assert line == "\"" + Escape(v) + "\"";
        Regroup("\"", Escape(v), "\"", "");
      } else {
        assert line == "\"" + Escape(v) + "\"" + rest;
      }
    }
    OpeningQuote(line, ScenarioSeps);
    assert line[1..] == Escape(v) + "\"" + rest;
    ScanEscapedText(v, rest, ScenarioSeps, "");
    assert "" + v == v;
  }

  /** After the first field, the separator hands over to the rest of the line. */
  lemma LaterFieldsRead(values: seq<string>, rest: string)
    requires |values| >= 2 && rest == "," + QuotedLine(values[1..])
    requires ScanEsc(QuotedLine(values[1..]), ScenarioSeps, "", false) == TrimAll(values[1..])
    ensures ScanEsc(rest, ScenarioSeps, values[0], false) == TrimAll(values)
  {
    SeparatorOutside(rest, ScenarioSeps, values[0]);
    assert rest[1..] == QuotedLine(values[1..]);
    TrimAllCons(values[0], values[1..]);
    assert values == [values[0]] + values[1..];
  }

  lemma OpeningQuote(s: string, seps: set<char>)
    requires |s| >= 1 && s[0] == '"'
    ensures ScanEsc(s, seps, "", false) == ScanEsc(s[1..], seps, "", true)
  {
  }

  lemma SeparatorOutside(s: string, seps: set<char>, cur: string)
    requires |s| >= 1 && s[0] in seps && s[0] != '"'
    ensures ScanEsc(s, seps, cur, false) == [Trim(cur)] + ScanEsc(s[1..], seps, "", false)
  {
  }

  // ---------------------------------------------------------------------
  // Header validation of the sales and plan uploads
  // ---------------------------------------------------------------------

  /** A required column: its display name and the name fragments that identify it. */
  datatype ColumnSpec = ColumnSpec(name: string, patterns: seq<string>)

  datatype HeaderCheck = HeaderCheck(valid: bool, missing: seq<string>, found: seq<string>, suggestions: string)

  predicate IsSepChar(c: char)
  {
    c == '_' || IsSpace(c)
  }

  /** `s.replace(/[_\s]+/g, '')`: every underscore and white-space character removed. */
  function RemoveSepChars(s: string): (r: string)
    ensures forall k :: 0 <= k < |r| ==> !IsSepChar(r[k])
    ensures forall c :: c in r <==> c in s && !IsSepChar(c)
    ensures |r| <= |s|
  {
    if |s| == 0 then ""
    else if IsSepChar(s[0]) then RemoveSepChars(s[1..])
    else [s[0]] + RemoveSepChars(s[1..])
  }

  /** A header as validation compares it: trimmed, lower-cased, separators removed. */
  function NormalizeHeader(h: string): string
  {
    RemoveSepChars(ToLower(Trim(h)))
  }

  function NormalizeAll(headers: seq<string>): (r: seq<string>)
    ensures |r| == |headers| && forall k :: 0 <= k < |r| ==> r[k] == NormalizeHeader(headers[k])
  {
    seq(|headers|, k requires 0 <= k < |headers| => NormalizeHeader(headers[k]))
  }

  /** Some normalized header contains some pattern of `col`, the pattern stripped of separators too. */
  predicate HasColumn(col: ColumnSpec, normalized: seq<string>)
  {
    exists p, h :: p in col.patterns && h in normalized && Includes(h, RemoveSepChars(p))
  }

  /** Names of the columns of `req` that `HasColumn` finds, in order. */
  function FoundColumns(req: seq<ColumnSpec>, normalized: seq<string>): seq<string>
  {
    if |req| == 0 then []
    else
      var prev := FoundColumns(req[..|req| - 1], normalized);
      if HasColumn(req[|req| - 1], normalized) then prev + [req[|req| - 1].name] else prev
  }

  /** Names of the columns of `req` that `HasColumn` does not find, in order. */
  function MissingColumns(req: seq<ColumnSpec>, normalized: seq<string>): seq<string>
  {
    if |req| == 0 then []
    else
      var prev := MissingColumns(req[..|req| - 1], normalized);
      if HasColumn(req[|req| - 1], normalized) then prev else prev + [req[|req| - 1].name]
  }

  /**
   * validateCSVHeaders: every required column is reported as found or as
   * missing, in the order of `required`; the check is valid exactly when
   * nothing is missing, and only then is the suggestion text empty.
   */
  method ValidateHeaders(required: seq<ColumnSpec>, headers: seq<string>, hint: string) returns (check: HeaderCheck)
    requires hint != ""
    ensures check.found == FoundColumns(required, NormalizeAll(headers))
    ensures check.missing == MissingColumns(required, NormalizeAll(headers))
    ensures check.valid <==> |check.missing| == 0
    ensures check.suggestions == "" <==> check.valid
    ensures |check.found| + |check.missing| == |required|
  {
    var normalized := NormalizeAll(headers);
    var missing: seq<string> := [];
    var found: seq<string> := [];
    var k := 0;
    while k < |required|
      invariant 0 <= k <= |required|
      invariant found == FoundColumns(required[..k], normalized)
      invariant missing == MissingColumns(required[..k], normalized)
    {
      assert required[..k + 1][..k] == required[..k];
      if HasColumn(required[k], normalized) {
        found := found + [required[k].name];
      } else {
        missing := missing + [required[k].name];
      }
      k := k + 1;
    }
    assert required[..k] == required;
    var suggestions := if |missing| > 0 then hint else "";
    check := HeaderCheck(|missing| == 0, missing, found, suggestions);
    PartitionSizes(required, normalized);
  }

  lemma {:induction false} PartitionSizes(req: seq<ColumnSpec>, normalized: seq<string>)
    ensures |FoundColumns(req, normalized)| + |MissingColumns(req, normalized)| == |req|
  {
    if |req| > 0 {
      PartitionSizes(req[..|req| - 1], normalized);
    }
  }

  /** A column is reported missing exactly when no pattern of it occurs in any header. */
  lemma {:induction false} MissingExactly(req: seq<ColumnSpec>, normalized: seq<string>, k: int)
    requires 0 <= k < |req|
    requires forall a, b :: 0 <= a < b < |req| ==> req[a].name != req[b].name
    ensures req[k].name in MissingColumns(req, normalized) <==> !HasColumn(req[k], normalized)
    ensures req[k].name in FoundColumns(req, normalized) <==> HasColumn(req[k], normalized)
  {
    var n := |req| - 1;
    NamesFrom(req[..n], normalized);
    if k < n {
      MissingExactly(req[..n], normalized, k);
    }
  }

  lemma {:induction false} NamesFrom(req: seq<ColumnSpec>, normalized: seq<string>)
    ensures forall x :: x in MissingColumns(req, normalized) ==> exists k :: 0 <= k < |req| && req[k].name == x
    ensures forall x :: x in FoundColumns(req, normalized) ==> exists k :: 0 <= k < |req| && req[k].name == x
  {
    if |req| > 0 {
      var n := |req| - 1;
      NamesFrom(req[..n], normalized);
      forall x | x in MissingColumns(req[..n], normalized)
        ensures exists k :: 0 <= k < |req| && req[k].name == x
      {
        var k :| 0 <= k < n && req[..n][k].name == x;
        assert req[k].name == x;
      }
      forall x | x in FoundColumns(req[..n], normalized)
        ensures exists k :: 0 <= k < |req| && req[k].name == x
      {
        var k :| 0 <= k < n && req[..n][k].name == x;
        assert req[k].name == x;
      }
    }
  }

  /** Extra header columns never make a found column missing. */
  lemma {:induction false} MoreHeadersStillFound(req: seq<ColumnSpec>, headers: seq<string>, extra: seq<string>)
    ensures |MissingColumns(req, NormalizeAll(headers + extra))| <= |MissingColumns(req, NormalizeAll(headers))|
    ensures |MissingColumns(req, NormalizeAll(headers))| == 0 ==> |MissingColumns(req, NormalizeAll(headers + extra))| == 0
  {
    var a := NormalizeAll(headers);
    var b := NormalizeAll(headers + extra);
    assert forall h :: h in a ==> h in b by {
      forall h | h in a ensures h in b {
        var k :| 0 <= k < |a| && a[k] == h;
        assert b[k] == h;
      }
    }
    MissingMonotone(req, a, b);
  }

  lemma {:induction false} MissingMonotone(req: seq<ColumnSpec>, a: seq<string>, b: seq<string>)
    requires forall h :: h in a ==> h in b
    ensures |MissingColumns(req, b)| <= |MissingColumns(req, a)|
  {
    if |req| > 0 {
      var n := |req| - 1;
      MissingMonotone(req[..n], a, b);
      if HasColumn(req[n], a) {
        var p, h :| p in req[n].patterns && h in a && Includes(h, RemoveSepChars(p));
        assert h in b;
      }
    }
  }

  /** The required columns of the sales upload. */
  const SalesRequired: seq<ColumnSpec> := [
    ColumnSpec("cliente/cuenta", ["cliente", "cuenta"]),
    ColumnSpec("sku/seller_sku", ["sku", "seller_sku", "seller sku"]),
    ColumnSpec("total_vendido/venta", ["vendido", "venta", "total_vendido", "qty", "cantidad"])
  ]

  /** The required columns of the plan upload. */
  const PlanRequired: seq<ColumnSpec> := [
    ColumnSpec("cuenta/cliente", ["cuenta", "cliente"]),
    ColumnSpec("sku/seller_sku", ["sku", "seller_sku", "seller sku"])
  ]

  // ---------------------------------------------------------------------
  // Column lookup and cell access
  // ---------------------------------------------------------------------

  predicate MatchesAny(h: string, fragments: seq<string>)
  {
    exists f :: f in fragments && Includes(h, f)
  }

  /** `headers.findIndex(h => h.includes(f1) || ...)`: the first header holding a fragment, or -1. */
  function FindColumn(headers: seq<string>, fragments: seq<string>): (k: int)
    ensures -1 <= k < |headers|
    ensures k >= 0 ==> MatchesAny(headers[k], fragments)
    ensures forall j :: 0 <= j < |headers| && (k == -1 || j < k) ==> !MatchesAny(headers[j], fragments)
  {
    if |headers| == 0 then -1
    else if MatchesAny(headers[0], fragments) then 0
    else
      var k := FindColumn(headers[1..], fragments);
      assert forall j :: 1 <= j < |headers| ==> headers[j] == headers[1..][j - 1];
      if k == -1 then -1 else k + 1
  }

  /** `values[k]`, undefined (`None`) for index -1 or past the end of the row. */
  function Cell(values: seq<string>, k: int): (r: Option<string>)
    ensures r.Some? <==> 0 <= k < |values|
    ensures r.Some? ==> r.value == values[k]
  {
    if 0 <= k < |values| then Some(values[k]) else None
  }

  /** `values[k]?.trim() || ''`. */
  function CellText(values: seq<string>, k: int): (r: string)
    ensures 0 <= k < |values| ==> r == Trim(values[k])
    ensures !(0 <= k < |values|) ==> r == ""
  {
    match Cell(values, k)
    case None => ""
    case Some(v) => Trim(v)
  }

  /** `values[k]?.trim()`: `None` (undefined) for index -1 or past the end of the row. */
  function OptionalText(values: seq<string>, k: int): (r: Option<string>)
    ensures r.Some? <==> 0 <= k < |values|
    ensures r.Some? ==> r.value == Trim(values[k])
  {
    match Cell(values, k)
    case None => None
    case Some(v) => Some(Trim(v))
  }

  /** `parseFloat(values[k]?.replace(',', '.')) || 0`. */
  function CellNumber(values: seq<string>, k: int): (r: real)
    ensures !(0 <= k < |values|) ==> r == 0.0
    ensures 0 <= k < |values| ==> r == DecimalOrZero(values[k])
  {
    match Cell(values, k)
    case None => 0.0
    case Some(v) => DecimalOrZero(v)
  }

  /** `parseInt(values[k])`, `None` for NaN. */
  function CellInt(values: seq<string>, k: int): Option<int>
  {
    match Cell(values, k)
    case None => None
    case Some(v) => ParseInt(v)
  }
}
