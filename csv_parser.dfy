/**
  The CSV import parser: a quote-aware line splitter and the text-to-records
  conversion that checks the header and skips rows of the wrong width.
*/
module CsvParser {
  import opened Wrappers
  import opened Text
  import opened Sequences

  // ---------------------------------------------------------------------------
  // One line
  // ---------------------------------------------------------------------------

  /** Where the line scanner stands: fields already closed, the open field, the quote flag. */
  datatype LineState = LineState(fields: seq<string>, current: string, inQuotes: bool)

  const Start := LineState([], "", false)

  /**
    The fields produced by scanning `rest` from state `st`. A quote inside a
    quoted section that is followed by another quote stands for one literal
    quote and consumes both; any other quote flips the quote flag; a comma
    outside quotes closes the open field, which is trimmed.
  */
  function Scan(rest: string, st: LineState): seq<string>
    decreases |rest|
  {
    if rest == [] then st.fields + [Trim(st.current)]
    else if rest[0] == '"' then
      if st.inQuotes && |rest| > 1 && rest[1] == '"' then
        Scan(rest[2..], st.(current := st.current + "\""))
      else
        Scan(rest[1..], st.(inQuotes := !st.inQuotes))
    else if rest[0] == ',' && !st.inQuotes then
      Scan(rest[1..], LineState(st.fields + [Trim(st.current)], "", st.inQuotes))
    else
      Scan(rest[1..], st.(current := st.current + [rest[0]]))
  }

  /** The fields of a whole line. */
  function Fields(line: string): seq<string> {
    Scan(line, Start)
  }

  /** The character loop of the splitter: `i` steps one extra place over an escaped quote. */
  method ParseLine(line: string) returns (result: seq<string>)
    ensures result == Fields(line)
    ensures |result| == Separators(line, false) + 1
    ensures forall k :: 0 <= k < |result| ==> IsTrimmed(result[k])
  {
    result := [];
    var current := "";
    var inQuotes := false;
    var i := 0;
    while i < |line|
      invariant 0 <= i <= |line|
      invariant Scan(line[i..], LineState(result, current, inQuotes)) == Fields(line)
    {
      var c := line[i];
      ghost var st := LineState(result, current, inQuotes);
      assert line[i..] == [c] + line[i + 1..];
      if c == '"' {
        if inQuotes && i + 1 < |line| && line[i + 1] == '"' {
          assert line[i..] == "\"\"" + line[i + 2..];
          ScanEscapedPair(line[i + 2..], st);
          current := current + "\"";
          i := i + 1;
        } else {
          if inQuotes {
            ScanCloseQuote(line[i + 1..], st);
          } else {
            ScanOpenQuote(line[i + 1..], st);
          }
          inQuotes := !inQuotes;
        }
      } else if c == ',' && !inQuotes {
        ScanComma(line[i + 1..], st);
        result := result + [Trim(current)];
        current := "";
      } else {
        ScanText(c, line[i + 1..], st);
        current := current + [c];
      }
      i := i + 1;
    }
    result := result + [Trim(current)];
    FieldCount(line, Start);
    FieldsTrimmed(line, Start);
  }

  /** The number of commas in `rest` that stand outside quotes, counted from quote state `inQuotes`. */
  function Separators(rest: string, inQuotes: bool): nat
    decreases |rest|
  {
    if rest == [] then 0
    else if rest[0] == '"' then
      if inQuotes && |rest| > 1 && rest[1] == '"' then Separators(rest[2..], inQuotes)
      else Separators(rest[1..], !inQuotes)
    else if rest[0] == ',' && !inQuotes then 1 + Separators(rest[1..], inQuotes)
    else Separators(rest[1..], inQuotes)
  }

  /** One field more than there are commas outside quotes; in particular never zero fields. */
  lemma {:induction false} FieldCount(rest: string, st: LineState)
    ensures |Scan(rest, st)| == |st.fields| + Separators(rest, st.inQuotes) + 1
    decreases |rest|
  {
    if rest == [] {
    } else if rest[0] == '"' {
      if st.inQuotes && |rest| > 1 && rest[1] == '"' {
        FieldCount(rest[2..], st.(current := st.current + "\""));
      } else {
        FieldCount(rest[1..], st.(inQuotes := !st.inQuotes));
      }
    } else if rest[0] == ',' && !st.inQuotes {
      FieldCount(rest[1..], LineState(st.fields + [Trim(st.current)], "", st.inQuotes));
    } else {
      FieldCount(rest[1..], st.(current := st.current + [rest[0]]));
    }
  }

  /** Every field comes out trimmed. */
  lemma {:induction false} FieldsTrimmed(rest: string, st: LineState)
    requires forall k :: 0 <= k < |st.fields| ==> IsTrimmed(st.fields[k])
    ensures forall k :: 0 <= k < |Scan(rest, st)| ==> IsTrimmed(Scan(rest, st)[k])
    decreases |rest|
  {
    TrimEnds(st.current);
    if rest == [] {
    } else if rest[0] == '"' {
      if st.inQuotes && |rest| > 1 && rest[1] == '"' {
        FieldsTrimmed(rest[2..], st.(current := st.current + "\""));
      } else {
        FieldsTrimmed(rest[1..], st.(inQuotes := !st.inQuotes));
      }
    } else if rest[0] == ',' && !st.inQuotes {
      FieldsTrimmed(rest[1..], LineState(st.fields + [Trim(st.current)], "", st.inQuotes));
    } else {
      FieldsTrimmed(rest[1..], st.(current := st.current + [rest[0]]));
    }
  }

  /** No two quotes stand next to each other in `s`, so no quote is escaped. */
  predicate NoPair(s: string) {
    forall k :: 0 <= k < |s| - 1 ==> !(s[k] == '"' && s[k + 1] == '"')
  }

  /**
    A lone quote only flips the quote flag: when no two quotes stand next to
    each other, no quote ever reaches a field. A quote is kept only through a
    doubled quote inside a quoted section.
  */
  lemma {:induction false} LoneQuoteNeverKept(rest: string, st: LineState)
    requires NoPair(rest)
    requires '"' !in st.current
    requires forall k :: 0 <= k < |st.fields| ==> '"' !in st.fields[k]
    ensures forall k :: 0 <= k < |Scan(rest, st)| ==> '"' !in Scan(rest, st)[k]
    decreases |rest|
  {
    TrimKeepsOut(st.current, '"');
    if rest != [] {
      assert NoPair(rest[1..]) by {
        forall k | 0 <= k < |rest[1..]| - 1 ensures !(rest[1..][k] == '"' && rest[1..][k + 1] == '"') {
          assert rest[1..][k] == rest[k + 1] && rest[1..][k + 1] == rest[k + 2];
        }
      }
      if rest[0] == '"' {
        assert !(|rest| > 1 && rest[1] == '"');
        LoneQuoteNeverKept(rest[1..], st.(inQuotes := !st.inQuotes));
      } else if rest[0] == ',' && !st.inQuotes {
        LoneQuoteNeverKept(rest[1..], LineState(st.fields + [Trim(st.current)], "", st.inQuotes));
      } else {
        LoneQuoteNeverKept(rest[1..], st.(current := st.current + [rest[0]]));
      }
    }
  }

  /** On a whole line without a doubled quote, no field holds a quote. */
  lemma LineWithoutPairs(line: string)
    requires NoPair(line)
    ensures forall k :: 0 <= k < |Fields(line)| ==> '"' !in Fields(line)[k]
  {
    LoneQuoteNeverKept(line, Start);
  }

  // ---------------------------------------------------------------------------
  // Round trips
  // ---------------------------------------------------------------------------

  /** Writes a field as a quoted CSV field, doubling every quote inside it. */
  function Escape(s: string): string {
    if s == [] then "" else (if s[0] == '"' then "\"\"" else [s[0]]) + Escape(s[1..])
  }

  function Quote(s: string): string {
    "\"" + Escape(s) + "\""
  }

  /**
    Inside quotes, an escaped field followed by its closing quote adds the
    field's text to the open field verbatim (commas and quotes included) and
    leaves the quoted section.
  */
  lemma {:induction false} ScanEscaped(s: string, rest: string, st: LineState)
    requires st.inQuotes
    requires rest == [] || rest[0] != '"'
    ensures Scan(Escape(s) + ("\"" + rest), st) == Scan(rest, LineState(st.fields, st.current + s, false))
    decreases |s|
  {
    if s == [] {
      assert Escape(s) + ("\"" + rest) == "\"" + rest;
      ScanCloseQuote(rest, st);
      assert st.current + s == st.current;
    } else {
      ScanEscaped(s[1..], rest, LineState(st.fields, st.current + [s[0]], true));
      ScanEscapedHead(s, "\"" + rest, st);
      assert st.current + [s[0]] + s[1..] == st.current + s;
    }
  }

  /** The first character of an escaped field, inside quotes, is added to the open field. */
  lemma ScanEscapedHead(s: string, close: string, st: LineState)
    requires st.inQuotes && s != []
    ensures Scan(Escape(s) + close, st) == Scan(Escape(s[1..]) + close, LineState(st.fields, st.current + [s[0]], true))
  {
    var tail := Escape(s[1..]) + close;
    if s[0] == '"' {
      assert Escape(s) + close == "\"\"" + tail;
      ScanEscapedPair(tail, st);
    } else {
      assert Escape(s) + close == [s[0]] + tail;
      ScanText(s[0], tail, st);
    }
  }

  /** Inside quotes, a doubled quote adds one quote to the open field. */
  lemma ScanEscapedPair(rest: string, st: LineState)
    requires st.inQuotes
    ensures Scan("\"\"" + rest, st) == Scan(rest, st.(current := st.current + "\""))
  {
    assert ("\"\"" + rest)[2..] == rest;
  }

  /** Inside quotes, a quote not followed by another one closes the quoted section. */
  lemma ScanCloseQuote(rest: string, st: LineState)
    requires st.inQuotes
    requires rest == [] || rest[0] != '"'
    ensures Scan("\"" + rest, st) == Scan(rest, st.(inQuotes := false))
  {
    assert ("\"" + rest)[1..] == rest;
  }

  function TrimAll(fs: seq<string>): (r: seq<string>)
    ensures |r| == |fs|
    ensures forall k :: 0 <= k < |fs| ==> r[k] == Trim(fs[k])
  {
    seq(|fs|, k requires 0 <= k < |fs| => Trim(fs[k]))
  }

  lemma TrimAllCons(fs: seq<string>)
    requires fs != []
    ensures TrimAll(fs) == [Trim(fs[0])] + TrimAll(fs[1..])
  {
  }

  function QuoteAll(fs: seq<string>): (r: seq<string>)
    ensures |r| == |fs|
    ensures forall k :: 0 <= k < |fs| ==> r[k] == Quote(fs[k])
  {
    seq(|fs|, k requires 0 <= k < |fs| => Quote(fs[k]))
  }

  /** Writing every field quoted and joining with commas parses back to the trimmed fields. */
  lemma QuotedRoundTrip(fs: seq<string>)
    requires |fs| >= 1
    ensures Fields(JoinWith(QuoteAll(fs), ',')) == TrimAll(fs)
  {
    var parts := QuoteAll(fs);
    forall k | 0 <= k < |fs| ensures ReadsAs(parts[k], fs[k]) {
      forall rest: string, acc: seq<string> | rest == [] || rest[0] != '"'
        ensures Scan(parts[k] + rest, LineState(acc, "", false)) == Scan(rest, LineState(acc, fs[k], false))
      {
        ScanQuoted(fs[k], rest, acc);
      }
    }
    ScanJoin(parts, fs, []);
  }

  /**
    `p`, written at the start of a field, leaves exactly `f` in the open field
    and the scanner outside quotes, whatever follows it (short of a quote).
  */
  ghost predicate ReadsAs(p: string, f: string) {
    forall rest: string, acc: seq<string> :: rest == [] || rest[0] != '"' ==>
      Scan(p + rest, LineState(acc, "", false)) == Scan(rest, LineState(acc, f, false))
  }

  /** Pieces that each read as one field, joined with commas, read as those fields. */
  lemma {:induction false} ScanJoin(parts: seq<string>, fs: seq<string>, acc: seq<string>)
    requires |parts| == |fs| >= 1
    requires forall k :: 0 <= k < |fs| ==> ReadsAs(parts[k], fs[k])
    ensures Scan(JoinWith(parts, ','), LineState(acc, "", false)) == acc + TrimAll(fs)
    decreases |fs|
  {
    if |fs| == 1 {
      ScanJoinLast(parts[0], fs[0], acc);
      TrimAllCons(fs);
    } else {
      var tail := JoinWith(parts[1..], ',');
      assert JoinWith(parts, ',') == parts[0] + "," + tail;
      ScanJoinHead(parts[0], fs[0], tail, acc);
      forall k | 0 <= k < |fs| - 1 ensures ReadsAs(parts[1..][k], fs[1..][k]) {
        assert parts[1..][k] == parts[k + 1] && fs[1..][k] == fs[k + 1];
      }
      ScanJoin(parts[1..], fs[1..], acc + [Trim(fs[0])]);
      TrimAllCons(fs);
      assert acc + [Trim(fs[0])] + TrimAll(fs[1..]) == acc + ([Trim(fs[0])] + TrimAll(fs[1..]));
    }
  }

  lemma ScanJoinLast(p: string, f: string, acc: seq<string>)
    requires ReadsAs(p, f)
    ensures Scan(p, LineState(acc, "", false)) == acc + [Trim(f)]
  {
    assert p + "" == p;
    assert Scan(p + "", LineState(acc, "", false)) == Scan("", LineState(acc, f, false));
  }

  lemma ScanJoinHead(p: string, f: string, tail: string, acc: seq<string>)
    requires ReadsAs(p, f)
    ensures Scan(p + "," + tail, LineState(acc, "", false)) == Scan(tail, LineState(acc + [Trim(f)], "", false))
  {
    assert p + "," + tail == p + ("," + tail);
    assert Scan(p + ("," + tail), LineState(acc, "", false)) == Scan("," + tail, LineState(acc, f, false));
    ScanComma(tail, LineState(acc, f, false));
  }

  /** A quoted field at the start of a field fills the open field with exactly its text. */
  lemma ScanQuoted(f: string, rest: string, acc: seq<string>)
    requires rest == [] || rest[0] != '"'
    ensures Scan(Quote(f) + rest, LineState(acc, "", false)) == Scan(rest, LineState(acc, f, false))
  {
    var st := LineState(acc, "", true);
    assert Quote(f) + rest == "\"" + (Escape(f) + ("\"" + rest));
    ScanOpenQuote(Escape(f) + ("\"" + rest), LineState(acc, "", false));
    ScanEscaped(f, rest, st);
    assert "" + f == f;
  }

  /** A quote outside quotes only opens a quoted section. */
  lemma ScanOpenQuote(rest: string, st: LineState)
    requires !st.inQuotes
    ensures Scan("\"" + rest, st) == Scan(rest, st.(inQuotes := true))
  {
    assert ("\"" + rest)[1..] == rest;
  }

  /** A comma outside quotes closes the open field, trimmed, and starts an empty one. */
  lemma ScanComma(rest: string, st: LineState)
    requires !st.inQuotes
    ensures Scan("," + rest, st) == Scan(rest, LineState(st.fields + [Trim(st.current)], "", false))
  {
    assert ("," + rest)[1..] == rest;
  }

  /** A field that needs no quoting: no quote and no comma. */
  predicate Plain(s: string) {
    '"' !in s && ',' !in s
  }

  /** Unquoted text with neither quotes nor commas goes straight into the open field. */
  lemma {:induction false} ScanPlain(s: string, rest: string, st: LineState)
    requires Plain(s)
    ensures Scan(s + rest, st) == Scan(rest, st.(current := st.current + s))
    decreases |s|
  {
    if s == [] {
      assert s + rest == rest;
      assert st.(current := st.current + s) == st;
    } else {
      assert s + rest == [s[0]] + (s[1..] + rest);
      ScanText(s[0], s[1..] + rest, st);
      ScanPlain(s[1..], rest, st.(current := st.current + [s[0]]));
      assert st.current + [s[0]] + s[1..] == st.current + s;
    }
  }

  /** One character that is neither a quote nor a separating comma joins the open field. */
  lemma ScanText(c: char, rest: string, st: LineState)
    requires c != '"' && (c != ',' || st.inQuotes)
    ensures Scan([c] + rest, st) == Scan(rest, st.(current := st.current + [c]))
  {
    assert ([c] + rest)[1..] == rest;
  }

  /** Fields that need no quoting, joined with commas, parse back trimmed; already-trimmed ones come back unchanged. */
  lemma PlainRoundTrip(fs: seq<string>)
    requires |fs| >= 1
    requires forall k :: 0 <= k < |fs| ==> Plain(fs[k])
    ensures Fields(JoinWith(fs, ',')) == TrimAll(fs)
    ensures (forall k :: 0 <= k < |fs| ==> IsTrimmed(fs[k])) ==> Fields(JoinWith(fs, ',')) == fs
  {
    forall k | 0 <= k < |fs| ensures ReadsAs(fs[k], fs[k]) {
      forall rest: string, acc: seq<string> | rest == [] || rest[0] != '"'
        ensures Scan(fs[k] + rest, LineState(acc, "", false)) == Scan(rest, LineState(acc, fs[k], false))
      {
        ScanPlain(fs[k], rest, LineState(acc, "", false));
        assert "" + fs[k] == fs[k];
      }
    }
    ScanJoin(fs, fs, []);
  }

  // ---------------------------------------------------------------------------
  // Whole text
  // ---------------------------------------------------------------------------

  /** A record keyed by header name. */
  type CsvRecord = map<string, string>

  datatype CsvError =
    | TooFewLines   // fewer than a header line and one data line
    | MissingColumns  // a required column is absent from the header

  const RequiredHeaders: seq<string> := ["chuanqtkt", "qdbanhanh", "chuyenkhoa", "tenqtkt"]

  predicate HasAllHeaders(headers: seq<string>) {
    forall k :: 0 <= k < |RequiredHeaders| ==> RequiredHeaders[k] in headers
  }

  /** The lines of the text that are not blank, in order. */
  function NonBlankLines(text: string): (r: seq<string>)
    ensures forall k :: 0 <= k < |r| ==> !IsBlank(r[k]) && '\n' !in r[k]
    ensures Subseq(r, Split(text, '\n'))
    ensures forall l :: l in r <==> l in Split(text, '\n') && !IsBlank(l)
    ensures forall l :: multiset(r)[l] == if IsBlank(l) then 0 else multiset(Split(text, '\n'))[l]
  {
    var r := Filter(Split(text, '\n'), (l: string) => !IsBlank(l));
    FilterFacts(Split(text, '\n'), (l: string) => !IsBlank(l));
    FilterCount(Split(text, '\n'), (l: string) => !IsBlank(l));
    assert forall k :: 0 <= k < |r| ==> r[k] in r;
    r
  }

  /** `headers` is not repeated after position `i`. */
  predicate LastOccurrence(headers: seq<string>, i: nat)
    requires i < |headers|
  {
    forall j :: i < j < |headers| ==> headers[j] != headers[i]
  }

  /**
    The record built from one row: header `i` maps to field `i`. When a header
    repeats, the later column wins, as repeated property assignment does.
  */
  function MakeRecord(headers: seq<string>, values: seq<string>): CsvRecord
    requires |values| == |headers|
    decreases |headers|
  {
    if headers == [] then map[]
    else
      var n := |headers| - 1;
      MakeRecord(headers[..n], values[..n])[headers[n] := values[n]]
  }

  /** The record's keys are exactly the header names. */
  lemma {:induction false} RecordKeys(headers: seq<string>, values: seq<string>)
    requires |values| == |headers|
    ensures MakeRecord(headers, values).Keys == set h | h in headers
    decreases |headers|
  {
    if headers != [] {
      var n := |headers| - 1;
      RecordKeys(headers[..n], values[..n]);
      assert forall h :: h in headers <==> h in headers[..n] || h == headers[n];
    }
  }

  /** A header that is not repeated later maps to the field in its own column. */
  lemma {:induction false} RecordField(headers: seq<string>, values: seq<string>, i: nat)
    requires |values| == |headers| && i < |headers|
    requires LastOccurrence(headers, i)
    ensures headers[i] in MakeRecord(headers, values)
    ensures MakeRecord(headers, values)[headers[i]] == values[i]
    decreases |headers|
  {
    var n := |headers| - 1;
    if i < n {
      assert headers[n] != headers[i];
      RecordField(headers[..n], values[..n], i);
    }
  }

  /** `line` has exactly as many fields as the header. */
  predicate Fits(headers: seq<string>, line: string) {
    |Fields(line)| == |headers|
  }

  /** The records of the data lines: lines that do not fit are skipped. */
  function Rows(headers: seq<string>, lines: seq<string>): seq<CsvRecord>
    decreases |lines|
  {
    if lines == [] then []
    else
      var n := |lines| - 1;
      var values := Fields(lines[n]);
      if |values| == |headers| then Rows(headers, lines[..n]) + [MakeRecord(headers, values)]
      else Rows(headers, lines[..n])
  }

  /**
    Splits the text into lines, drops the blank ones, checks the header and
    turns every data line of the header's width into a record.
  */
  method ParseCsv(text: string) returns (r: Result<seq<CsvRecord>, CsvError>)
    ensures |NonBlankLines(text)| < 2 <==> r == Err(TooFewLines)
    ensures r == Err(MissingColumns) <==>
      |NonBlankLines(text)| >= 2 && !HasAllHeaders(Fields(NonBlankLines(text)[0]))
    ensures r.Ok? ==> r.value == Rows(Fields(NonBlankLines(text)[0]), NonBlankLines(text)[1..])
    ensures r.Ok? ==> |r.value| <= |NonBlankLines(text)| - 1
  {
    var lines := NonBlankLines(text);
    if |lines| < 2 {
      return Err(TooFewLines);
    }
    var headers := ParseLine(lines[0]);
    if !HasAllHeaders(headers) {
      return Err(MissingColumns);
    }
    var records := ParseRows(headers, lines[1..]);
    r := Ok(records);
  }

  /** The loop of `parseCSV` over the data lines, keeping the lines that fit the header. */
  method ParseRows(headers: seq<string>, data: seq<string>) returns (records: seq<CsvRecord>)
    ensures records == Rows(headers, data)
    ensures |records| <= |data|
  {
    records := [];
    var i := 0;
    while i < |data|
      invariant 0 <= i <= |data|
      invariant records == Rows(headers, data[..i])
    {
      var values := ParseLine(data[i]);
      assert data[..i + 1][..i] == data[..i];
      if |values| == |headers| {
        records := records + [MakeRecord(headers, values)];
      }
      i := i + 1;
    }
    assert data[..i] == data;
    RowsCount(headers, data);
  }

  lemma {:induction false} RowsCount(headers: seq<string>, lines: seq<string>)
    ensures |Rows(headers, lines)| <= |lines|
    decreases |lines|
  {
    if lines != [] {
      RowsCount(headers, lines[..|lines| - 1]);
    }
  }

  /** Records of earlier lines come before records of later lines. */
  lemma {:induction false} RowsAppend(headers: seq<string>, a: seq<string>, b: seq<string>)
    ensures Rows(headers, a + b) == Rows(headers, a) + Rows(headers, b)
    decreases |b|
  {
    if b == [] {
      assert a + b == a;
    } else {
      var b' := b[..|b| - 1];
      RowsAppend(headers, a, b');
      assert (a + b)[..|a + b| - 1] == a + b';
      assert (a + b)[|a + b| - 1] == b[|b| - 1];
    }
  }

  /** A record is produced exactly for each line of the header's width, built from that line. */
  lemma {:induction false} RowsFromFittingLines(headers: seq<string>, lines: seq<string>, rec: CsvRecord)
    ensures rec in Rows(headers, lines) <==>
      exists k :: 0 <= k < |lines| && Fits(headers, lines[k]) && rec == MakeRecord(headers, Fields(lines[k]))
    decreases |lines|
  {
    if lines != [] {
      var n := |lines| - 1;
      RowsFromFittingLines(headers, lines[..n], rec);
      if rec in Rows(headers, lines) && rec !in Rows(headers, lines[..n]) {
        assert Fits(headers, lines[n]) && rec == MakeRecord(headers, Fields(lines[n]));
      }
      if exists k :: 0 <= k < |lines| && Fits(headers, lines[k]) && rec == MakeRecord(headers, Fields(lines[k])) {
        var k :| 0 <= k < |lines| && Fits(headers, lines[k]) && rec == MakeRecord(headers, Fields(lines[k]));
        if k < n {
          assert lines[..n][k] == lines[k];
        }
      }
    }
  }

  /** A line of the header's width on its own yields exactly its record; any other line yields none. */
  lemma RowsOfOneLine(headers: seq<string>, line: string)
    ensures Rows(headers, [line]) == if Fits(headers, line) then [MakeRecord(headers, Fields(line))] else []
  {
    assert [line][..0] == [];
  }
}
