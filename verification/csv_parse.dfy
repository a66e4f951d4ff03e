/** `parseCSV` and `parseCSVLine`, which both CSV conversion scripts carry
    as identical copies. A line is split on commas outside double quotes; a
    double quote only toggles the "inside quotes" flag and is never copied,
    and every field is trimmed. There are no doubled-quote escapes and no
    fields spanning lines, unlike the full CSV format of section 2 of
    RFC 4180. */
module CsvParse {
  import opened Strings
  import opened Seqs

  // ---------------------------------------------------------------------
  // One line: the two-state scanner
  // ---------------------------------------------------------------------

  /** The loop state of `parseCSVLine`: the fields pushed so far, the
      field being read and the quote flag. */
  datatype Scanner = Scanner(closed: seq<String>, current: String, inQuotes: bool)

  /** One iteration of the loop on character `ch`. */
  function Step(st: Scanner, ch: char): Scanner {
    if ch == '"' then st.(inQuotes := !st.inQuotes)
    else if ch == ',' && !st.inQuotes then Scanner(st.closed + [Trim(st.current)], [], st.inQuotes)
    else st.(current := st.current + [ch])
  }

  /** The state after reading all of `line` from the initial state. */
  function Scan(line: String): Scanner {
    if line == [] then Scanner([], [], false)
    else Step(Scan(line[..|line| - 1]), line[|line| - 1])
  }

  /** The fields of a line: those pushed in the loop and the final one. */
  function ParseLine(line: String): (r: seq<String>)
    ensures r != []
  {
    var st := Scan(line);
    st.closed + [Trim(st.current)]
  }

  /** `parseCSVLine`, proved to compute `ParseLine`. */
  method ParseCSVLine(line: String) returns (values: seq<String>)
    ensures values == ParseLine(line)
  {
    values := [];
    var current: String := [];
    var inQuotes := false;
    for i := 0 to |line|
      invariant Scan(line[..i]) == Scanner(values, current, inQuotes)
    {
      var ch := line[i];
      assert line[..i + 1][..i] == line[..i];
      if ch == '"' {
        inQuotes := !inQuotes;
      } else if ch == ',' && !inQuotes {
        values := values + [Trim(current)];
        current := [];
      } else {
        current := current + [ch];
      }
    }
    assert line[..|line|] == line;
    values := values + [Trim(current)];
  }

  // ---------------------------------------------------------------------
  // Properties of one line
  // ---------------------------------------------------------------------

  /** The scanner is inside quotes exactly after an odd number of quotes. */
  lemma {:induction false} QuoteParity(line: String)
    ensures Scan(line).inQuotes <==> Count(line, '"') % 2 == 1
  {
    if line != [] {
      var init := line[..|line| - 1];
      var ch := line[|line| - 1];
      QuoteParity(init);
      var n := Count(init, '"');
      assert Scan(line) == Step(Scan(init), ch);
      if ch == '"' {
        assert Count(line, '"') == n + 1;
        assert Scan(line).inQuotes == !Scan(init).inQuotes;
      } else {
        assert Count(line, '"') == n;
        assert Scan(line).inQuotes == Scan(init).inQuotes;
      }
    }
  }

  /** The number of commas preceded by an even number of quotes. */
  function UnquotedCommas(line: String): nat {
    if line == [] then 0
    else
      var init := line[..|line| - 1];
      UnquotedCommas(init) + (if line[|line| - 1] == ',' && Count(init, '"') % 2 == 0 then 1 else 0)
  }

  lemma {:induction false} ClosedCount(line: String)
    ensures |Scan(line).closed| == UnquotedCommas(line)
  {
    if line != [] {
      ClosedCount(line[..|line| - 1]);
      QuoteParity(line[..|line| - 1]);
    }
  }

  /** A line has one field more than it has commas outside quotes. */
  lemma FieldCount(line: String)
    ensures |ParseLine(line)| == UnquotedCommas(line) + 1
  {
    ClosedCount(line);
  }

  lemma {:induction false} ScanQuoteFree(line: String)
    ensures '"' !in Scan(line).current
    ensures forall i :: 0 <= i < |Scan(line).closed| ==> '"' !in Scan(line).closed[i]
  {
    if line != [] {
      var st := Scan(line[..|line| - 1]);
      ScanQuoteFree(line[..|line| - 1]);
      TrimSubset(st.current);
    }
  }

  /** No field ever contains a double quote: quotes only toggle the flag. */
  lemma NoQuoteInFields(line: String)
    ensures forall i :: 0 <= i < |ParseLine(line)| ==> '"' !in ParseLine(line)[i]
  {
    var st := Scan(line);
    ScanQuoteFree(line);
    TrimSubset(st.current);
    var fields := ParseLine(line);
    assert fields == st.closed + [Trim(st.current)];
    assert forall i :: 0 <= i < |st.closed| ==> fields[i] == st.closed[i];
    assert fields[|st.closed|] == Trim(st.current);
  }

  lemma ScanSnoc(s: String, ch: char)
    ensures Scan(s + [ch]) == Step(Scan(s), ch)
  {
    assert (s + [ch])[..|s|] == s;
  }

  /** Quote-free text is appended to the current field when the scanner is
      inside quotes (commas included) or when the text has no comma. */
  lemma {:induction false} ScanRun(s: String, q: String)
    requires '"' !in q
    requires Scan(s).inQuotes || ',' !in q
    ensures Scan(s + q) == Scan(s).(current := Scan(s).current + q)
  {
    if q != [] {
      var init := q[..|q| - 1];
      var ch := q[|q| - 1];
      assert q == init + [ch];
      assert s + q == (s + init) + [ch];
      assert forall x :: x in init ==> x in q;
      ScanRun(s, init);
      ScanSnoc(s + init, ch);
    } else {
      assert s + q == s;
    }
  }

  /** A quoted field keeps its commas: `"<q>"` parses to the single field
      `q`, trimmed. */
  lemma QuotedFieldKeepsCommas(q: String)
    requires '"' !in q
    ensures ParseLine(['"'] + q + ['"']) == [Trim(q)]
  {
    var open := ['"'];
    ScanSnoc([], '"');
    assert [] + open == open;
    assert Scan(open) == Scanner([], [], true);
    ScanRun(open, q);
    assert Scan(open + q) == Scanner([], q, true);
    ScanSnoc(open + q, '"');
    assert Scan(open + q + ['"']) == Scanner([], q, false);
  }

  /** Without quotes the scanner is `split(',')` followed by `trim`. */
  lemma {:induction false} ScanIsSplit(line: String)
    requires '"' !in line
    ensures var parts := Split(line, ',');
      Scan(line).closed == TrimEach(parts[..|parts| - 1])
      && Scan(line).current == parts[|parts| - 1]
      && !Scan(line).inQuotes
  {
    if line != [] {
      var init := line[..|line| - 1];
      var x := line[|line| - 1];
      assert '"' !in init by {
        assert forall c :: c in init ==> c in line;
      }
      assert x != '"' by {
        assert x in line;
      }
      ScanIsSplit(init);
      var st := Scan(init);
      var parts := Split(init, ',');
      var front := parts[..|parts| - 1];
      assert parts == front + [parts[|parts| - 1]];
      if x == ',' {
        assert Split(line, ',') == parts + [[]];
        assert Scan(line) == Scanner(st.closed + [Trim(st.current)], [], false);
        assert (parts + [[]])[..|parts|] == parts;
        TrimEachSnoc(front, parts[|parts| - 1]);
      } else {
        var next := front + [parts[|parts| - 1] + [x]];
        assert Split(line, ',') == next;
        assert Scan(line) == st.(current := st.current + [x]);
        assert next[..|next| - 1] == front;
      }
    }
  }

  lemma QuoteFreeLineIsSplit(line: String)
    requires '"' !in line
    ensures ParseLine(line) == TrimEach(Split(line, ','))
  {
    ScanIsSplit(line);
    var parts := Split(line, ',');
    assert parts == parts[..|parts| - 1] + [parts[|parts| - 1]];
    TrimEachSnoc(parts[..|parts| - 1], parts[|parts| - 1]);
  }

  lemma TrimEachSnoc(parts: seq<String>, last: String)
    ensures TrimEach(parts + [last]) == TrimEach(parts) + [Trim(last)]
  {
    assert (parts + [last])[..|parts|] == parts;
  }

  /** Round trip: a quote-free line with no white space around its commas
      is given back by joining its fields with ",". */
  lemma JoinFieldsRoundTrip(line: String)
    requires '"' !in line
    requires forall i :: 0 <= i < |Split(line, ',')| ==> Trim(Split(line, ',')[i]) == Split(line, ',')[i]
    ensures Join(ParseLine(line), [',']) == line
  {
    var parts := Split(line, ',');
    QuoteFreeLineIsSplit(line);
    assert TrimEach(parts) == parts;
    assert ParseLine(line) == parts;
    JoinSplit(line, ',');
  }

  // ---------------------------------------------------------------------
  // The whole file
  // ---------------------------------------------------------------------

  /** A parsed row: column name to value (`company[header] = …`). */
  type Record = map<String, String>

  /** `header.trim().replace(/"/g, '')`: the trimmed header with every
      double quote removed and every other character kept, in order. */
  function HeaderName(h: String): (r: String)
    ensures '"' !in r
    ensures IsSubsequence(r, Trim(h))
    ensures forall x :: x != '"' ==> multiset(r)[x] == multiset(Trim(h))[x]
    ensures '"' !in Trim(h) ==> r == Trim(h)
  {
    RemoveAll(Trim(h), '"')
  }

  /** The header row is split on every comma, quoted or not. */
  function Headers(line: String): (r: seq<String>)
    ensures |r| == Count(line, ',') + 1
    ensures forall i :: 0 <= i < |r| ==> r[i] == HeaderName(Split(line, ',')[i]) && '"' !in r[i]
  {
    var parts := Split(line, ',');
    seq(|parts|, i requires 0 <= i < |parts| => HeaderName(parts[i]))
  }

  /** The record of one matching row: headers assigned in order, so a later
      duplicate header overwrites an earlier one. */
  function BuildRecord(headers: seq<String>, values: seq<String>): (r: Record)
    requires |headers| == |values|
    ensures forall k :: k in r <==> k in headers
  {
    if headers == [] then map[]
    else
      var n := |headers| - 1;
      BuildRecord(headers[..n], values[..n])[headers[n] := RemoveAll(values[n], '"')]
  }

  /** Each header maps to the value in the column of its last occurrence. */
  lemma {:induction false} RecordLastWins(headers: seq<String>, values: seq<String>, i: nat)
    requires |headers| == |values| && i < |headers|
    requires forall j :: i < j < |headers| ==> headers[j] != headers[i]
    ensures BuildRecord(headers, values)[headers[i]] == RemoveAll(values[i], '"')
  {
    var n := |headers| - 1;
    if i < n {
      RecordLastWins(headers[..n], values[..n], i);
    }
  }

  /** The rows whose field count equals the header count. */
  predicate FitsHeaders(headers: seq<String>, row: String) {
    |ParseLine(row)| == |headers|
  }

  /** What the loop over the data lines pushes. */
  function RowRecords(rows: seq<String>, headers: seq<String>): (r: seq<Record>)
    ensures |r| <= |rows|
  {
    if rows == [] then []
    else
      var init := RowRecords(rows[..|rows| - 1], headers);
      var row := rows[|rows| - 1];
      if FitsHeaders(headers, row) then init + [BuildRecord(headers, ParseLine(row))] else init
  }

  lemma RowRecordsSnoc(rows: seq<String>, row: String, headers: seq<String>)
    ensures RowRecords(rows + [row], headers)
         == RowRecords(rows, headers)
            + (if FitsHeaders(headers, row) then [BuildRecord(headers, ParseLine(row))] else [])
  {
    assert (rows + [row])[..|rows|] == rows;
  }

  /** The lines of the trimmed content; never empty. */
  function Lines(content: String): (r: seq<String>)
    ensures r != []
  {
    Split(Trim(content), '\n')
  }

  /** The result of `parseCSV`. */
  function ParsedRecords(content: String): seq<Record> {
    var lines := Lines(content);
    RowRecords(lines[1..], Headers(lines[0]))
  }

  /** The `headers.forEach` of one matching row. */
  method FillRecord(headers: seq<String>, values: seq<String>) returns (company: Record)
    requires |headers| == |values|
    ensures company == BuildRecord(headers, values)
  {
    company := map[];
    for index := 0 to |headers|
      invariant company == BuildRecord(headers[..index], values[..index])
    {
      assert headers[..index + 1][..index] == headers[..index];
      assert values[..index + 1][..index] == values[..index];
      company := company[headers[index] := RemoveAll(values[index], '"')];
    }
    assert headers[..|headers|] == headers && values[..|values|] == values;
  }

  /** `parseCSV`, proved to compute `ParsedRecords`. */
  method ParseCSV(content: String) returns (companies: seq<Record>)
    ensures companies == ParsedRecords(content)
  {
    var lines := Lines(content);
    var headers := Headers(lines[0]);
    companies := ParseRows(lines, headers);
  }

  lemma RowRecordsStep(lines: seq<String>, i: nat, headers: seq<String>)
    requires 1 <= i < |lines|
    ensures RowRecords(lines[1..i + 1], headers)
         == RowRecords(lines[1..i], headers)
            + (if FitsHeaders(headers, lines[i]) then [BuildRecord(headers, ParseLine(lines[i]))] else [])
  {
    assert lines[1..i + 1] == lines[1..i] + [lines[i]];
    RowRecordsSnoc(lines[1..i], lines[i], headers);
  }

  /** One iteration of the loop of `parseCSV`: a record is pushed when the
      line has as many fields as there are headers. */
  method PushRow(companies: seq<Record>, headers: seq<String>, line: String) returns (next: seq<Record>)
    ensures next == companies + (if FitsHeaders(headers, line) then [BuildRecord(headers, ParseLine(line))] else [])
  {
    var values := ParseCSVLine(line);
    if |values| == |headers| {
      var company := FillRecord(headers, values);
      next := companies + [company];
    } else {
      next := companies;
    }
  }

  /** The loop of `parseCSV` over the data lines (all lines after the
      first). */
  method ParseRows(lines: seq<String>, headers: seq<String>) returns (companies: seq<Record>)
    requires lines != []
    ensures companies == RowRecords(lines[1..], headers)
  {
    companies := [];
    for i := 1 to |lines|
      invariant companies == RowRecords(lines[1..i], headers)
    {
      companies := PushRow(companies, headers, lines[i]);
      RowRecordsStep(lines, i, headers);
    }
    assert lines[1..|lines|] == lines[1..];
  }

  // ---------------------------------------------------------------------
  // Properties of the whole file
  // ---------------------------------------------------------------------

  /** The data lines with as many fields as there are headers, in order. */
  function KeptRows(rows: seq<String>, headers: seq<String>): (r: seq<String>)
    ensures |r| <= |rows|
    ensures forall x :: x in r <==> x in rows && FitsHeaders(headers, x)
  {
    if rows == [] then []
    else
      var init := rows[..|rows| - 1];
      var row := rows[|rows| - 1];
      assert rows == init + [row];
      KeptRows(init, headers) + (if FitsHeaders(headers, row) then [row] else [])
  }

  /** Exactly the kept rows give records, one each and in order; the other
      rows are dropped silently. */
  lemma {:induction false} RowRecordsOfKeptRows(rows: seq<String>, headers: seq<String>)
    ensures var kept := KeptRows(rows, headers);
      |RowRecords(rows, headers)| == |kept|
      && forall k :: 0 <= k < |kept| ==>
           FitsHeaders(headers, kept[k])
           && RowRecords(rows, headers)[k] == BuildRecord(headers, ParseLine(kept[k]))
  {
    if rows != [] {
      var init := rows[..|rows| - 1];
      var row := rows[|rows| - 1];
      RowRecordsOfKeptRows(init, headers);
      var kept := KeptRows(rows, headers);
      var keptInit := KeptRows(init, headers);
      var all := RowRecords(rows, headers);
      var allInit := RowRecords(init, headers);
      forall k | 0 <= k < |kept|
        ensures FitsHeaders(headers, kept[k]) && all[k] == BuildRecord(headers, ParseLine(kept[k]))
      {
        if k < |keptInit| {
          assert kept[k] == keptInit[k];
          assert all[k] == allInit[k];
        }
      }
    }
  }

  /** Every record has exactly the header names as keys. */
  lemma {:induction false} RecordKeys(rows: seq<String>, headers: seq<String>)
    ensures forall r, k :: r in RowRecords(rows, headers) ==> (k in r <==> k in headers)
  {
    if rows != [] {
      RecordKeys(rows[..|rows| - 1], headers);
    }
  }

  /** The quote removal applied to each value changes nothing: the fields
      are already quote-free. */
  lemma ValueQuoteRemovalIsNoop(line: String)
    ensures forall i :: 0 <= i < |ParseLine(line)| ==> RemoveAll(ParseLine(line)[i], '"') == ParseLine(line)[i]
  {
    NoQuoteInFields(line);
  }

  /** Header splitting is not quote-aware while row splitting is: a header
      line `"<a>,<b>",<c>` has three names, and a data row written the same
      way has two fields, so such a row would be dropped. */
  lemma HeaderSplitIgnoresQuotes(a: String, b: String, c: String)
    requires '"' !in a && ',' !in a && '"' !in b && ',' !in b && '"' !in c && ',' !in c
    ensures var line := ['"'] + a + [','] + b + ['"', ','] + c;
      |Headers(line)| == 3 && |ParseLine(line)| == 2
  {
    var q := a + [','] + b;
    var line := ['"'] + a + [','] + b + ['"', ','] + c;
    assert line == ((['"'] + q) + ['"']) + [','] + c;
    // three names
    CountAbsent(a, ','); CountAbsent(b, ','); CountAbsent(c, ',');
    CountAppend(['"'] + a, [','], ',');
    CountAppend(['"'], a, ',');
    CountAppend(['"'] + a + [','], b, ',');
    CountAppend(['"'] + a + [','] + b, ['"', ','], ',');
    CountAppend(['"'] + a + [','] + b + ['"', ','], c, ',');
    assert Count(['"'], ',') == 0 by { assert ['"'][..0] == []; }
    assert Count([','], ',') == 1 by { assert [','][..0] == []; }
    assert Count(['"', ','], ',') == 1 by { assert ['"', ','][..1] == ['"']; }
    // two fields
    var open := ['"'];
    ScanSnoc([], '"');
    assert [] + open == open;
    assert '"' !in q;
    ScanRun(open, q);
    ScanSnoc(open + q, '"');
    ScanSnoc(open + q + ['"'], ',');
    ScanRun(open + q + ['"'] + [','], c);
  }
}
