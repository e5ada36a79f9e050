/**
 * Laws of the CSV import and export of src/utils/csv.ts: what the escaping
 * guarantees, how the field scanner undoes it, that the line splitter loses
 * no text, how data lines are accounted for, and the round trip from
 * `exportCSV` back through `parseCSV`.
 */
module CsvLaws {
  import opened Text
  import opened Inventory
  import opened Csv

  // ---------------------------------------------------------------------
  // Escaping
  // ---------------------------------------------------------------------

  lemma {:induction false} ReplaceNewlinesClean(s: string)
    ensures '\r' !in ReplaceNewlines(s) && '\n' !in ReplaceNewlines(s)
    decreases |s|
  {
    if s == [] {
    } else if |s| > 1 && s[0] == '\r' && s[1] == '\n' {
      ReplaceNewlinesClean(s[2..]);
    } else {
      ReplaceNewlinesClean(s[1..]);
    }
  }

  lemma {:induction false} ReplaceNewlinesIdentity(s: string)
    requires '\r' !in s && '\n' !in s
    ensures ReplaceNewlines(s) == s
    decreases |s|
  {
    if s != [] {
      assert s[0] in s;
      ReplaceNewlinesIdentity(s[1..]);
      assert s == [s[0]] + s[1..];
    }
  }

  lemma {:induction false} DoubleQuotesKeepsOut(s: string, c: char)
    requires c != '"' && c !in s
    ensures c !in DoubleQuotes(s)
    decreases |s|
  {
    if s != [] {
      assert s[0] in s;
      DoubleQuotesKeepsOut(s[1..], c);
    }
  }

  /** Every CR and LF of a field becomes a space, so the `'\n'` test of
      `escapeCSVField` never fires: a field is quoted exactly when it holds
      a comma or a double quote, and then its quotes are doubled. No
      escaped field holds a CR or an LF. */
  lemma EscapeRule(field: string)
    ensures var v := ReplaceNewlines(field);
      && '\n' !in v
      && (NeedsQuotes(v) <==> ',' in v || '"' in v)
      && (NeedsQuotes(v) ==> Escape(field) == "\"" + DoubleQuotes(v) + "\"")
      && (!NeedsQuotes(v) ==> Escape(field) == v)
    ensures '\r' !in Escape(field) && '\n' !in Escape(field)
  {
    var v := ReplaceNewlines(field);
    ReplaceNewlinesClean(field);
    DoubleQuotesKeepsOut(v, '\r');
    DoubleQuotesKeepsOut(v, '\n');
  }

  // ---------------------------------------------------------------------
  // The field scanner undoes the escaping
  // ---------------------------------------------------------------------

  lemma {:induction false} ScanPlain(v: string, rest: string, current: string, inQuotes: bool)
    requires ',' !in v && '"' !in v
    ensures RawFields(v + rest, current, inQuotes) == RawFields(rest, current + v, inQuotes)
    decreases |v|
  {
    if v != [] {
      assert v[0] in v;
      assert (v + rest)[0] == v[0];
      assert (v + rest)[1..] == v[1..] + rest;
      ScanPlain(v[1..], rest, current + [v[0]], inQuotes);
      assert current + [v[0]] + v[1..] == current + v;
    } else {
      assert v + rest == rest;
      assert current + v == current;
    }
  }

  lemma {:induction false} ScanQuoted(v: string, rest: string, current: string)
    requires rest == [] || rest[0] != '"'
    ensures RawFields(DoubleQuotes(v) + "\"" + rest, current, true) == RawFields(rest, current + v, false)
    decreases |v|
  {
    var s := DoubleQuotes(v) + "\"" + rest;
    if v == [] {
      assert s == "\"" + rest;
      assert s[1..] == rest;
      assert current + v == current;
    } else {
      var tail := DoubleQuotes(v[1..]) + "\"" + rest;
      ScanQuoted(v[1..], rest, current + [v[0]]);
      assert current + [v[0]] + v[1..] == current + v;
      if v[0] == '"' {
        assert s == ['"', '"'] + tail;
        assert s[2..] == tail;
      } else {
        assert s == [v[0]] + tail;
        assert s[1..] == tail;
      }
    }
  }

  /** A quoted field with its quotes doubled, followed by a comma or the
      end of the line, is read back as the text inside the quotes. */
  lemma ScanQuotedField(v: string, rest: string)
    requires rest == [] || rest[0] == ','
    ensures RawFields("\"" + DoubleQuotes(v) + "\"" + rest, [], false) == RawFields(rest, v, false)
  {
    var s := "\"" + DoubleQuotes(v) + "\"" + rest;
    assert s[0] == '"';
    assert s[1..] == DoubleQuotes(v) + "\"" + rest;
    ScanQuoted(v, rest, []);
    assert [] + v == v;
  }

  /** An escaped field, followed by a comma or the end of the line, is read
      back as the field with its line breaks made spaces. */
  lemma ScanEscaped(field: string, rest: string)
    requires rest == [] || rest[0] == ','
    ensures RawFields(Escape(field) + rest, [], false) == RawFields(rest, ReplaceNewlines(field), false)
  {
    var v := ReplaceNewlines(field);
    if NeedsQuotes(v) {
      assert Escape(field) + rest == "\"" + DoubleQuotes(v) + "\"" + rest;
      ScanQuotedField(v, rest);
    } else {
      assert Escape(field) + rest == v + rest;
      ScanPlain(v, rest, [], false);
      assert [] + v == v;
    }
  }

  /** `escapeCSVField` of every field. */
  function EscapeAll(fields: seq<string>): (r: seq<string>)
    ensures |r| == |fields|
    decreases |fields|
  {
    if fields == [] then [] else [Escape(fields[0])] + EscapeAll(fields[1..])
  }

  /** Every field with its line breaks made spaces. */
  function Unbroken(fields: seq<string>): (r: seq<string>)
    ensures |r| == |fields|
    decreases |fields|
  {
    if fields == [] then [] else [ReplaceNewlines(fields[0])] + Unbroken(fields[1..])
  }

  lemma {:induction false} UnbrokenAt(fields: seq<string>, k: nat)
    requires k < |fields|
    ensures Unbroken(fields)[k] == ReplaceNewlines(fields[k])
    decreases k
  {
    if k > 0 {
      UnbrokenAt(fields[1..], k - 1);
    }
  }

  lemma {:induction false} ScanJoined(fs: seq<string>)
    requires |fs| >= 1
    ensures RawFields(Join(EscapeAll(fs), ','), [], false) == Unbroken(fs)
    decreases |fs|
  {
    var es := EscapeAll(fs);
    if |fs| == 1 {
      ScanEscaped(fs[0], []);
      assert Join(es, ',') + [] == Escape(fs[0]);
    } else {
      var tail := Join(EscapeAll(fs[1..]), ',');
      assert es[1..] == EscapeAll(fs[1..]);
      assert Join(es, ',') == Escape(fs[0]) + ([','] + tail);
      ScanEscaped(fs[0], [','] + tail);
      assert ([','] + tail)[1..] == tail;
      ScanJoined(fs[1..]);
    }
  }

  /** `parseCSVLine` reads a line of escaped fields back as the fields, each
      with its line breaks made spaces and trimmed: commas and doubled
      quotes inside a quoted field are kept, the enclosing quotes dropped. */
  lemma LineRoundTrip(fs: seq<string>)
    requires |fs| >= 1
    ensures |LineFields(Join(EscapeAll(fs), ','))| == |fs|
    ensures forall k :: 0 <= k < |fs| ==> LineFields(Join(EscapeAll(fs), ','))[k] == Trim(ReplaceNewlines(fs[k]))
  {
    ScanJoined(fs);
    forall k | 0 <= k < |fs| ensures LineFields(Join(EscapeAll(fs), ','))[k] == Trim(ReplaceNewlines(fs[k])) {
      UnbrokenAt(fs, k);
    }
  }

  /** A field wrapped in quotes and holding no quote is one field, its
      commas kept: `"Cadeira, de madeira"` reads as `Cadeira, de madeira`. */
  lemma QuotedFieldKeepsCommas(v: string)
    requires '"' !in v
    ensures LineFields("\"" + v + "\"") == [Trim(v)]
  {
    var s := "\"" + v + "\"";
    assert s[1..] == DoubleQuotes(v) + "\"" + [] by {
      DoubleQuotesNoQuote(v);
    }
    ScanQuoted(v, [], []);
    assert [] + v == v;
    assert s[0] == '"';
    assert RawFields(s, [], false) == RawFields(s[1..], [], true);
  }

  lemma {:induction false} DoubleQuotesNoQuote(v: string)
    requires '"' !in v
    ensures DoubleQuotes(v) == v
    decreases |v|
  {
    if v != [] {
      assert v[0] in v;
      DoubleQuotesNoQuote(v[1..]);
      assert v == [v[0]] + v[1..];
    }
  }

  // ---------------------------------------------------------------------
  // Normalization and the line splitter
  // ---------------------------------------------------------------------

  lemma {:induction false} CrLfToLfIdentity(s: string)
    requires '\r' !in s
    ensures CrLfToLf(s) == s
    decreases |s|
  {
    if s != [] {
      assert s[0] in s;
      CrLfToLfIdentity(s[1..]);
      assert s == [s[0]] + s[1..];
    }
  }

  /** A text without a byte-order mark at its head and without carriage
      returns is split as it is. */
  lemma NormalizeIdentity(t: string)
    requires '\r' !in t
    requires t == [] || t[0] != '\U{FEFF}'
    ensures NormalizeText(t) == t
  {
    CrLfToLfIdentity(t);
    assert CrToLf(t) == t;
  }

  lemma {:induction false} JoinSnoc(parts: seq<string>, x: string, sep: char)
    requires |parts| >= 1
    ensures Join(parts + [x], sep) == Join(parts, sep) + [sep] + x
    decreases |parts|
  {
    if |parts| == 1 {
      assert parts + [x] == [parts[0], x];
    } else {
      assert (parts + [x])[1..] == parts[1..] + [x];
      JoinSnoc(parts[1..], x, sep);
    }
  }

  lemma JoinExtendLast(parts: seq<string>, x: string, y: string, sep: char)
    ensures Join(parts + [x + y], sep) == Join(parts + [x], sep) + y
  {
    if parts == [] {
      assert [] + [x + y] == [x + y];
      assert [] + [x] == [x];
    } else {
      JoinSnoc(parts, x + y, sep);
      JoinSnoc(parts, x, sep);
    }
  }

  /** One step of the splitter that keeps `k` characters in the current
      line keeps them in the joined text too. */
  lemma SplitStepKeeps(s: string, st: Splitting, k: nat)
    requires 1 <= k <= |s|
    ensures Join(st.lines + [st.current + s[..k]], '\n') + s[k..] == Join(st.lines + [st.current], '\n') + s
  {
    JoinExtendLast(st.lines, st.current, s[..k], '\n');
    assert s == s[..k] + s[k..];
  }

  lemma {:induction false} SplitFromJoin(s: string, st: Splitting)
    ensures Join(SplitFrom(s, st), '\n') == Join(st.lines + [st.current], '\n') + s
    decreases |s|
  {
    if s == [] {
    } else if s[0] == '"' {
      if st.inQuotes && |s| > 1 && s[1] == '"' {
        var st' := st.(current := st.current + ['"'] + ['"']);
        assert st'.current == st.current + s[..2];
        SplitFromJoin(s[2..], st');
        SplitStepKeeps(s, st, 2);
      } else {
        var st' := st.(current := st.current + ['"'], inQuotes := !st.inQuotes);
        assert st'.current == st.current + s[..1];
        SplitFromJoin(s[1..], st');
        SplitStepKeeps(s, st, 1);
      }
    } else if s[0] == '\n' && !st.inQuotes {
      var parts := st.lines + [st.current];
      SplitFromJoin(s[1..], Splitting(parts, [], st.inQuotes));
      JoinSnoc(parts, [], '\n');
      assert s == ['\n'] + s[1..];
    } else {
      var st' := st.(current := st.current + [s[0]]);
      assert st'.current == st.current + s[..1];
      SplitFromJoin(s[1..], st');
      SplitStepKeeps(s, st, 1);
    }
  }

  /** The splitter loses and adds nothing: joining its lines with line feeds
      gives back the text. */
  lemma LinesJoinBack(text: string)
    ensures Join(Lines(text), '\n') == text
  {
    SplitFromJoin(text, Splitting([], [], false));
    assert [] + [[]] == [""];
  }

  // ---------------------------------------------------------------------
  // Line classification
  // ---------------------------------------------------------------------

  /** A line of white space only is not passed over as empty: it is read as
      one blank field and reported as a line without data. */
  lemma WhitespaceLineSkipped(line: string, lineNumber: nat, headers: seq<string>)
    requires line != "" && AllSpace(line)
    ensures Classify(line, lineNumber, headers) == Skip(Skipped(lineNumber, Content(line), NoData))
  {
    forall k | 0 <= k < |line| ensures line[k] != ',' && line[k] != '"' {
      assert IsSpace(line[k]);
    }
    ScanPlain(line, [], [], false);
    assert line + [] == line && [] + line == line;
    assert RawFields(line, [], false) == [line];
    TrimProperties(line);
    var values := LineFields(line);
    assert values == [Trim(line)];
    assert Trim(values[0]) == "";
  }

  /** Every skipped entry carries the line number it was given. */
  lemma ClassifyNumber(line: string, lineNumber: nat, headers: seq<string>)
    requires Classify(line, lineNumber, headers).Skip?
    ensures Classify(line, lineNumber, headers).entry.lineNumber == lineNumber
    ensures Classify(line, lineNumber, headers).entry.content == Content(line)
  {
  }

  /** A line is passed over without a report exactly when it is empty. */
  lemma BlankIffEmpty(line: string, lineNumber: nat, headers: seq<string>)
    ensures Classify(line, lineNumber, headers).Blank? <==> line == ""
  {
  }

  /** An accepted line gives the item its fields build, with a NUMERO that
      is not blank, and had as many fields as there are headers. */
  lemma AcceptedLine(line: string, lineNumber: nat, headers: seq<string>)
    requires Classify(line, lineNumber, headers).Accept?
    ensures |LineFields(line)| == |headers|
    ensures Classify(line, lineNumber, headers).item == BuildItem(headers, LineFields(line))
    ensures NUMERO in Classify(line, lineNumber, headers).item
    ensures Trim(Classify(line, lineNumber, headers).item[NUMERO]) != ""
  {
  }

  /** The keys of a built item are exactly the headers. */
  lemma {:induction false} BuildItemKeys(headers: seq<string>, values: seq<string>)
    requires |headers| == |values|
    ensures forall h :: h in BuildItem(headers, values) <==> h in headers
    decreases |headers|
  {
    if |headers| > 0 {
      var n := |headers| - 1;
      BuildItemKeys(headers[..n], values[..n]);
      assert headers == headers[..n] + [headers[n]];
    }
  }

  /** A header that no later header repeats maps to its own field; an
      earlier duplicate is overwritten. */
  lemma {:induction false} BuildItemLastWins(headers: seq<string>, values: seq<string>, k: nat)
    requires |headers| == |values| && k < |headers|
    requires forall j :: k < j < |headers| ==> headers[j] != headers[k]
    ensures headers[k] in BuildItem(headers, values)
    ensures BuildItem(headers, values)[headers[k]] == values[k]
    decreases |headers|
  {
    var n := |headers| - 1;
    if k < n {
      BuildItemLastWins(headers[..n], values[..n], k);
    }
  }

  // ---------------------------------------------------------------------
  // Accounting of the data lines
  // ---------------------------------------------------------------------

  /** The number of empty lines. */
  function EmptyCount(lines: seq<string>): nat {
    if lines == [] then 0
    else EmptyCount(lines[..|lines| - 1]) + (if lines[|lines| - 1] == "" then 1 else 0)
  }

  /** Every verdict gives an item, a report, or nothing, and the verdicts
      passed over are those on empty lines. */
  lemma {:induction false} VerdictAccounting(vs: seq<Verdict>, data: seq<string>)
    requires |vs| == |data|
    requires forall k :: 0 <= k < |vs| ==> (vs[k].Blank? <==> data[k] == "")
    ensures |AcceptedOf(vs)| + |SkippedOf(vs)| + EmptyCount(data) == |vs|
    decreases |vs|
  {
    if vs != [] {
      var n := |vs| - 1;
      VerdictAccounting(vs[..n], data[..n]);
    }
  }

  /** When the report of the verdict at index `k` carries line number
      `k + 2` and the start of data line `k`, the reports are in strictly
      increasing line order, from 2 to `|vs| + 1`, each showing its line. */
  lemma {:induction false} ReportOrder(vs: seq<Verdict>, data: seq<string>)
    requires |vs| == |data|
    requires forall k :: 0 <= k < |vs| && vs[k].Skip? ==>
      vs[k].entry.lineNumber == k + 2 && vs[k].entry.content == Content(data[k])
    ensures forall j :: 0 <= j < |SkippedOf(vs)| ==> 2 <= SkippedOf(vs)[j].lineNumber <= |vs| + 1
    ensures forall j :: 0 <= j < |SkippedOf(vs)| ==>
      SkippedOf(vs)[j].content == Content(data[SkippedOf(vs)[j].lineNumber - 2])
    ensures forall i, j :: 0 <= i < j < |SkippedOf(vs)| ==> SkippedOf(vs)[i].lineNumber < SkippedOf(vs)[j].lineNumber
    decreases |vs|
  {
    if vs != [] {
      var n := |vs| - 1;
      ReportOrder(vs[..n], data[..n]);
      var prev := SkippedOf(vs[..n]);
      var sk := SkippedOf(vs);
      assert vs[..n] == vs[..|vs| - 1];
      forall j | 0 <= j < |prev|
        ensures sk[j] == prev[j] && sk[j].content == Content(data[sk[j].lineNumber - 2])
      {
        assert 2 <= prev[j].lineNumber <= n + 1;
        assert prev[j].content == Content(data[..n][prev[j].lineNumber - 2]);
        assert data[..n][prev[j].lineNumber - 2] == data[prev[j].lineNumber - 2];
      }
      if vs[n].Skip? {
        assert sk == prev + [vs[n].entry];
        assert sk[|prev|] == vs[n].entry;
      } else {
        assert sk == prev;
      }
    }
  }

  /** What the verdict on each data line says about that line. */
  lemma VerdictFacts(lines: seq<string>, headers: seq<string>)
    requires |lines| >= 1
    ensures forall k :: 0 <= k < |lines| - 1 ==> (Verdicts(lines, headers)[k].Blank? <==> lines[1..][k] == "")
    ensures forall k :: 0 <= k < |lines| - 1 && Verdicts(lines, headers)[k].Skip? ==>
      Verdicts(lines, headers)[k].entry.lineNumber == k + 2
      && Verdicts(lines, headers)[k].entry.content == Content(lines[1..][k])
  {
    var vs := Verdicts(lines, headers);
    forall k | 0 <= k < |vs| ensures (vs[k].Blank? <==> lines[1..][k] == "") {
      BlankIffEmpty(lines[k + 1], k + 2, headers);
    }
    forall k | 0 <= k < |vs| && vs[k].Skip?
      ensures vs[k].entry.lineNumber == k + 2 && vs[k].entry.content == Content(lines[1..][k])
    {
      ClassifyNumber(lines[k + 1], k + 2, headers);
    }
  }

  /** Every data line is accounted for: it gave an item, a report, or was
      an empty line passed over. The reports are in line order, carry line
      numbers from 2 to the line count, and show the start of their line. */
  lemma ParseAccounting(csvText: string)
    requires ParseCsvSpec(csvText).Parsed?
    ensures ParseCsvSpec(csvText).result.totalLines == |Lines(NormalizeText(csvText))|
    ensures |ParseCsvSpec(csvText).result.items| + |ParseCsvSpec(csvText).result.skippedLines|
      + EmptyCount(Lines(NormalizeText(csvText))[1..]) + 1 == ParseCsvSpec(csvText).result.totalLines
    ensures forall j :: 0 <= j < |ParseCsvSpec(csvText).result.skippedLines| ==>
      2 <= ParseCsvSpec(csvText).result.skippedLines[j].lineNumber <= ParseCsvSpec(csvText).result.totalLines
    ensures forall j :: 0 <= j < |ParseCsvSpec(csvText).result.skippedLines| ==>
      ParseCsvSpec(csvText).result.skippedLines[j].content ==
      Content(Lines(NormalizeText(csvText))[ParseCsvSpec(csvText).result.skippedLines[j].lineNumber - 1])
    ensures forall i, j :: 0 <= i < j < |ParseCsvSpec(csvText).result.skippedLines| ==>
      ParseCsvSpec(csvText).result.skippedLines[i].lineNumber < ParseCsvSpec(csvText).result.skippedLines[j].lineNumber
  {
    var lines := Lines(NormalizeText(csvText));
    var headers := LineFields(lines[0]);
    var vs := Verdicts(lines, headers);
    var data := lines[1..];
    assert ParseCsvSpec(csvText).result == ParseResult(AcceptedOf(vs), |lines|, SkippedOf(vs));
    VerdictFacts(lines, headers);
    VerdictAccounting(vs, data);
    ReportOrder(vs, data);
    var sk := SkippedOf(vs);
    forall j | 0 <= j < |sk| ensures sk[j].content == Content(lines[sk[j].lineNumber - 1]) {
      assert data[sk[j].lineNumber - 2] == lines[sk[j].lineNumber - 1];
    }
  }

  // ---------------------------------------------------------------------
  // Imported items and the header check
  // ---------------------------------------------------------------------

  /** What every item `parseCSV` returns looks like: its keys are the
      header names, and its NUMERO is there and not blank. */
  ghost predicate Importable(item: Item, headers: seq<string>) {
    && (forall h :: h in item <==> h in headers)
    && NUMERO in item && Trim(item[NUMERO]) != ""
  }

  lemma {:induction false} AcceptedAllImportable(vs: seq<Verdict>, headers: seq<string>)
    requires forall k :: 0 <= k < |vs| && vs[k].Accept? ==> Importable(vs[k].item, headers)
    ensures forall j :: 0 <= j < |AcceptedOf(vs)| ==> Importable(AcceptedOf(vs)[j], headers)
    decreases |vs|
  {
    if vs != [] {
      var n := |vs| - 1;
      AcceptedAllImportable(vs[..n], headers);
    }
  }

  /** Every item `parseCSV` returns has the header names as its keys and a
      NUMERO that is not blank. */
  lemma ImportedItems(csvText: string)
    requires ParseCsvSpec(csvText).Parsed?
    ensures var headers := LineFields(Lines(NormalizeText(csvText))[0]);
      forall j :: 0 <= j < |ParseCsvSpec(csvText).result.items| ==>
        Importable(ParseCsvSpec(csvText).result.items[j], headers)
  {
    var lines := Lines(NormalizeText(csvText));
    var headers := LineFields(lines[0]);
    var vs := Verdicts(lines, headers);
    assert ParseCsvSpec(csvText).result.items == AcceptedOf(vs);
    forall k | 0 <= k < |vs| && vs[k].Accept? ensures Importable(vs[k].item, headers) {
      AcceptedLine(lines[k + 1], k + 2, headers);
      BuildItemKeys(headers, LineFields(lines[k + 1]));
    }
    AcceptedAllImportable(vs, headers);
  }

  lemma {:induction false} MissingAll(cols: seq<string>, headers: seq<string>)
    requires forall c :: c in cols ==> c !in headers
    ensures Missing(cols, headers) == cols
    decreases |cols|
  {
    if cols != [] {
      assert cols[0] in cols;
      MissingAll(cols[1..], headers);
      assert cols == [cols[0]] + cols[1..];
    }
  }

  lemma {:induction false} MissingNone(cols: seq<string>, headers: seq<string>)
    requires forall c :: c in cols ==> c in headers
    ensures Missing(cols, headers) == []
    decreases |cols|
  {
    if cols != [] {
      assert cols[0] in cols;
      MissingNone(cols[1..], headers);
    }
  }

  /** An empty file has one empty header and lacks every required column. */
  lemma EmptyInputMissesAll()
    ensures ParseCsvSpec("") == MissingColumns(Columns)
  {
    assert CrToLf("") == "";
    assert NormalizeText("") == "";
    assert Lines("") == [""];
    assert RawFields("", [], false) == [""];
    assert LineFields("") == [""];
    MissingAll(Columns, [""]);
  }
}
