/**
 * CSV import and export of the inventory tool (src/utils/csv.ts).
 *
 * The import strips a byte-order mark, turns CR LF and CR into LF, splits the
 * text into logical lines (a line feed inside double quotes does not end a
 * line), reads the header line, rejects the file when a required column is
 * missing, and then sorts every data line into an accepted item, a skipped
 * line with its reason, or an empty line that is passed over silently. The
 * export writes the eight required columns, quoting a cell that holds a comma
 * or a double quote.
 *
 * The two scanning loops (`parseCSVLine` and the line splitter inside
 * `parseCSV`) are methods proved against the functions `ScanLine` and
 * `SplitFrom`, which spell out the same character-by-character automaton;
 * the laws of the import and the export are stated about those functions.
 */
module Csv {
  import opened Text
  import opened Inventory

  /** `REQUIRED_COLUMNS`, in the order the header check reports them. */
  const Columns: seq<string> := [NUMERO, DESCRICAO, SALA, ESTADO, STATUS, ETIQUETADO, OBSERVACAO, RECOMENDACAO]

  // ---------------------------------------------------------------------
  // parseCSVLine
  // ---------------------------------------------------------------------

  /** The untrimmed fields `parseCSVLine` reads from the rest `s` of a line,
      the first of them starting with `current`, with `inQuotes` telling
      whether a quote is open. A quote inside quotes followed by another
      quote is one literal quote; any other quote toggles the quote mode and
      is dropped; a comma outside quotes ends the field. */
  function RawFields(s: string, current: string, inQuotes: bool): (r: seq<string>)
    decreases |s|
    ensures |r| >= 1
  {
    if s == [] then [current]
    else if s[0] == '"' then
      if inQuotes && |s| > 1 && s[1] == '"' then RawFields(s[2..], current + ['"'], inQuotes)
      else RawFields(s[1..], current, !inQuotes)
    else if s[0] == ',' && !inQuotes then [current] + RawFields(s[1..], [], inQuotes)
    else RawFields(s[1..], current + [s[0]], inQuotes)
  }

  /** Every field trimmed. */
  function TrimAll(fields: seq<string>): (r: seq<string>)
    ensures |r| == |fields|
  {
    seq(|fields|, k requires 0 <= k < |fields| => Trim(fields[k]))
  }

  /** `parseCSVLine(line)`: the fields of the line, each trimmed. */
  function LineFields(line: string): seq<string> {
    TrimAll(RawFields(line, [], false))
  }

  /** One step of `RawFields` at index `i` of a line. */
  lemma RawFieldsAt(line: string, i: nat, current: string, inQuotes: bool)
    requires i < |line|
    ensures RawFields(line[i..], current, inQuotes) ==
      if line[i] == '"' then
        if inQuotes && i + 1 < |line| && line[i + 1] == '"' then RawFields(line[i + 2..], current + ['"'], inQuotes)
        else RawFields(line[i + 1..], current, !inQuotes)
      else if line[i] == ',' && !inQuotes then [current] + RawFields(line[i + 1..], [], inQuotes)
      else RawFields(line[i + 1..], current + [line[i]], inQuotes)
  {
    var rest := line[i..];
    assert rest[0] == line[i];
    assert rest[1..] == line[i + 1..];
    if i + 1 < |line| {
      assert rest[1] == line[i + 1];
      assert rest[2..] == line[i + 2..];
    }
  }

  lemma TrimAllAppend(fields: seq<string>, f: string)
    ensures TrimAll(fields + [f]) == TrimAll(fields) + [Trim(f)]
  {
    var l := TrimAll(fields + [f]);
    var r := TrimAll(fields) + [Trim(f)];
    forall k | 0 <= k < |l| ensures l[k] == r[k] {
      if k < |fields| {
        assert (fields + [f])[k] == fields[k];
      } else {
        assert (fields + [f])[k] == f;
      }
    }
  }

  /** `parseCSVLine`: the loop over the characters of the line. */
  method ParseLine(line: string) returns (result: seq<string>)
    ensures result == LineFields(line)
  {
    result := [];
    ghost var raw: seq<string> := [];
    var current := "";
    var inQuotes := false;
    var i := 0;
    while i < |line|
      invariant 0 <= i <= |line|
      invariant result == TrimAll(raw)
      invariant raw + RawFields(line[i..], current, inQuotes) == RawFields(line, [], false)
      decreases |line| - i
    {
      RawFieldsAt(line, i, current, inQuotes);
      var c := line[i];
      var next := i + 1;
      if c == '"' {
        if inQuotes && i + 1 < |line| && line[i + 1] == '"' {
          current := current + ['"'];
          next := i + 2;
        } else {
          inQuotes := !inQuotes;
        }
      } else if c == ',' && !inQuotes {
        assert raw + [current] + RawFields(line[i + 1..], [], inQuotes) == RawFields(line, [], false);
        TrimAllAppend(raw, current);
        result := result + [Trim(current)];
        raw := raw + [current];
        current := "";
      } else {
        current := current + [c];
      }
      i := next;
    }
    assert line[i..] == [];
    assert raw + [current] == RawFields(line, [], false);
    TrimAllAppend(raw, current);
    result := result + [Trim(current)];
  }

  /** The number of commas `parseCSVLine` takes as field separators: those
      read while no quote is open, with the same quote tracking. */
  function Separators(s: string, inQuotes: bool): nat
    decreases |s|
  {
    if s == [] then 0
    else if s[0] == '"' then
      if inQuotes && |s| > 1 && s[1] == '"' then Separators(s[2..], inQuotes)
      else Separators(s[1..], !inQuotes)
    else if s[0] == ',' && !inQuotes then 1 + Separators(s[1..], inQuotes)
    else Separators(s[1..], inQuotes)
  }

  lemma {:induction false} RawFieldsCount(s: string, current: string, inQuotes: bool)
    ensures |RawFields(s, current, inQuotes)| == 1 + Separators(s, inQuotes)
    decreases |s|
  {
    if s == [] {
    } else if s[0] == '"' {
      if inQuotes && |s| > 1 && s[1] == '"' {
        RawFieldsCount(s[2..], current + ['"'], inQuotes);
      } else {
        RawFieldsCount(s[1..], current, !inQuotes);
      }
    } else if s[0] == ',' && !inQuotes {
      RawFieldsCount(s[1..], [], inQuotes);
    } else {
      RawFieldsCount(s[1..], current + [s[0]], inQuotes);
    }
  }

  /** `parseCSVLine` never returns an empty list: it returns one field more
      than the commas it reads outside quotes, and every field is trimmed. */
  lemma LineFieldsShape(line: string)
    ensures |LineFields(line)| == 1 + Separators(line, false)
    ensures forall k :: 0 <= k < |LineFields(line)| ==> IsTrimmed(LineFields(line)[k])
  {
    RawFieldsCount(line, [], false);
    var raw := RawFields(line, [], false);
    forall k | 0 <= k < |raw| ensures IsTrimmed(LineFields(line)[k]) {
      TrimProperties(raw[k]);
    }
  }

  // ---------------------------------------------------------------------
  // parseCSV: normalization and the line splitter
  // ---------------------------------------------------------------------

  /** One leading U+FEFF removed (`charCodeAt(0) === 0xFEFF`). */
  function StripBom(s: string): string {
    if |s| > 0 && s[0] == '\U{FEFF}' then s[1..] else s
  }

  /** `replace(/\r\n/g, '\n')`. */
  function CrLfToLf(s: string): (r: string)
    decreases |s|
  {
    if s == [] then []
    else if |s| > 1 && s[0] == '\r' && s[1] == '\n' then "\n" + CrLfToLf(s[2..])
    else [s[0]] + CrLfToLf(s[1..])
  }

  /** `replace(/\r/g, '\n')`. */
  function CrToLf(s: string): (r: string)
    ensures '\r' !in r
  {
    seq(|s|, i requires 0 <= i < |s| => if s[i] == '\r' then '\n' else s[i])
  }

  /** The text `parseCSV` splits: byte-order mark removed, line endings
      made `\n`. */
  function NormalizeText(csvText: string): string {
    CrToLf(CrLfToLf(StripBom(csvText)))
  }

  /** The state of the line splitter between two characters: the lines
      pushed so far, the line being read, and whether a quote is open. */
  datatype Splitting = Splitting(lines: seq<string>, current: string, inQuotes: bool)

  /** The lines the splitter of `parseCSV` produces when it goes on from
      state `st` over the rest `s` of the text. Quotes are kept in the line;
      a quote inside quotes followed by another quote is kept with it and
      leaves the mode alone, any other quote toggles it; a line feed outside
      quotes ends the line. */
  function SplitFrom(s: string, st: Splitting): (r: seq<string>)
    decreases |s|
    ensures |r| >= |st.lines| + 1
  {
    if s == [] then st.lines + [st.current]
    else if s[0] == '"' then
      if st.inQuotes && |s| > 1 && s[1] == '"' then SplitFrom(s[2..], st.(current := st.current + ['"'] + ['"']))
      else SplitFrom(s[1..], st.(current := st.current + ['"'], inQuotes := !st.inQuotes))
    else if s[0] == '\n' && !st.inQuotes then SplitFrom(s[1..], Splitting(st.lines + [st.current], [], st.inQuotes))
    else SplitFrom(s[1..], st.(current := st.current + [s[0]]))
  }

  /** The logical lines of a normalized text. */
  function Lines(text: string): seq<string> {
    SplitFrom(text, Splitting([], [], false))
  }

  /** One step of `SplitFrom` at index `i` of a text. */
  lemma SplitFromAt(text: string, i: nat, st: Splitting)
    requires i < |text|
    ensures SplitFrom(text[i..], st) ==
      if text[i] == '"' then
        if st.inQuotes && i + 1 < |text| && text[i + 1] == '"' then SplitFrom(text[i + 2..], st.(current := st.current + ['"'] + ['"']))
        else SplitFrom(text[i + 1..], st.(current := st.current + ['"'], inQuotes := !st.inQuotes))
      else if text[i] == '\n' && !st.inQuotes then SplitFrom(text[i + 1..], Splitting(st.lines + [st.current], [], st.inQuotes))
      else SplitFrom(text[i + 1..], st.(current := st.current + [text[i]]))
  {
    var rest := text[i..];
    assert rest[0] == text[i];
    assert rest[1..] == text[i + 1..];
    if i + 1 < |text| {
      assert rest[1] == text[i + 1];
      assert rest[2..] == text[i + 2..];
    }
  }

  /** The splitting loop of `parseCSV` (its `lineNumber` counter is never
      read and is left out). */
  method SplitLines(text: string) returns (lines: seq<string>)
    ensures lines == Lines(text)
  {
    lines := [];
    var currentLine := "";
    var inQuotes := false;
    var i := 0;
    while i < |text|
      invariant 0 <= i <= |text|
      invariant SplitFrom(text[i..], Splitting(lines, currentLine, inQuotes)) == Lines(text)
      decreases |text| - i
    {
      SplitFromAt(text, i, Splitting(lines, currentLine, inQuotes));
      var c := text[i];
      var next := i + 1;
      if c == '"' {
        currentLine := currentLine + [c];
        if inQuotes && i + 1 < |text| && text[i + 1] == '"' {
          currentLine := currentLine + [text[i + 1]];
          next := i + 2;
        } else {
          inQuotes := !inQuotes;
        }
      } else if c == '\n' && !inQuotes {
        lines := lines + [currentLine];
        currentLine := "";
      } else {
        currentLine := currentLine + [c];
      }
      i := next;
    }
    assert text[i..] == [];
    lines := lines + [currentLine];
  }

  // ---------------------------------------------------------------------
  // parseCSV: header check and line classification
  // ---------------------------------------------------------------------

  /** `REQUIRED_COLUMNS.filter(col => !headers.includes(col))`. */
  function Missing(cols: seq<string>, headers: seq<string>): (r: seq<string>)
    ensures |r| <= |cols|
    ensures forall c :: c in r <==> c in cols && c !in headers
  {
    if cols == [] then []
    else (if cols[0] in headers then [] else [cols[0]]) + Missing(cols[1..], headers)
  }

  /** Why a data line was skipped. */
  datatype Reason = NoData | ColumnCount(expected: nat, found: nat) | NoNumero

  /** An entry of `skippedLines`. */
  datatype Skipped = Skipped(lineNumber: nat, content: string, reason: Reason)

  /** What becomes of one data line. */
  datatype Verdict = Blank | Skip(entry: Skipped) | Accept(item: Item)

  /** `CSVParseResult`. */
  datatype ParseResult = ParseResult(items: seq<Item>, totalLines: nat, skippedLines: seq<Skipped>)

  /** `parseCSV` returns a result or throws for missing required columns. */
  datatype Outcome = Parsed(result: ParseResult) | MissingColumns(columns: seq<string>)

  /** `lineContent.substring(0, 200)`. */
  function Content(line: string): string {
    if |line| <= 200 then line else line[..200]
  }

  /** The item `headers.forEach((header, index) => item[header] = values[index] || '')`
      builds: header by header, a later duplicate overwriting an earlier one. */
  function BuildItem(headers: seq<string>, values: seq<string>): Item
    requires |headers| == |values|
    decreases |headers|
  {
    if |headers| == 0 then map[]
    else BuildItem(headers[..|headers| - 1], values[..|values| - 1])[headers[|headers| - 1] := values[|values| - 1]]
  }

  /** The decision `parseCSV` takes on the data line `line`, reported as line
      `lineNumber`. Only a line that is exactly empty is passed over: a
      line of white space goes on to the field checks. */
  function Classify(line: string, lineNumber: nat, headers: seq<string>): Verdict {
    if line == "" then Blank
    else
      var values := LineFields(line);
      if |values| == 0 || forall k :: 0 <= k < |values| ==> Trim(values[k]) == "" then
        Skip(Skipped(lineNumber, Content(line), NoData))
      else if |values| != |headers| then
        Skip(Skipped(lineNumber, Content(line), ColumnCount(|headers|, |values|)))
      else
        var item := BuildItem(headers, values);
        if NUMERO !in item || Trim(item[NUMERO]) == "" then
          Skip(Skipped(lineNumber, Content(line), NoNumero))
        else
          Accept(item)
  }

  /** The decisions on the data lines, the line at index `k + 1` reported
      as line `k + 2`. */
  function Verdicts(lines: seq<string>, headers: seq<string>): (vs: seq<Verdict>)
    requires |lines| >= 1
    ensures |vs| == |lines| - 1
  {
    seq(|lines| - 1, k requires 0 <= k < |lines| - 1 => Classify(lines[k + 1], k + 2, headers))
  }

  /** The accepted items, in line order. */
  function AcceptedOf(vs: seq<Verdict>): seq<Item> {
    if vs == [] then []
    else AcceptedOf(vs[..|vs| - 1]) + (if vs[|vs| - 1].Accept? then [vs[|vs| - 1].item] else [])
  }

  /** The skipped entries, in line order. */
  function SkippedOf(vs: seq<Verdict>): seq<Skipped> {
    if vs == [] then []
    else SkippedOf(vs[..|vs| - 1]) + (if vs[|vs| - 1].Skip? then [vs[|vs| - 1].entry] else [])
  }

  /** `parseCSV(csvText)`. */
  function ParseCsvSpec(csvText: string): Outcome {
    var lines := Lines(NormalizeText(csvText));
    var headers := LineFields(lines[0]);
    var missing := Missing(Columns, headers);
    if |missing| > 0 then MissingColumns(missing)
    else
      var vs := Verdicts(lines, headers);
      Parsed(ParseResult(AcceptedOf(vs), |lines|, SkippedOf(vs)))
  }

  /** The body of the `for` loop of `parseCSV` for one data line. */
  method ClassifyLine(line: string, lineNumber: nat, headers: seq<string>) returns (v: Verdict)
    ensures v == Classify(line, lineNumber, headers)
  {
    if Trim(line) == "" && line == "" {
      return Blank;
    }
    var values := ParseLine(line);
    if |values| == 0 || forall k :: 0 <= k < |values| ==> Trim(values[k]) == "" {
      return Skip(Skipped(lineNumber, Content(line), NoData));
    }
    if |values| != |headers| {
      return Skip(Skipped(lineNumber, Content(line), ColumnCount(|headers|, |values|)));
    }
    var item := MapValues(headers, values);
    if NUMERO !in item || Trim(item[NUMERO]) == "" {
      return Skip(Skipped(lineNumber, Content(line), NoNumero));
    }
    return Accept(item);
  }

  /** The `headers.forEach` loop that fills a new item. */
  method MapValues(headers: seq<string>, values: seq<string>) returns (item: Item)
    requires |headers| == |values|
    ensures item == BuildItem(headers, values)
  {
    item := map[];
    var k := 0;
    while k < |headers|
      invariant 0 <= k <= |headers|
      invariant item == BuildItem(headers[..k], values[..k])
    {
      assert headers[..k + 1][..k] == headers[..k];
      assert values[..k + 1][..k] == values[..k];
      item := item[headers[k] := values[k]];
      k := k + 1;
    }
    assert headers[..k] == headers && values[..k] == values;
  }

  /** `parseCSV`. */
  method ParseCsv(csvText: string) returns (outcome: Outcome)
    ensures outcome == ParseCsvSpec(csvText)
  {
    var normalizedText := NormalizeText(csvText);
    var lines := SplitLines(normalizedText);
    var headers := ParseLine(lines[0]);
    var missing := Missing(Columns, headers);
    if |missing| > 0 {
      return MissingColumns(missing);
    }
    ghost var vs := Verdicts(lines, headers);
    var items: seq<Item> := [];
    var skippedLines: seq<Skipped> := [];
    var i := 1;
    while i < |lines|
      invariant 1 <= i <= |lines|
      invariant |vs| == |lines| - 1
      invariant items == AcceptedOf(vs[..i - 1])
      invariant skippedLines == SkippedOf(vs[..i - 1])
      decreases |lines| - i
    {
      var v := ClassifyLine(lines[i], i + 1, headers);
      assert v == vs[i - 1];
      assert vs[..i][..i - 1] == vs[..i - 1];
      match v {
        case Blank =>
        case Skip(entry) => skippedLines := skippedLines + [entry];
        case Accept(item) => items := items + [item];
      }
      i := i + 1;
    }
    assert vs[..i - 1] == vs;
    outcome := Parsed(ParseResult(items, |lines|, skippedLines));
  }

  // ---------------------------------------------------------------------
  // escapeCSVField and exportCSV
  // ---------------------------------------------------------------------

  /** `value.replace(/(\r\n|\n|\r)/gm, " ")`: each CR LF, LF or CR becomes
      one space. */
  function ReplaceNewlines(s: string): (r: string)
    decreases |s|
  {
    if s == [] then []
    else if |s| > 1 && s[0] == '\r' && s[1] == '\n' then " " + ReplaceNewlines(s[2..])
    else if s[0] == '\r' || s[0] == '\n' then " " + ReplaceNewlines(s[1..])
    else [s[0]] + ReplaceNewlines(s[1..])
  }

  /** `value.replace(/"/g, '""')`. */
  function DoubleQuotes(s: string): string
    decreases |s|
  {
    if s == [] then []
    else (if s[0] == '"' then ['"', '"'] else [s[0]]) + DoubleQuotes(s[1..])
  }

  /** The quoting test of `escapeCSVField`. */
  predicate NeedsQuotes(v: string) {
    ',' in v || '"' in v || '\n' in v
  }

  /** `escapeCSVField` of a string. */
  function Escape(field: string): string {
    var value := ReplaceNewlines(field);
    if NeedsQuotes(value) then "\"" + DoubleQuotes(value) + "\"" else value
  }

  /** `escapeCSVField`: `null` and `undefined` give the empty string. */
  function EscapeField(field: Option<string>): string {
    match field
    case None => ""
    case Some(f) => Escape(f)
  }

  /** `item[column]`, `None` for `undefined`. */
  function Cell(item: Item, column: string): Option<string> {
    if column in item then Some(item[column]) else None
  }

  /** `parts.join(sep)`. */
  function Join(parts: seq<string>, sep: char): string
    decreases |parts|
  {
    if |parts| == 0 then ""
    else if |parts| == 1 then parts[0]
    else parts[0] + [sep] + Join(parts[1..], sep)
  }

  /** One exported line: the eight required columns of the item, escaped
      and joined by commas. */
  function Row(item: Item): string {
    Join(seq(|Columns|, j requires 0 <= j < |Columns| => EscapeField(Cell(item, Columns[j]))), ',')
  }

  /** `exportCSV(items)`: the header line, then one line per item, joined by
      line feeds. */
  function ExportCsv(items: seq<Item>): string {
    Join([Join(Columns, ',')] + seq(|items|, k requires 0 <= k < |items| => Row(items[k])), '\n')
  }
}
