/**
 * The round trip of src/utils/csv.ts: a file written by `exportCSV` and read
 * back by `parseCSV` gives back the exported items, restricted to the eight
 * required columns, each cell with its line breaks made spaces and trimmed.
 */
module CsvRoundTrip {
  import opened Text
  import opened Inventory
  import opened Csv
  import opened CsvLaws

  // ---------------------------------------------------------------------
  // The splitter keeps exported rows whole
  // ---------------------------------------------------------------------

  /** Text without quotes and line feeds is copied into the current line. */
  lemma {:induction false} SplitPlain(v: string, rest: string, st: Splitting)
    requires '"' !in v && '\n' !in v
    ensures SplitFrom(v + rest, st) == SplitFrom(rest, st.(current := st.current + v))
    decreases |v|
  {
    if v == [] {
      assert v + rest == rest;
      assert st.current + v == st.current;
      assert st.(current := st.current) == st;
    } else {
      assert v[0] in v;
      assert (v + rest)[0] == v[0];
      assert (v + rest)[1..] == v[1..] + rest;
      SplitPlain(v[1..], rest, st.(current := st.current + [v[0]]));
      assert st.current + [v[0]] + v[1..] == st.current + v;
    }
  }

  /** Inside quotes, a body with doubled quotes and no line feed, closed by
      a quote that no quote follows, is copied into the current line and
      leaves the quote closed. */
  lemma {:induction false} SplitQuoted(v: string, rest: string, st: Splitting)
    requires st.inQuotes && '\n' !in v
    requires rest == [] || rest[0] != '"'
    ensures SplitFrom(DoubleQuotes(v) + "\"" + rest, st) ==
      SplitFrom(rest, Splitting(st.lines, st.current + DoubleQuotes(v) + "\"", false))
    decreases |v|
  {
    var s := DoubleQuotes(v) + "\"" + rest;
    if v == [] {
      assert s == "\"" + rest;
      assert s[0] == '"' && s[1..] == rest;
      assert st.current + DoubleQuotes(v) + "\"" == st.current + ['"'];
      assert Splitting(st.lines, st.current + ['"'], false) == st.(current := st.current + ['"'], inQuotes := !st.inQuotes);
    } else {
      assert v[0] in v;
      var piece := if v[0] == '"' then ['"', '"'] else [v[0]];
      var tail := DoubleQuotes(v[1..]) + "\"" + rest;
      assert DoubleQuotes(v) == piece + DoubleQuotes(v[1..]);
      assert s == piece + tail;
      SplitQuoted(v[1..], rest, st.(current := st.current + piece));
      assert st.current + piece + DoubleQuotes(v[1..]) + "\"" == st.current + DoubleQuotes(v) + "\"";
      if v[0] == '"' {
        assert s[2..] == tail;
        assert st.current + ['"'] + ['"'] == st.current + piece;
      } else {
        assert s[1..] == tail;
      }
    }
  }

  /** A comma outside quotes is copied into the current line. */
  lemma CommaStep(rest: string, lines: seq<string>, current: string)
    ensures SplitFrom([','] + rest, Splitting(lines, current, false)) ==
      SplitFrom(rest, Splitting(lines, current + [','], false))
  {
    assert ([','] + rest)[1..] == rest;
  }

  /** A line feed outside quotes ends the current line. */
  lemma LineFeedStep(rest: string, lines: seq<string>, current: string)
    ensures SplitFrom(['\n'] + rest, Splitting(lines, current, false)) ==
      SplitFrom(rest, Splitting(lines + [current], [], false))
  {
    assert (['\n'] + rest)[1..] == rest;
  }

  /** `join` of two or more parts. */
  lemma JoinCons(parts: seq<string>, sep: char)
    requires |parts| >= 2
    ensures Join(parts, sep) == parts[0] + [sep] + Join(parts[1..], sep)
  {
  }

  /** A quoted field with its quotes doubled and no line feed inside,
      followed by a comma, a line feed or the end, is copied into the
      current line, with no quote left open. */
  lemma SplitQuotedField(v: string, rest: string, lines: seq<string>, current: string)
    requires '\n' !in v
    requires rest == [] || rest[0] == ',' || rest[0] == '\n'
    ensures SplitFrom("\"" + DoubleQuotes(v) + "\"" + rest, Splitting(lines, current, false)) ==
      SplitFrom(rest, Splitting(lines, current + ("\"" + DoubleQuotes(v) + "\""), false))
  {
    var s := "\"" + DoubleQuotes(v) + "\"" + rest;
    assert s[0] == '"' && s[1..] == DoubleQuotes(v) + "\"" + rest;
    SplitQuoted(v, rest, Splitting(lines, current + ['"'], true));
    assert current + ['"'] + DoubleQuotes(v) + "\"" == current + ("\"" + DoubleQuotes(v) + "\"");
  }

  /** An escaped field followed by a comma, a line feed or the end is
      copied into the current line, with no quote left open. */
  lemma SplitEscaped(field: string, rest: string, lines: seq<string>, current: string)
    requires rest == [] || rest[0] == ',' || rest[0] == '\n'
    ensures SplitFrom(Escape(field) + rest, Splitting(lines, current, false)) ==
      SplitFrom(rest, Splitting(lines, current + Escape(field), false))
  {
    var v := ReplaceNewlines(field);
    ReplaceNewlinesClean(field);
    if NeedsQuotes(v) {
      assert Escape(field) == "\"" + DoubleQuotes(v) + "\"";
      SplitQuotedField(v, rest, lines, current);
    } else {
      SplitPlain(v, rest, Splitting(lines, current, false));
    }
  }

  /** A line of escaped fields, followed by a line feed or the end, is
      copied into the current line, with no quote left open. */
  lemma {:induction false} SplitRow(fs: seq<string>, rest: string, lines: seq<string>, current: string)
    requires |fs| >= 1
    requires rest == [] || rest[0] == '\n'
    ensures SplitFrom(Join(EscapeAll(fs), ',') + rest, Splitting(lines, current, false)) ==
      SplitFrom(rest, Splitting(lines, current + Join(EscapeAll(fs), ','), false))
    decreases |fs|
  {
    var es := EscapeAll(fs);
    if |fs| == 1 {
      assert Join(es, ',') == Escape(fs[0]);
      SplitEscaped(fs[0], rest, lines, current);
    } else {
      var tail := Join(EscapeAll(fs[1..]), ',');
      assert es[1..] == EscapeAll(fs[1..]);
      JoinCons(es, ',');
      var after := [','] + (tail + rest);
      assert Join(es, ',') + rest == Escape(fs[0]) + after;
      SplitEscaped(fs[0], after, lines, current);
      var c1 := current + Escape(fs[0]);
      CommaStep(tail + rest, lines, c1);
      SplitRow(fs[1..], rest, lines, c1 + [',']);
      assert c1 + [','] + tail == current + Join(es, ',');
    }
  }

  /** The lines written for the field lists `rows`. */
  function Written(rows: seq<seq<string>>): (r: seq<string>)
    ensures |r| == |rows|
  {
    seq(|rows|, i requires 0 <= i < |rows| => Join(EscapeAll(rows[i]), ','))
  }

  /** The last written line is split off whole at the end of the text. */
  lemma SplitLastRow(fs: seq<string>, lines: seq<string>)
    requires |fs| >= 1
    ensures SplitFrom(Join(EscapeAll(fs), ','), Splitting(lines, [], false)) == lines + [Join(EscapeAll(fs), ',')]
  {
    var w := Join(EscapeAll(fs), ',');
    calc {
      SplitFrom(w, Splitting(lines, [], false));
    == { assert w == w + []; }
      SplitFrom(w + [], Splitting(lines, [], false));
    == { SplitRow(fs, [], lines, []); assert [] + w == w; }
      SplitFrom([], Splitting(lines, w, false));
    }
  }

  /** A written line followed by a line feed is split off as one line. */
  lemma SplitRowThenFeed(fs: seq<string>, tail: string, lines: seq<string>)
    requires |fs| >= 1
    ensures SplitFrom(Join(EscapeAll(fs), ',') + (['\n'] + tail), Splitting(lines, [], false))
         == SplitFrom(tail, Splitting(lines + [Join(EscapeAll(fs), ',')], [], false))
  {
    var w := Join(EscapeAll(fs), ',');
    calc {
      SplitFrom(w + (['\n'] + tail), Splitting(lines, [], false));
    == { SplitRow(fs, ['\n'] + tail, lines, []); assert [] + w == w; }
      SplitFrom(['\n'] + tail, Splitting(lines, w, false));
    == { LineFeedStep(tail, lines, w); }
      SplitFrom(tail, Splitting(lines + [w], [], false));
    }
  }

  /** The written lines are the first one, a line feed, and the rest. */
  lemma WrittenCons(rows: seq<seq<string>>)
    requires |rows| >= 2
    ensures Written(rows) == [Written(rows)[0]] + Written(rows[1..])
    ensures Join(Written(rows), '\n') == Written(rows)[0] + (['\n'] + Join(Written(rows[1..]), '\n'))
    ensures Written(rows)[0] == Join(EscapeAll(rows[0]), ',')
  {
    var w := Written(rows);
    assert w[1..] == Written(rows[1..]);
    assert w == [w[0]] + w[1..];
    JoinCons(w, '\n');
  }

  /** One written line and then more: the first line is split off and the
      rest is split as before. */
  lemma SplitWrittenStep(rows: seq<seq<string>>, lines: seq<string>)
    requires |rows| >= 2 && |rows[0]| >= 1
    requires SplitFrom(Join(Written(rows[1..]), '\n'), Splitting(lines + [Written(rows)[0]], [], false))
             == lines + [Written(rows)[0]] + Written(rows[1..])
    ensures SplitFrom(Join(Written(rows), '\n'), Splitting(lines, [], false)) == lines + Written(rows)
  {
    var w0 := Written(rows)[0];
    var rest := Written(rows[1..]);
    var restText := Join(rest, '\n');
    WrittenCons(rows);
    calc {
      SplitFrom(Join(Written(rows), '\n'), Splitting(lines, [], false));
    ==
      SplitFrom(w0 + (['\n'] + restText), Splitting(lines, [], false));
    == { SplitRowThenFeed(rows[0], restText, lines); }
      SplitFrom(restText, Splitting(lines + [w0], [], false));
    ==
      lines + [w0] + rest;
    == { assert Written(rows) == [w0] + rest; }
      lines + Written(rows);
    }
  }

  /** Lines of escaped fields joined by line feeds are split back into
      those lines. */
  lemma {:induction false} SplitWritten(rows: seq<seq<string>>, lines: seq<string>)
    requires |rows| >= 1
    requires forall i :: 0 <= i < |rows| ==> |rows[i]| >= 1
    ensures SplitFrom(Join(Written(rows), '\n'), Splitting(lines, [], false)) == lines + Written(rows)
    decreases |rows|
  {
    if |rows| == 1 {
      var w := Written(rows);
      assert Join(w, '\n') == w[0];
      SplitLastRow(rows[0], lines);
      assert w == [w[0]];
    } else {
      assert forall i :: 0 <= i < |rows| - 1 ==> rows[1..][i] == rows[i + 1];
      SplitWritten(rows[1..], lines + [Written(rows)[0]]);
      SplitWrittenStep(rows, lines);
    }
  }

  // ---------------------------------------------------------------------
  // The required column names
  // ---------------------------------------------------------------------

  /** A column name the export writes and the import reads unchanged: no
      comma, quote or line break, no white space at either end. */
  predicate PlainName(c: string) {
    ',' !in c && '"' !in c && '\r' !in c && '\n' !in c && c != "" && IsTrimmed(c)
  }

  lemma PlainNumero()
    ensures PlainName(NUMERO)
  {
  }

  lemma PlainDescricao()
    ensures PlainName(DESCRICAO)
  {
  }

  lemma PlainSala()
    ensures PlainName(SALA)
  {
  }

  lemma PlainEstado()
    ensures PlainName(ESTADO)
  {
  }

  lemma PlainStatus()
    ensures PlainName(STATUS)
  {
  }

  lemma PlainEtiquetado()
    ensures PlainName(ETIQUETADO)
  {
  }

  lemma PlainObservacao()
    ensures PlainName(OBSERVACAO)
  {
  }

  lemma PlainRecomendacao()
    ensures PlainName(RECOMENDACAO)
  {
  }

  lemma ColumnsPlain()
    ensures forall j :: 0 <= j < |Columns| ==> PlainName(Columns[j])
  {
    PlainNumero();
    PlainDescricao();
    PlainSala();
    PlainEstado();
    PlainStatus();
    PlainEtiquetado();
    PlainObservacao();
    PlainRecomendacao();
  }

  lemma ColumnsDistinct()
    ensures forall i, j :: 0 <= i < j < |Columns| ==> Columns[i] != Columns[j]
  {
  }

  // ---------------------------------------------------------------------
  // What the export writes
  // ---------------------------------------------------------------------

  /** The text the export writes for column `c` of `item` before escaping:
      `undefined` is written as the empty string. */
  function CellText(item: Item, c: string): string {
    if c in item then item[c] else ""
  }

  /** The cells of the eight required columns, in order. */
  function Cells(item: Item): (r: seq<string>)
    ensures |r| == |Columns|
  {
    seq(|Columns|, j requires 0 <= j < |Columns| => CellText(item, Columns[j]))
  }

  lemma {:induction false} EscapeAllAt(fs: seq<string>, j: nat)
    requires j < |fs|
    ensures EscapeAll(fs)[j] == Escape(fs[j])
    decreases j
  {
    if j > 0 {
      EscapeAllAt(fs[1..], j - 1);
    }
  }

  /** A written row is the escaped cells joined by commas. */
  lemma RowWritten(item: Item)
    ensures Row(item) == Join(EscapeAll(Cells(item)), ',')
  {
    var cells := Cells(item);
    var written := seq(|Columns|, j requires 0 <= j < |Columns| => EscapeField(Cell(item, Columns[j])));
    forall j | 0 <= j < |Columns| ensures written[j] == EscapeAll(cells)[j] {
      EscapeAllAt(cells, j);
      assert Escape("") == "";
    }
    assert written == EscapeAll(cells);
  }

  /** A plain name is written as it is. */
  lemma EscapePlain(c: string)
    requires PlainName(c)
    ensures Escape(c) == c
  {
    ReplaceNewlinesIdentity(c);
  }

  lemma HeaderWritten()
    ensures EscapeAll(Columns) == Columns
  {
    ColumnsPlain();
    forall j | 0 <= j < |Columns| ensures EscapeAll(Columns)[j] == Columns[j] {
      EscapeAllAt(Columns, j);
      EscapePlain(Columns[j]);
    }
  }

  /** The field lists the export writes: the column names, then the cells
      of each item. */
  function ExportRows(items: seq<Item>): (r: seq<seq<string>>)
    ensures |r| == |items| + 1
  {
    [Columns] + seq(|items|, k requires 0 <= k < |items| => Cells(items[k]))
  }

  lemma ExportWritten(items: seq<Item>)
    ensures ExportCsv(items) == Join(Written(ExportRows(items)), '\n')
  {
    var w := Written(ExportRows(items));
    var parts := [Join(Columns, ',')] + seq(|items|, k requires 0 <= k < |items| => Row(items[k]));
    forall i | 0 <= i < |parts| ensures parts[i] == w[i] {
      if i == 0 {
        HeaderWritten();
      } else {
        RowWritten(items[i - 1]);
      }
    }
    assert parts == w;
  }

  /** `join` keeps out a character that neither the separator nor any part
      holds. */
  lemma {:induction false} JoinKeepsOut(parts: seq<string>, sep: char, ch: char)
    requires ch != sep
    requires forall i :: 0 <= i < |parts| ==> ch !in parts[i]
    ensures ch !in Join(parts, sep)
    decreases |parts|
  {
    if |parts| >= 2 {
      JoinKeepsOut(parts[1..], sep, ch);
      JoinCons(parts, sep);
    }
  }

  /** `join` starts with the first character of its first part. */
  lemma JoinFirst(parts: seq<string>, sep: char)
    requires |parts| >= 1 && |parts[0]| >= 1
    ensures |Join(parts, sep)| >= 1 && Join(parts, sep)[0] == parts[0][0]
  {
    if |parts| >= 2 {
      JoinCons(parts, sep);
    }
  }

  /** No written line holds a carriage return. */
  lemma WrittenNoCr(rows: seq<seq<string>>)
    ensures forall i :: 0 <= i < |rows| ==> '\r' !in Written(rows)[i]
  {
    forall i | 0 <= i < |rows| ensures '\r' !in Written(rows)[i] {
      forall j | 0 <= j < |rows[i]| ensures '\r' !in EscapeAll(rows[i])[j] {
        EscapeAllAt(rows[i], j);
        EscapeRule(rows[i][j]);
      }
      JoinKeepsOut(EscapeAll(rows[i]), ',', '\r');
    }
  }

  /** The export holds no carriage return and no byte-order mark, so the
      normalization of `parseCSV` leaves it alone. */
  lemma ExportNormalized(items: seq<Item>)
    ensures NormalizeText(ExportCsv(items)) == ExportCsv(items)
  {
    var rows := ExportRows(items);
    var w := Written(rows);
    ExportWritten(items);
    WrittenNoCr(rows);
    JoinKeepsOut(w, '\n', '\r');
    assert w[0] == Join(Columns, ',') by {
      HeaderWritten();
    }
    JoinFirst(Columns, ',');
    JoinFirst(w, '\n');
    NormalizeIdentity(ExportCsv(items));
  }

  /** The export is split back into its header line and one line per item. */
  lemma ExportLines(items: seq<Item>)
    ensures Lines(NormalizeText(ExportCsv(items))) == Written(ExportRows(items))
  {
    var rows := ExportRows(items);
    var w := Written(rows);
    ExportNormalized(items);
    ExportWritten(items);
    SplitWritten(rows, []);
    assert [] + w == w;
  }

  /** The header line is read back as the column names. */
  lemma HeaderReadBack()
    ensures LineFields(Join(Columns, ',')) == Columns
  {
    HeaderWritten();
    LineRoundTrip(Columns);
    ColumnsPlain();
    forall j | 0 <= j < |Columns| ensures LineFields(Join(Columns, ','))[j] == Columns[j] {
      ReplaceNewlinesIdentity(Columns[j]);
      TrimOfTrimmed(Columns[j]);
    }
  }

  // ---------------------------------------------------------------------
  // Reading the export back
  // ---------------------------------------------------------------------

  /** The item `parseCSV` rebuilds from the row written for `item`: the
      eight required columns only, each cell with its line breaks made
      spaces and trimmed. */
  function Reimported(item: Item): (r: Item)
    ensures forall c :: c in r <==> c in Columns
  {
    map c | c in Columns :: Trim(ReplaceNewlines(CellText(item, c)))
  }

  /** The fields read back from the row written for `item`. */
  lemma RowFields(item: Item)
    ensures |LineFields(Row(item))| == |Columns|
    ensures forall j :: 0 <= j < |Columns| ==>
      LineFields(Row(item))[j] == Trim(ReplaceNewlines(CellText(item, Columns[j])))
  {
    RowWritten(item);
    LineRoundTrip(Cells(item));
  }

  /** Building an item from those fields gives `Reimported(item)`. */
  lemma RowItem(item: Item)
    ensures |LineFields(Row(item))| == |Columns|
    ensures BuildItem(Columns, LineFields(Row(item))) == Reimported(item)
  {
    RowFields(item);
    var values := LineFields(Row(item));
    var built := BuildItem(Columns, values);
    var expected := Reimported(item);
    BuildItemKeys(Columns, values);
    ColumnsDistinct();
    forall c | c in Columns ensures built[c] == expected[c] {
      var j :| 0 <= j < |Columns| && Columns[j] == c;
      BuildItemLastWins(Columns, values, j);
    }
    assert built == expected;
  }

  /** The row written for an item whose NUMERO cell is not blank is
      accepted, and gives back `Reimported(item)`. */
  lemma RowAccepted(item: Item, lineNumber: nat)
    requires Trim(ReplaceNewlines(CellText(item, NUMERO))) != ""
    ensures Classify(Row(item), lineNumber, Columns) == Accept(Reimported(item))
  {
    var line := Row(item);
    RowWritten(item);
    JoinCons(EscapeAll(Cells(item)), ',');
    assert line != "";
    RowFields(item);
    RowItem(item);
    var values := LineFields(line);
    assert values[0] == Trim(ReplaceNewlines(CellText(item, NUMERO)));
    TrimIdempotent(ReplaceNewlines(CellText(item, NUMERO)));
    assert Trim(values[0]) != "";
    assert Reimported(item)[NUMERO] == values[0];
  }

  lemma {:induction false} AllAccepted(vs: seq<Verdict>)
    requires forall k :: 0 <= k < |vs| ==> vs[k].Accept?
    ensures AcceptedOf(vs) == seq(|vs|, k requires 0 <= k < |vs| => vs[k].item)
    ensures SkippedOf(vs) == []
    decreases |vs|
  {
    if vs != [] {
      var n := |vs| - 1;
      AllAccepted(vs[..n]);
    }
  }

  /** The header line of the export is read back as the column names. */
  lemma ExportHeaders(items: seq<Item>)
    ensures |Lines(NormalizeText(ExportCsv(items)))| == |items| + 1
    ensures LineFields(Lines(NormalizeText(ExportCsv(items)))[0]) == Columns
  {
    ExportLines(items);
    HeaderWritten();
    HeaderReadBack();
  }

  /** Every data line of the export is accepted. */
  lemma ExportVerdicts(items: seq<Item>)
    requires forall k :: 0 <= k < |items| ==> Trim(ReplaceNewlines(CellText(items[k], NUMERO))) != ""
    ensures |Lines(NormalizeText(ExportCsv(items)))| == |items| + 1
    ensures forall k :: 0 <= k < |items| ==>
      Verdicts(Lines(NormalizeText(ExportCsv(items))), Columns)[k] == Accept(Reimported(items[k]))
  {
    var lines := Lines(NormalizeText(ExportCsv(items)));
    assert |lines| == |items| + 1 by {
      ExportLines(items);
    }
    forall k | 0 <= k < |items| ensures Verdicts(lines, Columns)[k] == Accept(Reimported(items[k])) {
      ExportVerdictAt(items, k);
    }
  }

  /** The verdict on data line `k` of the export accepts item `k`. */
  lemma ExportVerdictAt(items: seq<Item>, k: nat)
    requires k < |items|
    requires Trim(ReplaceNewlines(CellText(items[k], NUMERO))) != ""
    ensures |Lines(NormalizeText(ExportCsv(items)))| == |items| + 1
    ensures Verdicts(Lines(NormalizeText(ExportCsv(items))), Columns)[k] == Accept(Reimported(items[k]))
  {
    var lines := Lines(NormalizeText(ExportCsv(items)));
    ExportLineAt(items, k);
    calc {
      Verdicts(lines, Columns)[k];
      Classify(lines[k + 1], k + 2, Columns);
      Classify(Row(items[k]), k + 2, Columns);
    == { RowAccepted(items[k], k + 2); }
      Accept(Reimported(items[k]));
    }
  }

  /** Line `k + 1` of the export is the row of item `k`. */
  lemma ExportLineAt(items: seq<Item>, k: nat)
    requires k < |items|
    ensures |Lines(NormalizeText(ExportCsv(items)))| == |items| + 1
    ensures Lines(NormalizeText(ExportCsv(items)))[k + 1] == Row(items[k])
  {
    ExportLines(items);
    RowWritten(items[k]);
  }

  /** What `parseCSV` makes of what `exportCSV` writes: every item comes
      back, in order, as its eight required columns with line breaks made
      spaces and trimmed; nothing is skipped; the line count is one header
      line plus one line per item. */
  lemma ExportThenParse(items: seq<Item>)
    requires forall k :: 0 <= k < |items| ==> Trim(ReplaceNewlines(CellText(items[k], NUMERO))) != ""
    ensures ParseCsvSpec(ExportCsv(items)) ==
      Parsed(ParseResult(seq(|items|, k requires 0 <= k < |items| => Reimported(items[k])), |items| + 1, []))
  {
    var lines := Lines(NormalizeText(ExportCsv(items)));
    ExportHeaders(items);
    var vs := Verdicts(lines, Columns);
    var back := seq(|items|, k requires 0 <= k < |items| => Reimported(items[k]));
    assert AcceptedOf(vs) == back && SkippedOf(vs) == [] by {
      ExportVerdicts(items);
      AllAccepted(vs);
    }
    assert ParseCsvSpec(ExportCsv(items)) == Parsed(ParseResult(AcceptedOf(vs), |lines|, SkippedOf(vs))) by {
      MissingNone(Columns, Columns);
    }
  }

  /** An item is kept exactly by the round trip when it holds the eight
      required columns and no others, every cell is one trimmed line, and
      NUMERO is not empty. */
  ghost predicate Exportable(item: Item) {
    && (forall c :: c in item <==> c in Columns)
    && (forall c :: c in item ==> '\r' !in item[c] && '\n' !in item[c] && IsTrimmed(item[c]))
    && NUMERO in item && item[NUMERO] != ""
  }

  lemma ReimportedExportable(item: Item)
    requires Exportable(item)
    ensures Reimported(item) == item
  {
    forall c | c in Columns ensures Reimported(item)[c] == item[c] {
      ReplaceNewlinesIdentity(item[c]);
      TrimOfTrimmed(item[c]);
    }
  }

  /** `exportCSV` followed by `parseCSV` is the identity on exportable
      items. */
  lemma ExportImportIdentity(items: seq<Item>)
    requires forall k :: 0 <= k < |items| ==> Exportable(items[k])
    ensures ParseCsvSpec(ExportCsv(items)) == Parsed(ParseResult(items, |items| + 1, []))
  {
    forall k | 0 <= k < |items| ensures Trim(ReplaceNewlines(CellText(items[k], NUMERO))) != "" {
      ReimportedExportable(items[k]);
    }
    ExportThenParse(items);
    forall k | 0 <= k < |items| ensures Reimported(items[k]) == items[k] {
      ReimportedExportable(items[k]);
    }
    assert seq(|items|, k requires 0 <= k < |items| => Reimported(items[k])) == items;
  }
}
