# IFB-Inventario, modelled in Dafny

IFB-Inventario is a browser tool for checking a campus asset inventory. A
base of items (NUMERO, DESCRIÇÃO, SALA, ESTADO DE CONSERVAÇÃO, STATUS,
ETIQUETADO, OBSERVAÇÃO, RECOMENDAÇÃO) is imported from CSV and kept in
browser storage. The inspector picks a room, searches items by number,
marks each one found ("Localizado") or moved ("Migrado"), edits it by hand
or by voice, and exports the base back to CSV.

This project models the logic of that tool:

- the CSV importer and exporter (`csv.dfy`, with laws in `csv_laws.dfy` and
  the export/import round trip in `csv_roundtrip.dfy`);
- the store of bases (`storage.dfy`);
- the two voice-transcript interpreters: the keyword heuristics of
  `parseSpeechText` (`speech_parser.dfy`) and the regular expressions of
  `parseVoiceCommand` (`voice_command.dfy`);
- the form filler (`fill_form.dfy`) and the item lookup over saved bases
  (`find_item.dfy`);
- the room lists of the room-selection card view and of the rooms page
  (`room_selection.dfy`, `rooms_page.dfy`);
- the item verification form, as a class whose state the search and the
  field edits update (`item_form.dfy`).

Shared pieces live in `text.dfy` and `types.dfy`:

- JavaScript's `trim`, `\s`, `\w`, `toLowerCase` and `toUpperCase` on ASCII
  and Latin-1, `includes`, `indexOf` and `split(k)[1]`;
- the item and base types.

Each loop of the source is a method proved against a specification
function:

- `parseCSVLine` is `Csv.ParseLine`;
- the quote-aware line splitter is `Csv.SplitLines`;
- `parseCSV` is `Csv.ParseCsv`;
- the keyword loops of `parseSpeechText` are `SpeechParser.FirstMatch`;
  `parseSpeechText` assigns the fields of `parsed` one statement at a time,
  and `SpeechParser.ParseSpeechText` follows it with one `Extract` method
  per field, each proved equal to that field's specification function;
- the base loop of `findItemByNumero` is `FindItem.FindItemByNumero`;
- the row loop of `loadRoomsFromBase` is `RoomsPage.LoadRooms`.

The store is a class holding the list of bases. Its operations reassign
that list as the source rewrites the stored JSON.

## Model

| member | source | states |
|---|---|---|
| Text.TrimProperties | src/utils/csv.ts:45 | `trim` leaves no white space at either end, never lengthens, and gives "" exactly for all-white-space text |
| Text.TrimIdempotent | src/services/findItem.ts:43 | trimming twice is trimming once |
| Text.Lower | src/lib/parser.ts:13 | `toLowerCase` keeps the length and maps each character by the case table |
| Text.IndexOf | src/lib/parser.ts:65 | `indexOf` returns the first occurrence at or after the start, and none only when the text occurs nowhere there |
| Text.SecondPiece | src/lib/parser.ts:53 | `split(k)[1]` exists exactly when `k` occurs, and is the text between the first and second occurrences |
| Text.DigitRun | src/lib/parser.ts:17 | the run of digits at a position is maximal |
| Csv.ParseLine | src/utils/csv.ts:25-56 | `parseCSVLine` returns the trimmed fields of the quote-aware scan (doubled quotes inside quotes are one quote; commas inside quotes do not split) |
| Csv.RawFieldsAt | src/utils/csv.ts:30-50 | one scan step, by the character read: a doubled quote inside quotes, a quote toggle, a separator, or any other character |
| Csv.LineFieldsShape | src/utils/csv.ts:25-56 | a line has one more field than unquoted commas, and every field is trimmed |
| Csv.SplitLines | src/utils/csv.ts:71-102 | the splitter cuts at line feeds outside quotes, keeps the quotes in the line, and always pushes the last line |
| Csv.SplitFromAt | src/utils/csv.ts:77-98 | one splitter step, by the character read |
| Csv.CrToLf | src/utils/csv.ts:66 | after line-ending normalisation no carriage return is left |
| Csv.Missing | src/utils/csv.ts:111 | the missing columns are the required columns not among the headers, in required order |
| Csv.ClassifyLine | src/utils/csv.ts:124-174 | one data line: "" is passed over silently; otherwise it is skipped for no data, for a column-count mismatch or for an empty NUMERO, or accepted |
| Csv.MapValues | src/utils/csv.ts:157-162 | the item maps each header to its value, a later equal header overwriting an earlier one |
| Csv.ParseCsv | src/utils/csv.ts:58-190 | `parseCSV`: BOM and line endings normalised, lines split, the missing required columns reported, otherwise the accepted items, the line total and the skipped lines in order |
| Csv.Verdicts | src/utils/csv.ts:123-183 | there is one verdict per data line |
| CsvLaws.ReplaceNewlinesClean | src/utils/csv.ts:199 | an exported value holds no CR or LF |
| CsvLaws.ReplaceNewlinesIdentity | src/utils/csv.ts:199 | a value with no CR or LF is written unchanged |
| CsvLaws.EscapeRule | src/utils/csv.ts:192-210 | a field is quoted exactly when it holds a comma or a quote, with its quotes doubled, and never holds a line break |
| CsvLaws.ScanEscaped | src/utils/csv.ts:25-56 | the line scanner reads an escaped field back as the value with line breaks turned into spaces |
| CsvLaws.ScanQuoted | src/utils/csv.ts:34-42 | inside quotes a doubled quote reads as one quote, and the closing quote ends the quoted part |
| CsvLaws.LineRoundTrip | src/utils/csv.ts:192-217 | a row written by the exporter parses back to as many fields as were written, each the trimmed value with line breaks turned into spaces |
| CsvLaws.QuotedFieldKeepsCommas | src/utils/csv.ts:43 | a comma inside a quoted field does not split it |
| CsvLaws.NormalizeIdentity | src/utils/csv.ts:59-66 | text with no BOM and no CR is unchanged by normalisation |
| CsvLaws.LinesJoinBack | src/utils/csv.ts:71-102 | joining the split lines with line feeds gives back the text |
| CsvLaws.WhitespaceLineSkipped | src/utils/csv.ts:126-144 | a line of white space only is reported as having no data, not passed over |
| CsvLaws.ClassifyNumber | src/utils/csv.ts:139-170 | a skipped line carries its number and its first 200 characters |
| CsvLaws.BlankIffEmpty | src/utils/csv.ts:127-131 | only the empty line is passed over silently |
| CsvLaws.AcceptedLine | src/utils/csv.ts:148-174 | an accepted line has one value per header, gives the header-to-value item, and has a non-blank NUMERO |
| CsvLaws.BuildItemKeys | src/utils/csv.ts:160-162 | the item's keys are exactly the headers |
| CsvLaws.BuildItemLastWins | src/utils/csv.ts:160-162 | the value under a header is the value of its last occurrence |
| CsvLaws.VerdictAccounting | src/utils/csv.ts:123-183 | every data line is accepted, skipped or empty, once |
| CsvLaws.ReportOrder | src/utils/csv.ts:139-181 | skipped lines are reported with numbers 2 to n+1, in increasing order |
| CsvLaws.VerdictFacts | src/utils/csv.ts:123-183 | a verdict is Blank exactly for an empty line, and a skipped line is reported with the line number i + 1 |
| CsvLaws.ParseAccounting | src/utils/csv.ts:58-190 | `totalLines` counts every line; items + skipped + empty data lines = lines − 1; skipped line numbers are in range, increasing, and carry their content |
| CsvLaws.ImportedItems | src/utils/csv.ts:157-174 | every imported item has exactly the header keys and a non-blank NUMERO |
| CsvLaws.MissingAll | src/utils/csv.ts:111 | with none of the columns present, all are reported |
| CsvLaws.MissingNone | src/utils/csv.ts:111-114 | with every column present, none is reported |
| CsvLaws.EmptyInputMissesAll | src/utils/csv.ts:104-114 | an empty file is rejected for missing all eight required columns |
| CsvRoundTrip.SplitEscaped | src/utils/csv.ts:81-97 | the line splitter keeps an escaped field whole, with its quotes |
| CsvRoundTrip.SplitWritten | src/utils/csv.ts:71-102 | the splitter cuts exported text back into exactly the rows written |
| CsvRoundTrip.HeaderWritten | src/utils/csv.ts:213-216 | the header row is the column names unescaped |
| CsvRoundTrip.ExportNormalized | src/utils/csv.ts:59-66 | exported text has no BOM and no CR, so import leaves it as it is |
| CsvRoundTrip.ExportLines | src/utils/csv.ts:212-217 | exported text splits into the header line and one line per item |
| CsvRoundTrip.HeaderReadBack | src/utils/csv.ts:108-114 | the exported header parses back to the eight required columns |
| CsvRoundTrip.RowItem | src/utils/csv.ts:157-162 | an exported row maps back to the item's eight columns, each trimmed with line breaks turned into spaces, absent ones as "" |
| CsvRoundTrip.RowAccepted | src/utils/csv.ts:164-174 | an exported row whose NUMERO is not blank is accepted back |
| CsvRoundTrip.ExportVerdicts | src/utils/csv.ts:123-183 | every line of an export is accepted |
| CsvRoundTrip.ExportThenParse | src/utils/csv.ts:58-217 | importing an export gives the items back in order, in their exported form, with |items| + 1 lines and nothing skipped |
| CsvRoundTrip.ExportImportIdentity | src/utils/csv.ts:58-217 | items with exactly the eight columns, trimmed, without line breaks and with a non-blank NUMERO come back unchanged |
| CsvRoundTrip.ReimportedExportable | src/utils/csv.ts:192-210 | such an item is a fixed point of export followed by import |
| Storage.IndexById | src/utils/storage.ts:12 | `findIndex` by id: the first base with the id, none exactly when no base has it |
| Storage.IndexByNumero | src/utils/storage.ts:37 | `findIndex` by NUMERO: the first item with that number |
| Storage.Merge | src/utils/storage.ts:39-42 | `{...item, ...updates}`: the keys of both, updates winning |
| Storage.InventoryStore.constructor | src/utils/storage.ts:5-8 | nothing stored yet reads as no bases |
| Storage.InventoryStore.GetDatabase | src/utils/storage.ts:28-31 | `getDatabase` returns a stored base with that id, and none exactly when no stored base has it |
| Storage.InventoryStore.SaveDatabase | src/utils/storage.ts:10-21 | `saveDatabase` replaces the first base with the same id, or appends |
| Storage.InventoryStore.DeleteDatabase | src/utils/storage.ts:23-26 | `deleteDatabase` drops every base with the id |
| Storage.InventoryStore.UpdateItem | src/utils/storage.ts:33-44 | `updateItem` merges the updates into the first item with the number in the first base with the id, and changes nothing otherwise |
| Storage.LookupFirst | src/utils/storage.ts:28-31 | a lookup finds the first base with the id, and finds one exactly when one exists |
| Storage.SaveReplacesOrAppends | src/utils/storage.ts:10-21 | saving keeps the length and replaces only the first base with the id, or appends when there is none |
| Storage.SaveThenGet | src/utils/storage.ts:10-31 | a saved base is read back |
| Storage.SaveKeepsOthers | src/utils/storage.ts:10-31 | saving does not change the lookup of another id |
| Storage.DeleteFilters | src/utils/storage.ts:23-26 | after a delete the bases are exactly the old ones with another id |
| Storage.DeleteKeepsOrder | src/utils/storage.ts:24 | the filter keeps the order |
| Storage.DeleteThenGet | src/utils/storage.ts:23-31 | a deleted id is no longer found |
| Storage.UpdateNoOp | src/utils/storage.ts:35-38 | an unknown base or number leaves the store unchanged |
| Storage.UpdateChangesOneItem | src/utils/storage.ts:33-44 | an update changes one item of one base, by merge, and nothing else |
| SpeechParser.Normalize | src/lib/parser.ts:13 | lower-cases each character and turns `, ; . :` into spaces, keeping the length |
| SpeechParser.FirstLongNumber | src/lib/parser.ts:17 | the first place a word-bounded run of three or more digits starts |
| SpeechParser.FirstContained | src/lib/parser.ts:29-31 | the first key, in list order, that the text contains |
| SpeechParser.EstadoOf | src/lib/parser.ts:21-31 | a recognised estado is never empty |
| SpeechParser.FirstMatch | src/lib/parser.ts:29-31 | the keyword loop stops at the first key contained |
| SpeechParser.ExtractEstado | src/lib/parser.ts:20-31 | the estado of the first estado key contained |
| SpeechParser.ExtractStatus | src/lib/parser.ts:33-42 | the status of the first status key contained |
| SpeechParser.ExtractObservacao | src/lib/parser.ts:49-61 | the keyword observation, or the fallback after the estado |
| SpeechParser.ParseSpeechText | src/lib/parser.ts:12-70 | `parseSpeechText` is the field-by-field interpretation of the normalised text |
| SpeechParser.ExtractNumero | src/lib/parser.ts:17-18 | the assignment of `parsed.numero` gives the number of the specification |
| SpeechParser.ExtractEtiquetado | src/lib/parser.ts:44-47 | the assignment of `parsed.etiquetado` gives the label answer of the specification |
| SpeechParser.ExtractRecomendacao | src/lib/parser.ts:63-67 | the assignment of `parsed.recomendacao` gives the recommendation of the specification |
| SpeechParser.NormalizeIdempotent | src/lib/parser.ts:13 | normalising twice is normalising once, so a normalised transcript reads the same |
| SpeechParser.StatusNeverNaoLocalizado | src/lib/parser.ts:34-42 | "Não Localizado" is never chosen, because "localizado" is tried first and occurs inside it; a status is found exactly when "localizado" or "migrado" occurs |
| SpeechParser.BomWins | src/lib/parser.ts:21-31 | "bom" anywhere gives estado Bom, whatever else is said |
| SpeechParser.EtiquetadoRule | src/lib/parser.ts:45-47 | a label answer exactly when "etiqueta" occurs; "Não" exactly when "não" or "nao" also occurs anywhere |
| SpeechParser.KeywordObservacaoFound | src/lib/parser.ts:50-56 | a keyword observation exactly when "obs" occurs, trimmed |
| SpeechParser.ObservacaoCases | src/lib/parser.ts:50-61 | a non-empty keyword observation wins; otherwise only the trimmed text after the estado's value can replace it |
| SpeechParser.FallbackNeedsAccentedValue | src/lib/parser.ts:21-61 | "irreversivel" without the accent gives the estado but never the fallback observation |
| SpeechParser.RecomendacaoFound | src/lib/parser.ts:64-67 | a recommendation exactly when "recomend" occurs |
| SpeechParser.DropStemWords | src/lib/parser.ts:66 | which part of each spoken word survives the stem removal |
| SpeechParser.NumeroIsDigitRun | src/lib/parser.ts:17-18 | the number is at least three digits found as they are in the transcript; none exactly when no such run exists |
| SpeechParser.DigitRunCopied | src/lib/parser.ts:13 | normalising leaves digits where they were |
| VoiceCommand.Normalize | src/components/VoiceCommand.tsx:86 | lower-casing and deleting `.` and `,` leaves neither and never lengthens |
| VoiceCommand.NormalizeAppend | src/components/VoiceCommand.tsx:86 | normalisation works piece by piece |
| VoiceCommand.NormalizeNormal | src/components/VoiceCommand.tsx:86 | lower-case text without `.` or `,` is unchanged |
| VoiceCommand.CapitalizeProperties | src/components/VoiceCommand.tsx:93-96 | "" stays ""; otherwise only the first character changes; capitalising is idempotent |
| VoiceCommand.SpaceRun | src/components/VoiceCommand.tsx:109 | `\s+` at its greediest takes the maximal white-space run |
| VoiceCommand.ClassRun | src/components/VoiceCommand.tsx:109 | `[\w\sà-ú]+` at its greediest takes the maximal run of the class |
| VoiceCommand.FirstMatchAt | src/components/VoiceCommand.tsx:109-125 | `match` finds the leftmost starting place |
| VoiceCommand.BeforeFirst | src/components/VoiceCommand.tsx:111-119 | `split(...)[0]` ends at the first place either keyword matches |
| VoiceCommand.ClassCaptureShape | src/components/VoiceCommand.tsx:109-117 | with backtracking, the class group is the run after the spaces, or one given-back space, or no match |
| VoiceCommand.SpaceGivenBack | src/components/VoiceCommand.tsx:109 | `\s+` gives back a space when nothing else can follow |
| VoiceCommand.LineCaptureShape | src/components/VoiceCommand.tsx:125 | `\s+(.+)$` captures the rest of a single-line text, fails across a line break, or takes the last space |
| VoiceCommand.LineBacktrackFails | src/components/VoiceCommand.tsx:125 | `.+$` never crosses a line terminator |
| VoiceCommand.LineBacktrackAtEnd | src/components/VoiceCommand.tsx:125 | with spaces to the end, `.+` gets only the last one |
| VoiceCommand.KeywordInSlice | src/components/VoiceCommand.tsx:111-119 | a keyword in a piece is a keyword of the whole |
| VoiceCommand.FreeSlice | src/components/VoiceCommand.tsx:111-119 | a piece of keyword-free text is keyword-free |
| VoiceCommand.CutFree | src/components/VoiceCommand.tsx:111-119 | the piece before the first stop keyword holds neither stop keyword |
| VoiceCommand.TrimFree | src/components/VoiceCommand.tsx:111-119 | `trim` keeps text keyword-free |
| VoiceCommand.EstadoStopsAtKeywords | src/components/VoiceCommand.tsx:108-114 | the estado is capitalised trimmed text that never holds an observation or recommendation keyword |
| VoiceCommand.ObservacaoStopsAtKeywords | src/components/VoiceCommand.tsx:116-122 | the observation never holds "estado" or a recommendation keyword |
| VoiceCommand.LeadingNumberShape | src/components/VoiceCommand.tsx:98-106 | the number is a digit run read at the start, after "número" or after "item" |
| VoiceCommand.WordedNumberStart | src/components/VoiceCommand.tsx:99 | in "número" or "item" followed by spaces and a digit, `\s+` takes the whole white-space run, so the digits start right after it |
| VoiceCommand.LeadingWordedNumber | src/components/VoiceCommand.tsx:99-106 | after "número" or "item", white space and a digit, the number is that whole digit run |
| VoiceCommand.LeadingNumeroWord | src/components/VoiceCommand.tsx:99-106 | after "número", white space and a digit, the number is that whole digit run |
| VoiceCommand.LeadingItemWord | src/components/VoiceCommand.tsx:99-106 | after "item", white space and a digit, the number is that whole digit run |
| VoiceCommand.LeadingNumberNone | src/components/VoiceCommand.tsx:99-106 | no number exactly when the text starts with no digit and neither "número" nor "item" begins it followed by white space and a digit |
| VoiceCommand.LeadingDigitsWin | src/components/VoiceCommand.tsx:99 | leading digits are taken first |
| VoiceCommand.NoKeywordsOnlyRawText | src/components/VoiceCommand.tsx:83-132 | with no number at the start and no keyword, only the raw text is returned |
| VoiceCommand.FreeIfNoPair | src/components/VoiceCommand.tsx:109-125 | a keyword cannot occur where its first two letters do not |
| VoiceCommand.KeywordLead | src/components/VoiceCommand.tsx:109-125 | every spelling of a keyword starts with its two lead letters |
| VoiceCommand.GroupOfFree | src/components/VoiceCommand.tsx:109-110 | with no keyword in the text, the pattern does not match |
| VoiceCommand.GroupAtFirst | src/components/VoiceCommand.tsx:109-125 | the group is taken at the first keyword when the rest of the pattern matches there |
| VoiceCommand.FirstMatchReaches | src/components/VoiceCommand.tsx:109-125 | no earlier keyword means no earlier match |
| VoiceCommand.LineGroupAfterFirst | src/components/VoiceCommand.tsx:125 | the line group is the rest of the text after the first keyword and its spaces |
| VoiceCommand.RecomendacaoAfterFirst | src/components/VoiceCommand.tsx:124-129 | the recommendation is everything after the first "recomendação" and its spaces, trimmed and capitalised |
| VoiceCommand.ClassCaptureRun | src/components/VoiceCommand.tsx:110 | after a keyword, white space and a character of `[\w\sà-ú]`, the capture there is the whole run of such characters |
| VoiceCommand.GroupIsCaptureAtFirst | src/components/VoiceCommand.tsx:109-125 | when the pattern matches at the first keyword, the group is the capture there |
| VoiceCommand.EstadoAfterFirst | src/components/VoiceCommand.tsx:108-114 | the estado is the captured run after the first "estado" and its white space, cut before "observação" or "recomendação", trimmed and capitalised |
| VoiceCommand.ObservacaoAfterFirst | src/components/VoiceCommand.tsx:116-122 | the observation is the captured run after the first "observação" and its white space, cut before "estado" or "recomendação", trimmed and capitalised |
| VoiceCommand.CutAtStart | src/components/VoiceCommand.tsx:111 | text that starts with a stop keyword splits to an empty first piece |
| VoiceCommand.EstadoPresentButEmpty | src/components/VoiceCommand.tsx:110-113 | a capture that starts with "observação" or "recomendação" sets the estado to "" rather than leaving it unset |
| VoiceCommand.ObservacaoPresentButEmpty | src/components/VoiceCommand.tsx:118-121 | a capture that starts with "estado" or "recomendação" sets the observation to "" rather than leaving it unset |
| FillForm.FirstPresent | src/lib/fillForm.ts:14-20 | `a ?? b ?? c` is the value under the first key present, and none exactly when no key is present |
| FillForm.TranscriptFields | src/lib/fillForm.ts:14-21 | spoken numero and observation win over the row; estado, status, etiquetado and recommendation come only from the transcript, "" when unheard |
| FillForm.DescricaoSalaFromRowOnly | src/lib/fillForm.ts:15-16 | description and room never depend on the transcript |
| FillForm.RowFallback | src/lib/fillForm.ts:14-20 | each fallback chain takes the row's keys in order, "" when none is present |
| FillForm.FirstTwo | src/lib/fillForm.ts:14-16 | the first key present wins, then the second |
| FillForm.NoRow | src/lib/fillForm.ts:12-24 | without a row only the transcript fills the form |
| FindItem.KeyFromFirst | src/services/findItem.ts:52 | `a \|\| b \|\| ... \|\| ''` is the first non-empty value, "" exactly when all are missing or empty |
| FindItem.FirstRowFirst | src/services/findItem.ts:50-54 | `find` returns the first matching row, none exactly when no row matches |
| FindItem.BaseIndex | src/services/findItem.ts:34 | the first base with the id |
| FindItem.FindItemByNumero | src/services/findItem.ts:6-65 | `findItemByNumero`: nothing for an empty query; otherwise the first match of the first base in scope that has one |
| FindItem.FirstRowAppend | src/services/findItem.ts:50-57 | a search across two row lists finds the first list's match before the second's |
| FindItem.SearchIsFirstOfAll | src/services/findItem.ts:46-61 | searching base by base is one `find` over all rows in scope, in order |
| FindItem.ScopeRule | src/services/findItem.ts:28-41 | a known id narrows the search to its first base; a null, empty or unknown id keeps every base |
| FindItem.NothingToSearch | src/services/findItem.ts:7-26 | an empty query or no saved bases finds nothing |
| FindItem.BlankQueryMatchesBlankKey | src/services/findItem.ts:7-53 | a white-space query is not rejected; it matches rows whose key is blank |
| RoomSelection.DistinctSpec | src/components/RoomSelection.tsx:19-20 | `Array.from(new Set(s))` holds every value of `s` once and nothing else |
| RoomSelection.Units | src/components/RoomSelection.tsx:20 | a character is one or two UTF-16 code units |
| RoomSelection.LexTotal | src/components/RoomSelection.tsx:20 | the default sort order is total |
| RoomSelection.InsertPermutes | src/components/RoomSelection.tsx:20 | inserting adds exactly one value |
| RoomSelection.InsertSorted | src/components/RoomSelection.tsx:20 | inserting keeps the order |
| RoomSelection.SortSpec | src/components/RoomSelection.tsx:20 | `sort()` returns a sorted permutation |
| RoomSelection.RoomsSpec | src/components/RoomSelection.tsx:18-21 | the rooms are sorted and distinct, are exactly the items' SALA values, and are empty only without items |
| RoomSelection.RoomItemsExact | src/components/RoomSelection.tsx:23-25 | an item is listed for a room exactly when its SALA is that room |
| RoomSelection.RoomItemsAppend | src/components/RoomSelection.tsx:24 | the filter keeps item order |
| RoomSelection.CountsAddUp | src/components/RoomSelection.tsx:18-25 | the room cards' item counts add up to the number of items |
| RoomsPage.FindIndex | src/pages/RoomsPage.tsx:31-33 | `findIndex` returns the first header that qualifies |
| RoomsPage.RoomColumn | src/pages/RoomsPage.tsx:23-36 | no column without headers; otherwise a valid header index |
| RoomsPage.ColumnRule | src/pages/RoomsPage.tsx:29-35 | an exact candidate name wins over a substring match anywhere, which wins over column 0 |
| RoomsPage.ExactBeatsSubstring | src/pages/RoomsPage.tsx:31-33 | for headers "localidade", "sala", the room column is "sala" |
| RoomsPage.ValuesMembers | src/pages/RoomsPage.tsx:38-45 | a room is listed exactly when some row holds it, trimmed and non-blank, under the room column |
| RoomsPage.ValuesTrimmed | src/pages/RoomsPage.tsx:42-43 | every room listed is non-empty and trimmed |
| RoomsPage.LoadRooms | src/pages/RoomsPage.tsx:18-49 | none without headers; otherwise the distinct room values of the rows |
| ItemFormModel.ItemForm.constructor | src/components/ItemForm.tsx:22-33 | the form starts empty, on the stored copy of the base when there is one |
| ItemFormModel.ItemForm.Reload | src/components/ItemForm.tsx:82-86 | the stored copy replaces the form's base when there is one |
| ItemFormModel.ItemForm.SearchItem | src/components/ItemForm.tsx:35-93 | a blank number changes nothing; an unknown number clears the form; a found item is shown with its status, label, condition and observation set, the same changes are stored, and the base is reloaded |
| ItemFormModel.ItemForm.HandleFieldChange | src/components/ItemForm.tsx:95-113 | without an item nothing changes; otherwise the field is set in the form and stored under the item's NUMERO |
| ItemFormModel.RoomRule | src/components/ItemForm.tsx:53-80 | in its room an item is Localizado and keeps its observation; elsewhere it is Migrado with the note "Localizado na sala <room>"; either way labelled and Bom |
| ItemFormModel.SearchKeepsIdentity | src/components/ItemForm.tsx:64-80 | a search writes only status, label, condition and observation; number, description, room and recommendation are kept |
| ItemFormModel.MigratedKeepsNote | src/components/ItemForm.tsx:53-138 | after a migration, a spoken observation is appended after the note |
| ItemFormModel.LocatedTakesSpoken | src/components/ItemForm.tsx:53-138 | for an item in its room, a spoken observation replaces the old one |
| ItemFormModel.MergeRule | src/components/ItemForm.tsx:133-136 | the spoken observation is appended only to a migration note, otherwise it replaces; it is never lost |

## Left out

- `downloadCSV` and all other DOM, React rendering, toasts, alerts and console output are not modelled.
- Browser storage, `JSON.parse` and `JSON.stringify` are not modelled. A failed parse is out of scope. The stored list is the `databases` field of `Storage.InventoryStore`, which also stands for `getAllDatabases`.
- Speech recognition and the OpenAI client are left out. The transcript is an input.
- Only ASCII and Latin-1 are covered by the case tables. `\s`, `\w` and `trim` follow JavaScript's definitions. Strings are sequences of code points; UTF-16 code units appear only in the default sort order.
- CsvLaws.ClassifyNumber: the first 200 characters of a skipped line are counted in code points, while `substring(0, 200)` counts UTF-16 code units. The two differ only on lines with characters outside the Basic Multilingual Plane.
- The `try`/`catch` of `parseCSV` is left out because nothing in its body throws. The "Arquivo CSV vazio" branch is left out because the splitter always yields at least one line. The unused counters `lineNumber` and `originalLineCount` are left out.
- Items are maps from text to text. `String()` of non-text values is not modelled. A field stored as `undefined` is modelled as an absent key, which JSON storage drops too.
- VoiceCommand: concrete transcript examples are not proved. The general lemmas about group shape and keyword stops take their place.
- VoiceCommand: the `/i` flag is not modelled separately. The text is lower-cased before matching, so within the case table it has no effect.
- handleVoiceCommand (src/components/ItemForm.tsx:115-147) is not modelled as a sequence. It relies on React state that is stale within one call, so `currentItem` and `formData` there are those of the previous render. Its observation rule is modelled as `ItemFormModel.MergeObservation`.
- RoomsPage.LoadRooms: the `localeCompare('pt-BR', sensitivity base)` sort is not modelled, because it needs locale collation tables. The list is in order of first occurrence. `filter(Boolean)` is the identity here, since every value kept is non-empty.
- RoomsPage.LoadRooms: the writes to `sessionStorage` and the selected-base state are not modelled.
- RoomSelection.Rooms requires that every item has a SALA, because the item type declares SALA a text. `getRoomItems` itself has no such requirement.
- The context files (database management, SQLite import, the save server, pages that only route) are not part of this model.
