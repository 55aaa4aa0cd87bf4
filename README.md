# Extraction-rule engine of the Excel extractor

This project models, in Dafny, the one piece of logic in the Excel extractor
web service (`excel-extractor/ap.py`): the extraction-rule engine. The engine
has three parts:

- the rule table `EXTRACTION_RULES`, an ordered, constant list of rules. A rule
  either reads a cell of the active sheet (a label, a coordinate such as `C6`,
  an optional formatter) or contributes a fixed text (a label and a literal);
- the four per-field formatters, written in the source as inline lambdas. They
  turn full-width spaces into ASCII spaces, remove postal marks and strip
  whitespace, remove hyphens and `ー` from phone and fax numbers, and add
  `https://` to URLs without a scheme;
- the extraction loop in `upload_file`. It walks the rules in order and
  resolves each against the sheet or its fixed text. An empty cell gives `''`,
  and the formatter runs only on a present value. One `{label, value}` pair is
  appended per rule. Any exception aborts the whole request with an error
  message and no list.

Files and modules:

- `wrappers.dfy` (`Wrappers`): `Option` (a cell that may be empty) and `Result`
  (a value, or the message of the exception raised).
- `text.dfy` (`Text`): the Python string operations the formatters use. These
  are `str.replace` with one-character arguments (`ReplaceChar`, `RemoveChar`)
  and `str.strip()` with no argument (`Strip`, with Python's `str.isspace`
  character set in `IsSpace`). Each has a contract that pins its result down.
  For `ReplaceChar` the contract fixes the length and every position, which
  determines the result outright. For `RemoveChar` and `Strip`, the uniqueness
  lemmas `RemoveCharUnique` and `StripUnique` prove that no other result fits.
- `normalizers.dfy` (`Normalizers`): the formatters as an enumeration
  `Normalizer` interpreted by `Apply`, one function per lambda, and their
  idempotence.
- `rules.dfy` (`Rules`): the `Rule` datatype (`Cell` or `Fixed`) and the
  table `ExtractionRules`, with the same 17 rules, coordinates and texts in
  the same order.
- `extraction.dfy` (`Extraction`): the sheet as an abstract lookup and the
  specification function `Extract`. It also holds the loop as the method
  `ExtractEntries`, proved equal to `Extract`, and the `try` block of
  `upload_file` as the method `Upload`.
- `scenarios.dfy` (`Scenarios`): the documented input/output examples on small
  sheets.

The sheet is a total function `Sheet = string -> Result<Option<string>, string>`.
A lookup gives the cell's text (`Some`), an empty cell (`None`), or the message
of the exception it raised. Opening the workbook is a parameter of `Upload`: the
active sheet, or the exception's message.

Three points where the code's behaviour is easy to misread, all modelled as
the code behaves:

- The engine itself does not skip the formatter for empty text. It runs the
  formatter on every present value, including `''`. Each lambda
  then returns an empty input unchanged through its own `if s else s`. The
  model keeps the guard inside each formatter (`Normalizers.Apply` maps `""` to
  `""`), and the outcome is the same.
- The postal formatter removes every postal mark, wherever it is
  (`s.replace('〒', '')`), not only a leading one. Its `strip()` also removes full-width spaces and the other Unicode
  whitespace Python recognises. The model does both.
- A formatter is optional on cell rules too, not only absent on fixed rules:
  four cell rules of the table have no `format` key. The model has
  `Cell(name, coord, None)` for them.

The source's `label` key is called `name` in the model, because `label` is a
Dafny keyword.

## Model

| member | source | states |
|---|---|---|
| `Text.IsSpace` | excel-extractor/ap.py:23 | the characters `strip()` removes: exactly those Python's `str.isspace()` accepts (general category Zs, or bidirectional class WS, B or S), U+3000 included |
| `Text.ReplaceChar` | excel-extractor/ap.py:21 | `s.replace(c, d)` keeps the length and changes exactly the positions holding `c`, each to `d` |
| `Text.RemoveChar` | excel-extractor/ap.py:23 | `s.replace(c, '')` leaves no `c`. The result is a subsequence of `s`, its length is `|s|` minus the number of `c`, and every other character keeps its count |
| `Text.RemoveCharUnique` | excel-extractor/ap.py:25-26 | converse of RemoveChar's contract: any `c`-free subsequence of `s` with that length is the result, so only the `c`s are deleted |
| `Text.RemoveAbsentChar` | excel-extractor/ap.py:25-26 | removing a character that does not occur returns the input unchanged |
| `Text.RemoveCharConcat` | excel-extractor/ap.py:25-26 | removal works piecewise over a concatenation |
| `Text.Strip` | excel-extractor/ap.py:23 | `s.strip()` is `s` without its surrounding whitespace (Python `isspace` set). The input is whitespace, then the result, then whitespace, and the result has no whitespace at either end |
| `Text.StripUnique` | excel-extractor/ap.py:23 | converse: for any split of the input into whitespace, an edge-clean core and whitespace, Strip returns that core |
| `Text.StripIsSubsequence` | excel-extractor/ap.py:23 | what strip keeps is taken from its input in order and holds no character the input lacks |
| `Text.StripClean` | excel-extractor/ap.py:23 | stripping text that has no edge whitespace changes nothing |
| `Normalizers.FullWidthToAscii` | excel-extractor/ap.py:21-24 | the name/address formatter (rules at lines 21, 22, 24) keeps the length and leaves no U+3000. Each U+3000, and nothing else, becomes `' '` |
| `Normalizers.CleanPostalCode` | excel-extractor/ap.py:23 | no postal mark remains anywhere, and there is no edge whitespace. The result is a subsequence of the input, and it is exactly the mark-free text stripped of its surrounding whitespace |
| `Normalizers.CleanPostalCodeExact` | excel-extractor/ap.py:23 | converse: whatever lies between leading and trailing whitespace of the mark-free text, with no edge whitespace of its own, is the postal formatter's result |
| `Normalizers.CleanPhoneNumber` | excel-extractor/ap.py:25-26 | TEL/FAX formatter: no `-` and no `ー` remain. The result is a subsequence of the input, shorter by exactly their number, and every other character keeps its count |
| `Normalizers.CleanPhoneNumberExact` | excel-extractor/ap.py:25-26 | converse: a subsequence without `-`/`ー` of that length is the result, so exactly those characters are deleted |
| `Normalizers.NormalizeUrl` | excel-extractor/ap.py:27 | the input is returned unchanged exactly when it is empty or starts with `http://`/`https://`. Otherwise the result is `https://` + input. A non-empty result always has a scheme |
| `Normalizers.Apply` | excel-extractor/ap.py:21-27 | every formatter returns empty text unchanged (the `if s else s` of each lambda) |
| `Normalizers.ApplyIdempotent` | excel-extractor/ap.py:21-27 | applying any formatter to its own output changes nothing |
| `Normalizers.FullWidthToAsciiIdempotent` | excel-extractor/ap.py:21 | the full-width-space formatter is idempotent |
| `Normalizers.CleanPostalCodeIdempotent` | excel-extractor/ap.py:23 | the postal formatter is idempotent |
| `Normalizers.CleanPhoneNumberIdempotent` | excel-extractor/ap.py:25-26 | the phone/fax formatter is idempotent |
| `Rules.ExtractionRules` | excel-extractor/ap.py:17-36 | the rule table: the same 17 rules with the same labels, coordinates, formatters and fixed texts, in the same order |
| `Rules.RuleTableShape` | excel-extractor/ap.py:17-36 | the table has 17 rules: eleven cell rules, then six fixed texts |
| `Rules.RuleTableCoordinates` | excel-extractor/ap.py:18-28 | every cell rule names a well-formed A1 reference (column letters, then a row number without a leading zero) |
| `Rules.RuleTableLabelsDistinct` | excel-extractor/ap.py:17-36 | no label occurs twice in the table |
| `Extraction.Resolve` | excel-extractor/ap.py:71-83 | the value one rule contributes. A fixed rule gives its text on every sheet. A cell rule fails exactly when its lookup raises, and then carries that exception's message. An empty cell, or a cell holding `''`, gives `''`. A present cell gives its text, run through the rule's formatter when it names one. A formatted value is left unchanged by its formatter |
| `Extraction.Extract` | excel-extractor/ap.py:68-85 | extraction succeeds exactly when every rule resolves. It then has one entry per rule, in rule order, each with the rule's label and its resolved value |
| `Extraction.ExtractEntries` | excel-extractor/ap.py:68-85 | the loop (start from `''`, read the cell, skip empty, format, or take the fixed text, append) returns exactly `Extract`'s result, an exception included |
| `Extraction.ExtractStopsAtFault` | excel-extractor/ap.py:70-92 | all or nothing: when the first failing lookup is at rule `k`, the result is that error and no list, whatever follows |
| `Extraction.ExtractKeepsLabels` | excel-extractor/ap.py:70-85 | the output's label sequence equals the rules' label sequence |
| `Extraction.ExtractReadsOnlyRuleCells` | excel-extractor/ap.py:70-83 | two sheets that agree on the cells the rules name give the same result, so the output depends on nothing else |
| `Extraction.FixedValueIgnoresSheet` | excel-extractor/ap.py:82-83 | a fixed rule's entry is its label and text, on every sheet |
| `Extraction.EmptyCellGivesEmptyValue` | excel-extractor/ap.py:71-80 | an empty cell, or a cell whose text is `''`, gives `''` whatever formatter the rule names |
| `Extraction.PresentCellValue` | excel-extractor/ap.py:76-80 | a present cell's entry is its text, run through the rule's formatter when it names one. Formatting that entry again changes nothing |
| `Extraction.ErrorPrefix` | excel-extractor/ap.py:92 | the text `処理中にエラーが発生しました: ` put before the exception's message in every error response |
| `Extraction.Upload` | excel-extractor/ap.py:60-92 | success only when the workbook opens, and then the result is `Extract` on the table: the table's labels in order, ending with the six fixed texts. It fails exactly when some cell lookup fails. A failure carries the prefixed message of the workbook's or the first lookup's exception |
| `Scenarios.SoundSheetEntry` | excel-extractor/ap.py:68-85 | on a sheet whose lookups never fail, the whole table is extracted and entry `i` is rule `i`'s label and resolved value |
| `Scenarios.SingleCellEntry` | excel-extractor/ap.py:71-80 | with one cell filled in, a formatted cell rule's entry is its formatter applied to that cell's text |
| `Scenarios.CompanyNameScenario` | excel-extractor/ap.py:19 | `C6 = "Acme Corp"` gives `{企業名, Acme Corp}` |
| `Scenarios.RepresentativeScenario` | excel-extractor/ap.py:21 | `C8 = "山田　太郎"` gives `{代表者, 山田 太郎}` |
| `Scenarios.PostalCodeScenario` | excel-extractor/ap.py:23 | `C10 = "〒" + code`, where code has no mark and no edge whitespace, gives `{郵便番号, code}` |
| `Scenarios.PhoneScenario` | excel-extractor/ap.py:25 | `C7 = a + "ー" + b + "ー" + c`, where no group holds `-` or `ー` (any group may be empty), gives `{TEL, a + b + c}` |
| `Scenarios.UrlScenario` | excel-extractor/ap.py:27 | `D13` without a scheme gets `https://`. With one, it is kept as it is |
| `Scenarios.PostalCodeExample` | excel-extractor/ap.py:23 | `〒123-4567` gives `123-4567` |
| `Scenarios.PhoneExample` | excel-extractor/ap.py:25 | `03ー1234ー5678` gives `0312345678` |
| `Scenarios.UrlExample` | excel-extractor/ap.py:27 | `example.com` gives `https://example.com` |
| `Scenarios.UrlWithSchemeExample` | excel-extractor/ap.py:27 | `https://example.com` is kept as it is |
| `Scenarios.UnreadableWorkbookScenario` | excel-extractor/ap.py:60-92 | a workbook that cannot be opened gives the prefixed error and no list |

## Left out

- Flask routes and transport (`index`, `upload_file`'s request checks, the 400 responses, JSON encoding and HTTP status codes, `app.run`): web I/O, not extraction logic.
- File handling (`file.save`, the `uuid`/`secure_filename` temporary name, the `os.remove` in `finally`): filesystem side effects. A failing save raises inside the same `try` block, so it is covered by the workbook parameter of `Upload` being a `Failure`.
- Workbook loading (`openpyxl.load_workbook`, `workbook.active`, `sheet[...]`): a foreign library. It is replaced by the `Sheet` lookup function and the `Result` given to `Upload`. The choice of the active sheet is part of that parameter.
- `str(cell_value)` for number, float and date cells: Python's number and date formatting. Cells reach the model already as text.
- Whether openpyxl raises for a malformed coordinate is a property of the library. The model lets any lookup fail, and `Rules.RuleTableCoordinates` shows the table only names well-formed A1 references.
- A rule whose `type` is neither `'cell'` nor `'fixed'` (the source would append `''` for it): the `Rule` datatype has only the two kinds, and the table holds no other.
- The exact text of the exception messages (`str(e)`): they come from the libraries. The model carries them as opaque strings and adds the source's prefix.
