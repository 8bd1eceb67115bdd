# OCR field extraction for customer order forms

This project models the core of a small Streamlit app. The app reads photographed Korean telecom order forms and turns each one into a row of named fields.

The app has three parts. `ocr_google_vision` sends an image to Google Cloud Vision and returns the recognised text, or raises the service's error. `parse_all_fields` runs the 27 regular expressions of `FIELD_PATTERNS` over that text. Each field becomes group 1 of the first match, stripped, or `None`. The batch loop turns every uploaded file into one row: the parsed fields plus `파일명`, or the two-entry row `{파일명, 오류}` when the OCR call fails. A second OCR path, `extract_text` in `ocr_utils.py`, joins PaddleOCR's recognised lines with newlines and applies a fixed table of typo corrections, in table order.

Modules, one per file:

- `Wrappers`: `Option` and `Result`.
- `Chars`: Python's `str.isspace` set, `\d`, and `str.strip()`.
- `Matchers`: a matcher for each regular-expression shape that occurs in the table, with `re.search` semantics:
  - the leftmost start wins;
  - at one start, the first alternative in backtracking order is taken;
  - `[:\s]*` gives separator characters back one at a time;
  - the lazy `[\s\S]*?` takes the first tail after the section header;
  - `(?m)^[ \t]*` needs the start of a line;
  - `(.+?)(?=\n)` is a lookahead capture.
- `FieldTable`: `FIELD_PATTERNS` as data, in source order.
- `Fields`: the insertion-ordered dict and `parse_all_fields`.
- `FieldProps`: what each field's pattern promises about its value.
- `Batch`: `ocr_google_vision` and the batch loop.
- `OcrText`: the join and the correction loop of `extract_text`.

Where the code and the intended behaviour differ, the model follows the code:

- The four internet fields (`인터넷_요금제`, `인터넷_약정시작`, `인터넷_약정종료`, `인터넷_단말`) have no section header in the code. They take the first match anywhere in the text, which can be inside the TV or smart-home section (`FieldProps.PlainFieldFirstTail`).
- `[:\s]*` crosses line breaks. A label with no value on its own line takes the text of the next line (`FieldProps.NextLineExample`).
- A capture class that contains a space can make a field present but empty after `strip()` (`FieldProps.EmptyNameExample`).
- `Image.open` sits outside the `try`. A file PIL cannot open ends the whole batch with an exception instead of giving an error row (`Batch.RunBatch`, outcome `Aborted`).

## Model

| member | source | states |
|---|---|---|
| Chars.IsSpace | app.py:29 | the characters `\s` and `str.strip()` treat as whitespace: Python's `str.isspace` set, written out; `Chars.Strip` and the separator class are stated in terms of it |
| Chars.Strip | app.py:70 | `strip()` is empty exactly when the input is all whitespace; otherwise its result neither starts nor ends with whitespace |
| Chars.StripSlice | app.py:70 | `strip()` removes only whitespace, and only from the two ends: its result is a contiguous slice of the input, with nothing but whitespace before and after it |
| Chars.StripUnchanged | app.py:70 | a string that neither starts nor ends with whitespace is its own strip |
| Matchers.InClass | app.py:29-62 | the ten character classes of the table: `[가-힣A-Za-z· ]` (with the middle dot U+00B7), `[\d\s\-]`, `\d`, `[가-힣A-Za-z0-9]`, `[0-9]`, `[0-9\-]`, `[^\n]` and `.`, `[:\s]`, `\s`, and `[ \t]`; `Matchers.RunCapture` and `FieldProps.RunFieldValue` state what a run of each class captures |
| Matchers.HeadEnd | app.py:29-62 | where a pattern's fixed head of literals and `\s*` runs ends when it matches at a position; `\s*` takes every whitespace character, since a literal that opens with a non-whitespace character follows; its bounds are in its contract, and `Matchers.ScopedAfterFirstHeader` and `Matchers.LineStartFound` state what it means for a search |
| Matchers.CaptureAt | app.py:29-62 | group 1 at one position, once `[:\s]*` has stopped: the longest run of a class cut at its upper bound, or the rest of the line with a newline after it; its contract says the capture is a slice of the text starting there, and `Matchers.RunCapture` and `Matchers.LineCapture` state what it holds |
| Matchers.GiveBack | app.py:29 | `[:\s]*` backtracking: group 1 after keeping the largest number of separator characters with which it matches; `Matchers.GiveBackLargest`, `Matchers.GiveBackNone` and `Matchers.GiveBackKeepsAll` state it |
| Matchers.PeriodAt | app.py:37-38 | the contract-period tail at one position: the dates right after the first `(` that follows `약정기간`; `Matchers.PeriodAtParen` states it |
| Matchers.TailAt | app.py:29-62 | a pattern's part after any section header, at one position: a label head, then `[:\s]*` with give-back, then group 1, or a contract-period tail; the lemmas on `Matchers.GiveBack` and `Matchers.PeriodAt` state what it gives |
| Matchers.MatchAt | app.py:29-62 | group 1 of the first match that starts exactly at a position, for the three pattern families: unscoped, scoped by a section header with a lazy `[\s\S]*?`, and anchored at a line start |
| Matchers.Search | app.py:69 | `re.search(pat, text)` as group 1 of the match at the leftmost matching start; `Matchers.SearchIsLeftmost` states it |
| Matchers.SearchIsLeftmost | app.py:69 | `re.search` is None exactly when the pattern matches at no start position; otherwise it is the match at the leftmost start, and no earlier start matches |
| Matchers.SearchAt | app.py:69 | a match at a start where no earlier start matches is the result of `re.search` |
| Matchers.SearchFinds | app.py:69 | a match at any start position makes `re.search` succeed |
| Matchers.RunCapture | app.py:29-32 | a run group (`[...]+`, `\d{6,8}`) is text of its class within the repetition's bounds; it stops only at the end of the text, at a character outside the class, or at the upper bound; it fails exactly when fewer than the minimum number of class characters follow |
| Matchers.LineCapture | app.py:33 | `(.+?)(?=\n)` gives a non-empty piece of one line that a newline follows; it fails exactly at the end of the text, on an empty line, or when no newline follows |
| Matchers.GiveBackLargest | app.py:29 | after `[:\s]*`, group 1 comes from the largest number of kept separator characters with which it matches; with any more kept, it fails |
| Matchers.GiveBackKeepsAll | app.py:29 | when group 1 matches after all the separator characters, no character is given back |
| Matchers.GiveBackNone | app.py:29 | a labelled pattern fails at a label exactly when group 1 fails after every number of kept separator characters |
| Matchers.ScopedWithoutHeader | app.py:42-57 | a section-scoped pattern whose header occurs nowhere finds nothing |
| Matchers.ScopedAfterFirstHeader | app.py:42-57 | a section-scoped pattern takes the first tail match at or after the end of the first header occurrence, provided no header starts inside that occurrence |
| Matchers.PlainIsFirstTail | app.py:36-39 | an unscoped pattern is the first tail match anywhere in the text |
| Matchers.LineStartFound | app.py:60 | a match of `(?m)^[ \t]*tail` is a tail match at a position that only spaces and tabs separate from the start of its line; when the tail opens with a non-blank literal, no such position before it has a tail match |
| Matchers.EarlierLineStart | app.py:60 | a tail match at a line-start position before the one a line's blanks lead to belongs to a matching start on an earlier line |
| Matchers.LineStartFinds | app.py:60 | conversely, such a tail match anywhere in the text makes the search succeed |
| Matchers.LookaheadNeedsNewline | app.py:33 | a label with no newline anywhere after it cannot match `(.+?)(?=\n)` |
| Matchers.LineAfterSeparators | app.py:33 | after a label and a run of separators, a non-empty line that does not open with a separator and ends in a newline is what `(.+?)(?=\n)` captures |
| Matchers.PeriodAtParen | app.py:37-38 | the contract-period patterns read their dates right after the first `(` that follows `약정기간`; the end date needs `~date)` right after the start date |
| Matchers.PeriodFromLabel | app.py:37-38 | with no `약정기간` between a position and a label match, the first period tail from that position is the one at the label |
| Matchers.NoPeriodFrom | app.py:37-38 | with no period match from a position on, the first period tail from there is None |
| Matchers.PeriodDatesFrom | app.py:43-56 | from a position with no `약정기간` between it and the label, on `약정기간 ... (d1~d2)`, the first start tail is `d1` and the first end tail is `d2` |
| Matchers.PeriodStartOnlyFrom | app.py:43-56 | from a position after which this `약정기간` is the only one on `약정기간 ... (d1` with no `~date)` after it, the first start tail is `d1` and there is no end tail |
| Matchers.OnlyLabel | app.py:37-38 | when no `약` occurs outside the label and the date, the label is the only `약정기간` in the text |
| Matchers.PeriodDates | app.py:37-38 | on `약정기간 ... (d1~d2)` with no `약정기간` earlier in the text, the start pattern captures `d1` and the end pattern captures `d2` |
| Matchers.PeriodStartOnly | app.py:37-38 | on `약정기간 ... (d1` with no `~date)` after it, when this is the only `약정기간` in the text, the start pattern captures `d1` and the end pattern finds nothing |
| FieldTable.FieldPatterns | app.py:28-63 | `FIELD_PATTERNS` as data: the 27 entries in source order, each its field name and its pattern, written with the per-pattern constants beside it (the label literals, `\s*` runs, the capture class and its bounds, the section header of each scoped entry, the `(?m)^[ \t]*` anchor of 공용단말); `FieldTable.FieldNames`, `FieldTable.FieldNamesDistinct` and `FieldTable.ScopedEntries` state its shape |
| FieldTable.FieldNames | app.py:28-63 | the field names are the table's keys, in source order |
| FieldTable.FieldNamesDistinct | app.py:28-63 | the 27 field names are distinct |
| FieldTable.ScopedEntries | app.py:35-57 | exactly the TV주_, TV부_ and 스마트홈_ plan, period and device entries are section-scoped, each by its own header; the four internet entries are unscoped |
| FieldTable.SectionHeaderNoOverlap | app.py:42-57 | no occurrence of a section header starts inside another occurrence of the same header |
| Fields.FieldValue | app.py:69-70 | `m.group(1).strip() if m else None` for `m = re.search(pat, text)`; `FieldProps.FieldIsLeftmostMatch` states it |
| Fields.Parse | app.py:67-70 | the dict of one entry per table entry, in table order, holding the entry's name and its field value; `Fields.FillFields` is proved against it |
| Fields.ParsedFields | app.py:65-71 | the parse by the whole field table; `Fields.ParsedFieldsLookup` states its keys and values |
| Fields.Put | app.py:70 | `d[key] = v` keeps an existing key in its place and appends a new key at the end |
| Fields.PutDistinct | app.py:70 | `d[key] = v` keeps the keys distinct |
| Fields.PutGetSame | app.py:70 | after `d[key] = v`, `key` maps to `v` |
| Fields.PutGetOther | app.py:70 | after `d[key] = v`, every other key keeps its value, or stays missing |
| Fields.FillFields | app.py:67-70 | the loop over a table with distinct names gives one entry per table entry, in table order, holding the name and the stripped group 1 of its pattern's leftmost match, or None |
| Fields.ParseAllFields | app.py:65-71 | `parse_all_fields` returns the parse of the text by the whole field table |
| Fields.ParsedFieldsLookup | app.py:65-71 | the parsed dict has exactly the table's names as keys, in table order, and looking up a name gives its pattern's value |
| FieldProps.FieldIsLeftmostMatch | app.py:69-70 | a field is None exactly when its pattern matches nowhere; otherwise it is the stripped group 1 of the leftmost match |
| FieldProps.PlainFieldFirstTail | app.py:36-39 | the internet plan, period and device fields take the first occurrence of their tail anywhere in the text, and are None exactly when it occurs nowhere |
| FieldProps.ScopedField | app.py:42-57 | a TV or smart-home section field is None when its header is missing; otherwise it is the first tail occurrence after the first header, and None exactly when there is none |
| FieldProps.RunFieldValue | app.py:29-32 | a label-and-run field, when present, is the strip of a run of its class whose length is within the repetition's bounds |
| FieldProps.RunFieldWithoutSpace | app.py:31-32 | when the class has no whitespace, the field is the run itself: in bounds and all of the class |
| FieldProps.BirthDateDigits | app.py:31 | 생년, when present, is six to eight decimal digits |
| FieldProps.CountDigits | app.py:35-53 | the U+ count fields, when present, are non-empty strings of ASCII digits |
| FieldProps.WishDateChars | app.py:62 | 고객희망일, when present, is a non-empty string of ASCII digits and `-` |
| FieldProps.AddressOnLastLine | app.py:33 | 주소 is None when every `주소` is on the last line and no newline follows it |
| FieldProps.AddressFound | app.py:33 | `주소`, a run of separators, then a value and a newline give that value, stripped, when no `주소` starts earlier in the text and the value does not open with a separator |
| FieldProps.AddressAt | app.py:33 | the same, for a text whose layout is given position by position |
| FieldProps.AddressExample | app.py:33 | the parsed dict of `주소: 서울시` and a line break has 주소 = `서울시` |
| FieldProps.SharedDeviceAtLineStart | app.py:60 | 공용단말, when present, is found at a position preceded on its line only by spaces and tabs, and at the first such position with a label match |
| FieldProps.SharedDeviceFound | app.py:60 | a 공용단말 label match at such a position makes the field present |
| FieldProps.DateField | app.py:70 | a date captured by a period pattern is unchanged by `strip()` |
| FieldProps.InternetPeriodDates | app.py:37-38 | on `약정기간 ... (d1~d2)` with no `약정기간` earlier in the text, 인터넷_약정시작 is `d1` and 인터넷_약정종료 is `d2` |
| FieldProps.InternetPeriodStartOnly | app.py:37-38 | on `약정기간 ... (d1` with no end date, when this is the only `약정기간` in the text, 인터넷_약정시작 is `d1` and 인터넷_약정종료 is None |
| FieldProps.ScopedPeriodDates | app.py:43-56 | in a TV or smart-home section, on `약정기간 ... (d1~d2)` with no `약정기간` between the end of the first header and the label, the section's 약정시작 is `d1` and its 약정종료 is `d2` |
| FieldProps.ScopedPeriodStartOnly | app.py:43-56 | in such a section, on `약정기간 ... (d1` with no end date and no other `약정기간` after the first header, the section's 약정시작 is `d1` and its 약정종료 is None |
| FieldProps.TvPeriodFrom | app.py:43-44 | on `TV (주) 약정기간`, then blanks and `(d1~d2)`, TV주_약정시작 is `d1` and TV주_약정종료 is `d2` |
| FieldProps.TvHeaderOpens | app.py:43-44 | `TV (주)` at the start of the text ends at the blank before `약정기간` |
| FieldProps.TvPeriodExampleFields | app.py:43-44 | on `TV (주) 약정기간 (2024-01-01~2025-01-01)`, TV주_약정시작 and TV주_약정종료 are the two dates |
| FieldProps.TvPeriodStartExample | app.py:43 | the parsed dict of that text has TV주_약정시작 = `2024-01-01` |
| FieldProps.TvPeriodEndExample | app.py:44 | the same text has TV주_약정종료 = `2025-01-01` |
| FieldProps.PeriodStartExample | app.py:37 | the parsed dict of `약정기간 (2024-01-01~2025-01-01)` has 인터넷_약정시작 = `2024-01-01` |
| FieldProps.PeriodEndExample | app.py:38 | the same text has 인터넷_약정종료 = `2025-01-01` |
| FieldProps.PeriodStartOnlyExample | app.py:37 | the parsed dict of `약정기간 (2024-01-01` has 인터넷_약정시작 = `2024-01-01` |
| FieldProps.PeriodNoEndExample | app.py:38 | the same text has 인터넷_약정종료 = None |
| FieldProps.EmptyNameExample | app.py:29 | on `이름: ` followed by a line break, 이름 is present and empty: `[:\s]*` gives the space back to the name class |
| FieldProps.NextLineExample | app.py:36 | on `요금제` with its value on the next line, 인터넷_요금제 is that next line |
| FieldProps.InternetPlanInTvExample | app.py:36 | on `TV (주)`, a line break and `요금제: B`, the unscoped 인터넷_요금제 is `B`, read from inside the TV section |
| FieldProps.InternetPlanInTvField | app.py:36 | the same, for the field value |
| Batch.OcrGoogleVision | app.py:18-25 | the call fails with the service's message exactly when that message is non-empty, and otherwise returns the full text; an exception from the call itself passes through |
| Batch.FileRow | app.py:86-91 | the row for one opened file: the parsed fields with 파일명 appended, or exactly {파일명, 오류}; `Batch.SuccessRow`, `Batch.ErrorRow` and `Batch.ErrorKeyIffOcrFailed` state it |
| Batch.RowFor | app.py:84-92 | the row for the upload at a position once it has decoded: the OCR reply for that position and image, made into a row by `Batch.FileRow` |
| Batch.ProcessImage | app.py:86-91 | one opened image gives the parsed fields tagged with 파일명, or the error row when OCR fails |
| Batch.RunBatch | app.py:81-92 | the batch has one row per upload, in upload order, each the row for that file and for the reply the service gave at that position; when a file cannot be opened, the batch stops at the first such file |
| Batch.BatchKeysAreNotFields | app.py:89-91 | neither 파일명 nor 오류 is a field name |
| Batch.SuccessRow | app.py:87-89 | a successful row has every field in table order followed by 파일명; each field holds its parsed value and 파일명 holds the file name |
| Batch.ErrorRow | app.py:90-91 | a failed row has exactly 파일명 and 오류, holding the file name and the error message |
| Batch.ErrorKeyIffOcrFailed | app.py:86-91 | a row has an 오류 column exactly when the OCR call failed |
| OcrText.LineTexts | ocr_utils.py:21 | one string per detection, in OCR order: the recognised text of that line |
| OcrText.JoinLines | ocr_utils.py:24 | `"\n".join(lines)`; `OcrText.SplitJoin` and `OcrText.JoinNewlines` state it |
| OcrText.SplitJoin | ocr_utils.py:24 | joining lines without newlines by `\n` can be split back into the same lines |
| OcrText.JoinNewlines | ocr_utils.py:24 | `n` lines without newlines join to a text with `n - 1` newlines |
| OcrText.ReplaceAll | ocr_utils.py:26 | `str.replace`: every occurrence found scanning left to right, not overlapping an earlier one, becomes the replacement; `OcrText.ReplaceAbsent`, `OcrText.ReplaceFirst`, `OcrText.ReplaceIdentity` and `OcrText.ReplaceNewlines` state it |
| OcrText.ReplaceAbsent | ocr_utils.py:26 | `replace` leaves unchanged a text in which the pattern does not occur |
| OcrText.ReplaceFirst | ocr_utils.py:26 | `replace` keeps the text before the first occurrence, writes the replacement for it, and continues after that occurrence |
| OcrText.ReplaceIdentity | ocr_utils.py:26 | replacing a string by itself changes nothing |
| OcrText.ReplaceNewlines | ocr_utils.py:26 | a replacement whose pattern and replacement hold no newline keeps the number of newlines |
| OcrText.Corrected | ocr_utils.py:25-26 | the text after every correction of a table, first to last; `OcrText.CorrectedAbsent` and `OcrText.CorrectedNewlines` state it |
| OcrText.ExtractText | ocr_utils.py:18-28 | `extract_text` returns the joined line texts after every correction is applied, in table order, each to the text the previous one left |
| OcrText.CorrectedAbsent | ocr_utils.py:25-26 | a text containing no misspelling from the table is left unchanged by the corrections |
| OcrText.CorrectedNewlines | ocr_utils.py:25-26 | corrections without newlines keep the number of newlines |
| OcrText.Corrections | ocr_utils.py:10-16 | the `corrections` dict as its five (misspelling, correction) pairs in insertion order, the order `items()` visits them; `OcrText.CorrectionsShape` and `OcrText.FreeEntryIsIdentity` state its shape |
| OcrText.CorrectionsShape | ocr_utils.py:10-16 | no misspelling in the table is empty, and no entry holds a newline |
| OcrText.FreeEntryIsIdentity | ocr_utils.py:14 | the `"무료"` entry maps the word to itself, so that step never changes the text |
| OcrText.ExtractUnchanged | ocr_utils.py:24-28 | a joined text with no misspelling is returned as joined |
| OcrText.ExtractKeepsLines | ocr_utils.py:21-28 | the corrected text of `n` recognised lines without newlines still has `n - 1` newlines, so the corrections never merge or split lines |

## Left out

- The Vision client and its service-account credentials (app.py:13-15): the network call is a function parameter from the upload's position in the batch and its image to the reply, so two equal images may get different replies; any exception it raises becomes `CallRaised`.
- Image encoding to JPEG (app.py:19-21) and PIL's `Image.open(...).convert("RGB")` (app.py:85): decoding is a function parameter from bytes to an optional image.
- PaddleOCR: loading the model (ocr_utils.py:7), the numpy conversion and the inference call (ocr_utils.py:19-20). The model starts from the detections of the first page, `result[0]`. A detection's box and confidence score are carried as `real` values but never read, as in the source.
- The Streamlit UI, the progress bar, the pandas DataFrame and the Excel export (app.py:74-80, 93-end): these are I/O.
- A general regular-expression engine: only the pattern shapes that occur in `FIELD_PATTERNS` are modelled, each by its own matcher.
- Chars.IsDecimal: `\d` is ASCII `0`-`9` only. Python's `\d` also matches the other Unicode decimal digits, which the model does not enumerate.
- OcrText.ExtractKeepsLines: stated for a non-empty page, because an empty page joins to the empty text, which has no `n - 1` newlines to speak of.
