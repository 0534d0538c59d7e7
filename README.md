# Doc Report Generator: normalisation and report content

This project models the core of `DocReportGenerator` (`doc.py`), which turns a
JSON API response into a Word report:

- `_normalize` (`wrappers.dfy`, `py_text.dfy`, `json_value.dfy`, `normalizer.dfy`)
  turns the decoded response into report metadata (`source`, `count`) and a
  list of flat item records. A list's elements are the candidate items. An
  object is the one candidate, and anything else gives no candidates. Every
  candidate that is an object becomes one record. Each field falls back to a
  fixed value when the object lacks it. `Normalizer.Normalize` is the pure
  definition. `Normalizer.NormalizeLoop` is the source's own `for` loop with
  `continue`, and it is proved equal to `Normalize`.
- `format_doc` (`renderer.dfy`) is modelled as the logical content it writes:
  a sequence of blocks. These are the title heading, the metadata paragraph
  (its runs), the summary table with its spacer paragraph, and three blocks
  per record (heading, info line, body).
- `run` (`pipeline.dfy`) composes the two steps on a fetched response. A
  successful fetch always sets `last_fetch_at`, so `Pipeline.Content` takes a
  fetch time, while `Renderer.Render` (a direct `format_doc` call) takes it
  as an `Option`.

Python behaviour the code relies on is modelled explicitly:

- Truthiness (`or "(untitled)"`).
- `dict.get`. When the JSON text repeats a member name, the decoder keeps the
  last value, so `JsonValue.Get` returns the last member with that name.
- `str()` and f-string formatting of ids and titles: a string is itself,
  anything else is its `repr`.
- `str.strip()`, with Python's exact set of whitespace characters.

The timestamps "Generated:" and "Fetched:" are opaque, already-formatted
inputs.

python-docx is taken to accept every text it is given. The failures it can
raise are listed under "## Left out".

At the edges the code behaves as follows, and the model follows it:

- `count` is the number of candidates, not the number of records.
- A skipped non-object element keeps its number, so record indices can have
  gaps.
- A title is replaced when it is falsy (`null`, `false`, `0`, `""`, `[]`,
  `{}`), not only when it is missing or empty.
- An `"id"` member is kept even when it is `null`, and is then printed as
  "None".
- A `"body"` member that is not a string is kept as the summary. Rendering
  then fails at `.strip()` (`AttributeError`) on the first such record. The
  model returns `Err(SummaryNotText(index))` for that record. This is the only
  failure of `format_doc` the model has: the python-docx failures listed under
  "## Left out" are not modelled.

## Model

| member | source | states |
|---|---|---|
| JsonValue.Get | doc.py:53-57 | `item.get(key)` is `None` exactly when the object has no member `key`; otherwise it is the value of the last member named `key` |
| JsonValue.Truthy | doc.py:54 | Python truthiness of a decoded value: `None`, `False`, `0`, `""`, `[]` and `{}` are false, everything else true (a definition; used by Normalizer.ItemOf) |
| JsonValue.DropOtherLast | doc.py:53-57 | dropping a last member with another name changes neither whether `key` is present nor which member is its last |
| JsonValue.Repr | doc.py:89-90 | `repr` of `null` is "None", of booleans "True"/"False"; of an int, a decimal text that parses back to it; of a string, a quoted text that unquotes back to it; of a list, a text bracketed by `[` `]`, of a dict by `{` `}` |
| JsonValue.Str | doc.py:89-90 | `str()` of a string is the string itself; of `null` "None", of booleans "True"/"False"; of an int, a decimal text that parses back to that int; of lists and dicts, their bracketed repr |
| PyText.TrimStartShape | doc.py:99 | left-stripping drops exactly a whitespace prefix and leaves a result that is empty or starts with a non-space |
| PyText.TrimEndShape | doc.py:99 | right-stripping drops exactly a whitespace suffix and leaves a result that is empty or ends with a non-space |
| PyText.Strip | doc.py:99 | `str.strip()`: the left strip, then the right strip (a definition; its properties are the lemmas below) |
| PyText.StripEnds | doc.py:99 | a stripped summary is empty or starts and ends with a non-space |
| PyText.StripIsSlice | doc.py:99 | `strip()` returns a contiguous slice of its input with only whitespace outside it |
| PyText.StripEmptyIff | doc.py:99 | `strip()` gives `""` exactly when the summary is all whitespace |
| PyText.StripIdempotent | doc.py:99 | stripping twice is stripping once |
| PyText.DigitChar | doc.py:89 | each digit value 0-9 is printed as one decimal digit character of that value |
| PyText.NatToString | doc.py:89 | `str()` of a non-negative int is a non-empty run of digits without a leading zero |
| PyText.NatToStringValue | doc.py:89 | the digits `str()` prints for `n` have decimal value `n` |
| PyText.IntToString | doc.py:89 | `str()` of an int: "-" before the digits of a negative number (a definition; IntToStringRoundTrip states what it means) |
| PyText.IntToStringRoundTrip | doc.py:89 | `int(str(i)) == i` for every integer `i`, the sign included |
| PyText.IntToStringInjective | doc.py:89 | different indices are printed as different "#" cells and heading prefixes |
| PyText.QuoteString | doc.py:90 | `repr` of a string is quoted at both ends with the quote Python picks (double only when the text has `'` and no `"`) |
| PyText.UnescapeEscape | doc.py:90 | unescaping the escaped body of a string repr gives the string back |
| PyText.QuoteStringRoundTrip | doc.py:90 | unquoting `repr(s)` gives `s` back |
| Normalizer.Candidates | doc.py:38-46 | the items the loop walks: a list's elements, an object alone, nothing otherwise (a definition; Normalizer.Normalize states the count it gives) |
| Normalizer.ItemOf | doc.py:51-58 | a record keeps its position as `index`; `id` is the object's last "id" value when present, even null, else "item-{i}"; `title` is always truthy: the last "title" value when truthy, else "(untitled)"; status is "published", created_at is ""; summary is the last "body" value, else "" |
| Normalizer.Normalize | doc.py:35-46 | `source` is the endpoint; `count` is the list's length for a list, 1 for an object, 0 otherwise, which is the number of candidates |
| Normalizer.NormalizeItems | doc.py:47-58 | the filter-map the loop computes, one record per object under its 1-based position; never more records than candidates |
| Normalizer.NormalizeLoop | doc.py:35-59 | `_normalize` as written, choosing the items and the metadata by the kind of the response and then running the loop, returns exactly `Normalize` |
| Normalizer.NormalizeCandidates | doc.py:47-58 | the loop over `enumerate(items, start=1)` that appends one record per object and `continue`s past the rest computes exactly `NormalizeItems` |
| Normalizer.ItemsCount | doc.py:48-50 | no more records than candidates, and as many exactly when every candidate is an object |
| Normalizer.ItemsAllObjects | doc.py:48-58 | a response whose candidates are all objects gives one record per candidate |
| Normalizer.ItemsSkipped | doc.py:49-50 | a candidate that is not an object makes the record list shorter than `count` |
| Normalizer.ItemsFromObjects | doc.py:48-58 | every record's index is a position in `1..count` holding an object, and the record is built from that object |
| Normalizer.IndicesIncreasing | doc.py:48-52 | records keep input order: their indices strictly increase |
| Normalizer.EveryObjectEmitted | doc.py:48-52 | every object candidate yields a record under its own position, so gaps in the indices are exactly the skipped elements |
| Normalizer.OnePost | doc.py:35-59 | `[{"id": 1, "title": "Hello", "body": "World"}]` normalises to count 1 and the record (1, 1, "Hello", "published", "", "World") |
| Normalizer.EmptyObject | doc.py:41-43 | `{}` normalises to count 1 and the record (1, "item-1", "(untitled)", "published", "", "") |
| Normalizer.NullIdKept | doc.py:53 | `[{"id": null}]` gives a record whose id is null, not "item-1" |
| Normalizer.SkippedElementKeepsNumber | doc.py:48-53 | `[5, {}]` has count 2 and a single record numbered 2 with id "item-2" |
| Renderer.MetaRuns | doc.py:73-78 | the metadata paragraph's runs: "Source: …", "Items: {count}", "Generated: …", and "Fetched: …" only after a fetch (a definition; Renderer.RenderHead states where it lands) |
| Renderer.Rows | doc.py:87-93 | the table's data rows, one per record (a definition; Renderer.RowsAt states its contents) |
| Renderer.RowsAt | doc.py:87-93 | one table row per record, in record order; row j shows `str(index)`, `str(id)`, the title, the status and the creation time of record j |
| Renderer.HeadingText | doc.py:96 | the heading text "{index}. {title}" with `str()` of both (a definition) |
| Renderer.InfoLine | doc.py:98 | the info line "ID: {id} \| Status: {status} \| Created: {created_at}" followed by a newline (a definition) |
| Renderer.BodyText | doc.py:99 | the body paragraph is never empty |
| Renderer.BodyTextCases | doc.py:99 | the body is "(no summary available)" exactly for all-whitespace summaries, and otherwise the stripped summary, with non-space ends |
| Renderer.RecordBlocks | doc.py:95-100 | each record contributes exactly three blocks |
| Renderer.Sections | doc.py:95-101 | the blocks of the records in order, failing at the first record whose summary is not a string (a definition; Renderer.SectionsOk, SectionsFirstError and SectionsAt state its properties) |
| Renderer.SectionsOk | doc.py:95-101 | the record blocks can be built exactly when every summary is a string |
| Renderer.SectionsFirstError | doc.py:99 | when they cannot, the failure is at the first record whose summary is not a string |
| Renderer.SectionsLength | doc.py:95-101 | the record part of the document has three blocks per record |
| Renderer.SectionsUnfold | doc.py:95-101 | the first record's blocks come first, then the blocks of the other records |
| Renderer.SectionsFlat | doc.py:95-101 | the record part is the concatenation of each record's three blocks, in record order |
| Renderer.SectionsAt | doc.py:95-101 | record j owns blocks 3j, 3j+1 and 3j+2 of the record part |
| Renderer.SectionsHaveNoTable | doc.py:95-101 | the record part holds no table |
| Renderer.Render | doc.py:61-102 | `format_doc`: the title, the metadata, the table and spacer when there are records, then the record blocks (a definition; the Render* lemmas state its shape) |
| Renderer.RenderOutcome | doc.py:61-102 | the document is produced exactly when every summary is a string; otherwise the failure names the first record whose summary is not |
| Renderer.RenderHead | doc.py:69-94 | the document opens with the level-0 title and a metadata paragraph of runs "Source: …", "Items: {count}", "Generated: …", plus "Fetched: …" exactly when a fetch happened; then, when there are records, the table with the fixed header and one row per record, followed by an empty paragraph; its length is that head plus three blocks per record |
| Renderer.RenderRecord | doc.py:95-100 | record j's heading "{index}. {title}" (level 2), info line and body text sit right after that head, at positions top+3j, top+3j+1 and top+3j+2 |
| Renderer.RenderTableIff | doc.py:80-94 | the document contains a table exactly when there are records |
| Pipeline.Content | doc.py:111-114 | `run` between fetch and save: normalise the fetched response, then format it with the fetch time (a definition; Pipeline.ContentOkIff and the scenarios state its results) |
| Pipeline.TextBodiesGiveTextSummaries | doc.py:57 | when every object's "body" (if any) is a string, every record's summary is a string |
| Pipeline.NonTextBodyGivesNonTextSummary | doc.py:57 | an object whose "body" is not a string gives a record whose summary is not a string |
| Pipeline.RecordOfObject | doc.py:48-58 | the object at candidate position k has its record among the records |
| Pipeline.SummariesTextIff | doc.py:57 | every summary is a string exactly when no object has a non-string "body" |
| Pipeline.ContentOkIff | doc.py:111-114 | normalising and formatting a fetched response succeeds exactly when no object in it has a non-string "body" |
| Pipeline.EmptyListContent | doc.py:111-114 | `[]` gives only the title and the metadata paragraph with "Items: 0" and the "Fetched:" run: no table, no records |
| Pipeline.OneRecordRender | doc.py:69-101 | a one-record report is the title, the metadata, a one-row table, the spacer, then that record's three blocks |
| Pipeline.OnePostRecord | doc.py:89-100 | the record of the single post gets row ("1", "1", "Hello", "published", "") and blocks "1. Hello", "ID: 1 \| Status: published \| Created: " and "World" |
| Pipeline.MetaRunsOne | doc.py:74-78 | with count 1 and a fetch time the metadata runs are Source, "Items: 1", Generated and Fetched |
| Pipeline.OnePostContent | doc.py:111-114 | the single post gives exactly seven blocks, spelled out in full |
| Pipeline.EmptyRecord | doc.py:96-99 | the fallback record gets the heading "1. (untitled)", the info line with id "item-1" and the body "(no summary available)" |
| Pipeline.NullIdContent | doc.py:111-114 | `[{"id": null}]` shows "None" in the table's ID cell and in the info line "ID: None \| Status: published \| Created: " |
| Pipeline.EmptyObjectContent | doc.py:111-114 | `{}` gives seven blocks, the last three being "1. (untitled)", the info line with "item-1" and "(no summary available)" |
| Pipeline.CountShownNotRecords | doc.py:75-96 | `[5, {}]` shows "Items: 2" above a single record headed "2. (untitled)" |

## Left out

- `fetch_data` (doc.py:21-33) is an HTTP request and JSON decoding done by libraries. The decoded value is an input.
- `save` (doc.py:104-109) writes the file through python-docx, and the `__main__` block (doc.py:118-125) prints. Both are I/O.
- Page orientation, margins, the table style, font size, centring and bold runs in `format_doc` are styling with no content.
- Timestamps and their `strftime` formatting (doc.py:30, 71, 78) are opaque string inputs. `last_fetch_at` is an `Option` for `format_doc` and always present for `run`.
- `fetch_data` sets `raw_data` and `last_fetch_at` on the instance. That state belongs to the I/O part and is passed in as a parameter.
- JSON numbers are integers only. Floats and their `repr` are not modelled.
- JsonValue.Repr: characters above U+00FF are kept as-is. Python's `repr` also escapes non-printable characters beyond Latin-1.
- JsonValue.Repr: a dict is printed with every member of the JSON text. The decoder collapses repeated names, but the printed form of such an object is not modelled.
- Renderer.RowOf: the title cell holds the title value itself. How python-docx's `cell.text` setter treats a non-string title is library behaviour, so it is not modelled.
- Renderer.RenderOutcome: assuming python-docx accepts every cell and run text. The source can also raise in two other ways. A truthy non-string title (an int, a bool) given to `cell.text` at doc.py:91 raises `TypeError`, in the table before any `.strip()`. Any text holding a character XML forbids (a control character such as U+0001) in a cell, heading or run (doc.py:89-100) makes lxml raise `ValueError`.
- Renderer.SectionsOk: assuming python-docx accepts every cell and run text. A non-string title in the table (`TypeError`, doc.py:91) or an XML-forbidden control character in any text (`ValueError`, doc.py:89-100) also stops the source.
- Renderer.SectionsFirstError: assuming python-docx accepts every cell and run text. A non-string title in the table (`TypeError`, doc.py:91) or an XML-forbidden control character in an earlier text (`ValueError`, doc.py:89-100) would fail first in the source.
- Pipeline.ContentOkIff: assuming python-docx accepts every cell and run text. A non-string title in the table (`TypeError`, doc.py:91) or an XML-forbidden control character in any text (`ValueError`, doc.py:89-100) also makes `run` fail.
- JsonValue.Repr: for lists and dicts only the brackets are stated. The text between them (each element or member by `repr`, separated by ", ") is given by the definition only.
- JsonValue.Str: for lists and dicts only the brackets are stated, as for JsonValue.Repr.
- `meta.get('source', self.api_url)`, `meta.get('count', 0)` and `normalized.get("items", [])` in `format_doc` fall back only for a dict that `_normalize` did not build. The model renders only reports that `Normalize` can produce, which always have these keys.
- The earlier revision of the file under `.history/` is not part of this model.
