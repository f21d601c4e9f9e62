# Bank statement extraction: page routing, prompt building and aggregation

This project models the glue of a bank-statement extraction system. That glue turns unreliable per-page output of a language model into one ordered list of transactions. The model covers three programs.

* **The Docling pipeline (`final.py`).** It runs over the pages of a statement.
  * Page 1 must yield a dict with `transactions`. It also yields the column structure of the statement's table.
  * Every later page is sent a prompt built from that structure (`create_next_page_prompt`). Its answer is kept only when it is a list.
  * After the loop the transactions are numbered by their place in the collected list. Empty ones are dropped.
  * The table's columns are ordered: the standard columns first, then the custom ones.
* **The chunked pipeline (`run_chunked_pipleline.py`).**
  * Each page file's text is put into a prompt.
  * The reply is cut down to its outermost JSON span and decoded.
  * Page 1 must give a non-empty dict and every later page a non-empty list.
  * The written document is page 1's dict with all the transactions under `transactions`.
* **The page splitter (`intelligenet_page_parser.py`).** It groups the elements a PDF partitioner returns by page number. Each page's texts are joined with a blank line.

Modules:

* `Wrappers`: the `Option` type.
* `PyText`: the Python string operations used. These are `strip`, `find`, `rfind`, slicing, `replace`, `join` and `str(int)`.
* `JsonValue`: decoded JSON values. It supplies insertion-ordered dicts, Python truthiness, `dict.get`, item assignment, iteration and `str()`.
* `Collections`: order-preserving de-duplication. It describes both a dict's keys and pandas' column set.
* `NextPagePrompt`: the prompt builder, and LangChain's f-string formatting of the prompt.
* `DoclingPipeline`: the page loop of `final.py`.
* `TransactionTable`: the aggregation step of `final.py`.
* `ChunkedPipeline`: the chunked pipeline.
* `PageParser`: the page splitter.

External components become parameters:

* The layout model (Docling) gives a page's Markdown, or none.
* The language model with its JSON output parser (`Extractor`, `Chat`).
* `json.loads` (`Parser`).

Each imperative part of the source is a method with loops. Its `ensures` ties the result to a specification function. The lemmas next to that function state what the source promises about it.

Three behaviours of the code are worth stating on their own, because a reader might expect otherwise:

* **Ids.** Entries are numbered by their place in `all_transactions` *before* the empty ones are dropped. So the ids are `1..len(rows)` exactly when no empty entry comes before a real one (`TransactionTable.IdsContiguous`). They are `1..len(all_transactions)` exactly when no entry is empty (`TransactionTable.EveryPositionTruthy`).
* **Column order.** The custom columns follow the standard ones in the order the frame has them: the order in which they first appear across the records, not the `position` the column structure states.
* **Exceptions.** Not every failure is caught. A truthy entry that is not a dict makes the numbering loop raise outside any `try` (`Crashed`). In the chunked pipeline, a non-iterable page-1 `transactions` value makes `extend` raise (`Crashed`).

## Model

| member | source | states |
|---|---|---|
| PyText.LStripDropsLeadingSpace | run_chunked_pipleline.py:21 | `lstrip` removes exactly a whitespace prefix and stops at the first non-whitespace character |
| PyText.RStripDropsTrailingSpace | run_chunked_pipleline.py:21 | `rstrip` removes exactly a whitespace suffix and stops at the last non-whitespace character |
| PyText.StripEmptyIffAllSpace | final.py:295 | `page_content.strip()` is empty exactly when the page text is all whitespace |
| PyText.StripStartsAtFirstNonSpace | run_chunked_pipleline.py:21 | the first character left by `strip()` is the first non-whitespace character of the text |
| PyText.StrippedStartsWithIff | run_chunked_pipleline.py:21 | `text.strip().startswith(c)`, for a non-whitespace `c`, holds exactly when only whitespace comes before some `c` |
| PyText.Find | run_chunked_pipleline.py:25 | `find` gives -1 exactly when the character is absent, and otherwise an index holding it with no earlier occurrence |
| PyText.RFind | run_chunked_pipleline.py:26 | `rfind` gives -1 exactly when the character is absent, and otherwise an index holding it with no later occurrence |
| PyText.FindFirst | run_chunked_pipleline.py:25 | the first index holding the character is what `find` returns |
| PyText.RFindLast | run_chunked_pipleline.py:26 | the last index holding the character is what `rfind` returns |
| PyText.NatToString | final.py:184 | `str(n)` is a non-empty string of decimal digits with no leading zero |
| PyText.NatToStringRoundTrip | final.py:398 | `int(str(n)) == n`: rendering an id or a column number loses nothing |
| PyText.NatToStringInjective | final.py:184 | different column numbers render differently |
| PyText.JoinLength | intelligenet_page_parser.py:33 | `sep.join` adds exactly one separator between neighbouring parts, and the empty list joins to `""` |
| PyText.JoinSnoc | intelligenet_page_parser.py:33 | joining one more part appends the separator and that part |
| PyText.ReplaceAllAbsent | run_chunked_pipleline.py:43 | `replace` leaves a string without the pattern unchanged |
| PyText.ReplaceAllFirst | run_chunked_pipleline.py:43 | `replace` substitutes the first occurrence and resumes scanning right after it |
| PyText.ReplaceAllKeepsPrefix | run_chunked_pipleline.py:43 | text in front of the first occurrence of the pattern passes through `replace` untouched |
| PyText.ReplaceAllSelf | run_chunked_pipleline.py:43 | replacing a pattern by itself changes nothing |
| PyText.ReplaceAllOneChar | final.py:205 | `replace` with a one-character pattern substitutes every occurrence of that character |
| PyText.ReplaceCharAppend | final.py:205 | replacing a character distributes over concatenation |
| PyText.ReprQuote | final.py:177 | `repr` quotes a string with `"` exactly when it holds `'` and no `"` |
| PyText.ReprPlain | final.py:177 | a string without quotes, backslashes or unprintable Latin-1 characters is written in single quotes as it is |
| PyText.ReprApostrophe | final.py:177 | a string with `'` but no `"`, and nothing else to escape, is written in double quotes as it is |
| PyText.ReprBodyQuotesEscaped | final.py:177 | inside the quotes, the quote character only ever appears escaped by a backslash |
| JsonValue.Keys | final.py:320 | the keys of a dict are its entries' keys, in insertion order |
| JsonValue.Lookup | final.py:325 | `d[k]` is absent exactly when `k` is not a key; otherwise the pair of `k` and the value found is an entry of the dict |
| JsonValue.Put | final.py:398 | `d[k] = v` keeps the key order when `k` exists, and otherwise adds `k` last |
| JsonValue.PutThenLookup | final.py:398 | after `d[k] = v`, `d[k]` is `v` |
| JsonValue.PutKeepsOthers | final.py:398 | `d[k] = v` leaves every other key's value as it was |
| JsonValue.PutTwice | run_chunked_pipleline.py:89 | setting a key twice is setting it once to the second value |
| JsonValue.IterItems | final.py:343 | `extend`/`for` over a value succeeds exactly for a list, a string or a dict; the result is empty exactly when the value is falsy; a list gives its items |
| Collections.FirstSeen | intelligenet_page_parser.py:25-26 | the de-duplication is repetition-free, holds exactly the elements of its input, and is no longer than it |
| Collections.FirstIndex | final.py:414-416 | the place of the first occurrence of `x`: it holds `x` and has no earlier `x` |
| Collections.FirstIndexUnique | final.py:414-416 | the first index is the only index with `x` there and no `x` before it |
| Collections.FirstIndexSnoc | final.py:414-416 | appending leaves the first index of a present element unchanged |
| Collections.FirstSeenInOrder | intelligenet_page_parser.py:30 | the de-duplication lists elements in the order of their first occurrence |
| Collections.FirstSeenOfDistinct | final.py:409-416 | a repetition-free sequence is its own de-duplication |
| Collections.FirstSeenKeepsPrefix | final.py:409-416 | de-duplicating `a + b` keeps a repetition-free `a` unchanged at the front |
| Collections.DistinctMultiplicity | final.py:418 | every member of a repetition-free sequence occurs exactly once |
| Collections.DistinctSameElementsPermutation | final.py:418 | two repetition-free sequences with the same elements are permutations of each other |
| NextPagePrompt.ColumnDescriptors | final.py:165-176 | the descriptors are what iterating `column_order` (default `[]`) gives, and they are found exactly when that value is iterable and every item is a dict; None where iteration or `.get` raises |
| NextPagePrompt.BuildPromptParts | final.py:162-199 | the three loops and `json_example` compute `PromptPartsOf`; None exactly where they raise |
| NextPagePrompt.BuildColumnMappingInfo | final.py:169-177 | the summary is built exactly when every descriptor is a dict: the header line, then one structure line per descriptor, in order |
| NextPagePrompt.BuildExplicitMapping | final.py:180-184 | the mapping is a newline, then one line per descriptor numbered by enumeration from 1 |
| NextPagePrompt.BuildExampleFields | final.py:187-197 | one example field per descriptor, in order |
| NextPagePrompt.MappingLinesNumberByPlace | final.py:181-184 | there is one mapping line per descriptor, and line `k` describes descriptor `k` under the number `k + 1` |
| NextPagePrompt.MappingLineIgnoresStatedPosition | final.py:181-184 | a descriptor's mapping line is the same whatever its `position` says |
| NextPagePrompt.StructureLineShowsStatedPosition | final.py:172-177 | the structure summary shows the stated `position` and leaves the other fields as they are |
| NextPagePrompt.ExampleFieldsInOrder | final.py:187-197 | the JSON example has one field per descriptor, in order, each valued by its `data_type` |
| NextPagePrompt.ExampleFallbackOnlyWhenEmpty | final.py:199 | the fixed fallback example is used exactly when there are no descriptors: no example built from descriptors equals it |
| NextPagePrompt.EscapeBracesDoublesBraces | final.py:205 | the two `replace` calls double every `{` and every `}` and change nothing else |
| NextPagePrompt.DoubleBracesOfBraceFree | final.py:205 | escaping text without braces leaves it unchanged |
| NextPagePrompt.DoubleBracesByReplaceChar | final.py:205 | replacing `{` and then `}` doubles each brace exactly once |
| NextPagePrompt.FormatDoubled | final.py:242-245 | f-string formatting turns doubled braces back into single ones: escaped text comes back verbatim |
| NextPagePrompt.FormatBraceFree | final.py:242-245 | text without braces passes through formatting unchanged |
| NextPagePrompt.FormatDocumentText | final.py:239-244 | the `{document_text}` field is replaced by the page text |
| NextPagePrompt.FormatRejectsOtherField | final.py:242-245 | a field other than `document_text` makes formatting raise |
| NextPagePrompt.FormatTail | final.py:237-240 | the end of the template formats to the Markdown fence around the page text |
| NextPagePrompt.FormatSegment | final.py:209-240 | fixed text followed by an escaped piece comes back verbatim ahead of the rest |
| NextPagePrompt.FormatEscapedTemplate | final.py:205-245 | with every interpolated piece escaped, formatting always succeeds and gives the pieces back verbatim, with the page text in its slot |
| NextPagePrompt.AsWrittenAgreesWhenBraceFree | final.py:209-240 | when the summary and the mapping hold no braces, the template as written is the fully escaped one |
| NextPagePrompt.BracedHeaderBreaksAsWritten | final.py:169-184 | a column headed `{name}` (not `document_text`) makes the template as written raise on formatting, so the page is skipped |
| NextPagePrompt.BracedHeaderExample | final.py:172-177 | a structure whose only column is headed `{Rs}` meets those conditions |
| DoclingPipeline.FirstPage | final.py:311-343 | page 1's branch computes `FirstPageStep`, including each early `continue` |
| DoclingPipeline.NextPage | final.py:345-373 | a later page's branch computes `NextPageStep` with the escaped prompt |
| DoclingPipeline.ProcessPages | final.py:275-389 | the loop leaves `all_transactions` and `column_structure` as `Pages` gives them |
| DoclingPipeline.FirstPageAccepts | final.py:320-343 | page 1 counts only when its answer is a dict with `transactions`; then the structure is set (default `{}`) and truthy iterable transactions are appended when the column log does not raise |
| DoclingPipeline.MalformedFirstPageCollectsNothing | final.py:311-349 | when page 1 is blank or malformed, no page contributes anything and the structure stays `None` |
| DoclingPipeline.FirstPageExtends | final.py:341-343 | page 1 only appends, and only items of the model's answer to the first-page instructions built from page 1's Markdown |
| DoclingPipeline.NextPageExtends | final.py:368-373 | a later page only appends, and only items of the model's answer to the prompt built from the column structure held at that point and the page's Markdown |
| DoclingPipeline.PageStepExtends | final.py:292-389 | every turn of the loop, exceptions included, appends nothing or only items of the answer to the instructions sent for that page |
| DoclingPipeline.TransactionsOnlyGrow | final.py:275-389 | what the first `k` pages collected is a prefix of what all pages collect |
| DoclingPipeline.StructureFromFirstPage | final.py:311-325 | only page 1 sets the column structure |
| DoclingPipeline.NoStructureNoLaterPages | final.py:347-349 | without a usable structure from page 1, every later page is skipped |
| DoclingPipeline.NextPromptAssembled | final.py:351-361 | the later-page prompt is always built and formatted: the pieces verbatim between the fixed text, with the Markdown in the document slot |
| DoclingPipeline.NextPageAddsItsAnswer | final.py:361-373 | a later page whose prompt is made appends exactly the items of a list answer, and nothing for any other answer |
| DoclingPipeline.LaterPageAddsItsAnswer | final.py:345-373 | a later page with content and a usable structure is sent the assembled prompt and appends exactly a list answer's items |
| DoclingPipeline.TransactionsComeFromAnswers | final.py:275-389 | every collected transaction is an item of the answer some page got to the instructions the loop sent for it, given the structure the earlier pages left |
| TransactionTable.NumberedAll | final.py:396-398 | numbering keeps the list's length |
| TransactionTable.NumberTransactions | final.py:396-398 | the loop succeeds exactly when every truthy entry is a dict, and then gives each truthy entry the id `i + 1` |
| TransactionTable.TruthyPositions | final.py:397 | the truthy entries' positions, each exactly once, in increasing order |
| TransactionTable.AllKeys | final.py:402 | the frame sees a key exactly when some row has it |
| TransactionTable.Present | final.py:409-411 | the standard columns kept are exactly those the frame has |
| TransactionTable.KeepPresent | final.py:409-411 | the first loop keeps the standard columns the frame has, in the standard order |
| TransactionTable.AppendMissing | final.py:414-416 | the second loop appends, in frame order, every frame column not yet chosen |
| TransactionTable.OrderColumns | final.py:405-416 | `final_columns` is the present standard columns followed by the rest of the frame, de-duplicated |
| TransactionTable.Aggregate | final.py:392-418 | nothing is written without transactions; a non-dict truthy entry crashes; otherwise the table is the numbered non-empty rows under the ordered columns |
| TransactionTable.NumberedAllNumberable | final.py:396-402 | numbered entries can still be turned into rows |
| TransactionTable.PresentDistinct | final.py:409-411 | the kept standard columns have no repetitions |
| TransactionTable.RowsAtTruthyPositions | final.py:402 | the rows are exactly the truthy entries, in their original order |
| TransactionTable.RowsOfNumbered | final.py:396-402 | stamping ids does not change which entries become rows: row `k` is the numbered entry at the `k`-th truthy place |
| TransactionTable.NumberedIds | final.py:396-398 | a truthy entry at place `i` gets `transaction_id` `i + 1` and keeps every other field |
| TransactionTable.TruthyPositionsAgree | final.py:397-402 | stamping ids does not change which entries are empty |
| TransactionTable.RowsNumbered | final.py:396-402 | row `k` is the `k`-th non-empty entry with `transaction_id` set to its place in the collected list plus one |
| TransactionTable.RowIds | final.py:396-402 | each row's `transaction_id` is that place plus one, and every other field is the entry's own |
| TransactionTable.IdsIncrease | final.py:396-398 | the ids strictly increase down the table, so they are unique |
| TransactionTable.EveryPositionTruthy | final.py:396-398 | the ids are `1..len(all_transactions)` exactly when no entry is empty |
| TransactionTable.IdsContiguous | final.py:396-402 | the ids are `1..len(rows)` exactly when no empty entry precedes a real one |
| TransactionTable.ContiguousIdsNoGap | final.py:396-402 | contiguous ids imply that no empty entry precedes a real one |
| TransactionTable.NoGapIdsContiguous | final.py:396-402 | with no empty entry before a real one, the ids are contiguous |
| TransactionTable.PresentHead | final.py:409-411 | a present first standard column is kept first |
| TransactionTable.StandardColumnsFirst | final.py:405-416 | the present standard columns come first, in the standard order; every later column is a custom one |
| Collections.FirstIndexAfter | final.py:414-416 | a custom column's place after the standard ones follows its place in the frame |
| TransactionTable.CustomColumnsInFrameOrder | final.py:413-416 | the custom columns keep the frame's order |
| TransactionTable.OrderedColumnsPermutation | final.py:405-418 | `final_columns` is a repetition-free permutation of the frame's columns |
| TransactionTable.TransactionIdFirst | final.py:396-418 | whenever there is a row, `transaction_id` is the first column |
| ChunkedPipeline.StartChar | run_chunked_pipleline.py:21 | the start character is `[` or `{`, and it is `[` exactly when the stripped reply begins with `[` |
| ChunkedPipeline.JsonCandidate | run_chunked_pipleline.py:25-32 | there is no candidate exactly when the start or the end character is missing |
| ChunkedPipeline.JsonCandidateSpan | run_chunked_pipleline.py:25-32 | the candidate runs from the first start character to the last end character inclusive, and is empty when they cross |
| ChunkedPipeline.FindsEmbeddedJson | run_chunked_pipleline.py:16-39 | a reply of leading whitespace, one JSON text opening with `[` or `{` and closing with the matching bracket, and trailing text without that bracket decodes to exactly that JSON text, whatever brackets it holds inside |
| ChunkedPipeline.NoSpanNoResult | run_chunked_pipleline.py:32-39 | when no start character precedes the last end character, the result is None |
| ChunkedPipeline.PromptWithoutPlaceholder | run_chunked_pipleline.py:43 | a template without `{{page_text}}` is sent unchanged |
| ChunkedPipeline.PromptAtFirstPlaceholder | run_chunked_pipleline.py:43 | the first `{{page_text}}` becomes the page text and the replacing goes on after it |
| ChunkedPipeline.PromptOfOnePlaceholder | run_chunked_pipleline.py:43 | a template holding `{{page_text}}` once sends the page text in its place and the rest of the template unchanged |
| ChunkedPipeline.ProcessPageOfReply | run_chunked_pipleline.py:41-56 | for such a template, a page whose reply wraps one JSON text in whitespace and trailing text gives what that JSON text decodes to |
| ChunkedPipeline.TemplatesSplitPages | run_chunked_pipleline.py:83-100 | the first-page template decides only page 1's result and the next-page template only the later pages' results |
| ChunkedPipeline.RunChunked | run_chunked_pipleline.py:71-109 | the main block ends as `Outcome` says, for what the pages returned |
| ChunkedPipeline.ExtendWithLaterPages | run_chunked_pipleline.py:96-106 | the loop appends the accepted later lists, in page order, to page 1's transactions |
| ChunkedPipeline.LaterGrows | run_chunked_pipleline.py:96-106 | later pages only append: the list after page m is a prefix of the list after page n |
| ChunkedPipeline.LaterFromAcceptedPages | run_chunked_pipleline.py:102-103 | every later transaction is an item of the non-empty list answer of one of pages 2..n |
| ChunkedPipeline.RejectedPageAddsNothing | run_chunked_pipleline.py:102-106 | a later page whose result is not a non-empty list leaves the list unchanged |
| ChunkedPipeline.WrittenKeepsPageOne | run_chunked_pipleline.py:85-109 | the written document keeps page 1's other keys and values; its `transactions` is page 1's followed by the later pages' |
| ChunkedPipeline.FatalUnlessPageOneDict | run_chunked_pipleline.py:85-93 | the run stops fatally exactly when page 1's result is not a non-empty dict |
| PageParser.Pages | intelligenet_page_parser.py:24 | the page number of every element, in element order |
| PageParser.GroupByPage | intelligenet_page_parser.py:22-27 | the dict's keys are the page numbers in order of first appearance, and each maps to its elements' texts in element order |
| PageParser.StepFacts | intelligenet_page_parser.py:23-27 | one loop turn adds a new page number at the end and appends the text to its page's list |
| PageParser.GroupsKeys | intelligenet_page_parser.py:25-26 | the dict has a key exactly for each page number that occurs |
| PageParser.GroupsHoldTexts | intelligenet_page_parser.py:22-27 | each page number maps to its elements' texts, in element order |
| PageParser.NoTextsOffPage | intelligenet_page_parser.py:25-27 | a page number no element carries has no texts |
| PageParser.PageFiles | intelligenet_page_parser.py:30-33 | one file per page, in first-appearance order, holding the page's texts joined by a blank line |
| PageParser.TextsOnAppend | intelligenet_page_parser.py:23-27 | grouping keeps element order within a page |
| PageParser.TextInItsPage | intelligenet_page_parser.py:24-27 | every element's text is among the texts of its own page |
| PageParser.GroupedCountSnoc | intelligenet_page_parser.py:27 | one more element adds one text to exactly its own page |
| PageParser.GroupedCountCovers | intelligenet_page_parser.py:22-27 | counted over distinct pages covering every element, each text is counted once |
| PageParser.GroupedCountEmpty | intelligenet_page_parser.py:22 | no elements, no texts |
| PageParser.EveryTextGroupedOnce | intelligenet_page_parser.py:22-27 | the groups together hold exactly as many texts as there are elements |
| PageParser.ContentGrows | intelligenet_page_parser.py:33 | a further text on a page already begun extends its content by a blank line and the text |

## Left out

- PDF splitting (`pypdf`), Docling conversion and `partition_pdf` are left out. A page is the Markdown Docling gave for it, or none, and the partition is a sequence of elements.
- The language models (`ChatOllama`, `ollama.chat`) and LangChain's `JsonOutputParser` are parameters (`Extractor`, `Chat`), and so is `json.loads` (`Parser`). None stands for "raised". Their internals are not modelled.
- File and console I/O is not modelled: `print`, the debug files, `json.dump`, `to_csv`, `load_text`, `exit`, `argparse` and output names.
- Page file discovery in `run_chunked_pipleline.py` (`sorted(glob(...))`) is not modelled. The page texts are taken in the order given. Note that string sorting would put `page_10.txt` before `page_2.txt`.
- The file name `page_{page_num}.txt` of the page splitter is not modelled. `PageParser.PageFiles` returns the page number with the content.
- The first-page prompt of `final.py` is not modelled. Page 1 is sent its Markdown under `FirstPageInstructions`.
- The "Extracted N transactions" message of `final.py` is not modelled. When `len()` raises there, the state has already been updated, so the `continue` changes nothing.
- `JsonValue.Show`: a number's `str()` text is carried as data, not computed, because floating-point formatting is out of scope. An integer the code creates (`IntValue`) is rendered with `str(int)`.
- `PyText.Repr`: characters outside Latin-1 that Python does not count as printable (format characters, line and paragraph separators, unassigned code points) are written as they are; Python escapes them as `\x`, `\u` or `\U`. A full Unicode category table is out of scope.
- `NextPagePrompt.FormatTemplate`: format specs, conversions, attribute and index access inside a field (`{document_text!r}`, `{document_text:>5}`, `{document_text[0]}`) are modelled as raising, although Python accepts them; the lemmas that a field raises require a name without `:`, `!`, `.` or `[`.
- `DoclingPipeline.NextPromptAssembled` and `DoclingPipeline.LaterPageAddsItsAnswer`: the fixed text of the template is assumed free of braces (`FixedTextBraceFree`). The constants in `NextPagePrompt.SourceText` have none, but that is not machine-checked because of their length.
- `DoclingPipeline.NextPage`: `create_next_page_prompt` is given the corrected, fully escaped template (see Findings). `NextPagePrompt.TemplateAsWritten` keeps the source's version, and `NextPagePrompt.AsWrittenAgreesWhenBraceFree` shows that the two agree unless a header or field holds a brace.
- `ChunkedPipeline.NoSpanNoResult`: that `json.loads("")` raises is a hypothesis on the parser parameter.
- `ChunkedPipeline.RunChunked`: after line 89, `final_json_data['transactions']` is the same list object that the loop appends to. The model does not capture this aliasing; line 109 then reassigns the key, and `JsonValue.PutTwice` shows that the end result is the same.
- Objects decoded from JSON are taken to have distinct keys, as Python dicts do; `JsonValue` does not enforce it.

## Findings

| source | as written | input that shows it | evidently intended | confidence | as-written member | corrected member |
|---|---|---|---|---|---|---|
| final.py:205-240 | only `json_example` is brace-escaped; `column_mapping_info` and `explicit_mapping`, which carry header names and fields from the model's page-1 answer, go into the f-string template unescaped | page 1's `column_structure` has one column whose `header_name` is `{Rs}`: formatting reads `{Rs}` as a template variable and raises, so every later page is skipped | every interpolated piece escaped, so that the template always formats to the pieces verbatim with the page text in its slot | not executed | NextPagePrompt.BracedHeaderBreaksAsWritten | NextPagePrompt.FormatEscapedTemplate |
