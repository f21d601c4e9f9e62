/** The schema-guided prompt for pages after the first (`create_next_page_prompt` in final.py) and
    LangChain's f-string formatting of it with the page text. */
module NextPagePrompt {
  import opened Wrappers
  import opened JsonValue
  import PyText
  import Collections

  const Arrow := "\U{2192}"

  // The fields of one column descriptor, read with `col_info.get(key, default)`.
  function Position(col: Entries): Json { Get(col, "position", IntValue(0)) }
  function HeaderName(col: Entries): Json { Get(col, "header_name", JStr("Unknown")) }
  function DataType(col: Entries): Json { Get(col, "data_type", JStr("unknown")) }
  function Field(col: Entries): Json { Get(col, "standardized_field", JStr("unknown")) }

  /** One line of the table-structure summary; it shows the position the descriptor states. */
  function StructureLine(col: Entries): string {
    ColumnLead(col) + Show(HeaderName(col)) + AfterHeader(col)
  }

  function ColumnLead(col: Entries): string {
    "        - Column " + Show(Position(col)) + ": '"
  }

  function AfterHeader(col: Entries): string {
    "' " + Arrow + " " + Show(DataType(col)) + " data " + Arrow + " '" + Show(Field(col)) + "' field\n"
  }

  /** Line `n` of the explicit mapping: numbered by list position `n`, never by the stated position. */
  function MappingLine(n: nat, col: Entries): string {
    "               Column " + PyText.NatToString(n) + " " + Arrow + " " + Show(Field(col))
    + " (originally '" + Show(HeaderName(col)) + "')\n"
  }

  /** The example value a column gets in the JSON example, chosen by its `data_type`. */
  function ExampleValue(dataType: Json): string {
    if dataType == JStr("date") then "\"2024-01-01\""
    else if dataType in [JStr("debit"), JStr("credit"), JStr("balance")] then "1000.50"
    else "\"example_value\""
  }

  /** What an example field writes before its value. */
  function ExampleFieldFront(col: Entries): string {
    "      \"" + Show(Field(col)) + "\": "
  }

  function ExampleField(col: Entries): string {
    ExampleFieldFront(col) + ExampleValue(DataType(col))
  }

  /** The example used when the column list is empty. */
  const FallbackExample := "{\n      \"date\": \"2024-01-01\",\n      \"description\": \"example\",\n      \"debit\": 1000.50,\n      \"credit\": null,\n      \"running_balance\": 5000.00\n    }"

  /** The start of `column_mapping_info`, before the per-column lines. */
  function InfoStart(totalColumns: Json): string {
    InfoLead + Show(totalColumns) + "\n"
  }

  const InfoLead := "Based on the first page analysis, " + "the table structure is:\n" + "        - Total columns: "

  predicate AllObjects(items: seq<Json>) {
    forall i :: 0 <= i < |items| ==> items[i].JObj?
  }

  /** The column descriptors `for col_info in column_order` visits, or None where Python raises:
      `column_order` is not iterable (TypeError) or one of its items is not a dict, so that
      `col_info.get` raises AttributeError. */
  function ColumnDescriptors(cs: Entries): (r: Option<seq<Json>>)
    ensures r.Some? <==> IterItems(Get(cs, "column_order", JArr([]))).Some? &&
                         AllObjects(IterItems(Get(cs, "column_order", JArr([]))).value)
    ensures r.Some? ==> r == IterItems(Get(cs, "column_order", JArr([])))
  {
    var items := IterItems(Get(cs, "column_order", JArr([])));
    if items.Some? && AllObjects(items.value) then items else None
  }

  /** The concatenation of `lines`, in order. */
  function Concat(lines: seq<string>): string {
    if |lines| == 0 then "" else Concat(lines[..|lines| - 1]) + lines[|lines| - 1]
  }

  function StructureLines(items: seq<Json>): seq<string>
    requires AllObjects(items)
  {
    if |items| == 0 then [] else StructureLines(items[..|items| - 1]) + [StructureLine(items[|items| - 1].entries)]
  }

  function MappingLines(items: seq<Json>): seq<string>
    requires AllObjects(items)
  {
    if |items| == 0 then [] else MappingLines(items[..|items| - 1]) + [MappingLine(|items|, items[|items| - 1].entries)]
  }

  function ExampleFields(items: seq<Json>): seq<string>
    requires AllObjects(items)
  {
    if |items| == 0 then [] else ExampleFields(items[..|items| - 1]) + [ExampleField(items[|items| - 1].entries)]
  }

  /** `json_example`: one field per column inside braces, or the fixed fallback for no columns. */
  function JsonExample(fields: seq<string>): string {
    if |fields| > 0 then "{\n" + PyText.Join(fields, ",\n") + "\n    }" else FallbackExample
  }

  /** The three pieces `create_next_page_prompt` computes from the column structure. */
  datatype PromptParts = PromptParts(columnMappingInfo: string, explicitMapping: string, jsonExample: string)

  /** What `create_next_page_prompt` computes for a column structure, None where it raises. */
  function PromptPartsOf(cs: Entries): Option<PromptParts> {
    match ColumnDescriptors(cs)
    case None => None
    case Some(items) =>
      Some(PromptParts(
        Concat([InfoStart(Get(cs, "total_columns", IntValue(0)))] + StructureLines(items)),
        Concat(["\n"] + MappingLines(items)),
        JsonExample(ExampleFields(items))))
  }

  /** `Concat` of a list with one more line. */
  lemma ConcatSnoc(lines: seq<string>, x: string)
    ensures Concat(lines + [x]) == Concat(lines) + x
  {
    assert (lines + [x])[..|lines|] == lines;
  }

  /** `create_next_page_prompt`: its three loops over the column descriptors, then `json_example`. */
  method BuildPromptParts(cs: Entries) returns (r: Option<PromptParts>)
    ensures r == PromptPartsOf(cs)
  {
    var columnOrder := Get(cs, "column_order", JArr([]));
    var totalColumns := Get(cs, "total_columns", IntValue(0));
    var iterated := IterItems(columnOrder);
    if iterated.None? {
      return None;
    }
    var items := iterated.value;
    var info := BuildColumnMappingInfo(totalColumns, items);
    if info.None? {
      return None;
    }
    var explicit := BuildExplicitMapping(items);
    var fields := BuildExampleFields(items);
    var example := if |fields| > 0 then "{\n" + PyText.Join(fields, ",\n") + "\n    }" else FallbackExample;
    r := Some(PromptParts(info.value, explicit, example));
  }

  /** The first loop: the structure summary; None when some descriptor is not a dict. */
  method BuildColumnMappingInfo(totalColumns: Json, items: seq<Json>) returns (r: Option<string>)
    ensures r.Some? <==> AllObjects(items)
    ensures r.Some? ==> r.value == Concat([InfoStart(totalColumns)] + StructureLines(items))
  {
    var info := InfoStart(totalColumns);
    ConcatSingle(info);
    var i := 0;
    while i < |items|
      invariant 0 <= i <= |items|
      invariant AllObjects(items[..i])
      invariant info == Concat([InfoStart(totalColumns)] + StructureLines(items[..i]))
    {
      if !items[i].JObj? {
        return None;
      }
      StructureLinesStep(InfoStart(totalColumns), items, i);
      info := info + StructureLine(items[i].entries);
      i := i + 1;
    }
    assert items[..i] == items;
    r := Some(info);
  }

  lemma ConcatSingle(x: string)
    ensures Concat([x]) == x
  {
    assert [x][..0] == [];
  }

  /** One more descriptor adds its structure line at the end. */
  lemma StructureLinesStep(head: string, items: seq<Json>, i: nat)
    requires i < |items| && AllObjects(items[..i]) && items[i].JObj?
    ensures AllObjects(items[..i + 1])
    ensures Concat([head] + StructureLines(items[..i + 1]))
            == Concat([head] + StructureLines(items[..i])) + StructureLine(items[i].entries)
  {
    var prev, x := items[..i], items[i];
    assert items[..i + 1] == prev + [x];
    StructureLinesSnoc(prev, x);
    var lines := [head] + StructureLines(prev);
    assert [head] + (StructureLines(prev) + [StructureLine(x.entries)]) == lines + [StructureLine(x.entries)];
    ConcatSnoc(lines, StructureLine(x.entries));
  }

  lemma StructureLinesSnoc(items: seq<Json>, x: Json)
    requires AllObjects(items) && x.JObj?
    ensures AllObjects(items + [x])
    ensures StructureLines(items + [x]) == StructureLines(items) + [StructureLine(x.entries)]
  {
    assert forall j :: 0 <= j < |items| ==> (items + [x])[j] == items[j];
    assert (items + [x])[..|items|] == items;
  }

  /** The second loop: `for i, col_info in enumerate(column_order, 1)`. */
  method BuildExplicitMapping(items: seq<Json>) returns (explicit: string)
    requires AllObjects(items)
    ensures explicit == Concat(["\n"] + MappingLines(items))
  {
    explicit := "\n";
    ConcatSingle(explicit);
    var i := 0;
    while i < |items|
      invariant 0 <= i <= |items|
      invariant explicit == Concat(["\n"] + MappingLines(items[..i]))
    {
      assert items[..i + 1][..i] == items[..i];
      ghost var lines := ["\n"] + MappingLines(items[..i]);
      assert ["\n"] + MappingLines(items[..i + 1]) == lines + [MappingLine(i + 1, items[i].entries)];
      ConcatSnoc(lines, MappingLine(i + 1, items[i].entries));
      explicit := explicit + MappingLine(i + 1, items[i].entries);
      i := i + 1;
    }
    assert items[..i] == items;
  }

  /** The third loop: `json_example_fields.append(...)` per descriptor. */
  method BuildExampleFields(items: seq<Json>) returns (fields: seq<string>)
    requires AllObjects(items)
    ensures fields == ExampleFields(items)
  {
    fields := [];
    var i := 0;
    while i < |items|
      invariant 0 <= i <= |items|
      invariant fields == ExampleFields(items[..i])
    {
      assert items[..i + 1][..i] == items[..i];
      fields := fields + [ExampleField(items[i].entries)];
      i := i + 1;
    }
    assert items[..i] == items;
  }

  /** Each brace written as two: the escape of `str.format` syntax. */
  function DoubleBraces(s: string): string {
    if |s| == 0 then ""
    else (if s[0] == '{' then "{{" else if s[0] == '}' then "}}" else [s[0]]) + DoubleBraces(s[1..])
  }

  /** `json_example.replace("{", "{{").replace("}", "}}")`. */
  function EscapeBraces(s: string): string {
    PyText.ReplaceAll(PyText.ReplaceAll(s, "{", "{{"), "}", "}}")
  }

  const Intro := "You are a data extraction engine. Analyze the bank statement text from a subsequent page provided below. Extract ONLY the transaction line items visible on this page.\n\n"
  const MappingInstructions := "\n\nCRITICAL INSTRUCTIONS FOR COLUMN MAPPING:\n1. Even if column headers are NOT visible on this page, use the column positions from above.\n2. Map data from each column position to the corresponding standardized field.\n3. If you see a table with data rows, map them in this exact order:"
  const GeneralInstructions := "\n4. Look for the table structure even if headers are missing - the data should follow the same column order as page 1.\n5. IMPORTANT: Use column position (1st, 2nd, 3rd, etc.) not header names for mapping.\n\nGeneral Instructions:\n1. Output a single JSON array [...] of transaction objects, no other text or keys.\n2. Dates must be in YYYY-MM-DD format.\n3. Monetary values must be numbers, remove currency symbols (e.g., \"Rs.1,250.50\" \U{2192} 1250.50).\n4. Use null for missing values.\n5. Do NOT extract numbers from descriptions as debit, credit, or balance.\n6. If the page is blank, return an empty array.\n7. If the page is not a bank statement, return an empty array.\n8. Some transactions can span across multiple rows, so extract all information from the rows.\n9. If debit or credit transactions are present in one column then figure out the transaction type from context.\n10. Only include fields that were identified in the first page structure.\n\nJSON Example (use null for missing values):\n[\n  "
  const ExtractFrom := "\n]\n\nExtract from:\n```markdown\n"
  const Closing := "\n```"

  /** The literal text of `template_str` around its interpolated pieces. */
  datatype FixedText = FixedText(intro: string, mappingInstructions: string, generalInstructions: string,
                                 extractFrom: string, closing: string)

  /** The fixed text of `create_next_page_prompt`. */
  const SourceText := FixedText(Intro, MappingInstructions, GeneralInstructions, ExtractFrom, Closing)

  /** The last part of the template: the `{document_text}` slot the page text goes into. */
  function Tail(t: FixedText): string {
    t.extractFrom + "{document_text}" + t.closing
  }

  /** `template_str` as written: only the JSON example is escaped. */
  function TemplateAsWritten(t: FixedText, p: PromptParts): string {
    t.intro + p.columnMappingInfo
    + (t.mappingInstructions + p.explicitMapping
       + (t.generalInstructions + EscapeBraces(p.jsonExample) + Tail(t)))
  }

  /** `template_str` with every interpolated piece escaped, as the escape of the example intends. */
  function TemplateEscaped(t: FixedText, p: PromptParts): string {
    t.intro + EscapeBraces(p.columnMappingInfo)
    + (t.mappingInstructions + EscapeBraces(p.explicitMapping)
       + (t.generalInstructions + EscapeBraces(p.jsonExample) + Tail(t)))
  }

  predicate BraceFree(s: string) {
    forall i :: 0 <= i < |s| ==> s[i] != '{' && s[i] != '}'
  }

  predicate FixedTextBraceFree(t: FixedText) {
    BraceFree(t.intro) && BraceFree(t.mappingInstructions) && BraceFree(t.generalInstructions)
    && BraceFree(t.extractFrom) && BraceFree(t.closing)
  }

  function Prepend(p: string, r: Option<string>): Option<string> {
    if r.Some? then Some(p + r.value) else None
  }

  /** LangChain's f-string formatting (Python's `str.format` rules) of a template whose only input
      is `document_text`: `{{` and `}}` give single braces, `{document_text}` gives the page text, and
      any other field, a lone `}` or an unclosed `{` raises (KeyError or ValueError), modelled as None. */
  function FormatTemplate(t: string, doc: string): Option<string>
    decreases |t|
  {
    if |t| == 0 then Some("")
    else if t[0] == '{' then
      if |t| >= 2 && t[1] == '{' then Prepend("{", FormatTemplate(t[2..], doc))
      else
        var close := PyText.Find(t[1..], '}');
        if close == -1 || t[1..close + 1] != "document_text" then None
        else Prepend(doc, FormatTemplate(t[close + 2..], doc))
    else if t[0] == '}' then
      if |t| >= 2 && t[1] == '}' then Prepend("}", FormatTemplate(t[2..], doc)) else None
    else Prepend([t[0]], FormatTemplate(t[1..], doc))
  }

  lemma InfoLeadBraceFree()
    ensures BraceFree(InfoLead)
  {
    var a, b, c := "Based on the first page analysis, ", "the table structure is:\n", "        - Total columns: ";
    assert BraceFree(a);
    assert BraceFree(b);
    assert BraceFree(c);
    BraceFreeAppend(a, b);
    BraceFreeAppend(a + b, c);
  }

  lemma {:induction false} BraceFreeAppend(a: string, b: string)
    requires BraceFree(a) && BraceFree(b)
    ensures BraceFree(a + b)
  {
    assert forall i :: |a| <= i < |a + b| ==> (a + b)[i] == b[i - |a|];
  }

  lemma {:induction false} DoubleBracesOfBraceFree(s: string)
    requires BraceFree(s)
    ensures DoubleBraces(s) == s
    decreases |s|
  {
    if |s| > 0 {
      assert forall i :: 0 <= i < |s| - 1 ==> s[1..][i] == s[i + 1];
      DoubleBracesOfBraceFree(s[1..]);
    }
  }

  /** How closing braces are doubled in what the first `replace` made of one character. */
  lemma CloseBracesOfHead(c: char)
    ensures PyText.ReplaceChar("{{", '}', "}}") == "{{"
    ensures PyText.ReplaceChar([c], '}', "}}") == if c == '}' then "}}" else [c]
  {
    assert "{{"[1..] == "{";
    assert "{"[1..] == "";
    assert [c][1..] == "";
  }

  lemma {:induction false} DoubleBracesByReplaceChar(s: string)
    ensures PyText.ReplaceChar(PyText.ReplaceChar(s, '{', "{{"), '}', "}}") == DoubleBraces(s)
    decreases |s|
  {
    if |s| > 0 {
      var h := if s[0] == '{' then "{{" else [s[0]];
      var inner := PyText.ReplaceChar(s[1..], '{', "{{");
      assert PyText.ReplaceChar(s, '{', "{{") == h + inner;
      PyText.ReplaceCharAppend(h, inner, '}', "}}");
      CloseBracesOfHead(s[0]);
      DoubleBracesByReplaceChar(s[1..]);
      assert PyText.ReplaceChar(h, '}', "}}") + DoubleBraces(s[1..]) == DoubleBraces(s);
    }
  }

  /** The two `replace` calls escape exactly as `DoubleBraces` does. */
  lemma EscapeBracesDoublesBraces(s: string)
    ensures EscapeBraces(s) == DoubleBraces(s)
  {
    PyText.ReplaceAllOneChar(s, '{', "{{");
    PyText.ReplaceAllOneChar(PyText.ReplaceChar(s, '{', "{{"), '}', "}}");
    DoubleBracesByReplaceChar(s);
  }

  lemma PrependAppend(a: string, b: string, r: Option<string>)
    ensures Prepend(a, Prepend(b, r)) == Prepend(a + b, r)
  {
    if r.Some? {
      assert a + (b + r.value) == (a + b) + r.value;
    }
  }

  /** Formatting undoes the escape: doubled text comes back as it was, and the rest is formatted on. */
  lemma {:induction false} FormatDoubled(s: string, rest: string, doc: string)
    ensures FormatTemplate(DoubleBraces(s) + rest, doc) == Prepend(s, FormatTemplate(rest, doc))
    decreases |s|
  {
    var t := DoubleBraces(s) + rest;
    var f := FormatTemplate(rest, doc);
    if |s| == 0 {
      assert t == rest;
      if f.Some? {
        assert s + f.value == f.value;
      }
    } else {
      var u := DoubleBraces(s[1..]) + rest;
      FormatDoubled(s[1..], rest, doc);
      var h := if s[0] == '{' then "{{" else if s[0] == '}' then "}}" else [s[0]];
      assert DoubleBraces(s) == h + DoubleBraces(s[1..]);
      assert t == h + u;
      if s[0] == '{' || s[0] == '}' {
        FormatDoubledBrace(s[0], u, doc);
      } else {
        FormatPlainChar(s[0], u, doc);
      }
      PrependAppend([s[0]], s[1..], f);
      assert [s[0]] + s[1..] == s;
    }
  }

  /** `{{` gives `{` and `}}` gives `}`. */
  lemma FormatDoubledBrace(c: char, u: string, doc: string)
    requires c == '{' || c == '}'
    ensures FormatTemplate([c, c] + u, doc) == Prepend([c], FormatTemplate(u, doc))
  {
    assert ([c, c] + u)[2..] == u;
  }

  /** A character other than a brace is copied. */
  lemma FormatPlainChar(c: char, u: string, doc: string)
    requires c != '{' && c != '}'
    ensures FormatTemplate([c] + u, doc) == Prepend([c], FormatTemplate(u, doc))
  {
    assert ([c] + u)[1..] == u;
  }

  /** Text without braces passes through formatting unchanged. */
  lemma FormatBraceFree(s: string, rest: string, doc: string)
    requires BraceFree(s)
    ensures FormatTemplate(s + rest, doc) == Prepend(s, FormatTemplate(rest, doc))
  {
    DoubleBracesOfBraceFree(s);
    FormatDoubled(s, rest, doc);
  }

  /** The `{document_text}` field is replaced by the page text. */
  lemma FormatDocumentText(rest: string, doc: string)
    ensures FormatTemplate("{document_text}" + rest, doc) == Prepend(doc, FormatTemplate(rest, doc))
  {
    var t := "{document_text}" + rest;
    assert t[1..][..13] == "document_text";
    PyText.FindFirst(t[1..], '}', 13);
    assert t[15..] == rest;
  }

  /** A field other than `document_text` makes formatting raise. The name carries no format spec,
      conversion, attribute or index, so that Python too reads it as a bare name it lacks. */
  lemma FormatRejectsOtherField(a: string, name: string, rest: string, doc: string)
    requires BraceFree(a) && BraceFree(name) && |name| > 0 && name != "document_text"
    requires ':' !in name && '!' !in name && '.' !in name && '[' !in name
    ensures FormatTemplate(a + ("{" + name + "}") + rest, doc) == None
  {
    var t := "{" + name + "}" + rest;
    assert a + ("{" + name + "}") + rest == a + t;
    FormatBraceFree(a, t, doc);
    assert t[1..][..|name|] == name;
    assert t[1..][|name|] == '}';
    PyText.FindFirst(t[1..], '}', |name|);
    assert t[1..|name| + 1] == name;
  }

  lemma FormatTail(t: FixedText, doc: string)
    requires BraceFree(t.extractFrom) && BraceFree(t.closing)
    ensures FormatTemplate(Tail(t), doc) == Some(t.extractFrom + doc + t.closing)
  {
    assert Tail(t) == t.extractFrom + ("{document_text}" + t.closing);
    FormatBraceFree(t.closing, "", doc);
    assert t.closing + "" == t.closing;
    assert FormatTemplate(t.closing, doc) == Some(t.closing);
    FormatDocumentText(t.closing, doc);
    assert FormatTemplate("{document_text}" + t.closing, doc) == Some(doc + t.closing);
    FormatBraceFree(t.extractFrom, "{document_text}" + t.closing, doc);
    assert t.extractFrom + (doc + t.closing) == t.extractFrom + doc + t.closing;
  }

  /** Fixed text, then an escaped piece: both come back verbatim ahead of the rest. */
  lemma FormatSegment(fixed: string, piece: string, rest: string, doc: string)
    requires BraceFree(fixed)
    ensures FormatTemplate(fixed + EscapeBraces(piece) + rest, doc)
            == Prepend(fixed + piece, FormatTemplate(rest, doc))
  {
    EscapeBracesDoublesBraces(piece);
    assert fixed + DoubleBraces(piece) + rest == fixed + (DoubleBraces(piece) + rest);
    FormatBraceFree(fixed, DoubleBraces(piece) + rest, doc);
    FormatDoubled(piece, rest, doc);
    PrependAppend(fixed, piece, FormatTemplate(rest, doc));
  }

  /** With every piece escaped, formatting always succeeds and gives the pieces back verbatim with
      the page text in its slot. */
  lemma FormatEscapedTemplate(t: FixedText, p: PromptParts, doc: string)
    requires FixedTextBraceFree(t)
    ensures FormatTemplate(TemplateEscaped(t, p), doc)
            == Some(t.intro + p.columnMappingInfo
                    + (t.mappingInstructions + p.explicitMapping
                       + (t.generalInstructions + p.jsonExample + (t.extractFrom + doc + t.closing))))
  {
    FormatTail(t, doc);
    FormatSegment(t.generalInstructions, p.jsonExample, Tail(t), doc);
    FormatSegment(t.mappingInstructions, p.explicitMapping,
                  t.generalInstructions + EscapeBraces(p.jsonExample) + Tail(t), doc);
    FormatSegment(t.intro, p.columnMappingInfo,
                  t.mappingInstructions + EscapeBraces(p.explicitMapping)
                  + (t.generalInstructions + EscapeBraces(p.jsonExample) + Tail(t)), doc);
  }

  /** When the structure summary and the mapping hold no braces, the template as written formats
      exactly like the escaped one. */
  lemma AsWrittenAgreesWhenBraceFree(t: FixedText, p: PromptParts)
    requires BraceFree(p.columnMappingInfo) && BraceFree(p.explicitMapping)
    ensures TemplateAsWritten(t, p) == TemplateEscaped(t, p)
  {
    EscapeBracesDoublesBraces(p.columnMappingInfo);
    EscapeBracesDoublesBraces(p.explicitMapping);
    DoubleBracesOfBraceFree(p.columnMappingInfo);
    DoubleBracesOfBraceFree(p.explicitMapping);
  }

  /** A column structure whose only descriptor has the header `{Rs}`, as when a statement prints
      its currency in braces. */
  const BracedHeaderColumn: Entries := [("position", IntValue(1)), ("header_name", JStr("{Rs}"))]
  const BracedHeaderStructure: Entries := [("column_order", JArr([JObj(BracedHeaderColumn)]))]

  lemma InfoStartBraceFree(totalColumns: Json)
    requires BraceFree(Show(totalColumns))
    ensures BraceFree(InfoStart(totalColumns))
  {
    InfoLeadBraceFree();
    assert BraceFree("\n");
    BraceFreeAppend(InfoLead, Show(totalColumns));
    BraceFreeAppend(InfoLead + Show(totalColumns), "\n");
  }

  lemma RegroupAroundField(i: string, s: string, pre: string, f: string, post: string, r: string)
    ensures i + (s + (pre + f + post)) + r == (i + s + pre) + f + (post + r)
  {
  }

  lemma AsWrittenAroundHeader(t: FixedText, p: PromptParts, s: string, col: Entries)
    requires p.columnMappingInfo == s + StructureLine(col)
    ensures TemplateAsWritten(t, p)
            == (t.intro + s + ColumnLead(col)) + Show(HeaderName(col))
               + (AfterHeader(col) + (t.mappingInstructions + p.explicitMapping
                  + (t.generalInstructions + EscapeBraces(p.jsonExample) + Tail(t))))
  {
    RegroupAroundField(t.intro, s, ColumnLead(col), Show(HeaderName(col)), AfterHeader(col),
                       t.mappingInstructions + p.explicitMapping
                       + (t.generalInstructions + EscapeBraces(p.jsonExample) + Tail(t)));
  }

  /** A header of the form `{name}` in the structure summary is read by formatting as a field of
      the template, and any field other than `document_text` raises. */
  lemma AsWrittenRejectsBracedHeader(t: FixedText, p: PromptParts, s: string, col: Entries, name: string, doc: string)
    requires p.columnMappingInfo == s + StructureLine(col)
    requires BraceFree(t.intro + s + ColumnLead(col))
    requires Show(HeaderName(col)) == "{" + name + "}"
    requires BraceFree(name) && |name| > 0 && name != "document_text"
    requires ':' !in name && '!' !in name && '.' !in name && '[' !in name
    ensures FormatTemplate(TemplateAsWritten(t, p), doc) == None
  {
    AsWrittenAroundHeader(t, p, s, col);
    FormatRejectsOtherField(t.intro + s + ColumnLead(col), name,
                            AfterHeader(col) + (t.mappingInstructions + p.explicitMapping
                            + (t.generalInstructions + EscapeBraces(p.jsonExample) + Tail(t))), doc);
  }

  lemma ColumnLeadBraceFree(col: Entries)
    requires BraceFree(Show(Position(col)))
    ensures BraceFree(ColumnLead(col))
  {
    assert BraceFree("        - Column ");
    assert BraceFree(": '");
    BraceFreeAppend("        - Column ", Show(Position(col)));
    BraceFreeAppend("        - Column " + Show(Position(col)), ": '");
  }

  /** The summary of a structure with a single column descriptor. */
  lemma SingleColumnInfo(cs: Entries, col: Entries)
    requires ColumnDescriptors(cs) == Some([JObj(col)])
    ensures PromptPartsOf(cs).Some?
    ensures PromptPartsOf(cs).value.columnMappingInfo
            == InfoStart(Get(cs, "total_columns", IntValue(0))) + StructureLine(col)
  {
    var items := [JObj(col)];
    var head := InfoStart(Get(cs, "total_columns", IntValue(0)));
    assert items[..0] == [];
    assert StructureLines(items) == [StructureLine(col)];
    ConcatSingle(head);
    ConcatSnoc([head], StructureLine(col));
    assert [head] + StructureLines(items) == [head] + [StructureLine(col)];
  }

  /** The escape of the example alone is not enough: a column whose header is `{name}` makes the
      template as written raise on formatting, so that the page is skipped, while the escaped
      template formats whatever the parts (`FormatEscapedTemplate`). */
  lemma BracedHeaderBreaksAsWritten(t: FixedText, cs: Entries, col: Entries, name: string, doc: string)
    requires FixedTextBraceFree(t)
    requires ColumnDescriptors(cs) == Some([JObj(col)])
    requires BraceFree(Show(Get(cs, "total_columns", IntValue(0)))) && BraceFree(Show(Position(col)))
    requires HeaderName(col) == JStr("{" + name + "}")
    requires BraceFree(name) && |name| > 0 && name != "document_text"
    requires ':' !in name && '!' !in name && '.' !in name && '[' !in name
    ensures PromptPartsOf(cs).Some?
    ensures FormatTemplate(TemplateAsWritten(t, PromptPartsOf(cs).value), doc) == None
  {
    var s := InfoStart(Get(cs, "total_columns", IntValue(0)));
    SingleColumnInfo(cs, col);
    InfoStartBraceFree(Get(cs, "total_columns", IntValue(0)));
    ColumnLeadBraceFree(col);
    BraceFreeAppend(t.intro, s);
    BraceFreeAppend(t.intro + s, ColumnLead(col));
    AsWrittenRejectsBracedHeader(t, PromptPartsOf(cs).value, s, col, name, doc);
  }

  /** A structure whose column is headed `{Rs}` meets the conditions above. */
  lemma BracedHeaderExample()
    ensures ColumnDescriptors(BracedHeaderStructure) == Some([JObj(BracedHeaderColumn)])
    ensures BraceFree(Show(Get(BracedHeaderStructure, "total_columns", IntValue(0))))
    ensures BraceFree(Show(Position(BracedHeaderColumn)))
    ensures HeaderName(BracedHeaderColumn) == JStr("{" + "Rs" + "}")
    ensures BraceFree("Rs") && "Rs" != "document_text"
    ensures ':' !in "Rs" && '!' !in "Rs" && '.' !in "Rs" && '[' !in "Rs"
  {
    assert Get(BracedHeaderStructure, "column_order", JArr([])) == JArr([JObj(BracedHeaderColumn)]);
    assert Show(IntValue(0)) == "0";
    assert Show(IntValue(1)) == "1";
    assert "{Rs}" == "{" + "Rs" + "}";
    RsIsOtherField();
  }

  lemma RsIsOtherField()
    ensures BraceFree("Rs") && "Rs" != "document_text"
    ensures ':' !in "Rs" && '!' !in "Rs" && '.' !in "Rs" && '[' !in "Rs"
  {
    assert "Rs" == ['R', 's'];
  }

  /** The explicit mapping numbers the columns by their place in `column_order`: line `k` describes
      descriptor `k` and is numbered `k + 1`, one line per descriptor. */
  lemma {:induction false} MappingLinesNumberByPlace(items: seq<Json>, k: nat)
    requires AllObjects(items) && k < |items|
    ensures |MappingLines(items)| == |items|
    ensures MappingLines(items)[k] == MappingLine(k + 1, items[k].entries)
    decreases |items|
  {
    var init, last := items[..|items| - 1], items[|items| - 1].entries;
    MappingLinesSnoc(items);
    var lines := MappingLines(init);
    if k < |items| - 1 {
      MappingLinesNumberByPlace(init, k);
      assert (lines + [MappingLine(|items|, last)])[k] == lines[k];
      assert init[k] == items[k];
    } else {
      MappingLinesLength(init);
      assert (lines + [MappingLine(|items|, last)])[k] == MappingLine(|items|, last);
    }
  }

  lemma MappingLinesSnoc(items: seq<Json>)
    requires AllObjects(items) && |items| > 0
    ensures AllObjects(items[..|items| - 1])
    ensures MappingLines(items) ==
            MappingLines(items[..|items| - 1]) + [MappingLine(|items|, items[|items| - 1].entries)]
  {
    var init := items[..|items| - 1];
    assert forall j :: 0 <= j < |init| ==> init[j] == items[j];
  }

  /** The position a descriptor states does not enter its mapping line: the explicit mapping is the
      same whatever `position` says. */
  lemma MappingLineIgnoresStatedPosition(n: nat, col: Entries, v: Json)
    ensures MappingLine(n, Put(col, "position", v)) == MappingLine(n, col)
  {
    PutKeepsOthers(col, "position", v, "standardized_field");
    PutKeepsOthers(col, "position", v, "header_name");
  }

  /** The structure summary, by contrast, shows the stated position. */
  lemma StructureLineShowsStatedPosition(col: Entries, v: Json)
    ensures StructureLine(Put(col, "position", v))
            == ColumnLead(Put(col, "position", v)) + Show(HeaderName(col)) + AfterHeader(col)
    ensures ColumnLead(Put(col, "position", v)) == "        - Column " + Show(v) + ": '"
  {
    PutThenLookup(col, "position", v);
    PutKeepsOthers(col, "position", v, "header_name");
    PutKeepsOthers(col, "position", v, "data_type");
    PutKeepsOthers(col, "position", v, "standardized_field");
  }

  /** The fixed fallback is used exactly when there are no descriptors: an example built from
      descriptors ends in `"2024-01-01"`, `1000.50` or `"example_value"`, never in the fallback's
      `5000.00`. */
  lemma ExampleFallbackOnlyWhenEmpty(items: seq<Json>)
    requires AllObjects(items)
    ensures JsonExample(ExampleFields(items)) == FallbackExample <==> |items| == 0
  {
    if |items| > 0 {
      var fields := ExampleFields(items);
      ExampleFieldsInOrder(items, |items| - 1);
      var col := items[|items| - 1].entries;
      ExampleEndsWith(fields, col);
      NotFallbackTail("{\n" + PyText.JoinFront(fields, ",\n") + ExampleFieldFront(col), DataType(col));
    }
  }

  /** A non-empty example ends with its last field's value and the closing brace. */
  lemma ExampleEndsWith(fields: seq<string>, col: Entries)
    requires |fields| > 0 && fields[|fields| - 1] == ExampleField(col)
    ensures JsonExample(fields) ==
            ("{\n" + PyText.JoinFront(fields, ",\n") + ExampleFieldFront(col)) + (ExampleValue(DataType(col)) + "\n    }")
  {
    PyText.JoinEndsWithLast(fields, ",\n");
    Collections.Regroup("{\n", PyText.JoinFront(fields, ",\n"), ExampleFieldFront(col), ExampleValue(DataType(col)), "\n    }");
  }

  /** No text ending in an example value and the closing brace is the fallback. */
  lemma NotFallbackTail(w: string, dataType: Json)
    ensures w + (ExampleValue(dataType) + "\n    }") != FallbackExample
  {
    var t, f := ExampleValue(dataType) + "\n    }", FallbackExample;
    assert f[|f| - 8] == '0' && f[|f| - 7] == '0';
    Collections.LastCharsOfAppend(w, t, 8);
    Collections.LastCharsOfAppend(w, t, 7);
    assert (t[|t| - 8], t[|t| - 7]) != ('0', '0');
  }

  /** The JSON example has one field per descriptor, in order. */
  lemma {:induction false} ExampleFieldsInOrder(items: seq<Json>, k: nat)
    requires AllObjects(items) && k < |items|
    ensures |ExampleFields(items)| == |items|
    ensures ExampleFields(items)[k] == ExampleField(items[k].entries)
    decreases |items|
  {
    var init := items[..|items| - 1];
    AllObjectsInit(items);
    var front, last := ExampleFields(init), [ExampleField(items[|items| - 1].entries)];
    assert ExampleFields(items) == front + last;
    if k < |items| - 1 {
      ExampleFieldsInOrder(init, k);
      Collections.IndexOfAppend(front, last, k);
      assert init[k] == items[k];
    } else {
      ExampleFieldsLength(init);
      Collections.IndexOfAppend(front, last, k);
    }
  }

  lemma AllObjectsInit(items: seq<Json>)
    requires AllObjects(items) && |items| > 0
    ensures AllObjects(items[..|items| - 1])
  {
    var init := items[..|items| - 1];
    forall j | 0 <= j < |init| ensures init[j].JObj? { assert init[j] == items[j]; }
  }

  lemma {:induction false} MappingLinesLength(items: seq<Json>)
    requires AllObjects(items)
    ensures |MappingLines(items)| == |items|
    decreases |items|
  {
    if |items| > 0 {
      var init := items[..|items| - 1];
      AllObjectsInit(items);
      MappingLinesLength(init);
    }
  }

  lemma {:induction false} ExampleFieldsLength(items: seq<Json>)
    requires AllObjects(items)
    ensures |ExampleFields(items)| == |items|
    decreases |items|
  {
    if |items| > 0 {
      var init := items[..|items| - 1];
      AllObjectsInit(items);
      ExampleFieldsLength(init);
    }
  }
}
