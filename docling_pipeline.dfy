/** The page loop of the Docling pipeline (final.py): page 1 yields the transactions and the column
    structure, every later page is extracted with the prompt built from that structure. The layout
    model (Docling) and the language model are parameters: a page is the Markdown Docling gave for
    it, if any, and `extract` is the language model behind its JSON output parser. */
module DoclingPipeline {
  import opened Wrappers
  import opened JsonValue
  import PyText
  import Collections
  import opened NextPagePrompt

  /** What the chain is asked: the first-page prompt filled with the page's Markdown, or a prompt
      built from the column structure and already formatted. */
  datatype Instructions = FirstPageInstructions(markdown: string) | NextPageInstructions(prompt: string)

  /** The language model behind the JSON output parser, by page number: None where the chain raises
      (no answer, an answer that is not JSON). */
  type Extractor = (nat, Instructions) -> Option<Json>

  /** The two variables the loop carries: `all_transactions` and `column_structure`. */
  datatype Progress = Progress(transactions: seq<Json>, columnStructure: Json)

  /** Before the loop: no transactions, `column_structure = None`. */
  const Start := Progress([], JNull)

  /** Docling gave the page a document whose text is not blank. */
  predicate HasContent(page: Option<string>) {
    page.Some? && PyText.Strip(page.value) != []
  }

  /** Later pages can be extracted: the structure is a dict with a truthy `column_order`. */
  predicate StructureUsable(cs: Json) {
    cs.JObj? && Truthy(Get(cs.entries, "column_order", JNull))
  }

  /** The column-mapping log of page 1 runs without raising: it calls `.get` on a truthy structure
      and then reads every descriptor of a truthy `column_order` with `.get`. */
  predicate ColumnLogRuns(cs: Json) {
    !Truthy(cs)
    || (cs.JObj? && (!Truthy(Get(cs.entries, "column_order", JNull)) || ColumnDescriptors(cs.entries).Some?))
  }

  /** Page 1: the answer must be a dict with a `transactions` key; its `column_structure` is kept
      even when the log or the extension then raises. */
  function FirstPageStep(s: Progress, markdown: string, extract: Extractor): Progress {
    match extract(1, FirstPageInstructions(markdown))
    case None => s
    case Some(result) =>
      if !result.JObj? || "transactions" !in Keys(result.entries) then s
      else
        var cs := Get(result.entries, "column_structure", JObj([]));
        var t := Get(result.entries, "transactions", JArr([]));
        if !ColumnLogRuns(cs) || !Truthy(t) || IterItems(t).None? then s.(columnStructure := cs)
        else Progress(s.transactions + IterItems(t).value, cs)
  }

  /** How a later page's prompt is made from the column structure and the page's Markdown, None
      where making it raises. */
  type Prompter = (Entries, string) -> Option<string>

  /** The prompt for a later page: the escaped template with fixed text `text` (the source's is
      `SourceText`), formatted with the page's Markdown; None where building or formatting raises. */
  function NextPrompt(text: FixedText, cs: Entries, markdown: string): Option<string> {
    match PromptPartsOf(cs)
    case None => None
    case Some(parts) => FormatTemplate(TemplateEscaped(text, parts), markdown)
  }

  function PrompterOf(text: FixedText): Prompter {
    (cs, markdown) => NextPrompt(text, cs, markdown)
  }

  /** A later page: only a list answer is kept, and only when it is not empty. */
  function NextPageStep(prompter: Prompter, s: Progress, pageNum: nat, markdown: string, extract: Extractor): Progress {
    if !StructureUsable(s.columnStructure) then s
    else
      match prompter(s.columnStructure.entries, markdown)
      case None => s
      case Some(prompt) =>
        match extract(pageNum, NextPageInstructions(prompt))
        case None => s
        case Some(result) =>
          if result.JArr? && Truthy(result) then s.(transactions := s.transactions + result.items) else s
  }

  /** One turn of the loop, for the page numbered `pageNum` (counted from 1). */
  function PageStep(prompter: Prompter, s: Progress, pageNum: nat, page: Option<string>, extract: Extractor): Progress {
    if !HasContent(page) then s
    else if pageNum == 1 then FirstPageStep(s, page.value, extract)
    else NextPageStep(prompter, s, pageNum, page.value, extract)
  }

  /** The state after the loop has visited `pages`, in order. */
  function Pages(prompter: Prompter, pages: seq<Option<string>>, extract: Extractor): Progress
    decreases |pages|
  {
    if |pages| == 0 then Start
    else PageStep(prompter, Pages(prompter, pages[..|pages| - 1], extract), |pages|, pages[|pages| - 1], extract)
  }

  /** Page 1 (step 3b, first branch); each early return is a `continue` of the loop. */
  method FirstPage(s: Progress, markdown: string, extract: Extractor) returns (r: Progress)
    ensures r == FirstPageStep(s, markdown, extract)
  {
    r := s;
    var result := extract(1, FirstPageInstructions(markdown));
    if result.None? || !result.value.JObj? || "transactions" !in Keys(result.value.entries) {
      return;
    }
    r := r.(columnStructure := Get(result.value.entries, "column_structure", JObj([])));
    if !ColumnLogRuns(r.columnStructure) {
      return;
    }
    var t := Get(result.value.entries, "transactions", JArr([]));
    if Truthy(t) {
      var items := IterItems(t);
      if items.None? {
        return;
      }
      r := r.(transactions := r.transactions + items.value);
    }
  }

  /** A later page (step 3b, second branch). */
  method NextPage(text: FixedText, s: Progress, pageNum: nat, markdown: string, extract: Extractor)
    returns (r: Progress)
    ensures r == NextPageStep(PrompterOf(text), s, pageNum, markdown, extract)
  {
    r := s;
    if !StructureUsable(s.columnStructure) {
      return;
    }
    var parts := BuildPromptParts(s.columnStructure.entries);
    if parts.None? {
      return;
    }
    var prompt := FormatTemplate(TemplateEscaped(text, parts.value), markdown);
    if prompt.None? {
      return;
    }
    var result := extract(pageNum, NextPageInstructions(prompt.value));
    if result.None? || !result.value.JArr? {
      return;
    }
    if Truthy(result.value) {
      r := r.(transactions := r.transactions + result.value.items);
    }
  }

  /** The loop over the page files, page `i + 1` being `pages[i]`. */
  method ProcessPages(text: FixedText, pages: seq<Option<string>>, extract: Extractor)
    returns (transactions: seq<Json>, columnStructure: Json)
    ensures Progress(transactions, columnStructure) == Pages(PrompterOf(text), pages, extract)
  {
    var s := Start;
    var i := 0;
    while i < |pages|
      invariant 0 <= i <= |pages|
      invariant s == Pages(PrompterOf(text), pages[..i], extract)
    {
      var pageNum := i + 1;
      var page := pages[i];
      assert pages[..i + 1][..i] == pages[..i];
      i := i + 1;
      if page.None? || PyText.Strip(page.value) == [] {
        continue;
      }
      if pageNum == 1 {
        s := FirstPage(s, page.value, extract);
      } else {
        s := NextPage(text, s, pageNum, page.value, extract);
      }
    }
    assert pages[..i] == pages;
    transactions, columnStructure := s.transactions, s.columnStructure;
  }

  lemma FirstPageExtends(s: Progress, markdown: string, extract: Extractor) returns (added: seq<Json>)
    ensures FirstPageStep(s, markdown, extract).transactions == s.transactions + added
    ensures forall t :: t in added ==> AnsweredTo(t, 1, FirstPageInstructions(markdown), extract)
  {
    added := [];
    assert s.transactions + [] == s.transactions;
    var ins := FirstPageInstructions(markdown);
    var answer := extract(1, ins);
    if answer.Some? && answer.value.JObj? && FirstPageStep(s, markdown, extract).transactions != s.transactions {
      added := Yield(answer.value);
    }
  }

  lemma NextPageExtends(prompter: Prompter, s: Progress, pageNum: nat, markdown: string, extract: Extractor)
    returns (added: seq<Json>)
    ensures NextPageStep(prompter, s, pageNum, markdown, extract).transactions == s.transactions + added
    ensures forall t :: t in added ==> NextAnswered(t, prompter, s, pageNum, markdown, extract)
  {
    added := [];
    assert s.transactions + [] == s.transactions;
    if StructureUsable(s.columnStructure) {
      var prompt := prompter(s.columnStructure.entries, markdown);
      if prompt.Some? {
        var ins := NextPageInstructions(prompt.value);
        var answer := extract(pageNum, ins);
        if answer.Some? && answer.value.JArr? && Truthy(answer.value) {
          added := Yield(answer.value);
        }
      }
    }
  }

  /** A page never removes or changes the transactions collected before it: it appends items of
      the language model's answer for it, or nothing. */
  lemma PageStepExtends(prompter: Prompter, s: Progress, pageNum: nat, page: Option<string>, extract: Extractor)
    returns (added: seq<Json>)
    ensures PageStep(prompter, s, pageNum, page, extract).transactions == s.transactions + added
    ensures forall t :: t in added ==> StepAnswered(t, prompter, s, pageNum, page, extract)
  {
    if !HasContent(page) {
      added := [];
      assert s.transactions + [] == s.transactions;
    } else if pageNum == 1 {
      added := FirstPageExtends(s, page.value, extract);
    } else {
      added := NextPageExtends(prompter, s, pageNum, page.value, extract);
    }
  }

  /** `all_transactions` only grows: what the first `k` pages yielded begins what all pages yield. */
  lemma {:induction false} TransactionsOnlyGrow(prompter: Prompter, pages: seq<Option<string>>, extract: Extractor, k: nat)
    requires k <= |pages|
    ensures |Pages(prompter, pages[..k], extract).transactions| <= |Pages(prompter, pages, extract).transactions|
    ensures Pages(prompter, pages, extract).transactions[..|Pages(prompter, pages[..k], extract).transactions|]
            == Pages(prompter, pages[..k], extract).transactions
    decreases |pages|
  {
    if k == |pages| {
      assert pages[..k] == pages;
    } else {
      var init := pages[..|pages| - 1];
      assert init[..k] == pages[..k];
      TransactionsOnlyGrow(prompter, init, extract, k);
      var added := PageStepExtends(prompter, Pages(prompter, init, extract), |pages|, pages[|pages| - 1], extract);
    }
  }

  /** Only page 1 sets the column structure. */
  lemma {:induction false} StructureFromFirstPage(prompter: Prompter, pages: seq<Option<string>>, extract: Extractor)
    requires |pages| >= 1
    ensures Pages(prompter, pages, extract).columnStructure == Pages(prompter, pages[..1], extract).columnStructure
    decreases |pages|
  {
    if |pages| > 1 {
      var init := pages[..|pages| - 1];
      assert init[..1] == pages[..1];
      StructureFromFirstPage(prompter, init, extract);
    } else {
      assert pages[..1] == pages;
    }
  }

  /** Without a usable column structure from page 1 every later page is skipped: the result is what
      page 1 alone gave. */
  lemma {:induction false} NoStructureNoLaterPages(prompter: Prompter, pages: seq<Option<string>>, extract: Extractor)
    requires |pages| >= 1
    requires !StructureUsable(Pages(prompter, pages[..1], extract).columnStructure)
    ensures Pages(prompter, pages, extract) == Pages(prompter, pages[..1], extract)
    decreases |pages|
  {
    if |pages| > 1 {
      var init := pages[..|pages| - 1];
      assert init[..1] == pages[..1];
      NoStructureNoLaterPages(prompter, init, extract);
    } else {
      assert pages[..1] == pages;
    }
  }

  /** Page 1's answer is accepted only when it is a dict with a `transactions` key; only then is the
      column structure set (to `{}` when the answer has none), and its transactions are appended
      when the column log runs and they are a non-empty iterable. */
  lemma FirstPageAccepts(s: Progress, markdown: string, extract: Extractor)
    ensures var answer := extract(1, FirstPageInstructions(markdown));
      if answer.None? || !answer.value.JObj? || "transactions" !in Keys(answer.value.entries) then
        FirstPageStep(s, markdown, extract) == s
      else
        var cs := Get(answer.value.entries, "column_structure", JObj([]));
        var t := Get(answer.value.entries, "transactions", JArr([]));
        FirstPageStep(s, markdown, extract).columnStructure == cs
        && FirstPageStep(s, markdown, extract).transactions
           == s.transactions + if ColumnLogRuns(cs) && Truthy(t) then IterItems(t).GetOr([]) else []
  {
    assert s.transactions + [] == s.transactions;
  }

  /** When page 1 has no content or its answer is not a dict with `transactions`, nothing at all is
      collected from any page and the column structure stays `None`. */
  lemma MalformedFirstPageCollectsNothing(prompter: Prompter, pages: seq<Option<string>>, extract: Extractor)
    requires |pages| >= 1
    requires var answer := extract(1, FirstPageInstructions(pages[0].GetOr([])));
      !HasContent(pages[0]) || answer.None? || !answer.value.JObj? || "transactions" !in Keys(answer.value.entries)
    ensures Pages(prompter, pages, extract) == Start
  {
    assert pages[..1][..0] == [];
    assert Pages(prompter, pages[..1], extract) == PageStep(prompter, Start, 1, pages[0], extract);
    NoStructureNoLaterPages(prompter, pages, extract);
  }

  /** With the fixed text free of braces, the prompt of a later page is always built and formatted:
      the column summary, the mapping and the example, verbatim between the fixed text, with the
      page's Markdown in the document slot. */
  lemma NextPromptAssembled(text: FixedText, cs: Entries, markdown: string)
    requires FixedTextBraceFree(text) && PromptPartsOf(cs).Some?
    ensures NextPrompt(text, cs, markdown) == Some(AssembledPrompt(text, PromptPartsOf(cs).value, markdown))
  {
    FormatEscapedTemplate(text, PromptPartsOf(cs).value, markdown);
  }

  /** The prompt a later page is sent, in reading order. */
  function AssembledPrompt(text: FixedText, p: PromptParts, markdown: string): string {
    text.intro + p.columnMappingInfo
    + (text.mappingInstructions + p.explicitMapping
       + (text.generalInstructions + p.jsonExample + (text.extractFrom + markdown + text.closing)))
  }

  /** The items a page's answer contributes: a list's items, or the iterated `transactions` of a dict. */
  function Yield(answer: Json): seq<Json> {
    if answer.JArr? then answer.items
    else if answer.JObj? then IterItems(Get(answer.entries, "transactions", JArr([]))).GetOr([])
    else []
  }

  /** A later page whose prompt is made adds exactly the items of a list answer to that prompt, and
      nothing for any other answer. */
  lemma NextPageAddsItsAnswer(prompter: Prompter, s: Progress, pageNum: nat, markdown: string, extract: Extractor, prompt: string)
    requires StructureUsable(s.columnStructure) && prompter(s.columnStructure.entries, markdown) == Some(prompt)
    ensures var answer := extract(pageNum, NextPageInstructions(prompt));
            NextPageStep(prompter, s, pageNum, markdown, extract)
            == if answer.Some? && answer.value.JArr? then s.(transactions := s.transactions + answer.value.items)
               else s
  {
    assert s.transactions + [] == s.transactions;
  }

  /** A later page with content and a usable structure is sent the assembled prompt, and adds
      exactly the items of a list answer to it. */
  lemma LaterPageAddsItsAnswer(text: FixedText, s: Progress, pageNum: nat, markdown: string, extract: Extractor)
    requires pageNum != 1 && PyText.Strip(markdown) != []
    requires FixedTextBraceFree(text) && StructureUsable(s.columnStructure)
    requires PromptPartsOf(s.columnStructure.entries).Some?
    ensures var answer := extract(pageNum, NextPageInstructions(
                            AssembledPrompt(text, PromptPartsOf(s.columnStructure.entries).value, markdown)));
            PageStep(PrompterOf(text), s, pageNum, Some(markdown), extract)
            == if answer.Some? && answer.value.JArr? then s.(transactions := s.transactions + answer.value.items)
               else s
  {
    var prompt := AssembledPrompt(text, PromptPartsOf(s.columnStructure.entries).value, markdown);
    NextPromptAssembled(text, s.columnStructure.entries, markdown);
    assert PrompterOf(text)(s.columnStructure.entries, markdown) == Some(prompt);
    NextPageAddsItsAnswer(PrompterOf(text), s, pageNum, markdown, extract, prompt);
  }

  /** The language model, asked `ins` for the page numbered `pageNum`, answered with a value that
      yields `t`. */
  ghost predicate AnsweredTo(t: Json, pageNum: nat, ins: Instructions, extract: Extractor) {
    extract(pageNum, ins).Some? && t in Yield(extract(pageNum, ins).value)
  }

  /** A later page was sent the prompt made from the current structure and its Markdown, and the
      answer to that prompt yields `t`. */
  ghost predicate NextAnswered(t: Json, prompter: Prompter, s: Progress, pageNum: nat, markdown: string, extract: Extractor) {
    StructureUsable(s.columnStructure) && prompter(s.columnStructure.entries, markdown).Some? &&
    AnsweredTo(t, pageNum, NextPageInstructions(prompter(s.columnStructure.entries, markdown).value), extract)
  }

  /** The turn for page `pageNum`, in state `s`, asked the language model what the loop asks it,
      and its answer yields `t`. */
  ghost predicate StepAnswered(t: Json, prompter: Prompter, s: Progress, pageNum: nat, page: Option<string>, extract: Extractor) {
    HasContent(page) &&
    if pageNum == 1 then AnsweredTo(t, 1, FirstPageInstructions(page.value), extract)
    else NextAnswered(t, prompter, s, pageNum, page.value, extract)
  }

  /** Page `n` of `pages`, visited after pages 1..n-1, was asked and answered with `t`. */
  ghost predicate PageAnswered(t: Json, prompter: Prompter, pages: seq<Option<string>>, n: nat, extract: Extractor)
    requires 1 <= n <= |pages|
  {
    StepAnswered(t, prompter, Pages(prompter, pages[..n - 1], extract), n, pages[n - 1], extract)
  }

  /** Whether page `n` was asked and answered does not depend on the pages after it. */
  lemma PageAnsweredExtend(t: Json, prompter: Prompter, init: seq<Option<string>>, pages: seq<Option<string>>, n: nat,
                           extract: Extractor)
    requires |init| < |pages| && init == pages[..|init|] && 1 <= n <= |init|
    requires PageAnswered(t, prompter, init, n, extract)
    ensures PageAnswered(t, prompter, pages, n, extract)
  {
    assert init[..n - 1] == pages[..n - 1] && init[n - 1] == pages[n - 1];
  }

  /** Every collected transaction is an item of the answer some page got to what the loop asked
      it: page 1 its Markdown, a later page the prompt built from the structure at that point. */
  lemma {:induction false} TransactionsComeFromAnswers(prompter: Prompter, pages: seq<Option<string>>, extract: Extractor, k: nat)
    requires k < |Pages(prompter, pages, extract).transactions|
    ensures exists n :: 1 <= n <= |pages| && PageAnswered(Pages(prompter, pages, extract).transactions[k], prompter, pages, n, extract)
    decreases |pages|
  {
    var init := pages[..|pages| - 1];
    var prev := Pages(prompter, init, extract);
    var cur := Pages(prompter, pages, extract);
    assert cur == PageStep(prompter, prev, |pages|, pages[|pages| - 1], extract);
    var added := PageStepExtends(prompter, prev, |pages|, pages[|pages| - 1], extract);
    var t := cur.transactions[k];
    Collections.IndexOfAppend(prev.transactions, added, k);
    if k < |prev.transactions| {
      TransactionsComeFromAnswers(prompter, init, extract, k);
      var n :| 1 <= n <= |init| && PageAnswered(prev.transactions[k], prompter, init, n, extract);
      PageAnsweredExtend(t, prompter, init, pages, n, extract);
    } else {
      assert pages[..|pages| - 1] == init;
      assert PageAnswered(t, prompter, pages, |pages|, extract);
    }
  }
}
