/** The chunked pipeline (run_chunked_pipleline.py): every page's text is put into a prompt, the
    model's reply is cut down to its outermost JSON span and decoded, page 1 must yield a non-empty
    dict (its header information) and every later page a non-empty list of transactions, and the
    result is page 1's dict with all the transactions under `transactions`. */
module ChunkedPipeline {
  import opened Wrappers
  import opened JsonValue
  import PyText
  import Collections

  /** `json.loads`: the decoded value, or None where it raises. */
  type Parser = string -> Option<Json>

  /** `ollama.chat` for page `n` and a prompt: the reply's `['message']['content']`, or None where
      the call or that lookup raises. */
  type Chat = (nat, string) -> Option<string>

  /** `start_char`: `[` when the reply, stripped, begins with `[`, otherwise `{`. */
  function StartChar(text: string): (c: char)
    ensures c == '[' || c == '{'
    ensures c == '[' <==> exists k :: 0 <= k < |text| && PyText.AllSpace(text[..k]) && text[k] == '['
  {
    PyText.StrippedStartsWithIff(text, '[');
    if PyText.StrippedStartsWith(text, '[') then '[' else '{'
  }

  /** `end_char`, the bracket that closes `start`. */
  function EndChar(start: char): char {
    if start == '[' then ']' else '}'
  }

  /** `response_text[start_index : end_index + 1]`, or None when either bracket is missing. */
  function JsonCandidate(text: string): (r: Option<string>)
    ensures r.None? <==> StartChar(text) !in text || EndChar(StartChar(text)) !in text
  {
    var s, e := StartChar(text), EndChar(StartChar(text));
    var a, b := PyText.Find(text, s), PyText.RFind(text, e);
    if a == -1 || b == -1 then None
    else Some(PyText.Slice(text, a, b + 1))
  }

  /** `find_and_parse_json`: the candidate span decoded; None when there is no span or it does not
      decode. */
  function FindAndParseJson(text: string, parse: Parser): (r: Option<Json>)
    ensures StartChar(text) !in text || EndChar(StartChar(text)) !in text ==> r.None?
  {
    match JsonCandidate(text)
    case None => None
    case Some(candidate) => parse(candidate)
  }

  /** The placeholder a prompt template holds for the page text. */
  const Placeholder := "{{page_text}}"

  /** `prompt_template.replace("{{page_text}}", page_text)`. */
  function PagePrompt(template: string, pageText: string): string {
    PyText.ReplaceAll(template, Placeholder, pageText)
  }

  /** `process_page` for page `n`: the reply to the filled-in prompt, decoded; None when the call
      fails or the reply holds no decodable JSON. */
  function ProcessPage(n: nat, pageText: string, template: string, chat: Chat, parse: Parser): (r: Option<Json>)
  {
    var reply := chat(n, PagePrompt(template, pageText));
    if reply.None? then None else FindAndParseJson(reply.value, parse)
  }

  /** `result_page_n and isinstance(result_page_n, list)`. */
  predicate AcceptedList(r: Option<Json>) {
    r.Some? && Truthy(r.value) && r.value.JArr?
  }

  /** `result_page_1 and isinstance(result_page_1, dict)`. */
  predicate AcceptedDict(r: Option<Json>) {
    r.Some? && Truthy(r.value) && r.value.JObj?
  }

  /** What `process_page` returns for each page file in turn: page 1 with the first-page template,
      every later page with the next-page template. */
  function PageResults(pages: seq<string>, first: string, next: string, chat: Chat, parse: Parser): (rs: seq<Option<Json>>)
  {
    seq(|pages|, i requires 0 <= i < |pages| =>
      ProcessPage(i + 1, pages[i], if i == 0 then first else next, chat, parse))
  }

  /** Every later page is processed with the next-page template. */
  lemma LaterResults(pages: seq<string>, first: string, next: string, chat: Chat, parse: Parser)
    ensures forall i :: 1 <= i < |pages| ==>
              PageResults(pages, first, next, chat, parse)[i] == ProcessPage(i + 1, pages[i], next, chat, parse)
  {
  }

  /** The transactions the later results among `results[..n]` contribute, in page order. */
  function Later(results: seq<Option<Json>>, n: nat): seq<Json>
    requires n <= |results|
    decreases n
  {
    if n <= 1 then []
    else Later(results, n - 1) + if AcceptedList(results[n - 1]) then results[n - 1].value.items else []
  }

  /** How the main block ends: no page files, the fatal page-1 exit, a `TypeError` out of
      `extend`, or the JSON document it writes. */
  datatype Run = NoPageFiles | Fatal | Crashed | Written(data: Entries)

  /** The main block as a function of what `process_page` returned for each page. */
  function Outcome(results: seq<Option<Json>>): Run {
    if |results| == 0 then NoPageFiles
    else if !AcceptedDict(results[0]) then Fatal
    else
      match IterItems(Get(results[0].value.entries, "transactions", JArr([])))
      case None => Crashed
      case Some(items) =>
        Written(Put(results[0].value.entries, "transactions", JArr(items + Later(results, |results|))))
  }

  /** The main block: page 1, then every later page, then the final assignment. */
  method RunChunked(pages: seq<string>, first: string, next: string, chat: Chat, parse: Parser)
    returns (r: Run)
    ensures r == Outcome(PageResults(pages, first, next, chat, parse))
  {
    ghost var results := PageResults(pages, first, next, chat, parse);
    if |pages| == 0 {
      return NoPageFiles;
    }
    var result1 := ProcessPage(1, pages[0], first, chat, parse);
    assert |results| == |pages| && results[0] == result1;
    if !AcceptedDict(result1) {
      return Fatal;
    }
    var finalData := result1.value.entries;
    var page1 := IterItems(Get(finalData, "transactions", JArr([])));
    if page1.None? {
      return Crashed;
    }
    var all := page1.value;
    finalData := Put(finalData, "transactions", JArr(all));
    LaterResults(pages, first, next, chat, parse);
    all := ExtendWithLaterPages(pages, next, chat, parse, results, all);
    PutTwice(result1.value.entries, "transactions", JArr(page1.value), JArr(all));
    finalData := Put(finalData, "transactions", JArr(all));
    r := Written(finalData);
  }

  /** `for i in range(1, len(page_files))`: each later page's result is appended when it is a
      non-empty list. */
  method ExtendWithLaterPages(pages: seq<string>, next: string, chat: Chat, parse: Parser,
                              ghost results: seq<Option<Json>>, start: seq<Json>)
    returns (all: seq<Json>)
    requires |results| == |pages| > 0
    requires forall i :: 1 <= i < |pages| ==> results[i] == ProcessPage(i + 1, pages[i], next, chat, parse)
    ensures all == start + Later(results, |pages|)
  {
    all := start;
    var i := 1;
    while i < |pages|
      invariant 1 <= i <= |pages|
      invariant all == start + Later(results, i)
    {
      var resultN := ProcessPage(i + 1, pages[i], next, chat, parse);
      assert resultN == results[i];
      if AcceptedList(resultN) {
        Collections.AppendAssoc(start, Later(results, i), resultN.value.items);
        all := all + resultN.value.items;
      } else {
        assert Later(results, i + 1) == Later(results, i) + [];
      }
      i := i + 1;
    }
  }

  /** The candidate is exactly the text from the first start bracket to the last end bracket, both
      included (empty when the first start bracket comes after the last end bracket). */
  lemma JsonCandidateSpan(text: string, a: nat, b: nat)
    requires a < |text| && text[a] == StartChar(text) && StartChar(text) !in text[..a]
    requires b < |text| && text[b] == EndChar(StartChar(text)) && EndChar(StartChar(text)) !in text[b + 1..]
    ensures JsonCandidate(text) == Some(if a <= b then text[a..b + 1] else [])
  {
    PyText.FindFirst(text, StartChar(text), a);
    PyText.RFindLast(text, EndChar(StartChar(text)), b);
  }

  /** When no start bracket comes before the last end bracket, the span is empty, and since
      `json.loads("")` raises, nothing is returned. */
  lemma NoSpanNoResult(text: string, parse: Parser, a: nat, b: nat)
    requires parse([]) == None
    requires a < |text| && text[a] == StartChar(text) && StartChar(text) !in text[..a]
    requires b < |text| && text[b] == EndChar(StartChar(text)) && EndChar(StartChar(text)) !in text[b + 1..]
    requires b < a
    ensures FindAndParseJson(text, parse) == None
  {
    JsonCandidateSpan(text, a, b);
  }

  /** A template without the placeholder is sent as it is. */
  lemma PromptWithoutPlaceholder(template: string, pageText: string)
    requires forall i :: !PyText.OccursAt(template, Placeholder, i)
    ensures PagePrompt(template, pageText) == template
  {
    PyText.ReplaceAllAbsent(template, Placeholder, pageText);
  }

  /** The first placeholder is replaced by the page text, and the replacing continues after it. */
  lemma PromptAtFirstPlaceholder(template: string, pageText: string, k: nat)
    requires PyText.OccursAt(template, Placeholder, k)
    requires forall i :: 0 <= i < k ==> !PyText.OccursAt(template, Placeholder, i)
    ensures PagePrompt(template, pageText) ==
            template[..k] + pageText + PagePrompt(template[k + |Placeholder|..], pageText)
  {
    PyText.ReplaceAllFirst(template, Placeholder, pageText, k);
  }

  /** A reply made of leading whitespace, one JSON text that opens with `[` or `{` and closes with
      the matching bracket, and trailing text without that closing bracket yields exactly the JSON
      text, whatever brackets the JSON text holds inside. */
  lemma FindsEmbeddedJson(w: string, j: string, x: string, parse: Parser)
    requires PyText.AllSpace(w)
    requires |j| > 0 && (j[0] == '[' || j[0] == '{') && j[|j| - 1] == EndChar(j[0])
    requires EndChar(j[0]) !in x
    ensures StartChar(w + j + x) == j[0]
    ensures JsonCandidate(w + j + x) == Some(j)
    ensures FindAndParseJson(w + j + x, parse) == parse(j)
  {
    var text, c := w + j + x, j[0];
    assert text[..|w|] == w;
    assert text[|w|] == c;
    if c == '[' {
      assert PyText.AllSpace(text[..|w|]) && text[|w|] == '[';
    } else {
      forall k | 0 <= k < |text| && PyText.AllSpace(text[..k]) ensures text[k] != '[' {
        if k < |w| {
          assert text[k] == w[k] && PyText.IsSpace(w[k]);
        }
      }
    }
    var b := |w| + |j| - 1;
    assert text[b] == EndChar(c);
    assert text[b + 1..] == x;
    assert c !in w by {
      forall k | 0 <= k < |w| ensures w[k] != c { assert PyText.IsSpace(w[k]); }
    }
    JsonCandidateSpan(text, |w|, b);
    assert text[|w|..b + 1] == j;
  }

  /** A template that holds the placeholder once sends the page text in its place and the rest of
      the template as it is. */
  lemma PromptOfOnePlaceholder(pre: string, post: string, pageText: string)
    requires forall i :: 0 <= i < |pre| ==> !PyText.OccursAt(pre + Placeholder + post, Placeholder, i)
    requires forall i :: !PyText.OccursAt(post, Placeholder, i)
    ensures PagePrompt(pre + Placeholder + post, pageText) == pre + pageText + post
  {
    var t := pre + Placeholder + post;
    var k := |pre|;
    assert t[k..k + |Placeholder|] == Placeholder;
    assert t[..k] == pre;
    assert t[k + |Placeholder|..] == post;
    PromptAtFirstPlaceholder(t, pageText, k);
    PromptWithoutPlaceholder(post, pageText);
  }

  /** A page whose template holds the placeholder once, and whose reply wraps one JSON text in
      whitespace and trailing text, gives what that JSON text decodes to. */
  lemma ProcessPageOfReply(n: nat, pre: string, post: string, pageText: string, chat: Chat, parse: Parser,
                           w: string, j: string, x: string)
    requires forall i :: 0 <= i < |pre| ==> !PyText.OccursAt(pre + Placeholder + post, Placeholder, i)
    requires forall i :: !PyText.OccursAt(post, Placeholder, i)
    requires chat(n, pre + pageText + post) == Some(w + j + x)
    requires PyText.AllSpace(w)
    requires |j| > 0 && (j[0] == '[' || j[0] == '{') && j[|j| - 1] == EndChar(j[0])
    requires EndChar(j[0]) !in x
    ensures ProcessPage(n, pageText, pre + Placeholder + post, chat, parse) == parse(j)
  {
    PromptOfOnePlaceholder(pre, post, pageText);
    FindsEmbeddedJson(w, j, x, parse);
  }

  /** The first-page template only decides page 1's result, the next-page template only the later
      pages' results. */
  lemma TemplatesSplitPages(pages: seq<string>, first: string, first': string, next: string, next': string,
                            chat: Chat, parse: Parser)
    ensures |pages| > 0 ==>
              PageResults(pages, first, next, chat, parse)[0] == PageResults(pages, first, next', chat, parse)[0]
    ensures forall i :: 1 <= i < |pages| ==>
              PageResults(pages, first, next, chat, parse)[i] == PageResults(pages, first', next, chat, parse)[i]
  {
  }

  /** Later pages only ever add transactions at the end: the list after page n starts with the
      list after page m, for m <= n. */
  lemma {:induction false} LaterGrows(results: seq<Option<Json>>, m: nat, n: nat)
    requires m <= n <= |results|
    ensures Later(results, m) <= Later(results, n)
    decreases n
  {
    if m < n {
      LaterGrows(results, m, n - 1);
    }
  }

  /** Every transaction from a later page was in the accepted list of one of pages 2..n. */
  lemma {:induction false} LaterFromAcceptedPages(results: seq<Option<Json>>, n: nat, t: Json)
    requires n <= |results| && t in Later(results, n)
    ensures exists q :: 1 <= q < n && AcceptedList(results[q]) && t in results[q].value.items
    decreases n
  {
    if t in Later(results, n - 1) {
      LaterFromAcceptedPages(results, n - 1, t);
    } else {
      assert AcceptedList(results[n - 1]) && t in results[n - 1].value.items;
    }
  }

  /** A later page whose result is not a non-empty list adds nothing. */
  lemma RejectedPageAddsNothing(results: seq<Option<Json>>, n: nat)
    requires 2 <= n <= |results| && !AcceptedList(results[n - 1])
    ensures Later(results, n) == Later(results, n - 1)
  {
  }

  /** The document written keeps page 1's other keys and values, and its `transactions` is page 1's
      transactions followed by the later pages' transactions. */
  lemma WrittenKeepsPageOne(results: seq<Option<Json>>, key: string)
    requires Outcome(results).Written?
    ensures AcceptedDict(results[0])
    ensures IterItems(Get(results[0].value.entries, "transactions", JArr([]))).Some?
    ensures Lookup(Outcome(results).data, "transactions") ==
              Some(JArr(IterItems(Get(results[0].value.entries, "transactions", JArr([]))).value + Later(results, |results|)))
    ensures key != "transactions" ==> Lookup(Outcome(results).data, key) == Lookup(results[0].value.entries, key)
  {
    var e := results[0].value.entries;
    var items := IterItems(Get(e, "transactions", JArr([]))).value;
    var v := JArr(items + Later(results, |results|));
    PutThenLookup(e, "transactions", v);
    if key != "transactions" {
      PutKeepsOthers(e, "transactions", v, key);
    }
  }

  /** Page 1 decides whether anything is written: without a non-empty dict from it the run stops. */
  lemma FatalUnlessPageOneDict(results: seq<Option<Json>>)
    requires |results| > 0
    ensures Outcome(results) == Fatal <==> !AcceptedDict(results[0])
  {
  }
}
