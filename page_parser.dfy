/** The page splitter (intelligenet_page_parser.py): the elements a PDF partitioner returns are
    grouped by page number into an insertion-ordered dict, and each page's texts are joined with a
    blank line into that page's file. */
module PageParser {
  import opened Wrappers
  import Collections
  import PyText

  /** `el.metadata.page_number`: None where the element carries none. */
  type PageNumber = Option<nat>

  /** One element of the partition: its page number and its text. */
  datatype Element = Element(page: PageNumber, text: string)

  /** The page number of every element, in element order. */
  function Pages(elements: seq<Element>): (r: seq<PageNumber>)
    ensures |r| == |elements| && forall i :: 0 <= i < |elements| ==> r[i] == elements[i].page
    decreases |elements|
  {
    if |elements| == 0 then []
    else Pages(elements[..|elements| - 1]) + [elements[|elements| - 1].page]
  }

  /** The texts of the elements on page `p`, in element order. */
  function TextsOn(elements: seq<Element>, p: PageNumber): seq<string>
    decreases |elements|
  {
    if |elements| == 0 then []
    else
      var last := elements[|elements| - 1];
      TextsOn(elements[..|elements| - 1], p) + if last.page == p then [last.text] else []
  }

  /** The separator between a page's texts. */
  const Separator := "\n\n"

  /** `page_content` after the elements `es`: each page number mapped to its texts. */
  function Groups(es: seq<Element>): map<PageNumber, seq<string>>
    decreases |es|
  {
    if |es| == 0 then map[]
    else
      var g, last := Groups(es[..|es| - 1]), es[|es| - 1];
      var g' := if last.page in g then g else g[last.page := []];
      g'[last.page := g'[last.page] + [last.text]]
  }

  /** The grouping loop: `page_content` as the order of its keys and the lists they map to. */
  method GroupByPage(elements: seq<Element>) returns (order: seq<PageNumber>, groups: map<PageNumber, seq<string>>)
    ensures order == Collections.FirstSeen(Pages(elements))
    ensures forall p :: p in groups <==> p in order
    ensures forall p :: p in groups ==> groups[p] == TextsOn(elements, p)
  {
    order := [];
    groups := map[];
    for i := 0 to |elements|
      invariant order == Collections.FirstSeen(Pages(elements[..i]))
      invariant groups == Groups(elements[..i])
    {
      var el := elements[i];
      StepFacts(elements, i);
      if el.page !in groups {
        groups := groups[el.page := []];
        order := order + [el.page];
      }
      groups := groups[el.page := groups[el.page] + [el.text]];
    }
    assert elements[..|elements|] == elements;
    GroupsKeys(elements);
    GroupsHoldTexts(elements);
  }

  /** How the page order and the dict of `elements[..i + 1]` follow from those of `elements[..i]`. */
  lemma StepFacts(elements: seq<Element>, i: nat)
    requires i < |elements|
    ensures var prev, el := Collections.FirstSeen(Pages(elements[..i])), elements[i];
      Collections.FirstSeen(Pages(elements[..i + 1])) == if el.page in prev then prev else prev + [el.page]
    ensures var g, el := Groups(elements[..i]), elements[i];
      var g' := if el.page in g then g else g[el.page := []];
      Groups(elements[..i + 1]) == g'[el.page := g'[el.page] + [el.text]]
    ensures elements[i].page in Groups(elements[..i]) <==>
            elements[i].page in Collections.FirstSeen(Pages(elements[..i]))
  {
    var prev := elements[..i];
    assert elements[..i + 1] == prev + [elements[i]];
    PagesSnoc(prev, elements[i]);
    Collections.FirstSeenSnoc(Pages(prev), elements[i].page);
    GroupsSnoc(prev, elements[i]);
    GroupsKeys(prev);
  }

  lemma PagesSnoc(es: seq<Element>, e: Element)
    ensures Pages(es + [e]) == Pages(es) + [e.page]
  {
    assert (es + [e])[..|es|] == es;
  }

  lemma GroupsSnoc(es: seq<Element>, e: Element)
    ensures var g := Groups(es);
      var g' := if e.page in g then g else g[e.page := []];
      Groups(es + [e]) == g'[e.page := g'[e.page] + [e.text]]
  {
    assert (es + [e])[..|es|] == es;
  }

  /** The dict's keys are the page numbers that occur. */
  lemma {:induction false} GroupsKeys(es: seq<Element>)
    ensures forall p :: p in Groups(es) <==> p in Collections.FirstSeen(Pages(es))
    decreases |es|
  {
    if |es| > 0 {
      var init := es[..|es| - 1];
      GroupsKeys(init);
      assert Pages(es) == Pages(init) + [es[|es| - 1].page];
      assert forall p :: p in Pages(es) <==> p in Pages(init) || p == es[|es| - 1].page;
    }
  }

  /** Each page number maps to the texts of its elements, in element order. */
  lemma {:induction false} GroupsHoldTexts(es: seq<Element>)
    ensures forall p :: p in Groups(es) ==> Groups(es)[p] == TextsOn(es, p)
    decreases |es|
  {
    if |es| > 0 {
      var init := es[..|es| - 1];
      var last := es[|es| - 1];
      GroupsHoldTexts(init);
      if last.page !in Groups(init) {
        GroupsKeys(init);
        Collections.FirstSeenMembers(Pages(init), last.page);
        NoTextsOffPage(init, last.page);
      }
    }
  }

  /** A page number no element carries has no texts. */
  lemma {:induction false} NoTextsOffPage(elements: seq<Element>, p: PageNumber)
    requires p !in Pages(elements)
    ensures TextsOn(elements, p) == []
    decreases |elements|
  {
    if |elements| > 0 {
      var init, last := elements[..|elements| - 1], elements[|elements| - 1];
      assert elements == init + [last];
      PagesSnoc(init, last);
      NoTextsOffPage(init, p);
    }
  }

  /** What `parse_pdf_by_page` writes: one file per page, in the order the pages first appear,
      holding the page's texts joined by a blank line. */
  method PageFiles(elements: seq<Element>) returns (files: seq<(PageNumber, string)>)
    ensures |files| == |Collections.FirstSeen(Pages(elements))|
    ensures forall k :: 0 <= k < |files| ==>
              files[k] == (Collections.FirstSeen(Pages(elements))[k],
                           PyText.Join(TextsOn(elements, Collections.FirstSeen(Pages(elements))[k]), Separator))
  {
    var order, groups := GroupByPage(elements);
    files := [];
    for k := 0 to |order|
      invariant |files| == k
      invariant forall j :: 0 <= j < k ==> files[j] == (order[j], PyText.Join(TextsOn(elements, order[j]), Separator))
    {
      var texts := groups[order[k]];
      assert texts == TextsOn(elements, order[k]);
      files := files + [(order[k], PyText.Join(texts, Separator))];
    }
  }

  /** Grouping keeps element order within a page: the texts on `p` of two runs of elements are
      those of the first run followed by those of the second. */
  lemma {:induction false} TextsOnAppend(a: seq<Element>, b: seq<Element>, p: PageNumber)
    ensures TextsOn(a + b, p) == TextsOn(a, p) + TextsOn(b, p)
    decreases |b|
  {
    if |b| == 0 {
      assert a + b == a;
    } else {
      var b' := b[..|b| - 1];
      assert (a + b)[..|a + b| - 1] == a + b';
      TextsOnAppend(a, b', p);
    }
  }

  /** An element's text is among the texts of its own page. */
  lemma {:induction false} TextInItsPage(elements: seq<Element>, i: nat)
    requires i < |elements|
    ensures elements[i].text in TextsOn(elements, elements[i].page)
    decreases |elements|
  {
    if i < |elements| - 1 {
      var init := elements[..|elements| - 1];
      TextInItsPage(init, i);
    }
  }

  /** The number of texts on the pages of `order`, together. */
  function GroupedCount(elements: seq<Element>, order: seq<PageNumber>): nat
    decreases |order|
  {
    if |order| == 0 then 0
    else GroupedCount(elements, order[..|order| - 1]) + |TextsOn(elements, order[|order| - 1])|
  }

  /** One more element adds one text to the pages counted when its page is one of them. */
  lemma {:induction false} GroupedCountSnoc(elements: seq<Element>, e: Element, order: seq<PageNumber>)
    requires Collections.Distinct(order)
    ensures GroupedCount(elements + [e], order) == GroupedCount(elements, order) + if e.page in order then 1 else 0
    decreases |order|
  {
    assert (elements + [e])[..|elements|] == elements;
    if |order| > 0 {
      var init := order[..|order| - 1];
      assert Collections.Distinct(init);
      GroupedCountSnoc(elements, e, init);
      assert e.page in order <==> e.page in init || e.page == order[|order| - 1];
    }
  }

  /** Counted over distinct pages that include every element's page, each text is counted once. */
  lemma {:induction false} GroupedCountCovers(elements: seq<Element>, order: seq<PageNumber>)
    requires Collections.Distinct(order)
    requires forall i :: 0 <= i < |elements| ==> elements[i].page in order
    ensures GroupedCount(elements, order) == |elements|
    decreases |elements|
  {
    if |elements| == 0 {
      if |order| > 0 {
        GroupedCountEmpty(order);
      }
    } else {
      var init := elements[..|elements| - 1];
      var e := elements[|elements| - 1];
      GroupedCountCovers(init, order);
      assert init + [e] == elements;
      GroupedCountSnoc(init, e, order);
    }
  }

  lemma {:induction false} GroupedCountEmpty(order: seq<PageNumber>)
    ensures GroupedCount([], order) == 0
    decreases |order|
  {
    if |order| > 0 {
      GroupedCountEmpty(order[..|order| - 1]);
    }
  }

  /** Every element's text lands in a group, and the groups hold no more texts than there are
      elements: the page files together hold exactly the element texts. */
  lemma EveryTextGroupedOnce(elements: seq<Element>)
    ensures GroupedCount(elements, Collections.FirstSeen(Pages(elements))) == |elements|
  {
    var order := Collections.FirstSeen(Pages(elements));
    assert forall i :: 0 <= i < |elements| ==> elements[i].page == Pages(elements)[i];
    GroupedCountCovers(elements, order);
  }

  /** A further text on a page already begun extends that page's content by a blank line and the
      text. */
  lemma ContentGrows(elements: seq<Element>, e: Element)
    requires |TextsOn(elements, e.page)| > 0
    ensures PyText.Join(TextsOn(elements + [e], e.page), Separator) ==
            PyText.Join(TextsOn(elements, e.page), Separator) + Separator + e.text
  {
    assert (elements + [e])[..|elements|] == elements;
    PyText.JoinSnoc(TextsOn(elements, e.page), e.text, Separator);
  }
}
