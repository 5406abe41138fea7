/**
  The article view's `.task` (Shared/ItemDetailView.swift:103-160): parse
  the item's HTML content, take the body's child elements and turn them
  into content blocks by tag name. SwiftSoup is not part of this model: a
  parsed element is a value carrying its tag, the outcome of its `text()`
  call and its child elements, and parsing is a function given by the
  caller.
*/
module ItemDetail {
  import opened Outcomes

  /** A parsed HTML element; `text == None` means `text()` throws. */
  datatype Element = Element(tag: string, text: Option<string>, children: seq<Element>)

  /** A parsed document; `body == None` when it has no body, otherwise the body's child elements. */
  datatype Document = Document(body: Option<seq<Element>>)

  /** What a content block shows: a paragraph, a preformatted block or an inline code block. */
  datatype Block = Paragraph(text: string) | Preformatted(text: string) | Code(text: string)

  /** The closure of the `compactMap` on one element: a block, `nil`, or a thrown error. */
  datatype Rendered = Shown(block: Block) | Dropped | Threw

  /** The tags that produce a block. */
  predicate Displayed(e: Element)
  {
    e.tag == "p" || e.tag == "pre" || e.tag == "code"
  }

  /** The children's `text()` results, in order, or `None` when one of them throws. */
  function ChildTexts(es: seq<Element>): (r: Option<seq<string>>)
    ensures r.Some? <==> forall i :: 0 <= i < |es| ==> es[i].text.Some?
    ensures r.Some? ==> |r.value| == |es| && forall i :: 0 <= i < |es| ==> r.value[i] == es[i].text.value
  {
    if es == [] then Some([])
    else
      match ChildTexts(es[1..])
      case None => None
      case Some(rest) => if es[0].text.None? then None else Some([es[0].text.value] + rest)
  }

  /** `joined(separator:)`. */
  function Join(parts: seq<string>, sep: string): (r: string)
    ensures parts == [] ==> r == ""
    ensures |parts| == 1 ==> r == parts[0]
    ensures |parts| > 1 ==> |r| >= |parts[0]| + |sep|
  {
    if parts == [] then ""
    else if |parts| == 1 then parts[0]
    else parts[0] + sep + Join(parts[1..], sep)
  }

  /** Several parts joined start with the first part and the separator. */
  lemma JoinPrefix(parts: seq<string>, sep: string)
    requires |parts| > 1
    ensures Join(parts, sep)[..|parts[0]| + |sep|] == parts[0] + sep
  {
    assert Join(parts, sep) == parts[0] + sep + Join(parts[1..], sep);
  }

  /** The lines of a text, split at every `"\n"`: the inverse of joining with `"\n"`. */
  function Lines(s: string): (r: seq<string>)
    ensures |r| >= 1
  {
    if s == [] then [""]
    else
      var rest := Lines(s[1..]);
      if s[0] == '\n' then [""] + rest else [[s[0]] + rest[0]] + rest[1..]
  }

  /** A line of text: no `"\n"` in it. */
  predicate SingleLine(s: string)
  {
    forall i :: 0 <= i < |s| ==> s[i] != '\n'
  }

  /** The switch on `tagName()` for one element. */
  function Render(e: Element): (r: Rendered)
    ensures r.Threw? <==>
      ((e.tag == "p" || e.tag == "code" || e.tag == "a") && e.text.None?) ||
      (e.tag == "pre" && exists i :: 0 <= i < |e.children| && e.children[i].text.None?)
    ensures r.Shown? <==> Displayed(e) && !r.Threw?
    ensures r.Shown? && r.block.Paragraph? ==> e.tag == "p" && e.text == Some(r.block.text)
    ensures r.Shown? && r.block.Code? ==> e.tag == "code" && e.text == Some(r.block.text)
    ensures r.Shown? && r.block.Preformatted? ==>
      e.tag == "pre" && ChildTexts(e.children).Some? && r.block.text == Join(ChildTexts(e.children).value, "\n")
  {
    if e.tag == "p" then
      if e.text.Some? then Shown(Paragraph(e.text.value)) else Threw
    else if e.tag == "pre" then
      match ChildTexts(e.children)
      case Some(texts) => Shown(Preformatted(Join(texts, "\n")))
      case None => Threw
    else if e.tag == "code" then
      if e.text.Some? then Shown(Code(e.text.value)) else Threw
    else if e.tag == "a" then
      if e.text.Some? then Dropped else Threw
    else Dropped
  }

  /**
    The `compactMap` over the body's children: the blocks in element order,
    or `None` when the closure throws on some element.
  */
  function Blocks(es: seq<Element>): (r: Option<seq<Block>>)
    ensures r.None? <==> exists i :: 0 <= i < |es| && Render(es[i]).Threw?
    ensures r.Some? ==> |r.value| <= |es|
  {
    if es == [] then Some([])
    else
      var rest := Blocks(es[1..]);
      assert forall i :: 1 <= i < |es| ==> es[i] == es[1..][i - 1];
      match Render(es[0])
      case Threw => None
      case Dropped => rest
      case Shown(b) => if rest.None? then None else Some([b] + rest.value)
  }

  /** The elements that produce a block, in order: the filter half of the filter-map. */
  function Kept(es: seq<Element>): (r: seq<Element>)
    ensures |r| <= |es|
    ensures forall e :: e in r ==> e in es && Displayed(e)
    ensures forall e :: e in es && Displayed(e) ==> e in r
  {
    if es == [] then []
    else (if Displayed(es[0]) then [es[0]] else []) + Kept(es[1..])
  }

  /**
    The new value of `contents`. Nothing happens without content; a parse
    that throws, or a closure that throws, leaves `contents` as it was; a
    document without a body gives no blocks.
  */
  function TaskContents(content: Option<string>, parse: string -> Option<Document>, contents: seq<Block>): (r: seq<Block>)
    ensures content.None? ==> r == contents
    ensures content.Some? && parse(content.value).None? ==> r == contents
    ensures content.Some? && parse(content.value).Some? && parse(content.value).value.body.None? ==> r == []
    ensures r != contents ==>
      content.Some? && parse(content.value).Some? &&
      match parse(content.value).value.body
      case None => r == []
      case Some(es) => Blocks(es) == Some(r)
  {
    match content
    case None => contents
    case Some(html) =>
      match parse(html)
      case None => contents
      case Some(doc) =>
        match doc.body
        case None => []
        case Some(es) =>
          match Blocks(es)
          case None => contents
          case Some(blocks) => blocks
  }

  // ---------------------------------------------------------------------
  // Properties

  /** With no throw, the blocks are exactly the kept elements rendered, one for one and in order. */
  lemma {:induction false} BlocksAreKeptRendered(es: seq<Element>)
    requires forall i :: 0 <= i < |es| ==> !Render(es[i]).Threw?
    ensures Blocks(es).Some?
    ensures |Blocks(es).value| == |Kept(es)|
    ensures forall i :: 0 <= i < |Kept(es)| ==> Render(Kept(es)[i]) == Shown(Blocks(es).value[i])
  {
    if es != [] {
      assert forall i :: 0 <= i < |es[1..]| ==> es[1..][i] == es[i + 1];
      BlocksAreKeptRendered(es[1..]);
      var rest, k := Blocks(es[1..]).value, Kept(es[1..]);
      if Displayed(es[0]) {
        var b := Render(es[0]).block;
        assert Kept(es) == [es[0]] + k;
        assert Blocks(es).value == [b] + rest;
        RenderedCons(es[0], b, k, rest);
      } else {
        assert Kept(es) == k;
      }
    }
  }

  /** One more shown element in front keeps elements and blocks paired one for one. */
  lemma RenderedCons(e: Element, b: Block, k: seq<Element>, bs: seq<Block>)
    requires Render(e) == Shown(b)
    requires |k| == |bs| && forall i :: 0 <= i < |k| ==> Render(k[i]) == Shown(bs[i])
    ensures forall i :: 0 <= i < |k| + 1 ==> Render(([e] + k)[i]) == Shown(([b] + bs)[i])
  {
    forall i | 0 <= i < |k| + 1
      ensures Render(([e] + k)[i]) == Shown(([b] + bs)[i])
    {
      if i > 0 {
        assert ([e] + k)[i] == k[i - 1] && ([b] + bs)[i] == bs[i - 1];
      }
    }
  }

  /** Both halves of a body render independently and in order. */
  lemma {:induction false} BlocksAppend(a: seq<Element>, b: seq<Element>)
    ensures Blocks(a + b) == if Blocks(a).Some? && Blocks(b).Some? then Some(Blocks(a).value + Blocks(b).value) else None
  {
    if a == [] {
      assert a + b == b;
      if Blocks(b).Some? {
        assert [] + Blocks(b).value == Blocks(b).value;
      }
    } else {
      assert (a + b)[1..] == a[1..] + b;
      BlocksAppend(a[1..], b);
      if Render(a[0]).Shown? && Blocks(a).Some? && Blocks(b).Some? {
        assert [Render(a[0]).block] + (Blocks(a[1..]).value + Blocks(b).value)
            == [Render(a[0]).block] + Blocks(a[1..]).value + Blocks(b).value;
      }
    }
  }

  /** Filtering keeps the order of the two halves. */
  lemma {:induction false} KeptAppend(a: seq<Element>, b: seq<Element>)
    ensures Kept(a + b) == Kept(a) + Kept(b)
  {
    if a == [] {
      assert a + b == b;
    } else {
      assert (a + b)[1..] == a[1..] + b;
      KeptAppend(a[1..], b);
    }
  }

  /** No element outside `p`, `pre` and `code` contributes: removing them changes nothing. */
  lemma {:induction false} UndisplayedContributeNothing(es: seq<Element>)
    requires forall i :: 0 <= i < |es| ==> !Render(es[i]).Threw?
    ensures Blocks(Kept(es)) == Blocks(es)
  {
    if es != [] {
      assert forall i :: 0 <= i < |es[1..]| ==> es[1..][i] == es[i + 1];
      UndisplayedContributeNothing(es[1..]);
      assert Blocks(es[1..]).Some?;
      if Displayed(es[0]) {
        assert Kept(es) == [es[0]] + Kept(es[1..]);
        assert Kept(es)[1..] == Kept(es[1..]);
      } else {
        assert Kept(es) == Kept(es[1..]);
      }
    }
  }

  /** A line followed by `"\n"` splits off as the first line. */
  lemma {:induction false} LinesAfterLine(a: string, t: string)
    requires SingleLine(a)
    ensures Lines(a + "\n" + t) == [a] + Lines(t)
  {
    if a == [] {
      assert a + "\n" + t == "\n" + t;
      assert ("\n" + t)[1..] == t;
    } else {
      assert (a + "\n" + t)[1..] == a[1..] + "\n" + t;
      LinesAfterLine(a[1..], t);
      assert [a[0]] + a[1..] == a;
    }
  }

  /** A single line is one line. */
  lemma {:induction false} LinesOfLine(a: string)
    requires SingleLine(a)
    ensures Lines(a) == [a]
  {
    if a != [] {
      LinesOfLine(a[1..]);
      assert [a[0]] + a[1..] == a;
    }
  }

  /** The lines of a `pre` block are its children's texts, when none of them spans lines. */
  lemma {:induction false} LinesOfJoin(parts: seq<string>)
    requires parts != [] && forall i :: 0 <= i < |parts| ==> SingleLine(parts[i])
    ensures Lines(Join(parts, "\n")) == parts
  {
    if |parts| == 1 {
      LinesOfLine(parts[0]);
    } else {
      LinesOfJoin(parts[1..]);
      LinesAfterLine(parts[0], Join(parts[1..], "\n"));
      assert [parts[0]] + parts[1..] == parts;
    }
  }

  /** Joining the lines of a text with `"\n"` gives the text back. */
  lemma {:induction false} JoinOfLines(s: string)
    ensures Join(Lines(s), "\n") == s
  {
    if s != [] {
      JoinOfLines(s[1..]);
      var rest := Lines(s[1..]);
      if s[0] == '\n' {
        assert Join([""] + rest, "\n") == "" + "\n" + Join(rest, "\n");
      } else {
        var first := [s[0]] + rest[0];
        if |rest| == 1 {
          assert Lines(s) == [first];
        } else {
          assert ([first] + rest[1..])[1..] == rest[1..];
          assert Join(rest, "\n") == rest[0] + "\n" + Join(rest[1..], "\n");
        }
        assert s == [s[0]] + s[1..];
      }
    }
  }

  /** A `pre` element with one or more single-line children shows exactly those lines. */
  lemma PreShowsChildLines(e: Element)
    requires e.tag == "pre" && e.children != []
    requires forall i :: 0 <= i < |e.children| ==> e.children[i].text.Some? && SingleLine(e.children[i].text.value)
    ensures Render(e).Shown? && Render(e).block.Preformatted?
    ensures Lines(Render(e).block.text) == ChildTexts(e.children).value
  {
    LinesOfJoin(ChildTexts(e.children).value);
  }

  /** Content that parses to a body whose children all render replaces `contents` by their blocks. */
  lemma TaskRendersBody(html: string, parse: string -> Option<Document>, contents: seq<Block>)
    requires parse(html).Some? && parse(html).value.body.Some?
    requires forall i :: 0 <= i < |parse(html).value.body.value| ==> !Render(parse(html).value.body.value[i]).Threw?
    ensures var es := parse(html).value.body.value;
      var r := TaskContents(Some(html), parse, contents);
      |r| == |Kept(es)| && forall i :: 0 <= i < |r| ==> Render(Kept(es)[i]) == Shown(r[i])
  {
    BlocksAreKeptRendered(parse(html).value.body.value);
  }
}
