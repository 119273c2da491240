/** The chunker's input: blocks of a normalized document, and how their text, paths and pages are
    cleaned before anything else looks at them. */
module Blocks {
  import opened Text
  import opened HeaderLine

  datatype Kind = Heading | Paragraph | ListItem | Table | Caption | Footnote | Code | Formula | KeyValue | Other

  datatype Block = Block(kind: Kind, text: string, pages: seq<int>, headingPath: seq<string>)

  datatype Page = Page(number: int, text: string)

  datatype Document = Document(blocks: seq<Block>, pages: seq<Page>, pageCount: int)

  function DropNul(s: string): (r: string)
    ensures '\0' !in r
  {
    if s == "" then "" else (if s[0] == '\0' then "" else [s[0]]) + DropNul(s[1..])
  }

  /** Two texts that start alike: both empty, both with whitespace, or with the same character. */
  predicate StartAlike(a: string, b: string) {
    && (a == "" <==> b == "")
    && (a != "" ==> (IsSpace(a[0]) && IsSpace(b[0])) || a[0] == b[0])
  }

  /** CRLF and CR become LF. */
  function UnixLines(s: string): (r: string)
    ensures StartAlike(s, r)
    ensures '\0' !in s ==> '\0' !in r
  {
    if s == "" then ""
    else if s[0] == '\r' then
      "\n" + UnixLines(if |s| > 1 && s[1] == '\n' then s[2..] else s[1..])
    else [s[0]] + UnixLines(s[1..])
  }

  /** Three or more line breaks become two. */
  function FewLines(s: string): (r: string)
    ensures StartAlike(s, r)
    ensures '\0' !in s ==> '\0' !in r
  {
    if s == "" then ""
    else if |s| > 2 && s[0] == s[1] == s[2] == '\n' then FewLines(s[1..])
    else [s[0]] + FewLines(s[1..])
  }

  function CleanText(text: string): (r: string)
    ensures r != "" ==> !IsSpace(r[0]) && !IsSpace(r[|r| - 1])
    ensures '\0' !in r
  {
    StripKeeps(FewLines(UnixLines(DropNul(text))));
    Strip(FewLines(UnixLines(DropNul(text))))
  }

  lemma StripKeeps(s: string)
    requires '\0' !in s
    ensures '\0' !in Strip(s)
  {
    var before, after := StripParts(s);
  }

  function CleanPath(path: seq<string>): (r: seq<string>) {
    if path == [] then []
    else (if OneLine(path[0]) == "" then [] else [OneLine(path[0])]) + CleanPath(path[1..])
  }

  function PositivePages(pages: seq<int>): set<nat> {
    set p | p in pages && p > 0 :: p
  }

  /** Ascending, as `sorted` gives it. */
  function SortedPages(pages: set<nat>): (r: seq<nat>)
    ensures forall p :: p in r <==> p in pages
    ensures forall i, j :: 0 <= i < j < |r| ==> r[i] < r[j]
    decreases |pages|
  {
    if pages == {} then []
    else
      var m := LeastPage(pages);
      [m] + SortedPages(pages - {m})
  }

  predicate IsLeast(m: nat, pages: set<nat>) {
    m in pages && forall p :: p in pages ==> m <= p
  }

  function LeastPage(pages: set<nat>): (m: nat)
    requires pages != {}
    ensures IsLeast(m, pages)
  {
    var x :| x in pages;
    LeastFrom(x, pages);
    var m :| IsLeast(m, pages);
    m
  }

  lemma {:induction false} LeastFrom(x: nat, pages: set<nat>)
    requires x in pages
    ensures exists m :: IsLeast(m, pages)
  {
    if p :| p in pages && p < x {
      LeastFrom(p, pages);
    } else {
      assert IsLeast(x, pages);
    }
  }

  /** Cleaning a text drops NUL characters and changes whitespace, nothing else. */
  lemma CleanTextWords(text: string)
    ensures Words(CleanText(text)) == Words(DropNul(text))
  {
    var a := DropNul(text);
    UnixLinesWords(a);
    FewLinesWords(UnixLines(a));
    WordsStrip(FewLines(UnixLines(a)));
  }

  lemma {:induction false} UnixLinesWords(s: string)
    ensures Words(UnixLines(s)) == Words(s)
  {
    if s != "" {
      if s[0] == '\r' {
        var rest := if |s| > 1 && s[1] == '\n' then s[2..] else s[1..];
        UnixLinesWords(rest);
        WordsLeading("\n", UnixLines(rest));
        WordsLeading(s[..|s| - |rest|], rest);
        assert s == s[..|s| - |rest|] + rest;
      } else {
        UnixLinesWords(s[1..]);
        SameFirst(s[0], UnixLines(s[1..]), s[1..]);
        assert [s[0]] + s[1..] == s;
      }
    }
  }

  lemma {:induction false} FewLinesWords(s: string)
    ensures Words(FewLines(s)) == Words(s)
  {
    if s != "" {
      FewLinesWords(s[1..]);
      if !(|s| > 2 && s[0] == s[1] == s[2] == '\n') {
        SameFirst(s[0], FewLines(s[1..]), s[1..]);
        assert [s[0]] + s[1..] == s;
      }
    }
  }

  lemma SameFirst(c: char, a: string, b: string)
    requires Words(a) == Words(b) && StartAlike(a, b)
    ensures Words([c] + a) == Words([c] + b)
  {
    assert ([c] + a)[1..] == a && ([c] + b)[1..] == b;
    if a != "" {
      assert ([c] + a)[1] == a[0] && ([c] + b)[1] == b[0];
    }
  }

  // ---- page text, for documents without usable blocks ------------------------------------------

  /** The end of a blank line that starts at the line break `i`, or -1. */
  function BlankLineEnd(text: string, i: nat): (end: int)
    requires i < |text|
    ensures end == -1 || (i + 1 < end <= |text| && Blank(text[i..end]))
  {
    if text[i] != '\n' then -1
    else
      var j := SkipGaps(text, i + 1);
      if j < |text| && text[j] == '\n' then j + 1 else -1
  }

  function SkipGaps(text: string, i: nat): (j: nat)
    requires i <= |text|
    ensures i <= j <= |text| && forall k :: i <= k < j ==> IsSpace(text[k])
    decreases |text| - i
  {
    if i < |text| && IsGap(text[i]) then SkipGaps(text, i + 1) else i
  }

  function Paragraphs(text: string, start: nat, pos: nat): seq<string>
    requires start <= pos <= |text|
    decreases |text| - pos
  {
    if pos == |text| then [text[start..]]
    else
      var end := BlankLineEnd(text, pos);
      if end < 0 then Paragraphs(text, start, pos + 1)
      else [text[start..pos]] + Paragraphs(text, end, end)
  }

  function ParagraphBlocks(paragraphs: seq<string>, number: int): seq<Block> {
    if paragraphs == [] then []
    else (if Strip(paragraphs[0]) == "" then []
          else [Block(Paragraph, Strip(paragraphs[0]), if number > 0 then [number] else [], [])])
         + ParagraphBlocks(paragraphs[1..], number)
  }

  function PageBlocks(pages: seq<Page>): seq<Block> {
    if pages == [] then []
    else
      var text := CleanText(pages[0].text);
      (if text == "" then [] else ParagraphBlocks(Paragraphs(text, 0, 0), pages[0].number)) + PageBlocks(pages[1..])
  }

  function BlocksWithText(blocks: seq<Block>): seq<Block> {
    if blocks == [] then []
    else (if CleanText(blocks[0].text) == "" then [] else [blocks[0]]) + BlocksWithText(blocks[1..])
  }

  function MaxPositive(numbers: seq<int>): (m: nat)
    ensures m == 0 || m in numbers
    ensures forall n :: n in numbers ==> n <= m
  {
    if numbers == [] then 0
    else
      var m := MaxPositive(numbers[1..]);
      assert forall n :: n in numbers ==> n == numbers[0] || n in numbers[1..];
      if numbers[0] > m then numbers[0] else m
  }

  function BlockPageNumbers(blocks: seq<Block>): seq<int> {
    if blocks == [] then [] else blocks[0].pages + BlockPageNumbers(blocks[1..])
  }

  function PageNumbers(pages: seq<Page>): seq<int> {
    if pages == [] then [] else [pages[0].number] + PageNumbers(pages[1..])
  }

  function MaxPage(doc: Document): nat {
    MaxPositive(BlockPageNumbers(doc.blocks) + PageNumbers(doc.pages) + [doc.pageCount])
  }

  /** The words a list of blocks asks to be chunked: everything but the headings. */
  function OwnWords(block: Block): seq<string> {
    if block.kind == Heading then [] else Words(DropNul(block.text))
  }

  function ContentWords(blocks: seq<Block>): seq<string> {
    if blocks == [] then [] else OwnWords(blocks[0]) + ContentWords(blocks[1..])
  }

  function PageWords(pages: seq<Page>): seq<string> {
    if pages == [] then [] else Words(DropNul(pages[0].text)) + PageWords(pages[1..])
  }

  /** Dropping the empty blocks drops no content. */
  lemma {:induction false} BlocksWithTextWords(blocks: seq<Block>)
    ensures ContentWords(BlocksWithText(blocks)) == ContentWords(blocks)
  {
    if blocks != [] {
      BlocksWithTextWords(blocks[1..]);
      CleanTextWords(blocks[0].text);
      var rest := BlocksWithText(blocks[1..]);
      if CleanText(blocks[0].text) == "" {
        assert [] + rest == rest;
        assert [] + ContentWords(blocks[1..]) == ContentWords(blocks[1..]);
      } else {
        assert ([blocks[0]] + rest)[1..] == rest;
      }
    }
  }

  /** Splitting the pages into paragraphs keeps every word. */
  lemma {:induction false} PageBlocksWords(pages: seq<Page>)
    ensures ContentWords(PageBlocks(pages)) == PageWords(pages)
  {
    if pages != [] {
      var text := CleanText(pages[0].text);
      PageBlocksWords(pages[1..]);
      CleanTextWords(pages[0].text);
      if text == "" {
        assert [] + PageBlocks(pages[1..]) == PageBlocks(pages[1..]);
        assert [] + PageWords(pages[1..]) == PageWords(pages[1..]);
      } else {
        var here := ParagraphBlocks(Paragraphs(text, 0, 0), pages[0].number);
        ParagraphsWords(text, 0, 0, pages[0].number);
        assert text[0..] == text;
        ContentConcat(here, PageBlocks(pages[1..]));
      }
    }
  }

  lemma {:induction false} ContentConcat(a: seq<Block>, b: seq<Block>)
    ensures ContentWords(a + b) == ContentWords(a) + ContentWords(b)
  {
    hide OwnWords;
    if a == [] {
      assert a + b == b;
    } else {
      ContentConcat(a[1..], b);
      assert (a + b)[1..] == a[1..] + b;
      Assoc(OwnWords(a[0]), ContentWords(a[1..]), ContentWords(b));
    }
  }

  lemma {:induction false} ParagraphsWords(text: string, start: nat, pos: nat, number: int)
    requires start <= pos <= |text| && '\0' !in text
    ensures ContentWords(ParagraphBlocks(Paragraphs(text, start, pos), number)) == Words(text[start..])
    decreases |text| - pos
  {
    if pos == |text| {
      OneParagraph(text[start..], [], number);
    } else {
      var end := BlankLineEnd(text, pos);
      if end < 0 {
        ParagraphsWords(text, start, pos + 1, number);
      } else {
        ParagraphsWords(text, end, end, number);
        OneParagraph(text[start..pos], Paragraphs(text, end, end), number);
        WordsAround(text, start, pos, end);
      }
    }
  }

  lemma OneParagraph(paragraph: string, rest: seq<string>, number: int)
    requires '\0' !in paragraph
    ensures ContentWords(ParagraphBlocks([paragraph] + rest, number))
         == Words(paragraph) + ContentWords(ParagraphBlocks(rest, number))
  {
    WordsStrip(paragraph);
    assert ([paragraph] + rest)[1..] == rest;
    var tail := ParagraphBlocks(rest, number);
    if Strip(paragraph) == "" {
      assert [] + tail == tail;
      assert [] + ContentWords(tail) == ContentWords(tail);
    } else {
      var block := Block(Paragraph, Strip(paragraph), if number > 0 then [number] else [], []);
      assert ([block] + tail)[1..] == tail;
      var before, after := StripParts(paragraph);
      NoNul(Strip(paragraph));
    }
  }

  lemma {:induction false} NoNul(s: string)
    requires '\0' !in s
    ensures DropNul(s) == s
  {
    if s != "" {
      NoNul(s[1..]);
    }
  }

  /** Exactly the blocks with text are kept, each as often as it is there. */
  lemma {:induction false} BlocksWithTextExactly(blocks: seq<Block>, block: Block)
    ensures multiset(BlocksWithText(blocks))[block] == if CleanText(block.text) == "" then 0 else multiset(blocks)[block]
  {
    hide CleanText;
    if blocks != [] {
      BlocksWithTextExactly(blocks[1..], block);
      assert blocks == [blocks[0]] + blocks[1..];
      assert multiset(blocks) == multiset{blocks[0]} + multiset(blocks[1..]);
    }
  }

  /** No blank line inside: two line breaks have something between them that is no blank. */
  predicate OneParagraphText(t: string) {
    forall i, j :: 0 <= i < j < |t| && t[i] == '\n' && t[j] == '\n' ==> exists k :: i < k < j && !IsGap(t[k])
  }

  /** A paragraph of a page: its own text, the number of the page when it has one, no heading path. */
  predicate FromPage(block: Block, page: Page) {
    && block.kind == Paragraph && block.headingPath == [] && block.text != "" && OneParagraphText(block.text)
    && !IsSpace(block.text[0]) && !IsSpace(block.text[|block.text| - 1])
    && block.pages == if page.number > 0 then [page.number] else []
  }

  predicate NoBlankLines(text: string, start: nat, pos: nat)
    requires start <= pos <= |text|
  {
    forall p :: start <= p < pos ==> BlankLineEnd(text, p) < 0
  }

  lemma {:induction false} SkipGapsOver(text: string, i: nat, j: nat)
    requires i <= j <= |text| && forall k :: i <= k < j ==> IsGap(text[k])
    ensures SkipGaps(text, i) == SkipGaps(text, j)
    decreases j - i
  {
    if i < j {
      SkipGapsOver(text, i + 1, j);
    }
  }

  /** Where two line breaks have only blanks between them, a blank line starts. */
  lemma BlankLineHere(text: string, i: nat, j: nat)
    requires i < j < |text| && text[i] == '\n' && text[j] == '\n' && forall k :: i < k < j ==> IsGap(text[k])
    ensures BlankLineEnd(text, i) > 0
  {
    SkipGapsOver(text, i + 1, j);
    assert SkipGaps(text, j) == j;
  }

  lemma ParagraphText(text: string, start: nat, pos: nat)
    requires start <= pos <= |text| && NoBlankLines(text, start, pos)
    ensures OneParagraphText(Strip(text[start..pos]))
  {
    hide IsSpace;
    hide Strip;
    hide BlankLineEnd;
    var before, after := StripParts(text[start..pos]);
    var t, from := Strip(text[start..pos]), start + |before|;
    forall i | 0 <= i < |t|
      ensures t[i] == text[from + i]
    {
      assert t[i] == text[start..pos][|before| + i];
    }
    forall i, j | 0 <= i < j < |t| && t[i] == '\n' && t[j] == '\n'
      ensures exists k :: i < k < j && !IsGap(t[k])
    {
      assert BlankLineEnd(text, from + i) < 0;
      if forall k :: i < k < j ==> IsGap(t[k]) {
        forall k | from + i < k < from + j
          ensures IsGap(text[k])
        {
          assert IsGap(t[k - from]);
        }
        BlankLineHere(text, from + i, from + j);
      }
    }
  }

  lemma {:induction false} ParagraphsFromPage(text: string, start: nat, pos: nat, page: Page)
    requires start <= pos <= |text| && NoBlankLines(text, start, pos)
    ensures forall b :: b in ParagraphBlocks(Paragraphs(text, start, pos), page.number) ==> FromPage(b, page)
    decreases |text| - pos
  {
    hide IsSpace;
    hide Strip;
    hide OneParagraphText;
    if pos == |text| {
      ParagraphText(text, start, pos);
      assert text[start..pos] == text[start..];
      assert ParagraphBlocks([], page.number) == [];
    } else {
      var end := BlankLineEnd(text, pos);
      if end < 0 {
        ParagraphsFromPage(text, start, pos + 1, page);
      } else {
        ParagraphText(text, start, pos);
        ParagraphsFromPage(text, end, end, page);
        var rest := Paragraphs(text, end, end);
        assert ([text[start..pos]] + rest)[1..] == rest;
      }
    }
  }

  /** The blocks made of pages, page by page: paragraphs of that page, with its words. */
  lemma {:induction false} PageBlocksExactly(pages: seq<Page>) returns (groups: seq<seq<Block>>)
    ensures PageBlocks(pages) == Flat(groups) && |groups| == |pages|
    ensures forall i :: 0 <= i < |pages| ==>
      && (forall b :: b in groups[i] ==> FromPage(b, pages[i]))
      && ContentWords(groups[i]) == Words(DropNul(pages[i].text))
  {
    hide FromPage;
    hide CleanText;
    if pages == [] {
      groups := [];
    } else {
      var page, text := pages[0], CleanText(pages[0].text);
      var rest := PageBlocksExactly(pages[1..]);
      var first := if text == "" then [] else ParagraphBlocks(Paragraphs(text, 0, 0), page.number);
      CleanTextWords(page.text);
      if text != "" {
        ParagraphsFromPage(text, 0, 0, page);
        ParagraphsWords(text, 0, 0, page.number);
        assert text[0..] == text;
      } else {
        NoWords();
      }
      groups := [first] + rest;
      assert groups[1..] == rest;
    }
  }

  lemma CleanPathOne(title: string)
    ensures CleanPath([title]) == if OneLine(title) == "" then [] else [OneLine(title)]
  {
    hide OneLine;
    assert [title][1..] == [];
  }

  /** A cleaned path: title by title, those that are not blank, each on one line. */
  lemma {:induction false} CleanPathSnoc(path: seq<string>, title: string)
    ensures CleanPath(path + [title]) == CleanPath(path) + (if OneLine(title) == "" then [] else [OneLine(title)])
  {
    hide OneLine;
    if path == [] {
      assert [] + [title] == [title];
      CleanPathOne(title);
    } else {
      CleanPathSnoc(path[1..], title);
      assert (path + [title])[1..] == path[1..] + [title];
      Assoc(if OneLine(path[0]) == "" then [] else [OneLine(path[0])], CleanPath(path[1..]),
            if OneLine(title) == "" then [] else [OneLine(title)]);
    }
  }
}
