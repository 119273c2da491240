/** The one-line header in front of every chunk, shortened step by step until it fits. */
module HeaderLine {
  import opened Options
  import opened Text

  const SECTION_SEP := " \U{203A} "
  const FIELD_SEP := " \U{00B7} "
  const ELLIPSIS := "\U{2026}"

  /** Whitespace runs become one space: `re.sub(r"\s+", " ", text)`. */
  function Squeeze(text: string): string {
    if text == "" then ""
    else if !IsSpace(text[0]) then [text[0]] + Squeeze(text[1..])
    else if |text| > 1 && IsSpace(text[1]) then Squeeze(text[1..])
    else " " + Squeeze(text[1..])
  }

  function OneLine(text: string): string {
    Strip(Squeeze(text))
  }

  function HeaderCap(maxChars: int): int {
    if maxChars / 4 > 48 then maxChars / 4 else 48
  }

  function MinOf(pages: seq<nat>): (m: nat)
    requires pages != []
    ensures m in pages && forall p :: p in pages ==> m <= p
  {
    if |pages| == 1 then pages[0]
    else
      var m := MinOf(pages[1..]);
      assert forall p :: p in pages <==> p == pages[0] || p in pages[1..];
      if pages[0] < m then pages[0] else m
  }

  function MaxOf(pages: seq<nat>): (m: nat)
    requires pages != []
    ensures m in pages && forall p :: p in pages ==> p <= m
  {
    if |pages| == 1 then pages[0]
    else
      var m := MaxOf(pages[1..]);
      assert forall p :: p in pages <==> p == pages[0] || p in pages[1..];
      if pages[0] > m then pages[0] else m
  }

  function PageLabel(pages: seq<nat>): Option<string> {
    if pages == [] then None
    else
      var lo, hi := MinOf(pages), MaxOf(pages);
      if lo == hi then Some("Page " + Digits(lo)) else Some("Pages " + Digits(lo) + "\U{2013}" + Digits(hi))
  }

  /** At most `limit` characters: the front and the last few, an ellipsis between. */
  function EllipsizeMiddle(text: string, limit: Option<int>): (r: string)
    ensures limit.None? || |text| <= limit.value ==> r == text
    ensures limit.Some? && 0 <= limit.value < |text| ==> |r| == limit.value
  {
    if limit.None? || |text| <= limit.value then text
    else if limit.value <= 1 then if limit.value == 1 then ELLIPSIS else ""
    else
      var keepEnd := if (limit.value - 1) / 3 < 12 then (limit.value - 1) / 3 else 12;
      text[..limit.value - 1 - keepEnd] + ELLIPSIS + text[|text| - keepEnd..]
  }

  /** At most `limit` characters: an ellipsis and the end. */
  function EllipsizeLeft(text: string, limit: Option<int>): (r: string)
    ensures limit.None? || |text| <= limit.value ==> r == text
    ensures limit.Some? && 0 <= limit.value < |text| ==> |r| == limit.value
  {
    if limit.None? || |text| <= limit.value then text
    else if limit.value <= 1 then if limit.value == 1 then ELLIPSIS else ""
    else ELLIPSIS + text[|text| - (limit.value - 1)..]
  }

  function Compose(name: string, section: string, page: Option<string>): (r: string)
    ensures |r| >= 12 && r[0] == '[' && r[|r| - 1] == ']'
  {
    "[" + "Document: " + name
    + (if section == "" then "" else FIELD_SEP + "Section: " + section)
    + (if page.None? || page.value == "" then "" else FIELD_SEP + page.value)
    + "]"
  }

  /** File name limit, section limit (0 drops the section), and whether the page label stays. */
  datatype Step = Step(name: Option<int>, section: Option<int>, page: bool)

  const STEPS: seq<Step> := [
    Step(None, None, true), Step(Some(120), Some(160), true), Step(Some(80), Some(80), true),
    Step(Some(48), Some(40), true), Step(Some(32), Some(0), true), Step(Some(24), Some(0), false)]

  function DisplayName(filename: string): string {
    if OneLine(filename) == "" then "document" else OneLine(filename)
  }

  function StepText(filename: string, section: seq<string>, pages: seq<nat>, k: nat): (r: string)
    requires k < |STEPS|
    ensures |r| >= 12 && r[0] == '[' && r[|r| - 1] == ']'
  {
    var step := STEPS[k];
    Compose(EllipsizeMiddle(DisplayName(filename), step.name),
            if step.section == Some(0) then "" else EllipsizeLeft(Join(section, SECTION_SEP), step.section),
            if step.page then PageLabel(pages) else None)
  }

  function Candidates(filename: string, section: seq<string>, pages: seq<nat>): (texts: seq<string>)
    ensures |texts| == |STEPS|
    ensures HeaderLines(texts)
  {
    seq(|STEPS|, k requires 0 <= k < |STEPS| => StepText(filename, section, pages, k))
  }

  predicate HeaderLines(texts: seq<string>) {
    forall k :: 0 <= k < |texts| ==> IsHeaderLine(texts[k])
  }

  predicate IsHeaderLine(h: string) {
    |h| >= 2 && h[0] == '[' && h[|h| - 1] == ']'
  }

  /** A text that fits no step is cut and closed with a bracket. */
  function CutHard(text: string, limit: int): string
    requires text != ""
  {
    text[..if limit - 1 > 1 then if limit - 1 < |text| then limit - 1 else |text| else 1] + "]"
  }

  /** The first text from `k` on that fits, else the last one cut hard. */
  function PickFrom(texts: seq<string>, limit: int, k: nat): string
    requires k < |texts| && HeaderLines(texts)
    decreases |texts| - k
  {
    if |texts[k]| <= limit then texts[k]
    else if k + 1 < |texts| then PickFrom(texts, limit, k + 1)
    else CutHard(texts[k], limit)
  }

  function Header(filename: string, section: seq<string>, pages: seq<nat>, limit: int): string {
    PickFrom(Candidates(filename, section, pages), limit, 0)
  }

  method HeaderLoop(filename: string, section: seq<string>, pages: seq<nat>, limit: int) returns (header: string)
    ensures header == Header(filename, section, pages, limit)
  {
    var text := "";
    ghost var texts := Candidates(filename, section, pages);
    for k := 0 to |STEPS|
      invariant k > 0 ==> text == texts[k - 1] && |text| > limit
      invariant k < |STEPS| ==> PickFrom(texts, limit, k) == PickFrom(texts, limit, 0)
      invariant k == |STEPS| ==> PickFrom(texts, limit, 0) == CutHard(text, limit)
    {
      text := StepText(filename, section, pages, k);
      if |text| <= limit {
        return text;
      }
    }
    header := CutHard(text, limit);
  }

  /** The mildest shortening that fits: every milder one is too long.  When none fits, the header is
      exactly as long as the limit. */
  predicate MildestFit(texts: seq<string>, limit: int, k: nat, h: string) {
    || (exists m :: k <= m < |texts| && h == texts[m] && |h| <= limit && AllTooLong(texts, limit, k, m))
    || (|h| == limit && AllTooLong(texts, limit, k, |texts|))
  }

  predicate AllTooLong(texts: seq<string>, limit: int, from: nat, to: nat) {
    forall j :: from <= j < to && j < |texts| ==> |texts[j]| > limit
  }

  lemma {:induction false} PickFits(texts: seq<string>, limit: int, k: nat)
    requires limit >= 2 && k < |texts| && HeaderLines(texts)
    ensures var h := PickFrom(texts, limit, k); |h| <= limit && IsHeaderLine(h) && MildestFit(texts, limit, k, h)
    decreases |texts| - k
  {
    if |texts[k]| > limit {
      if k + 1 < |texts| {
        PickFits(texts, limit, k + 1);
      } else {
        assert AllTooLong(texts, limit, k, |texts|);
      }
    } else {
      assert AllTooLong(texts, limit, k, k);
    }
  }

  /** For every limit of two or more: the header fits, is one bracketed text, and is shortened no more
      than needed. */
  lemma HeaderFits(filename: string, section: seq<string>, pages: seq<nat>, limit: int)
    requires limit >= 2
    ensures var h := Header(filename, section, pages, limit);
      |h| <= limit && IsHeaderLine(h) && MildestFit(Candidates(filename, section, pages), limit, 0, h)
  {
    PickFits(Candidates(filename, section, pages), limit, 0);
  }

  // ---- what the header shows -----------------------------------------------------------------------

  /** How the pages of a chunk read: the page, or the first and the last one. */
  ghost predicate PagesShown(pages: seq<nat>, pageText: string) {
    if pages == [] then pageText == ""
    else
      exists first, last :: Spans(pages, first, last) && pageText ==
        (if first == last then "Page " + Digits(first) else "Pages " + Digits(first) + "\U{2013}" + Digits(last))
  }

  predicate Spans(pages: seq<nat>, first: nat, last: nat) {
    first in pages && last in pages && forall p :: p in pages ==> first <= p <= last
  }

  /** What the header reads with the given name, path and page label. */
  function Reading(name: string, path: string, pageText: string): string {
    "[Document: " + name + (if path == "" then "" else " \U{00B7} Section: " + path)
    + (if pageText == "" then "" else " \U{00B7} " + pageText) + "]"
  }

  lemma ComposeReads(name: string, path: string, page: Option<string>)
    ensures Compose(name, path, page) == Reading(name, path, if page.None? then "" else page.value)
  {
    assert "[" + "Document: " == "[Document: ";
    assert FIELD_SEP + "Section: " == " \U{00B7} Section: ";
  }

  lemma PageLabelShown(pages: seq<nat>)
    ensures PageLabel(pages).Some? ==> PagesShown(pages, PageLabel(pages).value)
    ensures PageLabel(pages).None? ==> PagesShown(pages, "")
  {
    hide Digits;
    if pages != [] {
      assert Spans(pages, MinOf(pages), MaxOf(pages));
    }
  }

  /** With room enough nothing is shortened: the header gives the file name, the whole section path and the
      first and last page. */
  lemma FullHeader(filename: string, section: seq<string>, pages: seq<nat>, limit: int) returns (pageText: string)
    ensures PagesShown(pages, pageText)
    ensures var full := Reading(DisplayName(filename), Join(section, " \U{203A} "), pageText);
      |full| <= limit ==> Header(filename, section, pages, limit) == full
  {
    hide Compose;
    hide Reading;
    hide DisplayName;
    hide Join;
    hide PagesShown;
    pageText := if PageLabel(pages).None? then "" else PageLabel(pages).value;
    PageLabelShown(pages);
    ComposeReads(DisplayName(filename), Join(section, SECTION_SEP), PageLabel(pages));
    var texts := Candidates(filename, section, pages);
    assert texts[0] == StepText(filename, section, pages, 0);
  }

  const NAME_SHARES := [120, 80, 48, 32, 24]
  const PATH_SHARES := [160, 80, 40]

  /** The name or the path as shown when it has a share of the header. */
  predicate NameShown(whole: string, share: int, shown: string) {
    if |whole| <= share then shown == whole
    else |shown| == share && exists back :: 0 <= back <= 12 && EndsKept(whole, share, back, shown)
  }

  /** Cut to `share` characters: the front, an ellipsis, and the last `back` characters. */
  predicate EndsKept(whole: string, share: int, back: int, shown: string) {
    && 0 <= back < share <= |whole|
    && shown == whole[..share - 1 - back] + "\U{2026}" + whole[|whole| - back..]
  }

  lemma MiddleKeepsEnds(whole: string, share: int)
    requires share >= 2
    ensures NameShown(whole, share, EllipsizeMiddle(whole, Some(share)))
  {
    if |whole| > share {
      var keep := if (share - 1) / 3 < 12 then (share - 1) / 3 else 12;
      assert EndsKept(whole, share, keep, EllipsizeMiddle(whole, Some(share)));
    }
  }

  predicate PathShown(whole: string, share: int, shown: string) {
    if |whole| <= share then shown == whole
    else share >= 1 && shown == "\U{2026}" + whole[|whole| - (share - 1)..]
  }

  lemma LeftKeepsEnd(whole: string, share: int)
    requires share >= 2
    ensures PathShown(whole, share, EllipsizeLeft(whole, Some(share)))
  {
  }

  /** Every shortening: the page label goes only with the last one; the name and the path are cut only when
      they are over the share of that step, the path from the left, and it is dropped in the last two. */
  lemma StepShows(filename: string, section: seq<string>, pages: seq<nat>, k: nat)
    returns (name: string, path: string, pageText: string)
    requires 0 < k < |STEPS|
    ensures StepText(filename, section, pages, k) == Reading(name, path, if k == 5 then "" else pageText)
    ensures PagesShown(pages, pageText)
    ensures NameShown(DisplayName(filename), NAME_SHARES[k - 1], name)
    ensures if k < 4 then PathShown(Join(section, " \U{203A} "), PATH_SHARES[k - 1], path) else path == ""
  {
    hide Compose;
    hide Reading;
    hide DisplayName;
    hide Join;
    hide PagesShown;
    hide NameShown;
    hide PathShown;
    hide EllipsizeMiddle;
    hide EllipsizeLeft;
    var step := STEPS[k];
    name := EllipsizeMiddle(DisplayName(filename), step.name);
    MiddleKeepsEnds(DisplayName(filename), NAME_SHARES[k - 1]);
    path := if step.section == Some(0) then "" else EllipsizeLeft(Join(section, SECTION_SEP), step.section);
    if k < 4 {
      LeftKeepsEnd(Join(section, SECTION_SEP), PATH_SHARES[k - 1]);
    }
    pageText := if PageLabel(pages).None? then "" else PageLabel(pages).value;
    PageLabelShown(pages);
    ComposeReads(name, path, if step.page then PageLabel(pages) else None);
  }

  // ---- a header is one line -------------------------------------------------------------------------

  lemma {:induction false} SqueezeNoBreak(text: string)
    ensures '\n' !in Squeeze(text)
  {
    if text != "" {
      SqueezeNoBreak(text[1..]);
    }
  }

  lemma OneLineNoBreak(text: string)
    ensures '\n' !in OneLine(text)
  {
    SqueezeNoBreak(text);
    var before, after := StripParts(Squeeze(text));
  }

  lemma {:induction false} JoinNoBreak(parts: seq<string>)
    requires forall i :: 0 <= i < |parts| ==> '\n' !in parts[i]
    ensures '\n' !in Join(parts, SECTION_SEP)
  {
    if |parts| > 1 {
      JoinNoBreak(parts[1..]);
    }
  }

  lemma {:induction false} DigitsNoBreak(n: nat)
    ensures '\n' !in Digits(n)
  {
    if n >= 10 {
      DigitsNoBreak(n / 10);
    }
  }

  lemma PageLabelNoBreak(pages: seq<nat>)
    ensures PageLabel(pages).Some? ==> '\n' !in PageLabel(pages).value
  {
    if pages != [] {
      DigitsNoBreak(MinOf(pages));
      DigitsNoBreak(MaxOf(pages));
    }
  }

  lemma EllipsizeNoBreak(text: string, limit: Option<int>)
    requires '\n' !in text
    ensures '\n' !in EllipsizeMiddle(text, limit) && '\n' !in EllipsizeLeft(text, limit)
  {
  }

  lemma ComposeNoBreak(name: string, path: string, page: Option<string>)
    requires '\n' !in name && '\n' !in path && (page.Some? ==> '\n' !in page.value)
    ensures '\n' !in Compose(name, path, page)
  {
  }

  lemma StepNoBreak(filename: string, section: seq<string>, pages: seq<nat>, k: nat)
    requires k < |STEPS| && forall i :: 0 <= i < |section| ==> '\n' !in section[i]
    ensures '\n' !in StepText(filename, section, pages, k)
  {
    hide PageLabel;
    hide Join;
    hide OneLine;
    hide Compose;
    hide EllipsizeMiddle;
    hide EllipsizeLeft;
    OneLineNoBreak(filename);
    JoinNoBreak(section);
    PageLabelNoBreak(pages);
    var step, name, path := STEPS[k], DisplayName(filename), Join(section, SECTION_SEP);
    EllipsizeNoBreak(name, step.name);
    EllipsizeNoBreak(path, step.section);
    ComposeNoBreak(EllipsizeMiddle(name, step.name), if step.section == Some(0) then "" else EllipsizeLeft(path, step.section),
                   if step.page then PageLabel(pages) else None);
  }

  /** Section titles without a line break, as every cleaned path has, make a header without one. */
  lemma HeaderNoBreak(filename: string, section: seq<string>, pages: seq<nat>, limit: int)
    requires limit >= 2 && forall i :: 0 <= i < |section| ==> '\n' !in section[i]
    ensures '\n' !in Header(filename, section, pages, limit)
  {
    hide StepText;
    var texts := Candidates(filename, section, pages);
    forall k | 0 <= k < |texts|
      ensures '\n' !in texts[k]
    {
      StepNoBreak(filename, section, pages, k);
    }
    PickNoBreak(texts, limit, 0);
  }

  lemma {:induction false} PickNoBreak(texts: seq<string>, limit: int, k: nat)
    requires k < |texts| && HeaderLines(texts) && forall i :: 0 <= i < |texts| ==> '\n' !in texts[i]
    ensures '\n' !in PickFrom(texts, limit, k)
    decreases |texts| - k
  {
    if |texts[k]| > limit && k + 1 < |texts| {
      PickNoBreak(texts, limit, k + 1);
    }
  }
}
