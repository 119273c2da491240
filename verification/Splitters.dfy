/** The three splitters of the chunker.  Each is a loop proved equal to a recursive function, and
    what the chunker relies on is proved about the functions: the pieces fit the limit, and glueing
    them back with their separators gives the words of the input, a word cut in the middle included. */
module Splitters {
  import opened Text

  /** A piece of text and the separator in front of it. */
  datatype Part = Part(text: string, sep: string)

  predicate IsBreak(c: char) {
    c == ' ' || c == '\n' || c == '\t' || c == '\U{00A0}'
  }

  predicate IsEnder(c: char) {
    c == '.' || c == '!' || c == '?' || c == '\U{061F}'
  }

  /** The text the parts stand for, every separator written out. */
  function Glue(parts: seq<Part>): string {
    if parts == [] then "" else parts[0].sep + parts[0].text + Glue(parts[1..])
  }

  /** The same without the first separator. */
  function Body(parts: seq<Part>): string {
    if parts == [] then "" else parts[0].text + Glue(parts[1..])
  }

  /** `parts` with another separator in front of the first one. */
  function Reseparate(parts: seq<Part>, sep: string): seq<Part> {
    if parts == [] then [] else [parts[0].(sep := sep)] + parts[1..]
  }

  predicate FitParts(parts: seq<Part>, limit: nat) {
    forall i :: 0 <= i < |parts| ==> 0 < |parts[i].text| <= limit
  }

  predicate BlankSeps(parts: seq<Part>) {
    forall i :: 0 <= i < |parts| ==> Blank(parts[i].sep)
  }

  /** A first piece in front of the others, in a left context. */
  lemma GlueCons(before: string, head: Part, tail: seq<Part>)
    ensures before + Glue([head] + tail) == before + head.sep + head.text + Glue(tail)
  {
    assert ([head] + tail)[1..] == tail;
  }

  lemma {:induction false} GlueConcat(a: seq<Part>, b: seq<Part>)
    ensures Glue(a + b) == Glue(a) + Glue(b)
  {
    if a == [] {
      assert a + b == b;
    } else {
      GlueConcat(a[1..], b);
      assert (a + b)[1..] == a[1..] + b;
      Assoc(a[0].sep + a[0].text, Glue(a[1..]), Glue(b));
    }
  }

  lemma GlueBody(parts: seq<Part>)
    requires parts != []
    ensures Glue(parts) == parts[0].sep + Body(parts)
  {
    Assoc(parts[0].sep, parts[0].text, Glue(parts[1..]));
  }

  lemma BodyWords(parts: seq<Part>)
    requires BlankSeps(parts)
    ensures Words(Body(parts)) == Words(Glue(parts))
    ensures |Body(parts)| <= |Glue(parts)|
  {
    if parts != [] {
      WordsLeading(parts[0].sep, Body(parts));
      GlueBody(parts);
    }
  }

  lemma ReseparateGlue(parts: seq<Part>, sep: string)
    ensures Body(Reseparate(parts, sep)) == Body(parts)
    ensures parts != [] ==> Glue(Reseparate(parts, sep)) == sep + Body(parts)
  {
    if parts != [] {
      assert Reseparate(parts, sep)[1..] == parts[1..];
      Assoc(sep, parts[0].text, Glue(parts[1..]));
    }
  }

  /** Text poured in after a non-empty blank separator adds exactly its own words. */
  lemma GlueAfter(before: string, parts: seq<Part>, text: string)
    requires BlankSeps(parts) && Words(Body(parts)) == Words(text)
    requires parts != [] ==> parts[0].sep != ""
    ensures Words(before + Glue(parts)) == Words(before) + Words(text)
  {
    if parts == [] {
      assert before + Glue(parts) == before;
    } else {
      WordsCut(before, parts[0].sep, Body(parts));
      GlueBody(parts);
      Assoc(before, parts[0].sep, Body(parts));
    }
  }

  // ---- hard split ------------------------------------------------------------------------------

  /** The last index of a break character, or -1. */
  function LastBreak(w: string): (cut: int)
    ensures -1 <= cut < |w|
    ensures cut >= 0 ==> IsBreak(w[cut])
    ensures forall k :: cut < k < |w| ==> !IsBreak(w[k])
  {
    if w == "" then -1 else if IsBreak(w[|w| - 1]) then |w| - 1 else LastBreak(w[..|w| - 1])
  }

  function BreakSep(c: char): (sep: string)
    ensures sep != "" && Blank(sep)
    ensures |sep| == 1
  {
    if c == '\n' then "\n" else " "
  }

  function HardSplitFrom(text: string, limit: nat, sep: string): seq<Part>
    requires limit >= 1
    decreases |text|
  {
    if |text| <= limit then
      if text == "" then [] else [Part(text, sep)]
    else
      var cut := LastBreak(text[..limit + 1]);
      if cut >= limit / 2 then
        assert IsSpace(text[cut..][0]);
        var head := RStrip(text[..cut]);
        var rest := HardSplitFrom(LStrip(text[cut..]), limit, BreakSep(text[cut]));
        if head == "" then rest else [Part(head, sep)] + rest
      else
        [Part(text[..limit], sep)] + HardSplitFrom(text[limit..], limit, "")
  }

  function HardSplit(text: string, limit: int): seq<Part> {
    HardSplitFrom(text, if limit < 1 then 1 else limit, "")
  }

  /** Empty heads are filtered out at the end, as the program does. */
  function NonEmpty(parts: seq<Part>): seq<Part> {
    if parts == [] then []
    else NonEmpty(parts[..|parts| - 1]) + (if parts[|parts| - 1].text == "" then [] else [parts[|parts| - 1]])
  }

  lemma NonEmptySnoc(all: seq<Part>, part: Part)
    ensures NonEmpty(all + [part]) == NonEmpty(all) + (if part.text == "" then [] else [part])
  {
    assert (all + [part])[..|all|] == all;
  }

  /** One more piece cut off: the loop's list and the function's list agree. */
  lemma NonEmptyStep(all: seq<Part>, piece: Part, rest: seq<Part>)
    ensures NonEmpty(all + [piece]) + rest
         == NonEmpty(all) + (if piece.text == "" then rest else [piece] + rest)
  {
    NonEmptySnoc(all, piece);
    if piece.text == "" {
      assert NonEmpty(all) + [] == NonEmpty(all);
    } else {
      Assoc(NonEmpty(all), [piece], rest);
    }
  }

  lemma HardSplitRound(all: seq<Part>, text: string, limit: nat, sep: string)
    requires |text| > limit >= 1
    ensures var cut := LastBreak(text[..limit + 1]);
            if cut >= limit / 2 then
              && IsSpace(text[cut..][0])
              && NonEmpty(all) + HardSplitFrom(text, limit, sep)
                 == NonEmpty(all + [Part(RStrip(text[..cut]), sep)])
                    + HardSplitFrom(LStrip(text[cut..]), limit, BreakSep(text[cut]))
            else
              NonEmpty(all) + HardSplitFrom(text, limit, sep)
              == NonEmpty(all + [Part(text[..limit], sep)]) + HardSplitFrom(text[limit..], limit, "")
  {
    var cut := LastBreak(text[..limit + 1]);
    if cut >= limit / 2 {
      assert IsSpace(text[cut..][0]);
      NonEmptyStep(all, Part(RStrip(text[..cut]), sep),
                   HardSplitFrom(LStrip(text[cut..]), limit, BreakSep(text[cut])));
    } else {
      NonEmptyStep(all, Part(text[..limit], sep), HardSplitFrom(text[limit..], limit, ""));
    }
  }

  method HardSplitLoop(text: string, limit: int) returns (parts: seq<Part>)
    ensures parts == HardSplit(text, limit)
  {
    var lim := if limit < 1 then 1 else limit;
    var rest, sep, all := text, "", [];
    while |rest| > lim
      invariant NonEmpty(all) + HardSplitFrom(rest, lim, sep) == HardSplit(text, limit)
      decreases |rest|
    {
      HardSplitRound(all, rest, lim, sep);
      var cut := LastBreak(rest[..lim + 1]);
      if cut >= lim / 2 {
        all := all + [Part(RStrip(rest[..cut]), sep)];
        sep := BreakSep(rest[cut]);
        rest := LStrip(rest[cut..]);
      } else {
        all := all + [Part(rest[..lim], sep)];
        sep := "";
        rest := rest[lim..];
      }
    }
    if rest != "" {
      NonEmptySnoc(all, Part(rest, sep));
      all := all + [Part(rest, sep)];
    }
    parts := NonEmpty(all);
  }

  /** Where the first cut falls: at the last break from half the limit up to the limit, with the whitespace around it
      dropped; without one there, at the limit. */
  lemma HardSplitCut(text: string, limit: nat, sep: string, cut: nat)
    requires |text| > limit >= 1
    requires forall k :: cut < k <= limit ==> !IsBreak(text[k])
    ensures limit / 2 <= cut <= limit && IsBreak(text[cut]) ==>
      var rest := HardSplitFrom(LStrip(text[cut..]), limit, if text[cut] == '\n' then "\n" else " ");
      HardSplitFrom(text, limit, sep) == if RStrip(text[..cut]) == "" then rest else [Part(RStrip(text[..cut]), sep)] + rest
    ensures cut < limit / 2 ==>
      HardSplitFrom(text, limit, sep) == [Part(text[..limit], sep)] + HardSplitFrom(text[limit..], limit, "")
  {
    hide IsSpace;
    hide IsBreak;
    var window := text[..limit + 1];
    assert forall k :: 0 <= k <= limit ==> window[k] == text[k];
    if limit / 2 <= cut <= limit && IsBreak(text[cut]) {
      assert IsBreak(window[cut]);
      assert LastBreak(window) == cut;
    } else if cut < limit / 2 {
      assert LastBreak(window) < limit / 2;
    }
  }

  /** Every separator after the first is at most one character. */
  predicate ShortSeps(parts: seq<Part>) {
    forall i :: 0 < i < |parts| ==> |parts[i].sep| <= 1
  }

  /** Every piece fits the limit, no piece is empty, every separator is blank. */
  lemma {:induction false} HardSplitFits(text: string, limit: nat, sep: string)
    requires limit >= 1 && Blank(sep)
    ensures FitParts(HardSplitFrom(text, limit, sep), limit)
    ensures BlankSeps(HardSplitFrom(text, limit, sep)) && ShortSeps(HardSplitFrom(text, limit, sep))
    ensures |sep| <= 1 && HardSplitFrom(text, limit, sep) != [] ==> |HardSplitFrom(text, limit, sep)[0].sep| <= 1
    decreases |text|
  {
    if |text| > limit {
      var cut := LastBreak(text[..limit + 1]);
      if cut >= limit / 2 {
        assert IsSpace(text[cut..][0]);
        HardSplitFits(LStrip(text[cut..]), limit, BreakSep(text[cut]));
      } else {
        HardSplitFits(text[limit..], limit, "");
      }
    }
  }

  /** In any left context, the glued pieces read like the separator and the text. */
  lemma {:induction false} HardSplitWords(before: string, text: string, limit: nat, sep: string)
    requires limit >= 1 && Blank(sep)
    ensures Words(before + Glue(HardSplitFrom(text, limit, sep))) == Words(before + sep + text)
    decreases |text|
  {
    if text == "" {
      WordsTrailing(before, sep);
      assert before + sep + text == before + sep;
      assert before + Glue([]) == before;
    } else if |text| <= limit {
      GlueCons(before, Part(text, sep), []);
      assert before + sep + text + Glue([]) == before + sep + text;
    } else {
      var cut := LastBreak(text[..limit + 1]);
      if cut >= limit / 2 {
        HardSplitWordsCut(before, text, cut, sep);
        var head := RStrip(text[..cut]);
        var rest := LStrip(text[cut..]);
        assert IsSpace(text[cut..][0]);
        if head == "" {
          HardSplitWords(before, rest, limit, BreakSep(text[cut]));
        } else {
          HardSplitWords(before + sep + head, rest, limit, BreakSep(text[cut]));
          GlueCons(before, Part(head, sep), HardSplitFrom(rest, limit, BreakSep(text[cut])));
        }
      } else {
        HardSplitWords(before + sep + text[..limit], text[limit..], limit, "");
        GlueCons(before, Part(text[..limit], sep), HardSplitFrom(text[limit..], limit, ""));
        assert before + sep + text[..limit] + "" + text[limit..] == before + sep + text;
      }
    }
  }

  /** What trimming around a cut at whitespace takes away is blank. */
  lemma CutGap(text: string, cut: nat) returns (gap: string)
    requires cut < |text| && IsBreak(text[cut])
    ensures gap != "" && Blank(gap) && text == RStrip(text[..cut]) + gap + LStrip(text[cut..])
  {
    var head, t := RStrip(text[..cut]), text[cut..];
    var before, lead := text[..cut][|head|..], t[..SkipSpace(t, 0)];
    assert IsSpace(t[0]);
    assert lead != "" && lead + LStrip(t) == t;
    gap := before + lead;
    BlankParts(before, lead);
    assert text == head + before + lead + LStrip(t);
    Assoc(head, before, lead);
  }

  lemma Regroup(a: string, b: string, c: string, d: string, e: string)
    ensures a + b + (c + d + e) == a + b + c + d + e
  {
  }

  /** A cut at whitespace: trimming around it and writing one separator keeps the words. */
  lemma HardSplitWordsCut(before: string, text: string, cut: nat, sep: string)
    requires cut < |text| && IsBreak(text[cut]) && Blank(sep)
    ensures var head := RStrip(text[..cut]); var rest := LStrip(text[cut..]);
            Words(before + sep + text)
            == Words(if head == "" then before + BreakSep(text[cut]) + rest
                     else before + sep + head + BreakSep(text[cut]) + rest)
  {
    var gap := CutGap(text, cut);
    var head, rest, mark := RStrip(text[..cut]), LStrip(text[cut..]), BreakSep(text[cut]);
    Regroup(before, sep, head, gap, rest);
    assert mark != "" && Blank(mark);
    SameCut(before, sep, head, gap, mark, rest);
  }

  lemma SameCut(before: string, sep: string, head: string, gap: string, mark: string, rest: string)
    requires Blank(sep) && gap != "" && Blank(gap) && mark != "" && Blank(mark)
    ensures Words(before + sep + head + gap + rest)
            == Words(if head == "" then before + mark + rest else before + sep + head + mark + rest)
  {
    hide Words;
    hide Blank;
    WordsCut(before + sep + head, gap, rest);
    if head == "" {
      assert before + sep + head == before + sep;
      WordsTrailing(before, sep);
      WordsCut(before, mark, rest);
    } else {
      WordsCut(before + sep + head, mark, rest);
    }
  }

  /** Pieces and separators together are never longer than the text: a cut at whitespace pays for
      the separator it writes. */
  lemma {:induction false} HardSplitLength(text: string, limit: nat, sep: string)
    requires limit >= 1
    ensures |Glue(HardSplitFrom(text, limit, sep))| <= |sep| + |text|
    decreases |text|
  {
    if |text| > limit {
      var cut := LastBreak(text[..limit + 1]);
      if cut >= limit / 2 {
        assert IsSpace(text[cut..][0]);
        var rest := LStrip(text[cut..]);
        assert |rest| < |text[cut..]|;
        HardSplitLength(rest, limit, BreakSep(text[cut]));
      } else {
        HardSplitLength(text[limit..], limit, "");
      }
    } else if text != "" {
      assert Glue([Part(text, sep)]) == sep + text + Glue([]);
    }
  }

  predicate NoBreakFrom(s: string, from: nat) {
    forall k :: from <= k < |s| ==> !IsBreak(s[k])
  }

  /** A word is cut in the middle only when it has to be: the piece in front of an empty separator is
      as long as the limit and holds no break in its second half. */
  predicate CutsForced(parts: seq<Part>, limit: nat) {
    forall i :: 0 < i < |parts| && parts[i].sep == "" ==>
      |parts[i - 1].text| == limit && NoBreakFrom(parts[i - 1].text, limit / 2)
  }

  lemma {:induction false} HardCutForced(text: string, limit: nat, sep: string)
    requires limit >= 1
    ensures sep != "" && HardSplitFrom(text, limit, sep) != [] ==> HardSplitFrom(text, limit, sep)[0].sep != ""
    ensures CutsForced(HardSplitFrom(text, limit, sep), limit)
    decreases |text|
  {
    if |text| > limit {
      var cut := LastBreak(text[..limit + 1]);
      if cut >= limit / 2 {
        assert IsSpace(text[cut..][0]);
        var rest := HardSplitFrom(LStrip(text[cut..]), limit, BreakSep(text[cut]));
        HardCutForced(LStrip(text[cut..]), limit, BreakSep(text[cut]));
        CutsForcedCons(Part(RStrip(text[..cut]), sep), rest, limit);
      } else {
        HardCutForced(text[limit..], limit, "");
        NoBreakPrefix(text, limit, cut);
        CutsForcedCons(Part(text[..limit], sep), HardSplitFrom(text[limit..], limit, ""), limit);
      }
    }
  }

  lemma NoBreakPrefix(text: string, limit: nat, cut: int)
    requires |text| > limit && cut == LastBreak(text[..limit + 1]) && cut < limit / 2
    ensures NoBreakFrom(text[..limit], limit / 2)
  {
    forall k | limit / 2 <= k < limit ensures !IsBreak(text[..limit][k]) {
      assert text[..limit + 1][k] == text[k];
    }
  }

  lemma CutsForcedCons(head: Part, rest: seq<Part>, limit: nat)
    requires CutsForced(rest, limit)
    requires rest != [] && rest[0].sep == "" ==> |head.text| == limit && NoBreakFrom(head.text, limit / 2)
    ensures CutsForced([head] + rest, limit)
  {
    forall i | 0 < i < |rest| + 1 && ([head] + rest)[i].sep == ""
      ensures |([head] + rest)[i - 1].text| == limit && NoBreakFrom(([head] + rest)[i - 1].text, limit / 2)
    {
      if i > 1 {
        assert ([head] + rest)[i] == rest[i - 1] && ([head] + rest)[i - 1] == rest[i - 2];
      }
    }
  }

  // ---- sentences -------------------------------------------------------------------------------

  function SkipGap(text: string, i: nat): (j: nat)
    requires i <= |text|
    ensures i <= j <= |text|
    ensures forall k :: i <= k < j ==> IsGap(text[k])
    ensures j < |text| ==> !IsGap(text[j])
    decreases |text| - i
  {
    if i < |text| && IsGap(text[i]) then SkipGap(text, i + 1) else i
  }

  /** The end of the sentence break that starts at `i`, or -1: blanks after a sentence end, else any
      whitespace with a line break in it. */
  function BreakEnd(text: string, i: nat): (end: int)
    requires i <= |text|
    ensures end == -1 || (i < end <= |text| && Blank(text[i..end]))
  {
    var j := SkipGap(text, i);
    if i > 0 && IsEnder(text[i - 1]) && j > i then j
    else if j < |text| && text[j] == '\n' then SkipSpace(text, j + 1)
    else -1
  }

  function BreakText(gap: string): (sep: string)
    ensures sep != "" && Blank(sep)
  {
    if '\n' in gap then "\n" else " "
  }

  /** The sentence `text[start..pos]`, if anything of it is left after stripping. */
  function Sentence(piece: string, sep: string): seq<Part> {
    if Strip(piece) == "" then [] else [Part(Strip(piece), sep)]
  }

  function SentencesFrom(text: string, start: nat, pos: nat, sep: string): seq<Part>
    requires start <= pos <= |text|
    decreases |text| - pos
  {
    if pos == |text| then Sentence(text[start..], sep)
    else
      var end := BreakEnd(text, pos);
      if end < 0 then SentencesFrom(text, start, pos + 1, sep)
      else Sentence(text[start..pos], sep) + SentencesFrom(text, end, end, BreakText(text[pos..end]))
  }

  /** A sentence as it is, or hard-split when it is longer than the limit. */
  function FitSentence(sentence: Part, limit: int): seq<Part> {
    if |sentence.text| <= limit then [sentence]
    else Reseparate(HardSplit(sentence.text, limit), sentence.sep)
  }

  function FitSentences(sentences: seq<Part>, limit: int): seq<Part> {
    if sentences == [] then []
    else FitSentences(sentences[..|sentences| - 1], limit) + FitSentence(sentences[|sentences| - 1], limit)
  }

  function SentencePieces(text: string, limit: int): seq<Part> {
    FitSentences(SentencesFrom(text, 0, 0, ""), limit)
  }

  /** One sentence break found: what the loop has collected, and what is left. */
  lemma SentenceRound(done: seq<Part>, text: string, start: nat, pos: nat, end: int, sep: string)
    requires start <= pos < |text| && end == BreakEnd(text, pos) && end > 0
    ensures done + SentencesFrom(text, start, pos, sep)
         == AddSentence(done, text[start..pos], sep) + SentencesFrom(text, end, end, BreakText(text[pos..end]))
  {
    Assoc(done, Sentence(text[start..pos], sep), SentencesFrom(text, end, end, BreakText(text[pos..end])));
  }

  function AddSentence(done: seq<Part>, piece: string, sep: string): (r: seq<Part>)
    ensures r == done + Sentence(piece, sep)
  {
    if Strip(piece) != "" then done + [Part(Strip(piece), sep)] else done
  }

  method SentencePiecesLoop(text: string, limit: int) returns (pieces: seq<Part>)
    ensures pieces == SentencePieces(text, limit)
  {
    var sentences, start, sep, pos := [], 0, "", 0;
    while pos < |text|
      invariant start <= pos <= |text|
      invariant sentences + SentencesFrom(text, start, pos, sep) == SentencesFrom(text, 0, 0, "")
      decreases |text| - pos
    {
      var end := BreakEnd(text, pos);
      if end < 0 {
        pos := pos + 1;
      } else {
        SentenceRound(sentences, text, start, pos, end, sep);
        sentences := AddSentence(sentences, text[start..pos], sep);
        sep := BreakText(text[pos..end]);
        start, pos := end, end;
      }
    }
    sentences := AddSentence(sentences, text[start..], sep);
    pieces := FitSentencesLoop(sentences, limit);
  }

  method FitSentencesLoop(sentences: seq<Part>, limit: int) returns (pieces: seq<Part>)
    ensures pieces == FitSentences(sentences, limit)
  {
    pieces := [];
    for k := 0 to |sentences|
      invariant pieces == FitSentences(sentences[..k], limit)
    {
      assert sentences[..k + 1][..k] == sentences[..k];
      if |sentences[k].text| <= limit {
        pieces := pieces + [sentences[k]];
      } else {
        var parts := HardSplitLoop(sentences[k].text, limit);
        pieces := pieces + Reseparate(parts, sentences[k].sep);
      }
    }
    assert sentences[..|sentences|] == sentences;
  }

  /** No piece is empty, and every separator but the first is a non-empty blank. */
  predicate Separated(parts: seq<Part>) {
    forall i :: 0 <= i < |parts| ==> parts[i].text != "" && Blank(parts[i].sep) && (i > 0 ==> parts[i].sep != "")
  }

  lemma SentenceOne(piece: string, sep: string)
    requires Blank(sep)
    ensures Words(Glue(Sentence(piece, sep))) == Words(piece)
    ensures Separated(Sentence(piece, sep))
    ensures sep != "" && Sentence(piece, sep) != [] ==> Sentence(piece, sep)[0].sep != ""
  {
    WordsStrip(piece);
    if Strip(piece) != "" {
      WordsLeading(sep, Strip(piece));
      assert Glue([Part(Strip(piece), sep)]) == sep + Strip(piece);
    } else {
      BlankWords(piece);
      BlankWords("");
    }
  }

  lemma {:induction false} SentencesWords(text: string, start: nat, pos: nat, sep: string)
    requires start <= pos <= |text| && Blank(sep)
    ensures Separated(SentencesFrom(text, start, pos, sep))
    ensures var ps := SentencesFrom(text, start, pos, sep); sep != "" && ps != [] ==> ps[0].sep != ""
    ensures Words(Glue(SentencesFrom(text, start, pos, sep))) == Words(text[start..])
    decreases |text| - pos
  {
    if pos == |text| {
      SentenceOne(text[start..], sep);
    } else {
      var end := BreakEnd(text, pos);
      if end < 0 {
        SentencesWords(text, start, pos + 1, sep);
      } else {
        var gap := text[pos..end];
        SentenceOne(text[start..pos], sep);
        SentencesWords(text, end, end, BreakText(gap));
        SeparatedJoin(Sentence(text[start..pos], sep), SentencesFrom(text, end, end, BreakText(gap)));
        WordsAround(text, start, pos, end);
      }
    }
  }

  /** Two separated lists, the second with a separator in front of it. */
  lemma SeparatedJoin(a: seq<Part>, b: seq<Part>)
    requires Separated(a) && Separated(b)
    requires b != [] ==> b[0].sep != ""
    ensures Separated(a + b)
    ensures Words(Glue(a + b)) == Words(Glue(a)) + Words(Glue(b))
  {
    FitJoin(a, b);
  }

  lemma {:induction false} FitSentencesWords(sentences: seq<Part>, limit: nat)
    requires Separated(sentences) && limit >= 1
    ensures var ps := FitSentences(sentences, limit);
      FitParts(ps, limit) && BlankSeps(ps) && Words(Glue(ps)) == Words(Glue(sentences))
  {
    hide Words;
    hide Glue;
    hide FitSentence;
    hide Blank;
    if sentences != [] {
      var n := |sentences| - 1;
      var last := sentences[n];
      FitSentencesWords(sentences[..n], limit);
      assert sentences == sentences[..n] + [last];
      FitSentencesSnoc(sentences[..n], last, limit);
    }
  }

  lemma FitSentencesSnoc(front: seq<Part>, last: Part, limit: nat)
    requires Separated(front + [last]) && limit >= 1
    requires Words(Glue(FitSentences(front, limit))) == Words(Glue(front))
    ensures var fit := FitSentence(last, limit);
      && FitParts(fit, limit) && BlankSeps(fit)
      && Words(Glue(FitSentences(front, limit) + fit)) == Words(Glue(front + [last]))
  {
    var fit := FitSentence(last, limit);
    assert (front + [last])[|front|] == last;
    FitSentenceWords(last, limit);
    if front != [] {
      FitJoin(FitSentences(front, limit), fit);
      FitJoin(front, [last]);
    } else {
      assert front + [last] == [last];
      assert [] + fit == fit;
    }
  }

  lemma FitJoin(a: seq<Part>, b: seq<Part>)
    requires b != [] ==> b[0].sep != "" && Blank(b[0].sep)
    ensures Words(Glue(a + b)) == Words(Glue(a)) + Words(Glue(b))
  {
    GlueConcat(a, b);
    if b == [] {
      assert Glue(a) + Glue(b) == Glue(a);
    } else {
      GlueBody(b);
      Assoc(Glue(a), b[0].sep, Body(b));
      WordsCut(Glue(a), b[0].sep, Body(b));
      WordsLeading(b[0].sep, Body(b));
    }
  }

  lemma FitSentenceWords(sentence: Part, limit: nat)
    requires Blank(sentence.sep) && sentence.text != "" && limit >= 1
    ensures var ps := FitSentence(sentence, limit);
      && FitParts(ps, limit) && BlankSeps(ps)
      && Words(Body(ps)) == Words(sentence.text) && Words(Glue(ps)) == Words(Glue([sentence]))
      && (ps != [] ==> ps[0].sep == sentence.sep)
  {
    WordsLeading(sentence.sep, sentence.text);
    assert Glue([sentence]) == sentence.sep + sentence.text;
    if |sentence.text| <= limit {
      assert Body([sentence]) == sentence.text;
    } else {
      HardSplitWhole(sentence.text, limit);
      var ps := HardSplit(sentence.text, limit);
      ReseparateGlue(ps, sentence.sep);
      if ps != [] {
        WordsLeading(sentence.sep, Body(ps));
      } else {
        BlankWords(sentence.text);
      }
    }
  }

  /** `_hard_split` on any text: the pieces fit, their separators are blank, the glued pieces have the
      words of the text and are no longer than it. */
  lemma HardSplitWhole(text: string, limit: nat)
    requires limit >= 1
    ensures var ps := HardSplit(text, limit);
      && FitParts(ps, limit) && BlankSeps(ps) && ShortSeps(ps) && CutsForced(ps, limit)
      && Words(Body(ps)) == Words(text) && |Body(ps)| <= |text|
  {
    var ps := HardSplit(text, limit);
    HardSplitFits(text, limit, "");
    HardSplitWords("", text, limit, "");
    HardSplitLength(text, limit, "");
    HardCutForced(text, limit, "");
    BodyWords(ps);
    assert "" + Glue(ps) == Glue(ps);
    assert "" + "" + text == text;
  }

  /** `_sentence_pieces` on any text. */
  lemma SentencePiecesWhole(text: string, limit: nat)
    requires limit >= 1
    ensures var ps := SentencePieces(text, limit);
      FitParts(ps, limit) && BlankSeps(ps) && Words(Body(ps)) == Words(text)
  {
    var sentences := SentencesFrom(text, 0, 0, "");
    SentencesWords(text, 0, 0, "");
    FitSentencesWords(sentences, limit);
    BodyWords(SentencePieces(text, limit));
    assert text[0..] == text;
  }

  /** Nothing inside the text ends a sentence: no line break, and no sentence end with a blank behind it. */
  predicate OneSentence(t: string) {
    '\n' !in t && forall k :: 0 < k < |t| ==> !(IsEnder(t[k - 1]) && IsGap(t[k]))
  }

  predicate EndsSentence(t: string) {
    t != "" && IsEnder(t[|t| - 1])
  }

  /** The sentences of a text: none holds a break, and between two of them there is one, a line break or the end of
      the first one. */
  predicate AreSentences(ss: seq<Part>) {
    && (forall i :: 0 <= i < |ss| ==> OneSentence(ss[i].text))
    && (forall i :: 0 < i < |ss| ==> ss[i].sep == "\n" || (ss[i].sep == " " && EndsSentence(ss[i - 1].text)))
  }

  predicate NoBreakEnds(text: string, start: nat, pos: nat)
    requires start <= pos <= |text|
  {
    forall p :: start <= p < pos ==> BreakEnd(text, p) < 0
  }

  lemma UnbrokenPiece(text: string, start: nat, pos: nat)
    requires start <= pos <= |text| && NoBreakEnds(text, start, pos)
    ensures OneSentence(Strip(text[start..pos]))
  {
    hide IsSpace;
    hide BreakEnd;
    hide IsEnder;
    hide IsGap;
    hide Strip;
    var t := text[start..pos];
    forall k | 0 <= k < |t|
      ensures t[k] != '\n' && (k > 0 ==> !(IsEnder(t[k - 1]) && IsGap(t[k])))
    {
      assert t[k] == text[start + k];
      assert k > 0 ==> t[k - 1] == text[start + k - 1];
      assert BreakEnd(text, start + k) < 0;
      BreakHere(text, start + k);
    }
    var before, after := StripParts(t);
    PartOfSentence(before, Strip(t), after);
  }

  lemma PartOfSentence(before: string, part: string, after: string)
    requires OneSentence(before + part + after)
    ensures OneSentence(part)
  {
    var t := before + part + after;
    forall k | 0 <= k < |part|
      ensures part[k] != '\n' && (k > 0 ==> !(IsEnder(part[k - 1]) && IsGap(part[k])))
    {
      assert t[|before| + k] == part[k];
      assert k > 0 ==> t[|before| + k - 1] == part[k - 1];
    }
  }

  /** Where a line break stands, or a blank after a sentence end, there is a break. */
  lemma BreakHere(text: string, i: nat)
    requires i < |text|
    ensures text[i] == '\n' || (i > 0 && IsEnder(text[i - 1]) && IsGap(text[i])) ==> BreakEnd(text, i) > 0
  {
    if IsGap(text[i]) {
      assert SkipGap(text, i) == SkipGap(text, i + 1);
    } else {
      assert SkipGap(text, i) == i;
    }
  }

  lemma EnderIsText(c: char)
    requires IsEnder(c)
    ensures !IsSpace(c)
  {
  }

  /** What precedes a break that is no line break is the end of a sentence. */
  lemma BreakAfterEnd(text: string, start: nat, pos: nat)
    requires start <= pos < |text| && BreakEnd(text, pos) > 0 && (start == 0 || IsSpace(text[start - 1]))
    ensures BreakText(text[pos..BreakEnd(text, pos)]) == " " ==>
      Strip(text[start..pos]) != "" && EndsSentence(Strip(text[start..pos]))
  {
    hide SkipSpace;
    hide IsSpace;
    var end, j := BreakEnd(text, pos), SkipGap(text, pos);
    if pos > 0 && IsEnder(text[pos - 1]) && j > pos {
      EnderIsText(text[pos - 1]);
      assert text[start..pos][|text[start..pos]| - 1] == text[pos - 1];
      LastStays(text[start..pos]);
    } else {
      assert text[pos..end][j - pos] == '\n';
    }
  }

  lemma LastStays(t: string)
    requires t != "" && !IsSpace(t[|t| - 1])
    ensures Strip(t) != "" && Strip(t)[|Strip(t)| - 1] == t[|t| - 1]
  {
    hide IsSpace;
    var k := SkipSpace(t, 0);
    var l := t[k..];
    assert k < |t|;
    assert l[|l| - 1] == t[|t| - 1];
    assert SkipSpaceBack(l, |l|) == |l|;
  }

  lemma SentencesJoin(a: seq<Part>, b: seq<Part>)
    requires |a| <= 1 && AreSentences(a) && AreSentences(b)
    requires a != [] && b != [] ==> b[0].sep == "\n" || (b[0].sep == " " && EndsSentence(a[0].text))
    ensures AreSentences(a + b)
  {
    hide OneSentence;
    hide EndsSentence;
    var all := a + b;
    forall i | 0 <= i < |all|
      ensures OneSentence(all[i].text)
      ensures i > 0 ==> all[i].sep == "\n" || (all[i].sep == " " && EndsSentence(all[i - 1].text))
    {
      if i >= |a| {
        assert all[i] == b[i - |a|];
        assert i > |a| ==> all[i - 1] == b[i - |a| - 1];
      }
    }
  }

  lemma SentenceAlone(text: string, start: nat, pos: nat, sep: string)
    requires start <= pos <= |text| && NoBreakEnds(text, start, pos)
    ensures |Sentence(text[start..pos], sep)| <= 1 && AreSentences(Sentence(text[start..pos], sep))
  {
    UnbrokenPiece(text, start, pos);
  }

  lemma {:induction false} SentencesBroken(text: string, start: nat, pos: nat, sep: string)
    requires start <= pos <= |text| && NoBreakEnds(text, start, pos) && (start == 0 || IsSpace(text[start - 1]))
    ensures var ss := SentencesFrom(text, start, pos, sep);
      AreSentences(ss) && (ss != [] ==> ss[0].sep == sep || ss[0].sep == "\n")
    decreases |text| - pos
  {
    hide IsSpace;
    hide AreSentences;
    hide Strip;
    if pos == |text| {
      assert text[start..pos] == text[start..];
      SentenceAlone(text, start, pos, sep);
    } else {
      var end := BreakEnd(text, pos);
      if end < 0 {
        SentencesBroken(text, start, pos + 1, sep);
      } else {
        assert text[pos..end][end - 1 - pos] == text[end - 1];
        var mark := BreakText(text[pos..end]);
        SentencesBroken(text, end, end, mark);
        SentenceAlone(text, start, pos, sep);
        BreakAfterEnd(text, start, pos);
        SentencesJoin(Sentence(text[start..pos], sep), SentencesFrom(text, end, end, mark));
      }
    }
  }

  /** The pieces of one sentence: itself when it fits; else cut, in words only where it must be. */
  predicate SentenceCut(sentence: Part, limit: nat, pieces: seq<Part>) {
    if |sentence.text| <= limit then pieces == [sentence]
    else
      && FitParts(pieces, limit) && CutsForced(pieces, limit) && Words(Body(pieces)) == Words(sentence.text)
      && (pieces != [] ==> pieces[0].sep == sentence.sep)
  }

  predicate SentencesCut(sentences: seq<Part>, limit: nat, groups: seq<seq<Part>>) {
    |groups| == |sentences| && forall i :: 0 <= i < |groups| ==> SentenceCut(sentences[i], limit, groups[i])
  }

  lemma {:induction false} FitSentencesGroups(sentences: seq<Part>, limit: nat) returns (groups: seq<seq<Part>>)
    requires limit >= 1 && Separated(sentences)
    ensures FitSentences(sentences, limit) == Flat(groups) && SentencesCut(sentences, limit, groups)
  {
    hide SentenceCut;
    hide FitSentence;
    hide Blank;
    if sentences == [] {
      groups := [];
    } else {
      var n := |sentences| - 1;
      var front := FitSentencesGroups(sentences[..n], limit);
      var last := FitSentence(sentences[n], limit);
      OneSentenceCut(sentences[n], limit);
      FlatConcat(front, [last]);
      assert Flat([last]) == last by {
        assert [last][1..] == [] && last + [] == last;
      }
      groups := front + [last];
      assert sentences[..n] + [sentences[n]] == sentences;
    }
  }

  lemma OneSentenceCut(sentence: Part, limit: nat)
    requires limit >= 1 && sentence.text != "" && Blank(sentence.sep)
    ensures SentenceCut(sentence, limit, FitSentence(sentence, limit))
  {
    hide Words;
    hide HardSplit;
    if |sentence.text| > limit {
      FitSentenceWords(sentence, limit);
      HardSplitWhole(sentence.text, limit);
      var parts, ps := HardSplit(sentence.text, limit), FitSentence(sentence, limit);
      assert forall i :: 0 < i < |ps| ==> ps[i] == parts[i];
      assert ps != [] ==> ps[0].text == parts[0].text;
    }
  }

  /** The pieces of a text, sentence by sentence: a sentence that fits is a piece of its own, none holds a break, and
      between two sentences there is one. */
  lemma SentencePiecesExactly(text: string, limit: nat) returns (sentences: seq<Part>, groups: seq<seq<Part>>)
    requires limit >= 1
    ensures SentencePieces(text, limit) == Flat(groups)
    ensures AreSentences(sentences) && SentencesCut(sentences, limit, groups)
  {
    hide AreSentences;
    hide SentencesCut;
    sentences := SentencesFrom(text, 0, 0, "");
    SentencesWords(text, 0, 0, "");
    SentencesBroken(text, 0, 0, "");
    groups := FitSentencesGroups(sentences, limit);
  }

  // ---- table lines -----------------------------------------------------------------------------

  /** `text.split("\n")`. */
  function Lines(text: string): (lines: seq<string>)
    ensures lines != []
  {
    if text == "" then [""]
    else
      var rest := Lines(text[1..]);
      if text[0] == '\n' then [""] + rest else [[text[0]] + rest[0]] + rest[1..]
  }

  function Pack(buf: string): seq<Part> {
    if buf == "" then [] else [Part(buf, "\n")]
  }

  /** The groups still to come, with `buf` the group being filled. */
  function GroupsFrom(lines: seq<string>, limit: int, buf: string): seq<Part>
    decreases |lines|
  {
    if lines == [] then Pack(buf)
    else
      var line := RStrip(lines[0]);
      if Strip(line) == "" then GroupsFrom(lines[1..], limit, buf)
      else if |line| > limit then
        Pack(buf) + Reseparate(HardSplit(line, limit), "\n") + GroupsFrom(lines[1..], limit, "")
      else if buf != "" && |buf| + 1 + |line| > limit then
        Pack(buf) + GroupsFrom(lines[1..], limit, line)
      else GroupsFrom(lines[1..], limit, if buf == "" then line else buf + "\n" + line)
  }

  function GroupLines(text: string, limit: int): seq<Part> {
    GroupsFrom(Lines(text), limit, "")
  }

  method GroupLinesLoop(text: string, limit: int) returns (groups: seq<Part>)
    ensures groups == GroupLines(text, limit)
  {
    groups := [];
    var buf := "";
    var lines := Lines(text);
    for i := 0 to |lines|
      invariant groups + GroupsFrom(lines[i..], limit, buf) == GroupLines(text, limit)
    {
      ghost var before, old_buf := groups, buf;
      ghost var tail := lines[i..][1..];
      assert tail == lines[i + 1..];
      var line := RStrip(lines[i]);
      if Strip(line) == "" {
      } else if |line| > limit {
        if buf != "" {
          groups := groups + [Part(buf, "\n")];
          buf := "";
        }
        var parts := HardSplitLoop(line, limit);
        groups := groups + Reseparate(parts, "\n");
        GroupRound(before, Pack(old_buf), Reseparate(parts, "\n"), GroupsFrom(tail, limit, ""));
      } else if buf != "" && |buf| + 1 + |line| > limit {
        groups := groups + [Part(buf, "\n")];
        buf := line;
        Assoc(before, Pack(old_buf), GroupsFrom(tail, limit, line));
      } else {
        buf := if buf == "" then line else buf + "\n" + line;
      }
    }
    assert lines[|lines|..] == [];
    if buf != "" {
      groups := groups + [Part(buf, "\n")];
    } else {
      assert groups + [] == groups;
    }
  }

  lemma GroupRound(a: seq<Part>, b: seq<Part>, c: seq<Part>, d: seq<Part>)
    ensures a + (b + c + d) == (if b == [] then a else a + b) + c + d
  {
    if b == [] {
      assert b + c == c;
      Assoc(a, c, d);
    } else {
      Assoc(a, b + c, d);
      Assoc(a, b, c);
    }
  }

  function FlatWords(lines: seq<string>): seq<string> {
    if lines == [] then [] else Words(lines[0]) + FlatWords(lines[1..])
  }

  lemma {:induction false} LinesWords(text: string)
    ensures FlatWords(Lines(text)) == Words(text)
    decreases |text|
  {
    if text != "" {
      var rest := Lines(text[1..]);
      LinesWords(text[1..]);
      if text[0] == '\n' {
        assert ([""] + rest)[1..] == rest;
        assert Words("") + FlatWords(rest) == FlatWords(rest);
      } else {
        assert FlatWords(rest) == Words(rest[0]) + FlatWords(rest[1..]);
        LineStart(text[0], text[1..]);
      }
    }
  }

  /** One more character in front of the first line. */
  lemma {:induction false} LineStart(c: char, text: string)
    ensures Words([c] + Lines(text)[0]) + FlatWords(Lines(text)[1..]) == Words([c] + text)
    decreases |text|
  {
    FirstLine(text);
    var lines := Lines(text);
    if |lines| == 1 {
      assert lines[1..] == [];
      assert Words([c] + text) + [] == Words([c] + text);
    } else {
      var after := text[|lines[0]| + 1..];
      LinesWords(after);
      WordsCut([c] + lines[0], "\n", after);
      assert [c] + lines[0] + "\n" + after == [c] + text;
    }
  }

  lemma {:induction false} FirstLine(text: string)
    ensures var lines := Lines(text);
      if |lines| == 1 then lines[0] == text
      else |lines[0]| < |text| && text == lines[0] + "\n" + text[|lines[0]| + 1..]
           && lines[1..] == Lines(text[|lines[0]| + 1..])
  {
    if text != "" && text[0] != '\n' {
      var rest := Lines(text[1..]);
      FirstLine(text[1..]);
      assert Lines(text)[1..] == rest[1..];
      if |rest| > 1 {
        assert text[1..][|rest[0]| + 1..] == text[|rest[0]| + 2..];
        assert text == [text[0]] + text[1..];
      }
    } else if text != "" {
      assert Lines(text)[1..] == Lines(text[1..]);
    }
  }

  /** Groups that fit, each on its own line, with the given words. */
  predicate GroupsOk(gs: seq<Part>, limit: nat, words: seq<string>) {
    && FitParts(gs, limit) && BlankSeps(gs) && (gs != [] ==> gs[0].sep == "\n")
    && Words(Glue(gs)) == words
  }

  lemma {:induction false} GroupsWords(lines: seq<string>, limit: nat, buf: string)
    requires limit >= 1 && |buf| <= limit
    ensures GroupsOk(GroupsFrom(lines, limit, buf), limit, Words(buf) + FlatWords(lines))
    decreases |lines|
  {
    if lines == [] {
      PackOk(buf, limit);
      assert Words(buf) + [] == Words(buf);
    } else {
      var line := RStrip(lines[0]);
      var rest := lines[1..];
      LineWords(lines[0]);
      if Strip(line) == "" {
        GroupsWords(rest, limit, buf);
        assert [] + FlatWords(rest) == FlatWords(rest);
      } else if |line| > limit {
        GroupsWords(rest, limit, "");
        assert Words("") + FlatWords(rest) == FlatWords(rest);
        LongLineOk(buf, line, limit, GroupsFrom(rest, limit, ""), FlatWords(rest));
      } else if buf == "" {
        GroupsWords(rest, limit, line);
        assert Words("") + FlatWords(lines) == FlatWords(lines);
      } else {
        GroupsWords(rest, limit, line);
        if |buf| + 1 + |line| <= limit {
          GroupsWords(rest, limit, buf + "\n" + line);
        }
        ShortLineOk(buf, line, limit, rest);
      }
    }
  }

  lemma ShortLineOk(buf: string, line: string, limit: nat, rest: seq<string>)
    requires limit >= 1 && buf != "" && |buf| <= limit && |line| <= limit
    requires GroupsOk(GroupsFrom(rest, limit, line), limit, Words(line) + FlatWords(rest))
    requires |buf| + 1 + |line| <= limit ==>
      GroupsOk(GroupsFrom(rest, limit, buf + "\n" + line), limit, Words(buf + "\n" + line) + FlatWords(rest))
    ensures GroupsOk(if |buf| + 1 + |line| > limit then Pack(buf) + GroupsFrom(rest, limit, line)
                     else GroupsFrom(rest, limit, buf + "\n" + line),
                     limit, Words(buf) + (Words(line) + FlatWords(rest)))
  {
    if |buf| + 1 + |line| > limit {
      PackOk(buf, limit);
      GroupsJoin(Pack(buf), GroupsFrom(rest, limit, line), limit, Words(buf), Words(line) + FlatWords(rest));
    } else {
      WordsCut(buf, "\n", line);
      Assoc(Words(buf), Words(line), FlatWords(rest));
    }
  }

  /** A line without its trailing whitespace has the words of the line; none when it is blank. */
  lemma LineWords(line: string)
    ensures Words(RStrip(line)) == Words(line)
    ensures Strip(RStrip(line)) == "" ==> Words(line) == []
  {
    var r := RStrip(line);
    WordsTrailing(r, line[|r|..]);
    assert r + line[|r|..] == line;
    WordsStrip(r);
  }

  lemma PackOk(buf: string, limit: nat)
    requires |buf| <= limit
    ensures GroupsOk(Pack(buf), limit, Words(buf))
  {
    if buf != "" {
      WordsLeading("\n", buf);
      assert Glue(Pack(buf)) == "\n" + buf;
    }
  }

  lemma GroupsJoin(a: seq<Part>, b: seq<Part>, limit: nat, wa: seq<string>, wb: seq<string>)
    requires GroupsOk(a, limit, wa) && GroupsOk(b, limit, wb)
    ensures GroupsOk(a + b, limit, wa + wb)
  {
    FitJoin(a, b);
  }

  lemma CutLineOk(line: string, limit: nat)
    requires limit >= 1
    ensures GroupsOk(Reseparate(HardSplit(line, limit), "\n"), limit, Words(line))
  {
    var ps := HardSplit(line, limit);
    HardSplitWhole(line, limit);
    ReseparateGlue(ps, "\n");
    if ps != [] {
      WordsLeading("\n", Body(ps));
    }
  }

  lemma LongLineOk(buf: string, line: string, limit: nat, rest: seq<Part>, words: seq<string>)
    requires |buf| <= limit && limit >= 1 && GroupsOk(rest, limit, words)
    ensures GroupsOk(Pack(buf) + Reseparate(HardSplit(line, limit), "\n") + rest, limit,
                     Words(buf) + (Words(line) + words))
  {
    var cut := Reseparate(HardSplit(line, limit), "\n");
    PackOk(buf, limit);
    CutLineOk(line, limit);
    GroupsJoin(Pack(buf), cut, limit, Words(buf), Words(line));
    GroupsJoin(Pack(buf) + cut, rest, limit, Words(buf) + Words(line), words);
    Assoc(Words(buf), Words(line), words);
  }

  /** `_group_lines` on any table text. */
  lemma GroupLinesWhole(text: string, limit: nat)
    requires limit >= 1
    ensures var ps := GroupLines(text, limit);
      FitParts(ps, limit) && BlankSeps(ps) && Words(Body(ps)) == Words(text)
  {
    GroupsWords(Lines(text), limit, "");
    LinesWords(text);
    BodyWords(GroupLines(text, limit));
    assert Words("") + Words(text) == Words(text);
  }

  /** The lines with text, without their trailing whitespace. */
  function TextLines(lines: seq<string>): seq<string> {
    if lines == [] then []
    else (if Strip(RStrip(lines[0])) == "" then [] else [RStrip(lines[0])]) + TextLines(lines[1..])
  }

  /** A group of lines: together in one piece when they fit, or one line over the limit, cut. */
  predicate LineGroup(run: seq<string>, limit: nat, pieces: seq<Part>) {
    && run != []
    && (|| (|Join(run, "\n")| <= limit && pieces == [Part(Join(run, "\n"), "\n")])
        || (|run| == 1 && |run[0]| > limit && FitParts(pieces, limit) && CutsForced(pieces, limit)
            && Words(Body(pieces)) == Words(run[0]) && (pieces != [] ==> pieces[0].sep == "\n")))
  }

  /** Groups are filled up: what starts one would not have fitted into the one before. */
  predicate FilledUp(runs: seq<seq<string>>, limit: nat) {
    forall i :: 0 <= i < |runs| - 1 && runs[i] != [] && runs[i + 1] != [] ==>
      |Join(runs[i], "\n")| + 1 + |runs[i + 1][0]| > limit
  }

  predicate LineGroups(runs: seq<seq<string>>, limit: nat, groups: seq<seq<Part>>) {
    && |runs| == |groups| && FilledUp(runs, limit)
    && forall i :: 0 <= i < |runs| ==> LineGroup(runs[i], limit, groups[i])
  }

  lemma {:induction false} JoinSnoc(run: seq<string>, line: string)
    requires run != []
    ensures Join(run + [line], "\n") == Join(run, "\n") + "\n" + line
  {
    if |run| > 1 {
      JoinSnoc(run[1..], line);
      assert (run + [line])[1..] == run[1..] + [line];
    } else {
      assert (run + [line])[1..] == [line];
    }
  }

  lemma ConsGroups(run: seq<string>, pieces: seq<Part>, runs: seq<seq<string>>, limit: nat, groups: seq<seq<Part>>)
    requires LineGroup(run, limit, pieces) && LineGroups(runs, limit, groups)
    requires runs != [] && runs[0] != [] ==> |Join(run, "\n")| + 1 + |runs[0][0]| > limit
    ensures LineGroups([run] + runs, limit, [pieces] + groups)
    ensures Flat([run] + runs) == run + Flat(runs) && Flat([pieces] + groups) == pieces + Flat(groups)
  {
    hide LineGroup;
    hide Join;
    assert ([run] + runs)[1..] == runs && ([pieces] + groups)[1..] == groups;
  }

  lemma CutLineGroup(line: string, limit: nat)
    requires limit >= 1 && |line| > limit
    ensures LineGroup([line], limit, Reseparate(HardSplit(line, limit), "\n"))
  {
    hide Words;
    hide HardSplit;
    var parts, ps := HardSplit(line, limit), Reseparate(HardSplit(line, limit), "\n");
    HardSplitWhole(line, limit);
    ReseparateGlue(parts, "\n");
    assert forall i :: 0 < i < |ps| ==> ps[i] == parts[i];
    assert ps != [] ==> ps[0].text == parts[0].text;
  }

  /** The group being filled stands for some lines, none when it is empty. */
  predicate Filling(buf: string, run: seq<string>, limit: nat) {
    && (run == [] <==> buf == "") && (run != [] ==> buf == Join(run, "\n")) && |buf| <= limit
  }

  lemma NoGroups(limit: nat)
    ensures LineGroups([], limit, []) && Flat<string>([]) == [] && Flat<Part>([]) == []
  {
  }

  /** The first line of the first run is the first line there is. */
  lemma FirstRun(runs: seq<seq<string>>, limit: nat, groups: seq<seq<Part>>)
    requires LineGroups(runs, limit, groups) && runs != []
    ensures runs[0] != [] && Flat(runs) != [] && Flat(runs)[0] == runs[0][0]
  {
    assert LineGroup(runs[0], limit, groups[0]);
  }

  lemma PackGroup(buf: string, run: seq<string>, limit: nat, runs: seq<seq<string>>, groups: seq<seq<Part>>)
    returns (all: seq<seq<string>>, packed: seq<seq<Part>>)
    requires Filling(buf, run, limit) && LineGroups(runs, limit, groups)
    requires buf != "" && Flat(runs) != [] ==> |buf| + 1 + |Flat(runs)[0]| > limit
    ensures LineGroups(all, limit, packed) && Flat(all) == run + Flat(runs) && Flat(packed) == Pack(buf) + Flat(groups)
  {
    hide Join;
    if buf == "" {
      all, packed := runs, groups;
      assert run + Flat(runs) == Flat(runs) && Pack(buf) + Flat(groups) == Flat(groups);
    } else {
      all, packed := [run] + runs, [Pack(buf)] + groups;
      if runs != [] {
        FirstRun(runs, limit, groups);
      }
      ConsGroups(run, Pack(buf), runs, limit, groups);
    }
  }

  lemma {:induction false} GroupsFilled(lines: seq<string>, limit: nat, buf: string, run: seq<string>)
    returns (runs: seq<seq<string>>, groups: seq<seq<Part>>)
    requires limit >= 1 && Filling(buf, run, limit)
    ensures LineGroups(runs, limit, groups) && GroupsFrom(lines, limit, buf) == Flat(groups)
    ensures Flat(runs) == run + TextLines(lines)
    decreases |lines|, 0
  {
    hide LineGroups;
    hide Flat;
    hide HardSplit;
    hide Join;
    hide Strip;
    hide RStrip;
    if lines == [] {
      NoGroups(limit);
      runs, groups := PackGroup(buf, run, limit, [], []);
      assert Pack(buf) + [] == Pack(buf);
    } else {
      var line, rest := RStrip(lines[0]), lines[1..];
      if Strip(line) == "" {
        runs, groups := GroupsFilled(rest, limit, buf, run);
        assert [] + TextLines(rest) == TextLines(rest);
      } else {
        runs, groups := GroupsTakeLine(line, rest, limit, buf, run);
        Assoc(run, [line], TextLines(rest));
      }
    }
  }

  lemma {:induction false} GroupsTakeLine(line: string, rest: seq<string>, limit: nat, buf: string, run: seq<string>)
    returns (runs: seq<seq<string>>, groups: seq<seq<Part>>)
    requires limit >= 1 && Filling(buf, run, limit) && Strip(line) != ""
    ensures LineGroups(runs, limit, groups)
    ensures Flat(groups)
            == if |line| > limit then Pack(buf) + Reseparate(HardSplit(line, limit), "\n") + GroupsFrom(rest, limit, "")
               else if buf != "" && |buf| + 1 + |line| > limit then Pack(buf) + GroupsFrom(rest, limit, line)
               else GroupsFrom(rest, limit, if buf == "" then line else buf + "\n" + line)
    ensures Flat(runs) == run + [line] + TextLines(rest)
    decreases |rest|, 1
  {
    hide LineGroups;
    hide Flat;
    hide HardSplit;
    hide GroupsFrom;
    hide TextLines;
    hide Strip;
    if |line| > limit {
      var after, cut := GroupsFilled(rest, limit, "", []);
      assert [] + TextLines(rest) == TextLines(rest);
      runs, groups := LongLineGroups(line, limit, buf, run, after, cut);
      Assoc(run, [line], TextLines(rest));
      Assoc(Pack(buf), Reseparate(HardSplit(line, limit), "\n"), GroupsFrom(rest, limit, ""));
    } else if buf != "" && |buf| + 1 + |line| > limit {
      assert Join([line], "\n") == line;
      var after, cut := GroupsFilled(rest, limit, line, [line]);
      assert ([line] + TextLines(rest))[0] == line;
      runs, groups := PackGroup(buf, run, limit, after, cut);
      Assoc(run, [line], TextLines(rest));
    } else {
      if run == [] {
        assert Join([line], "\n") == line;
        assert [] + [line] == [line];
      } else {
        JoinSnoc(run, line);
      }
      runs, groups := GroupsFilled(rest, limit, if buf == "" then line else buf + "\n" + line, run + [line]);
    }
  }

  lemma LongLineGroups(line: string, limit: nat, buf: string, run: seq<string>, after: seq<seq<string>>, cut: seq<seq<Part>>)
    returns (runs: seq<seq<string>>, groups: seq<seq<Part>>)
    requires limit >= 1 && |line| > limit && Filling(buf, run, limit) && LineGroups(after, limit, cut)
    ensures LineGroups(runs, limit, groups) && Flat(runs) == run + ([line] + Flat(after))
    ensures Flat(groups) == Pack(buf) + (Reseparate(HardSplit(line, limit), "\n") + Flat(cut))
  {
    hide LineGroups;
    hide LineGroup;
    hide HardSplit;
    hide Flat;
    CutLineGroup(line, limit);
    assert Join([line], "\n") == line;
    ConsGroups([line], Reseparate(HardSplit(line, limit), "\n"), after, limit, cut);
    var more, pieces := [[line]] + after, [Reseparate(HardSplit(line, limit), "\n")] + cut;
    assert ([line] + Flat(after))[0] == line;
    runs, groups := PackGroup(buf, run, limit, more, pieces);
  }

  /** The pieces of a table: its lines, in order and whole, in groups filled up to the limit; only a line that is
      over the limit by itself is cut. */
  lemma GroupLinesExactly(text: string, limit: nat) returns (runs: seq<seq<string>>, groups: seq<seq<Part>>)
    requires limit >= 1
    ensures GroupLines(text, limit) == Flat(groups) && Flat(runs) == TextLines(Lines(text))
    ensures LineGroups(runs, limit, groups)
  {
    runs, groups := GroupsFilled(Lines(text), limit, "", []);
    assert [] + TextLines(Lines(text)) == TextLines(Lines(text));
  }
}
