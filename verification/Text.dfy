/** Text helpers shared by every module: Python's whitespace test, `strip`, `split`, and decimal
    rendering.  `Words` is the yardstick of the chunker proofs: two texts that have the same words
    differ in whitespace only. */
module Text {

  /** `str.isspace` for one character; `str.strip`, `str.split` and the regular expression `\s`
      use the same table. */
  predicate IsSpace(c: char) {
    var u := c as int;
    || 0x09 <= u <= 0x0D || 0x1C <= u <= 0x20 || u == 0x85 || u == 0xA0 || u == 0x1680
    || 0x2000 <= u <= 0x200A || u == 0x2028 || u == 0x2029 || u == 0x202F || u == 0x205F || u == 0x3000
  }

  /** A blank within a line, as the patterns for sentence breaks and blank lines have it. */
  predicate IsGap(c: char) {
    c == ' ' || c == '\t' || c == '\U{00A0}'
  }

  predicate Blank(s: string) {
    forall i :: 0 <= i < |s| ==> IsSpace(s[i])
  }

  /** The first index at or after `i` that does not hold whitespace. */
  function SkipSpace(s: string, i: nat): (j: nat)
    requires i <= |s|
    ensures i <= j <= |s|
    ensures forall k :: i <= k < j ==> IsSpace(s[k])
    ensures j < |s| ==> !IsSpace(s[j])
    decreases |s| - i
  {
    if i < |s| && IsSpace(s[i]) then SkipSpace(s, i + 1) else i
  }

  /** One past the last index before `i` that does not hold whitespace. */
  function SkipSpaceBack(s: string, i: nat): (j: nat)
    requires i <= |s|
    ensures j <= i
    ensures forall k :: j <= k < i ==> IsSpace(s[k])
    ensures j > 0 ==> !IsSpace(s[j - 1])
  {
    if i > 0 && IsSpace(s[i - 1]) then SkipSpaceBack(s, i - 1) else i
  }

  /** `str.lstrip`. */
  function LStrip(s: string): (r: string)
    ensures |r| <= |s|
    ensures r != "" ==> !IsSpace(r[0])
  {
    s[SkipSpace(s, 0)..]
  }

  /** `str.rstrip`. */
  function RStrip(s: string): (r: string)
    ensures |r| <= |s|
    ensures r != "" ==> !IsSpace(r[|r| - 1])
  {
    s[..SkipSpaceBack(s, |s|)]
  }

  /** `str.strip`. */
  function Strip(s: string): (r: string)
    ensures |r| <= |s|
    ensures r != "" ==> !IsSpace(r[0]) && !IsSpace(r[|r| - 1])
  {
    RStrip(LStrip(s))
  }

  /** `str.split()`: the maximal runs of non-whitespace characters. */
  function Words(s: string): (ws: seq<string>)
    ensures s != "" && !IsSpace(s[0]) ==> ws != []
  {
    if s == "" then []
    else if IsSpace(s[0]) then Words(s[1..])
    else if |s| == 1 || IsSpace(s[1]) then [[s[0]]] + Words(s[1..])
    else var ws := Words(s[1..]); [[s[0]] + ws[0]] + ws[1..]
  }

  /** The non-whitespace characters, in order. */
  function Dense(s: string): string {
    if s == "" then "" else (if IsSpace(s[0]) then "" else [s[0]]) + Dense(s[1..])
  }

  function Flat<T>(parts: seq<seq<T>>): seq<T> {
    if parts == [] then [] else parts[0] + Flat(parts[1..])
  }

  /** `sep.join(parts)`. */
  function Join(parts: seq<string>, sep: string): string {
    if parts == [] then ""
    else if |parts| == 1 then parts[0]
    else parts[0] + sep + Join(parts[1..], sep)
  }

  /** The decimal digits of a number, as an f-string shows it. */
  function Digits(n: nat): (r: string)
    ensures r != ""
  {
    (if n < 10 then "" else Digits(n / 10)) + ["0123456789"[n % 10]]
  }

  lemma Assoc<T>(a: seq<T>, b: seq<T>, c: seq<T>)
    ensures a + (b + c) == a + b + c
  {
  }

  // ---- facts about words ---------------------------------------------------------------------

  lemma BlankParts(a: string, b: string)
    ensures Blank(a + b) <==> Blank(a) && Blank(b)
  {
    hide IsSpace;
    if Blank(a + b) {
      forall i | 0 <= i < |a| ensures IsSpace(a[i]) { assert (a + b)[i] == a[i]; }
      forall i | 0 <= i < |b| ensures IsSpace(b[i]) { assert (a + b)[|a| + i] == b[i]; }
    }
  }

  lemma {:induction false} BlankWords(s: string)
    ensures Blank(s) <==> Words(s) == []
  {
    hide IsSpace;
    if s != "" {
      BlankWords(s[1..]);
      BlankParts([s[0]], s[1..]);
      assert s == [s[0]] + s[1..];
    }
  }

  /** Whitespace between two texts separates their words. */
  lemma {:induction false} WordsCut(a: string, w: string, b: string)
    requires Blank(w) && w != ""
    ensures Words(a + w + b) == Words(a) + Words(b)
    decreases |a| + |w|
  {
    hide IsSpace;
    if a != "" {
      WordsCut(a[1..], w, b);
      assert (a + w + b)[1..] == a[1..] + w + b;
      if !IsSpace(a[0]) && |a| > 1 {
        assert (a + w + b)[1] == a[1];
        if !IsSpace(a[1]) {
          assert Words(a[1..]) != [] by { assert a[1..][0] == a[1]; }
        }
      } else if |a| == 1 {
        assert (a + w + b)[1] == w[0];
        assert Words(a[1..]) == [];
      }
    } else if |w| == 1 {
      assert (a + w + b)[1..] == b;
    } else {
      WordsCut(a, w[1..], b);
      assert (a + w + b)[1..] == a + w[1..] + b;
    }
  }

  lemma WordsTrailing(a: string, w: string)
    requires Blank(w)
    ensures Words(a + w) == Words(a)
  {
    hide IsSpace;
    if w == "" {
      assert a + w == a;
    } else {
      WordsCut(a, w, "");
      assert a + w + "" == a + w;
    }
  }

  lemma WordsLeading(w: string, b: string)
    requires Blank(w)
    ensures Words(w + b) == Words(b)
  {
    if w == "" {
      assert w + b == b;
    } else {
      hide Words;
      WordsCut("", w, b);
      NoWords();
      assert "" + w + b == w + b;
    }
  }

  lemma NoWords()
    ensures Words("") == []
  {
  }

  /** Whitespace in the middle of a text separates the words on both sides. */
  lemma WordsAround(text: string, start: nat, pos: nat, end: nat)
    requires start <= pos < end <= |text| && Blank(text[pos..end])
    ensures Words(text[start..]) == Words(text[start..pos]) + Words(text[end..])
  {
    hide IsSpace;
    WordsCut(text[start..pos], text[pos..end], text[end..]);
    assert text[start..] == text[start..pos] + text[pos..end] + text[end..];
  }

  /** What `strip` cuts off on either side is blank. */
  lemma StripParts(s: string) returns (before: string, after: string)
    ensures s == before + Strip(s) + after && Blank(before) && Blank(after)
  {
    hide IsSpace;
    var l := LStrip(s);
    before := s[..SkipSpace(s, 0)];
    after := l[SkipSpaceBack(l, |l|)..];
  }

  /** Stripping keeps the words, and leaves nothing exactly of a blank text. */
  lemma WordsStrip(s: string)
    ensures Words(Strip(s)) == Words(s)
    ensures Strip(s) == "" <==> Blank(s)
  {
    hide IsSpace;
    var before, after := StripParts(s);
    var r := Strip(s);
    assert s == before + (r + after);
    WordsLeading(before, r + after);
    WordsTrailing(r, after);
    BlankWords(s);
    BlankWords(r);
  }

  /** Putting a character in front of the first word. */
  lemma FlatFront(c: char, ws: seq<string>)
    requires ws != []
    ensures Flat([[c] + ws[0]] + ws[1..]) == [c] + Flat(ws)
  {
    var more := [[c] + ws[0]] + ws[1..];
    assert more[1..] == ws[1..];
    Assoc([c], ws[0], Flat(ws[1..]));
  }

  lemma FlatWord(c: char, ws: seq<string>)
    ensures Flat([[c]] + ws) == [c] + Flat(ws)
  {
    assert ([[c]] + ws)[1..] == ws;
  }

  /** Equal words mean equal non-whitespace characters. */
  lemma {:induction false} DenseWords(s: string)
    ensures Dense(s) == Flat(Words(s))
  {
    hide IsSpace;
    hide Flat;
    if s == "" {
      assert Flat<char>([]) == [] by { FlatNone(); }
    } else {
      DenseWords(s[1..]);
      if !IsSpace(s[0]) {
        if |s| == 1 || IsSpace(s[1]) {
          FlatWord(s[0], Words(s[1..]));
        } else {
          assert s[1..][0] == s[1];
          FlatFront(s[0], Words(s[1..]));
        }
      }
    }
  }

  lemma FlatNone()
    ensures Flat<char>([]) == []
  {
  }

  lemma {:induction false} FlatConcat<T>(a: seq<seq<T>>, b: seq<seq<T>>)
    ensures Flat(a + b) == Flat(a) + Flat(b)
  {
    if a == [] {
      assert a + b == b;
    } else {
      FlatConcat(a[1..], b);
      assert (a + b)[1..] == a[1..] + b;
      Assoc(a[0], Flat(a[1..]), Flat(b));
    }
  }
}
