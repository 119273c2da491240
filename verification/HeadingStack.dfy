/** How an extracted document's blocks get their heading paths: from a stack of headings, or, when the
    extractor gives parent links, by walking them. */
module HeadingStack {
  import opened Text
  import opened HeaderLine
  import opened Options

  const MAX_HEADING_CHARS := 200

  /** A block that is kept: its level when it is a heading, and its cleaned text. */
  datatype Item = Item(level: Option<int>, text: string)

  datatype Open = Open(level: int, title: string)

  function ShortTitle(text: string): (title: string)
    ensures |title| <= MAX_HEADING_CHARS
  {
    var line := Join(Words(text), " ");
    if |line| <= MAX_HEADING_CHARS then line else RStrip(line[..MAX_HEADING_CHARS - 1]) + ELLIPSIS
  }

  /** A word: at least one character, no whitespace. */
  predicate IsWord(w: string) {
    w != "" && forall i :: 0 <= i < |w| ==> !IsSpace(w[i])
  }

  predicate AllWords(ws: seq<string>) {
    forall i :: 0 <= i < |ws| ==> IsWord(ws[i])
  }

  lemma {:induction false} WordsAreWords(s: string)
    ensures AllWords(Words(s))
  {
    hide IsSpace;
    if s != "" {
      WordsAreWords(s[1..]);
      if !IsSpace(s[0]) && |s| > 1 && !IsSpace(s[1]) {
        assert s[1..][0] == s[1];
      }
    }
  }

  lemma {:induction false} OneWord(w: string)
    requires IsWord(w)
    ensures Words(w) == [w]
  {
    hide IsSpace;
    if |w| > 1 {
      assert forall i :: 0 <= i < |w| - 1 ==> w[1..][i] == w[i + 1];
      OneWord(w[1..]);
      assert [w[0]] + w[1..] == w;
    } else {
      assert w[1..] == "" && [w[0]] == w;
    }
  }

  /** Words joined with single spaces are those words again. */
  lemma {:induction false} JoinedWords(ws: seq<string>)
    requires AllWords(ws)
    ensures Words(Join(ws, " ")) == ws
  {
    if |ws| == 1 {
      OneWord(ws[0]);
    } else if |ws| > 1 {
      JoinedWords(ws[1..]);
      OneWord(ws[0]);
      WordsCut(ws[0], " ", Join(ws[1..], " "));
      assert [ws[0]] + ws[1..] == ws;
    }
  }

  /** A title has the words of its text, one space apart, and nothing else, when they fit; else it is the front of
      that line, without trailing whitespace, and an ellipsis. */
  lemma TitleKeepsWords(text: string) returns (line: string)
    ensures Words(line) == Words(text) && (forall i :: 0 <= i < |line| && IsSpace(line[i]) ==> SingleSpace(line, i))
    ensures if |line| <= 200 then ShortTitle(text) == line
            else exists n :: 0 <= n < 200 && ShortTitle(text) == line[..n] + "\U{2026}" && Blank(line[n..199])
  {
    hide IsSpace;
    line := Join(Words(text), " ");
    WordsAreWords(text);
    JoinedWords(Words(text));
    JoinedSpaces(Words(text));
    if |line| > 200 {
      var cut := line[..199];
      var n := SkipSpaceBack(cut, |cut|);
      assert RStrip(cut) == line[..n];
      assert Blank(line[n..199]);
    }
  }

  predicate SingleSpace(line: string, i: int) {
    0 < i < |line| - 1 && line[i] == ' ' && !IsSpace(line[i - 1]) && !IsSpace(line[i + 1])
  }

  lemma {:induction false} JoinedSpaces(ws: seq<string>)
    requires AllWords(ws)
    ensures var line := Join(ws, " ");
      && (forall i :: 0 <= i < |line| && IsSpace(line[i]) ==> SingleSpace(line, i))
      && (ws != [] ==> line != "" && !IsSpace(line[0]))
  {
    hide IsSpace;
    if |ws| > 1 {
      JoinedSpaces(ws[1..]);
      var rest, line := Join(ws[1..], " "), Join(ws, " ");
      assert line == ws[0] + " " + rest;
      forall i | 0 <= i < |line| && IsSpace(line[i])
        ensures SingleSpace(line, i)
      {
        if i > |ws[0]| {
          assert line[i] == rest[i - |ws[0]| - 1];
          assert SingleSpace(rest, i - |ws[0]| - 1);
        }
      }
    }
  }

  // ---- the stack ------------------------------------------------------------------------------------

  /** Heading `j` is closed by a heading of the same or a higher rank in `items[j + 1..end]`. */
  ghost predicate CutOff(items: seq<Item>, j: nat, end: nat)
    requires j < end <= |items| && items[j].level.Some?
  {
    exists k :: j < k < end && items[k].level.Some? && items[k].level.value <= items[j].level.value
  }

  /** Of the first `n` items the headings not cut off before `end`, in document order. */
  ghost function Standing(items: seq<Item>, n: nat, end: nat): (js: seq<nat>)
    requires n <= end <= |items|
    ensures Headings(items, js) && forall i :: 0 <= i < |js| ==> js[i] < n
  {
    if n == 0 then []
    else Standing(items, n - 1, end)
         + (if items[n - 1].level.Some? && !CutOff(items, n - 1, end) then [n - 1] else [])
  }

  lemma {:induction false} StandingExactly(items: seq<Item>, n: nat, end: nat, j: nat)
    requires j < n <= end <= |items|
    ensures j in Standing(items, n, end) <==> items[j].level.Some? && !CutOff(items, j, end)
  {
    hide CutOff;
    if j < n - 1 {
      StandingExactly(items, n - 1, end, j);
    }
  }

  /** The headings above block `i`: the earlier ones not cut off up to and including the block. */
  ghost function Above(items: seq<Item>, i: nat): seq<nat>
    requires i < |items|
  {
    Standing(items, i, i + 1)
  }

  ghost predicate Headings(items: seq<Item>, js: seq<nat>) {
    forall i :: 0 <= i < |js| ==> js[i] < |items| && items[js[i]].level.Some?
  }

  ghost function OpenAt(items: seq<Item>, js: seq<nat>): (stack: seq<Open>)
    requires Headings(items, js)
    ensures |stack| == |js|
  {
    if js == [] then []
    else
      var j := js[|js| - 1];
      OpenAt(items, js[..|js| - 1]) + [Open(items[j].level.value, ShortTitle(items[j].text))]
  }

  function Titles(stack: seq<Open>): (titles: seq<string>)
    ensures |titles| == |stack|
  {
    if stack == [] then [] else Titles(stack[..|stack| - 1]) + [stack[|stack| - 1].title]
  }

  /** Outermost first, with strictly increasing levels. */
  ghost predicate Rising(items: seq<Item>, js: seq<nat>)
    requires Headings(items, js)
  {
    forall a, b :: 0 <= a < b < |js| ==> js[a] < js[b] && items[js[a]].level.value < items[js[b]].level.value
  }

  lemma Deeper(items: seq<Item>, j: nat, k: nat, end: nat)
    requires j < k < end <= |items| && items[j].level.Some? && items[k].level.Some? && !CutOff(items, j, end)
    ensures items[j].level.value < items[k].level.value
  {
  }

  lemma {:induction false} StandingRises(items: seq<Item>, n: nat, end: nat)
    requires n <= end <= |items|
    ensures Rising(items, Standing(items, n, end))
  {
    hide CutOff;
    if n > 0 {
      var js := Standing(items, n - 1, end);
      StandingRises(items, n - 1, end);
      if items[n - 1].level.Some? {
        forall a | 0 <= a < |js| ensures items[js[a]].level.value < items[n - 1].level.value {
          StandingExactly(items, n - 1, end, js[a]);
          Deeper(items, js[a], n - 1, end);
        }
      }
    }
  }

  /** A block that is no heading closes nothing; a heading closes those of its own level and deeper. */
  lemma {:induction false} StandingStep(items: seq<Item>, n: nat, i: nat, stack: seq<nat>)
    requires n <= i < |items| && stack == Standing(items, n, i)
    ensures items[i].level.None? ==> Standing(items, n, i + 1) == stack
    ensures items[i].level.Some? ==> Standing(items, n, i + 1) == Shallower(items, stack, items[i].level.value)
  {
    hide CutOff;
    if n > 0 {
      var front := Standing(items, n - 1, i);
      StandingStep(items, n - 1, i, front);
      if items[n - 1].level.Some? {
        StandsOn(items, n - 1, i);
        assert stack == front + (if CutOff(items, n - 1, i) then [] else [n - 1]);
        assert front + [] == front;
        if items[i].level.Some? {
          ShallowerSnoc(items, front, n - 1, items[i].level.value);
        }
      }
    }
  }

  lemma ShallowerSnoc(items: seq<Item>, js: seq<nat>, j: nat, level: int)
    requires Headings(items, js) && j < |items| && items[j].level.Some?
    ensures Shallower(items, js + [j], level)
            == Shallower(items, js, level) + (if items[j].level.value < level then [j] else [])
  {
    assert (js + [j])[..|js|] == js;
  }

  lemma StandsOn(items: seq<Item>, j: nat, i: nat)
    requires j < i < |items| && items[j].level.Some?
    ensures !CutOff(items, j, i + 1) <==>
            !CutOff(items, j, i) && (items[i].level.Some? ==> items[j].level.value < items[i].level.value)
  {
  }

  ghost function Shallower(items: seq<Item>, js: seq<nat>, level: int): seq<nat>
    requires Headings(items, js)
  {
    if js == [] then []
    else Shallower(items, js[..|js| - 1], level)
         + (if items[js[|js| - 1]].level.value < level then [js[|js| - 1]] else [])
  }

  /** Popping from the end finds all of them, because the levels rise. */
  lemma {:induction false} ShallowerPrefix(items: seq<Item>, js: seq<nat>, level: int, m: nat)
    requires Headings(items, js) && m <= |js|
    requires forall i :: 0 <= i < m ==> items[js[i]].level.value < level
    requires forall i :: m <= i < |js| ==> items[js[i]].level.value >= level
    ensures Shallower(items, js, level) == js[..m]
  {
    if js != [] {
      if m == |js| {
        ShallowerPrefix(items, js[..m - 1], level, m - 1);
        assert js[..m - 1] + [js[m - 1]] == js[..m];
      } else {
        ShallowerPrefix(items, js[..|js| - 1], level, m);
        assert js[..|js| - 1][..m] == js[..m];
      }
    }
  }

  method Pop(ghost items: seq<Item>, ghost js: seq<nat>, before: seq<Open>, level: int) returns (stack: seq<Open>)
    requires Headings(items, js) && before == OpenAt(items, js) && Rising(items, js)
    ensures Headings(items, Shallower(items, js, level)) && stack == OpenAt(items, Shallower(items, js, level))
  {
    hide ShortTitle;
    hide Shallower;
    stack := before;
    ghost var m := |js|;
    assert js[..m] == js;
    while stack != [] && stack[|stack| - 1].level >= level
      invariant m == |stack| <= |js|
      invariant stack == OpenAt(items, js[..m])
      invariant forall k :: m <= k < |js| ==> items[js[k]].level.value >= level
    {
      assert js[..m][..m - 1] == js[..m - 1];
      stack := stack[..|stack| - 1];
      m := m - 1;
    }
    ShallowerPrefix(items, js, level, m);
  }

  method HeadingPaths(items: seq<Item>) returns (paths: seq<seq<string>>)
    ensures |paths| == |items|
    ensures forall i :: 0 <= i < |items| ==> paths[i] == Titles(OpenAt(items, Above(items, i)))
  {
    hide OpenAt;
    hide Titles;
    hide Shallower;
    hide CutOff;
    hide Standing;
    hide ShortTitle;
    paths := [];
    var stack: seq<Open> := [];
    NoneOpen(items);
    for i := 0 to |items|
      invariant |paths| == i
      invariant forall k :: 0 <= k < i ==> paths[k] == Titles(OpenAt(items, Above(items, k)))
      invariant stack == OpenAt(items, Standing(items, i, i))
    {
      ghost var js := Standing(items, i, i);
      StandingRises(items, i, i);
      StandingStep(items, i, i, js);
      var level := items[i].level;
      if level.Some? {
        stack := Pop(items, js, stack, level.value);
      }
      paths := paths + [Titles(stack)];
      if level.Some? {
        stack := stack + [Open(level.value, ShortTitle(items[i].text))];
        Pushed(items, i);
      } else {
        Skipped(items, i);
      }
    }
  }

  lemma NoneOpen(items: seq<Item>)
    ensures OpenAt(items, Standing(items, 0, 0)) == []
  {
  }

  lemma Skipped(items: seq<Item>, i: nat)
    requires i < |items| && items[i].level.None?
    ensures Standing(items, i + 1, i + 1) == Above(items, i)
  {
  }

  lemma Pushed(items: seq<Item>, i: nat)
    requires i < |items| && items[i].level.Some?
    ensures OpenAt(items, Standing(items, i + 1, i + 1))
            == OpenAt(items, Above(items, i)) + [Open(items[i].level.value, ShortTitle(items[i].text))]
  {
    assert !CutOff(items, i, i + 1);
    assert Standing(items, i + 1, i + 1) == Above(items, i) + [i];
  }

  // ---- parent links -----------------------------------------------------------------------------------

  datatype Node = Node(parent: Option<nat>, text: string)

  type Tree = map<nat, Node>

  /** The titles on the way up from `id`, nearest first; the walk stops at a block it has seen. */
  function Climb(blocks: Tree, id: Option<nat>, seen: set<nat>): seq<string>
    decreases blocks.Keys - seen
  {
    if id.None? || id.value !in blocks || id.value in seen then []
    else
      var node := blocks[id.value];
      (if node.text == "" then [] else [ShortTitle(node.text)]) + Climb(blocks, node.parent, seen + {id.value})
  }

  function Reversed<T>(s: seq<T>): (r: seq<T>)
    ensures |r| == |s|
  {
    if s == [] then [] else Reversed(s[1..]) + [s[0]]
  }

  function HeadingPath(blocks: Tree, parent: Option<nat>): seq<string> {
    Reversed(Climb(blocks, parent, {}))
  }

  ghost predicate CacheOk(blocks: Tree, cache: map<nat, seq<string>>) {
    forall id :: id in cache ==> cache[id] == HeadingPath(blocks, Some(id))
  }

  method Walk(blocks: Tree, parent: Option<nat>) returns (titles: seq<string>)
    ensures titles == Climb(blocks, parent, {})
  {
    hide ShortTitle;
    hide Climb;
    titles := [];
    var seen: set<nat> := {};
    var current := parent;
    while current.Some? && current.value in blocks && current.value !in seen
      invariant titles + Climb(blocks, current, seen) == Climb(blocks, parent, {})
      decreases blocks.Keys - seen
    {
      var node := blocks[current.value];
      ClimbStep(blocks, current, seen);
      seen := seen + {current.value};
      if node.text != "" {
        Assoc(titles, [ShortTitle(node.text)], Climb(blocks, node.parent, seen));
        titles := titles + [ShortTitle(node.text)];
      }
      current := node.parent;
    }
    ClimbEnd(blocks, current, seen);
    assert titles + [] == titles;
  }

  lemma ClimbStep(blocks: Tree, id: Option<nat>, seen: set<nat>)
    requires id.Some? && id.value in blocks && id.value !in seen
    ensures var node, rest := blocks[id.value], Climb(blocks, blocks[id.value].parent, seen + {id.value});
      Climb(blocks, id, seen) == if node.text == "" then rest else [ShortTitle(node.text)] + rest
  {
    assert [] + Climb(blocks, blocks[id.value].parent, seen + {id.value})
           == Climb(blocks, blocks[id.value].parent, seen + {id.value});
  }

  lemma ClimbEnd(blocks: Tree, id: Option<nat>, seen: set<nat>)
    requires id.None? || id.value !in blocks || id.value in seen
    ensures Climb(blocks, id, seen) == []
  {
  }

  /** The walk with its cache: whatever was asked before, the answer is the same. */
  method HeadingPathLoop(blocks: Tree, parent: Option<nat>, cache: map<nat, seq<string>>)
    returns (path: seq<string>, cache': map<nat, seq<string>>)
    requires CacheOk(blocks, cache)
    ensures path == HeadingPath(blocks, parent)
    ensures CacheOk(blocks, cache')
  {
    hide Climb;
    hide Reversed;
    cache' := cache;
    if parent.None? {
      NoParent(blocks);
      return [], cache;
    }
    if parent.value !in cache {
      var titles := Walk(blocks, parent);
      cache' := cache[parent.value := Reversed(titles)];
    }
    path := cache'[parent.value];
  }

  lemma NoParent(blocks: Tree)
    ensures HeadingPath(blocks, None) == []
  {
  }

  // ---- the two agree -----------------------------------------------------------------------------------

  /** The items as linked blocks, each under the innermost heading above it. */
  ghost predicate LinkedAs(items: seq<Item>, blocks: Tree) {
    && (forall i :: 0 <= i < |items| ==> i in blocks && blocks[i].text == items[i].text && items[i].text != "")
    && (forall i :: 0 <= i < |items| ==> blocks[i].parent == Innermost(items, i))
  }

  ghost function Innermost(items: seq<Item>, i: nat): Option<nat>
    requires i < |items|
  {
    var js := Above(items, i);
    if js == [] then None else Some(js[|js| - 1])
  }

  /** Between the innermost heading above a block and the block itself nothing stands, and what stands
      above that heading also stands above the block. */
  lemma {:induction false} AboveInnermost(items: seq<Item>, i: nat)
    requires i < |items| && Innermost(items, i).Some?
    ensures var j := Innermost(items, i).value; j < i && Above(items, i) == Above(items, j) + [j]
  {
    var js := Above(items, i);
    var j := js[|js| - 1];
    StandingRises(items, i, i + 1);
    StandingCut(items, i, i + 1, j);
    StandingExactly(items, i, i + 1, j);
    StandingSame(items, j, j, i);
  }

  lemma {:induction false} StandingCut(items: seq<Item>, n: nat, end: nat, j: nat)
    requires n <= end <= |items| && Standing(items, n, end) != []
    requires j == Standing(items, n, end)[|Standing(items, n, end)| - 1]
    ensures j < n && Standing(items, n, end) == Standing(items, j, end) + [j]
  {
    if j < n - 1 {
      StandingCut(items, n - 1, end, j);
    }
  }

  /** Heading `j` stands at block `i`: then whatever stands at `j` stands at `i` too. */
  lemma {:induction false} StandingSame(items: seq<Item>, n: nat, j: nat, i: nat)
    requires n <= j < i < |items| && items[j].level.Some? && !CutOff(items, j, i + 1)
    ensures Standing(items, n, i + 1) == Standing(items, n, j + 1)
  {
    if n > 0 {
      StandingSame(items, n - 1, j, i);
      if items[n - 1].level.Some? && CutOff(items, n - 1, i + 1) {
        var k :| n - 1 < k < i + 1 && items[k].level.Some? && items[k].level.value <= items[n - 1].level.value;
        if k > j {
          assert items[k].level.value > items[j].level.value;
        }
      }
    }
  }

  lemma TitleSnoc(items: seq<Item>, js: seq<nat>, j: nat)
    requires Headings(items, js) && j < |items| && items[j].level.Some?
    ensures Titles(OpenAt(items, js + [j])) == Titles(OpenAt(items, js)) + [ShortTitle(items[j].text)]
  {
    assert (js + [j])[..|js|] == js;
    assert OpenAt(items, js + [j])[..|js|] == OpenAt(items, js);
  }

  lemma NothingAbove()
    ensures Reversed(Titles([])) == []
  {
  }

  /** A walk up links that lead to earlier blocks only never meets a block twice. */
  lemma {:induction false} ClimbUnseen(items: seq<Item>, blocks: Tree, i: nat, seen: set<nat>)
    requires i < |items| && LinkedAs(items, blocks)
    requires forall k :: k in seen ==> k >= i
    ensures Climb(blocks, Innermost(items, i), seen) == Reversed(Titles(OpenAt(items, Above(items, i))))
    decreases i
  {
    hide OpenAt;
    hide Titles;
    hide ShortTitle;
    hide Standing;
    if Innermost(items, i).Some? {
      var j := Innermost(items, i).value;
      AboveInnermost(items, i);
      ClimbUnseen(items, blocks, j, seen + {j});
      TitleSnoc(items, Above(items, j), j);
      ReversedSnoc(Titles(OpenAt(items, Above(items, j))), ShortTitle(items[j].text));
    } else {
      NothingAbove();
      assert OpenAt(items, Above(items, i)) == [];
    }
  }

  lemma {:induction false} ReversedSnoc<T>(s: seq<T>, x: T)
    ensures Reversed(s + [x]) == [x] + Reversed(s)
  {
    if s != [] {
      assert (s + [x])[1..] == s[1..] + [x];
      ReversedSnoc(s[1..], x);
    }
  }

  lemma {:induction false} ReversedTwice<T>(s: seq<T>)
    ensures Reversed(Reversed(s)) == s
  {
    if s != [] {
      ReversedTwice(s[1..]);
      ReversedSnoc(Reversed(s[1..]), s[0]);
    }
  }

  /** Where the links name the innermost heading above each block, the walk gives the stack's paths. */
  lemma WalkMatchesStack(items: seq<Item>, blocks: Tree, i: nat)
    requires i < |items| && LinkedAs(items, blocks)
    ensures HeadingPath(blocks, blocks[i].parent) == Titles(OpenAt(items, Above(items, i)))
  {
    ClimbUnseen(items, blocks, i, {});
    ReversedTwice(Titles(OpenAt(items, Above(items, i))));
  }
}
