/** What every step of the chunk builder keeps, and what therefore holds of every chunking. */
module ChunkProofs {
  import opened Sequences
  import opened Text
  import opened Splitters
  import opened HeaderLine
  import opened Options
  import opened Blocks
  import opened ChunkState

  // ---- the overlap -------------------------------------------------------------------------------

  predicate IsSuffix(t: string, s: string) {
    |t| <= |s| && t == s[|s| - |t|..]
  }

  /** A word of the text begins at `k`. */
  predicate WordStart(s: string, k: int) {
    0 <= k < |s| && !IsSpace(s[k]) && (k > 0 ==> IsSpace(s[k - 1]))
  }

  predicate NoWordStart(s: string, from: int, to: int) {
    forall k :: from <= k < to ==> !WordStart(s, k)
  }

  /** The overlap is the longest end of the body within `n` characters that starts with a word; only when no
      word starts there are the last `n` characters taken as they are. */
  lemma TailLongest(body: string, n: nat)
    requires body != "" && !IsSpace(body[0]) && !IsSpace(body[|body| - 1]) && n > 0
    ensures var t := Tail(body, n);
      IsSuffix(t, body) && t != "" && |t| <= n && (if |body| <= n then t == body else FirstWordFrom(body, n, |t|))
  {
    hide IsSpace;
    hide Strip;
    if |body| <= n {
      var k := StripFrom(body, 0);
      assert body[0..] == body;
    } else {
      TailFromStart(body, n, TailStart(body, n));
    }
  }

  /** The last `m` characters start with the first word that begins among the last `n`; all of the `n` when
      none does. */
  predicate FirstWordFrom(body: string, n: nat, m: nat) {
    if NoWordStart(body, |body| - n, |body|) then m == n
    else WordStart(body, |body| - m) && NoWordStart(body, |body| - n, |body| - m)
  }

  /** Stripping the end of a stripped text drops the whitespace in front. */
  lemma StripFrom(body: string, start: nat) returns (k: nat)
    requires start < |body| && !IsSpace(body[|body| - 1])
    ensures start <= k < |body| && Strip(body[start..]) == body[k..] && !IsSpace(body[k])
    ensures forall j :: start <= j < k ==> IsSpace(body[j])
  {
    hide IsSpace;
    var rest := body[start..];
    k := start + SkipSpace(rest, 0);
    assert rest[|rest| - 1] == body[|body| - 1];
    assert rest[k - start..] == body[k..];
    assert SkipSpaceBack(body[k..], |body| - k) == |body| - k;
    forall j | start <= j < k
      ensures IsSpace(body[j])
    {
      assert body[j] == rest[j - start];
    }
  }

  lemma TailFromStart(body: string, n: nat, start: nat)
    requires 0 < n < |body| && !IsSpace(body[|body| - 1]) && start == TailStart(body, n)
    ensures var t := Strip(body[start..]);
      IsSuffix(t, body) && t != "" && |t| <= n && FirstWordFrom(body, n, |t|)
  {
    hide IsSpace;
    hide Strip;
    var from := |body| - n;
    assert start < |body|;
    var k := StripFrom(body, start);
    if start > from {
      assert FirstSpace(body, from) == start - 1;
      assert NoWordStart(body, from, k);
      assert WordStart(body, k);
    } else if k > from || IsSpace(body[from - 1]) {
      assert NoWordStart(body, from, k);
      assert WordStart(body, k);
    } else {
      assert FirstSpace(body, from) == |body|;
      assert NoWordStart(body, from, |body|);
    }
  }

  lemma CarryFacts(cfg: Config, st: State, carryOverlap: bool)
    ensures var c := CarryOver(cfg, st, carryOverlap); |c| <= OverlapChars(cfg, st) && IsSuffix(c, EmittedBody(st))
    ensures !carryOverlap ==> CarryOver(cfg, st, carryOverlap) == ""
  {
    hide Strip;
    hide EmittedBody;
    if EmittedBody(st) != "" && OverlapChars(cfg, st) > 0 {
      TailLongest(EmittedBody(st), OverlapChars(cfg, st));
    }
  }

  // ---- rendering -----------------------------------------------------------------------------------

  lemma RenderSnoc(carry: string, pieces: seq<Piece>, piece: Piece)
    ensures Render(carry, pieces + [piece]) == Attach(Render(carry, pieces), piece)
  {
    assert (pieces + [piece])[..|pieces|] == pieces;
  }

  /** No piece is empty, and only whitespace goes between two of them. */
  predicate WithText(pieces: seq<Piece>) {
    forall i :: 0 <= i < |pieces| ==> pieces[i].text != "" && Blank(pieces[i].sep)
  }

  /** A chunk only grows: the front of its pieces renders to a front of its body. */
  lemma {:induction false} RenderPrefix(carry: string, pieces: seq<Piece>, k: nat)
    requires k <= |pieces| && WithText(pieces)
    requires k < |pieces| ==> Render(carry, pieces[..k]) != ""
    ensures Render(carry, pieces[..k]) <= Render(carry, pieces)
  {
    if k < |pieces| {
      var front := pieces[..|pieces| - 1];
      assert front[..k] == pieces[..k];
      RenderPrefix(carry, front, k);
    } else {
      assert pieces[..k] == pieces;
    }
  }

  lemma RenderNonEmpty(carry: string, pieces: seq<Piece>)
    requires pieces != [] && WithText(pieces)
    ensures Render(carry, pieces) != ""
  {
    assert Last(pieces).text != "";
  }

  function PagesOf(pieces: seq<Piece>): set<nat> {
    if pieces == [] then {} else PagesOf(pieces[..|pieces| - 1]) + Last(pieces).pages
  }

  /** The pieces that are text of the document, not inline heading labels. */
  function OnlyText(pieces: seq<Piece>): seq<Piece> {
    if pieces == [] then []
    else OnlyText(pieces[..|pieces| - 1]) + (if Last(pieces).kind == Heading then [] else [Last(pieces)])
  }

  predicate Labels(pieces: seq<Piece>) {
    forall i :: 0 <= i < |pieces| ==> pieces[i].kind == Heading && pieces[i].pages == {}
  }

  lemma {:induction false} SnocFacts(pieces: seq<Piece>, piece: Piece)
    ensures PagesOf(pieces + [piece]) == PagesOf(pieces) + piece.pages
    ensures OnlyText(pieces + [piece]) == OnlyText(pieces) + OnlyText([piece])
    ensures OnlyText([piece]) == if piece.kind == Heading then [] else [piece]
  {
    assert (pieces + [piece])[..|pieces|] == pieces;
    assert OnlyText([]) == [];
    assert [piece][..0] == [];
  }

  /** A trailing label adds neither pages nor text. */
  lemma {:induction false} LabelsFacts(pieces: seq<Piece>, k: nat)
    requires k <= |pieces| && Labels(pieces[k..])
    ensures PagesOf(pieces) == PagesOf(pieces[..k]) && OnlyText(pieces) == OnlyText(pieces[..k])
  {
    if k < |pieces| {
      var n := |pieces| - 1;
      assert pieces[k..][n - k] == pieces[n];
      assert pieces[..n][k..] == pieces[k..][..n - k];
      assert pieces[..n][..k] == pieces[..k];
      LabelsFacts(pieces[..n], k);
    } else {
      assert pieces[..k] == pieces;
    }
  }

  // ---- the open chunk ------------------------------------------------------------------------------

  /** The program's fields agree with the history of the open chunk.  The chunk starts with text, in the
      section of its first piece. */
  predicate ChunkOk(st: State) {
    var h := st.hist;
    && st.body == Render(h.carry, h.pieces)
    && (st.unsent <==> h.pieces != [])
    && (!st.unsent ==> st.chunkSection == st.section && st.before.None?)
    && (h.carry == "" ==> h.carryPages == {})
    && st.pages == h.carryPages + PagesOf(h.pieces)
    && WithText(h.pieces)
    && (st.unsent ==> h.pieces[0].kind != Heading && h.pieces[0].section == st.chunkSection
                      && st.lastKind == Some(Last(h.pieces).kind) && st.lastPages == Last(h.pieces).pages)
    && KeptOk(st)
  }

  predicate KeptOk(st: State) {
    var h := st.hist;
    && h.kept <= |h.pieces|
    && (st.before.None? ==> h.kept == |h.pieces|)
    && (st.before.Some? ==> 0 < h.kept < |h.pieces| && st.lastKind == Some(Heading)
                            && st.before.value == Render(h.carry, h.pieces[..h.kept]) && Labels(h.pieces[h.kept..]))
  }

  /** Between two calls the open chunk holds no overlap of its own: overlap only comes with new text. */
  predicate Settled(st: State) {
    !st.unsent ==> st.hist.carry == ""
  }

  predicate Bounded(cfg: Config, st: State) {
    |st.body| <= cfg.budget(st.chunkSection)
  }

  lemma FlushChunk(cfg: Config, st: State, carryOverlap: bool, cause: Cause)
    requires ChunkOk(st) && Bounded(cfg, st)
    ensures var f := Flush(cfg, st, carryOverlap, cause);
      && ChunkOk(f) && Bounded(cfg, f) && !f.unsent && f.section == st.section
      && (!carryOverlap ==> Settled(f))
  {
    CarryFacts(cfg, st, carryOverlap);
    var f := Flush(cfg, st, carryOverlap, cause);
    assert PagesOf(f.hist.pieces) == {};
    assert |f.body| <= cfg.budget(st.section);
  }

  lemma AddChunk(cfg: Config, st: State, piece: Piece)
    requires ChunkOk(st) && WithText([piece]) && piece.section == st.section
    requires !st.unsent ==> piece.kind != Heading
    ensures ChunkOk(Add(st, piece)) && Settled(Add(st, piece))
  {
    hide Render;
    hide PagesOf;
    hide OnlyText;
    hide Attach;
    var h := st.hist;
    RenderSnoc(h.carry, h.pieces, piece);
    SnocFacts(h.pieces, piece);
    assert Last(h.pieces + [piece]) == piece;
    if st.unsent {
      assert (h.pieces + [piece])[0] == h.pieces[0];
    } else {
      assert h.pieces + [piece] == [piece];
    }
  }

  /** Every append keeps the budget and the open chunk's consistency; the tight budget never shrinks. */
  lemma PutChunk(cfg: Config, st: State, piece: Piece)
    requires ChunkOk(st) && Bounded(cfg, st) && WithText([piece]) && piece.section == st.section
    requires piece.kind != Heading || (st.unsent && !Overflows(cfg, st, piece))
    requires |piece.text| <= TightBudget(cfg, st)
    ensures var p := Put(cfg, st, piece);
      && ChunkOk(p) && Settled(p) && Bounded(cfg, p) && p.section == st.section && p.unsent
      && TightBudget(cfg, p) >= TightBudget(cfg, st)
  {
    if Overflows(cfg, st, piece) {
      FlushChunk(cfg, st, piece.kind != Table, Full);
    }
    AddChunk(cfg, MakeRoom(cfg, st, piece), piece);
  }

  // ---- pouring in a list of pieces -------------------------------------------------------------------

  /** Pieces cut for a chunk with the given tight budget, all of them read in one section. */
  predicate FitPieces(pieces: seq<Piece>, limit: nat, section: seq<string>) {
    forall i :: 0 <= i < |pieces| ==>
      0 < |pieces[i].text| <= limit && pieces[i].section == section && Blank(pieces[i].sep)
  }

  predicate NoHeadings(pieces: seq<Piece>) {
    forall i :: 0 <= i < |pieces| ==> pieces[i].kind != Heading
  }

  /** Pieces computed up front still fit every later chunk: the tight budget only grows while they are
      poured in, so `append` never has to split one of them again. */
  lemma {:induction false} PutAllChunk(cfg: Config, st: State, pieces: seq<Piece>)
    requires ChunkOk(st) && Bounded(cfg, st) && Settled(st)
    requires FitPieces(pieces, TightBudget(cfg, st), st.section) && NoHeadings(pieces)
    ensures var p := PutAll(cfg, st, pieces);
      && ChunkOk(p) && Bounded(cfg, p) && Settled(p) && p.section == st.section
      && TightBudget(cfg, p) >= TightBudget(cfg, st)
      && (pieces != [] ==> p.unsent && p.lastKind == Some(Last(pieces).kind))
  {
    if pieces != [] {
      PutAllChunk(cfg, st, pieces[..|pieces| - 1]);
      PutChunk(cfg, PutAll(cfg, st, pieces[..|pieces| - 1]), Last(pieces));
    }
  }

  /** The characters the pieces take in an open chunk, separators included. */
  function Length(pieces: seq<Piece>): nat {
    if pieces == [] then 0 else Length(pieces[..|pieces| - 1]) + |Last(pieces).sep| + |Last(pieces).text|
  }

  /** `st` with the pieces attached to its open chunk. */
  predicate Grown(st: State, pieces: seq<Piece>, grown: State) {
    && grown.drafts == st.drafts && grown.section == st.section && grown.chunkSection == st.chunkSection
    && grown.hist.log == st.hist.log && grown.hist.carry == st.hist.carry && grown.hist.carryPages == st.hist.carryPages
    && grown.hist.pieces == st.hist.pieces + pieces && |grown.body| == |st.body| + Length(pieces)
  }

  predicate Open(cfg: Config, st: State) {
    ChunkOk(st) && Bounded(cfg, st) && Settled(st) && st.unsent
  }

  /** A piece that fits goes into the open chunk. */
  lemma PutGrows(cfg: Config, st: State, piece: Piece)
    requires Open(cfg, st) && WithText([piece]) && |piece.text| <= TightBudget(cfg, st) && piece.section == st.section
    requires |st.body| + |piece.sep| + |piece.text| <= cfg.budget(st.chunkSection)
    ensures var p := Put(cfg, st, piece);
      && Open(cfg, p) && Grown(st, [piece], p) && p.before.None? && p.lastKind == Some(piece.kind)
  {
    RenderNonEmpty(st.hist.carry, st.hist.pieces);
    PutChunk(cfg, st, piece);
    assert [piece][..0] == [];
  }

  lemma LengthOne(piece: Piece)
    ensures Length([piece]) == |piece.sep| + |piece.text|
  {
    assert [piece][..0] == [];
    assert Length([]) == 0;
  }

  lemma GrownSnoc(a: State, b: State, c: State, pieces: seq<Piece>, piece: Piece)
    requires Grown(a, pieces, b) && Grown(b, [piece], c)
    ensures Grown(a, pieces + [piece], c)
  {
    assert (pieces + [piece])[..|pieces|] == pieces;
    LengthOne(piece);
    assert Last(pieces + [piece]) == piece;
    Assoc(a.hist.pieces, pieces, [piece]);
  }

  /** When all of them fit, the pieces go into the open chunk and nothing is closed. */
  lemma {:induction false} PutAllGrows(cfg: Config, st: State, pieces: seq<Piece>)
    requires Open(cfg, st) && FitPieces(pieces, TightBudget(cfg, st), st.section)
    requires |st.body| + Length(pieces) <= cfg.budget(st.chunkSection)
    ensures var p := PutAll(cfg, st, pieces);
      && Open(cfg, p) && Grown(st, pieces, p)
      && (pieces != [] ==> p.before.None? && p.lastKind == Some(Last(pieces).kind))
  {
    hide Open;
    hide Put;
    if pieces != [] {
      var n := |pieces| - 1;
      var front := PutAll(cfg, st, pieces[..n]);
      PutAllGrows(cfg, st, pieces[..n]);
      assert Length(pieces) == Length(pieces[..n]) + |pieces[n].sep| + |pieces[n].text|;
      PutGrows(cfg, front, pieces[n]);
      GrownSnoc(st, front, PutAll(cfg, st, pieces), pieces[..n], pieces[n]);
      assert pieces == pieces[..n] + [pieces[n]];
    } else {
      assert st.hist.pieces + [] == st.hist.pieces;
    }
  }

  lemma {:induction false} GlueLength(parts: seq<Part>, kind: Kind, pages: set<nat>, section: seq<string>)
    ensures Length(ToPieces(parts, kind, pages, section)) == |Glue(parts)|
  {
    var ps := ToPieces(parts, kind, pages, section);
    if parts != [] {
      var n := |parts| - 1;
      GlueLength(parts[..n], kind, pages, section);
      assert ps[..n] == ToPieces(parts[..n], kind, pages, section);
      GlueConcat(parts[..n], [parts[n]]);
      assert parts == parts[..n] + [parts[n]];
      assert Glue([parts[n]]) == parts[n].sep + parts[n].text + Glue([]);
    }
  }

  /** The pieces of an inline heading label: one, or its hard-split parts. */
  function LabelPieces(cfg: Config, st: State, title: string): seq<Piece> {
    var parts := if |title| > TightBudget(cfg, st) then Reseparate(HardSplit(title, PieceLimit(cfg, st)), "\n\n")
                 else [Part(title, "\n\n")];
    ToPieces(parts, Heading, {}, st.section)
  }

  /** Only the first piece of a label starts a paragraph. */
  predicate OneParagraphStart(pieces: seq<Piece>) {
    forall i :: 0 < i < |pieces| ==> pieces[i].sep != "\n\n"
  }

  lemma LabelParts(cfg: Config, st: State, title: string)
    requires title != "" && !IsSpace(title[0])
    ensures var ps := LabelPieces(cfg, st, title);
      && ps != [] && Labels(ps) && OneParagraphStart(ps) && FitPieces(ps, TightBudget(cfg, st), st.section)
      && Length(ps) <= 2 + |title| && LabelReads(ps, st.section, title)
  {
    if |title| > TightBudget(cfg, st) {
      SplitLabel(title, PieceLimit(cfg, st), st.section);
    } else {
      LengthOne(Piece(title, "\n\n", Heading, {}, st.section));
      assert LabelPieces(cfg, st, title) == [Piece(title, "\n\n", Heading, {}, st.section)];
      PartsOfPieces([Part(title, "\n\n")], Heading, {}, st.section);
      assert Body([Part(title, "\n\n")]) == title;
    }
  }

  lemma SplitLabel(title: string, limit: nat, section: seq<string>)
    requires title != "" && !IsSpace(title[0]) && limit >= 1
    ensures var ps := ToPieces(Reseparate(HardSplit(title, limit), "\n\n"), Heading, {}, section);
      && ps != [] && Labels(ps) && OneParagraphStart(ps) && FitPieces(ps, limit, section)
      && Length(ps) <= 2 + |title| && LabelReads(ps, section, title)
  {
    hide Words;
    hide Body;
    hide HardSplit;
    hide IsSpace;
    var parts := HardSplit(title, limit);
    var qs := Reseparate(parts, "\n\n");
    HardSplitWhole(title, limit);
    HardSplitSome(title, limit);
    ReseparateGlue(parts, "\n\n");
    GlueLength(qs, Heading, {}, section);
    PartsOfPieces(qs, Heading, {}, section);
    assert Blank("\n\n") by { NewLines(); }
    assert forall i :: 0 < i < |qs| ==> qs[i] == parts[i];
  }

  lemma NewLines()
    ensures Blank("\n\n")
  {
  }

  lemma HardSplitSome(title: string, limit: nat)
    requires title != "" && !IsSpace(title[0]) && limit >= 1
    ensures HardSplit(title, limit) != []
  {
    HardSplitWhole(title, limit);
    assert Words("") == [];
    assert Words(title) != [];
    assert Body([]) == "";
  }

  /** A label's pieces are no longer than the label, so a label that fits stays in the open chunk even
      when it has to be hard-split: showing a heading inline never closes a chunk. */
  lemma LabelGrows(cfg: Config, st: State, title: string)
    requires Open(cfg, st) && title != "" && !IsSpace(title[0])
    requires |st.body| + 2 + |title| <= cfg.budget(st.chunkSection)
    ensures var p := Append(cfg, st, title, {}, "\n\n", Heading);
      && Open(cfg, p) && Grown(st, LabelPieces(cfg, st, title), p)
      && p.before.None? && p.lastKind == Some(Heading)
  {
    var ps := LabelPieces(cfg, st, title);
    LabelParts(cfg, st, title);
    PutAllGrows(cfg, st, ps);
    assert Last(ps).kind == Heading;
    if |title| <= TightBudget(cfg, st) {
      assert ps == [Piece(title, "\n\n", Heading, {}, st.section)];
      assert ps[..0] == [];
      assert PutAll(cfg, st, ps) == Put(cfg, PutAll(cfg, st, ps[..0]), ps[0]);
    }
  }

  // ---- the closed chunks -----------------------------------------------------------------------------

  /** The draft of a closed chunk; a chunk of nothing but whitespace is not emitted. */
  function EmittedBy(e: Closed): seq<Draft> {
    var body := Strip(Render(e.carry, e.pieces));
    if body == "" then [] else [Draft(body, e.section, SortedPages(e.carryPages + PagesOf(e.pieces)))]
  }

  function Emitted(log: seq<Closed>): seq<Draft> {
    if log == [] then [] else Emitted(log[..|log| - 1]) + EmittedBy(Last(log))
  }

  /** A heading is shown inline only while the chunk is smaller than `minChars`, and only when its label has
      room there.  What is shown are the words of that label. */
  predicate InlineOk(cfg: Config, section: seq<string>, carry: string, pieces: seq<Piece>) {
    forall k :: 0 <= k < |pieces| && pieces[k].kind == Heading && pieces[k].sep == "\n\n" ==>
      k > 0 && LabelAt(cfg, section, carry, pieces, k)
  }

  predicate LabelAt(cfg: Config, section: seq<string>, carry: string, pieces: seq<Piece>, k: nat)
    requires 0 < k < |pieces|
  {
    var shown := HeadingLabel(pieces[k - 1].section, pieces[k].section);
    && pieces[k].section != pieces[k - 1].section
    && SmallWithRoom(cfg, section, Render(carry, pieces[..k]), shown)
    && exists end :: k < end <= |pieces| && LabelReads(pieces[k..end], pieces[k].section, shown)
  }

  predicate SmallWithRoom(cfg: Config, section: seq<string>, body: string, shown: string) {
    |Strip(body)| < cfg.minChars && |body| + 2 + |shown| <= cfg.budget(section)
  }

  predicate LabelReads(labels: seq<Piece>, section: seq<string>, shown: string) {
    && Labels(labels) && (forall i :: 0 <= i < |labels| ==> labels[i].section == section)
    && Words(Body(ToParts(labels))) == Words(shown)
  }

  /** Some other section whose label has no room behind the body: the reason to close a small chunk. */
  predicate NoRoomFor(cfg: Config, section: seq<string>, body: string, current: seq<string>, path: seq<string>) {
    && path != current && PathOk(path) && |Strip(body)| < cfg.minChars
    && |body| + 2 + |HeadingLabel(current, path)| > cfg.budget(section)
  }

  ghost predicate ClosedOk(cfg: Config, e: Closed) {
    var all := e.pieces + e.dropped;
    && e.pieces != [] && WithText(e.pieces) && Labels(e.dropped)
    && e.pieces[0].kind != Heading && e.section == e.pieces[0].section
    && (e.carry == "" ==> e.carryPages == {})
    && |Render(e.carry, e.pieces)| <= cfg.budget(e.section)
    && InlineOk(cfg, e.section, e.carry, all)
    && CauseOk(cfg, e.section, e.carry, all, e.cause)
  }

  /** A heading closes a chunk that is large enough, or that has no room for the heading's label. */
  ghost predicate CauseOk(cfg: Config, section: seq<string>, carry: string, all: seq<Piece>, cause: Cause)
    requires all != []
  {
    && (cause == AtHeading ==> |Strip(Render(carry, all))| >= cfg.minChars)
    && (cause == NoRoom ==> exists path :: NoRoomFor(cfg, section, Render(carry, all), Last(all).section, path))
  }

  /** The overlap the chunk that starts with `first` opens with: after a full chunk prose continues prose with
      the end of the chunk before, unless the piece would not fit behind it. */
  function Overlap(cfg: Config, prev: Closed, section: seq<string>, first: Piece): string
    requires prev.pieces + prev.dropped != []
  {
    var last := Last(prev.pieces + prev.dropped);
    var tail := Tail(Strip(Render(prev.carry, prev.pieces)),
                     Min(cfg.overlap, Min(cfg.budget(prev.section), cfg.budget(section)) / 3));
    if prev.cause == Full && first.kind != Table && last.kind != Table && last.kind != Heading
       && |tail| + |first.sep| + |first.text| <= cfg.budget(section)
    then tail else ""
  }

  /** How the chunk that starts with `first` follows the closed chunk `prev`: with exactly that overlap, and
      with the pages it came from.  A chunk is full only when the next piece really does not fit, and gives
      way to a heading without being large enough only when the heading's label does not fit. */
  predicate Linked(cfg: Config, prev: Closed, section: seq<string>, carry: string, carryPages: set<nat>, first: Piece) {
    var all := prev.pieces + prev.dropped;
    && all != [] && prev.cause != AtEnd
    && carry == Overlap(cfg, prev, section, first) && (carry != "" ==> carryPages == Last(all).pages)
    && (prev.cause == Full ==>
          |Render(prev.carry, all)| + |first.sep| + |first.text| > cfg.budget(prev.section))
  }

  ghost predicate LogOk(cfg: Config, log: seq<Closed>) {
    && (forall i :: 0 <= i < |log| ==> ClosedOk(cfg, log[i]))
    && (log != [] ==> log[0].carry == "")
    && forall i, j :: 0 <= i < |log| && j == i + 1 && j < |log| ==>
         Linked(cfg, log[i], log[j].section, log[j].carry, log[j].carryPages, log[j].pieces[0])
  }

  ghost predicate OpenLinked(cfg: Config, st: State) {
    var h := st.hist;
    && InlineOk(cfg, st.chunkSection, h.carry, h.pieces)
    && (h.log == [] ==> h.carry == "")
    && (h.log != [] && h.pieces != [] ==>
          Linked(cfg, Last(h.log), st.chunkSection, h.carry, h.carryPages, h.pieces[0]))
    && (h.log != [] && h.pieces == [] ==> Last(h.log).cause == AtHeading || Last(h.log).cause == NoRoom)
  }

  /** While text is unsent, the section being read is that of the last piece. */
  predicate Current(st: State) {
    st.hist.pieces != [] ==> Last(st.hist.pieces).section == st.section
  }

  ghost predicate Inv(cfg: Config, st: State) {
    Sound(cfg, st) && Current(st)
  }

  ghost predicate Sound(cfg: Config, st: State) {
    && ChunkOk(st) && Bounded(cfg, st) && Settled(st)
    && st.drafts == Emitted(st.hist.log) && LogOk(cfg, st.hist.log) && OpenLinked(cfg, st)
  }

  lemma CloseParts(cfg: Config, st: State, cause: Cause)
    requires ChunkOk(st) && st.unsent
    ensures var e := Close(st, cause);
      && e.pieces + e.dropped == st.hist.pieces && e.pieces != [] && e.pieces[0] == st.hist.pieces[0]
      && EmittedBody(st) == Strip(Render(st.hist.carry, e.pieces))
      && st.pages == st.hist.carryPages + PagesOf(e.pieces)
      && Labels(e.dropped) && WithText(e.pieces)
  {
    var h := st.hist;
    assert h.pieces[..h.kept] + h.pieces[h.kept..] == h.pieces;
    LabelsFacts(h.pieces, h.kept);
    if st.before.None? {
      assert h.pieces[..h.kept] == h.pieces;
    }
  }

  lemma CloseOk(cfg: Config, st: State, cause: Cause)
    requires ChunkOk(st) && Bounded(cfg, st) && InlineOk(cfg, st.chunkSection, st.hist.carry, st.hist.pieces) && st.unsent
    requires CauseOk(cfg, st.chunkSection, st.hist.carry, st.hist.pieces, cause)
    ensures ClosedOk(cfg, Close(st, cause))
  {
    CloseParts(cfg, st, cause);
    RenderNonEmpty(st.hist.carry, Close(st, cause).pieces);
    RenderPrefix(st.hist.carry, st.hist.pieces, st.hist.kept);
  }

  lemma {:induction false} LogSnoc(cfg: Config, log: seq<Closed>, e: Closed)
    requires LogOk(cfg, log) && ClosedOk(cfg, e)
    requires log == [] ==> e.carry == ""
    requires log != [] ==> Linked(cfg, Last(log), e.section, e.carry, e.carryPages, e.pieces[0])
    ensures LogOk(cfg, log + [e])
    ensures Emitted(log + [e]) == Emitted(log) + EmittedBy(e)
  {
    assert (log + [e])[..|log|] == log;
  }

  /** Closing a chunk keeps the log in order and emits exactly its draft. */
  lemma FlushLog(cfg: Config, st: State, carryOverlap: bool, cause: Cause)
    requires Sound(cfg, st)
    requires st.unsent ==> CauseOk(cfg, st.chunkSection, st.hist.carry, st.hist.pieces, cause)
    ensures var f := Flush(cfg, st, carryOverlap, cause);
      && f.drafts == Emitted(f.hist.log) && LogOk(cfg, f.hist.log)
      && f.hist.log == if st.unsent then st.hist.log + [Close(st, cause)] else st.hist.log
  {
    if st.unsent {
      var e := Close(st, cause);
      CloseOk(cfg, st, cause);
      CloseParts(cfg, st, cause);
      LogSnoc(cfg, st.hist.log, e);
      if EmittedBody(st) == "" {
        assert Emitted(st.hist.log) + [] == Emitted(st.hist.log);
      }
    }
  }

  /** Labels shown so far stay as they are when pieces are added. */
  lemma LabelStays(cfg: Config, section: seq<string>, carry: string, pieces: seq<Piece>, more: seq<Piece>, k: nat)
    requires 0 < k < |pieces| && LabelAt(cfg, section, carry, pieces, k)
    ensures LabelAt(cfg, section, carry, pieces + more, k)
  {
    hide SmallWithRoom;
    hide LabelReads;
    var all := pieces + more;
    var shown := HeadingLabel(pieces[k - 1].section, pieces[k].section);
    var end :| k < end <= |pieces| && LabelReads(pieces[k..end], pieces[k].section, shown);
    assert all[k..end] == pieces[k..end];
    assert all[..k] == pieces[..k];
  }

  lemma InlineSnoc(cfg: Config, section: seq<string>, carry: string, pieces: seq<Piece>, piece: Piece)
    requires InlineOk(cfg, section, carry, pieces) && piece.kind != Heading
    ensures InlineOk(cfg, section, carry, pieces + [piece])
  {
    hide LabelAt;
    var all := pieces + [piece];
    forall k | 0 <= k < |all| && all[k].kind == Heading && all[k].sep == "\n\n"
      ensures k > 0 && LabelAt(cfg, section, carry, all, k)
    {
      assert all[k] == pieces[k];
      LabelStays(cfg, section, carry, pieces, [piece], k);
    }
  }

  /** The overlap handed over by a full chunk, and the piece that found no room. */
  lemma FullLink(cfg: Config, st: State, piece: Piece)
    requires Inv(cfg, st) && Overflows(cfg, st, piece)
    ensures st.unsent
    ensures var m := MakeRoom(cfg, st, piece);
      Linked(cfg, Close(st, Full), m.chunkSection, m.hist.carry, m.hist.carryPages, piece)
  {
    assert st.unsent;
    CloseParts(cfg, st, Full);
  }

  lemma MakeRoomInv(cfg: Config, st: State, piece: Piece)
    requires Inv(cfg, st) && Overflows(cfg, st, piece)
    ensures var m := MakeRoom(cfg, st, piece);
      && m.drafts == Emitted(m.hist.log) && LogOk(cfg, m.hist.log) && st.unsent
      && m.hist.log == st.hist.log + [Close(st, Full)] && m.hist.pieces == [] && m.section == st.section
  {
    FullLink(cfg, st, piece);
    FlushLog(cfg, st, piece.kind != Table, Full);
  }

  /** Appending one piece of text. */
  lemma PutInv(cfg: Config, st: State, piece: Piece)
    requires Inv(cfg, st) && piece.section == st.section && piece.kind != Heading
    requires WithText([piece]) && |piece.text| <= TightBudget(cfg, st)
    ensures Inv(cfg, Put(cfg, st, piece))
  {
    hide LogOk;
    hide Linked;
    PutChunk(cfg, st, piece);
    if Overflows(cfg, st, piece) {
      MakeRoomInv(cfg, st, piece);
    }
    PutLinked(cfg, st, piece);
    assert Last(MakeRoom(cfg, st, piece).hist.pieces + [piece]) == piece;
  }

  lemma PutLinked(cfg: Config, st: State, piece: Piece)
    requires Inv(cfg, st) && piece.section == st.section && piece.kind != Heading
    ensures OpenLinked(cfg, Put(cfg, st, piece))
  {
    hide LogOk;
    hide LabelAt;
    hide Linked;
    var m := MakeRoom(cfg, st, piece);
    if Overflows(cfg, st, piece) {
      MakeRoomInv(cfg, st, piece);
      FullLink(cfg, st, piece);
      assert ([] + [piece])[0] == piece;
      assert Last(m.hist.log) == Close(st, Full);
    } else if st.unsent {
      assert (st.hist.pieces + [piece])[0] == st.hist.pieces[0];
    } else {
      assert (st.hist.pieces + [piece])[0] == piece;
      if st.hist.log != [] {
        FreshLink(cfg, st, piece);
      }
    }
    InlineSnoc(cfg, m.chunkSection, m.hist.carry, m.hist.pieces, piece);
  }

  /** The first piece after a heading has closed the last chunk: no overlap. */
  lemma FreshLink(cfg: Config, st: State, piece: Piece)
    requires Inv(cfg, st) && !st.unsent && st.hist.log != []
    ensures Linked(cfg, Last(st.hist.log), st.chunkSection, st.hist.carry, st.hist.carryPages, piece)
  {
    assert ClosedOk(cfg, Last(st.hist.log));
  }

  lemma PutNextInv(cfg: Config, limit: nat, st: State, pieces: seq<Piece>)
    requires Inv(cfg, st) && TightBudget(cfg, st) >= limit
    requires pieces != [] && FitPieces(pieces, limit, st.section) && NoHeadings(pieces)
    ensures Inv(cfg, Put(cfg, st, Last(pieces)))
  {
    hide Inv;
    hide Put;
    hide Blank;
    PutInv(cfg, st, Last(pieces));
  }

  lemma {:induction false} PutAllInv(cfg: Config, st: State, pieces: seq<Piece>)
    requires Inv(cfg, st) && FitPieces(pieces, TightBudget(cfg, st), st.section) && NoHeadings(pieces)
    ensures Inv(cfg, PutAll(cfg, st, pieces)) && PutAll(cfg, st, pieces).section == st.section
  {
    hide LogOk;
    hide OpenLinked;
    hide ChunkOk;
    hide Put;
    hide Blank;
    if pieces != [] {
      PutAllInv(cfg, st, pieces[..|pieces| - 1]);
      PutAllChunk(cfg, st, pieces[..|pieces| - 1]);
      PutNextInv(cfg, TightBudget(cfg, st), PutAll(cfg, st, pieces[..|pieces| - 1]), pieces);
      PutAllChunk(cfg, st, pieces);
    }
  }

  // ---- text: nothing lost, nothing repeated ------------------------------------------------------------

  function LogText(log: seq<Closed>): seq<Piece> {
    if log == [] then [] else LogText(log[..|log| - 1]) + OnlyText(Last(log).pieces)
  }

  /** Every piece of document text taken in so far, in order. */
  function AllText(st: State): seq<Piece> {
    LogText(st.hist.log) + OnlyText(st.hist.pieces)
  }

  lemma LogTextSnoc(log: seq<Closed>, e: Closed)
    ensures LogText(log + [e]) == LogText(log) + OnlyText(e.pieces)
  {
    assert (log + [e])[..|log|] == log;
  }

  /** Closing a chunk loses no text: what is left out is a heading label. */
  lemma FlushText(cfg: Config, st: State, carryOverlap: bool, cause: Cause)
    requires ChunkOk(st)
    ensures AllText(Flush(cfg, st, carryOverlap, cause)) == AllText(st)
  {
    var f := Flush(cfg, st, carryOverlap, cause);
    assert OnlyText([]) == [];
    assert AllText(f) == LogText(f.hist.log);
    if st.unsent {
      LogTextSnoc(st.hist.log, Close(st, cause));
      LabelsFacts(st.hist.pieces, st.hist.kept);
      if st.before.None? {
        assert st.hist.pieces[..st.hist.kept] == st.hist.pieces;
      }
    } else {
      assert LogText(st.hist.log) + [] == LogText(st.hist.log);
    }
  }

  lemma PutText(cfg: Config, st: State, piece: Piece)
    requires ChunkOk(st)
    ensures AllText(Put(cfg, st, piece)) == AllText(st) + OnlyText([piece])
  {
    var m := MakeRoom(cfg, st, piece);
    if Overflows(cfg, st, piece) {
      FlushText(cfg, st, piece.kind != Table, Full);
    }
    assert AllText(m) == AllText(st);
    SnocFacts(m.hist.pieces, piece);
    Assoc(LogText(m.hist.log), OnlyText(m.hist.pieces), OnlyText([piece]));
  }

  lemma PutOneText(cfg: Config, st: State, before: seq<Piece>, pieces: seq<Piece>)
    requires ChunkOk(st) && pieces != [] && Last(pieces).kind != Heading
    requires AllText(st) == before + pieces[..|pieces| - 1]
    ensures AllText(Put(cfg, st, Last(pieces))) == before + pieces
  {
    hide Put;
    hide ChunkOk;
    hide AllText;
    PutText(cfg, st, Last(pieces));
    SnocFacts([], Last(pieces));
    Assoc(before, pieces[..|pieces| - 1], [Last(pieces)]);
    assert pieces[..|pieces| - 1] + [Last(pieces)] == pieces;
  }

  lemma {:induction false} PutAllText(cfg: Config, st: State, pieces: seq<Piece>)
    requires ChunkOk(st) && Bounded(cfg, st) && Settled(st)
    requires FitPieces(pieces, TightBudget(cfg, st), st.section) && NoHeadings(pieces)
    ensures AllText(PutAll(cfg, st, pieces)) == AllText(st) + pieces
  {
    if pieces == [] {
      assert AllText(st) + [] == AllText(st);
    } else {
      PutAllText(cfg, st, pieces[..|pieces| - 1]);
      PutAllChunk(cfg, st, pieces[..|pieces| - 1]);
      PutOneText(cfg, PutAll(cfg, st, pieces[..|pieces| - 1]), AllText(st), pieces);
    }
  }

  // ---- entering a section --------------------------------------------------------------------------------

  predicate PathOk(path: seq<string>) {
    path != [] && forall i :: 0 <= i < |path| ==> path[i] != "" && !IsSpace(path[i][0])
  }

  lemma JoinStart(parts: seq<string>, sep: string)
    requires parts != [] && parts[0] != ""
    ensures Join(parts, sep) != "" && Join(parts, sep)[0] == parts[0][0]
  {
  }

  /** A text cut to `limit` characters: its front without trailing whitespace, and an ellipsis. */
  predicate ShownShort(text: string, limit: nat, shown: string) {
    if |text| <= limit then shown == text
    else exists n :: 0 < n < limit && shown == text[..n] + "\U{2026}" && Blank(text[n..limit - 1]) && !IsSpace(text[n - 1])
  }

  /** What an inline label says: the new path behind its longest common front with the old one, or its last
      title when all of it is common, in 300 characters. */
  lemma HeadingLabelReads(section: seq<string>, path: seq<string>) returns (k: nat)
    requires PathOk(path)
    ensures k <= |section| && k <= |path| && section[..k] == path[..k]
    ensures k < |section| && k < |path| ==> section[k] != path[k]
    ensures ShownShort(if k < |path| then Join(path[k..], " \U{203A} ") else path[|path| - 1], 300, HeadingLabel(section, path))
  {
    hide ShownShort;
    hide Truncate;
    k := CommonPrefix(section, path);
    if k < |path| {
      assert path[k..][0] in path;
      JoinStart(path[k..], SECTION_SEP);
    }
    TruncateShows(if k < |path| then Join(path[k..], SECTION_SEP) else path[|path| - 1], 300);
  }

  lemma TruncateShows(text: string, limit: nat)
    requires limit >= 2 && text != "" && !IsSpace(text[0])
    ensures ShownShort(text, limit, Truncate(text, limit))
  {
    hide IsSpace;
    if |text| > limit {
      var cut := text[..limit - 1];
      var n := SkipSpaceBack(cut, |cut|);
      assert n > 0 by {
        assert !IsSpace(cut[0]);
      }
      assert RStrip(cut) == text[..n];
    }
  }

  lemma TitleStart(section: seq<string>, path: seq<string>)
    requires PathOk(path)
    ensures HeadingLabel(section, path) != "" && !IsSpace(HeadingLabel(section, path)[0])
  {
    var rest := path[CommonPrefix(section, path)..];
    if rest != [] {
      assert rest[0] in path;
      JoinStart(rest, SECTION_SEP);
      TruncateStart(Join(rest, SECTION_SEP), MAX_INLINE_HEADING_CHARS);
    } else {
      TruncateStart(path[|path| - 1], MAX_INLINE_HEADING_CHARS);
    }
  }

  lemma TruncateStart(text: string, limit: int)
    requires limit >= 2 && text != "" && !IsSpace(text[0])
    ensures Truncate(text, limit) != "" && Truncate(text, limit)[0] == text[0]
  {
    if |text| > limit {
      var cut := text[..Max(1, limit - 1)];
      assert SkipSpaceBack(cut, |cut|) > 0 by {
        assert !IsSpace(cut[0]);
      }
    }
  }

  lemma InlineAppend(cfg: Config, section: seq<string>, carry: string, pieces: seq<Piece>, labels: seq<Piece>, path: seq<string>)
    requires InlineOk(cfg, section, carry, pieces) && pieces != [] && OneParagraphStart(labels) && path != Last(pieces).section
    requires SmallWithRoom(cfg, section, Render(carry, pieces), HeadingLabel(Last(pieces).section, path))
    requires labels != [] && labels[0].section == path && LabelReads(labels, path, HeadingLabel(Last(pieces).section, path))
    ensures InlineOk(cfg, section, carry, pieces + labels)
  {
    hide SmallWithRoom;
    hide LabelReads;
    var all := pieces + labels;
    forall k | 0 <= k < |all| && all[k].kind == Heading && all[k].sep == "\n\n"
      ensures k > 0 && LabelAt(cfg, section, carry, all, k)
    {
      if k < |pieces| {
        assert all[k] == pieces[k];
        LabelStays(cfg, section, carry, pieces, labels, k);
      } else {
        assert all[k] == labels[k - |pieces|];
        assert all[..k] == pieces;
        assert all[k..|all|] == labels;
      }
    }
  }

  /** The state with a trailing label in the open chunk. */
  function WithLabel(shown: State, st: State): State {
    shown.(before := Some(st.body), hist := shown.hist.(kept := |st.hist.pieces|))
  }

  lemma ShowChunk(cfg: Config, st: State, path: seq<string>, labels: seq<Piece>, shown: State)
    requires ChunkOk(st) && st.unsent && labels != [] && Labels(labels)
    requires Open(cfg, shown) && Grown(st.(section := path), labels, shown) && shown.lastKind == Some(Heading)
    ensures ChunkOk(WithLabel(shown, st)) && AllText(WithLabel(shown, st)) == AllText(st)
  {
    hide Render;
    hide PagesOf;
    hide OnlyText;
    var h := st.hist;
    var all := h.pieces + labels;
    assert all[..|h.pieces|] == h.pieces;
    assert all[|h.pieces|..] == labels;
    LabelsFacts(all, |h.pieces|);
  }

  lemma ShowInline(cfg: Config, st: State, path: seq<string>, labels: seq<Piece>, shown: State)
    requires Inv(cfg, st) && st.unsent && path != st.section
    requires Open(cfg, shown) && Grown(st.(section := path), labels, shown) && shown.lastKind == Some(Heading)
    requires labels != [] && Labels(labels) && OneParagraphStart(labels)
    requires LabelReads(labels, path, HeadingLabel(st.section, path))
    requires SmallWithRoom(cfg, st.chunkSection, st.body, HeadingLabel(st.section, path))
    ensures Inv(cfg, WithLabel(shown, st)) && AllText(WithLabel(shown, st)) == AllText(st)
  {
    hide HeadingLabel;
    hide SmallWithRoom;
    hide Labels;
    hide LogOk;
    hide LabelAt;
    hide Linked;
    ShowChunk(cfg, st, path, labels, shown);
    ShowLinked(cfg, st, path, labels, shown);
    assert Last(st.hist.pieces + labels) == Last(labels);
  }

  lemma ShowLinked(cfg: Config, st: State, path: seq<string>, labels: seq<Piece>, shown: State)
    requires Inv(cfg, st) && st.unsent && path != st.section && Grown(st.(section := path), labels, shown)
    requires labels != [] && OneParagraphStart(labels) && LabelReads(labels, path, HeadingLabel(st.section, path))
    requires SmallWithRoom(cfg, st.chunkSection, st.body, HeadingLabel(st.section, path))
    ensures OpenLinked(cfg, WithLabel(shown, st))
  {
    hide HeadingLabel;
    hide SmallWithRoom;
    hide LogOk;
    hide LabelAt;
    hide Linked;
    hide Words;
    var h := st.hist;
    InlineAppend(cfg, st.chunkSection, h.carry, h.pieces, labels, path);
    assert (h.pieces + labels)[0] == h.pieces[0];
  }

  lemma MovedSound(cfg: Config, st: State, path: seq<string>)
    requires Inv(cfg, st) && st.unsent
    ensures Sound(cfg, st.(section := path)) && AllText(st.(section := path)) == AllText(st)
  {
  }

  /** Closing a chunk at a heading leaves nothing open. */
  lemma CloseAtHeading(cfg: Config, st: State, cause: Cause)
    requires Sound(cfg, st) && st.unsent && (cause == NoRoom || cause == AtHeading)
    requires CauseOk(cfg, st.chunkSection, st.hist.carry, st.hist.pieces, cause)
    ensures var f := Flush(cfg, st, false, cause);
      && Inv(cfg, f) && !f.unsent && AllText(f) == AllText(st) && f.section == st.section
  {
    FlushLog(cfg, st, false, cause);
    FlushChunk(cfg, st, false, cause);
    FlushText(cfg, st, false, cause);
  }

  lemma SwitchInv(cfg: Config, st: State, path: seq<string>)
    requires Inv(cfg, st) && !st.unsent
    ensures Inv(cfg, st.(section := path, chunkSection := path))
    ensures Reset(st).(section := path, chunkSection := path).hist == st.hist
    ensures Inv(cfg, Reset(st).(section := path, chunkSection := path))
  {
    assert st.hist.pieces == [] && st.hist.kept == 0;
    assert PagesOf([]) == {};
  }

  /** Entering a section keeps the invariant and all the text, whatever it closes or shows inline. */
  lemma EnterInv(cfg: Config, st: State, path: seq<string>)
    requires Inv(cfg, st) && PathOk(path)
    ensures var e := EnterSection(cfg, st, path); Inv(cfg, e) && e.section == path && AllText(e) == AllText(st)
  {
    hide Strip;
    hide HeadingLabel;
    hide Append;
    if path == st.section {
    } else if !st.unsent {
      SwitchInv(cfg, st, path);
    } else if |Strip(st.body)| >= cfg.minChars {
      CloseAtHeading(cfg, st, AtHeading);
      SwitchInv(cfg, Flush(cfg, st, false, AtHeading), path);
    } else {
      EnterSmall(cfg, st, path);
    }
  }

  lemma EnterSmall(cfg: Config, st: State, path: seq<string>)
    requires Inv(cfg, st) && PathOk(path) && st.unsent && path != st.section && |Strip(st.body)| < cfg.minChars
    ensures var e := EnterSection(cfg, st, path); Inv(cfg, e) && e.section == path && AllText(e) == AllText(st)
  {
    hide HeadingLabel;
    hide Strip;
    hide Append;
    hide Words;
    var title := HeadingLabel(st.section, path);
    var moved := st.(section := path);
    TitleStart(st.section, path);
    if |st.body| + 2 + |title| <= cfg.budget(st.chunkSection) {
      var shown := Append(cfg, moved, title, {}, "\n\n", Heading);
      LabelGrows(cfg, moved, title);
      LabelParts(cfg, moved, title);
      ShowInline(cfg, st, path, LabelPieces(cfg, moved, title), shown);
    } else {
      MovedSound(cfg, st, path);
      assert NoRoomFor(cfg, st.chunkSection, st.body, st.section, path);
      CloseAtHeading(cfg, moved, NoRoom);
    }
  }

  // ---- feeding blocks --------------------------------------------------------------------------------------

  function ToParts(pieces: seq<Piece>): seq<Part> {
    seq(|pieces|, i requires 0 <= i < |pieces| => Part(pieces[i].text, pieces[i].sep))
  }

  lemma PartsOfPieces(parts: seq<Part>, kind: Kind, pages: set<nat>, section: seq<string>)
    ensures ToParts(ToPieces(parts, kind, pages, section)) == parts
  {
  }

  /** The pieces of one block: all of its kind, pages and section, each with a blank separator, a line
      break in front, and glued together the words of the block. */
  predicate BlockGroup(text: string, kind: Kind, pages: set<nat>, section: seq<string>, group: seq<Piece>) {
    && group != []
    && (forall i :: 0 <= i < |group| ==>
          && group[i].kind == kind && group[i].pages == pages && group[i].section == section
          && group[i].text != "" && Blank(group[i].sep))
    && (group[0].sep == "\n\n" || (group[0].sep == "\n" && kind == ListItem))
    && Words(Body(ToParts(group))) == Words(text)
  }

  lemma BlockParts(parts: seq<Part>, text: string, kind: Kind, pages: set<nat>, section: seq<string>, limit: nat, sep: string)
    requires text != "" && !IsSpace(text[0]) && FitParts(parts, limit) && BlankSeps(parts)
    requires Words(Body(parts)) == Words(text) && (sep == "\n\n" || (sep == "\n" && kind == ListItem))
    ensures var ps := ToPieces(Reseparate(parts, sep), kind, pages, section);
      && FitPieces(ps, limit, section) && BlockGroup(text, kind, pages, section, ps) && ps[0].sep == sep
      && |ps| == |parts| && ps[0].text == parts[0].text
  {
    var qs := Reseparate(parts, sep);
    assert Words("") == [];
    assert parts != [];
    assert forall i :: 0 < i < |qs| ==> qs[i] == parts[i];
    PartsOfPieces(qs, kind, pages, section);
    ReseparateGlue(parts, sep);
  }

  /** A table that fits a chunk is one piece, and so is prose that fits one behind the longest overlap; anything of
      20 characters does. */
  predicate StaysWhole(cfg: Config, st: State, text: string, kind: Kind) {
    var room := Min(cfg.budget(st.chunkSection), cfg.budget(st.section));
    |text| <= if kind == Table then room else Max(20, room - Min(cfg.overlap, room / 3) - 2)
  }

  lemma BlockPiecesOk(cfg: Config, st: State, text: string, pages: set<nat>, kind: Kind)
    requires text != "" && !IsSpace(text[0])
    ensures var ps := BlockPieces(cfg, st, text, pages, kind);
      FitPieces(ps, TightBudget(cfg, st), st.section) && BlockGroup(text, kind, pages, st.section, ps)
      && ps[0].sep == (if kind == ListItem && st.lastKind == Some(ListItem) then "\n" else "\n\n")
      && (StaysWhole(cfg, st, text, kind) ==> |ps| == 1 && ps[0].text == text)
  {
    hide Words;
    hide GroupLines;
    hide SentencePieces;
    var sep := if kind != Table && kind == ListItem && st.lastKind == Some(ListItem) then "\n" else "\n\n";
    var limit := if kind == Table then TightBudget(cfg, st) else PieceLimit(cfg, st);
    if |text| <= limit {
      var parts := [Part(text, sep)];
      assert Body(parts) == text;
      assert Reseparate(parts, sep) == parts;
      BlockParts(parts, text, kind, pages, st.section, limit, sep);
    } else if kind == Table {
      GroupLinesWhole(text, limit);
      BlockParts(GroupLines(text, limit), text, kind, pages, st.section, limit, sep);
    } else {
      SentencePiecesWhole(text, limit);
      BlockParts(SentencePieces(text, limit), text, kind, pages, st.section, limit, sep);
    }
  }

  lemma {:induction false} SqueezeWords(s: string)
    ensures Words(Squeeze(s)) == Words(s)
    ensures StartAlike(s, Squeeze(s))
  {
    if s != "" {
      SqueezeWords(s[1..]);
      SameFirst(s[0], Squeeze(s[1..]), s[1..]);
      assert [s[0]] + s[1..] == s;
      if IsSpace(s[0]) {
        WordsLeading(" ", Squeeze(s[1..]));
      }
    }
  }

  /** On one line a text keeps its words. */
  lemma OneLineWords(text: string)
    ensures Words(OneLine(text)) == Words(text) && '\n' !in OneLine(text)
  {
    SqueezeWords(text);
    WordsStrip(Squeeze(text));
    OneLineNoBreak(text);
  }

  lemma OneLineStart(text: string)
    requires text != "" && !IsSpace(text[0])
    ensures OneLine(text) != "" && !IsSpace(OneLine(text)[0])
  {
    SqueezeWords(text);
    WordsStrip(Squeeze(text));
    assert Words("") == [];
  }

  lemma {:induction false} CleanPathOk(path: seq<string>)
    ensures CleanPath(path) != [] ==> PathOk(CleanPath(path))
  {
    if path != [] {
      CleanPathOk(path[1..]);
    }
  }

  lemma HeadingPathOk(block: Block)
    requires CleanText(block.text) != ""
    ensures PathOk(CleanPath(block.headingPath) + [OneLine(CleanText(block.text))])
  {
    CleanPathOk(block.headingPath);
    OneLineStart(CleanText(block.text));
  }

  /** The pieces a block adds: none for a heading, whose label is no text of the document. */
  predicate BlockAdds(block: Block, section: seq<string>, group: seq<Piece>) {
    var text := CleanText(block.text);
    if text == "" || block.kind == Heading then group == []
    else BlockGroup(text, block.kind, PositivePages(block.pages), section, group)
  }

  lemma AddBlockInv(cfg: Config, st: State, text: string, pages: set<nat>, kind: Kind)
    requires Inv(cfg, st) && text != "" && !IsSpace(text[0]) && kind != Heading
    ensures var a := AddBlock(cfg, st, text, pages, kind);
      && Inv(cfg, a) && a.section == st.section
      && AllText(a) == AllText(st) + BlockPieces(cfg, st, text, pages, kind)
  {
    var ps := BlockPieces(cfg, st, text, pages, kind);
    BlockPiecesOk(cfg, st, text, pages, kind);
    assert NoHeadings(ps);
    PutAllInv(cfg, st, ps);
    PutAllText(cfg, st, ps);
  }

  /** One block: the invariant holds on, the section is the one the block leads into, and exactly the
      block's own text is added. */
  lemma FeedInv(cfg: Config, st: State, block: Block) returns (group: seq<Piece>)
    requires Inv(cfg, st)
    ensures var f := Feed(cfg, st, block);
      && Inv(cfg, f) && f.section == SectionAfter(st.section, block)
      && AllText(f) == AllText(st) + group && BlockAdds(block, f.section, group)
  {
    var text := CleanText(block.text);
    group := [];
    assert AllText(st) + [] == AllText(st);
    if text != "" {
      CleanPathOk(block.headingPath);
      if block.kind == Heading {
        HeadingPathOk(block);
        EnterInv(cfg, st, CleanPath(block.headingPath) + [OneLine(text)]);
      } else {
        group := FeedText(cfg, st, block);
      }
    }
  }

  lemma FeedText(cfg: Config, st: State, block: Block) returns (group: seq<Piece>)
    requires Inv(cfg, st) && CleanText(block.text) != "" && block.kind != Heading
    ensures var f := Feed(cfg, st, block);
      && Inv(cfg, f) && f.section == SectionAfter(st.section, block)
      && AllText(f) == AllText(st) + group && BlockAdds(block, f.section, group)
  {
    var text, pages := CleanText(block.text), PositivePages(block.pages);
    var path := CleanPath(block.headingPath);
    CleanPathOk(block.headingPath);
    var there := if path != [] then EnterSection(cfg, st, path) else st;
    if path != [] {
      EnterInv(cfg, st, path);
    }
    AddBlockInv(cfg, there, text, pages, block.kind);
    BlockPiecesOk(cfg, there, text, pages, block.kind);
    group := BlockPieces(cfg, there, text, pages, block.kind);
  }

  // ---- whole documents -----------------------------------------------------------------------------------------

  /** The section in force after a list of blocks, read off the blocks alone. */
  function SectionAt(blocks: seq<Block>): seq<string> {
    if blocks == [] then [] else SectionAfter(SectionAt(blocks[..|blocks| - 1]), Last(blocks))
  }

  /** The section a block leads into: of a heading its path with its own title, of a text its path when it has one;
      otherwise, and for a block without text, the section stays. */
  lemma SectionReads(blocks: seq<Block>, block: Block)
    ensures SectionAt(blocks + [block])
      == if CleanText(block.text) == "" then SectionAt(blocks)
         else if block.kind == Heading then CleanPath(block.headingPath + [CleanText(block.text)])
         else if CleanPath(block.headingPath) == [] then SectionAt(blocks)
         else CleanPath(block.headingPath)
  {
    hide CleanText;
    hide OneLine;
    hide CleanPath;
    assert (blocks + [block])[..|blocks|] == blocks;
    assert Last(blocks + [block]) == block;
    if CleanText(block.text) != "" {
      OneLineStart(CleanText(block.text));
      CleanPathSnoc(block.headingPath, CleanText(block.text));
    }
  }

  /** `groups` accounts for the blocks one by one. */
  predicate GroupsAccount(blocks: seq<Block>, groups: seq<seq<Piece>>) {
    && |groups| == |blocks|
    && (blocks != [] ==>
          && GroupsAccount(blocks[..|blocks| - 1], groups[..|groups| - 1])
          && BlockAdds(Last(blocks), SectionAt(blocks), Last(groups)))
  }

  lemma {:induction false} FeedAllInv(cfg: Config, blocks: seq<Block>) returns (groups: seq<seq<Piece>>)
    ensures var f := FeedAll(cfg, blocks);
      && Inv(cfg, f) && f.section == SectionAt(blocks)
      && AllText(f) == Flat(groups) && GroupsAccount(blocks, groups)
  {
    if blocks == [] {
      groups := [];
      EmptyInv(cfg);
    } else {
      var front := blocks[..|blocks| - 1];
      var before := FeedAllInv(cfg, front);
      var group := FeedInv(cfg, FeedAll(cfg, front), Last(blocks));
      groups := before + [group];
      GroupsStep(blocks, before, group);
      FlatSnoc(before, group);
    }
  }

  lemma EmptyInv(cfg: Config)
    ensures Inv(cfg, EMPTY) && AllText(EMPTY) == []
  {
    assert PagesOf([]) == {};
    assert OnlyText([]) == [];
    assert LogText([]) == [];
    assert Emitted([]) == [];
    assert Render("", []) == "";
  }

  lemma FlatSnoc<T>(parts: seq<seq<T>>, part: seq<T>)
    ensures Flat(parts + [part]) == Flat(parts) + part
  {
    FlatConcat(parts, [part]);
    assert [part][1..] == [];
    assert Flat([part]) == part;
  }

  lemma GroupsStep(blocks: seq<Block>, groups: seq<seq<Piece>>, group: seq<Piece>)
    requires blocks != [] && GroupsAccount(blocks[..|blocks| - 1], groups)
    requires BlockAdds(Last(blocks), SectionAt(blocks), group)
    ensures GroupsAccount(blocks, groups + [group])
  {
    var all := groups + [group];
    assert all[..|all| - 1] == groups;
    assert Last(all) == group;
  }

  /** A full account of a chunking.  The closed chunks are in order, each within its budget, linked to the
      one before by a legal overlap, and give exactly the drafts; their text pieces, in order, are the
      pieces of the blocks, one group a block, each with the pages of its block and the section the block
      belongs to. */
  ghost predicate Account(cfg: Config, blocks: seq<Block>, drafts: seq<Draft>, log: seq<Closed>, groups: seq<seq<Piece>>) {
    && LogOk(cfg, log) && drafts == Emitted(log)
    && GroupsAccount(blocks, groups) && LogText(log) == Flat(groups)
  }

  lemma ChunkBlocksAccount(cfg: Config, blocks: seq<Block>) returns (log: seq<Closed>, groups: seq<seq<Piece>>)
    ensures Account(cfg, blocks, ChunkBlocks(cfg, blocks), log, groups)
  {
    groups := FeedAllInv(cfg, blocks);
    var st := FeedAll(cfg, blocks);
    FlushLog(cfg, st, false, AtEnd);
    FlushText(cfg, st, false, AtEnd);
    var f := Finish(cfg, st);
    log := f.hist.log;
    assert OnlyText(f.hist.pieces) == [];
    assert LogText(log) + [] == LogText(log);
  }

  // ---- consequences ----------------------------------------------------------------------------------------------

  /** Size: a draft's body leaves room for the header of its own section. */
  lemma {:induction false} EmittedFits(cfg: Config, log: seq<Closed>)
    requires forall i :: 0 <= i < |log| ==> ClosedOk(cfg, log[i])
    ensures forall d :: d in Emitted(log) ==> 0 < |d.body| <= cfg.budget(d.section)
  {
    if log != [] {
      EmittedFits(cfg, log[..|log| - 1]);
      assert ClosedOk(cfg, Last(log));
    }
  }

  /** The words the pieces stand for. */
  function PieceWords(pieces: seq<Piece>): seq<string> {
    Words(Glue(ToParts(pieces)))
  }

  lemma {:induction false} GroupWords(blocks: seq<Block>, groups: seq<seq<Piece>>)
    requires GroupsAccount(blocks, groups)
    ensures PieceWords(Flat(groups)) == ContentWords(blocks)
    decreases |blocks|
  {
    if blocks == [] {
      NoWords();
      assert groups == [];
    } else {
      GroupWords(blocks[..|blocks| - 1], groups[..|groups| - 1]);
      GroupWordsStep(blocks, groups, SectionAt(blocks));
    }
  }

  lemma GroupWordsStep(blocks: seq<Block>, groups: seq<seq<Piece>>, section: seq<string>)
    requires blocks != [] && groups != [] && BlockAdds(Last(blocks), section, Last(groups))
    requires PieceWords(Flat(groups[..|groups| - 1])) == ContentWords(blocks[..|blocks| - 1])
    ensures PieceWords(Flat(groups)) == ContentWords(blocks)
  {
    var before, group := groups[..|groups| - 1], Last(groups);
    OneGroupWords(Last(blocks), section, Flat(before), group);
    FlatSnoc(before, group);
    ContentSnoc(blocks[..|blocks| - 1], Last(blocks));
    FrontLast(groups);
    FrontLast(blocks);
  }

  lemma ContentSnoc(blocks: seq<Block>, block: Block)
    ensures ContentWords(blocks + [block])
      == ContentWords(blocks) + (if block.kind == Heading then [] else Words(CleanText(block.text)))
  {
    ContentConcat(blocks, [block]);
    CleanTextWords(block.text);
    assert [block][1..] == [];
    assert ContentWords([]) == [];
  }

  lemma OneGroupWords(block: Block, section: seq<string>, before: seq<Piece>, group: seq<Piece>)
    requires BlockAdds(block, section, group)
    ensures Words(Glue(ToParts(before + group)))
      == Words(Glue(ToParts(before))) + (if block.kind == Heading then [] else Words(CleanText(block.text)))
  {
    hide Words;
    hide CleanText;
    var a, b := ToParts(before), ToParts(group);
    assert ToParts(before + group) == a + b;
    GlueConcat(a, b);
    NoWords();
    if group != [] {
      GlueAfter(Glue(a), b, CleanText(block.text));
    } else {
      assert a + b == a;
    }
  }

  /** Nothing is lost and nothing is repeated: the text pieces of the chunks, glued in order with their
      separators, are the words of the blocks in order, a word cut between two chunks restored. */
  lemma ContentKept(cfg: Config, blocks: seq<Block>, drafts: seq<Draft>, log: seq<Closed>, groups: seq<seq<Piece>>)
    requires Account(cfg, blocks, drafts, log, groups)
    ensures PieceWords(LogText(log)) == ContentWords(blocks)
  {
    GroupWords(blocks, groups);
  }

  /** The text pieces of a log are blank through and through. */
  predicate AllBlank(pieces: seq<Piece>) {
    forall i :: 0 <= i < |pieces| ==> Blank(pieces[i].text)
  }

  predicate SepsBlank(pieces: seq<Piece>) {
    forall i :: 0 <= i < |pieces| ==> Blank(pieces[i].sep)
  }

  lemma {:induction false} BlankRender(carry: string, pieces: seq<Piece>)
    requires Blank(Render(carry, pieces))
    ensures AllBlank(pieces)
  {
    if pieces != [] {
      var front := Render(carry, pieces[..|pieces| - 1]);
      BlankParts(front, Last(pieces).sep);
      BlankParts(front + Last(pieces).sep, Last(pieces).text);
      BlankRender(carry, pieces[..|pieces| - 1]);
    }
  }

  lemma {:induction false} OnlyTextBlank(pieces: seq<Piece>)
    requires AllBlank(pieces)
    ensures AllBlank(OnlyText(pieces))
  {
    if pieces != [] {
      OnlyTextBlank(pieces[..|pieces| - 1]);
    }
  }

  lemma {:induction false} NothingEmitted(log: seq<Closed>)
    requires Emitted(log) == []
    ensures AllBlank(LogText(log))
  {
    if log != [] {
      NothingEmitted(log[..|log| - 1]);
      WordsStrip(Render(Last(log).carry, Last(log).pieces));
      BlankRender(Last(log).carry, Last(log).pieces);
      OnlyTextBlank(Last(log).pieces);
    }
  }

  lemma {:induction false} BlankPieceWords(pieces: seq<Piece>)
    requires AllBlank(pieces) && SepsBlank(pieces)
    ensures Blank(Glue(ToParts(pieces)))
  {
    if pieces != [] {
      BlankPieceWords(pieces[1..]);
      assert ToParts(pieces)[1..] == ToParts(pieces[1..]);
      BlankParts(pieces[0].sep, pieces[0].text);
      BlankParts(pieces[0].sep + pieces[0].text, Glue(ToParts(pieces[1..])));
    }
  }

  lemma {:induction false} GroupsBlankSeps(blocks: seq<Block>, groups: seq<seq<Piece>>)
    requires GroupsAccount(blocks, groups)
    ensures SepsBlank(Flat(groups))
    decreases |blocks|
  {
    if blocks != [] {
      GroupsBlankSeps(blocks[..|blocks| - 1], groups[..|groups| - 1]);
      FlatSnoc(groups[..|groups| - 1], Last(groups));
      FrontLast(groups);
    }
  }

  lemma {:induction false} NoContentNoPieces(blocks: seq<Block>, groups: seq<seq<Piece>>)
    requires GroupsAccount(blocks, groups) && ContentWords(blocks) == []
    ensures Flat(groups) == []
    decreases |blocks|
  {
    if blocks != [] {
      var front, block := blocks[..|blocks| - 1], Last(blocks);
      FrontLast(blocks);
      ContentSnoc(front, block);
      NoContentNoPieces(front, groups[..|groups| - 1]);
      FlatSnoc(groups[..|groups| - 1], Last(groups));
      FrontLast(groups);
      assert CleanText(block.text) != "" ==> Words(CleanText(block.text)) != [];
    }
  }

  lemma {:induction false} TextInEveryChunk(cfg: Config, log: seq<Closed>)
    requires LogOk(cfg, log) && LogText(log) == []
    ensures log == []
  {
    if log != [] {
      FirstIsText(Last(log).pieces);
    }
  }

  lemma {:induction false} FirstIsText(pieces: seq<Piece>)
    requires pieces != [] && pieces[0].kind != Heading
    ensures OnlyText(pieces) != []
  {
    if |pieces| > 1 {
      FirstIsText(pieces[..|pieces| - 1]);
    }
  }

  /** A document yields no chunk exactly when its blocks hold no word outside their headings. */
  lemma NoDraftsIff(cfg: Config, blocks: seq<Block>)
    ensures ChunkBlocks(cfg, blocks) == [] <==> ContentWords(blocks) == []
  {
    var log, groups := ChunkBlocksAccount(cfg, blocks);
    ContentKept(cfg, blocks, ChunkBlocks(cfg, blocks), log, groups);
    if ChunkBlocks(cfg, blocks) == [] {
      NothingEmitted(log);
      GroupsBlankSeps(blocks, groups);
      BlankPieceWords(LogText(log));
      BlankWords(Glue(ToParts(LogText(log))));
    } else if ContentWords(blocks) == [] {
      NoContentNoPieces(blocks, groups);
      TextInEveryChunk(cfg, log);
    }
  }

  // ---- the characters of a chunk ------------------------------------------------------------------------------

  /** The characters of the pieces, whitespace aside. */
  function PieceChars(pieces: seq<Piece>): string {
    if pieces == [] then "" else PieceChars(pieces[..|pieces| - 1]) + Dense(Last(pieces).text)
  }

  lemma {:induction false} PieceCharsConcat(a: seq<Piece>, b: seq<Piece>)
    ensures PieceChars(a + b) == PieceChars(a) + PieceChars(b)
  {
    if b == [] {
      assert a + b == a;
    } else {
      PieceCharsConcat(a, b[..|b| - 1]);
      assert (a + b)[..|a + b| - 1] == a + b[..|b| - 1];
      Assoc(PieceChars(a), PieceChars(b[..|b| - 1]), Dense(Last(b).text));
    }
  }

  lemma {:induction false} DenseConcat(a: string, b: string)
    ensures Dense(a + b) == Dense(a) + Dense(b)
  {
    hide IsSpace;
    if a == "" {
      assert a + b == b;
    } else {
      DenseConcat(a[1..], b);
      assert (a + b)[1..] == a[1..] + b;
      Assoc(if IsSpace(a[0]) then "" else [a[0]], Dense(a[1..]), Dense(b));
    }
  }

  lemma {:induction false} DenseBlank(s: string)
    requires Blank(s)
    ensures Dense(s) == ""
  {
    if s != "" {
      DenseBlank(s[1..]);
    }
  }

  lemma DenseStrip(s: string)
    ensures Dense(Strip(s)) == Dense(s)
  {
    hide Strip;
    WordsStrip(s);
    DenseWords(s);
    DenseWords(Strip(s));
  }

  /** A chunk shows its overlap and then its pieces, each once and in order. */
  lemma {:induction false} RenderChars(carry: string, pieces: seq<Piece>)
    requires WithText(pieces)
    ensures Dense(Render(carry, pieces)) == Dense(carry) + PieceChars(pieces)
  {
    hide Dense;
    if pieces == [] {
      assert Dense(carry) + "" == Dense(carry);
    } else {
      var front, last := Render(carry, pieces[..|pieces| - 1]), Last(pieces);
      RenderChars(carry, pieces[..|pieces| - 1]);
      DenseConcat(front + last.sep, last.text);
      DenseConcat(front, last.sep);
      DenseBlank(last.sep);
      assert Dense("") == "" by { DenseBlank(""); }
      assert Dense(front) + "" == Dense(front);
      assert "" + Dense(last.text) == Dense(last.text);
      Assoc(Dense(carry), PieceChars(pieces[..|pieces| - 1]), Dense(last.text));
    }
  }

  lemma {:induction false} GlueChars(pieces: seq<Piece>)
    requires SepsBlank(pieces)
    ensures Dense(Glue(ToParts(pieces))) == PieceChars(pieces)
  {
    hide Dense;
    if pieces == [] {
      DenseBlank("");
    } else {
      var n := |pieces| - 1;
      var front, last := pieces[..n], pieces[n];
      GlueChars(front);
      assert ToParts(pieces) == ToParts(front) + [Part(last.text, last.sep)];
      GlueConcat(ToParts(front), [Part(last.text, last.sep)]);
      GlueOne(last.text, last.sep);
      DenseConcat(Glue(ToParts(front)), last.sep + last.text);
      DenseConcat(last.sep, last.text);
      DenseBlank(last.sep);
    }
  }

  lemma GlueOne(text: string, sep: string)
    ensures Glue([Part(text, sep)]) == sep + text
  {
    assert Glue([]) == "";
  }

  /** The closed chunks that are emitted: those that are not blank. */
  function Visible(log: seq<Closed>): seq<Closed> {
    if log == [] then []
    else Visible(log[..|log| - 1]) + (if EmittedBy(Last(log)) == [] then [] else [Last(log)])
  }

  lemma {:induction false} VisibleEmitted(log: seq<Closed>)
    ensures |Visible(log)| == |Emitted(log)|
    ensures forall i :: 0 <= i < |Visible(log)| ==>
      Visible(log)[i] in log && EmittedBy(Visible(log)[i]) == [Emitted(log)[i]]
  {
    if log != [] {
      VisibleEmitted(log[..|log| - 1]);
    }
  }

  /** Every overlap repeats the end of the emitted chunk before. */
  predicate CarriesFollow(chunks: seq<Closed>, drafts: seq<Draft>)
    requires |chunks| == |drafts|
  {
    forall i :: 0 <= i < |chunks| ==>
      if i == 0 then chunks[i].carry == "" else IsSuffix(chunks[i].carry, drafts[i - 1].body)
  }

  lemma CarriesSnoc(chunks: seq<Closed>, drafts: seq<Draft>, e: Closed, d: Draft)
    requires |chunks| == |drafts| && CarriesFollow(chunks, drafts)
    requires if drafts == [] then e.carry == "" else IsSuffix(e.carry, Last(drafts).body)
    ensures CarriesFollow(chunks + [e], drafts + [d])
  {
    hide IsSuffix;
  }

  lemma {:induction false} CarriesAreEnds(cfg: Config, log: seq<Closed>)
    requires LogOk(cfg, log)
    ensures |Visible(log)| == |Emitted(log)| && CarriesFollow(Visible(log), Emitted(log))
  {
    hide ClosedOk;
    hide Linked;
    hide IsSuffix;
    hide CarriesFollow;
    hide EmittedBy;
    if log == [] {
      CarriesNone();
    } else {
      var front := log[..|log| - 1];
      CarriesAreEnds(cfg, front);
      OneDraft(Last(log));
      if EmittedBy(Last(log)) != [] {
        LastCarry(cfg, log);
        CarriesSnoc(Visible(front), Emitted(front), Last(log), EmittedBy(Last(log))[0]);
      } else {
        assert Visible(front) + [] == Visible(front) && Emitted(front) + [] == Emitted(front);
      }
    }
  }

  lemma OneDraft(e: Closed)
    ensures EmittedBy(e) == [] || EmittedBy(e) == [EmittedBy(e)[0]]
  {
  }

  lemma CarriesNone()
    ensures CarriesFollow([], [])
  {
  }

  /** The overlap of the last chunk: an end of what the chunk before emitted, if it emitted anything. */
  lemma LastCarry(cfg: Config, log: seq<Closed>)
    requires LogOk(cfg, log) && log != []
    ensures var front := Emitted(log[..|log| - 1]);
      if front == [] then Last(log).carry == "" else IsSuffix(Last(log).carry, Last(front).body)
  {
    hide InlineOk;
    hide CauseOk;
    hide Render;
    hide Strip;
    assert ClosedOk(cfg, Last(log));
    if |log| > 1 {
      var front := log[..|log| - 1];
      var body := Strip(Render(Last(front).carry, Last(front).pieces));
      assert Linked(cfg, log[|log| - 2], Last(log).section, Last(log).carry, Last(log).carryPages, Last(log).pieces[0]);
      OverlapIsEnd(cfg, Last(front), Last(log).section, Last(log).pieces[0]);
      assert EmittedBy(Last(front)) == [] <==> body == "";
    }
  }

  lemma OverlapIsEnd(cfg: Config, prev: Closed, section: seq<string>, first: Piece)
    requires prev.pieces + prev.dropped != []
    ensures IsSuffix(Overlap(cfg, prev, section, first), Strip(Render(prev.carry, prev.pieces)))
  {
    hide Strip;
    hide Render;
    var body := Strip(Render(prev.carry, prev.pieces));
    var n := Min(cfg.overlap, Min(cfg.budget(prev.section), cfg.budget(section)) / 3);
    if body != "" && n > 0 {
      TailLongest(body, n);
    }
  }

  function PiecesOf(chunks: seq<Closed>): (ps: seq<seq<Piece>>)
    ensures |ps| == |chunks| && forall i :: 0 <= i < |ps| ==> ps[i] == chunks[i].pieces
  {
    seq(|chunks|, i requires 0 <= i < |chunks| => chunks[i].pieces)
  }

  function CarriesOf(chunks: seq<Closed>): (cs: seq<string>)
    ensures |cs| == |chunks| && forall i :: 0 <= i < |cs| ==> cs[i] == chunks[i].carry
  {
    seq(|chunks|, i requires 0 <= i < |chunks| => chunks[i].carry)
  }

  lemma {:induction false} OnlyTextConcat(a: seq<Piece>, b: seq<Piece>)
    ensures OnlyText(a + b) == OnlyText(a) + OnlyText(b)
  {
    if b == [] {
      assert a + b == a;
    } else {
      OnlyTextConcat(a, b[..|b| - 1]);
      assert (a + b)[..|a + b| - 1] == a + b[..|b| - 1];
      Assoc(OnlyText(a), OnlyText(b[..|b| - 1]), if Last(b).kind == Heading then [] else [Last(b)]);
    }
  }

  lemma {:induction false} BlankChars(pieces: seq<Piece>)
    requires AllBlank(pieces)
    ensures PieceChars(pieces) == ""
  {
    if pieces != [] {
      BlankChars(pieces[..|pieces| - 1]);
      DenseBlank(Last(pieces).text);
    }
  }

  /** What is not emitted has no characters. */
  lemma {:induction false} VisibleChars(log: seq<Closed>)
    ensures PieceChars(OnlyText(Flat(PiecesOf(Visible(log))))) == PieceChars(LogText(log))
  {
    if log == [] {
      assert Flat(PiecesOf(Visible(log))) == [];
      assert OnlyText([]) == [];
    } else {
      var front, e := log[..|log| - 1], Last(log);
      VisibleChars(front);
      VisibleStep(front, e);
      assert log[..|log| - 1] == front;
    }
  }

  lemma VisibleStep(front: seq<Closed>, e: Closed)
    requires PieceChars(OnlyText(Flat(PiecesOf(Visible(front))))) == PieceChars(LogText(front))
    ensures PieceChars(OnlyText(Flat(PiecesOf(Visible(front + [e]))))) == PieceChars(LogText(front + [e]))
  {
    hide Render;
    hide Strip;
    assert (front + [e])[..|front|] == front;
    PieceCharsConcat(LogText(front), OnlyText(e.pieces));
    if EmittedBy(e) == [] {
      WordsStrip(Render(e.carry, e.pieces));
      BlankRender(e.carry, e.pieces);
      OnlyTextBlank(e.pieces);
      BlankChars(OnlyText(e.pieces));
      assert Visible(front) + [] == Visible(front);
    } else {
      assert PiecesOf(Visible(front) + [e]) == PiecesOf(Visible(front)) + [e.pieces];
      FlatSnoc(PiecesOf(Visible(front)), e.pieces);
      OnlyTextConcat(Flat(PiecesOf(Visible(front))), e.pieces);
      PieceCharsConcat(OnlyText(Flat(PiecesOf(Visible(front)))), OnlyText(e.pieces));
    }
  }

  // ---- sections are one-line titles ------------------------------------------------------------------------------

  predicate OneLiners(section: seq<string>) {
    forall i :: 0 <= i < |section| ==> '\n' !in section[i]
  }

  lemma {:induction false} CleanPathOneLiners(path: seq<string>)
    ensures OneLiners(CleanPath(path))
  {
    if path != [] {
      CleanPathOneLiners(path[1..]);
      OneLineNoBreak(path[0]);
    }
  }

  lemma {:induction false} SectionOneLiners(blocks: seq<Block>)
    ensures OneLiners(SectionAt(blocks))
  {
    if blocks != [] {
      SectionOneLiners(blocks[..|blocks| - 1]);
      CleanPathOneLiners(Last(blocks).headingPath);
      OneLineNoBreak(CleanText(Last(blocks).text));
    }
  }

  lemma {:induction false} GroupsOneLiners(blocks: seq<Block>, groups: seq<seq<Piece>>)
    requires GroupsAccount(blocks, groups)
    ensures forall p :: p in Flat(groups) ==> OneLiners(p.section)
    decreases |blocks|
  {
    hide OneLiners;
    if blocks != [] {
      GroupsOneLiners(blocks[..|blocks| - 1], groups[..|groups| - 1]);
      SectionOneLiners(blocks);
      FlatSnoc(groups[..|groups| - 1], Last(groups));
      FrontLast(groups);
    }
  }

  lemma {:induction false} FirstInText(pieces: seq<Piece>)
    requires pieces != [] && pieces[0].kind != Heading
    ensures pieces[0] in OnlyText(pieces)
  {
    if |pieces| > 1 {
      FirstInText(pieces[..|pieces| - 1]);
    }
  }

  lemma {:induction false} InLogText(log: seq<Closed>, e: Closed, p: Piece)
    requires e in log && p in OnlyText(e.pieces)
    ensures p in LogText(log)
  {
    if e != Last(log) {
      InLogText(log[..|log| - 1], e, p);
    }
  }

  /** The section of every chunk is a path of titles without line breaks. */
  lemma DraftOneLiners(cfg: Config, blocks: seq<Block>, drafts: seq<Draft>, log: seq<Closed>, groups: seq<seq<Piece>>)
    requires Account(cfg, blocks, drafts, log, groups)
    ensures forall d :: d in drafts ==> OneLiners(d.section)
  {
    hide Render;
    VisibleEmitted(log);
    GroupsOneLiners(blocks, groups);
    forall d | d in drafts
      ensures OneLiners(d.section)
    {
      var i :| 0 <= i < |drafts| && drafts[i] == d;
      var e := Visible(log)[i];
      assert ClosedOk(cfg, e);
      FirstInText(e.pieces);
      InLogText(log, e, e.pieces[0]);
    }
  }
}
