/** The chunk builder as a state machine on values: one function per builder method.  Next to the
    program's own fields the state keeps the history of what went into every chunk; the invariants
    and theorems about it are in `ChunkProofs`, the class that runs it in `ChunkBuilder`. */
module ChunkState {
  import opened Text
  import opened Splitters
  import opened HeaderLine
  import opened Options
  import opened Blocks

  const MAX_INLINE_HEADING_CHARS := 300
  const MIN_MAX_CHARS := 120

  /** What a builder is set up with.  `budget` gives the body characters available in a chunk of a section
      once its header line is reserved; see `BudgetFor`. */
  datatype Settings = Settings(budget: seq<string> -> nat, overlap: nat, minChars: nat)

  type Config = s: Settings | forall section :: s.budget(section) >= 71 witness Settings((section: seq<string>) => 71, 0, 0)

  datatype Draft = Draft(body: string, section: seq<string>, pages: seq<nat>)

  /** A text appended to a chunk, with the section in force at that moment.  A piece of kind Heading is
      an inline heading label. */
  datatype Piece = Piece(text: string, sep: string, kind: Kind, pages: set<nat>, section: seq<string>)

  /** Why a chunk was closed. */
  datatype Cause = AtHeading | NoRoom | Full | AtEnd

  /** A closed chunk: the overlap it started with, its pieces, and the trailing label left to the next
      chunk's header. */
  datatype Closed = Closed(section: seq<string>, carry: string, carryPages: set<nat>,
                           pieces: seq<Piece>, dropped: seq<Piece>, cause: Cause)

  /** The closed chunks, and the open one; `kept` of its pieces come before a trailing label. */
  datatype History = History(log: seq<Closed>, carry: string, carryPages: set<nat>, pieces: seq<Piece>, kept: nat)

  datatype State = State(
    drafts: seq<Draft>, section: seq<string>, chunkSection: seq<string>, body: string, unsent: bool,
    pages: set<nat>, lastKind: Option<Kind>, lastPages: set<nat>, before: Option<string>, hist: History)

  const EMPTY := State([], [], [], "", false, {}, None, {}, None, History([], "", {}, [], 0))

  // ---- sizes ----------------------------------------------------------------------------------

  function Min(a: int, b: int): int {
    if a < b then a else b
  }

  function Max(a: int, b: int): int {
    if a > b then a else b
  }

  /** Body characters available in a chunk of `section`: the header is measured at its longest page label. */
  function BudgetFor(filename: string, maxChars: int, maxPage: nat, section: seq<string>): (b: nat)
    requires maxChars >= MIN_MAX_CHARS
    ensures 71 <= b && b == maxChars - 1 - |Header(filename, section, WorstPages(maxPage), HeaderCap(maxChars))|
  {
    HeaderFits(filename, section, WorstPages(maxPage), HeaderCap(maxChars));
    maxChars - |Header(filename, section, WorstPages(maxPage), HeaderCap(maxChars))| - 1
  }

  function WorstPages(maxPage: nat): seq<nat> {
    if maxPage > 0 then [maxPage, maxPage] else []
  }

  function ConfigFor(filename: string, maxChars: int, overlap: nat, minChars: nat, maxPage: nat): Config
    requires maxChars >= MIN_MAX_CHARS
  {
    Settings(section => BudgetFor(filename, maxChars, maxPage, section), overlap, minChars)
  }

  function TightBudget(cfg: Config, st: State): (b: nat)
    ensures b >= 71
  {
    Min(cfg.budget(st.chunkSection), cfg.budget(st.section))
  }

  function OverlapChars(cfg: Config, st: State): nat {
    Min(cfg.overlap, TightBudget(cfg, st) / 3)
  }

  function PieceLimit(cfg: Config, st: State): (limit: nat)
    ensures 20 <= limit <= TightBudget(cfg, st)
  {
    Max(20, TightBudget(cfg, st) - OverlapChars(cfg, st) - 2)
  }

  // ---- chunk assembly ---------------------------------------------------------------------------

  function FirstSpace(s: string, i: nat): (k: nat)
    requires i <= |s|
    ensures i <= k <= |s|
    ensures forall j :: i <= j < k ==> !IsSpace(s[j])
    ensures k < |s| ==> IsSpace(s[k])
    decreases |s| - i
  {
    if i < |s| && !IsSpace(s[i]) then FirstSpace(s, i + 1) else i
  }

  predicate NoSpacesFrom(s: string, i: nat) {
    forall j :: i <= j < |s| ==> !IsSpace(s[j])
  }

  /** Where the last `n` characters of `body` start, moved past the next whitespace when that position is
      inside a word (and there is whitespace left). */
  function TailStart(body: string, n: nat): (start: nat)
    requires 0 < n < |body|
    ensures |body| - n <= start <= |body|
    ensures start > |body| - n ==> IsSpace(body[start - 1])
    ensures start == |body| - n < |body| ==> IsSpace(body[start - 1]) || IsSpace(body[start]) || NoSpacesFrom(body, start)
  {
    var from := |body| - n;
    var cut := FirstSpace(body, from);
    if !IsSpace(body[from - 1]) && !IsSpace(body[from]) && cut < |body| then cut + 1 else from
  }

  function Tail(body: string, n: int): string {
    if n <= 0 || body == "" then ""
    else if |body| <= n then Strip(body)
    else Strip(body[TailStart(body, n)..])
  }

  /** What a carry and the pieces after it look like in one chunk. */
  function Render(carry: string, pieces: seq<Piece>): string {
    if pieces == [] then carry
    else Attach(Render(carry, pieces[..|pieces| - 1]), pieces[|pieces| - 1])
  }

  function Attach(body: string, piece: Piece): string {
    if body != "" then body + piece.sep + piece.text else piece.text
  }

  /** The body a flush emits: a heading with nothing after it is left to the next chunk's header. */
  function EmittedBody(st: State): (body: string)
    ensures body != "" ==> !IsSpace(body[0]) && !IsSpace(body[|body| - 1])
  {
    Strip(if st.lastKind == Some(Heading) && st.before.Some? then st.before.value else st.body)
  }

  /** The overlap a flush hands to the next chunk. */
  function CarryOver(cfg: Config, st: State, carryOverlap: bool): string {
    if st.unsent && EmittedBody(st) != "" && carryOverlap && cfg.overlap > 0
       && st.lastKind != Some(Table) && st.lastKind != Some(Heading)
    then Tail(EmittedBody(st), OverlapChars(cfg, st)) else ""
  }

  function Flush(cfg: Config, st: State, carryOverlap: bool, cause: Cause): State {
    Emit(st, EmittedBody(st), CarryOver(cfg, st, carryOverlap), cause)
  }

  /** The chunk with the given body is emitted; the next one opens with `carry` in the current section. */
  function Emit(st: State, body: string, carry: string, cause: Cause): State {
    OpenNext(st.(drafts := if st.unsent && body != "" then st.drafts + [Draft(body, st.chunkSection, SortedPages(st.pages))]
                           else st.drafts),
             carry, if carry != "" then st.lastPages else {},
             if st.unsent then st.hist.log + [Close(st, cause)] else st.hist.log)
  }

  /** Nothing unsent: the open chunk holds the carry, in the current section. */
  function OpenNext(st: State, carry: string, pages: set<nat>, log: seq<Closed>): State {
    State(st.drafts, st.section, st.section, carry, false, pages, None, st.lastPages, None,
          History(log, carry, pages, [], 0))
  }

  function Close(st: State, cause: Cause): Closed {
    var h := st.hist;
    var kept := if h.kept <= |h.pieces| then h.kept else |h.pieces|;
    Closed(st.chunkSection, h.carry, h.carryPages, h.pieces[..kept], h.pieces[kept..], cause)
  }

  function Reset(st: State): State {
    OpenNext(st, "", {}, st.hist.log)
  }

  predicate Overflows(cfg: Config, st: State, piece: Piece) {
    st.body != "" && |st.body| + |piece.sep| + |piece.text| > cfg.budget(st.chunkSection)
  }

  /** Room for the piece: close the chunk when it is full, and drop the overlap when even that is too much. */
  function MakeRoom(cfg: Config, st: State, piece: Piece): State {
    if Overflows(cfg, st, piece) then
      var flushed := Flush(cfg, st, piece.kind != Table, Full);
      if Overflows(cfg, flushed, piece) then Reset(flushed) else flushed
    else st
  }

  function Add(st: State, piece: Piece): State {
    var pieces := st.hist.pieces + [piece];
    st.(body := Attach(st.body, piece), pages := st.pages + piece.pages, unsent := true,
        lastKind := Some(piece.kind), lastPages := piece.pages, before := None,
        hist := st.hist.(pieces := pieces, kept := |pieces|))
  }

  /** `append` of a text that fits the tight budget. */
  function Put(cfg: Config, st: State, piece: Piece): State {
    Add(MakeRoom(cfg, st, piece), piece)
  }

  function ToPieces(parts: seq<Part>, kind: Kind, pages: set<nat>, section: seq<string>): (ps: seq<Piece>)
    ensures |ps| == |parts|
    ensures forall i :: 0 <= i < |ps| ==> ps[i] == Piece(parts[i].text, parts[i].sep, kind, pages, section)
  {
    seq(|parts|, i requires 0 <= i < |parts| => Piece(parts[i].text, parts[i].sep, kind, pages, section))
  }

  function PutAll(cfg: Config, st: State, pieces: seq<Piece>): State {
    if pieces == [] then st
    else Put(cfg, PutAll(cfg, st, pieces[..|pieces| - 1]), pieces[|pieces| - 1])
  }

  /** `append`: a text over the tight budget is hard-split first. */
  function Append(cfg: Config, st: State, text: string, pages: set<nat>, sep: string, kind: Kind): State {
    if |text| > TightBudget(cfg, st) then
      PutAll(cfg, st, ToPieces(Reseparate(HardSplit(text, PieceLimit(cfg, st)), sep), kind, pages, st.section))
    else Put(cfg, st, Piece(text, sep, kind, pages, st.section))
  }

  // ---- input ----------------------------------------------------------------------------------

  function CommonPrefix(a: seq<string>, b: seq<string>): (n: nat)
    ensures n <= |a| && n <= |b| && a[..n] == b[..n]
    ensures n < |a| && n < |b| ==> a[n] != b[n]
  {
    if a != [] && b != [] && a[0] == b[0] then
      var n := CommonPrefix(a[1..], b[1..]);
      assert a[..n + 1] == [a[0]] + a[1..][..n] && b[..n + 1] == [b[0]] + b[1..][..n];
      n + 1
    else 0
  }

  function Truncate(text: string, limit: int): string
    requires limit >= 1
  {
    if |text| <= limit then text else RStrip(text[..Max(1, limit - 1)]) + ELLIPSIS
  }

  /** The part of the new path that the reader has not seen yet. */
  function HeadingLabel(section: seq<string>, path: seq<string>): string {
    var unseen := Join(path[CommonPrefix(section, path)..], SECTION_SEP);
    Truncate(if unseen != "" then unseen else if path != [] then path[|path| - 1] else "", MAX_INLINE_HEADING_CHARS)
  }

  function EnterSection(cfg: Config, st: State, path: seq<string>): State {
    if path == st.section then st
    else if st.unsent && |Strip(st.body)| >= cfg.minChars then
      Flush(cfg, st, false, AtHeading).(section := path, chunkSection := path)
    else if st.unsent then EnterInline(cfg, st.(section := path), HeadingLabel(st.section, path))
    else Reset(st).(section := path, chunkSection := path)
  }

  /** Too little to stand alone: it stays open and shows the heading inline, when there is room. */
  function EnterInline(cfg: Config, st: State, title: string): State {
    if title != "" && |st.body| + 2 + |title| <= cfg.budget(st.chunkSection) then ShowLabel(cfg, st, title)
    else Flush(cfg, st, false, NoRoom)
  }

  function ShowLabel(cfg: Config, st: State, title: string): State {
    var shown := Append(cfg, st, title, {}, "\n\n", Heading);
    shown.(before := Some(st.body), hist := shown.hist.(kept := Min(|st.hist.pieces|, |shown.hist.pieces|)))
  }

  /** The pieces a block pours into the chunks, with the limits in force when it starts. */
  function BlockPieces(cfg: Config, st: State, text: string, pages: set<nat>, kind: Kind): seq<Piece> {
    if kind == Table then
      var parts := if |text| <= TightBudget(cfg, st) then [Part(text, "\n\n")]
                   else Reseparate(GroupLines(text, TightBudget(cfg, st)), "\n\n");
      ToPieces(parts, kind, pages, st.section)
    else
      var sep := if kind == ListItem && st.lastKind == Some(ListItem) then "\n" else "\n\n";
      var parts := if |text| <= PieceLimit(cfg, st) then [Part(text, sep)]
                   else Reseparate(SentencePieces(text, PieceLimit(cfg, st)), sep);
      ToPieces(parts, kind, pages, st.section)
  }

  /** `add_text` and `add_table`. */
  function AddBlock(cfg: Config, st: State, text: string, pages: set<nat>, kind: Kind): State {
    PutAll(cfg, st, BlockPieces(cfg, st, text, pages, kind))
  }

  /** The section a block leads into: its path, plus its own title when it is a heading. */
  function SectionAfter(section: seq<string>, block: Block): seq<string> {
    var text := CleanText(block.text);
    if text == "" then section
    else if block.kind == Heading then CleanPath(block.headingPath) + [OneLine(text)]
    else if CleanPath(block.headingPath) != [] then CleanPath(block.headingPath)
    else section
  }

  function Feed(cfg: Config, st: State, block: Block): State {
    var text := CleanText(block.text);
    if text == "" then st
    else if block.kind == Heading then EnterSection(cfg, st, CleanPath(block.headingPath) + [OneLine(text)])
    else
      var path := CleanPath(block.headingPath);
      var there := if path != [] then EnterSection(cfg, st, path) else st;
      AddBlock(cfg, there, text, PositivePages(block.pages), block.kind)
  }

  function FeedAll(cfg: Config, blocks: seq<Block>): State {
    if blocks == [] then EMPTY
    else Feed(cfg, FeedAll(cfg, blocks[..|blocks| - 1]), blocks[|blocks| - 1])
  }

  function Finish(cfg: Config, st: State): State {
    Flush(cfg, st, false, AtEnd)
  }

  function ChunkBlocks(cfg: Config, blocks: seq<Block>): seq<Draft> {
    Finish(cfg, FeedAll(cfg, blocks)).drafts
  }
}
