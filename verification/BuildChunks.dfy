/** `build_chunks`: a document to numbered chunks with headers, or the reason why not. */
module BuildChunks {
  import opened Text
  import opened HeaderLine
  import opened Options
  import opened Blocks
  import opened Splitters
  import opened ChunkState
  import opened ChunkProofs
  import opened ChunkBuilder

  const VERTICAL_PREFIX := "kbdoc-"
  const PAYLOAD_SECTION_SEP := " > "

  function VerticalFor(documentId: nat): string {
    VERTICAL_PREFIX + Digits(documentId)
  }

  datatype Chunk = Chunk(index: nat, text: string, pages: seq<nat>, section: Option<string>, vertical: string)

  datatype Error = MaxCharsTooSmall | NoText | TooMany(drafts: nat)

  datatype Result = Built(chunks: seq<Chunk>) | Refused(error: Error)

  /** What `build_chunks` is asked to do with a document. */
  datatype Order = Order(documentId: nat, filename: string, maxChars: int, overlap: int, maxChunks: int, minChars: int)

  function OrderConfig(doc: Document, order: Order): Config
    requires order.maxChars >= MIN_MAX_CHARS
  {
    ConfigFor(order.filename, order.maxChars, Max(0, order.overlap), Max(0, order.minChars), MaxPage(doc))
  }

  /** The drafts of the blocks; without any, those of the page text. */
  function DraftsOf(cfg: Config, doc: Document): seq<Draft> {
    var drafts := ChunkBlocks(cfg, BlocksWithText(doc.blocks));
    if drafts != [] then drafts else ChunkBlocks(cfg, PageBlocks(doc.pages))
  }

  /** The room the body of a chunk leaves for its header line. */
  function HeaderLimit(maxChars: int, body: string): int {
    Min(HeaderCap(maxChars), maxChars - 1 - |body|)
  }

  function PayloadSection(section: seq<string>): Option<string> {
    if Join(section, PAYLOAD_SECTION_SEP) == "" then None else Some(Join(section, PAYLOAD_SECTION_SEP))
  }

  function ChunkOf(order: Order, index: nat, draft: Draft): Chunk {
    Chunk(index,
          Header(order.filename, draft.section, draft.pages, HeaderLimit(order.maxChars, draft.body)) + "\n" + draft.body,
          draft.pages, PayloadSection(draft.section), VerticalFor(order.documentId))
  }

  function ChunksOf(order: Order, drafts: seq<Draft>): (chunks: seq<Chunk>)
    ensures |chunks| == |drafts|
  {
    if drafts == [] then []
    else ChunksOf(order, drafts[..|drafts| - 1]) + [ChunkOf(order, |drafts| - 1, drafts[|drafts| - 1])]
  }

  function Build(doc: Document, order: Order): Result {
    if order.maxChars < MIN_MAX_CHARS then Refused(MaxCharsTooSmall)
    else Numbered(order, DraftsOf(OrderConfig(doc, order), doc))
  }

  function Numbered(order: Order, drafts: seq<Draft>): Result {
    if drafts == [] then Refused(NoText)
    else if |drafts| > order.maxChunks then Refused(TooMany(|drafts|))
    else Built(ChunksOf(order, drafts))
  }

  method MakeChunk(order: Order, index: nat, draft: Draft) returns (chunk: Chunk)
    ensures chunk == ChunkOf(order, index, draft)
  {
    hide Header;
    var header := HeaderLoop(order.filename, draft.section, draft.pages, HeaderLimit(order.maxChars, draft.body));
    chunk := Chunk(index, header + "\n" + draft.body, draft.pages, PayloadSection(draft.section),
                   VerticalFor(order.documentId));
  }

  method ChunksLoop(order: Order, drafts: seq<Draft>) returns (chunks: seq<Chunk>)
    ensures chunks == ChunksOf(order, drafts)
  {
    hide ChunkOf;
    chunks := [];
    for index := 0 to |drafts|
      invariant chunks == ChunksOf(order, drafts[..index])
    {
      var chunk := MakeChunk(order, index, drafts[index]);
      chunks := chunks + [chunk];
      assert drafts[..index + 1][..index] == drafts[..index];
    }
    assert drafts[..|drafts|] == drafts;
  }

  method DraftsLoop(cfg: Config, doc: Document) returns (drafts: seq<Draft>)
    ensures drafts == DraftsOf(cfg, doc)
  {
    hide ChunkBlocks;
    drafts := ChunkBlocksLoop(cfg, BlocksWithText(doc.blocks));
    if drafts == [] {
      drafts := ChunkBlocksLoop(cfg, PageBlocks(doc.pages));
    }
  }

  method BuildChunksLoop(doc: Document, order: Order) returns (result: Result)
    ensures result == Build(doc, order)
  {
    hide OrderConfig;
    hide DraftsOf;
    hide ChunksOf;
    if order.maxChars < MIN_MAX_CHARS {
      return Refused(MaxCharsTooSmall);
    }
    var drafts := DraftsLoop(OrderConfig(doc, order), doc);
    if drafts == [] {
      return Refused(NoText);
    }
    if |drafts| > order.maxChunks {
      return Refused(TooMany(|drafts|));
    }
    var chunks := ChunksLoop(order, drafts);
    result := Built(chunks);
  }

  // ---- what a chunking guarantees -----------------------------------------------------------------

  /** The words a document asks to be chunked: those of its blocks, or of its pages when the blocks hold
      none outside their headings. */
  function DocumentWords(doc: Document): seq<string> {
    if ContentWords(doc.blocks) != [] then ContentWords(doc.blocks) else PageWords(doc.pages)
  }

  function SourceBlocks(doc: Document): seq<Block> {
    if ContentWords(doc.blocks) != [] then BlocksWithText(doc.blocks) else PageBlocks(doc.pages)
  }

  lemma DraftsSource(cfg: Config, doc: Document)
    ensures DraftsOf(cfg, doc) == ChunkBlocks(cfg, SourceBlocks(doc))
    ensures ContentWords(SourceBlocks(doc)) == DocumentWords(doc)
  {
    NoDraftsIff(cfg, BlocksWithText(doc.blocks));
    BlocksWithTextWords(doc.blocks);
    PageBlocksWords(doc.pages);
  }

  /** The outcome is decided by the order and the words of the document: refused for the size first, then
      exactly when there is no word to chunk, then for the number of chunks. */
  lemma Outcome(doc: Document, order: Order)
    ensures Build(doc, order) == Refused(MaxCharsTooSmall) <==> order.maxChars < MIN_MAX_CHARS
    ensures Build(doc, order) == Refused(NoText) <==> order.maxChars >= MIN_MAX_CHARS && DocumentWords(doc) == []
    ensures Build(doc, order).Built? ==> 0 < |Build(doc, order).chunks| <= order.maxChunks
  {
    hide BudgetFor;
    hide Header;
    if order.maxChars >= MIN_MAX_CHARS {
      var cfg := OrderConfig(doc, order);
      DraftsSource(cfg, doc);
      NoDraftsIff(cfg, SourceBlocks(doc));
    }
  }

  lemma HeaderShort(filename: string, section: seq<string>, pages: seq<nat>, limit: int)
    requires limit >= 2
    ensures 2 <= |Header(filename, section, pages, limit)| <= limit
  {
    hide MildestFit;
    hide Candidates;
    HeaderFits(filename, section, pages, limit);
  }

  /** A body within the budget of its section leaves room for whatever header the chunk gets, also when that
      header has other pages than the one the budget was measured with. */
  lemma ChunkFits(doc: Document, order: Order, index: nat, draft: Draft)
    requires order.maxChars >= MIN_MAX_CHARS && |draft.body| <= OrderConfig(doc, order).budget(draft.section)
    ensures |ChunkOf(order, index, draft).text| <= order.maxChars
  {
    hide Header;
    HeaderShort(order.filename, draft.section, WorstPages(MaxPage(doc)), HeaderCap(order.maxChars));
    HeaderShort(order.filename, draft.section, draft.pages, HeaderLimit(order.maxChars, draft.body));
  }

  /** What a chunk shows of its draft: a header of one line, shortened no more than the room beside the body
      asks for, and below it exactly the body; with the draft's pages and section, and its own position. */
  predicate Shows(order: Order, chunk: Chunk, index: nat, draft: Draft, header: string) {
    && chunk.text == header + "\n" + draft.body
    && IsHeaderLine(header) && '\n' !in header
    && MildestFit(Candidates(order.filename, draft.section, draft.pages),
                  Min(HeaderCap(order.maxChars), order.maxChars - 1 - |draft.body|), 0, header)
    && chunk.index == index && chunk.pages == draft.pages
    && chunk.section == (if Join(draft.section, " > ") == "" then None else Some(Join(draft.section, " > ")))
    && chunk.vertical == "kbdoc-" + Digits(order.documentId)
  }

  predicate AllShow(order: Order, chunks: seq<Chunk>, drafts: seq<Draft>, headers: seq<string>) {
    && |chunks| == |drafts| == |headers|
    && forall i :: 0 <= i < |chunks| ==> Shows(order, chunks[i], i, drafts[i], headers[i])
  }

  lemma ChunkShows(doc: Document, order: Order, index: nat, draft: Draft) returns (header: string)
    requires order.maxChars >= MIN_MAX_CHARS && |draft.body| <= OrderConfig(doc, order).budget(draft.section)
    requires OneLiners(draft.section)
    ensures Shows(order, ChunkOf(order, index, draft), index, draft, header)
  {
    hide Header;
    hide Candidates;
    hide MildestFit;
    var limit := HeaderLimit(order.maxChars, draft.body);
    header := Header(order.filename, draft.section, draft.pages, limit);
    HeaderShort(order.filename, draft.section, WorstPages(MaxPage(doc)), HeaderCap(order.maxChars));
    HeaderFits(order.filename, draft.section, draft.pages, limit);
    HeaderNoBreak(order.filename, draft.section, draft.pages, limit);
  }

  lemma {:induction false} ChunksShow(doc: Document, order: Order, drafts: seq<Draft>) returns (headers: seq<string>)
    requires order.maxChars >= MIN_MAX_CHARS
    requires forall d :: d in drafts ==> |d.body| <= OrderConfig(doc, order).budget(d.section) && OneLiners(d.section)
    ensures AllShow(order, ChunksOf(order, drafts), drafts, headers)
  {
    hide ChunkOf;
    hide OrderConfig;
    hide OneLiners;
    hide Shows;
    if drafts == [] {
      headers := [];
    } else {
      var n := |drafts| - 1;
      var front := ChunksShow(doc, order, drafts[..n]);
      var header := ChunkShows(doc, order, n, drafts[n]);
      headers := front + [header];
    }
  }

  /** The chunks account for the document: each shows its draft under a header, and the drafts are those of a
      log of closed chunks whose text pieces are the pieces of the document's blocks, block by block, with
      the words of the document, none lost and none repeated. */
  lemma Faithful(doc: Document, order: Order)
    returns (drafts: seq<Draft>, headers: seq<string>, log: seq<Closed>, groups: seq<seq<Piece>>)
    requires Build(doc, order).Built?
    ensures AllShow(order, Build(doc, order).chunks, drafts, headers)
    ensures Account(OrderConfig(doc, order), SourceBlocks(doc), drafts, log, groups)
    ensures PieceWords(LogText(log)) == DocumentWords(doc)
  {
    hide OrderConfig;
    hide AllShow;
    hide GroupsAccount;
    hide ContentWords;
    hide PageWords;
    hide ChunkBlocks;
    hide ChunksOf;
    hide OneLiners;
    var cfg := OrderConfig(doc, order);
    DraftsSource(cfg, doc);
    drafts := ChunkBlocks(cfg, SourceBlocks(doc));
    log, groups := ChunkBlocksAccount(cfg, SourceBlocks(doc));
    ContentKept(cfg, SourceBlocks(doc), drafts, log, groups);
    EmittedFits(cfg, log);
    DraftOneLiners(cfg, SourceBlocks(doc), drafts, log, groups);
    headers := ChunksShow(doc, order, drafts);
  }

  /** Every chunk, header included, is at most `maxChars` long, and every chunk carries its position and the
      document's own vertical. */
  lemma SizeBound(doc: Document, order: Order)
    ensures var r := Build(doc, order);
      r.Built? ==> forall i :: 0 <= i < |r.chunks| ==>
        |r.chunks[i].text| <= order.maxChars && r.chunks[i].index == i
        && r.chunks[i].vertical == VerticalFor(order.documentId)
  {
    hide Build;
    hide Account;
    hide Candidates;
    hide AllTooLong;
    hide Join;
    hide Digits;
    if Build(doc, order).Built? {
      var drafts, headers, log, groups := Faithful(doc, order);
    }
  }

  /** A chunk text taken apart at its first line break: the header, and a body that shows the overlap and then
      the pieces, whitespace aside. */
  predicate Reads(text: string, header: string, carry: string, pieces: seq<Piece>) {
    && |header| < |text| && text[..|header|] == header && text[|header|] == '\n' && '\n' !in header
    && Dense(Under(text, header)) == Dense(carry) + PieceChars(pieces)
  }

  function Under(text: string, header: string): string {
    if |header| < |text| then text[|header| + 1..] else ""
  }

  /** Every chunk reads so, and every overlap repeats the end of the chunk before. */
  predicate AllRead(chunks: seq<Chunk>, headers: seq<string>, carries: seq<string>, pieces: seq<seq<Piece>>) {
    && |chunks| == |headers| == |carries| == |pieces|
    && (forall i :: 0 <= i < |chunks| ==> Reads(chunks[i].text, headers[i], carries[i], pieces[i]))
    && (forall i :: 0 <= i < |chunks| ==>
          if i == 0 then carries[i] == "" else IsSuffix(carries[i], Under(chunks[i - 1].text, headers[i - 1])))
  }

  /** Down to the characters of the chunk texts: without their headers, overlaps and inline headings the chunks
      hold exactly the document's characters, whitespace aside, each once and in order. */
  lemma CharactersKept(doc: Document, order: Order)
    returns (headers: seq<string>, carries: seq<string>, pieces: seq<seq<Piece>>)
    requires Build(doc, order).Built?
    ensures AllRead(Build(doc, order).chunks, headers, carries, pieces)
    ensures PieceChars(OnlyText(Flat(pieces))) == Flat(DocumentWords(doc))
  {
    assert order.maxChars >= MIN_MAX_CHARS;
    hide Build;
    hide OrderConfig;
    hide DocumentWords;
    hide LogOk;
    hide GroupsAccount;
    hide AllRead;
    hide AllShow;
    var drafts, hs, log, groups := Faithful(doc, order);
    headers := hs;
    var chunks := Visible(log);
    CarriesAreEnds(OrderConfig(doc, order), log);
    carries := CarriesOf(chunks);
    pieces := PiecesOf(chunks);
    LogReads(doc, order, Build(doc, order).chunks, drafts, headers, log);
    VisibleChars(log);
    GroupsBlankSeps(SourceBlocks(doc), groups);
    GlueChars(LogText(log));
    DenseWords(Glue(ToParts(LogText(log))));
  }

  lemma LogReads(doc: Document, order: Order, built: seq<Chunk>, drafts: seq<Draft>, headers: seq<string>, log: seq<Closed>)
    requires order.maxChars >= MIN_MAX_CHARS
    requires AllShow(order, built, drafts, headers) && LogOk(OrderConfig(doc, order), log) && drafts == Emitted(log)
    ensures var chunks := Visible(log);
      |chunks| == |drafts|
      && AllRead(built, headers, CarriesOf(chunks), PiecesOf(chunks))
  {
    hide OrderConfig;
    hide Visible;
    hide Emitted;
    hide Render;
    hide Strip;
    hide MildestFit;
    hide Candidates;
    hide Join;
    hide IsSuffix;
    hide Linked;
    hide CauseOk;
    hide InlineOk;
    var chunks := Visible(log);
    VisibleEmitted(log);
    CarriesAreEnds(OrderConfig(doc, order), log);
    forall i | 0 <= i < |chunks|
      ensures Reads(built[i].text, headers[i], chunks[i].carry, chunks[i].pieces)
      ensures Under(built[i].text, headers[i]) == drafts[i].body
    {
      assert Shows(order, built[i], i, drafts[i], headers[i]);
      assert ClosedOk(OrderConfig(doc, order), chunks[i]);
      OneReads(built[i].text, headers[i], drafts[i].body, chunks[i]);
    }
  }

  lemma OneReads(text: string, header: string, body: string, e: Closed)
    requires text == header + "\n" + body && '\n' !in header
    requires body == Strip(Render(e.carry, e.pieces)) && WithText(e.pieces)
    ensures Reads(text, header, e.carry, e.pieces) && Under(text, header) == body
  {
    hide Render;
    hide Strip;
    hide Dense;
    DenseStrip(Render(e.carry, e.pieces));
    RenderChars(e.carry, e.pieces);
  }

  // ---- one vertical a document ----------------------------------------------------------------------

  lemma {:induction false} DigitsInjective(a: nat, b: nat)
    requires Digits(a) == Digits(b)
    ensures a == b
  {
    var x, y := Digits(a), Digits(b);
    assert x[|x| - 1] == "0123456789"[a % 10] && y[|y| - 1] == "0123456789"[b % 10];
    assert a % 10 == b % 10;
    var p, q := if a < 10 then "" else Digits(a / 10), if b < 10 then "" else Digits(b / 10);
    assert p == x[..|x| - 1] && q == y[..|y| - 1];
    if a >= 10 && b >= 10 {
      DigitsInjective(a / 10, b / 10);
    }
  }

  /** Different documents never share a vertical. */
  lemma VerticalInjective(a: nat, b: nat)
    requires VerticalFor(a) == VerticalFor(b)
    ensures a == b
  {
    assert Digits(a) == VerticalFor(a)[|VERTICAL_PREFIX|..];
    assert Digits(b) == VerticalFor(b)[|VERTICAL_PREFIX|..];
    DigitsInjective(a, b);
  }
}
