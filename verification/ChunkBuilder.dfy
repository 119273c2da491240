/** The chunk builder as the program runs it: an object whose methods update its fields, every method
    proved equal to its function in `ChunkState`; and `build_chunks` on top of it. */
module ChunkBuilder {
  import opened Text
  import opened Splitters
  import opened HeaderLine
  import opened Options
  import opened Blocks
  import opened ChunkState
  import opened ChunkProofs

  class Builder {
    /** File name, sizes and page count of the document, as the budget function they amount to. */
    const cfg: Config
    var drafts: seq<Draft>
    var section: seq<string>
    var chunkSection: seq<string>
    var body: string
    var unsent: bool
    var pages: set<nat>
    var lastKind: Option<Kind>
    var lastPages: set<nat>
    var before: Option<string>
    var budgetCache: map<seq<string>, nat>
    ghost var hist: History

    ghost function State(): State
      reads this
    {
      ChunkState.State(drafts, section, chunkSection, body, unsent, pages, lastKind, lastPages, before, hist)
    }

    /** The cache holds budgets only. */
    ghost predicate Valid()
      reads this
    {
      forall s :: s in budgetCache ==> budgetCache[s] == cfg.budget(s)
    }

    constructor (cfg: Config)
      ensures Valid() && State() == EMPTY && this.cfg == cfg
    {
      this.cfg := cfg;
      drafts, section, chunkSection, body, unsent := [], [], [], "", false;
      pages, lastKind, lastPages, before := {}, None, {}, None;
      budgetCache := map[];
      hist := History([], "", {}, [], 0);
    }

    method CachedBudget(s: seq<string>) returns (b: nat)
      requires Valid()
      modifies this`budgetCache
      ensures Valid() && b == cfg.budget(s)
    {
      if s !in budgetCache {
        budgetCache := budgetCache[s := cfg.budget(s)];
      }
      b := budgetCache[s];
    }

    method TightNow() returns (b: int)
      requires Valid()
      modifies this`budgetCache
      ensures Valid() && State() == old(State()) && b == TightBudget(cfg, State())
    {
      var own := CachedBudget(chunkSection);
      var next := CachedBudget(section);
      b := Min(own, next);
    }

    method Limit() returns (limit: int)
      requires Valid()
      modifies this`budgetCache
      ensures Valid() && limit == PieceLimit(cfg, State())
    {
      var tight := TightNow();
      limit := Max(20, tight - Min(cfg.overlap, tight / 3) - 2);
    }

    /** The overlap a chunk with the emitted body `text` hands over. */
    method TakeCarry(text: string, carryOverlap: bool) returns (carry: string)
      requires Valid() && text == EmittedBody(State())
      modifies this`budgetCache
      ensures Valid() && State() == old(State()) && carry == CarryOver(cfg, State(), carryOverlap)
    {
      carry := "";
      if unsent && text != "" && carryOverlap && cfg.overlap > 0 && lastKind != Some(Table) && lastKind != Some(Heading) {
        var tight := TightNow();
        carry := Tail(text, Min(cfg.overlap, tight / 3));
      }
    }

    method DoFlush(carryOverlap: bool, ghost cause: Cause)
      requires Valid()
      modifies this
      ensures Valid() && State() == Flush(cfg, old(State()), carryOverlap, cause)
    {
      var text := Strip(if lastKind == Some(Heading) && before.Some? then before.value else body);
      var carry := TakeCarry(text, carryOverlap);
      DoEmit(text, carry, cause);
    }

    method DoEmit(text: string, carry: string, ghost cause: Cause)
      requires Valid()
      modifies this
      ensures Valid() && State() == Emit(old(State()), text, carry, cause)
    {
      ghost var log := if unsent then hist.log + [Close(State(), cause)] else hist.log;
      if unsent && text != "" {
        drafts := drafts + [Draft(text, chunkSection, SortedPages(pages))];
      }
      StartNext(carry, if carry != "" then lastPages else {}, log);
    }

    method StartNext(carry: string, carryPages: set<nat>, ghost log: seq<Closed>)
      requires Valid()
      modifies this
      ensures Valid() && State() == OpenNext(old(State()), carry, carryPages, log)
    {
      body, pages, unsent, lastKind, before := carry, carryPages, false, None, None;
      chunkSection := section;
      hist := History(log, carry, carryPages, [], 0);
    }

    method DoReset()
      requires Valid()
      modifies this
      ensures Valid() && State() == Reset(old(State()))
    {
      StartNext("", {}, hist.log);
    }

    /** A text within the tight budget goes straight in.  A longer one is hard-split, and the calls for its
        parts do not split again: `append` recurses at most one level. */
    method DoAppend(text: string, textPages: set<nat>, sep: string, kind: Kind)
      requires Valid()
      modifies this
      ensures Valid() && State() == Append(cfg, old(State()), text, textPages, sep, kind)
      decreases if |text| > TightBudget(cfg, State()) then 2 else 0
    {
      var tight := TightNow();
      if |text| > tight {
        SplitAppend(text, textPages, sep, kind);
      } else {
        PutNow(text, textPages, sep, kind);
      }
    }

    method SplitAppend(text: string, textPages: set<nat>, sep: string, kind: Kind)
      requires Valid()
      modifies this
      ensures Valid()
      ensures State() == PutAll(cfg, old(State()),
        ToPieces(Reseparate(HardSplit(text, PieceLimit(cfg, old(State()))), sep), kind, textPages, old(section)))
      decreases 1, 1
    {
      var limit := Limit();
      var parts := HardSplitLoop(text, limit);
      HardSplitWhole(text, limit);
      Pour(Reseparate(parts, sep), textPages, kind);
    }

    method PutNow(text: string, textPages: set<nat>, sep: string, kind: Kind)
      requires Valid()
      modifies this
      ensures Valid() && State() == Put(cfg, old(State()), Piece(text, sep, kind, textPages, old(section)))
      decreases 0, 1
    {
      Room(Piece(text, sep, kind, textPages, section), text, sep, kind);
      Attach(text, textPages, sep, kind);
    }

    method Attach(text: string, textPages: set<nat>, sep: string, kind: Kind)
      requires Valid()
      modifies this
      ensures Valid() && State() == Add(old(State()), Piece(text, sep, kind, textPages, old(section)))
      decreases 0, 0
    {
      body := if body != "" then body + sep + text else text;
      pages := pages + textPages;
      unsent, lastKind, lastPages, before := true, Some(kind), textPages, None;
      var all := hist.pieces + [Piece(text, sep, kind, textPages, section)];
      hist := hist.(pieces := all, kept := |all|);
    }

    /** The two checks at the head of `append`: close the chunk when it is full, drop the overlap when even
        that leaves no room. */
    method Room(ghost piece: Piece, text: string, sep: string, kind: Kind)
      requires Valid() && piece.text == text && piece.sep == sep && piece.kind == kind
      modifies this
      ensures Valid() && State() == MakeRoom(cfg, old(State()), piece)
      decreases 0, 0
    {
      var own := CachedBudget(chunkSection);
      if body != "" && |body| + |sep| + |text| > own {
        DoFlush(kind != Table, Full);
      }
      own := CachedBudget(chunkSection);
      if body != "" && |body| + |sep| + |text| > own {
        DoReset();
      }
    }

    /** The loops that append a list of parts one by one: each fits the chunk it meets. */
    method Pour(parts: seq<Part>, textPages: set<nat>, kind: Kind)
      requires Valid() && FitParts(parts, TightBudget(cfg, State()))
      modifies this
      ensures Valid()
      ensures State() == PutAll(cfg, old(State()), ToPieces(parts, kind, textPages, old(section)))
      decreases 1, 0
    {
      ghost var st, pieces := State(), ToPieces(parts, kind, textPages, section);
      for i := 0 to |parts|
        invariant Valid() && State() == PutAll(cfg, st, pieces[..i])
        invariant section == st.section && TightBudget(cfg, State()) >= TightBudget(cfg, st)
      {
        PutTight(cfg, State(), pieces[i]);
        DoAppend(parts[i].text, textPages, parts[i].sep, kind);
        assert pieces[..i + 1][..i] == pieces[..i];
      }
      assert pieces[..|parts|] == pieces;
    }

    method DoEnterSection(path: seq<string>)
      requires Valid()
      modifies this
      ensures Valid() && State() == EnterSection(cfg, old(State()), path)
    {
      hide Strip;
      hide HeadingLabel;
      hide Flush;
      hide ShowLabel;
      if path == section {
      } else if unsent && |Strip(body)| >= cfg.minChars {
        DoFlush(false, AtHeading);
        section, chunkSection := path, path;
      } else if unsent {
        var title := HeadingLabel(section, path);
        section := path;
        var own := CachedBudget(chunkSection);
        if title != "" && |body| + 2 + |title| <= own {
          DoShowLabel(title);
        } else {
          DoFlush(false, NoRoom);
        }
      } else {
        DoReset();
        section, chunkSection := path, path;
      }
    }

    method DoShowLabel(title: string)
      requires Valid()
      modifies this
      ensures Valid() && State() == ShowLabel(cfg, old(State()), title)
    {
      var was := body;
      ghost var n := |hist.pieces|;
      DoAppend(title, {}, "\n\n", Heading);
      before := Some(was);
      hist := hist.(kept := Min(n, |hist.pieces|));
    }

    method AddText(text: string, textPages: set<nat>, kind: Kind)
      requires Valid() && text != "" && !IsSpace(text[0]) && kind != Heading && kind != Table
      modifies this
      ensures Valid() && State() == AddBlock(cfg, old(State()), text, textPages, kind)
    {
      var sep := if kind == ListItem && lastKind == Some(ListItem) then "\n" else "\n\n";
      var limit := Limit();
      if |text| <= limit {
        PutOnly(cfg, State(), Piece(text, sep, kind, textPages, section));
        DoAppend(text, textPages, sep, kind);
      } else {
        AddSentences(text, textPages, sep, kind);
      }
    }

    method AddSentences(text: string, textPages: set<nat>, sep: string, kind: Kind)
      requires Valid()
      modifies this
      ensures Valid()
      ensures State() == PutAll(cfg, old(State()),
        ToPieces(Reseparate(SentencePieces(text, PieceLimit(cfg, old(State()))), sep), kind, textPages, old(section)))
    {
      var limit := Limit();
      var parts := SentencePiecesLoop(text, limit);
      SentencePiecesWhole(text, limit);
      Pour(Reseparate(parts, sep), textPages, kind);
    }

    method AddTable(text: string, textPages: set<nat>)
      requires Valid() && text != "" && !IsSpace(text[0])
      modifies this
      ensures Valid() && State() == AddBlock(cfg, old(State()), text, textPages, Table)
    {
      var limit := TightNow();
      if |text| <= limit {
        PutOnly(cfg, State(), Piece(text, "\n\n", Table, textPages, section));
        DoAppend(text, textPages, "\n\n", Table);
      } else {
        var parts := GroupLinesLoop(text, limit);
        GroupLinesWhole(text, limit);
        Pour(Reseparate(parts, "\n\n"), textPages, Table);
      }
    }

    method DoFeed(block: Block)
      requires Valid()
      modifies this
      ensures Valid() && State() == Feed(cfg, old(State()), block)
    {
      var text := CleanText(block.text);
      if text == "" {
        return;
      }
      if block.kind == Heading {
        DoEnterSection(CleanPath(block.headingPath) + [OneLine(text)]);
        return;
      }
      var path := CleanPath(block.headingPath);
      if path != [] {
        DoEnterSection(path);
      }
      if block.kind == Table {
        AddTable(text, PositivePages(block.pages));
      } else {
        AddText(text, PositivePages(block.pages), block.kind);
      }
    }
  }

  lemma PutOnly(cfg: Config, st: ChunkState.State, piece: Piece)
    ensures PutAll(cfg, st, [piece]) == Put(cfg, st, piece)
  {
    assert [piece][..0] == [];
    assert PutAll(cfg, st, []) == st;
  }

  /** Appending a piece never shrinks the tight budget: the next chunk starts in the current section. */
  lemma PutTight(cfg: Config, st: ChunkState.State, piece: Piece)
    ensures Put(cfg, st, piece).section == st.section
    ensures TightBudget(cfg, Put(cfg, st, piece)) >= TightBudget(cfg, st)
  {
  }

  method ChunkBlocksLoop(cfg: Config, blocks: seq<Block>) returns (drafts: seq<Draft>)
    ensures drafts == ChunkBlocks(cfg, blocks)
  {
    var builder := new Builder(cfg);
    for i := 0 to |blocks|
      invariant builder.Valid() && builder.cfg == cfg
      invariant builder.State() == FeedAll(cfg, blocks[..i])
    {
      builder.DoFeed(blocks[i]);
      assert blocks[..i + 1][..i] == blocks[..i];
    }
    assert blocks[..|blocks|] == blocks;
    builder.DoFlush(false, AtEnd);
    drafts := builder.drafts;
  }
}
