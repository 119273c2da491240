# Verification of the document-intelligence backend

This project models four parts of `backend/doc_intel` and one script, in Dafny 4.11, and proves what they
guarantee for every input, every run and every reachable state.

- **The structure-aware chunker** turns a document's blocks into chunks with a header line. `ChunkBuilder` is the
  builder as a class with the program's own fields; `ChunkState` is the same machine on values, with a record of
  what went into every chunk; `ChunkProofs` and `BuildChunks` hold the results: the size bound, the full account
  of a document's words, and the rules for sections, pages and overlap. The splitters, the header line and the
  text cleaning are in `Splitters`, `HeaderLine`, `Blocks` and `Text`; `HeadingStack` is where heading paths come
  from.
- **The knowledge base**: `QueueConfig` is the queue configuration as it is stored, with colliding and malformed
  entries and built-in defaults, and what a chat then searches; `KbStore` is the publisher, which refines a simple
  map from documents to (chunks, queues).
- **The document registry**: `DocRegistry` holds the rows and their conditional updates, `DocMachine` one document
  through workers that stop anywhere, recovery in two steps, shutdown and admin actions.
- **The SharePoint sync**: `CrmStore` gives each transaction as a function on the tables, `CrmRepo` is the class
  that runs them, `CrmProofs` and `CrmEntities` say what any sequence of transactions by any workers keeps,
  `CrmFiles` follows one file through all runs of its source, and `CrmPlan` is the listing comparison.
- **The watchdog** (`Watchdog`): which checks to mail about, and the mails of one check over time.

Every imperative method is proved equal to a function of the old state, and the results are about those
functions; the methods on stored rows also spell out what they write. Histories in the results (the marks of a
run, what a file was brought, the mails a check calls for) are defined from the operations alone. Five results
say where the program does less than one might expect, with the exact condition:

- A chat on queues of which none was chosen for a document finds it exactly when none of them serves another
  vertical: a restriction to no verticals is no restriction (`QueueConfig.FoundFromExactly`,
  `QueueConfig.FoundUnchosen`).
- For the same reason, publishing one document can change what a chat finds of another: exactly where the active
  queues serve nothing but the first one and began or ceased to serve it (`QueueConfig.OthersFoundExactly`,
  `QueueConfig.OtherLost`, `KbStore.SearchAfterStep`).
- A deleted source can get ACTIVE entities again, exactly when a completion arrives for a file that is still
  listed and PROCESSING (`CrmEntities.LateCompletion`, `CrmEntities.LateCompletionHappens`).
- A second sync of an unchanged listing reprocesses exactly the files the listing gives nothing to compare by
  (`CrmPlan.Fixpoint`).
- An edit that shows in the cTag is found unless the row was left without a cTag, which is so exactly when it had
  none and the sync before found the file unchanged by something else, and not renamed (`CrmPlan.EditFound`,
  `CrmPlan.EditMissed`).

Project check: `dafny verify dfyconfig.toml`.

## Model

| member | source | states |
|---|---|---|
| `Text.WordsCut` | backend/doc_intel/chunking.py:381-384 | Whitespace between two texts separates their words: what every splitter relies on when it trims at a cut. |
| `Blocks.CleanTextWords` | backend/doc_intel/chunking.py:330-334 | Cleaning a text keeps its words, NUL characters apart. |
| `Blocks.BlocksWithTextWords` | backend/doc_intel/chunking.py:89-91 | Dropping blocks without text drops no word. |
| `Blocks.BlocksWithTextExactly` | backend/doc_intel/chunking.py:89-91 | Exactly the blocks with text go on, headings included, each as often as it is there. |
| `Blocks.PageBlocksWords` | backend/doc_intel/chunking.py:312-324 | The paragraphs made of the pages hold exactly the words of the pages, in order. |
| `Blocks.PageBlocksExactly` | backend/doc_intel/chunking.py:312-324 | Page by page: each block is a stripped paragraph without a blank line inside, with the number of its page when it has one and no heading path, and together they have the words of the page. |
| `Blocks.CleanPathSnoc` | backend/doc_intel/chunking.py:341-342 | A cleaned path has, title by title, those that are not blank, each on one line. |
| `Splitters.HardSplitLoop` | backend/doc_intel/chunking.py:372-391 | The loop terminates for every text and limit and returns the pieces of the specification. |
| `Splitters.HardSplitWhole` | backend/doc_intel/chunking.py:372-391 | Every piece fits the limit; separators are blank; an empty separator stands only at a forced cut inside a word; glued together the pieces have the words of the text and are no longer than it. |
| `Splitters.HardSplitWords` | backend/doc_intel/chunking.py:372-391 | The pieces read like the text also behind any text that comes before them. |
| `Splitters.HardSplitLength` | backend/doc_intel/chunking.py:380-388 | Pieces and separators together are never longer than the text: a separator is paid for by the whitespace it replaces. |
| `Splitters.HardCutForced` | backend/doc_intel/chunking.py:378-388 | A word is cut only in a full piece without a break in its second half. |
| `Splitters.HardSplitCut` | backend/doc_intel/chunking.py:378-388 | The first cut falls at the last break from half the limit up to the limit, the whitespace around it dropped, and at the limit when there is none. |
| `Splitters.SentencePiecesLoop` | backend/doc_intel/chunking.py:394-415 | The two loops return the sentence pieces of the specification. |
| `Splitters.SentencePiecesWhole` | backend/doc_intel/chunking.py:394-415 | Every sentence piece fits, separators are blank, and re-joined the pieces have the words of the text. |
| `Splitters.SentencePiecesExactly` | backend/doc_intel/chunking.py:394-415 | No sentence holds a line break or a sentence end followed by a blank, and between two sentences there is one; a sentence that fits is one piece, and only a longer one is cut, inside a word only where it must be. |
| `Splitters.GroupLinesLoop` | backend/doc_intel/chunking.py:418-439 | The packing loop returns the line groups of the specification. |
| `Splitters.GroupLinesWhole` | backend/doc_intel/chunking.py:418-439 | Every group of table lines fits, separators are blank, and re-joined the groups have the words of the table. |
| `Splitters.GroupLinesExactly` | backend/doc_intel/chunking.py:418-439 | The groups hold the non-blank lines, in order and whole; groups are filled up, so the line that starts one would not have fitted into the one before; only a line over the limit by itself is cut. |
| `HeaderLine.HeaderLoop` | backend/doc_intel/chunking.py:493-504 | The shortening loop returns the header of the specification. |
| `HeaderLine.HeaderFits` | backend/doc_intel/chunking.py:482-504 | For every limit of at least two: the header fits, is bracketed, and is the mildest shortening that fits, or exactly as long as the limit when none does. |
| `HeaderLine.FullHeader` | backend/doc_intel/chunking.py:449-502 | With room enough the header gives the file name, the whole section path, and the page or the first and the last page, written out. |
| `HeaderLine.StepShows` | backend/doc_intel/chunking.py:456-490 | Each shortening keeps the page label except the last one, cuts the name and the path only when they are over their share of that step, the path from the left, and drops the path in the last two. |
| `HeaderLine.HeaderNoBreak` | backend/doc_intel/chunking.py:493-504 | A header is one line when the section titles are. |
| `ChunkState.BudgetFor` | backend/doc_intel/chunking.py:163-171 | A chunk of any section has at least 71 characters for its body, and with them its measured header and a line break make up `max_chars`. |
| `ChunkState.PieceLimit` | backend/doc_intel/chunking.py:176-185 | A piece limit is at least 20 and never above the tight budget, so splitting up front needs no second split. |
| `ChunkProofs.TailLongest` | backend/doc_intel/chunking.py:358-369 | The overlap is the longest end of the body within the limit that starts with a word, the whole body when it fits, and only when no word starts there the last characters as they are. |
| `ChunkProofs.PutChunk` | backend/doc_intel/chunking.py:252-267 | Every append keeps the body within its budget and never shrinks the tight budget. |
| `ChunkProofs.PutAllChunk` | backend/doc_intel/chunking.py:239-248 | Pieces computed up front still fit every later chunk: `append` recurses at most one level. |
| `ChunkProofs.FlushChunk` | backend/doc_intel/chunking.py:269-288 | After a flush nothing is unsent, the next chunk is in the current section, and its overlap fits. |
| `ChunkProofs.LabelGrows` | backend/doc_intel/chunking.py:213-227 | An inline heading label never closes a chunk, not even when it is hard-split. |
| `ChunkProofs.HeadingLabelReads` | backend/doc_intel/chunking.py:216-219 | An inline label is the new path behind its longest common front with the old one, or its last title, whole when it has at most 300 characters and else its front with an ellipsis. |
| `ChunkProofs.PutInv` | backend/doc_intel/chunking.py:252-296 | One append keeps the record of all chunks: each within its budget, linked to the one before by exactly the overlap that is due, closed for a reason. |
| `ChunkProofs.EnterInv` | backend/doc_intel/chunking.py:205-231 | Entering a section keeps the record and adds no text. In it a heading is shown inline only in a chunk under the minimum size, with exactly its label and only where that has room; and such a chunk is closed by a heading only when the label has none. |
| `ChunkProofs.FeedInv` | backend/doc_intel/chunking.py:189-203 | One block adds exactly its own pieces, with its pages and the section it leads into. |
| `ChunkProofs.SectionReads` | backend/doc_intel/chunking.py:189-199 | The section a block leads into: of a heading its cleaned path with its own title, of a text its path when it has one, else the section stays. |
| `ChunkProofs.BlockPiecesOk` | backend/doc_intel/chunking.py:233-248 | A text or table that fits is one piece, its separator a line break between list items and a blank line otherwise; the pieces of a longer one fit the tight budget and have its words. |
| `ChunkProofs.OneLineWords` | backend/doc_intel/chunking.py:337-338 | On one line a text keeps its words and holds no line break. |
| `ChunkProofs.ChunkBlocksAccount` | backend/doc_intel/chunking.py:298-309 | For any block sequence the drafts are accounted for: each chunk's section is that of its first new text, its pages are those of its pieces and its overlap; the overlap is exactly the tail of the chunk before when prose continues prose after a full chunk and the next piece fits behind it, and empty otherwise; and the text pieces, in order, are those of the blocks, none lost and none repeated. |
| `ChunkProofs.EmittedFits` | backend/doc_intel/chunking.py:257-282 | Every draft is non-empty and within the budget of its own section. |
| `ChunkProofs.ContentKept` | backend/doc_intel/chunking.py:189-300 | The text pieces of all chunks, glued in order, have exactly the words of the non-heading blocks. |
| `ChunkProofs.NoDraftsIff` | backend/doc_intel/chunking.py:278-282 | There is no chunk exactly when the blocks hold no word outside their headings. |
| `ChunkBuilder.Builder.CachedBudget` | backend/doc_intel/chunking.py:163-171 | The cache never changes a budget. |
| `ChunkBuilder.Builder.DoFeed` | backend/doc_intel/chunking.py:189-203 | One block fed to the builder's fields is one step of the state machine. |
| `ChunkBuilder.Builder.DoEnterSection` | backend/doc_intel/chunking.py:205-231 | Entering a section in place, branch by branch. |
| `ChunkBuilder.Builder.AddText` | backend/doc_intel/chunking.py:233-240 | A text, whole or sentence by sentence, in place. |
| `ChunkBuilder.Builder.AddTable` | backend/doc_intel/chunking.py:242-248 | A table, whole or in groups of lines, in place. |
| `ChunkBuilder.Builder.DoAppend` | backend/doc_intel/chunking.py:252-267 | Appending in place, with recursion of at most one level. |
| `ChunkBuilder.Builder.DoFlush` | backend/doc_intel/chunking.py:269-288 | Closing a chunk in place. |
| `ChunkBuilder.Builder.DoReset` | backend/doc_intel/chunking.py:290-296 | Dropping the open chunk's overlap in place. |
| `ChunkBuilder.ChunkBlocksLoop` | backend/doc_intel/chunking.py:303-309 | The builder run over a document gives the drafts of the state machine. |
| `BuildChunks.BuildChunksLoop` | backend/doc_intel/chunking.py:64-130 | The whole function, with its error cases in their order. |
| `BuildChunks.Outcome` | backend/doc_intel/chunking.py:81-101 | Refused for the size exactly below 120; refused for no text exactly when the document has no word; otherwise at least one chunk and at most the limit. |
| `BuildChunks.SizeBound` | backend/doc_intel/chunking.py:103-117 | Every chunk, header included, is at most `max_chars` long, and carries its index and the document's vertical. |
| `BuildChunks.ChunkFits` | backend/doc_intel/chunking.py:107-108 | A body within its budget leaves room for the header the chunk really gets, whatever its pages. |
| `BuildChunks.Faithful` | backend/doc_intel/chunking.py:88-130 | Every chunk is a one-line header, the mildest that leaves room for the body, and below it exactly the body of its draft, with the pages and section of the draft, its index and the document's vertical; and the drafts account for the document's words, in order, none lost and none repeated but for the declared overlap. |
| `BuildChunks.CharactersKept` | backend/doc_intel/chunking.py:88-130 | Taken apart at their first line break, the chunk texts show an overlap that repeats the end of the chunk before, and then pieces which, inline headings aside, hold exactly the non-whitespace characters of the document, each once and in order. |
| `BuildChunks.VerticalInjective` | backend/doc_intel/constants.py:38-40 | Different documents never share a vertical. |
| `HeadingStack.ShortTitle` | backend/doc_intel/extraction_worker.py:551-553 | A title is at most 200 characters. |
| `HeadingStack.TitleKeepsWords` | backend/doc_intel/extraction_worker.py:551-553 | A title has exactly the words of its text, one space apart, when they fit, and else the front of that line and an ellipsis. |
| `HeadingStack.HeadingPaths` | backend/doc_intel/extraction_worker.py:494-514 | The loop gives every block the titles of exactly the earlier headings not cut off up to and including the block. |
| `HeadingStack.StandingExactly` | backend/doc_intel/extraction_worker.py:507-512 | A heading stands exactly when no later heading of the same or a higher rank came before the end looked at. |
| `HeadingStack.StandingRises` | backend/doc_intel/extraction_worker.py:507-510 | The standing headings are in document order with strictly increasing levels. |
| `HeadingStack.HeadingPathLoop` | backend/doc_intel/extraction_worker.py:556-570 | The parent walk terminates on every link structure, cycles included, and its cache never changes an answer. |
| `HeadingStack.WalkMatchesStack` | backend/doc_intel/extraction_worker.py:504-512 | Where parent links name the innermost heading above each block, the walk and the stack give the same paths. |
| `QueueConfig.GetQueueGroups` | backend/services/kb_queue_groups.py:34-54 | The catalog retrieval serves: later keys win, blank verticals are dropped, defaults step in. |
| `QueueConfig.CatalogIndex` | backend/doc_intel/queue_config.py:53-62 | The index of catalog keys to raw keys. |
| `QueueConfig.CatalogExactly` | backend/services/kb_queue_groups.py:34-54 | Groups with a usable entry are what chats see; otherwise the three default queues with their verticals, written out. |
| `QueueConfig.ServedExactly` | backend/doc_intel/queue_config.py:53-62 | A queue of the catalog is the last usable entry whose key strips to its name, and serves that entry's verticals. |
| `QueueConfig.TextsCount` | backend/services/kb_queue_groups.py:47-54 | An entry serves the text of every item that is not blank, as often as it is listed. |
| `QueueConfig.EnsureKeepsCatalog` | backend/doc_intel/queue_config.py:65-82 | Writing the groups out changes no chat: the catalog stays what retrieval served. |
| `QueueConfig.ExplicitExactly` | backend/doc_intel/queue_config.py:65-82 | Groups that say something are kept as they are; others are written out as the defaults behind the entries under other keys. |
| `QueueConfig.SetVerticalQueuesLoop` | backend/doc_intel/queue_config.py:85-112 | The loops over keys and entries compute the specified configuration or error. |
| `QueueConfig.SetExactly` | backend/doc_intel/queue_config.py:85-112 | A vertical ends up in exactly the selected catalog queues, colliding raw keys or not; other verticals stay, in order; no queue appears or goes; refused exactly for an unknown name, and for the first one. |
| `QueueConfig.PlaceAt` | backend/doc_intel/queue_config.py:102-111 | Entry by entry: keys and order stay, malformed entries are untouched. |
| `QueueConfig.SetStands` | backend/doc_intel/queue_config.py:85-112 | All other settings stand; of groups that say something every raw key, title, malformed entry and other item stands, in order. |
| `QueueConfig.RemoveStands` | backend/doc_intel/queue_config.py:115-129 | The same when a vertical is taken out; without groups nothing changes. |
| `QueueConfig.RemoveVerticalLoop` | backend/doc_intel/queue_config.py:115-129 | The removing loop computes the specified configuration. |
| `QueueConfig.RemoveExactly` | backend/doc_intel/queue_config.py:115-129 | After removing, no queue serves the vertical and every queue keeps its others. |
| `QueueConfig.SetTwice` | backend/doc_intel/queue_config.py:85-112 | Setting queues is idempotent, exactly. |
| `QueueConfig.RemoveAfterSet` | backend/doc_intel/queue_config.py:85-129 | Removing after setting is removing from the written-out configuration, exactly. |
| `QueueConfig.SetsCommute` | backend/doc_intel/queue_config.py:85-112 | Two documents' queues can be set in either order: the same entries up to the order of verticals. |
| `QueueConfig.LastWriterWins` | backend/doc_intel/queue_config.py:85-112 | The last setting decides which queues serve what, whatever was set before. |
| `QueueConfig.ResolveVerticalsLoop` | backend/services/kb_queue_groups.py:66-84 | The verticals a chat searches, without repeats, or no restriction. |
| `QueueConfig.ResolvedOnce` | backend/services/kb_queue_groups.py:66-84 | A chat searches each vertical once, those of earlier queues first. |
| `QueueConfig.SearchableExactly` | backend/services/kb_queue_groups.py:66-84 | A vertical is found exactly when an active queue serves it or the active queues serve nothing at all. |
| `QueueConfig.FoundFromExactly` | backend/services/kb_queue_groups.py:66-84 | After setting, a chat on any list of active queues, unknown keys included, finds the document exactly when one of them was chosen or none of them serves another vertical. |
| `QueueConfig.FoundFromOne` | backend/services/kb_queue_groups.py:66-84 | For one queue of the catalog: exactly when it was chosen or holds no other vertical. |
| `QueueConfig.FoundUnchosen` | backend/services/kb_queue_groups.py:84-84 | A chat on a queue without verticals finds a document that was put into another queue only. |
| `QueueConfig.OthersFoundExactly` | backend/doc_intel/queue_config.py:85-112 | Setting one document's queues changes whether a chat finds another document exactly when the active queues serve nothing but the first one and began or ceased to serve it. |
| `QueueConfig.OtherLost` | backend/services/kb_queue_groups.py:84-84 | Putting a document into an empty queue takes another one, found there before, out of a chat on that queue. |
| `KbStore.KbStore.DoPublish` | backend/doc_intel/kb_store.py:154-232 | Publishing in place, in batches of 200, all or nothing, with its checks and errors in their order. |
| `KbStore.KbStore.DoSetQueues` | backend/doc_intel/kb_store.py:261-278 | Changing queues in place, all or nothing. |
| `KbStore.KbStore.DoUnpublish` | backend/doc_intel/kb_store.py:234-259 | Unpublishing in place, all or nothing. |
| `KbStore.AcceptedExactly` | backend/doc_intel/kb_store.py:166-215 | Which data an operation needs, exactly; a refused or failed one changes nothing. |
| `KbStore.RefusalTells` | backend/doc_intel/kb_store.py:166-215 | What a refusal says is so: the counts differ, the dimension, a vector or the stored configuration is unusable, the corpus is missing, this is the first unknown queue, or two chunks share an index. |
| `KbStore.InsertedRows` | backend/doc_intel/kb_store.py:212-218 | Inserting succeeds exactly when the chunk indexes differ, adds exactly the new rows and touches no other document's. |
| `KbStore.PublishedExactly` | backend/doc_intel/kb_store.py:205-220 | A publication leaves exactly its chunks, each with its own vector and the model, in place of the document's former ones, and every other row as it was. |
| `KbStore.StepRefines` | backend/doc_intel/kb_store.py:154-278 | One transaction does to every document of every corpus what it does on the simple map from documents to (chunks, queues). |
| `KbStore.SearchAfterStep` | backend/doc_intel/kb_store.py:154-278 | After publishing, changing queues or unpublishing: what a chat on any active queues finds, for the document itself and for every other one, exactly. |
| `KbStore.OtherCorpusUntouched` | backend/doc_intel/kb_store.py:282-294 | An operation on one corpus, or one that is refused, changes no other corpus. |
| `KbStore.StepStands` | backend/doc_intel/kb_store.py:204-294 | Whatever an operation does, no corpus row appears or goes, its other settings stand, and so do the keys, titles, malformed entries and other verticals of groups that say something. |
| `KbStore.RunStands` | backend/doc_intel/kb_store.py:154-294 | The same over any sequence of operations, for every vertical none of them was about. |
| `KbStore.RunRefines` | backend/doc_intel/kb_store.py:154-278 | After any sequence of transactions each document has the chunks and queues its carried-out operations say, and every corpus its queues. |
| `KbStore.NoOrphanChunks` | backend/doc_intel/kb_import.py:613-628 | With the pipeline's checks, a document that has chunks is in at least one queue, and its chunks are those of its last carried-out publication, numbered 0 to n - 1. |
| `KbStore.PipelineMeets` | backend/doc_intel/chunking.py:106-130 | Built chunks are numbered from 0 and not empty, and a document's vertical is never blank and never a built-in one. |
| `DocRegistry.KbRepo.Update` | backend/doc_intel/kb_repo.py:699-754 | The conditional update: nothing happens unless the row is there and still matches, and then exactly the named changes. |
| `DocRegistry.KbRepo.ClaimNext` | backend/doc_intel/kb_repo.py:423-446 | The oldest queued document is claimed: one more attempt, for this worker, now; no other document changes. |
| `DocRegistry.KbRepo.DoSetStage` | backend/doc_intel/kb_repo.py:448-468 | One stage of a PROCESSING document: a running stage starts now, a finished one ends now and keeps its start, a reset one has no record, and every other stage and its record stay. |
| `DocRegistry.KbRepo.DoFinishPublished` | backend/doc_intel/kb_repo.py:495-529 | The end of a run as PUBLISHED: publishing COMPLETED, nothing failed, the other stages as they were. |
| `DocRegistry.KbRepo.DoFinishFailed` | backend/doc_intel/kb_repo.py:522-529 | The end of a run as FAILED at the named stage, also of an interrupted one, exactly when it is still PROCESSING and the re-checks hold; the other stages stay. |
| `DocRegistry.KbRepo.RecoverStale` | backend/doc_intel/kb_repo.py:540-556 | Exactly the stale PROCESSING rows become FAILED, each at the first stage running or, without one, the first not done; all others stay. |
| `DocRegistry.KbRepo.ReleaseInterrupted` | backend/doc_intel/kb_repo.py:558-569 | A stopping worker fails its own PROCESSING document only, at the stage it was in. |
| `DocRegistry.KbRepo.DoResetForRetry` | backend/doc_intel/kb_repo.py:582-590 | A retry of a FAILED document keeps every stage before the named one with its record, and sets that one and all later ones to PENDING without one. |
| `DocRegistry.KbRepo.DoResetForRepublish` | backend/doc_intel/kb_repo.py:592-599 | A republish does the same from chunking on. |
| `DocRegistry.KbRepo.DoMarkUnpublished` | backend/doc_intel/kb_repo.py:601-604 | Unpublishing changes the status only. |
| `DocRegistry.ChangeDetails` | backend/doc_intel/kb_repo.py:130-161 | Stage details stay those of the stages that ran: ended once they ended, with an error exactly for a failed one. |
| `DocMachine.InterruptedInShape` | backend/doc_intel/kb_repo.py:164-172 | The stage blamed for an interruption is the first one not COMPLETED. |
| `DocMachine.StepKeeps` | backend/doc_intel/kb_import.py:491-635 | Every step of a worker, a recovery, a shutdown or an admin keeps the row's shape, the worker's place, and every noted interruption either right or refused. |
| `DocMachine.InterruptKeeps` | backend/doc_intel/kb_repo.py:677-697 | A recovery that read the row earlier fails it at the right stage or not at all. |
| `DocMachine.EveryRun` | backend/doc_intel/kb_import.py:467-640 | The shape holds in every reachable state of an accepted document. |
| `DocMachine.ShapeMeans` | backend/doc_intel/kb_repo.py:164-172 | PUBLISHED means all five stages COMPLETED; FAILED names its failed stage; everything after an unfinished stage is PENDING. |
| `DocMachine.OutsideRecords` | backend/doc_intel/kb_repo.py:531-604 | In any state: a retry puts the named stage and all later ones back, a republish does so from chunking on, unpublishing keeps all stages, a heartbeat shows the time, and each only from the states the program allows. |
| `DocMachine.UnpublishedIsFinal` | backend/doc_intel/kb_repo.py:601-604 | From every reachable state in which it is unpublished, a document never changes again and no worker takes it up. |
| `DocMachine.CanStillPublish` | backend/doc_intel/kb_import.py:355-430 | From every reachable state short of UNPUBLISHED there is a way to PUBLISHED. |
| `CrmRepo.CrmRepo.CreateRun` | backend/doc_intel/crm_repo.py:956-974 | A run is queued, with nothing done yet, exactly when its source is there and has none queued or running. |
| `CrmRepo.CrmRepo.ClaimNextRun` | backend/doc_intel/crm_repo.py:1002-1025 | The oldest queued run starts now, for this worker; no other run changes. |
| `CrmRepo.CrmRepo.FinishRun` | backend/doc_intel/crm_repo.py:1061-1121 | A run ends with the given outcome and error, now, exactly when the worker that holds it says so with a final status, and its source records it. |
| `CrmRepo.CrmRepo.RecordOnSource` | backend/doc_intel/crm_repo.py:1691-1718 | A source that is not deleted shows the time, outcome and error of the run, and the time as its last success only for a COMPLETED one. |
| `CrmRepo.CrmRepo.FailInterruptedRun` | backend/doc_intel/crm_repo.py:1720-1772 | A running run that meets the conditions ends FAILED with the reason, and each file it was processing fails at the stage it was in, every other file untouched; its source records it. |
| `CrmRepo.CrmRepo.UpsertFile` | backend/doc_intel/crm_repo.py:1194-1252 | A listed file is inserted waiting, or the row it has waits again, listed, all stages PENDING, without a failure, on a new retry budget or the old one. |
| `CrmRepo.CrmRepo.UpdateFileIn` | backend/doc_intel/crm_repo.py:1788-1839 | The conditional file update: nothing happens unless the row is there and still matches, and then exactly the named stages and columns change. |
| `CrmRepo.CrmRepo.BeginFile` | backend/doc_intel/crm_repo.py:1303-1317 | A waiting or failed listed file starts: one more attempt, for this run, all stages PENDING, no failure; every other file stays. |
| `CrmRepo.CrmRepo.SetFileStage` | backend/doc_intel/crm_repo.py:1319-1334 | One stage of a PROCESSING file, and nothing else. |
| `CrmRepo.CrmRepo.FailFile` | backend/doc_intel/crm_repo.py:1336-1357 | A PROCESSING file ends FAILED at a stage, with the named stages COMPLETED or back to PENDING and all others as they were. |
| `CrmRepo.CrmRepo.ResetFileForRetry` | backend/doc_intel/crm_repo.py:1402-1410 | A failed listed file waits again: all stages PENDING, no attempts, no failure; every other file stays. |
| `CrmRepo.CrmRepo.CompleteFile` | backend/doc_intel/crm_repo.py:1359-1400 | One transaction: the file's entities withdrawn, the first 2,000 new ones inserted behind them, the file COMPLETED with its count; nothing when the file is not PROCESSING and listed. |
| `CrmRepo.CrmRepo.ReplaceFileEntities` | backend/doc_intel/crm_repo.py:1439-1483 | The file's ACTIVE entities become WITHDRAWN and at most 2,000 new ones are inserted. |
| `CrmRepo.CrmRepo.MarkFilesDeleted` | backend/doc_intel/crm_repo.py:1277-1301 | Files marked deleted in batches of 500 end as if marked at once: off the list, their entities withdrawn, all else as it was. |
| `CrmRepo.CrmRepo.SoftDeleteSource` | backend/doc_intel/crm_repo.py:863-904 | A live source without a run queued or running is deleted and exactly its entities withdrawn; otherwise nothing happens. |
| `CrmProofs.ExactlyOneOutcome` | backend/doc_intel/crm_repo.py:956-1148 | After any operations by any workers the row of every run shows its whole history: created once, claimed at most once, heartbeats only while it ran, ended at most once, with that outcome, error and time; no source has two runs in progress; and every source not deleted shows the time, outcome and error of the last end of its runs and the time of their last success. |
| `CrmProofs.AliveIsSpared` | backend/doc_intel/crm_repo.py:1729-1744 | A run whose last sign of life is not older than the threshold is never recovered as stale. |
| `CrmProofs.FinishedIsFinal` | backend/doc_intel/crm_repo.py:1098-1110 | A finished run never changes again. |
| `CrmEntities.EntityGenerations` | backend/doc_intel/crm_repo.py:1359-1400 | After any operations by any workers the ACTIVE entities of a file are exactly what its last completion brought, at most 2,000, or none since the file or its source was deleted; a COMPLETED, listed file of a live source has as many as it counts, up to 2,000. |
| `CrmEntities.OnlyWithdrawn` | backend/doc_intel/crm_repo.py:1456-1463 | Entities are never lost or rewritten and only go from ACTIVE to WITHDRAWN. |
| `CrmEntities.MarkedDeleted` | backend/doc_intel/crm_repo.py:1277-1301 | A file marked deleted is off the list and has no ACTIVE entity; every other file stays as it is. |
| `CrmEntities.SourceDeleted` | backend/doc_intel/crm_repo.py:863-904 | Deleting a live source without a run in progress marks it DELETED and leaves its files no ACTIVE entity, every other file all of its own; otherwise nothing happens. |
| `CrmEntities.CompletionBrings` | backend/doc_intel/crm_repo.py:1359-1400 | A completed file is COMPLETED with its count and has exactly the first 2,000 entities brought. |
| `CrmEntities.StaysEmpty` | backend/doc_intel/crm_repo.py:863-904 | A file without ACTIVE entities, such as one of a deleted source, stays so over any operations until a completion of it arrives. |
| `CrmEntities.ActiveAfter` | backend/doc_intel/crm_repo.py:1303-1483 | Exactly three things change which entities of a file are ACTIVE: a completion, the deletion of the file, and the deletion of its source; a run that starts, fails or is interrupted loses none. |
| `CrmEntities.LateCompletion` | backend/doc_intel/crm_repo.py:1375-1383 | A deleted source's file gets ACTIVE entities again exactly through a completion while it is listed and PROCESSING. |
| `CrmEntities.LateCompletionHappens` | backend/doc_intel/crm_repo.py:863-904 | A sequence of operations, with a worker that goes on after its stale run was recovered, in which that happens. |
| `CrmFiles.BoundedRetries` | backend/doc_intel/crm_sync.py:337-343 | In any stretch of any run without a renewal a file is started at most three times, less the tries already used. A renewal is a plan that finds the file new, listed again after deletion, or of changed or incomparable content, or an admin's retry. |
| `CrmFiles.RunCounts` | backend/doc_intel/crm_repo.py:1303-1311 | Over such a stretch the row's attempts grow by exactly the number of starts. |
| `CrmFiles.RenewalEmpties` | backend/doc_intel/crm_repo.py:1247-1248 | A planned renewal, once carried out, leaves an empty budget. |
| `CrmFiles.EveryRun` | backend/doc_intel/crm_sync.py:1003-1176 | In every reachable state: at most three attempts, a PENDING file has a try left, a COMPLETED file has all five stages COMPLETED, and the driver's place agrees with the row. |
| `CrmFiles.StagesTell` | backend/doc_intel/crm_repo.py:1336-1357 | At most one stage is RUNNING, none once the file is not PROCESSING, and a FAILED file names a stage that is FAILED: stages marked in advance are settled when a file fails. |
| `CrmFiles.FailureRecords` | backend/doc_intel/crm_repo.py:1336-1357 | A failure leaves its stage FAILED, the child stages before it COMPLETED when the child had got so far and PENDING when not, all other stages as they were. |
| `CrmFiles.OutsideRecords` | backend/doc_intel/crm_repo.py:1194-1772 | In any state: a deletion takes the file off the list, an upsert inserts it or lets it wait again, a recovery fails it at the stage its run was in, an admin's retry gives a failed file a new budget; the other columns stay. |
| `CrmFiles.StepKeeps` | backend/doc_intel/crm_sync.py:1003-1176 | Every step of the run driver, of recovery and of an admin keeps that. |
| `CrmFiles.NeverRefused` | backend/doc_intel/crm_sync.py:1039-1044 | A planned file always starts, and a stage that ran is always recorded. |
| `CrmFiles.NextRunCompletes` | backend/doc_intel/crm_sync.py:1065-1176 | A listed file that waits for a try can be completed by the next run. |
| `CrmPlan.TruncateFits` | backend/doc_intel/textutil.py:33-46 | A text cut for a column fits it in UTF-8 bytes. |
| `CrmPlan.TruncateExactly` | backend/doc_intel/textutil.py:33-46 | A text that fits stays whole; of a longer one the longest front is kept that leaves room for three dots. |
| `CrmPlan.PlanSync` | backend/doc_intel/crm_sync.py:358-396 | The loop with its seen-set computes the specified plan. |
| `CrmPlan.ChangedExactly` | backend/doc_intel/crm_sync.py:320-334 | A listed file that is not tracked is new. A tracked one is changed exactly when the first thing both sides have differs: the cTag, then the eTag, then the hash, each cut to its column, then the size or the second of modification; with nothing in common it is changed. |
| `CrmPlan.UnchangedSorted` | backend/doc_intel/crm_sync.py:337-390 | A tracked file not changed is tried again while it waits, or failed or interrupted after fewer than three tries; else it stays, and counts as renamed exactly when the row does not show what the listing says. |
| `CrmPlan.PlanPartitions` | backend/doc_intel/crm_sync.py:372-396 | Every listed file that counts goes to exactly one list; deleted are exactly the tracked files a complete listing lacks. |
| `CrmPlan.FirstsExactly` | backend/doc_intel/crm_sync.py:374-381 | A listed file counts exactly when its key is valid and no earlier file of the listing has it. |
| `CrmPlan.EditFound` | backend/doc_intel/crm_sync.py:320-396 | A file listed and then listed again with another cTag is changed in the second plan, and then waits with the new cTag on a new retry budget, whenever the first sync left a cTag in the row; it left none exactly when the row had none and the file was found unchanged and not renamed. |
| `CrmPlan.EditMissed` | backend/doc_intel/crm_sync.py:320-334 | In that case an edit can be missed: a row without a cTag, two listings with the same eTag and different cTags. |
| `CrmPlan.ApplyPlan` | backend/doc_intel/crm_sync.py:995-1009 | The loops that carry a plan out compute the specified store. |
| `CrmPlan.SameMeta` | backend/doc_intel/crm_sync.py:320-355 | A row with the columns of a remote file differs from it exactly when nothing can be compared. |
| `CrmPlan.AfterListed` | backend/doc_intel/crm_sync.py:374-393 | The row of every listed file after a sync, by the list of the plan it is in. |
| `CrmPlan.AfterUnlisted` | backend/doc_intel/crm_sync.py:394-395 | A file that is not listed is marked deleted by a complete listing and untouched by a partial one. |
| `CrmPlan.ShownCurrent` | backend/doc_intel/crm_sync.py:346-355 | After a sync every listed file shows the name, path, link, tag, size and second of modification the listing gives, cut to their columns, renamed or not. |
| `CrmPlan.Converges` | backend/doc_intel/crm_sync.py:358-396 | After a complete listing the tracked files are exactly the listed valid keys; a partial one only adds. |
| `CrmPlan.FirstsKeys` | backend/doc_intel/crm_sync.py:374-381 | The keys a plan goes by are exactly the valid keys of the listing. |
| `CrmPlan.Fixpoint` | backend/doc_intel/crm_sync.py:320-396 | Planning again on the same listing finds nothing new, deleted or renamed, and changed exactly the files with nothing to compare by. |
| `CrmPlan.UpsertsAgree` | backend/doc_intel/crm_repo.py:1194-1252 | What carrying out a plan does to a file is what the store's transactions do to its row. |
| `CrmPlan.DriverFollowsPlan` | backend/doc_intel/crm_sync.py:373-395 | The driver followed file by file goes where the plan of the whole listing sends each file. |
| `Watchdog.DecideLoop` | scripts/watchdog.py:240-269 | The loop decides as specified. |
| `Watchdog.SettleLoop` | scripts/watchdog.py:272-280 | Delivered alerts are stamped and recovered checks forgotten; without a delivery nothing changes. |
| `Watchdog.RunOnceLoop` | scripts/watchdog.py:377-397 | One run decides, mails when there is something to mail about, and saves the settled state. |
| `Watchdog.RunOnceKey` | scripts/watchdog.py:377-397 | What a run mails and remembers about a check depends on that check alone. |
| `Watchdog.ChecksAreIndependent` | scripts/watchdog.py:377-397 | Over any number of whole runs the saved state of a check and the mails delivered about it are that check's own replay. |
| `Watchdog.ReplayMatches` | scripts/watchdog.py:253-268 | The mails about a check are exactly those its outcomes call for: the entry kept in the file stands for the last mail and the failing streak. |
| `Watchdog.SinceTold` | scripts/watchdog.py:250-268 | The start of a problem that the mails print is the first failed run since the check was last fine with no alert left to answer. |
| `Watchdog.WatchdogTrace` | scripts/watchdog.py:240-280 | Over any sequence of whole runs, with other checks and failed sends alongside, the mails delivered about a check are those its outcomes call for and follow (alert+ all-clear)*; alerts of one episode are at least the repeat time apart; the first comes after the confirming number of failed runs in a row. |

## Left out

- BuildChunks.Faithful: accounts for the document's text, not for its headings; a heading with no text under it appears in no chunk, as in the program.
- HeadingStack.HeadingPaths: takes the blocks that are kept, in reading order; dropping furniture, removing invisible marks, choosing OCR text and counting a heading without a level as level 1 come before it.
- KbStore.RunRefines: takes each transaction as one atomic step that the database may refuse at any statement; waiting for the row lock is not modelled.
- KbStore.KbStore.DoPublish: vectors are texts of some length; their numbers, the content hash and the payload's other fields are not part of the model.
- DocMachine.EveryRun: a worker whose document was recovered or released takes no more steps; the program's stage updates do not check the worker.
- CrmFiles.BoundedRetries: likewise a driver whose run was recovered takes no more steps; the results on runs and entities need no such condition.
- CrmEntities.EntityGenerations: a completion names the file's own source, as the run driver does.
- CrmRepo.CrmRepo.FinishRun: the schedule column of the source is not modelled, so an admin edit of the schedule during a run is not either.
- CrmPlan.Fixpoint: files are identified by drive and item, which the store keeps unique per source.
- Watchdog.WatchdogTrace: the state file is saved after every run, the check is part of every run, and times are positive.
- Rejected uploads: a document whose upload failed is never queued and is not followed.
- Agreement between the registry row and the knowledge base: two separate commits, reported by the health check when they drift apart.
- Microsoft Graph, OAuth, Zoho, mail delivery, HTTP probes and child processes: their outcomes are arbitrary inputs.
- The scheduler, health checks, API models, settings, authentication and migrations are not part of this model.
- Conversion of database numbers (`to_plain`) and JSON encoding: configurations are taken as plain values.
