/** The knowledge base: chunks and queue membership written together, one transaction an operation. */
module KbStore {
  import opened Text
  import opened Options
  import opened Sequences
  import opened QueueConfig
  import BuildChunks

  const INSERT_BATCH := 200
  const MAX_TEXT_BIND_BYTES := 32767
  const MAX_DIMENSION := 65535

  type Chunk = BuildChunks.Chunk

  /** The unique key of the chunk table; one chunker version is in use. */
  datatype Key = Key(corpus: string, parent: string, index: int)

  datatype Row = Row(chunk: Chunk, vector: string, model: string)

  datatype Stored = Object(config: Config) | NotJsonObject

  /** The two tables. */
  datatype Db = Db(configs: map<string, Stored>, rows: map<Key, Row>)

  datatype Failure = Internal | InvalidConfig | CorpusNotFound | UnknownQueueKey(key: string) | Database

  datatype Outcome = Done | Failed(failure: Failure)

  /** A request, and the statement of its transaction at which the database gives up, if it does.  An id that
      is no corpus id is the empty text. */
  datatype Op =
    | Publish(corpus: string, vertical: string, names: seq<string>, chunks: seq<Chunk>, vectors: seq<string>,
              model: string, dimension: int, fault: Option<nat>)
    | SetQueues(corpus: string, vertical: string, names: seq<string>, fault: Option<nat>)
    | Unpublish(corpus: string, vertical: string, fault: Option<nat>)

  // ---- transactions on values ---------------------------------------------------------------------------

  function Deleted(rows: map<Key, Row>, corpus: string, parent: string): (left: map<Key, Row>) {
    map key | key in rows && !(key.corpus == corpus && key.parent == parent) :: rows[key]
  }

  /** Inserting the first `n` chunks, or nothing when two of them have the same key. */
  function Inserted(rows: map<Key, Row>, op: Op, n: nat): Option<map<Key, Row>>
    requires op.Publish? && n <= |op.chunks| == |op.vectors|
  {
    if n == 0 then Some(rows)
    else
      var before := Inserted(rows, op, n - 1);
      var key := Key(op.corpus, op.vertical, op.chunks[n - 1].index);
      if before.None? || key in before.value then None
      else Some(before.value[key := Row(op.chunks[n - 1], op.vectors[n - 1], op.model)])
  }

  function Batches(n: nat): nat {
    (n + INSERT_BATCH - 1) / INSERT_BATCH
  }

  predicate Faults(op: Op, statements: nat) {
    op.fault.Some? && op.fault.value < statements
  }

  predicate TooLong(vectors: seq<string>) {
    exists i :: 0 <= i < |vectors| && |vectors[i]| > MAX_TEXT_BIND_BYTES
  }

  /** The checks made before the transaction starts. */
  function Precheck(op: Op): Option<Failure>
    requires op.Publish?
  {
    if |op.chunks| != |op.vectors| then Some(Internal)
    else if op.dimension < 1 || op.dimension > MAX_DIMENSION then Some(InvalidConfig)
    else if op.corpus == "" then Some(CorpusNotFound)
    else if TooLong(op.vectors) then Some(InvalidConfig)
    else None
  }

  /** Under the lock: the corpus row with the queues set. */
  function WithQueues(db: Db, op: Op): (r: (Option<Config>, Option<Failure>))
    requires op.Publish? || op.SetQueues?
    ensures r.0.None? <==> r.1.Some?
  {
    if op.corpus !in db.configs then (None, Some(CorpusNotFound))
    else if db.configs[op.corpus].NotJsonObject? then (None, Some(InvalidConfig))
    else match SetVerticalQueues(db.configs[op.corpus].config, op.vertical, op.names)
         case UnknownQueue(key) => (None, Some(UnknownQueueKey(key)))
         case Ok(config) => (Some(config), None)
  }

  function PublishStep(db: Db, op: Op): (r: (Db, Outcome))
    requires op.Publish?
    ensures r.1.Failed? ==> r.0 == db
  {
    if Precheck(op).Some? then (db, Failed(Precheck(op).value))
    else if Faults(op, 1) then (db, Failed(Database))
    else
      var (config, failure) := WithQueues(db, op);
      if failure.Some? then (db, Failed(failure.value))
      else if Faults(op, Batches(|op.chunks|) + 4) then (db, Failed(Database))
      else
        match Inserted(Deleted(db.rows, op.corpus, op.vertical), op, |op.chunks|)
        case None => (db, Failed(Database))
        case Some(rows) => (Db(db.configs[op.corpus := Object(config.value)], rows), Done)
  }

  function SetQueuesStep(db: Db, op: Op): (r: (Db, Outcome))
    requires op.SetQueues?
    ensures r.1.Failed? ==> r.0 == db
  {
    if op.corpus == "" then (db, Failed(CorpusNotFound))
    else if Faults(op, 1) then (db, Failed(Database))
    else
      var (config, failure) := WithQueues(db, op);
      if failure.Some? then (db, Failed(failure.value))
      else if Faults(op, if Object(config.value) != db.configs[op.corpus] then 3 else 2) then (db, Failed(Database))
      else (Db(db.configs[op.corpus := Object(config.value)], db.rows), Done)
  }

  function UnpublishStep(db: Db, op: Op): (r: (Db, Outcome))
    requires op.Unpublish?
    ensures r.1.Failed? ==> r.0 == db
  {
    if op.corpus == "" then (db, Done)
    else if Faults(op, 1) then (db, Failed(Database))
    else if op.corpus in db.configs && db.configs[op.corpus].NotJsonObject? then (db, Failed(InvalidConfig))
    else
      var configs := if op.corpus in db.configs
                     then db.configs[op.corpus := Object(RemoveVertical(db.configs[op.corpus].config, op.vertical))]
                     else db.configs;
      if Faults(op, if configs != db.configs then 4 else 3) then (db, Failed(Database))
      else (Db(configs, Deleted(db.rows, op.corpus, op.vertical)), Done)
  }

  function Step(db: Db, op: Op): (r: (Db, Outcome))
    ensures r.1.Failed? ==> r.0 == db
  {
    match op
    case Publish(_, _, _, _, _, _, _, _) => PublishStep(db, op)
    case SetQueues(_, _, _, _) => SetQueuesStep(db, op)
    case Unpublish(_, _, _) => UnpublishStep(db, op)
  }

  function Run(db: Db, ops: seq<Op>): Db {
    if ops == [] then db else Step(Run(db, Front(ops)), Last(ops)).0
  }

  // ---- what a document looks like from outside -------------------------------------------------------------

  /** What the knowledge base holds of one document: its chunks, and the queues that serve it. */
  datatype Shelf = Shelf(rows: map<int, Row>, queues: set<string>)

  function RowsOf(db: Db, corpus: string, parent: string): map<int, Row> {
    map index | index in (set key | key in db.rows && key.corpus == corpus && key.parent == parent :: key.index)
      :: db.rows[Key(corpus, parent, index)]
  }

  /** The queues retrieval serves in a corpus. */
  function CatalogAt(db: Db, corpus: string): map<string, seq<string>> {
    if corpus in db.configs && db.configs[corpus].Object? then Catalog(db.configs[corpus].config) else map[]
  }

  function QueuesServing(catalog: map<string, seq<string>>, vertical: string): set<string> {
    set key | key in catalog && vertical in catalog[key]
  }

  function ShelfOf(db: Db, corpus: string, vertical: string): Shelf {
    Shelf(RowsOf(db, corpus, vertical), QueuesServing(CatalogAt(db, corpus), vertical))
  }

  function Stripped(names: seq<string>): set<string> {
    set i | 0 <= i < |names| :: Strip(names[i])
  }

  /** The chunks of a request by index. */
  function NewRows(op: Op): map<int, Row>
    requires op.Publish? && |op.chunks| == |op.vectors|
  {
    NewRowsUpTo(op, |op.chunks|)
  }

  function NewRowsUpTo(op: Op, n: nat): map<int, Row>
    requires op.Publish? && n <= |op.chunks| == |op.vectors|
  {
    if n == 0 then map[]
    else NewRowsUpTo(op, n - 1)[op.chunks[n - 1].index := Row(op.chunks[n - 1], op.vectors[n - 1], op.model)]
  }

  predicate DistinctIndexes(op: Op, n: nat)
    requires op.Publish? && n <= |op.chunks|
  {
    forall i, j :: 0 <= i < j < n ==> op.chunks[i].index != op.chunks[j].index
  }

  lemma {:induction false} NewRowsKeys(op: Op, n: nat, index: int)
    requires op.Publish? && n <= |op.chunks| == |op.vectors|
    ensures index in NewRowsUpTo(op, n) <==> exists i :: 0 <= i < n && op.chunks[i].index == index
  {
    if n > 0 {
      NewRowsKeys(op, n - 1, index);
    }
  }

  /** Each new row is one of the chunks, with its own vector and the model. */
  lemma {:induction false} NewRowsAt(op: Op, n: nat, i: nat)
    requires op.Publish? && i < n <= |op.chunks| == |op.vectors| && DistinctIndexes(op, n)
    ensures op.chunks[i].index in NewRowsUpTo(op, n)
    ensures NewRowsUpTo(op, n)[op.chunks[i].index] == Row(op.chunks[i], op.vectors[i], op.model)
  {
    if i < n - 1 {
      NewRowsAt(op, n - 1, i);
    }
  }

  predicate Mine(op: Op, key: Key) {
    key.corpus == op.corpus && key.parent == op.vertical
  }

  /** Whose row it is decides: the document's are the new ones, all others are untouched. */
  predicate RowsAdded(rows: map<Key, Row>, op: Op, n: nat, after: map<Key, Row>)
    requires op.Publish? && n <= |op.chunks| == |op.vectors|
  {
    var added := NewRowsUpTo(op, n);
    && (forall key :: key in after ==> if Mine(op, key) then key.index in added && after[key] == added[key.index]
                                       else key in rows && after[key] == rows[key])
    && (forall key :: key in rows ==> key in after)
    && (forall index :: index in added ==> Key(op.corpus, op.vertical, index) in after)
  }

  predicate NoneMine(rows: map<Key, Row>, op: Op) {
    forall key :: key in rows ==> !Mine(op, key)
  }

  lemma AddRow(rows: map<Key, Row>, op: Op, n: nat, before: map<Key, Row>)
    requires op.Publish? && 0 < n <= |op.chunks| == |op.vectors|
    requires NoneMine(rows, op) && RowsAdded(rows, op, n - 1, before)
    requires Key(op.corpus, op.vertical, op.chunks[n - 1].index) !in before
    ensures RowsAdded(rows, op, n, before[Key(op.corpus, op.vertical, op.chunks[n - 1].index)
                                          := Row(op.chunks[n - 1], op.vectors[n - 1], op.model)])
  {
  }

  /** Inserting into a table without the document's rows succeeds exactly when the indexes differ, and then
      adds exactly the new rows. */
  lemma {:induction false} InsertedRows(rows: map<Key, Row>, op: Op, n: nat)
    requires op.Publish? && n <= |op.chunks| == |op.vectors| && NoneMine(rows, op)
    ensures Inserted(rows, op, n).Some? <==> DistinctIndexes(op, n)
    ensures Inserted(rows, op, n).Some? ==> RowsAdded(rows, op, n, Inserted(rows, op, n).value)
  {
    if n > 0 {
      InsertedRows(rows, op, n - 1);
      DistinctSnoc(op, n);
      var before := Inserted(rows, op, n - 1);
      if before.Some? {
        NewRowsKeys(op, n - 1, op.chunks[n - 1].index);
        if Inserted(rows, op, n).Some? {
          AddRow(rows, op, n, before.value);
        }
      }
    }
  }

  lemma DistinctSnoc(op: Op, n: nat)
    requires op.Publish? && 0 < n <= |op.chunks|
    ensures DistinctIndexes(op, n)
            <==> DistinctIndexes(op, n - 1) && !exists i :: 0 <= i < n - 1 && op.chunks[i].index == op.chunks[n - 1].index
  {
  }

  /** What the data must satisfy for an operation to be carried out. */
  ghost predicate Accepts(db: Db, op: Op) {
    match op
    case Publish(_, _, _, _, _, _, _, _) =>
      && |op.chunks| == |op.vectors| && 1 <= op.dimension <= 65535
      && op.corpus != "" && op.corpus in db.configs && db.configs[op.corpus].Object?
      && (forall i :: 0 <= i < |op.vectors| ==> |op.vectors[i]| <= 32767)
      && Known(CatalogAt(db, op.corpus), op.names, |op.names|)
      && DistinctIndexes(op, |op.chunks|)
    case SetQueues(_, _, _, _) =>
      && op.corpus != "" && op.corpus in db.configs && db.configs[op.corpus].Object?
      && Known(CatalogAt(db, op.corpus), op.names, |op.names|)
    case Unpublish(_, _, _) =>
      op.corpus == "" || !(op.corpus in db.configs && db.configs[op.corpus].NotJsonObject?)
  }

  /** A document's vertical: not blank, and none of the built-in ones. */
  predicate Imported(vertical: string) {
    Strip(vertical) != ""
    && forall i :: 0 <= i < |DEFAULT_QUEUE_GROUPS| ==>
         forall k :: 0 <= k < |DEFAULT_QUEUE_GROUPS[i].entry.verticals| ==> DEFAULT_QUEUE_GROUPS[i].entry.verticals[k].text != vertical
  }

  lemma PublishAccepted(db: Db, op: Op)
    requires op.Publish? && Imported(op.vertical)
    ensures PublishStep(db, op).1.Done? ==> Accepts(db, op)
    ensures op.fault.None? && Accepts(db, op) ==> PublishStep(db, op).1.Done?
  {
    hide SetVerticalQueues;
    hide Catalog;
    hide Known;
    hide FirstUnknown;
    hide Placed;
    hide Strip;
    hide Inserted;
    hide RowsAdded;
    hide DistinctIndexes;
    if op.corpus in db.configs && db.configs[op.corpus].Object? {
      SetExactly(db.configs[op.corpus].config, op.vertical, op.names);
    }
    if |op.chunks| == |op.vectors| {
      InsertedRows(Deleted(db.rows, op.corpus, op.vertical), op, |op.chunks|);
    }
  }

  lemma SetQueuesAccepted(db: Db, op: Op)
    requires op.SetQueues? && Imported(op.vertical)
    ensures SetQueuesStep(db, op).1.Done? ==> Accepts(db, op)
    ensures op.fault.None? && Accepts(db, op) ==> SetQueuesStep(db, op).1.Done?
  {
    hide SetVerticalQueues;
    hide Catalog;
    hide Known;
    hide FirstUnknown;
    hide Placed;
    hide Strip;
    if op.corpus in db.configs && db.configs[op.corpus].Object? {
      SetExactly(db.configs[op.corpus].config, op.vertical, op.names);
    }
  }

  /** An operation is carried out when the data allows it and the database does not give up, and an
      operation that is not carried out changes nothing. */
  lemma AcceptedExactly(db: Db, op: Op)
    requires Imported(op.vertical)
    ensures Step(db, op).1.Done? ==> Accepts(db, op)
    ensures op.fault.None? ==> (Step(db, op).1.Done? <==> Accepts(db, op))
    ensures Step(db, op).1.Failed? ==> Step(db, op).0 == db
  {
    hide PublishStep;
    hide SetQueuesStep;
    hide RemoveVertical;
    hide Catalog;
    match op {
      case Publish(_, _, _, _, _, _, _, _) => PublishAccepted(db, op);
      case SetQueues(_, _, _, _) => SetQueuesAccepted(db, op);
      case Unpublish(_, _, _) =>
    }
  }

  /** What a refusal says, when the database does not fail: the first unknown queue by name, and otherwise what
      is wrong with the request or with what is stored. */
  ghost predicate Tells(db: Db, op: Op, failure: Failure) {
    match failure
    case Internal => op.Publish? && |op.chunks| != |op.vectors|
    case InvalidConfig =>
      || (op.Publish? && !(1 <= op.dimension <= 65535))
      || (op.Publish? && exists i :: 0 <= i < |op.vectors| && |op.vectors[i]| > 32767)
      || (op.corpus in db.configs && db.configs[op.corpus].NotJsonObject?)
    case CorpusNotFound => !op.Unpublish? && (op.corpus == "" || op.corpus !in db.configs)
    case UnknownQueueKey(key) => !op.Unpublish? && FirstUnknown(CatalogAt(db, op.corpus), op.names, key)
    case Database => op.Publish? && !DistinctIndexes(op, |op.chunks|)
  }

  lemma RefusalTells(db: Db, op: Op)
    requires Imported(op.vertical) && op.fault.None? && Step(db, op).1.Failed?
    ensures Tells(db, op, Step(db, op).1.failure)
  {
    hide SetVerticalQueues;
    hide RemoveVertical;
    hide Catalog;
    hide Known;
    hide FirstUnknown;
    hide Placed;
    hide Strip;
    hide Inserted;
    hide RowsAdded;
    hide DistinctIndexes;
    if !op.Unpublish? && op.corpus in db.configs && db.configs[op.corpus].Object? {
      SetExactly(db.configs[op.corpus].config, op.vertical, op.names);
    }
    if op.Publish? && |op.chunks| == |op.vectors| {
      InsertedRows(Deleted(db.rows, op.corpus, op.vertical), op, |op.chunks|);
    }
  }

  /** A publication that goes through leaves exactly its chunks, each with its vector, in place of the document's
      former ones, and touches no other document's. */
  lemma PublishedExactly(db: Db, op: Op)
    requires op.Publish? && PublishStep(db, op).1.Done?
    ensures var after := PublishStep(db, op).0.rows;
      && |op.chunks| == |op.vectors|
      && (forall i :: 0 <= i < |op.chunks| ==>
            var key := Key(op.corpus, op.vertical, op.chunks[i].index);
            key in after && after[key] == Row(op.chunks[i], op.vectors[i], op.model))
      && (forall key :: key in after && Mine(op, key) ==> exists i :: 0 <= i < |op.chunks| && op.chunks[i].index == key.index)
      && (forall key :: !Mine(op, key) ==> (key in after <==> key in db.rows) && (key in after ==> after[key] == db.rows[key]))
  {
    hide SetVerticalQueues;
    hide Inserted;
    hide NewRowsUpTo;
    var kept, after, n := Deleted(db.rows, op.corpus, op.vertical), PublishStep(db, op).0.rows, |op.chunks|;
    InsertedRows(kept, op, n);
    forall i | 0 <= i < n
      ensures var key := Key(op.corpus, op.vertical, op.chunks[i].index);
        key in after && after[key] == Row(op.chunks[i], op.vectors[i], op.model)
    {
      NewRowsAt(op, n, i);
    }
    forall key | key in after && Mine(op, key)
      ensures exists i :: 0 <= i < n && op.chunks[i].index == key.index
    {
      NewRowsKeys(op, n, key.index);
    }
  }

  // ---- refinement -------------------------------------------------------------------------------------------

  /** One operation on the simple map from documents to shelves. */
  function ShelfStep(shelf: Shelf, op: Op, done: bool, corpus: string, vertical: string): Shelf {
    if !done || op.corpus != corpus || op.vertical != vertical then shelf
    else
      match op
      case Publish(_, _, _, _, _, _, _, _) =>
        Shelf(if |op.chunks| == |op.vectors| then NewRows(op) else map[], Stripped(op.names))
      case SetQueues(_, _, _, _) => shelf.(queues := Stripped(op.names))
      case Unpublish(_, _, _) => Shelf(map[], {})
  }

  lemma ServingPlaced(before: map<string, seq<string>>, after: map<string, seq<string>>, vertical: string,
                      names: seq<string>, other: string)
    requires Placed(before, after, vertical, names) && Known(before, names, |names|)
    ensures other == vertical ==> QueuesServing(after, other) == Stripped(names)
    ensures other != vertical ==> QueuesServing(after, other) == QueuesServing(before, other)
  {
    hide Strip;
    forall key | key in before ensures PlacedAt(before, after, vertical, names, key) {
    }
    if other != vertical {
      forall key | key in before ensures other in after[key] <==> other in before[key] {
        OthersHold(after[key], vertical, other);
        OthersHold(before[key], vertical, other);
      }
    } else {
      forall key ensures key in QueuesServing(after, other) <==> key in Stripped(names) {
        SelectedStripped(names, key);
        if key in Stripped(names) {
          var i :| 0 <= i < |names| && Strip(names[i]) == key;
          assert key in before;
        }
      }
    }
  }

  lemma SelectedStripped(names: seq<string>, key: string)
    ensures key in Stripped(names) <==> Selected(names, key)
  {
    hide Strip;
  }

  lemma RowsLookup(db: Db, corpus: string, parent: string, index: int)
    ensures index in RowsOf(db, corpus, parent) <==> Key(corpus, parent, index) in db.rows
    ensures index in RowsOf(db, corpus, parent) ==> RowsOf(db, corpus, parent)[index] == db.rows[Key(corpus, parent, index)]
  {
  }

  lemma DeletedRows(db: Db, op: Op, after: Db, corpus: string, vertical: string)
    requires after.rows == Deleted(db.rows, op.corpus, op.vertical)
    ensures RowsOf(after, corpus, vertical)
            == if op.corpus == corpus && op.vertical == vertical then map[] else RowsOf(db, corpus, vertical)
  {
  }

  lemma PublishedRows(db: Db, op: Op, after: Db, corpus: string, vertical: string)
    requires op.Publish? && |op.chunks| == |op.vectors|
    requires Inserted(Deleted(db.rows, op.corpus, op.vertical), op, |op.chunks|) == Some(after.rows)
    ensures RowsOf(after, corpus, vertical)
            == if op.corpus == corpus && op.vertical == vertical then NewRows(op) else RowsOf(db, corpus, vertical)
  {
    hide Inserted;
    var kept := Deleted(db.rows, op.corpus, op.vertical);
    InsertedRows(kept, op, |op.chunks|);
    var a := RowsOf(after, corpus, vertical);
    var b := if op.corpus == corpus && op.vertical == vertical then NewRows(op) else RowsOf(db, corpus, vertical);
    forall index ensures (index in a <==> index in b) && (index in a ==> a[index] == b[index]) {
      RowsLookup(after, corpus, vertical, index);
      RowsLookup(db, corpus, vertical, index);
    }
  }

  /** The queues of every document after an operation put `after` into the corpus row. */
  lemma QueuesSet(db: Db, op: Op, after: Db, names: seq<string>, corpus: string, vertical: string)
    requires Imported(vertical)
    requires Known(CatalogAt(db, op.corpus), names, |names|)
    requires Placed(CatalogAt(db, op.corpus), CatalogAt(after, op.corpus), op.vertical, names)
    requires corpus != op.corpus ==> CatalogAt(after, corpus) == CatalogAt(db, corpus)
    ensures QueuesServing(CatalogAt(after, corpus), vertical)
            == if op.corpus == corpus && op.vertical == vertical then Stripped(names)
               else QueuesServing(CatalogAt(db, corpus), vertical)
    ensures CatalogAt(after, corpus).Keys == CatalogAt(db, corpus).Keys
  {
    hide Strip;
    hide CatalogAt;
    hide Known;
    if corpus == op.corpus {
      ServingPlaced(CatalogAt(db, corpus), CatalogAt(after, corpus), op.vertical, names, vertical);
    }
  }

  lemma ImportedRemovable(config: Config, vertical: string)
    requires Imported(vertical)
    ensures Placed(Catalog(config), Catalog(RemoveVertical(config, vertical)), vertical, [])
  {
    hide Catalog;
    hide RemoveVertical;
    hide Strip;
    hide Placed;
    forall key | key in Served(DEFAULT_QUEUE_GROUPS) ensures vertical !in Served(DEFAULT_QUEUE_GROUPS)[key] {
      NotBuiltIn(DEFAULT_QUEUE_GROUPS, vertical, key);
    }
    RemoveExactly(config, vertical);
  }

  lemma {:induction false} NotBuiltIn(queues: seq<Queue>, vertical: string, key: string)
    requires Strip(vertical) != "" && key in Served(queues)
    requires forall i :: 0 <= i < |queues| && queues[i].entry.Usable? ==>
               forall k :: 0 <= k < |queues[i].entry.verticals| ==> queues[i].entry.verticals[k].text != vertical
    ensures vertical !in Served(queues)[key]
  {
    hide Strip;
    if queues != [] {
      if Valid(Last(queues)) && Strip(Last(queues).key) == key {
        TextsHold(Last(queues).entry.verticals, vertical);
      } else {
        NotBuiltIn(Front(queues), vertical, key);
      }
    }
  }

  predicate Refines(db: Db, op: Op, corpus: string, vertical: string) {
    var (after, outcome) := Step(db, op);
    && ShelfOf(after, corpus, vertical) == ShelfStep(ShelfOf(db, corpus, vertical), op, outcome.Done?, corpus, vertical)
    && CatalogAt(after, corpus).Keys == CatalogAt(db, corpus).Keys
  }

  lemma PublishRefines(db: Db, op: Op, corpus: string, vertical: string)
    requires op.Publish? && Imported(op.vertical) && Imported(vertical)
    ensures Refines(db, op, corpus, vertical)
  {
    hide SetVerticalQueues;
    hide Catalog;
    hide Known;
    hide Placed;
    hide FirstUnknown;
    hide Imported;
    hide RowsOf;
    hide QueuesServing;
    hide Inserted;
    hide NewRows;
    hide Stripped;
    hide TooLong;
    var (after, outcome) := PublishStep(db, op);
    if outcome.Done? {
      ImportedStrip(op.vertical);
      SetExactly(db.configs[op.corpus].config, op.vertical, op.names);
      QueuesSet(db, op, after, op.names, corpus, vertical);
      PublishedRows(db, op, after, corpus, vertical);
    }
  }

  lemma ImportedStrip(vertical: string)
    requires Imported(vertical)
    ensures Strip(vertical) != ""
  {
  }

  lemma SetQueuesRefines(db: Db, op: Op, corpus: string, vertical: string)
    requires op.SetQueues? && Imported(op.vertical) && Imported(vertical)
    ensures Refines(db, op, corpus, vertical)
  {
    hide SetVerticalQueues;
    hide Catalog;
    hide Known;
    hide Placed;
    hide FirstUnknown;
    hide Imported;
    hide QueuesServing;
    hide Stripped;
    var (after, outcome) := SetQueuesStep(db, op);
    if outcome.Done? {
      ImportedStrip(op.vertical);
      SetExactly(db.configs[op.corpus].config, op.vertical, op.names);
      QueuesSet(db, op, after, op.names, corpus, vertical);
    }
  }

  lemma UnpublishRefines(db: Db, op: Op, corpus: string, vertical: string)
    requires op.Unpublish? && corpus != "" && Imported(op.vertical) && Imported(vertical)
    ensures Refines(db, op, corpus, vertical)
  {
    hide RemoveVertical;
    hide Catalog;
    hide Placed;
    hide Imported;
    hide RowsOf;
    hide QueuesServing;
    var (after, outcome) := UnpublishStep(db, op);
    if outcome.Done? && op.corpus != "" {
      DeletedRows(db, op, after, corpus, vertical);
      if op.corpus in db.configs {
        ImportedRemovable(db.configs[op.corpus].config, op.vertical);
        QueuesSet(db, op, after, [], corpus, vertical);
        NothingStripped();
      } else {
        NothingServing(vertical);
      }
    }
  }

  lemma NothingStripped()
    ensures Stripped([]) == {}
  {
  }

  lemma NothingServing(vertical: string)
    ensures QueuesServing(map[], vertical) == {}
  {
  }

  /** Whatever is stored, an operation does to every document of every corpus what it does on the simple
      map: the document itself gets exactly the new chunks and queues, every other document keeps its own,
      and a refused operation changes none.  No queue appears or goes. */
  lemma StepRefines(db: Db, op: Op, corpus: string, vertical: string)
    requires corpus != "" && Imported(op.vertical) && Imported(vertical)
    ensures Refines(db, op, corpus, vertical)
  {
    hide Refines;
    match op {
      case Publish(_, _, _, _, _, _, _, _) => PublishRefines(db, op, corpus, vertical);
      case SetQueues(_, _, _, _) => SetQueuesRefines(db, op, corpus, vertical);
      case Unpublish(_, _, _) => UnpublishRefines(db, op, corpus, vertical);
    }
  }

  // ---- what chats find --------------------------------------------------------------------------------------

  /** The queues an operation leaves its document in. */
  function NamesOf(op: Op): seq<string> {
    if op.Unpublish? then [] else op.names
  }

  /** A carried-out operation places its vertical in its corpus, and leaves every other corpus as it is. */
  lemma StepPlaces(db: Db, op: Op)
    requires Imported(op.vertical) && Step(db, op).1.Done?
    requires op.corpus != "" && op.corpus in db.configs && db.configs[op.corpus].Object?
    ensures var after := Step(db, op).0;
      && op.corpus in after.configs && after.configs[op.corpus].Object?
      && Known(CatalogAt(db, op.corpus), NamesOf(op), |NamesOf(op)|)
      && Placed(CatalogAt(db, op.corpus), CatalogAt(after, op.corpus), op.vertical, NamesOf(op))
  {
    hide SetVerticalQueues;
    hide RemoveVertical;
    hide Catalog;
    hide Placed;
    hide FirstUnknown;
    hide Imported;
    hide Inserted;
    ImportedStrip(op.vertical);
    if op.Unpublish? {
      ImportedRemovable(db.configs[op.corpus].config, op.vertical);
    } else {
      SetExactly(db.configs[op.corpus].config, op.vertical, op.names);
    }
  }

  /** What a chat on any active queues of a corpus finds after an operation on that corpus: the document itself
      exactly when one of them was chosen or none serves another vertical; any other document as before, except
      where the active queues serve nothing but the first one and began or ceased to serve it. */
  lemma SearchAfterStep(db: Db, op: Op, active: seq<string>, vertical: string)
    requires Imported(op.vertical) && Step(db, op).1.Done?
    requires op.corpus != "" && op.corpus in db.configs && db.configs[op.corpus].Object?
    ensures var before, after := CatalogAt(db, op.corpus), Step(db, op).0;
      && op.corpus in after.configs && after.configs[op.corpus].Object?
      && (vertical == op.vertical ==>
            (Searchable(after.configs[op.corpus].config, active, vertical)
             <==> SomeChosen(NamesOf(op), active) || NoOthers(before, active, vertical)))
      && (vertical != op.vertical ==>
            (Searchable(after.configs[op.corpus].config, active, vertical)
             != Searchable(db.configs[op.corpus].config, active, vertical)
             <==> NoOthers(before, active, op.vertical)
                  && ServedBy(before, active, op.vertical) != SomeChosen(NamesOf(op), active)))
  {
    hide Step;
    hide Catalog;
    hide Placed;
    hide Known;
    hide Searchable;
    hide SomeChosen;
    hide NoOthers;
    hide ServedBy;
    hide Imported;
    StepPlaces(db, op);
    SearchAfter(db.configs[op.corpus].config, Step(db, op).0.configs[op.corpus].config, op.vertical, NamesOf(op),
                active, vertical);
  }

  /** An operation on one corpus, or one that is refused, changes no other corpus. */
  lemma OtherCorpusUntouched(db: Db, op: Op, corpus: string)
    requires corpus != op.corpus || Step(db, op).1.Failed?
    ensures corpus in Step(db, op).0.configs <==> corpus in db.configs
    ensures corpus in db.configs ==> Step(db, op).0.configs[corpus] == db.configs[corpus]
  {
    hide SetVerticalQueues;
    hide RemoveVertical;
    hide Inserted;
  }

  // ---- what no operation touches ----------------------------------------------------------------------------

  /** The row of a corpus and what became of it: no row appears or goes, text that is no JSON object stays as it
      is, and in an object all settings but the queue groups stand, and groups that say something change in
      nothing but the given verticals. */
  ghost predicate RowStands(before: Db, after: Db, corpus: string, verticals: set<string>) {
    && (corpus in after.configs <==> corpus in before.configs)
    && (corpus in before.configs ==>
          if before.configs[corpus].NotJsonObject? then after.configs[corpus] == before.configs[corpus]
          else after.configs[corpus].Object?
               && ConfigStands(before.configs[corpus].config, after.configs[corpus].config, verticals))
  }

  lemma StepStands(db: Db, op: Op, corpus: string)
    ensures RowStands(db, Step(db, op).0, corpus, {op.vertical})
  {
    hide SetVerticalQueues;
    hide RemoveVertical;
    hide Inserted;
    hide ConfigStands;
    hide TooLong;
    if corpus in db.configs && db.configs[corpus].Object? {
      StandsUnchanged(db.configs[corpus].config, {op.vertical});
      if op.Unpublish? {
        RemoveStands(db.configs[corpus].config, op.vertical);
      } else {
        SetStands(db.configs[corpus].config, op.vertical, op.names);
      }
    }
  }

  lemma StandsUnchanged(config: Config, verticals: set<string>)
    ensures ConfigStands(config, config, verticals)
  {
  }

  function VerticalsOf(ops: seq<Op>): set<string> {
    if ops == [] then {} else VerticalsOf(Front(ops)) + {Last(ops).vertical}
  }

  /** Over any run, whatever is published, moved and unpublished: the other settings of every corpus stand, and so
      do the keys, titles and malformed entries of its groups, and every vertical no operation was about. */
  lemma {:induction false} RunStands(db: Db, ops: seq<Op>, corpus: string)
    ensures RowStands(db, Run(db, ops), corpus, VerticalsOf(ops))
  {
    hide Step;
    hide ConfigStands;
    if ops == [] {
      if corpus in db.configs && db.configs[corpus].Object? {
        StandsUnchanged(db.configs[corpus].config, {});
      }
    } else {
      var mid, op := Run(db, Front(ops)), Last(ops);
      RunStands(db, Front(ops), corpus);
      StepStands(mid, op, corpus);
      if corpus in db.configs && db.configs[corpus].Object? {
        ConfigStandsTwice(db.configs[corpus].config, mid.configs[corpus].config, Step(mid, op).0.configs[corpus].config,
                          VerticalsOf(Front(ops)), op.vertical);
      }
    }
  }

  // ---- whole runs -------------------------------------------------------------------------------------------

  predicate AllImported(ops: seq<Op>) {
    forall i :: 0 <= i < |ops| ==> Imported(ops[i].vertical)
  }

  /** The shelf of a document as the history of carried-out operations tells it. */
  function History(db: Db, ops: seq<Op>, corpus: string, vertical: string): Shelf {
    if ops == [] then ShelfOf(db, corpus, vertical)
    else ShelfStep(History(db, Front(ops), corpus, vertical), Last(ops),
                   Step(Run(db, Front(ops)), Last(ops)).1.Done?, corpus, vertical)
  }

  lemma {:induction false} RunRefines(db: Db, ops: seq<Op>, corpus: string, vertical: string)
    requires corpus != "" && AllImported(ops) && Imported(vertical)
    ensures ShelfOf(Run(db, ops), corpus, vertical) == History(db, ops, corpus, vertical)
    ensures CatalogAt(Run(db, ops), corpus).Keys == CatalogAt(db, corpus).Keys
  {
    hide Imported;
    hide Step;
    hide ShelfOf;
    hide ShelfStep;
    hide CatalogAt;
    if ops != [] {
      RunRefines(db, Front(ops), corpus, vertical);
      assert Imported(Last(ops).vertical);
      StepRefines(Run(db, Front(ops)), Last(ops), corpus, vertical);
    }
  }

  /** What the import pipeline checks before it writes: at least one queue, and the chunks of one build. */
  predicate FromPipeline(op: Op) {
    match op
    case Publish(_, _, names, chunks, _, _, _, _) => names != [] && Numbered(chunks)
    case SetQueues(_, _, names, _) => names != []
    case Unpublish(_, _, _) => true
  }

  predicate Numbered(chunks: seq<Chunk>) {
    forall i :: 0 <= i < |chunks| ==> chunks[i].index == i
  }

  /** The `k`-th operation is about the document, and was carried out. */
  predicate CarriedOut(db: Db, ops: seq<Op>, k: nat, corpus: string, vertical: string)
    requires k < |ops|
  {
    ops[k].corpus == corpus && ops[k].vertical == vertical && Step(Run(db, ops[..k]), ops[k]).1.Done?
  }

  /** The `k`-th operation is the document's last publication that was carried out, and it was not unpublished
      since. */
  ghost predicate LastBuild(db: Db, ops: seq<Op>, k: nat, corpus: string, vertical: string)
    requires k < |ops|
  {
    && ops[k].Publish? && CarriedOut(db, ops, k, corpus, vertical)
    && forall j :: k < j < |ops| && CarriedOut(db, ops, j, corpus, vertical) ==> ops[j].SetQueues?
  }

  /** The rows are those of that publication, numbered from 0. */
  ghost predicate OneBuild(rows: map<int, Row>, db: Db, ops: seq<Op>, corpus: string, vertical: string) {
    exists k :: 0 <= k < |ops| && LastBuild(db, ops, k, corpus, vertical) && Built(rows, ops[k])
  }

  ghost predicate Built(rows: map<int, Row>, op: Op) {
    && op.Publish? && |op.chunks| == |op.vectors|
    && rows == NewRows(op) && Numbered(op.chunks)
    && forall index :: index in rows <==> 0 <= index < |op.chunks|
  }

  ghost predicate NoOrphan(shelf: Shelf, db: Db, ops: seq<Op>, corpus: string, vertical: string) {
    shelf.rows == map[] || (shelf.queues != {} && OneBuild(shelf.rows, db, ops, corpus, vertical))
  }

  lemma NumberedKeys(op: Op)
    requires op.Publish? && |op.chunks| == |op.vectors| && Numbered(op.chunks)
    ensures forall index :: index in NewRows(op) <==> 0 <= index < |op.chunks|
  {
    forall index ensures index in NewRows(op) <==> 0 <= index < |op.chunks| {
      NewRowsKeys(op, |op.chunks|, index);
      if 0 <= index < |op.chunks| {
        assert op.chunks[index].index == index;
      }
    }
  }

  lemma StrippedSome(names: seq<string>)
    requires names != []
    ensures Stripped(names) != {}
  {
    assert Strip(names[0]) in Stripped(names);
  }

  lemma CarriedOutFront(db: Db, ops: seq<Op>, k: nat, corpus: string, vertical: string)
    requires k < |ops| - 1
    ensures Front(ops)[k] == ops[k]
    ensures CarriedOut(db, Front(ops), k, corpus, vertical) <==> CarriedOut(db, ops, k, corpus, vertical)
  {
    hide Step;
    hide Run;
    assert Front(ops)[..k] == ops[..k];
  }

  /** A last publication stays the last while nothing but queues is set. */
  lemma LastBuildStays(db: Db, ops: seq<Op>, k: nat, corpus: string, vertical: string)
    requires k < |ops| - 1 && LastBuild(db, Front(ops), k, corpus, vertical)
    requires CarriedOut(db, ops, |ops| - 1, corpus, vertical) ==> Last(ops).SetQueues?
    ensures LastBuild(db, ops, k, corpus, vertical)
  {
    hide CarriedOut;
    CarriedOutFront(db, ops, k, corpus, vertical);
    forall j | k < j < |ops| && CarriedOut(db, ops, j, corpus, vertical) ensures ops[j].SetQueues? {
      if j < |ops| - 1 {
        CarriedOutFront(db, ops, j, corpus, vertical);
      }
    }
  }

  lemma OneBuildStays(rows: map<int, Row>, db: Db, ops: seq<Op>, corpus: string, vertical: string)
    requires ops != [] && OneBuild(rows, db, Front(ops), corpus, vertical)
    requires CarriedOut(db, ops, |ops| - 1, corpus, vertical) ==> Last(ops).SetQueues?
    ensures OneBuild(rows, db, ops, corpus, vertical)
  {
    hide LastBuild;
    hide Built;
    hide CarriedOut;
    var k :| 0 <= k < |Front(ops)| && LastBuild(db, Front(ops), k, corpus, vertical) && Built(rows, Front(ops)[k]);
    LastBuildStays(db, ops, k, corpus, vertical);
    assert Built(rows, ops[k]);
  }

  lemma OneBuildNow(db: Db, ops: seq<Op>, corpus: string, vertical: string)
    requires ops != [] && Last(ops).Publish? && CarriedOut(db, ops, |ops| - 1, corpus, vertical)
    requires |Last(ops).chunks| == |Last(ops).vectors| && Numbered(Last(ops).chunks)
    ensures OneBuild(NewRows(Last(ops)), db, ops, corpus, vertical)
  {
    hide CarriedOut;
    hide NewRows;
    NumberedKeys(Last(ops));
    assert LastBuild(db, ops, |ops| - 1, corpus, vertical) && Built(NewRows(Last(ops)), ops[|ops| - 1]);
  }

  lemma NoOrphanStep(shelf: Shelf, db: Db, ops: seq<Op>, corpus: string, vertical: string)
    requires ops != [] && FromPipeline(Last(ops)) && NoOrphan(shelf, db, Front(ops), corpus, vertical)
    ensures NoOrphan(ShelfStep(shelf, Last(ops), Step(Run(db, Front(ops)), Last(ops)).1.Done?, corpus, vertical),
                     db, ops, corpus, vertical)
  {
    hide NewRows;
    hide Stripped;
    hide Step;
    hide Run;
    hide OneBuild;
    var op := Last(ops);
    var done := Step(Run(db, Front(ops)), op).1.Done?;
    DoneMatches(Run(db, Front(ops)), op);
    assert CarriedOut(db, ops, |ops| - 1, corpus, vertical) <==> done && op.corpus == corpus && op.vertical == vertical;
    if shelf.rows != map[] && (CarriedOut(db, ops, |ops| - 1, corpus, vertical) ==> op.SetQueues?) {
      OneBuildStays(shelf.rows, db, ops, corpus, vertical);
    }
    if !op.Unpublish? {
      StrippedSome(op.names);
    }
    if op.Publish? && CarriedOut(db, ops, |ops| - 1, corpus, vertical) {
      OneBuildNow(db, ops, corpus, vertical);
    }
  }

  /** No orphans: when the document had no chunks to begin with, then after any run of the pipeline's
      operations its chunks, if it has any, are those of its last carried-out publication, numbered 0 to n - 1,
      and at least one queue lists it. */
  lemma {:induction false} NoOrphanChunks(db: Db, ops: seq<Op>, corpus: string, vertical: string)
    requires corpus != "" && AllImported(ops) && Imported(vertical)
    requires RowsOf(db, corpus, vertical) == map[]
    requires forall i :: 0 <= i < |ops| ==> FromPipeline(ops[i])
    ensures NoOrphan(ShelfOf(Run(db, ops), corpus, vertical), db, ops, corpus, vertical)
  {
    RunRefines(db, ops, corpus, vertical);
    HistoryNoOrphan(db, ops, corpus, vertical);
  }

  lemma {:induction false} HistoryNoOrphan(db: Db, ops: seq<Op>, corpus: string, vertical: string)
    requires RowsOf(db, corpus, vertical) == map[]
    requires forall i :: 0 <= i < |ops| ==> FromPipeline(ops[i])
    ensures NoOrphan(History(db, ops, corpus, vertical), db, ops, corpus, vertical)
  {
    hide FromPipeline;
    hide NoOrphan;
    hide ShelfStep;
    hide Step;
    if ops != [] {
      HistoryNoOrphan(db, Front(ops), corpus, vertical);
      NoOrphanStep(History(db, Front(ops), corpus, vertical), db, ops, corpus, vertical);
    } else {
      NoRowsNoOrphan(db, corpus, vertical);
    }
  }

  lemma DoneMatches(db: Db, op: Op)
    ensures Step(db, op).1.Done? && op.Publish? ==> |op.chunks| == |op.vectors|
  {
  }

  lemma NoRowsNoOrphan(db: Db, corpus: string, vertical: string)
    requires RowsOf(db, corpus, vertical) == map[]
    ensures NoOrphan(ShelfOf(db, corpus, vertical), db, [], corpus, vertical)
  {
  }

  // ---- the pipeline's chunks ------------------------------------------------------------------------------

  /** What the pipeline publishes meets the conditions above: its chunks are numbered from 0, so they never
      collide, and a document's own vertical is never blank and never a built-in one. */
  lemma PipelineMeets(doc: BuildChunks.Blocks.Document, order: BuildChunks.Order)
    ensures var r := BuildChunks.Build(doc, order); r.Built? ==> Numbered(r.chunks) && r.chunks != []
    ensures Imported(BuildChunks.VerticalFor(order.documentId))
  {
    hide BuildChunks.Build;
    hide Imported;
    BuildChunks.SizeBound(doc, order);
    BuildChunks.Outcome(doc, order);
    VerticalImported(order.documentId);
  }

  lemma VerticalImported(documentId: nat)
    ensures Imported(BuildChunks.VerticalFor(documentId))
  {
    var v := BuildChunks.VerticalFor(documentId);
    assert v[0] == 'k' && v[5] == '-';
    assert !IsSpace('k');
    assert LStrip(v) == v;
    forall i, k | 0 <= i < |DEFAULT_QUEUE_GROUPS| && 0 <= k < |DEFAULT_QUEUE_GROUPS[i].entry.verticals|
      ensures DEFAULT_QUEUE_GROUPS[i].entry.verticals[k].text != v
    {
      assert DEFAULT_QUEUE_GROUPS[i].entry.verticals[k].text[0] != 'k';
    }
  }

  // ---- the store ------------------------------------------------------------------------------------------

  lemma {:induction false} NoneStays(rows: map<Key, Row>, op: Op, n: nat, m: nat)
    requires op.Publish? && n <= m <= |op.chunks| == |op.vectors| && Inserted(rows, op, n).None?
    ensures Inserted(rows, op, m).None?
  {
    if n < m {
      NoneStays(rows, op, n, m - 1);
    }
  }

  class KbStore {
    var configs: map<string, Stored>
    var rows: map<Key, Row>

    constructor ()
      ensures Now() == Db(map[], map[])
    {
      configs := map[];
      rows := map[];
    }

    function Now(): Db
      reads this
    {
      Db(configs, rows)
    }

    /** One batch, one statement. */
    method InsertBatch(op: Op, pending: map<Key, Row>, start: nat, end: nat, ghost base: map<Key, Row>)
      returns (r: Option<map<Key, Row>>)
      requires op.Publish? && start <= end <= |op.chunks| == |op.vectors|
      requires Inserted(base, op, start) == Some(pending)
      ensures r == Inserted(base, op, end)
    {
      var filled := pending;
      for i := start to end
        invariant Inserted(base, op, i) == Some(filled)
      {
        var key := Key(op.corpus, op.vertical, op.chunks[i].index);
        if key in filled {
          NoneStays(base, op, i + 1, end);
          return None;
        }
        filled := filled[key := Row(op.chunks[i], op.vectors[i], op.model)];
      }
      r := Some(filled);
    }

    /** All batches, or nothing when the database gives up or two chunks share a key. */
    method InsertAll(op: Op, base: map<Key, Row>) returns (r: Option<map<Key, Row>>)
      requires op.Publish? && |op.chunks| == |op.vectors| && !Faults(op, 2)
      ensures r == if Faults(op, Batches(|op.chunks|) + 2) then None else Inserted(base, op, |op.chunks|)
    {
      var pending, start, batch := base, 0, 0;
      while start < |op.chunks|
        invariant start == if INSERT_BATCH * batch < |op.chunks| then INSERT_BATCH * batch else |op.chunks|
        invariant batch <= Batches(|op.chunks|)
        invariant !Faults(op, batch + 2)
        invariant Inserted(base, op, start) == Some(pending)
        decreases |op.chunks| - start
      {
        if op.fault == Some(batch + 2) {
          return None;
        }
        var end := if start + INSERT_BATCH < |op.chunks| then start + INSERT_BATCH else |op.chunks|;
        var filled := InsertBatch(op, pending, start, end, base);
        if filled.None? {
          NoneStays(base, op, end, |op.chunks|);
          return None;
        }
        pending, start, batch := filled.value, end, batch + 1;
      }
      r := Some(pending);
    }

    method DoPublish(op: Op) returns (outcome: Outcome)
      requires op.Publish?
      modifies this
      ensures (Now(), outcome) == PublishStep(old(Now()), op)
    {
      hide SetVerticalQueues;
      if |op.chunks| != |op.vectors| {
        return Failed(Internal);
      }
      if op.dimension < 1 || op.dimension > MAX_DIMENSION {
        return Failed(InvalidConfig);
      }
      if op.corpus == "" {
        return Failed(CorpusNotFound);
      }
      if exists i :: 0 <= i < |op.vectors| && |op.vectors[i]| > MAX_TEXT_BIND_BYTES {
        return Failed(InvalidConfig);
      }
      if op.fault == Some(0) {
        return Failed(Database);
      }
      var after, failure := SetUnderLock(op);
      if failure.Some? {
        return Failed(failure.value);
      }
      if op.fault == Some(1) {
        return Failed(Database);
      }
      var pending := InsertAll(op, Deleted(rows, op.corpus, op.vertical));
      if pending.None? || Faults(op, Batches(|op.chunks|) + 4) {
        return Failed(Database);
      }
      rows := pending.value;
      configs := configs[op.corpus := Object(after.value)];
      outcome := Done;
    }

    method SetUnderLock(op: Op) returns (config: Option<Config>, failure: Option<Failure>)
      requires op.Publish? || op.SetQueues?
      ensures (config, failure) == WithQueues(Now(), op)
    {
      hide SetVerticalQueues;
      if op.corpus !in configs {
        return None, Some(CorpusNotFound);
      }
      if configs[op.corpus].NotJsonObject? {
        return None, Some(InvalidConfig);
      }
      var r := SetVerticalQueuesLoop(configs[op.corpus].config, op.vertical, op.names);
      match r {
        case UnknownQueue(key) => return None, Some(UnknownQueueKey(key));
        case Ok(after) => return Some(after), None;
      }
    }

    method DoSetQueues(op: Op) returns (outcome: Outcome)
      requires op.SetQueues?
      modifies this`configs
      ensures (Now(), outcome) == SetQueuesStep(old(Now()), op)
    {
      hide SetVerticalQueues;
      if op.corpus == "" {
        return Failed(CorpusNotFound);
      }
      if op.fault == Some(0) {
        return Failed(Database);
      }
      var after, failure := SetUnderLock(op);
      if failure.Some? {
        return Failed(failure.value);
      }
      var statements := 2;
      if Object(after.value) != configs[op.corpus] {
        statements := 3;
      }
      if Faults(op, statements) {
        return Failed(Database);
      }
      configs := configs[op.corpus := Object(after.value)];
      outcome := Done;
    }

    method DoUnpublish(op: Op) returns (outcome: Outcome)
      requires op.Unpublish?
      modifies this
      ensures (Now(), outcome) == UnpublishStep(old(Now()), op)
    {
      hide RemoveVertical;
      if op.corpus == "" {
        return Done;
      }
      if op.fault == Some(0) {
        return Failed(Database);
      }
      var after, statements := configs, 3;
      if op.corpus in configs {
        if configs[op.corpus].NotJsonObject? {
          return Failed(InvalidConfig);
        }
        var config := RemoveVerticalLoop(configs[op.corpus].config, op.vertical);
        after := configs[op.corpus := Object(config)];
        if after != configs {
          statements := 4;
        }
      }
      if Faults(op, statements) {
        return Failed(Database);
      }
      configs := after;
      rows := Deleted(rows, op.corpus, op.vertical);
      outcome := Done;
    }
  }
}
