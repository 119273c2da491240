/** A corpus's queue configuration: which verticals each queue serves, how a document's own vertical is
    put into exactly the chosen queues, and what chat retrieval then reads. */
module QueueConfig {
  import opened Text
  import opened Options
  import opened Sequences

  /** A value in a queue's list, and how it prints. */
  datatype Item = TextItem(text: string) | OtherItem(text: string)

  /** A queue's entry: usable when it is an object whose `verticals` is a list. */
  datatype Entry = Usable(title: string, verticals: seq<Item>) | Malformed(raw: string)

  datatype Queue = Queue(key: string, entry: Entry)

  /** The `queue_groups` field as it is stored, in order. */
  datatype Field = Missing | NotAnObject(raw: string) | Groups(queues: seq<Queue>)

  datatype Config = Config(groups: Field, rest: string)

  datatype Result = Ok(config: Config) | UnknownQueue(key: string)

  const DEFAULT_KEYS: seq<string> := ["HALAN", "Gomla", "Tasaheel"]

  const DEFAULT_QUEUE_GROUPS: seq<Queue> := [
    Queue("HALAN", Usable("Halan", [
      TextItem("CF"), TextItem("Pay"), TextItem("General"), TextItem("Halan"), TextItem("Saving"), TextItem("Gold"),
      TextItem("Commerce"), TextItem("Salary lending"), TextItem("Irrelevant Call")])),
    Queue("Gomla", Usable("Gomla", [TextItem("Gomla")])),
    Queue("Tasaheel", Usable("Tasaheel", [TextItem("Tasaheel")]))]

  // ---- the catalog ------------------------------------------------------------------------------------

  predicate Valid(q: Queue) {
    q.entry.Usable? && Strip(q.key) != ""
  }

  /** Catalog key to raw key; of raw keys that strip to the same name the later wins. */
  function Index(queues: seq<Queue>): (index: map<string, string>)
    ensures forall name :: name in index ==> Strip(index[name]) == name
  {
    if queues == [] then map[]
    else if Valid(Last(queues)) then Index(Front(queues))[Strip(Last(queues).key) := Last(queues).key]
    else Index(Front(queues))
  }

  /** The printed verticals that are not blank. */
  function Texts(items: seq<Item>): (ts: seq<string>)
    ensures forall t :: t in ts ==> Strip(t) != ""
  {
    if items == [] then []
    else Texts(Front(items)) + (if Strip(Last(items).text) == "" then [] else [Last(items).text])
  }

  /** The queues chat retrieval sees, with their verticals. */
  function Served(queues: seq<Queue>): map<string, seq<string>> {
    if queues == [] then map[]
    else if Valid(Last(queues)) then Served(Front(queues))[Strip(Last(queues).key) := Texts(Last(queues).entry.verticals)]
    else Served(Front(queues))
  }

  /** `get_queue_groups_from_config`, without the display names. */
  function Catalog(config: Config): map<string, seq<string>> {
    if config.groups.Groups? && Served(config.groups.queues) != map[] then Served(config.groups.queues)
    else Served(DEFAULT_QUEUE_GROUPS)
  }

  /** The `i`-th entry is the last usable one whose key strips to `name`. */
  predicate LastNamed(queues: seq<Queue>, i: int, name: string) {
    && 0 <= i < |queues| && Valid(queues[i]) && Strip(queues[i].key) == name
    && forall j :: i < j < |queues| && Valid(queues[j]) ==> Strip(queues[j].key) != name
  }

  /** A queue of the catalog is a usable entry under its stripped key, the last one of that name, and serves the
      verticals of that entry. */
  lemma {:induction false} ServedExactly(queues: seq<Queue>, name: string)
    ensures name in Served(queues) ==>
      exists i :: LastNamed(queues, i, name)
        && Served(queues)[name] == Texts(queues[i].entry.verticals) && name in Index(queues) && Index(queues)[name] == queues[i].key
    ensures name !in Served(queues) ==> forall i :: 0 <= i < |queues| && Valid(queues[i]) ==> Strip(queues[i].key) != name
  {
    hide Strip;
    hide Texts;
    if queues != [] {
      var n, q := |queues| - 1, Last(queues);
      ServedExactly(Front(queues), name);
      if Valid(q) && Strip(q.key) == name {
        assert LastNamed(queues, n, name);
      } else if name in Served(queues) {
        var i :| LastNamed(Front(queues), i, name)
                 && Served(Front(queues))[name] == Texts(Front(queues)[i].entry.verticals)
                 && name in Index(Front(queues)) && Index(Front(queues))[name] == Front(queues)[i].key;
        assert queues[i] == Front(queues)[i];
        assert forall j :: 0 <= j < n ==> queues[j] == Front(queues)[j];
        assert LastNamed(queues, i, name);
      } else {
        assert forall j :: 0 <= j < n ==> queues[j] == Front(queues)[j];
      }
    }
  }

  /** What an entry serves: the text of every item that is not blank, as often as it is listed. */
  lemma {:induction false} TextsCount(items: seq<Item>, t: string)
    ensures multiset(Texts(items))[t] == if Strip(t) == "" then 0 else CountText(items, t)
  {
    hide Strip;
    if items != [] {
      TextsCount(Front(items), t);
    }
  }

  function CountText(items: seq<Item>, t: string): nat {
    if items == [] then 0 else CountText(Front(items), t) + (if Last(items).text == t then 1 else 0)
  }

  lemma {:induction false} SameKeys(queues: seq<Queue>)
    ensures Index(queues).Keys == Served(queues).Keys
  {
    hide Strip;
    if queues != [] {
      SameKeys(Front(queues));
    }
  }

  lemma {:induction false} ServedConcat(a: seq<Queue>, b: seq<Queue>)
    ensures Served(a + b) == Served(a) + Served(b)
  {
    hide Strip;
    if b == [] {
      assert a + b == a;
    } else {
      assert Front(a + b) == a + Front(b);
      ServedConcat(a, Front(b));
    }
  }

  // ---- explicit groups --------------------------------------------------------------------------------

  function WithoutDefaults(queues: seq<Queue>): seq<Queue> {
    if queues == [] then []
    else WithoutDefaults(Front(queues)) + (if Last(queues).key in DEFAULT_KEYS then [] else [Last(queues)])
  }

  /** The queues written out when the field is made explicit. */
  function Explicit(groups: Field): seq<Queue> {
    if !groups.Groups? || groups.queues == [] then DEFAULT_QUEUE_GROUPS
    else if Index(groups.queues) == map[] then WithoutDefaults(groups.queues) + DEFAULT_QUEUE_GROUPS
    else groups.queues
  }

  function EnsureQueueGroups(config: Config): Config {
    Config(Groups(Explicit(config.groups)), config.rest)
  }

  lemma LastIndexed(queues: seq<Queue>)
    requires queues != [] && Valid(Last(queues))
    ensures Index(queues) != map[]
  {
    hide Strip;
    assert Strip(Last(queues).key) in Index(queues);
  }

  lemma {:induction false} NothingServed(queues: seq<Queue>)
    requires Index(queues) == map[]
    ensures Served(queues) == map[] && Served(WithoutDefaults(queues)) == map[]
  {
    hide Strip;
    if queues != [] {
      var tail := if Last(queues).key in DEFAULT_KEYS then [] else [Last(queues)];
      if Valid(Last(queues)) {
        LastIndexed(queues);
        assert false;
      }
      NothingServed(Front(queues));
      ServedConcat(WithoutDefaults(Front(queues)), tail);
      assert Served([]) == map[];
      assert tail != [] ==> Front(tail) == [];
      assert Served(tail) == map[];
    }
  }

  lemma DefaultsServed()
    ensures Served(DEFAULT_QUEUE_GROUPS) != map[]
  {
    assert Valid(Last(DEFAULT_QUEUE_GROUPS));
    assert Strip("Tasaheel") in Served(DEFAULT_QUEUE_GROUPS);
  }

  /** Writing the groups out changes no chat: the catalog stays the one retrieval served already. */
  lemma EnsureKeepsCatalog(config: Config)
    ensures Catalog(EnsureQueueGroups(config)) == Catalog(config)
    ensures Catalog(config) == Served(Explicit(config.groups)) && Catalog(config) != map[]
  {
    hide Strip;
    DefaultsServed();
    if config.groups.Groups? {
      var queues := config.groups.queues;
      SameKeys(queues);
      if Index(queues) == map[] {
        NothingServed(queues);
        ServedConcat(WithoutDefaults(queues), DEFAULT_QUEUE_GROUPS);
      } else {
        EmptyKeys(Index(queues));
        EmptyKeys(Served(queues));
      }
    }
  }

  lemma EmptyKeys<T>(m: map<string, T>)
    ensures m == map[] <==> m.Keys == {}
  {
  }

  // ---- placing a vertical ---------------------------------------------------------------------------------

  predicate Holds(items: seq<Item>, vertical: string) {
    exists i :: 0 <= i < |items| && items[i].text == vertical
  }

  function Without(items: seq<Item>, vertical: string): (kept: seq<Item>)
    ensures !Holds(kept, vertical)
  {
    if items == [] then []
    else Without(Front(items), vertical) + (if Last(items).text == vertical then [] else [Last(items)])
  }

  function PlaceIn(entry: Entry, vertical: string, chosen: bool): Entry {
    if entry.Malformed? then entry
    else if !chosen then entry.(verticals := Without(entry.verticals, vertical))
    else if Holds(entry.verticals, vertical) then entry
    else entry.(verticals := entry.verticals + [TextItem(vertical)])
  }

  /** Every entry, in order; the chosen raw keys hold the vertical, no other entry does. */
  function Place(queues: seq<Queue>, vertical: string, chosen: set<string>): (placed: seq<Queue>)
    ensures |placed| == |queues|
  {
    if queues == [] then []
    else Place(Front(queues), vertical, chosen)
         + [Queue(Last(queues).key, PlaceIn(Last(queues).entry, vertical, Last(queues).key in chosen))]
  }

  /** The raw keys of the named queues, or the first name that is no queue. */
  function Choose(index: map<string, string>, names: seq<string>): (set<string>, Option<string>) {
    if names == [] then ({}, None)
    else
      var (chosen, missing) := Choose(index, Front(names));
      if missing.Some? then (chosen, missing)
      else if Strip(Last(names)) !in index then (chosen, Some(Strip(Last(names))))
      else (chosen + {index[Strip(Last(names))]}, None)
  }

  function SetVerticalQueues(config: Config, vertical: string, names: seq<string>): Result {
    var queues := Explicit(config.groups);
    var (chosen, missing) := Choose(Index(queues), names);
    if missing.Some? then UnknownQueue(missing.value)
    else Ok(Config(Groups(Place(queues, vertical, chosen)), config.rest))
  }

  function RemoveVertical(config: Config, vertical: string): Config {
    if config.groups.Groups? then config.(groups := Groups(Place(config.groups.queues, vertical, {}))) else config
  }

  // ---- exactly the chosen queues --------------------------------------------------------------------------

  ghost predicate Selected(names: seq<string>, key: string) {
    exists i :: 0 <= i < |names| && Strip(names[i]) == key
  }

  /** The first `n` names are queues. */
  ghost predicate Known<T>(catalog: map<string, T>, names: seq<string>, n: nat)
    requires n <= |names|
  {
    forall i :: 0 <= i < n ==> Strip(names[i]) in catalog
  }

  ghost predicate FirstUnknown<T>(catalog: map<string, T>, names: seq<string>, key: string) {
    exists i :: 0 <= i < |names| && key == Strip(names[i]) && key !in catalog && Known(catalog, names, i)
  }

  /** The first name that is no queue is the one reported. */
  lemma {:induction false} ChooseMissing(index: map<string, string>, names: seq<string>)
    ensures var missing := Choose(index, names).1;
      && (missing.None? <==> Known(index, names, |names|))
      && (missing.Some? ==> FirstUnknown(index, names, missing.value))
  {
    hide Strip;
    if names != [] {
      ChooseMissing(index, Front(names));
      KnownFront(index, names, |names| - 1);
      var (chosen, missing) := Choose(index, Front(names));
      if missing.Some? {
        var i :| 0 <= i < |names| - 1 && missing.value == Strip(Front(names)[i]) && missing.value !in index
                 && Known(index, Front(names), i);
        KnownFront(index, names, i);
        assert missing.value == Strip(names[i]);
      }
    }
  }

  lemma KnownFront<T>(catalog: map<string, T>, names: seq<string>, n: nat)
    requires n < |names|
    ensures Known(catalog, Front(names), n) <==> Known(catalog, names, n)
  {
    hide Strip;
    assert forall i :: 0 <= i < n ==> Front(names)[i] == names[i];
  }

  lemma {:induction false} ChosenExactly(index: map<string, string>, names: seq<string>, key: string)
    requires forall name :: name in index ==> Strip(index[name]) == name
    requires Choose(index, names).1.None? && key in index
    ensures index[key] in Choose(index, names).0 <==> Selected(names, key)
  {
    hide Strip;
    if names != [] {
      ChosenExactly(index, Front(names), key);
      SelectedSnoc(names, key);
      assert Strip(index[key]) == key;
    }
  }

  lemma SelectedSnoc(names: seq<string>, key: string)
    requires names != []
    ensures Selected(names, key) <==> Selected(Front(names), key) || Strip(Last(names)) == key
  {
    hide Strip;
    if Selected(Front(names), key) {
      var i :| 0 <= i < |Front(names)| && Strip(Front(names)[i]) == key;
      assert names[i] == Front(names)[i];
    }
    if Selected(names, key) && Strip(Last(names)) != key {
      var i :| 0 <= i < |names| && Strip(names[i]) == key;
      assert Front(names)[i] == names[i];
    }
  }

  lemma {:induction false} PlaceIndex(queues: seq<Queue>, vertical: string, chosen: set<string>)
    ensures Index(Place(queues, vertical, chosen)) == Index(queues)
  {
    hide Strip;
    if queues != [] {
      PlaceIndex(Front(queues), vertical, chosen);
      assert Front(Place(queues, vertical, chosen)) == Place(Front(queues), vertical, chosen);
    }
  }

  function Others(texts: seq<string>, vertical: string): seq<string> {
    if texts == [] then []
    else Others(Front(texts), vertical) + (if Last(texts) == vertical then [] else [Last(texts)])
  }

  lemma {:induction false} HoldsSnoc(items: seq<Item>, vertical: string)
    requires items != []
    ensures Holds(items, vertical) <==> Holds(Front(items), vertical) || Last(items).text == vertical
  {
    if Holds(Front(items), vertical) {
      var i :| 0 <= i < |Front(items)| && Front(items)[i].text == vertical;
      assert items[i] == Front(items)[i];
    }
    if Holds(items, vertical) && Last(items).text != vertical {
      var i :| 0 <= i < |items| && items[i].text == vertical;
      assert Front(items)[i] == items[i];
    }
  }

  lemma {:induction false} TextsHold(items: seq<Item>, vertical: string)
    requires Strip(vertical) != ""
    ensures vertical in Texts(items) <==> Holds(items, vertical)
  {
    hide Strip;
    if items != [] {
      TextsHold(Front(items), vertical);
      HoldsSnoc(items, vertical);
    }
  }

  lemma OthersSnoc(texts: seq<string>, text: string, vertical: string)
    ensures Others(texts + [text], vertical) == Others(texts, vertical) + (if text == vertical then [] else [text])
  {
    assert Front(texts + [text]) == texts;
  }

  lemma WithoutSnoc(items: seq<Item>, item: Item, vertical: string)
    ensures Without(items + [item], vertical)
            == if item.text == vertical then Without(items, vertical) else Without(items, vertical) + [item]
  {
    assert Front(items + [item]) == items;
    assert Without(items, vertical) + [] == Without(items, vertical);
  }

  lemma {:induction false} WithoutTexts(items: seq<Item>, vertical: string)
    ensures Texts(Without(items, vertical)) == Others(Texts(items), vertical)
  {
    if items != [] {
      WithoutTexts(Front(items), vertical);
      FrontLast(items);
      WithoutTextsStep(Front(items), Last(items), vertical);
    }
  }

  lemma WithoutTextsStep(items: seq<Item>, item: Item, vertical: string)
    requires Texts(Without(items, vertical)) == Others(Texts(items), vertical)
    ensures Texts(Without(items + [item], vertical)) == Others(Texts(items + [item]), vertical)
  {
    hide Strip;
    hide Texts;
    hide Without;
    hide Others;
    WithoutSnoc(items, item, vertical);
    TextsSnoc(items, item);
    TextsSnoc(Without(items, vertical), item);
    OthersSnoc(Texts(items), item.text, vertical);
    NothingAdded(Texts(items));
    NothingAdded(Others(Texts(items), vertical));
  }

  lemma NothingAdded<T>(s: seq<T>)
    ensures s + [] == s
  {
  }

  lemma {:induction false} OthersTwice(texts: seq<string>, vertical: string)
    ensures Others(Others(texts, vertical), vertical) == Others(texts, vertical)
    ensures vertical !in Others(texts, vertical)
  {
    if texts != [] {
      OthersTwice(Front(texts), vertical);
      OthersSnoc(Others(Front(texts), vertical), Last(texts), vertical);
      NothingAdded(Others(Front(texts), vertical));
    }
  }

  lemma TextsSnoc(items: seq<Item>, item: Item)
    ensures Texts(items + [item]) == Texts(items) + (if Strip(item.text) == "" then [] else [item.text])
  {
    hide Strip;
    assert Front(items + [item]) == items;
  }

  /** What one entry serves: the vertical exactly when chosen, everything else as before and in order. */
  lemma PlaceInTexts(entry: Entry, vertical: string, chosen: bool)
    requires entry.Usable? && Strip(vertical) != ""
    ensures var before, after := Texts(entry.verticals), Texts(PlaceIn(entry, vertical, chosen).verticals);
      (vertical in after <==> chosen) && Others(after, vertical) == Others(before, vertical)
  {
    hide Strip;
    var items := entry.verticals;
    WithoutTexts(items, vertical);
    OthersTwice(Texts(items), vertical);
    TextsHold(items, vertical);
    TextsHold(PlaceIn(entry, vertical, chosen).verticals, vertical);
    TextsSnoc(items, TextItem(vertical));
    OthersSnoc(Texts(items), vertical, vertical);
    if chosen && !Holds(items, vertical) {
      assert (items + [TextItem(vertical)])[|items|].text == vertical;
    }
  }

  lemma {:induction false} PlaceServed(queues: seq<Queue>, vertical: string, chosen: set<string>, key: string)
    requires Strip(vertical) != "" && key in Index(queues)
    ensures var placed := Place(queues, vertical, chosen);
      && key in Served(queues) && key in Served(placed)
      && (vertical in Served(placed)[key] <==> Index(queues)[key] in chosen)
      && Others(Served(placed)[key], vertical) == Others(Served(queues)[key], vertical)
  {
    hide Strip;
    var q := Last(queues);
    assert Front(Place(queues, vertical, chosen)) == Place(Front(queues), vertical, chosen);
    if Valid(q) && Strip(q.key) == key {
      PlaceInTexts(q.entry, vertical, q.key in chosen);
    } else {
      PlaceServed(Front(queues), vertical, chosen, key);
    }
  }

  lemma SameKnown(index: map<string, string>, served: map<string, seq<string>>, names: seq<string>)
    requires index.Keys == served.Keys
    ensures Known(index, names, |names|) <==> Known(served, names, |names|)
    ensures forall key :: FirstUnknown(index, names, key) <==> FirstUnknown(served, names, key)
  {
    hide Strip;
    assert forall i | 0 <= i <= |names| :: Known(index, names, i) <==> Known(served, names, i);
  }

  /** A document's vertical ends up in exactly the chosen queues, raw keys that strip to the same name or
      not; the other verticals of every queue stay as they were, in order; no queue appears or goes.  It is
      refused exactly when a name is no queue of the catalog retrieval serves, and then for the first such
      name. */
  lemma SetExactly(config: Config, vertical: string, names: seq<string>)
    requires Strip(vertical) != ""
    ensures var r, before := SetVerticalQueues(config, vertical, names), Catalog(config);
      && (r.Ok? <==> Known(before, names, |names|))
      && (r.UnknownQueue? ==> FirstUnknown(before, names, r.key))
      && (r.Ok? ==> Placed(before, Catalog(r.config), vertical, names))
  {
    hide Strip;
    var queues := Explicit(config.groups);
    EnsureKeepsCatalog(config);
    SameKeys(queues);
    ChooseMissing(Index(queues), names);
    var (chosen, missing) := Choose(Index(queues), names);
    SameKnown(Index(queues), Served(queues), names);
    if missing.None? {
      PlaceIndex(queues, vertical, chosen);
      SameKeys(Place(queues, vertical, chosen));
      EmptyKeys(Served(queues));
      EmptyKeys(Served(Place(queues, vertical, chosen)));
      forall key | key in Catalog(config)
        ensures PlacedAt(Catalog(config), Served(Place(queues, vertical, chosen)), vertical, names, key)
      {
        ChosenExactly(Index(queues), names, key);
        PlaceServed(queues, vertical, chosen, key);
      }
    }
  }

  ghost predicate PlacedAt(before: map<string, seq<string>>, after: map<string, seq<string>>, vertical: string,
                           names: seq<string>, key: string)
    requires key in before
  {
    && key in after
    && (vertical in after[key] <==> Selected(names, key))
    && Others(after[key], vertical) == Others(before[key], vertical)
  }

  ghost predicate Placed(before: map<string, seq<string>>, after: map<string, seq<string>>, vertical: string,
                         names: seq<string>) {
    && after.Keys == before.Keys
    && forall key :: key in before ==> PlacedAt(before, after, vertical, names, key)
  }

  /** Taking the vertical out leaves no queue that serves it, and the rest of every queue as it was. */
  lemma RemoveExactly(config: Config, vertical: string)
    requires Strip(vertical) != ""
    requires forall key :: key in Served(DEFAULT_QUEUE_GROUPS) ==> vertical !in Served(DEFAULT_QUEUE_GROUPS)[key]
    ensures Placed(Catalog(config), Catalog(RemoveVertical(config, vertical)), vertical, [])
  {
    hide Strip;
    if config.groups.Groups? && Served(config.groups.queues) != map[] {
      var queues := config.groups.queues;
      PlaceIndex(queues, vertical, {});
      SameKeys(queues);
      SameKeys(Place(queues, vertical, {}));
      EmptyKeys(Served(queues));
      EmptyKeys(Served(Place(queues, vertical, {})));
      forall key | key in Served(queues)
        ensures PlacedAt(Served(queues), Served(Place(queues, vertical, {})), vertical, [], key)
      {
        PlaceServed(queues, vertical, {}, key);
      }
    } else if config.groups.Groups? {
      var queues := config.groups.queues;
      PlaceIndex(queues, vertical, {});
      SameKeys(queues);
      SameKeys(Place(queues, vertical, {}));
      EmptyKeys(Served(queues));
      EmptyKeys(Served(Place(queues, vertical, {})));
    }
  }

  // ---- everything else stands -----------------------------------------------------------------------------

  /** The items of a list that print as none of the given verticals, in order. */
  function Foreign(items: seq<Item>, verticals: set<string>): seq<Item> {
    if items == [] then []
    else Foreign(Front(items), verticals) + (if Last(items).text in verticals then [] else [Last(items)])
  }

  /** An entry and what became of it: the raw key, the title, and a malformed entry stand; so does every item
      that is none of the given verticals, in its place among the others. */
  predicate EntryStands(before: Queue, after: Queue, verticals: set<string>) {
    && after.key == before.key
    && (before.entry.Malformed? ==> after.entry == before.entry)
    && (before.entry.Usable? ==>
          && after.entry.Usable? && after.entry.title == before.entry.title
          && Foreign(after.entry.verticals, verticals) == Foreign(before.entry.verticals, verticals))
  }

  predicate QueuesStand(before: seq<Queue>, after: seq<Queue>, verticals: set<string>) {
    |before| == |after| && forall i :: 0 <= i < |before| ==> EntryStands(before[i], after[i], verticals)
  }

  /** Groups that say something: a list with a usable entry. */
  ghost predicate SomeUsable(groups: Field) {
    groups.Groups? && exists i :: 0 <= i < |groups.queues| && Valid(groups.queues[i])
  }

  lemma {:induction false} SomeIndexed(queues: seq<Queue>)
    ensures Index(queues) != map[] <==> exists i :: 0 <= i < |queues| && Valid(queues[i])
  {
    hide Strip;
    hide Valid;
    if queues != [] {
      SomeIndexed(Front(queues));
      if Valid(Last(queues)) {
        LastIndexed(queues);
        assert Valid(queues[|queues| - 1]);
      } else if i :| 0 <= i < |queues| && Valid(queues[i]) {
        assert Valid(Front(queues)[i]);
      } else {
        forall i | 0 <= i < |Front(queues)| ensures !Valid(Front(queues)[i]) {
          assert Front(queues)[i] == queues[i];
        }
      }
    }
  }

  lemma ForeignSnoc(items: seq<Item>, item: Item, verticals: set<string>)
    ensures Foreign(items + [item], verticals) == Foreign(items, verticals) + (if item.text in verticals then [] else [item])
  {
    assert Front(items + [item]) == items;
  }

  lemma {:induction false} ForeignWithout(items: seq<Item>, vertical: string)
    ensures Foreign(Without(items, vertical), {vertical}) == Foreign(items, {vertical})
  {
    if items != [] {
      ForeignWithout(Front(items), vertical);
      ForeignSnoc(Without(Front(items), vertical), Last(items), {vertical});
      NothingAdded(Without(Front(items), vertical));
      NothingAdded(Foreign(Front(items), {vertical}));
    }
  }

  /** The vertical is where it was, or taken out, or added at the end; nothing else happens to a list. */
  predicate OnlyMoved(before: seq<Item>, after: seq<Item>, vertical: string) {
    || after == before
    || (!Holds(before, vertical) && after == before + [TextItem(vertical)])
    || (!Holds(after, vertical) && Foreign(after, {vertical}) == Foreign(before, {vertical}))
  }

  lemma PlaceInStands(q: Queue, vertical: string, chosen: bool)
    ensures EntryStands(q, Queue(q.key, PlaceIn(q.entry, vertical, chosen)), {vertical})
    ensures q.entry.Usable? ==> OnlyMoved(q.entry.verticals, PlaceIn(q.entry, vertical, chosen).verticals, vertical)
  {
    if q.entry.Usable? {
      ForeignWithout(q.entry.verticals, vertical);
      ForeignSnoc(q.entry.verticals, TextItem(vertical), {vertical});
    }
  }

  lemma PlaceStands(queues: seq<Queue>, vertical: string, chosen: set<string>)
    ensures QueuesStand(queues, Place(queues, vertical, chosen), {vertical})
  {
    hide PlaceIn;
    hide EntryStands;
    forall i | 0 <= i < |queues|
      ensures EntryStands(queues[i], Place(queues, vertical, chosen)[i], {vertical})
    {
      PlaceAt(queues, vertical, chosen, i);
      PlaceInStands(queues[i], vertical, queues[i].key in chosen);
    }
  }

  /** What becomes of a configuration: all other settings stand, and so do groups that say something. */
  ghost predicate ConfigStands(before: Config, after: Config, verticals: set<string>) {
    && after.rest == before.rest
    && (SomeUsable(before.groups) ==>
          after.groups.Groups? && QueuesStand(before.groups.queues, after.groups.queues, verticals))
  }

  lemma SetStands(config: Config, vertical: string, names: seq<string>)
    ensures var r := SetVerticalQueues(config, vertical, names);
      r.Ok? ==> ConfigStands(config, r.config, {vertical}) && SomeUsable(r.config.groups)
  {
    hide Strip;
    hide Valid;
    var queues := Explicit(config.groups);
    var chosen := Choose(Index(queues), names).0;
    PlaceStands(queues, vertical, chosen);
    PlaceIndex(queues, vertical, chosen);
    EnsureKeepsCatalog(config);
    SameKeys(queues);
    EmptyKeys(Index(queues));
    EmptyKeys(Served(queues));
    SomeIndexed(Place(queues, vertical, chosen));
    if config.groups.Groups? {
      SomeIndexed(config.groups.queues);
    }
  }

  lemma RemoveStands(config: Config, vertical: string)
    ensures ConfigStands(config, RemoveVertical(config, vertical), {vertical})
    ensures !config.groups.Groups? ==> RemoveVertical(config, vertical) == config
  {
    hide Valid;
    if config.groups.Groups? {
      PlaceStands(config.groups.queues, vertical, {});
    }
  }

  lemma {:induction false} ForeignMore(items: seq<Item>, few: set<string>, many: set<string>)
    requires few <= many
    ensures Foreign(Foreign(items, few), many) == Foreign(items, many)
  {
    if items != [] {
      ForeignMore(Front(items), few, many);
      ForeignSnoc(Foreign(Front(items), few), Last(items), many);
      NothingAdded(Foreign(Front(items), few));
      NothingAdded(Foreign(Front(items), many));
    }
  }

  lemma EntryStandsMore(before: Queue, after: Queue, few: set<string>, many: set<string>)
    requires EntryStands(before, after, few) && few <= many
    ensures EntryStands(before, after, many)
  {
    if before.entry.Usable? {
      ForeignMore(before.entry.verticals, few, many);
      ForeignMore(after.entry.verticals, few, many);
    }
  }

  /** Two changes in a row. */
  lemma ConfigStandsTwice(a: Config, b: Config, c: Config, few: set<string>, vertical: string)
    requires ConfigStands(a, b, few) && ConfigStands(b, c, {vertical})
    ensures ConfigStands(a, c, few + {vertical})
  {
    hide Strip;
    if SomeUsable(a.groups) {
      var p, q := a.groups.queues, b.groups.queues;
      var k :| 0 <= k < |p| && Valid(p[k]);
      assert EntryStands(p[k], q[k], few);
      assert Valid(q[k]);
      var r := c.groups.queues;
      forall i | 0 <= i < |p|
        ensures EntryStands(p[i], r[i], few + {vertical})
      {
        EntryStandsMore(p[i], q[i], few, few + {vertical});
        EntryStandsMore(q[i], r[i], {vertical}, few + {vertical});
      }
    }
  }

  lemma {:induction false} WithoutDefaultsCount(queues: seq<Queue>, q: Queue)
    ensures multiset(WithoutDefaults(queues))[q] == if q.key in DEFAULT_KEYS then 0 else multiset(queues)[q]
  {
    if queues != [] {
      WithoutDefaultsCount(Front(queues), q);
      FrontLast(queues);
      assert multiset(queues) == multiset(Front(queues)) + multiset{Last(queues)};
    }
  }

  /** Groups that say nothing are written out as the default ones, behind whatever the field held under other
      keys; groups that say something stay as they are. */
  lemma ExplicitExactly(groups: Field)
    ensures SomeUsable(groups) ==> Explicit(groups) == groups.queues
    ensures !SomeUsable(groups) && !groups.Groups? ==> Explicit(groups) == DEFAULT_QUEUE_GROUPS
    ensures !SomeUsable(groups) && groups.Groups? ==>
      exists held :: Explicit(groups) == held + DEFAULT_QUEUE_GROUPS && HeldElsewhere(groups.queues, held)
  {
    hide Valid;
    if groups.Groups? {
      SomeIndexed(groups.queues);
      forall q
        ensures multiset(WithoutDefaults(groups.queues))[q] == if q.key in DEFAULT_KEYS then 0 else multiset(groups.queues)[q]
      {
        WithoutDefaultsCount(groups.queues, q);
      }
      assert HeldElsewhere(groups.queues, WithoutDefaults(groups.queues));
      if groups.queues == [] {
        assert [] + DEFAULT_QUEUE_GROUPS == DEFAULT_QUEUE_GROUPS;
      }
    }
  }

  /** What chats see: the groups when they say something, and otherwise the three default queues. */
  lemma CatalogExactly(config: Config)
    ensures SomeUsable(config.groups) ==> Catalog(config) == Served(config.groups.queues)
    ensures !SomeUsable(config.groups) ==>
      Catalog(config) == map[
        "HALAN" := ["CF", "Pay", "General", "Halan", "Saving", "Gold", "Commerce", "Salary lending", "Irrelevant Call"],
        "Gomla" := ["Gomla"], "Tasaheel" := ["Tasaheel"]]
  {
    hide Valid;
    if config.groups.Groups? {
      SomeIndexed(config.groups.queues);
      SameKeys(config.groups.queues);
      EmptyKeys(Index(config.groups.queues));
      EmptyKeys(Served(config.groups.queues));
    }
    if !SomeUsable(config.groups) {
      DefaultsExactly();
    }
  }

  lemma PlainText(s: string)
    requires Plain(s)
    ensures Strip(s) == s
  {
    hide IsSpace;
    assert SkipSpace(s, 0) == 0 && s[0..] == s;
    assert SkipSpaceBack(s, |s|) == |s|;
  }

  predicate Plain(t: string) {
    t != "" && !IsSpace(t[0]) && !IsSpace(t[|t| - 1])
  }

  lemma {:induction false} TextsPlain(items: seq<Item>)
    requires forall i :: 0 <= i < |items| ==> Plain(items[i].text)
    ensures |Texts(items)| == |items| && forall i :: 0 <= i < |items| ==> Texts(items)[i] == items[i].text
  {
    hide IsSpace;
    hide Strip;
    if items != [] {
      TextsPlain(Front(items));
      PlainText(Last(items).text);
    }
  }

  lemma DefaultsPlain()
    ensures forall i, k :: 0 <= i < 3 && 0 <= k < |DEFAULT_QUEUE_GROUPS[i].entry.verticals| ==>
      Plain(DEFAULT_QUEUE_GROUPS[i].entry.verticals[k].text)
    ensures forall i :: 0 <= i < 3 ==> Plain(DEFAULT_QUEUE_GROUPS[i].key)
  {
  }

  lemma DefaultsExactly()
    ensures Served(DEFAULT_QUEUE_GROUPS) == map[
      "HALAN" := ["CF", "Pay", "General", "Halan", "Saving", "Gold", "Commerce", "Salary lending", "Irrelevant Call"],
      "Gomla" := ["Gomla"], "Tasaheel" := ["Tasaheel"]]
  {
    hide Strip;
    hide Plain;
    hide Texts;
    DefaultsPlain();
    var h, g, t := DEFAULT_QUEUE_GROUPS[0], DEFAULT_QUEUE_GROUPS[1], DEFAULT_QUEUE_GROUPS[2];
    TextsPlain(h.entry.verticals);
    TextsPlain(g.entry.verticals);
    TextsPlain(t.entry.verticals);
    PlainText(h.key);
    PlainText(g.key);
    PlainText(t.key);
    ServedSnoc([], h);
    ServedSnoc([] + [h], g);
    ServedSnoc([] + [h] + [g], t);
    assert DEFAULT_QUEUE_GROUPS == [] + [h] + [g] + [t];
    assert Texts(h.entry.verticals)
      == ["CF", "Pay", "General", "Halan", "Saving", "Gold", "Commerce", "Salary lending", "Irrelevant Call"];
    assert Texts(g.entry.verticals) == ["Gomla"] && Texts(t.entry.verticals) == ["Tasaheel"];
  }

  lemma ServedSnoc(queues: seq<Queue>, q: Queue)
    ensures Served(queues + [q])
            == if Valid(q) then Served(queues)[Strip(q.key) := Texts(q.entry.verticals)] else Served(queues)
  {
    hide Strip;
    assert Front(queues + [q]) == queues;
  }

  /** The entries under keys other than the default queues' ones. */
  ghost predicate HeldElsewhere(queues: seq<Queue>, held: seq<Queue>) {
    forall q :: multiset(held)[q] == if q.key in DEFAULT_KEYS then 0 else multiset(queues)[q]
  }

  // ---- algebra ----------------------------------------------------------------------------------------------

  lemma {:induction false} WithoutAbsent(items: seq<Item>, vertical: string)
    requires !Holds(items, vertical)
    ensures Without(items, vertical) == items
  {
    if items != [] {
      HoldsSnoc(items, vertical);
      WithoutAbsent(Front(items), vertical);
      FrontLast(items);
    }
  }

  lemma PlaceInTwice(entry: Entry, vertical: string, chosen: bool)
    ensures PlaceIn(PlaceIn(entry, vertical, chosen), vertical, chosen) == PlaceIn(entry, vertical, chosen)
    ensures PlaceIn(PlaceIn(entry, vertical, chosen), vertical, false) == PlaceIn(entry, vertical, false)
  {
    if entry.Usable? {
      var items := entry.verticals;
      WithoutAbsent(Without(items, vertical), vertical);
      WithoutSnoc(items, TextItem(vertical), vertical);
      if chosen && !Holds(items, vertical) {
        assert (items + [TextItem(vertical)])[|items|].text == vertical;
      }
    }
  }

  lemma {:induction false} PlaceTwice(queues: seq<Queue>, vertical: string, chosen: set<string>)
    ensures Place(Place(queues, vertical, chosen), vertical, chosen) == Place(queues, vertical, chosen)
    ensures Place(Place(queues, vertical, chosen), vertical, {}) == Place(queues, vertical, {})
  {
    if queues != [] {
      PlaceTwice(Front(queues), vertical, chosen);
      PlaceInTwice(Last(queues).entry, vertical, Last(queues).key in chosen);
      assert Front(Place(queues, vertical, chosen)) == Place(Front(queues), vertical, chosen);
    }
  }

  /** A configuration that was set once is explicit. */
  lemma StaysExplicit(config: Config, vertical: string, chosen: set<string>)
    ensures var placed := Place(Explicit(config.groups), vertical, chosen);
      Explicit(Groups(placed)) == placed && Index(placed) == Index(Explicit(config.groups))
  {
    hide Strip;
    var queues := Explicit(config.groups);
    EnsureKeepsCatalog(config);
    SameKeys(queues);
    EmptyKeys(Index(queues));
    EmptyKeys(Served(queues));
    PlaceIndex(queues, vertical, chosen);
  }

  lemma SetTwice(config: Config, vertical: string, names: seq<string>)
    ensures var r := SetVerticalQueues(config, vertical, names);
      r.Ok? ==> SetVerticalQueues(r.config, vertical, names) == r
  {
    var queues := Explicit(config.groups);
    var (chosen, missing) := Choose(Index(queues), names);
    StaysExplicit(config, vertical, chosen);
    PlaceTwice(queues, vertical, chosen);
  }

  /** Removing a vertical undoes setting it, up to the default groups now being written out. */
  lemma RemoveAfterSet(config: Config, vertical: string, names: seq<string>)
    ensures var r := SetVerticalQueues(config, vertical, names);
      r.Ok? ==> RemoveVertical(r.config, vertical) == RemoveVertical(EnsureQueueGroups(config), vertical)
  {
    var queues := Explicit(config.groups);
    var (chosen, missing) := Choose(Index(queues), names);
    PlaceTwice(queues, vertical, chosen);
  }

  /** The same queues, but for the order of each one's verticals. */
  ghost predicate SameUpToOrder(a: seq<Queue>, b: seq<Queue>) {
    |a| == |b| && forall i :: 0 <= i < |a| ==> a[i].key == b[i].key && SameEntry(a[i].entry, b[i].entry)
  }

  ghost predicate SameEntry(a: Entry, b: Entry) {
    if a.Malformed? || b.Malformed? then a == b
    else a.title == b.title && multiset(a.verticals) == multiset(b.verticals)
  }

  lemma {:induction false} WithoutCount(items: seq<Item>, vertical: string, item: Item)
    ensures multiset(Without(items, vertical))[item] == if item.text == vertical then 0 else multiset(items)[item]
  {
    if items != [] {
      WithoutCount(Front(items), vertical, item);
      FrontLast(items);
      assert multiset(items) == multiset(Front(items)) + multiset{Last(items)};
    }
  }

  lemma {:induction false} WithoutHolds(items: seq<Item>, v: string, w: string)
    requires v != w
    ensures Holds(Without(items, v), w) <==> Holds(items, w)
  {
    if items != [] {
      WithoutHolds(Front(items), v, w);
      HoldsSnoc(items, w);
      NothingAdded(Without(Front(items), v));
      if Last(items).text != v {
        HoldsSnoc(Without(items, v), w);
        assert Front(Without(items, v)) == Without(Front(items), v);
      }
    }
  }

  lemma PlaceInHolds(entry: Entry, v: string, chosen: bool, w: string)
    requires v != w && entry.Usable?
    ensures Holds(PlaceIn(entry, v, chosen).verticals, w) <==> Holds(entry.verticals, w)
  {
    WithoutHolds(entry.verticals, v, w);
    if chosen && !Holds(entry.verticals, v) {
      HoldsSnoc(entry.verticals + [TextItem(v)], w);
      assert Front(entry.verticals + [TextItem(v)]) == entry.verticals;
    }
  }

  /** How many of an item an entry holds after a vertical was placed. */
  function CountAfter(items: seq<Item>, v: string, chosen: bool, item: Item): nat {
    if !chosen then if item.text == v then 0 else multiset(items)[item]
    else multiset(items)[item] + (if item == TextItem(v) && !Holds(items, v) then 1 else 0)
  }

  lemma PlaceInCount(entry: Entry, v: string, chosen: bool, item: Item)
    requires entry.Usable?
    ensures multiset(PlaceIn(entry, v, chosen).verticals)[item] == CountAfter(entry.verticals, v, chosen, item)
  {
    WithoutCount(entry.verticals, v, item);
  }

  lemma CountsCommute(entry: Entry, v: string, inV: bool, w: string, inW: bool, item: Item)
    requires v != w && entry.Usable?
    requires PlaceIn(entry, v, inV).Usable? && PlaceIn(entry, w, inW).Usable?
    requires PlaceIn(PlaceIn(entry, v, inV), w, inW).Usable? && PlaceIn(PlaceIn(entry, w, inW), v, inV).Usable?
    ensures multiset(PlaceIn(PlaceIn(entry, v, inV), w, inW).verticals)[item]
            == multiset(PlaceIn(PlaceIn(entry, w, inW), v, inV).verticals)[item]
  {
    hide PlaceIn;
    hide Holds;
    PlaceInHolds(entry, v, inV, w);
    PlaceInHolds(entry, w, inW, v);
    PlaceInCount(entry, v, inV, item);
    PlaceInCount(entry, w, inW, item);
    PlaceInCount(PlaceIn(entry, v, inV), w, inW, item);
    PlaceInCount(PlaceIn(entry, w, inW), v, inV, item);
  }

  lemma PlaceInCommutes(entry: Entry, v: string, inV: bool, w: string, inW: bool)
    requires v != w
    ensures SameEntry(PlaceIn(PlaceIn(entry, v, inV), w, inW), PlaceIn(PlaceIn(entry, w, inW), v, inV))
  {
    if entry.Usable? {
      hide PlaceIn;
      PlaceInUsable(entry, v, inV);
      PlaceInUsable(entry, w, inW);
      PlaceInUsable(PlaceIn(entry, v, inV), w, inW);
      PlaceInUsable(PlaceIn(entry, w, inW), v, inV);
      forall item
        ensures multiset(PlaceIn(PlaceIn(entry, v, inV), w, inW).verticals)[item]
                == multiset(PlaceIn(PlaceIn(entry, w, inW), v, inV).verticals)[item]
      {
        CountsCommute(entry, v, inV, w, inW, item);
      }
    }
  }

  lemma PlaceInUsable(entry: Entry, v: string, chosen: bool)
    requires entry.Usable?
    ensures PlaceIn(entry, v, chosen).Usable? && PlaceIn(entry, v, chosen).title == entry.title
  {
  }

  /** Entry by entry, keys and order kept. */
  lemma {:induction false} PlaceAt(queues: seq<Queue>, v: string, chosen: set<string>, i: nat)
    requires i < |queues|
    ensures Place(queues, v, chosen)[i] == Queue(queues[i].key, PlaceIn(queues[i].entry, v, queues[i].key in chosen))
  {
    if i < |queues| - 1 {
      PlaceAt(Front(queues), v, chosen, i);
    }
  }

  /** Two documents' queues can be set in either order. */
  lemma SetsCommute(config: Config, v: string, vNames: seq<string>, w: string, wNames: seq<string>)
    requires v != w
    ensures SetVerticalQueues(config, v, vNames).Ok? && SetVerticalQueues(config, w, wNames).Ok? ==>
      var a := SetVerticalQueues(SetVerticalQueues(config, v, vNames).config, w, wNames);
      var b := SetVerticalQueues(SetVerticalQueues(config, w, wNames).config, v, vNames);
      a.Ok? && b.Ok? && a.config.rest == b.config.rest
      && SameUpToOrder(a.config.groups.queues, b.config.groups.queues)
  {
    if SetVerticalQueues(config, v, vNames).UnknownQueue? || SetVerticalQueues(config, w, wNames).UnknownQueue? {
      return;
    }
    var queues := Explicit(config.groups);
    var inV, inW := Choose(Index(queues), vNames).0, Choose(Index(queues), wNames).0;
    StaysExplicit(config, v, inV);
    StaysExplicit(config, w, inW);
    forall i | 0 <= i < |queues|
      ensures var a, b := Place(Place(queues, v, inV), w, inW)[i], Place(Place(queues, w, inW), v, inV)[i];
        a.key == b.key && SameEntry(a.entry, b.entry)
    {
      PlaceAt(queues, v, inV, i);
      PlaceAt(queues, w, inW, i);
      PlaceAt(Place(queues, v, inV), w, inW, i);
      PlaceAt(Place(queues, w, inW), v, inV, i);
      PlaceInCommutes(queues[i].entry, v, queues[i].key in inV, w, queues[i].key in inW);
    }
  }

  lemma {:induction false} OthersHold(texts: seq<string>, vertical: string, t: string)
    requires t != vertical
    ensures t in Others(texts, vertical) <==> t in texts
  {
    if texts != [] {
      OthersHold(Front(texts), vertical, t);
      FrontLast(texts);
    }
  }

  /** The last setting decides: whatever was chosen before, every queue then serves the same verticals. */
  lemma LastWriterWins(config: Config, vertical: string, earlier: seq<string>, names: seq<string>)
    requires Strip(vertical) != ""
    ensures SetVerticalQueues(config, vertical, earlier).Ok? ==>
      var once := SetVerticalQueues(config, vertical, names);
      var twice := SetVerticalQueues(SetVerticalQueues(config, vertical, earlier).config, vertical, names);
      && (twice.Ok? <==> once.Ok?)
      && (once.Ok? ==> SameCatalog(Catalog(twice.config), Catalog(once.config)))
  {
    hide Strip;
    if SetVerticalQueues(config, vertical, earlier).UnknownQueue? {
      return;
    }
    var mid := SetVerticalQueues(config, vertical, earlier).config;
    SetExactly(config, vertical, earlier);
    SetExactly(config, vertical, names);
    SetExactly(mid, vertical, names);
    SameKnownKeys(Catalog(config), Catalog(mid), names);
    var once, twice := SetVerticalQueues(config, vertical, names), SetVerticalQueues(mid, vertical, names);
    if once.Ok? {
      forall key | key in Catalog(config) ensures SameTexts(Catalog(twice.config), Catalog(once.config), key) {
        assert PlacedAt(Catalog(config), Catalog(mid), vertical, earlier, key);
        assert PlacedAt(Catalog(config), Catalog(once.config), vertical, names, key);
        assert PlacedAt(Catalog(mid), Catalog(twice.config), vertical, names, key);
        forall t ensures t in Catalog(twice.config)[key] <==> t in Catalog(once.config)[key] {
          if t != vertical {
            OthersHold(Catalog(twice.config)[key], vertical, t);
            OthersHold(Catalog(once.config)[key], vertical, t);
          }
        }
      }
    }
  }

  lemma SameKnownKeys(a: map<string, seq<string>>, b: map<string, seq<string>>, names: seq<string>)
    requires a.Keys == b.Keys
    ensures Known(a, names, |names|) <==> Known(b, names, |names|)
  {
    hide Strip;
  }

  ghost predicate SameTexts(a: map<string, seq<string>>, b: map<string, seq<string>>, key: string) {
    key in a && key in b && forall t :: t in a[key] <==> t in b[key]
  }

  ghost predicate SameCatalog(a: map<string, seq<string>>, b: map<string, seq<string>>) {
    a.Keys == b.Keys && forall key :: key in a ==> SameTexts(a, b, key)
  }

  // ---- what a chat searches -----------------------------------------------------------------------------------

  function AddNew(seen: seq<string>, texts: seq<string>): seq<string> {
    if texts == [] then seen
    else
      var before := AddNew(seen, Front(texts));
      if Last(texts) in before then before else before + [Last(texts)]
  }

  function Gather(catalog: map<string, seq<string>>, active: seq<string>): seq<string> {
    if active == [] then []
    else if Last(active) in catalog then AddNew(Gather(catalog, Front(active)), catalog[Last(active)])
    else Gather(catalog, Front(active))
  }

  /** `resolve_verticals`: the verticals to search, or no restriction at all. */
  function ResolveVerticals(config: Config, active: seq<string>): Option<seq<string>> {
    var verticals := Gather(Catalog(config), active);
    if verticals == [] then None else Some(verticals)
  }

  /** A chat on the active queues finds the chunks of a vertical. */
  predicate Searchable(config: Config, active: seq<string>, vertical: string) {
    match ResolveVerticals(config, active)
    case None => true
    case Some(verticals) => vertical in verticals
  }

  ghost predicate ServedBy(catalog: map<string, seq<string>>, active: seq<string>, t: string) {
    exists i :: 0 <= i < |active| && active[i] in catalog && t in catalog[active[i]]
  }

  ghost predicate ServesSome(catalog: map<string, seq<string>>, active: seq<string>) {
    exists t :: ServedBy(catalog, active, t)
  }

  lemma {:induction false} AddNewHolds(seen: seq<string>, texts: seq<string>, t: string)
    ensures t in AddNew(seen, texts) <==> t in seen || t in texts
  {
    if texts != [] {
      AddNewHolds(seen, Front(texts), t);
      FrontLast(texts);
    }
  }

  lemma {:induction false} GatherHolds(catalog: map<string, seq<string>>, active: seq<string>, t: string)
    ensures t in Gather(catalog, active) <==> ServedBy(catalog, active, t)
  {
    if active != [] {
      GatherHolds(catalog, Front(active), t);
      if Last(active) in catalog {
        AddNewHolds(Gather(catalog, Front(active)), catalog[Last(active)], t);
      }
      ServedBySnoc(catalog, active, t);
    }
  }

  lemma ServedBySnoc(catalog: map<string, seq<string>>, active: seq<string>, t: string)
    requires active != []
    ensures ServedBy(catalog, active, t)
            <==> ServedBy(catalog, Front(active), t) || (Last(active) in catalog && t in catalog[Last(active)])
  {
    if ServedBy(catalog, Front(active), t) {
      var i :| 0 <= i < |Front(active)| && Front(active)[i] in catalog && t in catalog[Front(active)[i]];
      assert active[i] == Front(active)[i];
    }
    if ServedBy(catalog, active, t) && !(Last(active) in catalog && t in catalog[Last(active)]) {
      var i :| 0 <= i < |active| && active[i] in catalog && t in catalog[active[i]];
      assert Front(active)[i] == active[i];
    }
  }

  predicate NoRepeats(texts: seq<string>) {
    forall i, j :: 0 <= i < j < |texts| ==> texts[i] != texts[j]
  }

  lemma {:induction false} AddNewOnce(seen: seq<string>, texts: seq<string>)
    requires NoRepeats(seen)
    ensures NoRepeats(AddNew(seen, texts)) && seen <= AddNew(seen, texts)
  {
    if texts != [] {
      AddNewOnce(seen, Front(texts));
    }
  }

  lemma {:induction false} GatherOnce(catalog: map<string, seq<string>>, active: seq<string>)
    ensures NoRepeats(Gather(catalog, active))
  {
    if active != [] {
      GatherOnce(catalog, Front(active));
      if Last(active) in catalog {
        AddNewOnce(Gather(catalog, Front(active)), catalog[Last(active)]);
      }
    }
  }

  /** A chat searches each vertical once, those of earlier queues first. */
  lemma ResolvedOnce(config: Config, active: seq<string>, more: seq<string>)
    ensures ResolveVerticals(config, active).Some? ==> NoRepeats(ResolveVerticals(config, active).value)
    ensures ResolveVerticals(config, active).Some? ==>
      ResolveVerticals(config, active + more).Some?
      && ResolveVerticals(config, active).value <= ResolveVerticals(config, active + more).value
  {
    hide Catalog;
    GatherOnce(Catalog(config), active);
    GatherGrows(Catalog(config), active, more);
  }

  lemma {:induction false} GatherGrows(catalog: map<string, seq<string>>, active: seq<string>, more: seq<string>)
    ensures Gather(catalog, active) <= Gather(catalog, active + more)
  {
    if more == [] {
      assert active + more == active;
    } else {
      GatherGrows(catalog, active, Front(more));
      assert Front(active + more) == active + Front(more) && Last(active + more) == Last(more);
      GatherOnce(catalog, active + Front(more));
      if Last(more) in catalog {
        AddNewOnce(Gather(catalog, active + Front(more)), catalog[Last(more)]);
      }
    }
  }

  /** The search is restricted to the verticals of the active queues, unless those have none at all: then
      it is not restricted, and finds everything. */
  lemma SearchableExactly(config: Config, active: seq<string>, vertical: string)
    ensures Searchable(config, active, vertical)
            <==> ServedBy(Catalog(config), active, vertical) || !ServesSome(Catalog(config), active)
  {
    var found := Gather(Catalog(config), active);
    GatherHolds(Catalog(config), active, vertical);
    if found == [] {
      forall t ensures !ServedBy(Catalog(config), active, t) {
        GatherHolds(Catalog(config), active, t);
      }
    } else {
      GatherHolds(Catalog(config), active, found[0]);
    }
  }

  /** One of the active queues was chosen. */
  ghost predicate SomeChosen(names: seq<string>, active: seq<string>) {
    exists i :: 0 <= i < |active| && Selected(names, active[i])
  }

  /** None of the active queues serves another vertical; a key that is no queue serves none. */
  ghost predicate NoOthers(catalog: map<string, seq<string>>, active: seq<string>, vertical: string) {
    forall i :: 0 <= i < |active| && active[i] in catalog ==> Others(catalog[active[i]], vertical) == []
  }

  lemma NoOthersExactly(catalog: map<string, seq<string>>, active: seq<string>, vertical: string)
    ensures NoOthers(catalog, active, vertical) <==> forall t :: t != vertical ==> !ServedBy(catalog, active, t)
  {
    if NoOthers(catalog, active, vertical) {
      forall t | t != vertical ensures !ServedBy(catalog, active, t) {
        forall i | 0 <= i < |active| && active[i] in catalog ensures t !in catalog[active[i]] {
          OthersHold(catalog[active[i]], vertical, t);
        }
      }
    } else {
      var i :| 0 <= i < |active| && active[i] in catalog && Others(catalog[active[i]], vertical) != [];
      var t := Others(catalog[active[i]], vertical)[0];
      OthersTwice(catalog[active[i]], vertical);
      OthersHold(catalog[active[i]], vertical, t);
      assert ServedBy(catalog, active, t);
    }
  }

  lemma UnknownUnchosen<T>(catalog: map<string, T>, names: seq<string>, key: string)
    requires Known(catalog, names, |names|) && key !in catalog
    ensures !Selected(names, key)
  {
    hide Strip;
  }

  /** What the active queues serve after a vertical was placed: the vertical when one of them was chosen,
      everything else as before. */
  lemma ServedAfter(before: map<string, seq<string>>, after: map<string, seq<string>>, vertical: string,
                    names: seq<string>, active: seq<string>, t: string)
    requires Placed(before, after, vertical, names) && Known(before, names, |names|)
    ensures ServedBy(after, active, t)
            <==> if t == vertical then SomeChosen(names, active) else ServedBy(before, active, t)
  {
    hide Strip;
    forall i | 0 <= i < |active|
      ensures active[i] in after && t in after[active[i]]
              <==> if t == vertical then Selected(names, active[i]) else active[i] in before && t in before[active[i]]
    {
      var key := active[i];
      if key in before {
        assert PlacedAt(before, after, vertical, names, key);
        if t != vertical {
          OthersHold(after[key], vertical, t);
          OthersHold(before[key], vertical, t);
        }
      } else {
        UnknownUnchosen(before, names, key);
      }
    }
  }

  /** How placing a vertical changes what chats find: the vertical itself is found exactly from chosen queues,
      or from queues that serve nothing else; another one is found or not as before, except that queues which
      serve nothing else switch between no restriction and a restriction to the vertical alone. */
  lemma SearchAfter(config: Config, after: Config, vertical: string, names: seq<string>, active: seq<string>, t: string)
    requires Placed(Catalog(config), Catalog(after), vertical, names) && Known(Catalog(config), names, |names|)
    ensures t == vertical ==>
      (Searchable(after, active, t) <==> SomeChosen(names, active) || NoOthers(Catalog(config), active, vertical))
    ensures t != vertical ==>
      (Searchable(after, active, t) != Searchable(config, active, t)
       <==> NoOthers(Catalog(config), active, vertical)
            && ServedBy(Catalog(config), active, vertical) != SomeChosen(names, active))
  {
    hide Catalog;
    hide Placed;
    hide Known;
    hide Searchable;
    hide ServedBy;
    hide NoOthers;
    hide SomeChosen;
    SearchableExactly(config, active, t);
    SearchableExactly(after, active, t);
    NoOthersExactly(Catalog(config), active, vertical);
    ServedAfter(Catalog(config), Catalog(after), vertical, names, active, vertical);
    forall u
      ensures u != vertical ==> (ServedBy(Catalog(after), active, u) <==> ServedBy(Catalog(config), active, u))
    {
      ServedAfter(Catalog(config), Catalog(after), vertical, names, active, u);
    }
  }

  /** After its queues were set, a chat on any list of active queues finds the document exactly when one of
      them was chosen, or none of them serves any other vertical. */
  lemma FoundFromExactly(config: Config, vertical: string, names: seq<string>, active: seq<string>)
    requires Strip(vertical) != ""
    ensures var r := SetVerticalQueues(config, vertical, names);
      r.Ok? ==> (Searchable(r.config, active, vertical)
                 <==> SomeChosen(names, active) || NoOthers(Catalog(config), active, vertical))
  {
    hide Strip;
    hide SetVerticalQueues;
    hide Catalog;
    hide Searchable;
    hide NoOthers;
    hide SomeChosen;
    SetExactly(config, vertical, names);
    if SetVerticalQueues(config, vertical, names).Ok? {
      SearchAfter(config, SetVerticalQueues(config, vertical, names).config, vertical, names, active, vertical);
    }
  }

  /** The same for a chat on one queue of the catalog. */
  lemma FoundFromOne(config: Config, vertical: string, names: seq<string>, queue: string)
    requires Strip(vertical) != "" && queue in Catalog(config)
    ensures var r := SetVerticalQueues(config, vertical, names);
      r.Ok? ==> (Searchable(r.config, [queue], vertical)
                 <==> Selected(names, queue) || Others(Catalog(config)[queue], vertical) == [])
  {
    hide Strip;
    hide SetVerticalQueues;
    hide Catalog;
    hide Searchable;
    hide Selected;
    FoundFromExactly(config, vertical, names, [queue]);
    assert [queue][0] == queue;
    assert SomeChosen(names, [queue]) <==> Selected(names, queue);
  }

  /** Setting one document's queues changes whether a chat finds another document exactly when the active
      queues serve nothing but the first one, and began or ceased to serve it. */
  lemma OthersFoundExactly(config: Config, vertical: string, names: seq<string>, active: seq<string>, other: string)
    requires Strip(vertical) != "" && other != vertical
    ensures var r := SetVerticalQueues(config, vertical, names);
      r.Ok? ==> (Searchable(r.config, active, other) != Searchable(config, active, other)
                 <==> NoOthers(Catalog(config), active, vertical)
                      && ServedBy(Catalog(config), active, vertical) != SomeChosen(names, active))
  {
    hide Strip;
    hide SetVerticalQueues;
    hide Catalog;
    hide Searchable;
    hide ServedBy;
    hide NoOthers;
    hide SomeChosen;
    SetExactly(config, vertical, names);
    if SetVerticalQueues(config, vertical, names).Ok? {
      SearchAfter(config, SetVerticalQueues(config, vertical, names).config, vertical, names, active, other);
    }
  }

  /** Two queues that serve nothing. */
  const EMPTY_QUEUES: Config := Config(Groups([Queue("A", Usable("A", [])), Queue("B", Usable("B", []))]), "")

  lemma PlainKey(c: char)
    requires !IsSpace(c)
    ensures Strip([c]) == [c]
  {
    hide IsSpace;
    var s := [c];
    assert SkipSpace(s, 0) == 0 && s[0..] == s;
    assert SkipSpaceBack(s, 1) == 1 && s[..1] == s;
  }

  lemma EmptyQueuesServed()
    ensures Catalog(EMPTY_QUEUES) == map["A" := [], "B" := []]
  {
    hide Strip;
    PlainKey('A');
    PlainKey('B');
    var a, b := Queue("A", Usable("A", [])), Queue("B", Usable("B", []));
    assert Front([a, b]) == [a];
    assert Front([a]) == [];
    assert Served([]) == map[];
    assert Served([a]) == map["A" := []];
    assert Served([a, b]) == map["A" := [], "B" := []];
    assert "A" in Served([a, b]);
  }

  lemma EmptyQueuesSet(queue: string)
    requires queue == "A" || queue == "B"
    ensures SetVerticalQueues(EMPTY_QUEUES, "v", [queue]).Ok?
    ensures forall active :: SomeChosen([queue], active) <==> queue in active
    ensures forall active :: NoOthers(Catalog(EMPTY_QUEUES), active, "v") && !ServedBy(Catalog(EMPTY_QUEUES), active, "v")
  {
    hide Strip;
    hide SetVerticalQueues;
    PlainKey('A');
    PlainKey('B');
    PlainKey('v');
    EmptyQueuesServed();
    SetExactly(EMPTY_QUEUES, "v", [queue]);
    forall active ensures SomeChosen([queue], active) <==> queue in active {
      forall i | 0 <= i < |active| ensures Selected([queue], active[i]) <==> active[i] == queue {
        assert [queue][0] == queue;
      }
    }
  }

  /** A chat on queue A finds a document that was put into queue B only. */
  lemma FoundUnchosen()
    ensures var r := SetVerticalQueues(EMPTY_QUEUES, "v", ["B"]); r.Ok? && Searchable(r.config, ["A"], "v")
  {
    hide SetVerticalQueues;
    hide Searchable;
    hide NoOthers;
    PlainKey('v');
    EmptyQueuesSet("B");
    FoundFromExactly(EMPTY_QUEUES, "v", ["B"], ["A"]);
  }

  /** A chat on queue A found document w, and no longer does once document v was put into that queue. */
  lemma OtherLost()
    ensures Searchable(EMPTY_QUEUES, ["A"], "w")
    ensures var r := SetVerticalQueues(EMPTY_QUEUES, "v", ["A"]); r.Ok? && !Searchable(r.config, ["A"], "w")
  {
    hide SetVerticalQueues;
    hide Searchable;
    hide NoOthers;
    PlainKey('v');
    EmptyQueuesServed();
    EmptyQueuesSet("A");
    SearchableExactly(EMPTY_QUEUES, ["A"], "w");
    assert "v" != "w" by { assert "v"[0] != "w"[0]; }
    OthersFoundExactly(EMPTY_QUEUES, "v", ["A"], ["A"], "w");
  }

  // ---- the loops ----------------------------------------------------------------------------------------------

  method CatalogIndex(queues: seq<Queue>) returns (index: map<string, string>)
    ensures index == Index(queues)
  {
    hide Strip;
    index := map[];
    for i := 0 to |queues|
      invariant index == Index(queues[..i])
    {
      assert Front(queues[..i + 1]) == queues[..i];
      if Valid(queues[i]) {
        index := index[Strip(queues[i].key) := queues[i].key];
      }
    }
    assert queues[..|queues|] == queues;
  }

  method GetQueueGroups(config: Config) returns (catalog: map<string, seq<string>>)
    ensures catalog == Catalog(config)
  {
    hide Strip;
    catalog := map[];
    if config.groups.Groups? {
      var queues := config.groups.queues;
      for i := 0 to |queues|
        invariant catalog == Served(queues[..i])
      {
        assert Front(queues[..i + 1]) == queues[..i];
        if Valid(queues[i]) {
          catalog := catalog[Strip(queues[i].key) := Texts(queues[i].entry.verticals)];
        }
      }
      assert queues[..|queues|] == queues;
    }
    if catalog == map[] {
      catalog := Served(DEFAULT_QUEUE_GROUPS);
    }
  }

  method ChooseLoop(index: map<string, string>, names: seq<string>) returns (chosen: set<string>, missing: Option<string>)
    ensures (chosen, missing) == Choose(index, names)
  {
    hide Strip;
    chosen, missing := {}, None;
    for i := 0 to |names|
      invariant (chosen, missing) == Choose(index, names[..i]) && missing.None?
    {
      assert Front(names[..i + 1]) == names[..i];
      var name := Strip(names[i]);
      if name !in index {
        MissingStays(index, names, i + 1);
        return chosen, Some(name);
      }
      chosen := chosen + {index[name]};
    }
    assert names[..|names|] == names;
  }

  lemma {:induction false} MissingStays(index: map<string, string>, names: seq<string>, n: nat)
    requires n <= |names| && Choose(index, names[..n]).1.Some?
    ensures Choose(index, names) == Choose(index, names[..n])
  {
    hide Strip;
    if n < |names| {
      assert Front(names)[..n] == names[..n];
      MissingStays(index, Front(names), n);
    } else {
      assert names[..n] == names;
    }
  }

  method SetVerticalQueuesLoop(config: Config, vertical: string, names: seq<string>) returns (r: Result)
    ensures r == SetVerticalQueues(config, vertical, names)
  {
    hide Strip;
    hide Index;
    var queues := EnsureQueueGroups(config).groups.queues;
    var index := CatalogIndex(queues);
    var chosen, missing := ChooseLoop(index, names);
    if missing.Some? {
      return UnknownQueue(missing.value);
    }
    queues := PlaceLoop(queues, vertical, chosen);
    r := Ok(Config(Groups(queues), config.rest));
  }

  /** The pass over the entries, each changed where it stands. */
  method PlaceLoop(queues: seq<Queue>, vertical: string, chosen: set<string>) returns (placed: seq<Queue>)
    ensures placed == Place(queues, vertical, chosen)
  {
    placed := queues;
    for i := 0 to |queues|
      invariant |placed| == |queues| && forall k :: i <= k < |queues| ==> placed[k] == queues[k]
      invariant placed[..i] == Place(queues[..i], vertical, chosen)
    {
      var q := placed[i];
      PlaceStep(queues, vertical, chosen, i);
      if q.entry.Usable? {
        var verticals := q.entry.verticals;
        var present := exists k :: 0 <= k < |verticals| && verticals[k].text == vertical;
        if q.key in chosen {
          if !present {
            verticals := verticals + [TextItem(vertical)];
          }
        } else if present {
          verticals := Without(verticals, vertical);
        } else {
          WithoutAbsent(verticals, vertical);
        }
        placed := placed[i := Queue(q.key, Usable(q.entry.title, verticals))];
      }
      assert placed[..i + 1] == placed[..i] + [placed[i]];
    }
    assert placed[..|queues|] == placed && queues[..|queues|] == queues;
  }

  method RemoveVerticalLoop(config: Config, vertical: string) returns (r: Config)
    ensures r == RemoveVertical(config, vertical)
  {
    r := config;
    if config.groups.Groups? {
      var queues := PlaceLoop(config.groups.queues, vertical, {});
      r := config.(groups := Groups(queues));
    }
  }

  lemma PlaceStep(queues: seq<Queue>, vertical: string, chosen: set<string>, i: nat)
    requires i < |queues|
    ensures Place(queues[..i + 1], vertical, chosen) == Place(queues[..i], vertical, chosen)
            + [Queue(queues[i].key, PlaceIn(queues[i].entry, vertical, queues[i].key in chosen))]
  {
    assert Front(queues[..i + 1]) == queues[..i];
  }

  method ResolveVerticalsLoop(config: Config, active: seq<string>) returns (r: Option<seq<string>>)
    ensures r == ResolveVerticals(config, active)
  {
    hide Catalog;
    var groups := GetQueueGroups(config);
    var verticals: seq<string> := [];
    for i := 0 to |active|
      invariant verticals == Gather(groups, active[..i])
    {
      assert Front(active[..i + 1]) == active[..i];
      if active[i] in groups {
        var texts := groups[active[i]];
        ghost var before := verticals;
        for k := 0 to |texts|
          invariant verticals == AddNew(before, texts[..k])
        {
          assert Front(texts[..k + 1]) == texts[..k];
          if texts[k] !in verticals {
            verticals := verticals + [texts[k]];
          }
        }
        assert texts[..|texts|] == texts;
      }
    }
    assert active[..|active|] == active;
    r := if verticals == [] then None else Some(verticals);
  }
}
