/** A sync's plan: a folder listing compared with the files tracked so far, and what carrying it out leaves
    to be found by the next one. */
module CrmPlan {
  import opened Options
  import opened Sequences
  import CrmFiles
  import CrmStore

  const MAX_ITEM_ID_BYTES := 512
  const MAX_FILE_NAME_BYTES := 1024
  const MAX_FILE_PATH_BYTES := 4000
  const MAX_URL_BYTES := 4000
  const MAX_TAG_BYTES := 512
  const MAX_HASH_BYTES := 128

  // ---- text cut to a column -------------------------------------------------------------------------------

  function CharBytes(c: char): nat {
    if c as int < 0x80 then 1 else if c as int < 0x800 then 2 else if c as int < 0x10000 then 3 else 4
  }

  /** The length of a text in UTF-8. */
  function Bytes(text: string): nat {
    if text == "" then 0 else CharBytes(text[0]) + Bytes(text[1..])
  }

  /** The longest front of at most `max` bytes. */
  function FrontOf(text: string, max: int): (r: string)
    ensures max >= 0 ==> Bytes(r) <= max
    ensures r <= text
  {
    if text == "" || CharBytes(text[0]) > max then "" else [text[0]] + FrontOf(text[1..], max - CharBytes(text[0]))
  }

  function Truncate(text: string, max: nat): (r: string)
    ensures text != "" ==> r != ""
  {
    if Bytes(text) <= max then text else FrontOf(text, if max < 3 then 0 else max - 3) + "..."
  }

  lemma {:induction false} BytesConcat(a: string, b: string)
    ensures Bytes(a + b) == Bytes(a) + Bytes(b)
  {
    if a == "" {
      assert a + b == b;
    } else {
      assert (a + b)[1..] == a[1..] + b;
      BytesConcat(a[1..], b);
    }
  }

  /** A cut text fits its column. */
  lemma TruncateFits(text: string, max: nat)
    requires max >= 3
    ensures Bytes(Truncate(text, max)) <= max
  {
    if Bytes(text) > max {
      BytesConcat(FrontOf(text, max - 3), "...");
      assert Bytes("...") == 3 by {
        assert "..."[1..] == "..";
        assert ".."[1..] == ".";
        assert "."[1..] == "";
      }
    }
  }

  lemma {:induction false} FrontLongest(text: string, max: nat)
    ensures var n := |FrontOf(text, max)|; n <= |text| && FrontOf(text, max) == text[..n]
    ensures |FrontOf(text, max)| < |text| ==> Bytes(text[..|FrontOf(text, max)| + 1]) > max
  {
    if text != "" {
      if CharBytes(text[0]) > max {
        assert text[..1] == [text[0]] && text[..1][1..] == "";
      } else {
        FrontLongest(text[1..], max - CharBytes(text[0]));
        var n := |FrontOf(text[1..], max - CharBytes(text[0]))|;
        if n < |text| - 1 {
          assert text[..n + 2][1..] == text[1..][..n + 1];
        }
      }
    }
  }

  /** A text that fits stays whole; of a longer one the longest front is kept that leaves room for three dots. */
  predicate CutTo(text: string, max: nat, shown: string) {
    if Bytes(text) <= max then shown == text
    else exists n :: 0 <= n < |text| && shown == text[..n] + "..." && Bytes(text[..n]) <= max - 3 < Bytes(text[..n + 1])
  }

  lemma TruncateExactly(text: string, max: nat)
    requires max >= 3
    ensures CutTo(text, max, Truncate(text, max))
  {
    hide CharBytes;
    if Bytes(text) > max {
      FrontLongest(text, max - 3);
      var n := |FrontOf(text, max - 3)|;
      if n == |text| {
        assert FrontOf(text, max - 3) == text;
        assert false;
      }
      assert Truncate(text, max) == text[..n] + "...";
    }
  }

  // ---- listing and store ------------------------------------------------------------------------------------

  datatype Remote = Remote(drive: string, item: string, name: string, path: string, webUrl: Option<string>,
                           size: Option<int>, etag: Option<string>, ctag: Option<string>, hash: Option<string>,
                           modifiedAt: Option<int>)

  datatype Key = Key(drive: string, item: string)

  /** The listing's columns of a tracked file; the database keeps an empty text as a missing one. */
  datatype Meta = Meta(name: Option<string>, path: Option<string>, webUrl: Option<string>, etag: Option<string>,
                       ctag: Option<string>, hash: Option<string>, size: Option<int>, modifiedAt: Option<int>)

  type Status = CrmStore.FileStatus

  const WAITING := Status.FilePending

  datatype Tracked = Tracked(listed: bool, meta: Meta, status: Status, attempts: nat)

  /** All files of one source, the deleted ones included. */
  type Store = map<Key, Tracked>

  function KeyOf(r: Remote): Key {
    Key(r.drive, r.item)
  }

  predicate ValidKey(key: Key) {
    key.drive != "" && key.item != "" && Bytes(key.drive) <= MAX_ITEM_ID_BYTES && Bytes(key.item) <= MAX_ITEM_ID_BYTES
  }

  function Given(text: Option<string>): (r: Option<string>)
    ensures r.Some? ==> r.value != ""
  {
    if text == Some("") then None else text
  }

  function Tag(text: Option<string>, max: nat): (r: Option<string>)
    ensures r.Some? <==> Given(text).Some?
    ensures r.Some? ==> r.value != ""
  {
    match Given(text)
    case None => None
    case Some(t) => Some(Truncate(t, max))
  }

  function Link(url: Option<string>): Option<string> {
    match Given(url)
    case None => None
    case Some(u) => if Bytes(u) <= MAX_URL_BYTES then Some(u) else None
  }

  const MICROS := 1_000_000

  function Second(at: Option<int>): Option<int> {
    match at
    case None => None
    case Some(t) => Some(t - t % MICROS)
  }

  /** `remote_columns`. */
  function MetaOf(r: Remote): Meta {
    Meta(Tag(Some(r.name), MAX_FILE_NAME_BYTES), Tag(Some(r.path), MAX_FILE_PATH_BYTES), Link(r.webUrl),
         Tag(r.etag, MAX_TAG_BYTES), Tag(r.ctag, MAX_TAG_BYTES), Tag(r.hash, MAX_HASH_BYTES), r.size, Second(r.modifiedAt))
  }

  // ---- comparing ----------------------------------------------------------------------------------------------

  predicate BothGiven(stored: Option<string>, current: Option<string>) {
    stored.Some? && Given(current).Some?
  }

  /** cTag first, then eTag, then hash, then size and modification time; nothing comparable counts as changed. */
  predicate ContentChanged(row: Tracked, r: Remote) {
    var m := row.meta;
    if BothGiven(m.ctag, r.ctag) then m.ctag != Tag(r.ctag, MAX_TAG_BYTES)
    else if BothGiven(m.etag, r.etag) then m.etag != Tag(r.etag, MAX_TAG_BYTES)
    else if BothGiven(m.hash, r.hash) then m.hash != Tag(r.hash, MAX_HASH_BYTES)
    else if m.size.Some? && r.size.Some? && m.modifiedAt.Some? && r.modifiedAt.Some? then
      m.size != r.size || Second(m.modifiedAt) != Second(r.modifiedAt)
    else true
  }

  predicate MetaDiffers(row: Tracked, r: Remote) {
    var m := row.meta;
    || m.name != Tag(Some(r.name), MAX_FILE_NAME_BYTES)
    || m.path != Tag(Some(r.path), MAX_FILE_PATH_BYTES)
    || m.webUrl != Link(r.webUrl)
    || m.etag != Tag(r.etag, MAX_TAG_BYTES)
    || m.size != r.size
    || Second(m.modifiedAt) != Second(r.modifiedAt)
  }

  /** The listing gives something to compare the file by. */
  predicate Comparable(r: Remote) {
    || Given(r.ctag).Some? || Given(r.etag).Some? || Given(r.hash).Some?
    || (r.size.Some? && r.modifiedAt.Some?)
  }

  /** A row that has the columns of a remote file differs from it only when nothing can be compared. */
  lemma SameMeta(row: Tracked, r: Remote)
    requires row.meta == MetaOf(r)
    ensures ContentChanged(row, r) <==> !Comparable(r)
    ensures !MetaDiffers(row, r)
  {
    hide Truncate;
    hide Bytes;
  }

  lemma UnchangedComparable(row: Tracked, r: Remote)
    requires !ContentChanged(row, r)
    ensures Comparable(r)
  {
    hide Truncate;
    hide Bytes;
  }

  // ---- the plan -------------------------------------------------------------------------------------------------

  datatype Kind = New | Changed | Retry | Unchanged

  datatype Plan = Plan(news: seq<Remote>, changed: seq<Remote>, retry: seq<Remote>, same: seq<Remote>,
                       renamed: seq<Remote>, deleted: set<Key>, seen: nat, ignored: nat)

  function KindOf(store: Store, r: Remote): Kind {
    if KeyOf(r) !in store || !store[KeyOf(r)].listed then New
    else if ContentChanged(store[KeyOf(r)], r) then Changed
    else if CrmStore.NeedsRetry(store[KeyOf(r)].status, store[KeyOf(r)].attempts) then Retry
    else Unchanged
  }

  predicate Renamed(store: Store, r: Remote) {
    KindOf(store, r) == Unchanged && MetaDiffers(store[KeyOf(r)], r)
  }

  function KeysOf(files: seq<Remote>): set<Key> {
    set r | r in files :: KeyOf(r)
  }

  /** The listed files that count: with a valid key, the first of each key, in order. */
  function Firsts(files: seq<Remote>): (firsts: seq<Remote>)
    ensures forall r :: r in firsts ==> ValidKey(KeyOf(r))
  {
    if files == [] then []
    else
      var before := Firsts(Front(files));
      if ValidKey(KeyOf(Last(files))) && KeyOf(Last(files)) !in KeysOf(before) then before + [Last(files)] else before
  }

  function Invalid(files: seq<Remote>): nat {
    if files == [] then 0 else Invalid(Front(files)) + (if ValidKey(KeyOf(Last(files))) then 0 else 1)
  }

  function OfKind(store: Store, files: seq<Remote>, kind: Kind): (picked: seq<Remote>)
    ensures forall r :: r in picked ==> r in files && KindOf(store, r) == kind
  {
    if files == [] then []
    else OfKind(store, Front(files), kind) + (if KindOf(store, Last(files)) == kind then [Last(files)] else [])
  }

  function RenamedOf(store: Store, files: seq<Remote>): (picked: seq<Remote>)
    ensures forall r :: r in picked ==> r in files && Renamed(store, r)
  {
    if files == [] then []
    else RenamedOf(store, Front(files)) + (if Renamed(store, Last(files)) then [Last(files)] else [])
  }

  function ActiveKeys(store: Store): set<Key> {
    set key | key in store && store[key].listed
  }

  function PlanOf(store: Store, files: seq<Remote>, complete: bool): Plan {
    var firsts := Firsts(files);
    Plan(OfKind(store, firsts, New), OfKind(store, firsts, Changed), OfKind(store, firsts, Retry),
         OfKind(store, firsts, Unchanged), RenamedOf(store, firsts),
         if complete then ActiveKeys(store) - KeysOf(firsts) else {}, |firsts|, Invalid(files))
  }

  method PlanSync(store: Store, files: seq<Remote>, complete: bool) returns (plan: Plan)
    ensures plan == PlanOf(store, files, complete)
  {
    hide ValidKey;
    hide KindOf;
    hide Renamed;
    var news: seq<Remote>, changed: seq<Remote>, retry: seq<Remote>, same: seq<Remote>, renamed: seq<Remote> := [], [], [], [], [];
    var seen: set<Key>, count, ignored := {}, 0, 0;
    for i := 0 to |files|
      invariant seen == KeysOf(Firsts(files[..i])) && count == |Firsts(files[..i])| && ignored == Invalid(files[..i])
      invariant news == OfKind(store, Firsts(files[..i]), New)
      invariant changed == OfKind(store, Firsts(files[..i]), Changed)
      invariant retry == OfKind(store, Firsts(files[..i]), Retry)
      invariant same == OfKind(store, Firsts(files[..i]), Unchanged)
      invariant renamed == RenamedOf(store, Firsts(files[..i]))
    {
      var remote := files[i];
      var key := KeyOf(remote);
      FirstsStep(files, i);
      if key in seen {
        continue;
      }
      if !ValidKey(key) {
        ignored := ignored + 1;
        continue;
      }
      PickStep(store, Firsts(files[..i]), remote);
      seen, count := seen + {key}, count + 1;
      match KindOf(store, remote) {
        case New => news := news + [remote];
        case Changed => changed := changed + [remote];
        case Retry => retry := retry + [remote];
        case Unchanged =>
          same := same + [remote];
      }
      if Renamed(store, remote) {
        renamed := renamed + [remote];
      }
    }
    assert files[..|files|] == files;
    plan := Plan(news, changed, retry, same, renamed, if complete then ActiveKeys(store) - seen else {}, count, ignored);
  }

  lemma FirstsStep(files: seq<Remote>, i: nat)
    requires i < |files|
    ensures var before, key := Firsts(files[..i]), KeyOf(files[i]);
      && Firsts(files[..i + 1]) == (if ValidKey(key) && key !in KeysOf(before) then before + [files[i]] else before)
      && Invalid(files[..i + 1]) == Invalid(files[..i]) + (if ValidKey(key) then 0 else 1)
      && (key in KeysOf(before) ==> ValidKey(key))
      && KeysOf(before + [files[i]]) == KeysOf(before) + {key}
  {
    hide ValidKey;
    assert Front(files[..i + 1]) == files[..i];
  }

  lemma PickStep(store: Store, files: seq<Remote>, r: Remote)
    ensures forall kind :: OfKind(store, files + [r], kind)
                           == OfKind(store, files, kind) + (if KindOf(store, r) == kind then [r] else [])
    ensures RenamedOf(store, files + [r]) == RenamedOf(store, files) + (if Renamed(store, r) then [r] else [])
  {
    hide KindOf;
    hide Renamed;
    assert Front(files + [r]) == files;
  }

  // ---- carrying it out ------------------------------------------------------------------------------------------

  /** `upsert_file`. */
  function Upserted(store: Store, r: Remote, resetAttempts: bool): Tracked {
    if KeyOf(r) !in store then Tracked(true, MetaOf(r), WAITING, 0)
    else Tracked(true, MetaOf(r), WAITING, if resetAttempts then 0 else store[KeyOf(r)].attempts)
  }

  function UpsertAll(store: Store, files: seq<Remote>, resetAttempts: bool): Store {
    if files == [] then store
    else
      var before := UpsertAll(store, Front(files), resetAttempts);
      before[KeyOf(Last(files)) := Upserted(before, Last(files), resetAttempts)]
  }

  /** `refresh_file_metadata`, for files that are still listed. */
  function RefreshAll(store: Store, files: seq<Remote>): Store {
    if files == [] then store
    else
      var before, key := RefreshAll(store, Front(files)), KeyOf(Last(files));
      if key in before && before[key].listed then before[key := before[key].(meta := MetaOf(Last(files)))] else before
  }

  function MarkDeleted(store: Store, keys: set<Key>): Store {
    map key | key in store :: if key in keys then store[key].(listed := false) else store[key]
  }

  /** Deletions, renames, then new, changed and retried files. */
  function Applied(store: Store, plan: Plan): Store {
    var s := RefreshAll(MarkDeleted(store, plan.deleted), plan.renamed);
    UpsertAll(UpsertAll(UpsertAll(s, plan.news, true), plan.changed, true), plan.retry, false)
  }

  method ApplyPlan(store: Store, plan: Plan) returns (after: Store)
    ensures after == Applied(store, plan)
  {
    after := MarkDeleted(store, plan.deleted);
    for i := 0 to |plan.renamed|
      invariant after == RefreshAll(MarkDeleted(store, plan.deleted), plan.renamed[..i])
    {
      assert Front(plan.renamed[..i + 1]) == plan.renamed[..i];
      var key := KeyOf(plan.renamed[i]);
      if key in after && after[key].listed {
        after := after[key := after[key].(meta := MetaOf(plan.renamed[i]))];
      }
    }
    assert plan.renamed[..|plan.renamed|] == plan.renamed;
    after := UpsertLoop(after, plan.news, true);
    after := UpsertLoop(after, plan.changed, true);
    after := UpsertLoop(after, plan.retry, false);
  }

  method UpsertLoop(store: Store, files: seq<Remote>, resetAttempts: bool) returns (after: Store)
    ensures after == UpsertAll(store, files, resetAttempts)
  {
    after := store;
    for i := 0 to |files|
      invariant after == UpsertAll(store, files[..i], resetAttempts)
    {
      assert Front(files[..i + 1]) == files[..i];
      after := after[KeyOf(files[i]) := Upserted(after, files[i], resetAttempts)];
    }
    assert files[..|files|] == files;
  }

  // ---- what it leaves, key by key -----------------------------------------------------------------------------

  predicate Distinct(files: seq<Remote>) {
    forall i, j :: 0 <= i < j < |files| ==> KeyOf(files[i]) != KeyOf(files[j])
  }

  lemma {:induction false} FirstsDistinct(files: seq<Remote>)
    ensures Distinct(Firsts(files))
  {
    hide ValidKey;
    if files != [] {
      FirstsDistinct(Front(files));
    }
  }

  lemma {:induction false} UpsertOther(store: Store, files: seq<Remote>, reset: bool, key: Key)
    requires key !in KeysOf(files)
    ensures key in UpsertAll(store, files, reset) <==> key in store
    ensures key in store ==> UpsertAll(store, files, reset)[key] == store[key]
  {
    if files != [] {
      assert KeyOf(Last(files)) in KeysOf(files);
      assert forall k :: k in KeysOf(Front(files)) ==> k in KeysOf(files);
      UpsertOther(store, Front(files), reset, key);
    }
  }

  lemma {:induction false} UpsertOne(store: Store, files: seq<Remote>, reset: bool, r: Remote)
    requires r in files && forall q :: q in files && KeyOf(q) == KeyOf(r) ==> q == r
    ensures KeyOf(r) in UpsertAll(store, files, reset)
    ensures UpsertAll(store, files, reset)[KeyOf(r)] == Upserted(store, r, reset)
  {
    hide MetaOf;
    if KeyOf(Last(files)) != KeyOf(r) {
      assert r in Front(files);
      UpsertOne(store, Front(files), reset, r);
    } else if r in Front(files) {
      UpsertOne(store, Front(files), reset, r);
    } else {
      OnlyOne(Front(files), files, r);
      UpsertOther(store, Front(files), reset, KeyOf(r));
    }
  }

  lemma {:induction false} RefreshOther(store: Store, files: seq<Remote>, key: Key)
    requires key !in KeysOf(files)
    ensures key in RefreshAll(store, files) <==> key in store
    ensures key in store ==> RefreshAll(store, files)[key] == store[key]
  {
    if files != [] {
      assert KeyOf(Last(files)) in KeysOf(files);
      assert forall k :: k in KeysOf(Front(files)) ==> k in KeysOf(files);
      RefreshOther(store, Front(files), key);
    }
  }

  lemma OnlyOne(some: seq<Remote>, files: seq<Remote>, r: Remote)
    requires forall q :: q in some ==> q in files
    requires r !in some && forall q :: q in files && KeyOf(q) == KeyOf(r) ==> q == r
    ensures KeyOf(r) !in KeysOf(some)
  {
  }

  lemma {:induction false} RefreshOne(store: Store, files: seq<Remote>, r: Remote)
    requires r in files && forall q :: q in files && KeyOf(q) == KeyOf(r) ==> q == r
    requires KeyOf(r) in store && store[KeyOf(r)].listed
    ensures KeyOf(r) in RefreshAll(store, files)
    ensures RefreshAll(store, files)[KeyOf(r)] == store[KeyOf(r)].(meta := MetaOf(r))
  {
    hide MetaOf;
    if KeyOf(Last(files)) != KeyOf(r) {
      assert r in Front(files);
      RefreshOne(store, Front(files), r);
    } else if r in Front(files) {
      RefreshOne(store, Front(files), r);
    } else {
      OnlyOne(Front(files), files, r);
      RefreshOther(store, Front(files), KeyOf(r));
    }
  }

  lemma {:induction false} OfKindAll(store: Store, files: seq<Remote>, kind: Kind, r: Remote)
    requires r in files && KindOf(store, r) == kind
    ensures r in OfKind(store, files, kind)
  {
    hide KindOf;
    if r != Last(files) {
      assert r in Front(files);
      OfKindAll(store, Front(files), kind, r);
    }
  }

  lemma {:induction false} RenamedAll(store: Store, files: seq<Remote>, r: Remote)
    requires r in files && Renamed(store, r)
    ensures r in RenamedOf(store, files)
  {
    hide Renamed;
    if r != Last(files) {
      assert r in Front(files);
      RenamedAll(store, Front(files), r);
    }
  }

  /** The row of a listed file, carried through one list of a plan. */
  lemma UpsertedRow(store: Store, files: seq<Remote>, base: Store, kind: Kind, reset: bool, r: Remote)
    requires Distinct(files) && r in files
    ensures var after := UpsertAll(base, OfKind(store, files, kind), reset);
      if KindOf(store, r) == kind
      then KeyOf(r) in after && after[KeyOf(r)] == Upserted(base, r, reset)
      else (KeyOf(r) in after <==> KeyOf(r) in base) && (KeyOf(r) in base ==> after[KeyOf(r)] == base[KeyOf(r)])
  {
    hide KindOf;
    hide MetaOf;
    SameFile(files, r);
    if KindOf(store, r) == kind {
      OfKindAll(store, files, kind, r);
      UpsertOne(base, OfKind(store, files, kind), reset, r);
    } else {
      OnlyOne(OfKind(store, files, kind), files, r);
      UpsertOther(base, OfKind(store, files, kind), reset, KeyOf(r));
    }
  }

  lemma SameFile(files: seq<Remote>, r: Remote)
    requires Distinct(files) && r in files
    ensures forall q :: q in files && KeyOf(q) == KeyOf(r) ==> q == r
  {
    forall q | q in files && KeyOf(q) == KeyOf(r) ensures q == r {
      var i :| 0 <= i < |files| && files[i] == q;
      var j :| 0 <= j < |files| && files[j] == r;
    }
  }

  /** What `KindOf` comes to, list by list. */
  lemma KindsListed(store: Store, files: seq<Remote>, complete: bool, r: Remote)
    requires r in Firsts(files)
    ensures var plan := PlanOf(store, files, complete);
      && (r in plan.news <==> KindOf(store, r) == New) && (r in plan.changed <==> KindOf(store, r) == Changed)
      && (r in plan.retry <==> KindOf(store, r) == Retry) && (r in plan.same <==> KindOf(store, r) == Unchanged)
      && (r in plan.renamed <==> Renamed(store, r))
  {
    hide KindOf;
    hide Renamed;
    hide Firsts;
    hide OfKind;
    hide RenamedOf;
    PickedExactly(store, Firsts(files), New, r);
    PickedExactly(store, Firsts(files), Changed, r);
    PickedExactly(store, Firsts(files), Retry, r);
    PickedExactly(store, Firsts(files), Unchanged, r);
    if Renamed(store, r) {
      RenamedAll(store, Firsts(files), r);
    }
  }

  predicate Both(stored: Option<string>, given: Option<string>) {
    stored.Some? && given.Some? && given.value != ""
  }

  predicate BothMeasured(m: Meta, r: Remote) {
    m.size.Some? && r.size.Some? && m.modifiedAt.Some? && r.modifiedAt.Some?
  }

  /** Where a listed file goes: not tracked, it is new.  Tracked, it is found changed by the first thing that both
      the row and the listing have, in this order: the cTag, the eTag, the hash, each cut to its column, or the size
      with the second of modification; and also when they have nothing in common. */
  lemma ChangedExactly(store: Store, files: seq<Remote>, complete: bool, r: Remote)
    requires r in Firsts(files)
    ensures var plan, key := PlanOf(store, files, complete), KeyOf(r);
      if key !in store || !store[key].listed then r in plan.news && r !in plan.changed
      else
        var m := store[key].meta;
        && r !in plan.news
        && (Both(m.ctag, r.ctag) ==> (r in plan.changed <==> m.ctag.value != Truncate(r.ctag.value, 512)))
        && (!Both(m.ctag, r.ctag) && Both(m.etag, r.etag) ==>
              (r in plan.changed <==> m.etag.value != Truncate(r.etag.value, 512)))
        && (!Both(m.ctag, r.ctag) && !Both(m.etag, r.etag) && Both(m.hash, r.hash) ==>
              (r in plan.changed <==> m.hash.value != Truncate(r.hash.value, 128)))
        && (!Both(m.ctag, r.ctag) && !Both(m.etag, r.etag) && !Both(m.hash, r.hash) && BothMeasured(m, r) ==>
              (r in plan.changed <==> m.size.value != r.size.value || !SameSecond(m.modifiedAt.value, r.modifiedAt.value)))
        && (!Both(m.ctag, r.ctag) && !Both(m.etag, r.etag) && !Both(m.hash, r.hash) && !BothMeasured(m, r) ==> r in plan.changed)
  {
    hide Truncate;
    hide Firsts;
    hide PlanOf;
    KindsListed(store, files, complete, r);
  }

  predicate SameSecond(a: int, b: int) {
    a / 1_000_000 == b / 1_000_000
  }

  /** A tracked file that is not found changed is tried again while it waits or, failed or interrupted, has been
      tried fewer than three times; else it is left alone, and listed as renamed when the row does not show what
      the listing says. */
  lemma UnchangedSorted(store: Store, files: seq<Remote>, complete: bool, r: Remote)
    requires r in Firsts(files)
    ensures var plan, key := PlanOf(store, files, complete), KeyOf(r);
      var tracked := key in store && store[key].listed && r !in plan.changed;
      && (r in plan.retry <==> tracked && TryAgain(store[key].status, store[key].attempts))
      && (r in plan.same <==> tracked && !TryAgain(store[key].status, store[key].attempts))
      && (r in plan.renamed <==> r in plan.same && !Shows(store[key].meta, r))
  {
    hide Truncate;
    hide ContentChanged;
    hide Firsts;
    hide PlanOf;
    KindsListed(store, files, complete, r);
  }

  predicate TryAgain(status: Status, attempts: nat) {
    match status
    case FilePending => true
    case FileProcessing => attempts < 3
    case FileFailed => attempts < 3
    case FileCompleted => false
  }

  function Cut(text: Option<string>, max: nat): Option<string> {
    if text.None? || text.value == "" then None else Some(Truncate(text.value, max))
  }

  /** The columns show the file as the listing has it, each text cut to its column, and a link only when it fits. */
  predicate Shows(m: Meta, r: Remote) {
    && m.name == Cut(Some(r.name), 1024) && m.path == Cut(Some(r.path), 4000) && m.etag == Cut(r.etag, 512)
    && m.webUrl == (if r.webUrl.None? || r.webUrl.value == "" || Bytes(r.webUrl.value) > 4000 then None else r.webUrl)
    && m.size == r.size
    && (m.modifiedAt.Some? <==> r.modifiedAt.Some?)
    && (m.modifiedAt.Some? && r.modifiedAt.Some? ==> SameSecond(m.modifiedAt.value, r.modifiedAt.value))
  }

  /** Every listed file that counts goes to exactly one of the four lists, in the order of the listing; what is
      tracked and not listed is deleted, by a complete listing only. */
  lemma PlanPartitions(store: Store, files: seq<Remote>, complete: bool, key: Key)
    ensures var plan := PlanOf(store, files, complete);
      && multiset(plan.news) + multiset(plan.changed) + multiset(plan.retry) + multiset(plan.same) == multiset(Firsts(files))
      && plan.seen == |Firsts(files)|
      && (key in plan.deleted <==> complete && key in store && store[key].listed && key !in KeysOf(Firsts(files)))
  {
    hide KindOf;
    hide Renamed;
    hide Firsts;
    KindsPartition(store, Firsts(files));
  }

  lemma {:induction false} KindsPartition(store: Store, files: seq<Remote>)
    ensures multiset(OfKind(store, files, New)) + multiset(OfKind(store, files, Changed))
            + multiset(OfKind(store, files, Retry)) + multiset(OfKind(store, files, Unchanged)) == multiset(files)
  {
    hide KindOf;
    if files != [] {
      KindsPartition(store, Front(files));
      FrontLast(files);
      assert multiset(files) == multiset(Front(files)) + multiset{Last(files)};
    }
  }

  lemma FirstAtFront(files: seq<Remote>, i: int)
    requires 0 <= i < |files| - 1
    ensures FirstAt(files, i) <==> FirstAt(Front(files), i)
    ensures files[i] == Front(files)[i]
  {
    hide ValidKey;
  }

  lemma FirstAtLast(files: seq<Remote>)
    requires files != []
    ensures FirstAt(files, |files| - 1) <==> ValidKey(KeyOf(Last(files))) && KeyOf(Last(files)) !in KeysOf(Front(files))
  {
    hide ValidKey;
    var front, key := Front(files), KeyOf(Last(files));
    if key in KeysOf(front) {
      var r :| r in front && KeyOf(r) == key;
      var j :| 0 <= j < |front| && front[j] == r;
      assert KeyOf(files[j]) == key;
    } else {
      forall j | 0 <= j < |front|
        ensures KeyOf(files[j]) != key
      {
        assert front[j] in front && KeyOf(front[j]) in KeysOf(front);
      }
    }
  }

  /** A listed file counts when its key is valid and no earlier one has it. */
  lemma {:induction false} FirstsExactly(files: seq<Remote>, r: Remote)
    ensures r in Firsts(files) <==> exists i :: FirstAt(files, i) && files[i] == r
  {
    hide ValidKey;
    hide FirstAt;
    hide KeysOf;
    if files == [] {
      NoneFirst(r);
    } else {
      var front, n := Front(files), |files| - 1;
      FirstsExactly(front, r);
      FirstsKeys(front, KeyOf(Last(files)));
      FirstAtLast(files);
      forall i | 0 <= i < n
        ensures FirstAt(files, i) <==> FirstAt(front, i)
        ensures files[i] == front[i]
      {
        FirstAtFront(files, i);
      }
      FirstAtInside(files);
      FirstAtInside(front);
      if r in Firsts(front) {
        var i :| FirstAt(front, i) && front[i] == r;
        assert FirstAt(files, i) && files[i] == r;
      }
    }
  }

  lemma FirstAtInside(files: seq<Remote>)
    ensures forall i :: FirstAt(files, i) ==> 0 <= i < |files|
  {
  }

  lemma NoneFirst(r: Remote)
    ensures r !in Firsts([])
    ensures forall i :: !FirstAt([], i)
  {
  }

  /** The first file of a valid key. */
  predicate FirstAt(files: seq<Remote>, i: int) {
    0 <= i < |files| && ValidKey(KeyOf(files[i])) && forall j :: 0 <= j < i ==> KeyOf(files[j]) != KeyOf(files[i])
  }

  /** A listed file after a sync: to be processed with the listing's columns, on a new retry budget unless it
      is a plain retry; or, unchanged, with those columns only when it was renamed, and otherwise as it was. */
  lemma AfterListed(store: Store, files: seq<Remote>, complete: bool, r: Remote)
    requires r in Firsts(files)
    ensures var plan, key := PlanOf(store, files, complete), KeyOf(r);
      var after := Applied(store, plan);
      && key in after && after[key].listed
      && (r in plan.news || r in plan.changed ==> after[key] == Tracked(true, MetaOf(r), WAITING, 0))
      && (r in plan.retry ==> key in store && after[key] == Tracked(true, MetaOf(r), WAITING, store[key].attempts))
      && (r in plan.same ==> key in store && after[key] == if r in plan.renamed then store[key].(meta := MetaOf(r)) else store[key])
      && (r in plan.news || r in plan.changed || r in plan.retry || r in plan.same)
  {
    hide MetaOf;
    hide MetaDiffers;
    hide ContentChanged;
    hide UpsertAll;
    hide RefreshAll;
    hide OfKind;
    hide RenamedOf;
    hide Firsts;
    KindsListed(store, files, complete, r);
    var firsts, plan := Firsts(files), PlanOf(store, files, complete);
    var s0 := MarkDeleted(store, plan.deleted);
    var s1 := RefreshAll(s0, plan.renamed);
    var s2 := UpsertAll(s1, plan.news, true);
    var s3 := UpsertAll(s2, plan.changed, true);
    FirstsDistinct(files);
    SameFile(firsts, r);
    if Renamed(store, r) {
      RefreshOne(s0, plan.renamed, r);
    } else {
      OnlyOne(plan.renamed, firsts, r);
      RefreshOther(s0, plan.renamed, KeyOf(r));
    }
    UpsertedRow(store, firsts, s1, New, true, r);
    UpsertedRow(store, firsts, s2, Changed, true, r);
    UpsertedRow(store, firsts, s3, Retry, false, r);
  }

  lemma AfterUnlisted(store: Store, files: seq<Remote>, complete: bool, key: Key)
    requires key !in KeysOf(Firsts(files))
    ensures var after := Applied(store, PlanOf(store, files, complete));
      && (key in after <==> key in store)
      && (key in store ==> after[key] == if complete then store[key].(listed := false) else store[key])
  {
    hide OfKind;
    hide RenamedOf;
    hide Firsts;
    hide UpsertAll;
    hide RefreshAll;
    var firsts, plan := Firsts(files), PlanOf(store, files, complete);
    var s0 := MarkDeleted(store, plan.deleted);
    var s1 := RefreshAll(s0, plan.renamed);
    var s2 := UpsertAll(s1, plan.news, true);
    var s3 := UpsertAll(s2, plan.changed, true);
    NotIn(plan.renamed, firsts, key);
    NotIn(plan.news, firsts, key);
    NotIn(plan.changed, firsts, key);
    NotIn(plan.retry, firsts, key);
    RefreshOther(s0, plan.renamed, key);
    UpsertOther(s1, plan.news, true, key);
    UpsertOther(s2, plan.changed, true, key);
    UpsertOther(s3, plan.retry, false, key);
  }

  lemma NotIn(some: seq<Remote>, files: seq<Remote>, key: Key)
    requires key !in KeysOf(files) && forall q :: q in some ==> q in files
    ensures key !in KeysOf(some)
  {
  }

  lemma MetaShows(r: Remote)
    ensures Shows(MetaOf(r), r)
    ensures MetaOf(r).ctag == Cut(r.ctag, 512) && MetaOf(r).hash == Cut(r.hash, 128)
  {
    hide Truncate;
    hide Bytes;
  }

  /** After a sync every listed file shows what the listing says of it, whatever the plan made of it. */
  lemma ShownCurrent(store: Store, files: seq<Remote>, complete: bool, r: Remote)
    requires r in Firsts(files)
    ensures var after := Applied(store, PlanOf(store, files, complete));
      KeyOf(r) in after && Shows(after[KeyOf(r)].meta, r)
  {
    hide Shows;
    hide MetaOf;
    hide ContentChanged;
    hide Applied;
    hide PlanOf;
    hide Firsts;
    AfterListed(store, files, complete, r);
    UnchangedSorted(store, files, complete, r);
    MetaShows(r);
  }

  // ---- edits ------------------------------------------------------------------------------------------------------

  /** An edit is found: a file listed and then listed again with another cTag is in the second plan's changed files,
      and after the second sync waits on a new retry budget with the new cTag, provided the first sync left a cTag
      in the row.  It left none exactly when the row had none and the plan found the file unchanged by something
      else, and not renamed. */
  lemma EditFound(store: Store, files: seq<Remote>, complete: bool, later: Store, files2: seq<Remote>, complete2: bool,
                  r: Remote, r2: Remote)
    requires r in Firsts(files) && r2 in Firsts(files2) && KeyOf(r) == KeyOf(r2)
    requires SameListing(Applied(store, PlanOf(store, files, complete)), later)
    requires Cut(r.ctag, 512).Some? && Cut(r2.ctag, 512).Some? && Cut(r.ctag, 512) != Cut(r2.ctag, 512)
    ensures var plan, plan2 := PlanOf(store, files, complete), PlanOf(later, files2, complete2);
      var key, after2 := KeyOf(r), Applied(later, plan2);
      && key in later
      && (later[key].meta.ctag.None? <==>
            r in plan.same && r !in plan.renamed && key in store && store[key].meta.ctag.None?)
      && (later[key].meta.ctag.Some? ==>
            && r2 in plan2.changed && key in after2 && after2[key].status == WAITING && after2[key].attempts == 0
            && after2[key].meta.ctag == Cut(r2.ctag, 512))
  {
    hide Truncate;
    hide MetaOf;
    hide Shows;
    hide Applied;
    hide PlanOf;
    hide Firsts;
    hide Bytes;
    AfterListed(store, files, complete, r);
    ChangedExactly(store, files, complete, r);
    UnchangedSorted(store, files, complete, r);
    MetaShows(r);
    MetaShows(r2);
    ChangedExactly(later, files2, complete2, r2);
    AfterListed(later, files2, complete2, r2);
  }

  function Sample(ctag: string): Remote {
    Remote("d", "i", "n", "/n", None, Some(1), Some("e"), Some(ctag), None, Some(0))
  }

  /** The row of that file as it was stored when listings still came without a cTag. */
  function WithoutCTag(): Tracked {
    Tracked(true, MetaOf(Sample("v1")).(ctag := None), CrmStore.FileStatus.FileCompleted, 1)
  }

  lemma SampleListed(ctag: string)
    ensures Firsts([Sample(ctag)]) == [Sample(ctag)]
  {
    assert Front([Sample(ctag)]) == [];
    assert Bytes("d") == 1 && Bytes("i") == 1 by {
      assert "d"[1..] == "" && "i"[1..] == "";
    }
  }

  /** An edit that is missed: the row has no cTag, the eTag is the same in both listings, and so the second cTag is
      not found to differ from the first. */
  lemma EditMissed()
    ensures var store := map[Key("d", "i") := WithoutCTag()];
      var after := Applied(store, PlanOf(store, [Sample("v1")], true));
      && Cut(Sample("v1").ctag, 512) != Cut(Sample("v2").ctag, 512)
      && Firsts([Sample("v2")]) == [Sample("v2")]
      && Sample("v2") !in PlanOf(after, [Sample("v2")], true).changed
  {
    hide Applied;
    hide PlanOf;
    hide Firsts;
    hide Truncate;
    hide Bytes;
    var store := map[Key("d", "i") := WithoutCTag()];
    var r, r2 := Sample("v1"), Sample("v2");
    SampleListed("v1");
    SampleListed("v2");
    ShortTags();
    MetaShows(r);
    AfterListed(store, [r], true, r);
    ChangedExactly(store, [r], true, r);
    UnchangedSorted(store, [r], true, r);
    ChangedExactly(Applied(store, PlanOf(store, [r], true)), [r2], true, r2);
  }

  lemma ShortTags()
    ensures Truncate("v1", 512) == "v1" && Truncate("v2", 512) == "v2" && Truncate("e", 512) == "e"
  {
    assert "v1"[1..] == "1" && "v2"[1..] == "2" && "1"[1..] == "" && "2"[1..] == "" && "e"[1..] == "";
    assert Bytes("1") == 1 && Bytes("2") == 1;
    assert Bytes("v1") == 2 && Bytes("v2") == 2 && Bytes("e") == 1;
  }

  // ---- convergence ------------------------------------------------------------------------------------------------

  /** Carrying out the plan of a complete listing tracks exactly the listed valid keys; a partial listing only
      adds. */
  lemma Converges(store: Store, files: seq<Remote>, complete: bool)
    ensures var after := Applied(store, PlanOf(store, files, complete));
      ActiveKeys(after) == if complete then KeysOf(Firsts(files)) else ActiveKeys(store) + KeysOf(Firsts(files))
  {
    hide Applied;
    hide PlanOf;
    hide Firsts;
    var firsts, after := Firsts(files), Applied(store, PlanOf(store, files, complete));
    forall key
      ensures key in ActiveKeys(after) <==> key in KeysOf(firsts) || (!complete && key in ActiveKeys(store))
    {
      if key in KeysOf(firsts) {
        var r :| r in firsts && KeyOf(r) == key;
        AfterListed(store, files, complete, r);
      } else {
        AfterUnlisted(store, files, complete, key);
      }
    }
  }

  /** The valid keys of a listing are those of its files. */
  lemma {:induction false} FirstsKeys(files: seq<Remote>, key: Key)
    ensures key in KeysOf(Firsts(files)) <==> ValidKey(key) && key in KeysOf(files)
  {
    hide ValidKey;
    if files != [] {
      FirstsKeys(Front(files), key);
      FirstsStep(files, |files| - 1);
      assert files[..|files| - 1 + 1] == files;
      assert files == Front(files) + [Last(files)];
      assert KeysOf(files) == KeysOf(Front(files)) + {KeyOf(Last(files))};
    }
  }

  /** The same files with the same columns, whatever their processing has come to since. */
  predicate SameListing(a: Store, b: Store) {
    a.Keys == b.Keys && forall key :: key in a ==> b[key].listed == a[key].listed && b[key].meta == a[key].meta
  }

  function Incomparable(files: seq<Remote>): seq<Remote> {
    if files == [] then []
    else Incomparable(Front(files)) + (if Comparable(Last(files)) then [] else [Last(files)])
  }

  /** One listed file, planned again. */
  lemma AgainOne(store: Store, files: seq<Remote>, complete: bool, later: Store, r: Remote)
    requires r in Firsts(files) && SameListing(Applied(store, PlanOf(store, files, complete)), later)
    ensures KindOf(later, r) != New
    ensures KindOf(later, r) == Changed <==> !Comparable(r)
    ensures !Renamed(later, r)
  {
    hide MetaOf;
    hide MetaDiffers;
    hide ContentChanged;
    hide Comparable;
    hide Applied;
    hide PlanOf;
    hide Firsts;
    KindsListed(store, files, complete, r);
    AfterListed(store, files, complete, r);
    var row := later[KeyOf(r)];
    if row.meta == MetaOf(r) {
      SameMeta(row, r);
    } else {
      UnchangedComparable(store[KeyOf(r)], r);
      SameColumns(store[KeyOf(r)], row, r);
    }
  }

  /** Comparing reads the columns only. */
  lemma SameColumns(a: Tracked, b: Tracked, r: Remote)
    requires a.meta == b.meta
    ensures ContentChanged(a, r) == ContentChanged(b, r) && MetaDiffers(a, r) == MetaDiffers(b, r)
  {
    hide Truncate;
    hide Bytes;
  }

  lemma {:induction false} AgainAll(later: Store, files: seq<Remote>)
    requires forall r :: r in files ==> KindOf(later, r) != New && !Renamed(later, r)
                                        && (KindOf(later, r) == Changed <==> !Comparable(r))
    ensures OfKind(later, files, New) == [] && RenamedOf(later, files) == []
    ensures OfKind(later, files, Changed) == Incomparable(files)
  {
    hide KindOf;
    hide Renamed;
    hide Comparable;
    if files != [] {
      AgainAll(later, Front(files));
    }
  }

  /** Planning again on the same listing, after any amount of processing, finds nothing new, deleted or
      renamed, and changed exactly the files the listing gives nothing to compare by. */
  lemma Fixpoint(store: Store, files: seq<Remote>, complete: bool, later: Store)
    requires SameListing(Applied(store, PlanOf(store, files, complete)), later)
    ensures var again := PlanOf(later, files, complete);
      again.news == [] && again.renamed == [] && again.deleted == {} && again.changed == Incomparable(Firsts(files))
  {
    hide KindOf;
    hide Renamed;
    hide Comparable;
    hide Applied;
    hide Firsts;
    forall r | r in Firsts(files)
      ensures KindOf(later, r) != New && !Renamed(later, r) && (KindOf(later, r) == Changed <==> !Comparable(r))
    {
      AgainOne(store, files, complete, later, r);
    }
    AgainAll(later, Firsts(files));
    Converges(store, files, complete);
    assert ActiveKeys(later) == ActiveKeys(Applied(store, PlanOf(store, files, complete)));
  }

  // ---- the same updates in the store -----------------------------------------------------------------------------

  /** A file of the store with the columns of its listing. */
  function TrackedAs(file: CrmStore.File, meta: Meta): Tracked {
    Tracked(file.listed, meta, file.status, file.attempts)
  }

  /** What a plan's upserts and deletions do to a file is what the store's transactions do to its row. */
  lemma UpsertsAgree(store: Store, r: Remote, file: Option<CrmStore.File>, source: nat, key: string, run: nat, reset: bool)
    requires file.Some? <==> KeyOf(r) in store
    requires file.Some? ==> store[KeyOf(r)] == TrackedAs(file.value, store[KeyOf(r)].meta)
    ensures Upserted(store, r, reset)
            == TrackedAs(if file.Some? then CrmStore.Rearmed(file.value, reset) else CrmStore.Inserted(source, key, run), MetaOf(r))
    ensures file.Some? ==> MarkDeleted(store, {KeyOf(r)})[KeyOf(r)]
                           == TrackedAs(file.value.(listed := false), store[KeyOf(r)].meta)
  {
    hide MetaOf;
  }

  /** The driver of one file goes where the plan sends it, for listed files and for missing ones. */
  lemma DriverFollowsPlan(store: Store, files: seq<Remote>, complete: bool, key: Key, file: Option<CrmStore.File>)
    requires file.Some? <==> key in store
    requires file.Some? ==> store[key] == TrackedAs(file.value, store[key].meta)
    ensures var plan := PlanOf(store, files, complete);
      && (forall r :: r in Firsts(files) && KeyOf(r) == key ==>
            var changed := key in store && ContentChanged(store[key], r);
            CrmFiles.Planned(file, CrmFiles.Listed(changed))
            == if r in plan.news || r in plan.changed then CrmFiles.ToUpsert(true)
               else if r in plan.retry then CrmFiles.ToUpsert(false)
               else CrmFiles.Passed)
      && (key !in KeysOf(Firsts(files)) ==>
            CrmFiles.Planned(file, if complete then CrmFiles.Missing else CrmFiles.NotListed)
            == if key in plan.deleted then CrmFiles.ToDelete else CrmFiles.Passed)
  {
    hide ContentChanged;
    hide Firsts;
    hide OfKind;
    hide RenamedOf;
    forall r | r in Firsts(files) && KeyOf(r) == key
      ensures r in OfKind(store, Firsts(files), New) <==> KindOf(store, r) == New
      ensures r in OfKind(store, Firsts(files), Changed) <==> KindOf(store, r) == Changed
      ensures r in OfKind(store, Firsts(files), Retry) <==> KindOf(store, r) == Retry
    {
      PickedExactly(store, Firsts(files), New, r);
      PickedExactly(store, Firsts(files), Changed, r);
      PickedExactly(store, Firsts(files), Retry, r);
    }
  }

  lemma PickedExactly(store: Store, files: seq<Remote>, kind: Kind, r: Remote)
    requires r in files
    ensures r in OfKind(store, files, kind) <==> KindOf(store, r) == kind
  {
    hide KindOf;
    if KindOf(store, r) == kind {
      OfKindAll(store, files, kind, r);
    }
  }
}
