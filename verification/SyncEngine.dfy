/**
 Last-write-wins sync of vault rows through a directory backend: pull what is
 newer, push everything shared, remember the backend's revision as cursor.
 */
module SyncEngine {
  import opened Common

  type Id = nat

  /** One stored version of a vault row. `payload` is kind, tombstone flag and ciphertext together. */
  datatype Item = Item(version: nat, updatedAt: int, payload: seq<byte>)

  /** A row of a device's vault. */
  datatype Row = Row(item: Item, localOnly: bool)

  type Items = map<Id, Item>
  type Rows = map<Id, Row>

  datatype Backend = Backend(items: Items, revision: nat)

  datatype Device = Device(rows: Rows, cursor: nat)

  // ---------- conflict resolution ----------

  predicate Wins(incoming: Item, other: Item) {
    if incoming.version != other.version then incoming.version > other.version
    else incoming.updatedAt > other.updatedAt
  }

  predicate SameStamp(a: Item, b: Item) {
    a.version == b.version && a.updatedAt == b.updatedAt
  }

  /** The stamps are totally ordered; items with equal stamps never replace each other. */
  lemma WinsIsStrictOrder(a: Item, b: Item, c: Item)
    ensures !Wins(a, a) && !(Wins(a, b) && Wins(b, a))
    ensures Wins(a, b) && Wins(b, c) ==> Wins(a, c)
    ensures !Wins(a, b) && !Wins(b, a) <==> SameStamp(a, b)
    ensures !Wins(a, b) && !Wins(b, c) ==> !Wins(a, c)
  {}

  // ---------- one device, one backend ----------

  /** The row after an incoming item was considered. */
  function Considered(row: Option<Row>, item: Item): Row {
    if row.None? then Row(item, false)
    else if !row.value.localOnly && Wins(item, row.value.item) then Row(item, false)
    else row.value
  }

  function Lookup<V>(m: map<Id, V>, id: Id): Option<V> {
    if id in m then Some(m[id]) else None
  }

  function ApplyAll(rows: Rows, items: Items): Rows {
    map id | id in rows.Keys + items.Keys ::
      if id in items then Considered(Lookup(rows, id), items[id]) else rows[id]
  }

  /** Everything a device shares, tombstones included. */
  function Outgoing(rows: Rows): Items {
    map id | id in rows && !rows[id].localOnly :: rows[id].item
  }

  function Accepted(items: Items, incoming: Items): Items {
    map id | id in items.Keys + incoming.Keys ::
      if id in incoming && (id !in items || Wins(incoming[id], items[id])) then incoming[id] else items[id]
  }

  function Bump(revision: nat): nat {
    if revision < U64_MAX then revision + 1 else revision
  }

  function Push(b: Backend, incoming: Items): Backend {
    var items := Accepted(b.items, incoming);
    Backend(items, if items != b.items then Bump(b.revision) else b.revision)
  }

  /** A backend without per-row revisions: all or nothing. */
  function Pull(b: Backend, since: nat): Items {
    if since >= b.revision then map[] else b.items
  }

  function Max(a: nat, b: nat): nat {
    if a < b then b else a
  }

  /** The second half of a sync, after `pulled` arrived with `revision`. */
  function FinishSync(d: Device, pulled: Items, revision: nat, b: Backend): (Device, Backend) {
    var rows := ApplyAll(d.rows, pulled);
    var after := Push(b, Outgoing(rows));
    (Device(rows, Max(after.revision, revision)), after)
  }

  function SyncNow(d: Device, b: Backend): (Device, Backend) {
    FinishSync(d, Pull(b, d.cursor), b.revision, b)
  }

  // ---------- loops over rows ----------

  function ToMap(pairs: seq<(Id, Item)>): Items {
    if pairs == [] then map[] else ToMap(pairs[..|pairs| - 1])[pairs[|pairs| - 1].0 := pairs[|pairs| - 1].1]
  }

  ghost predicate DistinctIds(pairs: seq<(Id, Item)>) {
    forall i, j :: 0 <= i < j < |pairs| ==> pairs[i].0 != pairs[j].0
  }

  lemma {:induction false} ToMapKeys(pairs: seq<(Id, Item)>)
    ensures forall id :: id in ToMap(pairs) <==> exists i :: 0 <= i < |pairs| && pairs[i].0 == id
  {
    if pairs != [] {
      var n := |pairs| - 1;
      ToMapKeys(pairs[..n]);
      forall id ensures id in ToMap(pairs) <==> exists i :: 0 <= i < |pairs| && pairs[i].0 == id {
        if id in ToMap(pairs[..n]) {
          var i :| 0 <= i < n && pairs[..n][i].0 == id;
          assert pairs[i].0 == id;
        }
        if i :| 0 <= i < |pairs| && pairs[i].0 == id {
          assert i < n ==> pairs[..n][i].0 == id;
        }
        assert pairs[n].0 == pairs[n].0;
      }
    }
  }

  lemma ApplyOne(rows: Rows, items: Items, id: Id, item: Item)
    requires id !in items
    ensures var after := ApplyAll(rows, items);
            && Lookup(after, id) == Lookup(rows, id)
            && ApplyAll(rows, items[id := item]) == after[id := Considered(Lookup(rows, id), item)]
  {}

  lemma AcceptOne(items: Items, incoming: Items, id: Id, item: Item)
    requires id !in incoming
    ensures var after := Accepted(items, incoming);
            && Lookup(after, id) == Lookup(items, id)
            && Accepted(items, incoming[id := item])
               == (if id !in items || Wins(item, items[id]) then after[id := item] else after)
  {}

  lemma FreshId(pairs: seq<(Id, Item)>, i: nat)
    requires DistinctIds(pairs) && i < |pairs|
    ensures pairs[i].0 !in ToMap(pairs[..i])
    ensures ToMap(pairs[..i + 1]) == ToMap(pairs[..i])[pairs[i].0 := pairs[i].1]
  {
    assert pairs[..i + 1][..i] == pairs[..i];
    ToMapKeys(pairs[..i]);
    hide ToMap;
    assert forall j :: 0 <= j < i ==> pairs[..i][j].0 == pairs[j].0;
  }

  /** The apply loop: in whatever order the backend lists its rows, the result is the same. */
  method ApplyPulled(rows: Rows, pulled: seq<(Id, Item)>) returns (after: Rows)
    requires DistinctIds(pulled)
    ensures after == ApplyAll(rows, ToMap(pulled))
  {
    after := rows;
    for i := 0 to |pulled|
      invariant after == ApplyAll(rows, ToMap(pulled[..i]))
    {
      var (id, item) := pulled[i];
      FreshId(pulled, i);
      ApplyOne(rows, ToMap(pulled[..i]), id, item);
      hide ApplyAll, ToMap;
      var local := Lookup(after, id);
      var shouldApply := match local case Some(row) => !row.localOnly && Wins(item, row.item) case None => true;
      if shouldApply {
        after := after[id := Row(item, false)];
      }
    }
    assert pulled[..|pulled|] == pulled;
  }

  /** The backend's push loop, with the revision bumped once if anything was written. */
  method PushItems(b: Backend, incoming: seq<(Id, Item)>) returns (after: Backend)
    requires DistinctIds(incoming)
    ensures after == Push(b, ToMap(incoming))
  {
    var items, changed := b.items, false;
    for i := 0 to |incoming|
      invariant items == Accepted(b.items, ToMap(incoming[..i]))
      invariant changed <==> items != b.items
    {
      var (id, item) := incoming[i];
      FreshId(incoming, i);
      AcceptOne(b.items, ToMap(incoming[..i]), id, item);
      hide Accepted, ToMap;
      if id !in items || Wins(item, items[id]) {
        items := items[id := item];
        changed := true;
        assert Lookup(items, id) != Lookup(b.items, id);
      }
    }
    assert incoming[..|incoming|] == incoming;
    var revision := b.revision;
    if changed {
      revision := if revision < U64_MAX then revision + 1 else revision;
    }
    after := Backend(items, revision);
  }

  // ---------- what a sync establishes ----------

  /** No shared row of the device beats the backend. */
  ghost predicate Dominates(items: Items, rows: Rows) {
    forall id :: id in rows && !rows[id].localOnly ==> id in items && !Wins(rows[id].item, items[id])
  }

  /** The device has seen everything on the backend. */
  ghost predicate Covers(rows: Rows, items: Items) {
    forall id :: id in items ==> id in rows && (rows[id].localOnly || !Wins(items[id], rows[id].item))
  }

  /** A device that would pull nothing misses nothing. */
  ghost predicate CursorOk(d: Device, b: Backend) {
    d.cursor <= b.revision && (d.cursor == b.revision ==> Covers(d.rows, b.items))
  }

  ghost predicate NotBelow(items: Items, after: Items) {
    forall id :: id in items ==> id in after && (after[id] == items[id] || Wins(after[id], items[id]))
  }

  /** The backend at two moments: rows only improve, and every change is visible in the revision. */
  ghost predicate Older(b0: Backend, b1: Backend) {
    && b0.revision <= b1.revision && NotBelow(b0.items, b1.items)
    && (b0.revision == b1.revision ==> b0 == b1)
  }

  lemma OlderChain(b0: Backend, b1: Backend, b2: Backend)
    requires Older(b0, b1) && Older(b1, b2)
    ensures Older(b0, b2)
  {
    forall id | id in b0.items
      ensures id in b2.items && (b2.items[id] == b0.items[id] || Wins(b2.items[id], b0.items[id]))
    {
      assert id in b1.items;
    }
  }

  lemma PushFacts(b: Backend, rows: Rows)
    ensures var after := Push(b, Outgoing(rows));
            && Dominates(after.items, rows) && NotBelow(b.items, after.items)
            && (Covers(rows, b.items) ==> Covers(rows, after.items))
            && (Dominates(b.items, rows) ==> after == b)
  {
    if Dominates(b.items, rows) {
      assert Accepted(b.items, Outgoing(rows)) == b.items;
    }
  }

  lemma PullDominated(d: Device, b0: Backend, b1: Backend)
    requires NotBelow(b0.items, b1.items) && Dominates(b1.items, d.rows)
    ensures Dominates(b1.items, ApplyAll(d.rows, Pull(b0, d.cursor)))
  {}

  /**
   Whatever the cursor says and whoever wrote since the pull: after a sync the
   backend beats or equals the device, has only improved, and was written to
   only if the device had something better.
   */
  lemma FinishFacts(d: Device, b0: Backend, b1: Backend)
    requires Older(b0, b1) && b1.revision < U64_MAX
    ensures var (d', b') := FinishSync(d, Pull(b0, d.cursor), b0.revision, b1);
            && Dominates(b'.items, d'.rows) && Older(b1, b') && b'.revision <= b1.revision + 1
            && d'.cursor == b'.revision
            && (Dominates(b1.items, d.rows) ==> b' == b1)
  {
    hide Dominates, Covers, NotBelow, ApplyAll, Accepted;
    var rows := ApplyAll(d.rows, Pull(b0, d.cursor));
    PushFacts(b1, rows);
    if Dominates(b1.items, d.rows) { PullDominated(d, b0, b1); }
  }

  /** The device needs nothing of what changed on the backend. */
  ghost predicate Indifferent(d: Device, b0: Backend, b1: Backend) {
    forall id :: id in b1.items && Lookup(b0.items, id) != Lookup(b1.items, id) ==>
      id in d.rows && (d.rows[id].localOnly || !Wins(b1.items[id], d.rows[id].item))
  }

  /** After the pull the device covers the later backend exactly if it needs nothing of what changed. */
  lemma PulledCoversIff(d: Device, b0: Backend, b1: Backend)
    requires CursorOk(d, b0) && NotBelow(b0.items, b1.items)
    ensures Covers(ApplyAll(d.rows, Pull(b0, d.cursor)), b1.items) <==> Indifferent(d, b0, b1)
  {
    var rows := ApplyAll(d.rows, Pull(b0, d.cursor));
    forall id | id in b1.items
      ensures id in rows && (rows[id].localOnly || !Wins(b1.items[id], rows[id].item)) <==>
        (Lookup(b0.items, id) == Lookup(b1.items, id)
         || (id in d.rows && (d.rows[id].localOnly || !Wins(b1.items[id], d.rows[id].item))))
    {}
  }

  lemma PushCoversIff(b: Backend, rows: Rows)
    ensures Covers(rows, Push(b, Outgoing(rows)).items) <==> Covers(rows, b.items)
  {
    var after := Push(b, Outgoing(rows));
    if Covers(rows, after.items) {
      forall id | id in b.items ensures id in rows && (rows[id].localOnly || !Wins(b.items[id], rows[id].item)) {
        assert id in after.items;
      }
    }
    if Covers(rows, b.items) {
      forall id | id in after.items ensures id in rows && (rows[id].localOnly || !Wins(after.items[id], rows[id].item)) {
        if id !in Outgoing(rows) { assert id in b.items; }
      }
    }
  }

  /**
   A sync whose push comes after other devices' writes ends with an honest
   cursor if and only if those writes left nothing the device needed before it
   pulled; in particular if nobody wrote in between.
   */
  lemma SplitSyncHonestIff(d: Device, b0: Backend, b1: Backend)
    requires CursorOk(d, b0) && Older(b0, b1)
    ensures var (d', b') := FinishSync(d, Pull(b0, d.cursor), b0.revision, b1);
            && d'.cursor == b'.revision
            && (CursorOk(d', b') <==> Indifferent(d, b0, b1))
            && (b1.items == b0.items ==> CursorOk(d', b'))
  {
    hide Covers, NotBelow, ApplyAll, Accepted;
    PulledCoversIff(d, b0, b1);
    PushCoversIff(b1, ApplyAll(d.rows, Pull(b0, d.cursor)));
  }

  lemma OlderSelf(b: Backend)
    ensures Older(b, b)
  {}

  /** After an undisturbed sync the device has seen everything, beats nothing, and its cursor is honest. */
  lemma SyncFacts(d: Device, b: Backend)
    requires CursorOk(d, b) && b.revision < U64_MAX
    ensures var (d', b') := SyncNow(d, b);
            Dominates(b'.items, d'.rows) && Covers(d'.rows, b'.items) && CursorOk(d', b')
  {
    hide Dominates, Covers, NotBelow, ApplyAll, Accepted;
    OlderSelf(b);
    FinishFacts(d, b, b);
    SplitSyncHonestIff(d, b, b);
  }

  lemma DominatesGrows(items: Items, after: Items, rows: Rows)
    requires Dominates(items, rows) && NotBelow(items, after)
    ensures Dominates(after, rows)
  {}

  /** A dishonest cursor is not repaired by syncing: nothing is pulled, and pushing does not help. */
  lemma DishonestStays(d: Device, b: Backend)
    requires d.cursor <= b.revision && !CursorOk(d, b)
    ensures var (d', b') := SyncNow(d, b); !CursorOk(d', b')
  {
    hide Covers, Accepted;
    assert Pull(b, d.cursor) == map[] && ApplyAll(d.rows, map[]) == d.rows;
    PushCoversIff(b, d.rows);
  }

  /** The revision counter never falls, not even at its largest value, and moves by one at most. */
  lemma RevisionNeverFalls(b: Backend, incoming: Items)
    requires b.revision <= U64_MAX
    ensures b.revision <= Push(b, incoming).revision <= U64_MAX && Push(b, incoming).revision <= b.revision + 1
  {}

  // ---------- many devices ----------

  datatype System = System(backend: Backend, devices: seq<Device>)

  function Sync(s: System, i: nat): System
    requires i < |s.devices|
  {
    var (d, b) := SyncNow(s.devices[i], s.backend);
    System(b, s.devices[i := d])
  }

  ghost predicate Schedule(s: System, order: seq<nat>) {
    forall k :: 0 <= k < |order| ==> order[k] < |s.devices|
  }

  function SyncAll(s: System, order: seq<nat>): (r: System)
    requires Schedule(s, order)
    ensures |r.devices| == |s.devices|
  {
    if order == [] then s else Sync(SyncAll(s, order[..|order| - 1]), order[|order| - 1])
  }

  /** No cursor is ahead of the backend. */
  ghost predicate Bounded(s: System) {
    forall i :: 0 <= i < |s.devices| ==> s.devices[i].cursor <= s.backend.revision
  }

  ghost predicate Inv(s: System) {
    forall i :: 0 <= i < |s.devices| ==> CursorOk(s.devices[i], s.backend)
  }

  /** Enough revisions left for `steps` more writes. */
  ghost predicate Room(s: System, steps: nat) {
    s.backend.revision + steps <= U64_MAX
  }

  lemma SyncBackend(s: System, i: nat)
    requires i < |s.devices| && s.backend.revision < U64_MAX
    ensures var t := Sync(s, i);
            && Older(s.backend, t.backend) && t.backend.revision <= s.backend.revision + 1
            && Dominates(t.backend.items, t.devices[i].rows) && t.devices[i].cursor == t.backend.revision
            && (Dominates(s.backend.items, s.devices[i].rows) ==> t.backend == s.backend)
            && (Bounded(s) ==> Bounded(t))
  {
    hide Dominates, Older, FinishSync;
    OlderSelf(s.backend);
    FinishFacts(s.devices[i], s.backend, s.backend);
    OlderRevision(s.backend, Sync(s, i).backend);
  }

  lemma OlderRevision(b0: Backend, b1: Backend)
    requires Older(b0, b1)
    ensures b0.revision <= b1.revision && NotBelow(b0.items, b1.items)
  {}

  lemma {:induction false} SyncAllBackend(s: System, order: seq<nat>)
    requires Schedule(s, order) && Room(s, |order|) && Bounded(s)
    ensures var t := SyncAll(s, order);
            && Older(s.backend, t.backend) && t.backend.revision <= s.backend.revision + |order| && Bounded(t)
  {
    hide Older, Sync, Bounded;
    if order == [] {
      OlderSelf(s.backend);
    } else {
      var n := |order| - 1;
      var early := SyncAll(s, order[..n]);
      SyncAllBackend(s, order[..n]);
      SyncBackend(early, order[n]);
      OlderChain(s.backend, early.backend, SyncAll(s, order).backend);
    }
  }

  /** Some sync of a device other than `i` writes to the backend. */
  ghost predicate OthersWrite(s: System, order: seq<nat>, i: nat)
    requires Schedule(s, order)
  {
    order != [] &&
    var n := |order| - 1;
    || OthersWrite(s, order[..n], i)
    || (order[n] != i && SyncAll(s, order).backend != SyncAll(s, order[..n]).backend)
  }

  lemma SyncHonestIff(s: System, j: nat, i: nat)
    requires Bounded(s) && j < |s.devices| && i < |s.devices| && s.backend.revision < U64_MAX
    ensures var t := Sync(s, j);
            CursorOk(t.devices[i], t.backend) <==>
              CursorOk(s.devices[i], s.backend) || (j != i && t.backend != s.backend)
  {
    hide Covers, Dominates, NotBelow, FinishSync;
    var d := s.devices[j];
    SyncBackend(s, j);
    if j == i {
      if CursorOk(d, s.backend) { SyncFacts(d, s.backend); } else { DishonestStays(d, s.backend); }
    }
  }

  /** Whatever syncs happen, a device's cursor is honest exactly if it was, or another device wrote. */
  lemma {:induction false} HonestIff(s: System, order: seq<nat>, i: nat)
    requires Bounded(s) && Schedule(s, order) && Room(s, |order|) && i < |s.devices|
    ensures var t := SyncAll(s, order);
            CursorOk(t.devices[i], t.backend) <==> CursorOk(s.devices[i], s.backend) || OthersWrite(s, order, i)
  {
    hide CursorOk, Sync, Bounded;
    if order != [] {
      var n := |order| - 1;
      SyncAllBackend(s, order[..n]);
      HonestIff(s, order[..n], i);
      SyncHonestIff(SyncAll(s, order[..n]), order[n], i);
    }
  }

  /** The backend beats or equals every device that has synced at least once. */
  lemma {:induction false} SyncedAreDominated(s: System, order: seq<nat>, i: nat)
    requires Bounded(s) && Schedule(s, order) && Room(s, |order|) && i < |s.devices|
    requires i in order || Dominates(s.backend.items, s.devices[i].rows)
    ensures Dominates(SyncAll(s, order).backend.items, SyncAll(s, order).devices[i].rows)
  {
    hide Dominates, NotBelow, SyncNow, Bounded;
    if order != [] {
      var n := |order| - 1;
      var early := SyncAll(s, order[..n]);
      SyncAllBackend(s, order[..n]);
      SyncBackend(early, order[n]);
      if order[n] != i {
        assert i in order ==> i in order[..n];
        SyncedAreDominated(s, order[..n], i);
        DominatesGrows(early.backend.items, SyncAll(s, order).backend.items, early.devices[i].rows);
      }
    }
  }

  ghost predicate AllDominated(s: System) {
    forall i :: 0 <= i < |s.devices| ==> Dominates(s.backend.items, s.devices[i].rows)
  }

  /**
   Once no device beats the backend, syncing never writes to it again, and
   whoever syncs ends up with the current revision.
   */
  lemma {:induction false} BackendIsFinal(s: System, order: seq<nat>, i: nat)
    requires Bounded(s) && Schedule(s, order) && Room(s, |order|) && AllDominated(s) && i < |s.devices|
    ensures var t := SyncAll(s, order);
            && t.backend == s.backend && AllDominated(t) && !OthersWrite(s, order, i)
            && (i in order ==> t.devices[i].cursor == t.backend.revision)
  {
    hide Dominates, NotBelow, SyncNow, Bounded;
    if order != [] {
      var n := |order| - 1;
      var early := SyncAll(s, order[..n]);
      BackendIsFinal(s, order[..n], i);
      SyncAllBackend(s, order[..n]);
      assert Dominates(early.backend.items, early.devices[order[n]].rows);
      SyncBackend(early, order[n]);
      assert i in order && order[n] != i ==> i in order[..n];
    }
  }

  // ---------- what the first round will write, read off the start ----------

  /** Pulling does not change what a device then writes: what it takes over is not better than what is stored. */
  lemma ItemAfterSync(d: Device, b: Backend, id: Id)
    ensures Lookup(Accepted(b.items, Outgoing(ApplyAll(d.rows, Pull(b, d.cursor)))), id)
         == Lookup(Accepted(b.items, Outgoing(d.rows)), id)
  {
    var pulled := Pull(b, d.cursor);
    var rows := ApplyAll(d.rows, pulled);
    assert id in pulled ==> pulled[id] == b.items[id];
    assert id in rows ==> rows[id] == (if id in pulled then Considered(Lookup(d.rows, id), b.items[id]) else d.rows[id]);
    assert id in rows <==> id in d.rows || id in pulled;
  }

  lemma SameLookups(x: Items, y: Items)
    requires forall id :: Lookup(x, id) == Lookup(y, id)
    ensures x == y
  {
    assert forall id :: (id in x <==> Lookup(x, id).Some?) && (id in y <==> Lookup(y, id).Some?);
  }

  lemma NothingAcceptedIsDominated(items: Items, rows: Rows)
    requires Accepted(items, Outgoing(rows)) == items
    ensures Dominates(items, rows)
  {
    forall id | id in rows && !rows[id].localOnly ensures id in items && !Wins(rows[id].item, items[id]) {
      assert id in Outgoing(rows) && id in Accepted(items, Outgoing(rows));
    }
  }

  /** What the device holds and the backend does not yet is written, whatever the pull brings. */
  lemma SyncItems(d: Device, b: Backend)
    ensures SyncNow(d, b).1.items == Accepted(b.items, Outgoing(d.rows))
    ensures Accepted(b.items, Outgoing(d.rows)) == b.items ==> Dominates(b.items, d.rows)
  {
    hide Accepted, Outgoing, ApplyAll, Dominates, Lookup;
    var x := Accepted(b.items, Outgoing(ApplyAll(d.rows, Pull(b, d.cursor))));
    var y := Accepted(b.items, Outgoing(d.rows));
    forall id ensures Lookup(x, id) == Lookup(y, id) {
      ItemAfterSync(d, b, id);
    }
    SameLookups(x, y);
    if y == b.items { NothingAcceptedIsDominated(b.items, d.rows); }
  }

  /** The stored rows while nobody but `i` has written: device `i` pushes what beats them at its first turn. */
  function Base(s: System, order: seq<nat>, i: nat): Items
    requires i < |s.devices|
  {
    if i in order then Accepted(s.backend.items, Outgoing(s.devices[i].rows)) else s.backend.items
  }

  /**
   Another device shares a row that beats the backend and that device `i`,
   if its turn comes before, does not already replace by one as good.
   */
  ghost predicate OthersHaveNews(s: System, order: seq<nat>, i: nat)
    requires Schedule(s, order) && i < |s.devices|
  {
    exists k :: 0 <= k < |order| && order[k] != i && !Dominates(Base(s, order[..k], i), s.devices[order[k]].rows)
  }

  lemma BaseGrows(s: System, early: seq<nat>, order: seq<nat>, i: nat)
    requires i < |s.devices| && (i in early ==> i in order)
    ensures NotBelow(Base(s, early, i), Base(s, order, i))
  {}

  lemma {:induction false} NobodyElseWrote(s: System, order: seq<nat>, i: nat)
    requires Bounded(s) && Schedule(s, order) && Room(s, |order|) && i < |s.devices| && !OthersWrite(s, order, i)
    ensures var t := SyncAll(s, order);
            && t.backend.items == Base(s, order, i)
            && forall m :: 0 <= m < |s.devices| && m !in order ==> t.devices[m].rows == s.devices[m].rows
  {
    if order != [] {
      hide Dominates, SyncNow, Bounded, Accepted, Outgoing, Older;
      var n := |order| - 1;
      var early, j := SyncAll(s, order[..n]), order[n];
      assert order == order[..n] + [j];
      NobodyElseWrote(s, order[..n], i);
      SyncAllBackend(s, order[..n]);
      if j == i {
        SyncItems(early.devices[i], early.backend);
        if i in order[..n] {
          SyncedAreDominated(s, order[..n], i);
          SyncBackend(early, i);
        }
      }
    }
  }

  lemma NewsIffWrite(s: System, early: seq<nat>, j: nat, i: nat)
    requires Bounded(s) && Schedule(s, early) && Room(s, |early| + 1) && i < |s.devices| && j < |s.devices|
    requires !OthersWrite(s, early, i) && !OthersHaveNews(s, early, i) && j != i
    ensures var t := SyncAll(s, early);
            Sync(t, j).backend != t.backend <==> !Dominates(Base(s, early, i), s.devices[j].rows)
  {
    hide Dominates, SyncNow, Bounded, Accepted, Outgoing, Older, Base;
    var t := SyncAll(s, early);
    NobodyElseWrote(s, early, i);
    SyncAllBackend(s, early);
    SyncItems(t.devices[j], t.backend);
    SyncBackend(t, j);
    if j in early {
      SyncedAreDominated(s, early, j);
      var k :| 0 <= k < |early| && early[k] == j;
      BaseGrows(s, early[..k], early, i);
      DominatesGrows(Base(s, early[..k], i), Base(s, early, i), s.devices[j].rows);
    }
  }

  lemma NewsSnoc(s: System, order: seq<nat>, i: nat)
    requires order != [] && Schedule(s, order) && i < |s.devices|
    ensures var n := |order| - 1;
            OthersHaveNews(s, order, i) <==>
              OthersHaveNews(s, order[..n], i)
              || (order[n] != i && !Dominates(Base(s, order[..n], i), s.devices[order[n]].rows))
  {
    hide Dominates, Base;
    var n := |order| - 1;
    var early := order[..n];
    assert forall k :: 0 <= k < n ==> early[..k] == order[..k] && early[k] == order[k];
    if k :| 0 <= k < n && early[k] != i && !Dominates(Base(s, early[..k], i), s.devices[early[k]].rows) {
      assert !Dominates(Base(s, order[..k], i), s.devices[order[k]].rows);
    }
  }

  /** Whether another device will write can be seen before the round. */
  lemma {:induction false} OthersWriteIff(s: System, order: seq<nat>, i: nat)
    requires Bounded(s) && Schedule(s, order) && Room(s, |order|) && i < |s.devices|
    ensures OthersWrite(s, order, i) <==> OthersHaveNews(s, order, i)
  {
    if order != [] {
      hide Dominates, Sync, Bounded, Base, OthersHaveNews;
      var n := |order| - 1;
      var early := order[..n];
      OthersWriteIff(s, early, i);
      NewsSnoc(s, order, i);
      if !OthersWrite(s, early, i) && order[n] != i {
        NewsIffWrite(s, early, order[n], i);
      }
    }
  }

  ghost predicate Everyone(s: System, order: seq<nat>) {
    Schedule(s, order) && forall i :: 0 <= i < |s.devices| ==> i in order
  }

  /** Device and backend hold the same stamps for everything shared. */
  ghost predicate Level(rows: Rows, items: Items) {
    && (forall id :: id in items ==> id in rows && (rows[id].localOnly || SameStamp(rows[id].item, items[id])))
    && (forall id :: id in rows && !rows[id].localOnly ==> id in items)
  }

  lemma LevelIff(rows: Rows, items: Items)
    ensures Level(rows, items) <==> Dominates(items, rows) && Covers(rows, items)
  {}

  lemma EveryoneDominated(s: System, first: seq<nat>)
    requires Bounded(s) && Everyone(s, first) && Room(s, |first|)
    ensures AllDominated(SyncAll(s, first))
  {
    hide Dominates, SyncAll;
    var mid := SyncAll(s, first);
    forall i | 0 <= i < |s.devices| ensures Dominates(mid.backend.items, mid.devices[i].rows) {
      SyncedAreDominated(s, first, i);
    }
  }

  /**
   Convergence, from any state whatever: once every device has synced and then
   every device has synced again, in any two orders and with any repetitions,
   the second round has not changed the backend, and a device holds the
   backend's stamps for everything shared if and only if its cursor was honest
   at the start or another device has news to write in the first round.
   */
  lemma TwoRoundsLevelIff(s: System, first: seq<nat>, second: seq<nat>, i: nat)
    requires Bounded(s) && Everyone(s, first) && Everyone(s, second) && Room(s, |first| + |second|)
    requires i < |s.devices|
    ensures var mid := SyncAll(s, first);
            var end := SyncAll(mid, second);
            && end.backend == mid.backend
            && (Level(end.devices[i].rows, end.backend.items) <==>
                  CursorOk(s.devices[i], s.backend) || OthersHaveNews(s, first, i))
  {
    hide Dominates, Covers, Level, SyncAll, OthersWrite, OthersHaveNews;
    var mid := SyncAll(s, first);
    SyncAllBackend(s, first);
    EveryoneDominated(s, first);
    HonestIff(s, first, i);
    OthersWriteIff(s, first, i);
    HonestIff(mid, second, i);
    BackendIsFinal(mid, second, i);
    var end := SyncAll(mid, second);
    assert Dominates(end.backend.items, end.devices[i].rows);
    LevelIff(end.devices[i].rows, end.backend.items);
  }

  /** So from honest cursors every device converges. */
  lemma TwoRoundsConverge(s: System, first: seq<nat>, second: seq<nat>)
    requires Inv(s) && Everyone(s, first) && Everyone(s, second) && Room(s, |first| + |second|)
    ensures var mid := SyncAll(s, first);
            var end := SyncAll(mid, second);
            forall i :: 0 <= i < |s.devices| ==> Level(end.devices[i].rows, end.backend.items)
  {
    hide Level, SyncAll, OthersHaveNews, Covers;
    var end := SyncAll(SyncAll(s, first), second);
    forall i | 0 <= i < |s.devices| ensures Level(end.devices[i].rows, end.backend.items) {
      TwoRoundsLevelIff(s, first, second, i);
    }
  }

  lemma {:induction false} FixedStays(s: System, order: seq<nat>)
    requires Schedule(s, order) && forall i :: 0 <= i < |s.devices| ==> Sync(s, i) == s
    ensures SyncAll(s, order) == s
  {
    hide Sync;
    if order != [] { FixedStays(s, order[..|order| - 1]); }
  }

  // ---------- contents, not only stamps ----------

  datatype Holder = Store | Vault(device: nat)

  /** The shared copy of a row at the backend or on a device. */
  function Copy(s: System, h: Holder, id: Id): Option<Item> {
    match h
    case Store => Lookup(s.backend.items, id)
    case Vault(i) =>
      if i < |s.devices| && id in s.devices[i].rows && !s.devices[i].rows[id].localOnly
      then Some(s.devices[i].rows[id].item) else None
  }

  /** Nothing held anywhere beats this copy. */
  ghost predicate IsTop(s: System, h: Holder, id: Id) {
    Copy(s, h, id).Some?
    && forall g :: Copy(s, g, id).Some? ==> !Wins(Copy(s, g, id).value, Copy(s, h, id).value)
  }

  /** A sync only moves copies around: every copy afterwards was one before. */
  lemma SyncInventsNothing(s: System, i: nat, h: Holder, id: Id) returns (g: Holder)
    requires i < |s.devices| && Copy(Sync(s, i), h, id).Some?
    ensures Copy(s, g, id) == Copy(Sync(s, i), h, id)
  {
    var x := Copy(Sync(s, i), h, id);
    if Copy(s, h, id) == x {
      g := h;
    } else if Copy(s, Store, id) == x {
      g := Store;
    } else {
      g := Vault(i);
    }
  }

  /** A sync never loses a copy, and replaces it only by one that beats it. */
  lemma SyncOnlyRaises(s: System, i: nat, h: Holder, id: Id)
    requires i < |s.devices| && Copy(s, h, id).Some?
    ensures var x := Copy(Sync(s, i), h, id);
            x.Some? && (x == Copy(s, h, id) || Wins(x.value, Copy(s, h, id).value))
  {}

  lemma {:induction false} AllInventNothing(s: System, order: seq<nat>, h: Holder, id: Id) returns (g: Holder)
    requires Schedule(s, order) && Copy(SyncAll(s, order), h, id).Some?
    ensures Copy(s, g, id) == Copy(SyncAll(s, order), h, id)
  {
    hide Copy, Sync;
    if order == [] {
      g := h;
    } else {
      var n := |order| - 1;
      g := SyncInventsNothing(SyncAll(s, order[..n]), order[n], h, id);
      g := AllInventNothing(s, order[..n], g, id);
    }
  }

  lemma {:induction false} AllOnlyRaise(s: System, order: seq<nat>, h: Holder, id: Id)
    requires Schedule(s, order) && Copy(s, h, id).Some?
    ensures var x := Copy(SyncAll(s, order), h, id);
            x.Some? && (x == Copy(s, h, id) || Wins(x.value, Copy(s, h, id).value))
  {
    hide Copy, Sync;
    if order != [] {
      AllOnlyRaise(s, order[..|order| - 1], h, id);
      SyncOnlyRaises(SyncAll(s, order[..|order| - 1]), order[|order| - 1], h, id);
    }
  }

  /** A copy that nothing beats stays where it is, whoever syncs. */
  lemma TopStays(s: System, order: seq<nat>, h: Holder, id: Id)
    requires Schedule(s, order) && IsTop(s, h, id)
    ensures Copy(SyncAll(s, order), h, id) == Copy(s, h, id)
  {
    hide Copy, SyncAll;
    AllOnlyRaise(s, order, h, id);
    var g := AllInventNothing(s, order, h, id);
  }

  ghost predicate Agreed(s: System, id: Id) {
    forall g, h :: Copy(s, g, id).Some? && Copy(s, h, id).Some? ==> Copy(s, g, id) == Copy(s, h, id)
  }

  /** The best copies of a row, wherever they are, are the same. */
  ghost predicate TopsAgree(s: System, id: Id) {
    forall g, h :: IsTop(s, g, id) && IsTop(s, h, id) ==> Copy(s, g, id) == Copy(s, h, id)
  }

  lemma LevelCopies(s: System, id: Id, g: Holder, h: Holder)
    requires forall i :: 0 <= i < |s.devices| ==> Level(s.devices[i].rows, s.backend.items)
    requires Copy(s, g, id).Some? && Copy(s, h, id).Some?
    ensures SameStamp(Copy(s, g, id).value, Copy(s, h, id).value)
  {
    forall k | k == g || k == h
      ensures Copy(s, Store, id).Some? && SameStamp(Copy(s, k, id).value, Copy(s, Store, id).value)
    {
      if k.Vault? {
        assert Level(s.devices[k.device].rows, s.backend.items);
      }
    }
  }

  /** Whatever survives two rounds was already unbeaten before them. */
  lemma SurvivorsWereTop(s: System, first: seq<nat>, second: seq<nat>, id: Id, h: Holder) returns (g: Holder)
    requires Inv(s) && Everyone(s, first) && Everyone(s, second) && Room(s, |first| + |second|)
    requires Copy(SyncAll(SyncAll(s, first), second), h, id).Some?
    ensures IsTop(s, g, id) && Copy(s, g, id) == Copy(SyncAll(SyncAll(s, first), second), h, id)
  {
    hide Copy, SyncAll, Inv, Level;
    TwoRoundsConverge(s, first, second);
    var mid := SyncAll(s, first);
    var end := SyncAll(mid, second);
    g := AllInventNothing(mid, second, h, id);
    g := AllInventNothing(s, first, g, id);
    forall k | Copy(s, k, id).Some? ensures !Wins(Copy(s, k, id).value, Copy(s, g, id).value) {
      AllOnlyRaise(s, first, k, id);
      AllOnlyRaise(mid, second, k, id);
      LevelCopies(end, id, k, h);
    }
  }

  /**
   Two rounds bring every holder of a row to the same contents if and only if
   its unbeaten copies already had the same contents: concurrent edits with
   equal version and time stay different on every device for ever.
   */
  lemma ContentsAgreeIff(s: System, first: seq<nat>, second: seq<nat>, id: Id)
    requires Inv(s) && Everyone(s, first) && Everyone(s, second) && Room(s, |first| + |second|)
    ensures Agreed(SyncAll(SyncAll(s, first), second), id) <==> TopsAgree(s, id)
  {
    hide Copy, SyncAll, Inv, Level;
    var mid := SyncAll(s, first);
    var end := SyncAll(mid, second);
    if TopsAgree(s, id) {
      hide IsTop;
      forall g, h | Copy(end, g, id).Some? && Copy(end, h, id).Some? ensures Copy(end, g, id) == Copy(end, h, id) {
        var g0 := SurvivorsWereTop(s, first, second, id, g);
        var h0 := SurvivorsWereTop(s, first, second, id, h);
      }
    }
    if Agreed(end, id) {
      forall g, h | IsTop(s, g, id) && IsTop(s, h, id) ensures Copy(s, g, id) == Copy(s, h, id) {
        UnbeatenAfter(s, first, second, g, id);
        UnbeatenAfter(s, first, second, h, id);
      }
    }
  }

  lemma UnbeatenAfter(s: System, first: seq<nat>, second: seq<nat>, h: Holder, id: Id)
    requires Schedule(s, first) && Schedule(s, second) && IsTop(s, h, id)
    ensures Copy(SyncAll(SyncAll(s, first), second), h, id) == Copy(s, h, id)
  {
    hide Copy, SyncAll;
    var mid := SyncAll(s, first);
    TopStays(s, first, h, id);
    forall k | Copy(mid, k, id).Some? ensures !Wins(Copy(mid, k, id).value, Copy(mid, h, id).value) {
      var g := AllInventNothing(s, first, k, id);
    }
    TopStays(mid, second, h, id);
  }

  // ---------- the last write wins ----------

  /** Later or equal: by version, then by time. */
  predicate AtLeast(x: Item, y: Item) {
    x.version > y.version || (x.version == y.version && x.updatedAt >= y.updatedAt)
  }

  lemma UnbeatenIsLatest(x: Item, y: Item)
    ensures !Wins(y, x) <==> AtLeast(x, y)
  {}

  /**
   After two rounds every copy of a row is one that existed before, and it is
   as late, by version and then by time, as every copy that existed before.
   */
  lemma LastWriteWins(s: System, first: seq<nat>, second: seq<nat>, id: Id, h: Holder)
    requires Inv(s) && Everyone(s, first) && Everyone(s, second) && Room(s, |first| + |second|)
    requires Copy(SyncAll(SyncAll(s, first), second), h, id).Some?
    ensures var x := Copy(SyncAll(SyncAll(s, first), second), h, id);
            && (exists g :: Copy(s, g, id) == x)
            && forall g :: Copy(s, g, id).Some? ==> AtLeast(x.value, Copy(s, g, id).value)
  {
    hide Copy, SyncAll, Inv, Everyone;
    var top := SurvivorsWereTop(s, first, second, id, h);
    forall g | Copy(s, g, id).Some? ensures AtLeast(Copy(s, top, id).value, Copy(s, g, id).value) {
      UnbeatenIsLatest(Copy(s, top, id).value, Copy(s, g, id).value);
    }
  }

  function RowOf(s: System, i: nat, id: Id): Option<Row> {
    if i < |s.devices| then Lookup(s.devices[i].rows, id) else None
  }

  predicate IsLocal(row: Option<Row>) {
    row.Some? && row.value.localOnly
  }

  lemma SyncKeepsLocal(s: System, j: nat, i: nat, id: Id)
    requires j < |s.devices|
    ensures IsLocal(RowOf(s, i, id)) ==> RowOf(Sync(s, j), i, id) == RowOf(s, i, id)
    ensures IsLocal(RowOf(Sync(s, j), i, id)) ==> RowOf(Sync(s, j), i, id) == RowOf(s, i, id)
  {}

  /** No sync touches a local-only row or makes a row local-only. */
  lemma {:induction false} LocalRowsStay(s: System, order: seq<nat>, i: nat, id: Id)
    requires Schedule(s, order)
    ensures var t := SyncAll(s, order);
            IsLocal(RowOf(s, i, id)) || IsLocal(RowOf(t, i, id)) ==> RowOf(t, i, id) == RowOf(s, i, id)
  {
    hide RowOf, Sync;
    if order != [] {
      LocalRowsStay(s, order[..|order| - 1], i, id);
      SyncKeepsLocal(SyncAll(s, order[..|order| - 1]), order[|order| - 1], i, id);
    }
  }

  /** A row shared anywhere reaches the backend and every device that does not keep its own row local. */
  lemma SharedRowSpreads(s: System, first: seq<nat>, second: seq<nat>, id: Id, g: Holder, i: nat)
    requires Inv(s) && Everyone(s, first) && Everyone(s, second) && Room(s, |first| + |second|)
    requires Copy(s, g, id).Some? && i < |s.devices|
    ensures var end := SyncAll(SyncAll(s, first), second);
            && Copy(end, Store, id).Some?
            && (Copy(end, Vault(i), id).Some? || (IsLocal(RowOf(s, i, id)) && RowOf(end, i, id) == RowOf(s, i, id)))
  {
    hide SyncAll, Inv, Level;
    var mid := SyncAll(s, first);
    var end := SyncAll(mid, second);
    AllOnlyRaise(s, first, g, id);
    AllOnlyRaise(mid, second, g, id);
    TwoRoundsConverge(s, first, second);
    if g.Vault? { LevelHolds(end.devices[g.device].rows, end.backend.items, id); }
    LevelHolds(end.devices[i].rows, end.backend.items, id);
    LocalRowsStay(mid, second, i, id);
    LocalRowsStay(s, first, i, id);
  }

  lemma LevelHolds(rows: Rows, items: Items, id: Id)
    requires Level(rows, items)
    ensures id in items ==> id in rows
    ensures id in rows && !rows[id].localOnly ==> id in items
  {}

  // ---------- local edits ----------

  /** The vault writes a row with a version above the one it had. */
  function Edit(d: Device, id: Id, row: Row): Device {
    d.(rows := d.rows[id := row])
  }

  /**
   An edit that raises the row's stamp keeps the cursor honest unless it
   shares a row that the backend already holds in a better version, which
   only a row kept local until then can be.
   */
  lemma EditKeepsCursorIff(d: Device, b: Backend, id: Id, row: Row)
    requires CursorOk(d, b) && (id in d.rows ==> Wins(row.item, d.rows[id].item))
    ensures CursorOk(Edit(d, id, row), b) <==>
      d.cursor < b.revision || row.localOnly || id !in b.items || !Wins(b.items[id], row.item)
    ensures id in d.rows && !d.rows[id].localOnly ==> CursorOk(Edit(d, id, row), b)
    ensures id !in d.rows && id !in b.items ==> CursorOk(Edit(d, id, row), b)
  {
    var e := Edit(d, id, row);
    if d.cursor == b.revision && id in b.items && id in d.rows && !d.rows[id].localOnly {
      WinsIsStrictOrder(b.items[id], d.rows[id].item, row.item);
      WinsIsStrictOrder(row.item, d.rows[id].item, b.items[id]);
    }
    if CursorOk(e, b) && d.cursor == b.revision && id in b.items {
      assert id in e.rows && e.rows[id] == row;
    }
    forall k | k in b.items && k != id && d.cursor == b.revision
      ensures k in e.rows && (e.rows[k].localOnly || !Wins(b.items[k], e.rows[k].item))
    {
      assert k in d.rows;
    }
  }

  /**
   A row that another device writes for the first time between the two halves
   of a sync is skipped: the device's cursor claims it, and its next sync does
   not fetch it.
   */
  lemma InterleavedWriteIsSkipped(d: Device, b0: Backend, id: Id, item: Item)
    requires id !in d.rows && id !in b0.items
    ensures var b1 := Push(b0, map[id := item]);
            var (d', b') := FinishSync(d, Pull(b0, d.cursor), b0.revision, b1);
            && id in b'.items && id !in d'.rows && d'.cursor == b'.revision
            && id !in SyncNow(d', b').0.rows
  {}

  // ---------- the objects ----------

  lemma AppendPair(pairs: seq<(Id, Item)>, id: Id, item: Item)
    requires DistinctIds(pairs) && id !in ToMap(pairs)
    ensures DistinctIds(pairs + [(id, item)]) && ToMap(pairs + [(id, item)]) == ToMap(pairs)[id := item]
  {
    ToMapKeys(pairs);
    assert (pairs + [(id, item)])[..|pairs|] == pairs;
  }

  function Without(items: Items, left: set<Id>): Items {
    map id | id in items && id !in left :: items[id]
  }

  lemma TakeOne(items: Items, left: set<Id>, id: Id)
    requires id in left && id in items
    ensures Without(items, left - {id}) == Without(items, left)[id := items[id]] && id !in Without(items, left)
  {}

  /** A directory listing: every row once, in no particular order. */
  method List(items: Items) returns (pairs: seq<(Id, Item)>)
    ensures DistinctIds(pairs) && ToMap(pairs) == items
  {
    pairs := [];
    var left := items.Keys;
    while left != {}
      invariant DistinctIds(pairs) && left <= items.Keys && ToMap(pairs) == Without(items, left)
      decreases |left|
    {
      hide ToMap, DistinctIds, Without;
      var id :| id in left;
      TakeOne(items, left, id);
      AppendPair(pairs, id, items[id]);
      pairs := pairs + [(id, items[id])];
      left := left - {id};
    }
  }

  class FileBackend {
    var items: Items
    var revision: nat

    ghost function View(): Backend
      reads this
    {
      Backend(items, revision)
    }

    constructor ()
      ensures View() == Backend(map[], 0)
    {
      items, revision := map[], 0;
    }

    method PullSince(since: nat) returns (pulled: seq<(Id, Item)>, at: nat)
      ensures DistinctIds(pulled) && ToMap(pulled) == Pull(View(), since) && at == revision
    {
      if since >= revision {
        pulled := [];
      } else {
        pulled := List(items);
      }
      at := revision;
    }

    method PushAll(incoming: seq<(Id, Item)>) returns (at: nat)
      requires DistinctIds(incoming)
      modifies this
      ensures View() == Push(old(View()), ToMap(incoming)) && at == revision
    {
      var after := PushItems(Backend(items, revision), incoming);
      items, revision := after.items, after.revision;
      at := revision;
    }
  }

  class Engine {
    var rows: Rows
    var cursor: nat

    ghost function View(): Device
      reads this
    {
      Device(rows, cursor)
    }

    constructor (rows: Rows)
      ensures View() == Device(rows, 0)
    {
      this.rows := rows;
      cursor := 0;
    }

    method Sync(backend: FileBackend)
      modifies this, backend
      ensures (View(), backend.View()) == SyncNow(old(View()), old(backend.View()))
    {
      hide ApplyAll, Outgoing, Accepted, ToMap;
      var pulled, at := backend.PullSince(cursor);
      var after := ApplyPulled(rows, pulled);
      rows := after;
      var outgoing := List(Outgoing(rows));
      var pushedAt := backend.PushAll(outgoing);
      cursor := if pushedAt > at then pushedAt else at;
    }
  }
}
