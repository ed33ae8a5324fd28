/**
 Histories of a sync network: every device edits its vault, pulls, pushes,
 fails and restarts in any interleaving, and pull and push of one sync may be
 separated by anything the other devices do.
 */
module SyncHistory {
  import opened Common
  import opened SyncEngine

  /** `flights` holds, for each device between its pull and its push, the backend it pulled from. */
  datatype Net = Net(system: System, flights: map<nat, Backend>)

  /**
   `Fail` is a sync that ends after applying what it pulled, without a push.
   `Restart` makes a new engine, whose cursor starts at zero.
   */
  datatype Action =
    | Begin(device: nat)
    | Finish(device: nat)
    | Fail(device: nat)
    | Restart(device: nat)
    | Write(device: nat, id: Id, row: Row)

  /** A push needs its pull, and the vault raises the version with every edit. */
  ghost predicate Possible(n: Net, a: Action) {
    && a.device < |n.system.devices|
    && (a.Finish? || a.Fail? ==> a.device in n.flights)
    && (a.Write? && a.id in n.system.devices[a.device].rows ==>
          Wins(a.row.item, n.system.devices[a.device].rows[a.id].item))
  }

  function Put(n: Net, i: nat, d: Device): Net
    requires i < |n.system.devices|
  {
    n.(system := n.system.(devices := n.system.devices[i := d]))
  }

  function Land(n: Net, i: nat): Net {
    n.(flights := n.flights - {i})
  }

  function Do(n: Net, a: Action): Net {
    if a.device >= |n.system.devices| then n
    else
      var i, d := a.device, n.system.devices[a.device];
      match a
      case Begin(_) => n.(flights := n.flights[i := n.system.backend])
      case Finish(_) =>
        if i !in n.flights then n
        else
          var b0 := n.flights[i];
          var (d', b') := FinishSync(d, Pull(b0, d.cursor), b0.revision, n.system.backend);
          Land(Net(System(b', n.system.devices[i := d']), n.flights), i)
      case Fail(_) =>
        if i !in n.flights then n
        else Land(Put(n, i, d.(rows := ApplyAll(d.rows, Pull(n.flights[i], d.cursor)))), i)
      case Restart(_) => Land(Put(n, i, d.(cursor := 0)), i)
      case Write(_, id, row) => Put(n, i, Edit(d, id, row))
  }

  function DoAll(n: Net, actions: seq<Action>): Net {
    if actions == [] then n else Do(DoAll(n, actions[..|actions| - 1]), actions[|actions| - 1])
  }

  ghost predicate History(n: Net, actions: seq<Action>) {
    forall k :: 0 <= k < |actions| ==> Possible(DoAll(n, actions[..k]), actions[k])
  }

  /** Nothing stored yet and nobody has synced. */
  ghost predicate Unused(n: Net) {
    && n.system.backend == Backend(map[], 0) && n.flights == map[]
    && forall i :: 0 <= i < |n.system.devices| ==> n.system.devices[i].cursor == 0
  }

  /** A pull and a push with nothing in between are one sync. */
  lemma WholeSync(n: Net, i: nat)
    requires i < |n.system.devices|
    ensures Do(Do(n, Begin(i)), Finish(i)).system == Sync(n.system, i)
  {}

  // ---------- what every history keeps ----------

  ghost predicate Ordered(n: Net) {
    && Bounded(n.system)
    && (n.system.backend.revision == 0 ==> n.system.backend.items == map[])
    && forall i :: i in n.flights ==>
         && i < |n.system.devices| && n.system.devices[i].cursor <= n.flights[i].revision
         && Older(n.flights[i], n.system.backend)
  }

  lemma FinishKeepsOrder(n: Net, i: nat)
    requires Ordered(n) && Possible(n, Finish(i)) && n.system.backend.revision < U64_MAX
    ensures Ordered(Do(n, Finish(i)))
    ensures Older(n.system.backend, Do(n, Finish(i)).system.backend)
    ensures Do(n, Finish(i)).system.backend.revision <= n.system.backend.revision + 1
  {
    hide Older, FinishSync;
    var m := Do(n, Finish(i));
    FinishFacts(n.system.devices[i], n.flights[i], n.system.backend);
    OlderRevision(n.system.backend, m.system.backend);
    FirstWriteCounts(n.system.backend, m.system.backend);
    forall j | j in m.flights ensures Older(m.flights[j], m.system.backend) {
      OlderChain(m.flights[j], n.system.backend, m.system.backend);
    }
  }

  lemma FirstWriteCounts(b0: Backend, b1: Backend)
    requires Older(b0, b1) && (b0.revision == 0 ==> b0.items == map[])
    ensures b1.revision == 0 ==> b1.items == map[]
  {}

  lemma OwnStepKeepsOrder(n: Net, a: Action)
    requires Ordered(n) && Possible(n, a) && !a.Finish?
    ensures Ordered(Do(n, a)) && Do(n, a).system.backend == n.system.backend
  {
    hide ApplyAll, Older;
    OlderSelf(n.system.backend);
  }

  lemma {:induction false} HistoryKeepsOrder(n: Net, actions: seq<Action>)
    requires Ordered(n) && History(n, actions) && Room(n.system, |actions|)
    ensures var m := DoAll(n, actions);
            && Ordered(m) && |m.system.devices| == |n.system.devices|
            && m.system.backend.revision <= n.system.backend.revision + |actions|
  {
    hide Ordered, FinishSync, ApplyAll;
    if actions != [] {
      var k := |actions| - 1;
      HistoryPrefix(n, actions, k);
      HistoryKeepsOrder(n, actions[..k]);
      var m := DoAll(n, actions[..k]);
      if actions[k].Finish? { FinishKeepsOrder(m, actions[k].device); } else { OwnStepKeepsOrder(m, actions[k]); }
    }
  }

  lemma HistoryPrefix(n: Net, actions: seq<Action>, k: nat)
    requires History(n, actions) && k <= |actions|
    ensures History(n, actions[..k])
    ensures k < |actions| ==> Possible(DoAll(n, actions[..k]), actions[k])
  {
    hide Possible, DoAll;
    forall i | 0 <= i < k ensures Possible(DoAll(n, actions[..k][..i]), actions[..k][i]) {
      assert actions[..k][..i] == actions[..i];
    }
  }

  // ---------- which steps keep a device honest ----------

  /** The cursor is honest about the backend and, during a sync, about the backend it pulled from. */
  ghost predicate Honest(n: Net, i: nat)
    requires i < |n.system.devices|
  {
    && CursorOk(n.system.devices[i], n.system.backend)
    && (i in n.flights ==> CursorOk(n.system.devices[i], n.flights[i]))
  }

  /** Sharing a row with a backend of which the device claims to have seen everything. */
  ghost predicate SharesSafely(d: Device, b: Backend, id: Id, row: Row) {
    d.cursor < b.revision || row.localOnly || id !in b.items || !Wins(b.items[id], row.item)
  }

  /** The exact condition under which a step leaves its device honest. */
  ghost predicate Harmless(n: Net, a: Action)
    requires Possible(n, a)
  {
    var d := n.system.devices[a.device];
    match a
    case Finish(i) => Indifferent(d, n.flights[i], n.system.backend)
    case Write(i, id, row) =>
      && SharesSafely(d, n.system.backend, id, row)
      && (i in n.flights ==> SharesSafely(d, n.flights[i], id, row))
    case _ => true
  }

  lemma FinishHonestIff(n: Net, i: nat)
    requires Ordered(n) && Possible(n, Finish(i)) && Honest(n, i)
    ensures Honest(Do(n, Finish(i)), i) <==> Harmless(n, Finish(i))
  {
    hide CursorOk, Indifferent, Older, FinishSync;
    SplitSyncHonestIff(n.system.devices[i], n.flights[i], n.system.backend);
  }

  lemma WriteHonestIff(n: Net, a: Action)
    requires a.Write? && Possible(n, a) && Honest(n, a.device)
    ensures Honest(Do(n, a), a.device) <==> Harmless(n, a)
  {
    hide Covers;
    var d := n.system.devices[a.device];
    EditKeepsCursorIff(d, n.system.backend, a.id, a.row);
    if a.device in n.flights { EditKeepsCursorIff(d, n.flights[a.device], a.id, a.row); }
  }

  lemma PulledIsHonest(d: Device, b0: Backend, b1: Backend)
    requires CursorOk(d, b0) && CursorOk(d, b1) && b0.revision <= b1.revision
    ensures CursorOk(d.(rows := ApplyAll(d.rows, Pull(b0, d.cursor))), b1)
  {
    if d.cursor == b1.revision {
      assert Pull(b0, d.cursor) == map[] && ApplyAll(d.rows, map[]) == d.rows;
    }
  }

  /** A step leaves its own device honest if and only if it is harmless. */
  lemma StepHonestIff(n: Net, a: Action)
    requires Ordered(n) && Possible(n, a) && Honest(n, a.device)
    ensures Honest(Do(n, a), a.device) <==> Harmless(n, a)
  {
    var i := a.device;
    if a.Finish? {
      FinishHonestIff(n, i);
    } else if a.Write? {
      WriteHonestIff(n, a);
    } else if a.Fail? {
      hide ApplyAll, Covers;
      PulledIsHonest(n.system.devices[i], n.flights[i], n.system.backend);
    }
  }

  /** Nobody else's step ever makes a device dishonest. */
  lemma OthersDoNoHarm(n: Net, a: Action, i: nat)
    requires Ordered(n) && Possible(n, a) && i < |n.system.devices| && i != a.device && Honest(n, i)
    requires n.system.backend.revision < U64_MAX
    ensures Honest(Do(n, a), i)
  {
    hide Covers, ApplyAll, FinishSync;
    if a.Finish? {
      hide NotBelow, Indifferent;
      FinishKeepsOrder(n, a.device);
    }
  }

  /** A sync that fails after its pull leaves the device with everything it pulled, and asks for it again. */
  lemma FailKeepsWhatWasPulled(n: Net, i: nat)
    requires Ordered(n) && Possible(n, Fail(i)) && Honest(n, i)
    ensures var d := Do(n, Fail(i)).system.devices[i];
            Covers(d.rows, n.flights[i].items) && d.cursor == n.system.devices[i].cursor && i !in Do(n, Fail(i)).flights
  {
    hide Covers, ApplyAll, Older;
    OlderSelf(n.flights[i]);
    OlderRevision(n.flights[i], n.flights[i]);
    PulledCoversIff(n.system.devices[i], n.flights[i], n.flights[i]);
  }

  /** A new engine is honest whatever went wrong before. */
  lemma RestartHeals(n: Net, i: nat)
    requires Ordered(n) && i < |n.system.devices|
    ensures Honest(Do(n, Restart(i)), i)
  {}

  ghost predicate HarmlessAll(n: Net, actions: seq<Action>, i: nat)
    requires History(n, actions)
  {
    forall k :: 0 <= k < |actions| && actions[k].device == i ==> Harmless(DoAll(n, actions[..k]), actions[k])
  }

  /** A device whose own steps are harmless stays honest, however careless the others are. */
  lemma {:induction false} HarmlessStaysHonest(n: Net, actions: seq<Action>, i: nat)
    requires Ordered(n) && History(n, actions) && Room(n.system, |actions|) && i < |n.system.devices|
    requires Honest(n, i) && HarmlessAll(n, actions, i)
    ensures |DoAll(n, actions).system.devices| == |n.system.devices| && Honest(DoAll(n, actions), i)
  {
    hide Ordered, Do, Honest, Harmless, Possible;
    HistoryKeepsOrder(n, actions);
    if actions != [] {
      var k := |actions| - 1;
      HistoryPrefix(n, actions, k);
      HistoryKeepsOrder(n, actions[..k]);
      assert forall j :: 0 <= j <= k ==> actions[..k][..j] == actions[..j];
      HarmlessStaysHonest(n, actions[..k], i);
      HonestStep(DoAll(n, actions[..k]), actions[k], i);
    }
  }

  lemma HonestStep(n: Net, a: Action, i: nat)
    requires Ordered(n) && Possible(n, a) && i < |n.system.devices| && Honest(n, i)
    requires n.system.backend.revision < U64_MAX && (a.device == i ==> Harmless(n, a))
    ensures |Do(n, a).system.devices| == |n.system.devices| && Honest(Do(n, a), i)
  {
    if a.device == i { StepHonestIff(n, a); } else { OthersDoNoHarm(n, a, i); }
  }

  /**
   What a device can see for itself: no row kept local is shared again, and at
   the push the backend still has the revision of the pull.
   */
  ghost predicate Careful(n: Net, a: Action)
    requires Possible(n, a)
  {
    var d := n.system.devices[a.device];
    match a
    case Finish(i) => n.flights[i].revision == n.system.backend.revision
    case Write(_, id, row) => id in d.rows && d.rows[id].localOnly ==> row.localOnly
    case _ => true
  }

  lemma SharedEditIsSafe(d: Device, b: Backend, id: Id, row: Row)
    requires CursorOk(d, b) && (id in d.rows ==> Wins(row.item, d.rows[id].item))
    requires id in d.rows && d.rows[id].localOnly ==> row.localOnly
    ensures SharesSafely(d, b, id, row)
  {}

  lemma CarefulIsHarmless(n: Net, a: Action)
    requires Ordered(n) && Possible(n, a) && Honest(n, a.device) && Careful(n, a)
    ensures Harmless(n, a)
  {
    hide Covers, NotBelow;
    if a.Write? {
      var d := n.system.devices[a.device];
      SharedEditIsSafe(d, n.system.backend, a.id, a.row);
      if a.device in n.flights { SharedEditIsSafe(d, n.flights[a.device], a.id, a.row); }
    }
  }

  ghost predicate CarefulAll(n: Net, actions: seq<Action>, i: nat)
    requires History(n, actions)
  {
    forall k :: 0 <= k < |actions| && actions[k].device == i ==> Careful(DoAll(n, actions[..k]), actions[k])
  }

  lemma {:induction false} CarefulStaysHonest(n: Net, actions: seq<Action>, i: nat)
    requires Ordered(n) && History(n, actions) && Room(n.system, |actions|) && i < |n.system.devices|
    requires Honest(n, i) && CarefulAll(n, actions, i)
    ensures |DoAll(n, actions).system.devices| == |n.system.devices| && Honest(DoAll(n, actions), i)
  {
    hide Ordered, Do, Honest, Harmless, Careful, Possible;
    HistoryKeepsOrder(n, actions);
    if actions != [] {
      var k := |actions| - 1;
      HistoryPrefix(n, actions, k);
      HistoryKeepsOrder(n, actions[..k]);
      assert forall j :: 0 <= j <= k ==> actions[..k][..j] == actions[..j];
      CarefulStaysHonest(n, actions[..k], i);
      if actions[k].device == i { CarefulIsHarmless(DoAll(n, actions[..k]), actions[k]); }
      HonestStep(DoAll(n, actions[..k]), actions[k], i);
    }
  }

  // ---------- convergence after any history ----------

  lemma UnusedIsOrdered(n: Net)
    requires Unused(n)
    ensures Ordered(n) && forall i :: 0 <= i < |n.system.devices| ==> Honest(n, i)
  {}

  /**
   After every history of edits, split syncs, failures and restarts, two rounds
   of syncs bring a device level with the backend if and only if its cursor was
   honest at the end of the history or another device has news for the first
   round. They do for every device whose own steps were harmless, and so for
   every device that was careful itself.
   */
  lemma AnyHistoryConverges(n: Net, actions: seq<Action>, first: seq<nat>, second: seq<nat>, i: nat)
    requires Unused(n) && History(n, actions) && i < |n.system.devices|
    requires var s := DoAll(n, actions).system; Everyone(s, first) && Everyone(s, second)
    requires |actions| + |first| + |second| <= U64_MAX
    ensures var s := DoAll(n, actions).system;
            var end := SyncAll(SyncAll(s, first), second);
            && i < |s.devices|
            && (Level(end.devices[i].rows, end.backend.items) <==>
                  CursorOk(s.devices[i], s.backend) || OthersHaveNews(s, first, i))
            && (HarmlessAll(n, actions, i) || CarefulAll(n, actions, i) ==>
                  Level(end.devices[i].rows, end.backend.items))
  {
    hide SyncAll, DoAll, Level, OthersHaveNews, Careful, Harmless, Possible, CursorOk;
    UnusedIsOrdered(n);
    HistoryKeepsOrder(n, actions);
    if HarmlessAll(n, actions, i) { HarmlessStaysHonest(n, actions, i); }
    if CarefulAll(n, actions, i) { CarefulStaysHonest(n, actions, i); }
    TwoRoundsLevelIff(DoAll(n, actions).system, first, second, i);
  }

  // ---------- histories that do not converge ----------

  function Cell<V>(x: Option<V>): map<Id, V> {
    if x.None? then map[] else map[0 := x.value]
  }

  function SharedCell(r: Option<Row>): Option<Item> {
    if r.Some? && !r.value.localOnly then Some(r.value.item) else None
  }

  function ConsideredCell(r: Option<Row>, x: Option<Item>): Option<Row> {
    if x.None? then r else Some(Considered(r, x.value))
  }

  function AcceptedCell(x: Option<Item>, y: Option<Item>): Option<Item> {
    if y.Some? && (x.None? || Wins(y.value, x.value)) then y else x
  }

  /** A vault and a backend with at most one row. */
  lemma OneRow(r: Option<Row>, x: Option<Item>, y: Option<Item>)
    ensures ApplyAll(Cell(r), Cell(x)) == Cell(ConsideredCell(r, x))
    ensures Outgoing(Cell(r)) == Cell(SharedCell(r))
    ensures Accepted(Cell(x), Cell(y)) == Cell(AcceptedCell(x, y))
    ensures Cell(x) == Cell(y) <==> x == y
  {
    assert x.Some? ==> Cell(x)[0] == x.value && 0 in Cell(x);
    assert y.Some? ==> Cell(y)[0] == y.value && 0 in Cell(y);
  }

  datatype Cells = Cells(store: Option<Item>, revision: nat, r0: Option<Row>, c0: nat, r1: Option<Row>, c1: nat)

  /** Two devices, one row. */
  function Pair(c: Cells): System {
    System(Backend(Cell(c.store), c.revision), [Device(Cell(c.r0), c.c0), Device(Cell(c.r1), c.c1)])
  }

  const Start := Net(Pair(Cells(None, 0, None, 0, None, 0)), map[])

  /** Row, cursor, stored item and revision after a sync whose pull found `seen` at `at`. */
  function CellSync(r: Option<Row>, cursor: nat, seen: Option<Item>, at: nat, x: Option<Item>, revision: nat)
    : (Option<Row>, nat, Option<Item>, nat)
  {
    var row := ConsideredCell(r, if cursor >= at then None else seen);
    var stored := AcceptedCell(x, SharedCell(row));
    var after := if stored != x then Bump(revision) else revision;
    (row, Max(after, at), stored, after)
  }

  lemma CellSyncIs(r: Option<Row>, cursor: nat, seen: Option<Item>, at: nat, x: Option<Item>, revision: nat)
    ensures var b0 := Backend(Cell(seen), at);
            var (row, c, stored, after) := CellSync(r, cursor, seen, at, x, revision);
            FinishSync(Device(Cell(r), cursor), Pull(b0, cursor), at, Backend(Cell(x), revision))
            == (Device(Cell(row), c), Backend(Cell(stored), after))
  {
    hide ApplyAll, Outgoing, Accepted;
    var pulled := if cursor >= at then None else seen;
    assert Pull(Backend(Cell(seen), at), cursor) == Cell(pulled);
    OneRow(r, pulled, None);
    var row := ConsideredCell(r, pulled);
    OneRow(row, x, SharedCell(row));
    OneRow(None, x, AcceptedCell(x, SharedCell(row)));
  }

  function CellsSync(c: Cells, i: nat): Cells {
    if i == 0 then
      var (row, cursor, stored, after) := CellSync(c.r0, c.c0, c.store, c.revision, c.store, c.revision);
      Cells(stored, after, row, cursor, c.r1, c.c1)
    else
      var (row, cursor, stored, after) := CellSync(c.r1, c.c1, c.store, c.revision, c.store, c.revision);
      Cells(stored, after, c.r0, c.c0, row, cursor)
  }

  lemma PairSync(c: Cells, i: nat)
    requires i < 2
    ensures Sync(Pair(c), i) == Pair(CellsSync(c, i))
  {
    hide FinishSync, CellSync, Cell;
    var r, cursor := if i == 0 then c.r0 else c.r1, if i == 0 then c.c0 else c.c1;
    CellSyncIs(r, cursor, c.store, c.revision, c.store, c.revision);
  }

  /** A history of whole syncs and edits that leads to a state. */
  ghost predicate Reaches(actions: seq<Action>, c: Cells) {
    History(Start, actions) && DoAll(Start, actions) == Net(Pair(c), map[])
  }

  function Whole(i: nat): seq<Action> {
    [Begin(i), Finish(i)]
  }

  lemma Then(n: Net, actions: seq<Action>, a: Action)
    requires History(n, actions) && Possible(DoAll(n, actions), a)
    ensures History(n, actions + [a]) && DoAll(n, actions + [a]) == Do(DoAll(n, actions), a)
  {
    hide Possible, Do;
    var all := actions + [a];
    assert all[..|actions|] == actions;
    assert forall k :: 0 <= k <= |actions| ==> all[..k] == actions[..k];
  }

  lemma ThenSync(actions: seq<Action>, c: Cells, i: nat)
    requires Reaches(actions, c) && i < 2
    ensures Reaches(actions + Whole(i), CellsSync(c, i))
  {
    hide DoAll, FinishSync, CellsSync, Cell, History;
    Then(Start, actions, Begin(i));
    Then(Start, actions + [Begin(i)], Finish(i));
    assert actions + Whole(i) == actions + [Begin(i)] + [Finish(i)];
    PairSync(c, i);
    WholeSync(Net(Pair(c), map[]), i);
  }

  lemma ThenWrite(actions: seq<Action>, c: Cells, i: nat, row: Row)
    requires Reaches(actions, c) && i < 2
    requires var r := if i == 0 then c.r0 else c.r1; r.Some? ==> Wins(row.item, r.value.item)
    ensures Reaches(actions + [Write(i, 0, row)], if i == 0 then c.(r0 := Some(row)) else c.(r1 := Some(row)))
  {
    hide DoAll, History;
    Then(Start, actions, Write(i, 0, row));
    var after := if i == 0 then c.(r0 := Some(row)) else c.(r1 := Some(row));
    var r := if i == 0 then c.r0 else c.r1;
    assert Cell(r)[0 := row] == Cell(Some(row));
    assert Put(Net(Pair(c), map[]), i, Edit(Pair(c).devices[i], 0, row)) == Net(Pair(after), map[]);
  }

  lemma PairFixed(c: Cells, order: seq<nat>)
    requires CellsSync(c, 0) == c && CellsSync(c, 1) == c
    requires forall k :: 0 <= k < |order| ==> order[k] < 2
    ensures SyncAll(Pair(c), order) == Pair(c)
  {
    hide CellsSync, Cell, Sync;
    PairSync(c, 0);
    PairSync(c, 1);
    FixedStays(Pair(c), order);
  }

  const Published := [Write(0, 0, Row(Item(1, 1, []), false))] + Whole(0) + Whole(1)

  /** Device 0 writes a row, and both have it. */
  lemma Publish()
    ensures var v1 := Item(1, 1, []);
            Reaches(Published, Cells(Some(v1), 1, Some(Row(v1, false)), 1, Some(Row(v1, false)), 1))
  {
    hide Reaches;
    NothingYet();
    var row := Row(Item(1, 1, []), false);
    var c := Cells(None, 0, None, 0, None, 0);
    ThenWrite([], c, 0, row);
    assert [] + [Write(0, 0, row)] == [Write(0, 0, row)];
    c := c.(r0 := Some(row));
    ThenSync([Write(0, 0, row)], c, 0);
    ThenSync([Write(0, 0, row)] + Whole(0), CellsSync(c, 0), 1);
  }

  lemma NothingYet()
    ensures Reaches([], Cells(None, 0, None, 0, None, 0)) && Unused(Start)
  {}

  const Hidden := Published + [Write(0, 0, Row(Item(2, 2, []), true))]
  const Overtaken := Hidden + [Write(1, 0, Row(Item(2, 3, []), false))]
    + [Write(1, 0, Row(Item(3, 4, []), false))] + [Write(1, 0, Row(Item(4, 5, []), false))]
  const Reshared := Overtaken + Whole(1) + Whole(0) + [Write(0, 0, Row(Item(3, 6, []), false))]

  lemma Overtake()
    ensures Reaches(Overtaken, Cells(Some(Item(1, 1, [])), 1, Some(Row(Item(2, 2, []), true)), 1,
                                     Some(Row(Item(4, 5, []), false)), 1))
  {
    hide Reaches;
    Publish();
    var v1 := Row(Item(1, 1, []), false);
    var c := Cells(Some(v1.item), 1, Some(v1), 1, Some(v1), 1);
    ThenWrite(Published, c, 0, Row(Item(2, 2, []), true));
    c := c.(r0 := Some(Row(Item(2, 2, []), true)));
    ThenWrite(Hidden, c, 1, Row(Item(2, 3, []), false));
    var actions := Hidden + [Write(1, 0, Row(Item(2, 3, []), false))];
    ThenWrite(actions, c.(r1 := Some(Row(Item(2, 3, []), false))), 1, Row(Item(3, 4, []), false));
    actions := actions + [Write(1, 0, Row(Item(3, 4, []), false))];
    ThenWrite(actions, c.(r1 := Some(Row(Item(3, 4, []), false))), 1, Row(Item(4, 5, []), false));
  }

  const Behind := Cells(Some(Item(4, 5, [])), 2, Some(Row(Item(3, 6, []), false)), 2, Some(Row(Item(4, 5, []), false)), 2)

  lemma Reshare()
    ensures Reaches(Reshared, Behind)
  {
    Overtake();
    var v2, v4 := Row(Item(2, 2, []), true), Row(Item(4, 5, []), false);
    var c := Cells(Some(Item(1, 1, [])), 1, Some(v2), 1, Some(v4), 1);
    hide Reaches;
    ThenSync(Overtaken, c, 1);
    ThenSync(Overtaken + Whole(1), CellsSync(c, 1), 0);
    c := Cells(Some(v4.item), 2, Some(v2), 2, Some(v4), 2);
    ThenWrite(Overtaken + Whole(1) + Whole(0), c, 0, Row(Item(3, 6, []), false));
  }

  lemma BehindIsNotLevel()
    ensures CellsSync(Behind, 0) == Behind && CellsSync(Behind, 1) == Behind
    ensures !Level(Pair(Behind).devices[0].rows, Pair(Behind).backend.items)
  {
    assert 0 in Pair(Behind).backend.items;
  }

  /**
   Device 0 takes a row out of sync, device 1 moves it ahead, and device 0
   shares it again after having skipped the better version: from then on no
   sync of either device changes anything, and device 0 stays behind.
   */
  lemma ResharedStaysBehind(order: seq<nat>)
    requires forall k :: 0 <= k < |order| ==> order[k] < 2
    ensures Unused(Start) && History(Start, Reshared)
    ensures var s := DoAll(Start, Reshared).system;
            && |s.devices| == 2 && SyncAll(s, order) == s
            && !Level(s.devices[0].rows, s.backend.items)
  {
    NothingYet();
    Reshare();
    ReachesState(Reshared, Behind);
    BehindIsNotLevel();
    hide Level, CellsSync, History, DoAll, Cell;
    PairFixed(Behind, order);
  }

  lemma ReachesState(actions: seq<Action>, c: Cells)
    requires Reaches(actions, c)
    ensures History(Start, actions) && DoAll(Start, actions).system == Pair(c)
  {}

  const Tied := Published + [Write(0, 0, Row(Item(2, 2, [1]), false))] + [Write(1, 0, Row(Item(2, 2, [2]), false))]

  /** Two edits with equal version and time: whoever syncs how often, each device keeps its own contents. */
  lemma TiedStaysApart(order: seq<nat>)
    requires forall k :: 0 <= k < |order| ==> order[k] < 2
    ensures Unused(Start) && History(Start, Tied)
    ensures var s := DoAll(Start, Tied).system;
            && |s.devices| == 2
            && Copy(SyncAll(s, order), Vault(0), 0) == Some(Item(2, 2, [1]))
            && Copy(SyncAll(s, order), Vault(1), 0) == Some(Item(2, 2, [2]))
  {
    NothingYet();
    Publish();
    var v1 := Row(Item(1, 1, []), false);
    var mine, yours := Row(Item(2, 2, [1]), false), Row(Item(2, 2, [2]), false);
    var c := Cells(Some(v1.item), 1, Some(v1), 1, Some(v1), 1);
    hide Reaches;
    ThenWrite(Published, c, 0, mine);
    ThenWrite(Published + [Write(0, 0, mine)], c.(r0 := Some(mine)), 1, yours);
    c := Cells(Some(v1.item), 1, Some(mine), 1, Some(yours), 1);
    ReachesState(Tied, c);
    TiedTops(c);
    hide SyncAll, IsTop, Pair, Copy;
    TopStays(Pair(c), order, Vault(0), 0);
    TopStays(Pair(c), order, Vault(1), 0);
  }

  lemma TiedTops(c: Cells)
    requires c.store.Some? && c.r0.Some? && c.r1.Some? && !c.r0.value.localOnly && !c.r1.value.localOnly
    requires SameStamp(c.r0.value.item, c.r1.value.item) && Wins(c.r0.value.item, c.store.value)
    ensures Copy(Pair(c), Vault(0), 0) == Some(c.r0.value.item) && Copy(Pair(c), Vault(1), 0) == Some(c.r1.value.item)
    ensures IsTop(Pair(c), Vault(0), 0) && IsTop(Pair(c), Vault(1), 0)
  {
    assert forall i: nat :: i >= 2 ==> Copy(Pair(c), Vault(i), 0) == None;
  }

  const Empty := Backend(map[], 0)

  const Pulled := [Begin(0)] + [Write(1, 0, Row(Item(1, 1, []), false))]

  /** Device 0 has pulled from an empty backend and device 1 has written a row. */
  lemma PullThenWrite()
    ensures History(Start, Pulled)
    ensures DoAll(Start, Pulled)
         == Net(Pair(Cells(None, 0, None, 0, Some(Row(Item(1, 1, []), false)), 0)), map[0 := Empty])
  {
    NothingYet();
    hide DoAll, History;
    var row := Row(Item(1, 1, []), false);
    Then(Start, [], Begin(0));
    assert [] + [Begin(0)] == [Begin(0)];
    Then(Start, [Begin(0)], Write(1, 0, row));
  }

  /** Then device 1 publishes it. */
  lemma Interleave()
    ensures var row := Row(Item(1, 1, []), false);
            && History(Start, Pulled + Whole(1))
            && DoAll(Start, Pulled + Whole(1))
               == Net(Pair(Cells(Some(row.item), 1, None, 0, Some(row), 1)), map[0 := Empty])
  {
    var row := Row(Item(1, 1, []), false);
    var c := Cells(None, 0, None, 0, Some(row), 0);
    PullThenWrite();
    assert CellsSync(c, 1) == Cells(Some(row.item), 1, None, 0, Some(row), 1);
    hide DoAll, History, FinishSync, CellsSync, Cell;
    Then(Start, Pulled, Begin(1));
    Then(Start, Pulled + [Begin(1)], Finish(1));
    assert Pulled + Whole(1) == Pulled + [Begin(1)] + [Finish(1)];
    WholeSync(Net(Pair(c), map[0 := Empty]), 1);
    PairSync(c, 1);
  }

  lemma LateFinish(c: Cells)
    requires c.r0.None? && c.c0 == 0 && c.store.Some?
    ensures Do(Net(Pair(c), map[0 := Empty]), Finish(0)).system == Pair(c.(c0 := c.revision))
  {
    hide FinishSync;
    CellSyncIs(None, 0, None, 0, c.store, c.revision);
  }

  const Interleaved := Pulled + Whole(1) + [Finish(0)]

  const Missing := Cells(Some(Item(1, 1, [])), 1, None, 1, Some(Row(Item(1, 1, []), false)), 1)

  lemma InterleavedReaches()
    ensures History(Start, Interleaved) && DoAll(Start, Interleaved).system == Pair(Missing)
  {
    var row := Row(Item(1, 1, []), false);
    var c := Cells(Some(row.item), 1, None, 0, Some(row), 1);
    Interleave();
    hide DoAll, History, Do, Cell;
    Then(Start, Pulled + Whole(1), Finish(0));
    LateFinish(c);
  }

  lemma MissingIsFixed()
    ensures CellsSync(Missing, 0) == Missing && CellsSync(Missing, 1) == Missing
  {}

  /**
   A row first written between another device's pull and push is claimed by
   that device's cursor, and no sync of either device fetches it afterwards.
   */
  lemma InterleavedStaysMissing(order: seq<nat>)
    requires forall k :: 0 <= k < |order| ==> order[k] < 2
    ensures Unused(Start) && History(Start, Interleaved)
    ensures var s := DoAll(Start, Interleaved).system;
            && |s.devices| == 2 && SyncAll(s, order) == s
            && 0 in s.backend.items && 0 !in s.devices[0].rows
  {
    NothingYet();
    InterleavedReaches();
    MissingIsFixed();
    hide CellsSync, History, DoAll;
    PairFixed(Missing, order);
  }
}
