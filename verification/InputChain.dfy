/**
 The per-session write chain: each send waits on the promise stored for its
 session, replaces it, and removes it again once it is idle. Every callback
 (the queued call, its completion, the swallowed failure, the clean-up) is one
 atomic step, and the steps of all sends interleave freely.
 */
module InputChain {
  import opened Common

  type Session = string
  type Payload = seq<byte>

  /** Where a send is: queued, its call running, its call back, its chain promise resolved, its clean-up run. */
  datatype Phase = Waiting | Calling | Returned(ok: bool) | Settled | Cleaned

  /** `prev` is the stored promise it was chained to, or None for an already resolved one. */
  datatype Send = Send(session: Session, payload: Payload, prev: Option<nat>, phase: Phase)

  /** `tail` is the promise map, `started` the order in which backend calls were made. */
  datatype Chains = Chains(sends: seq<Send>, tail: map<Session, nat>, started: seq<nat>, suppressedUntil: int)

  const Empty := Chains([], map[], [], 0)

  datatype Action =
    | Suppress(now: int, duration: int)
    | Submit(session: Session, payload: Payload, force: bool, time: int)
    | Begin(k: nat)
    | Complete(k: nat, ok: bool)
    | Settle(k: nat)
    | CleanUp(k: nat)

  predicate Done(sends: seq<Send>, k: nat) {
    k < |sends| && (sends[k].phase == Settled || sends[k].phase == Cleaned)
  }

  predicate Dropped(c: Chains, force: bool, now: int) {
    !force && now < c.suppressedUntil
  }

  predicate Enabled(c: Chains, a: Action) {
    match a
    case Suppress(_, _) => true
    case Submit(_, _, _, _) => true
    case Begin(k) =>
      k < |c.sends| && c.sends[k].phase == Waiting
      && (c.sends[k].prev.Some? ==> Done(c.sends, c.sends[k].prev.value))
    case Complete(k, _) => k < |c.sends| && c.sends[k].phase == Calling
    case Settle(k) => k < |c.sends| && c.sends[k].phase.Returned?
    case CleanUp(k) => k < |c.sends| && c.sends[k].phase == Settled
  }

  function Move(sends: seq<Send>, k: nat, phase: Phase): seq<Send>
    requires k < |sends|
  {
    sends[k := sends[k].(phase := phase)]
  }

  function Next(c: Chains, a: Action): Chains
    requires Enabled(c, a)
  {
    match a
    case Suppress(now, duration) =>
      c.(suppressedUntil := if c.suppressedUntil < now + duration then now + duration else c.suppressedUntil)
    case Submit(session, payload, force, now) =>
      if Dropped(c, force, now) then c
      else
        var prev := if session in c.tail then Some(c.tail[session]) else None;
        c.(sends := c.sends + [Send(session, payload, prev, Waiting)], tail := c.tail[session := |c.sends|])
    case Begin(k) => c.(sends := Move(c.sends, k, Calling), started := c.started + [k])
    case Complete(k, ok) => c.(sends := Move(c.sends, k, Returned(ok)))
    case Settle(k) => c.(sends := Move(c.sends, k, Settled))
    case CleanUp(k) =>
      var s := c.sends[k].session;
      c.(sends := Move(c.sends, k, Cleaned),
         tail := if s in c.tail && c.tail[s] == k then c.tail - {s} else c.tail)
  }

  ghost predicate Valid(c: Chains, actions: seq<Action>)
    decreases |actions|
  {
    actions == [] || (Enabled(c, actions[0]) && Valid(Next(c, actions[0]), actions[1..]))
  }

  ghost function Run(c: Chains, actions: seq<Action>): Chains
    requires Valid(c, actions)
    decreases |actions|
  {
    if actions == [] then c else Run(Next(c, actions[0]), actions[1..])
  }

  // ---------- the invariant ----------

  predicate Same(sends: seq<Send>, i: nat, s: Session) {
    i < |sends| && sends[i].session == s
  }

  /** Every send of `s` before `k` has settled. */
  ghost predicate DoneBefore(sends: seq<Send>, k: nat, s: Session) {
    forall i :: 0 <= i < k && Same(sends, i, s) ==> Done(sends, i)
  }

  /** `j` is the last send of `s` before `k`. */
  ghost predicate LastBefore(sends: seq<Send>, j: nat, k: nat, s: Session) {
    j < k && Same(sends, j, s) && forall i :: j < i < k ==> !Same(sends, i, s)
  }

  ghost predicate LinkOk(sends: seq<Send>, k: nat)
    requires k < |sends|
  {
    var send := sends[k];
    && (send.prev.None? ==> DoneBefore(sends, k, send.session))
    && (send.prev.Some? ==> LastBefore(sends, send.prev.value, k, send.session))
    && (send.phase != Waiting ==> DoneBefore(sends, k, send.session))
  }

  ghost predicate TailOk(c: Chains, s: Session) {
    if s in c.tail then LastBefore(c.sends, c.tail[s], |c.sends|, s) else DoneBefore(c.sends, |c.sends|, s)
  }

  ghost predicate Inv(c: Chains) {
    && (forall k :: 0 <= k < |c.sends| ==> LinkOk(c.sends, k))
    && (forall s :: TailOk(c, s))
    && (forall i :: 0 <= i < |c.started| ==> c.started[i] < |c.sends|)
  }

  lemma MoveKeepsOrder(sends: seq<Send>, k: nat, phase: Phase)
    requires k < |sends| && (Done(sends, k) ==> phase == Cleaned)
    ensures forall s, i :: DoneBefore(sends, i, s) ==> DoneBefore(Move(sends, k, phase), i, s)
    ensures forall s, j, i :: LastBefore(sends, j, i, s) ==> LastBefore(Move(sends, k, phase), j, i, s)
  {
    var after := Move(sends, k, phase);
    assert forall i, s :: Same(after, i, s) <==> Same(sends, i, s);
    assert forall i :: Done(sends, i) ==> Done(after, i);
  }

  /** A phase change that only moves a send forward keeps every link. */
  lemma MoveKeepsLinks(sends: seq<Send>, k: nat, phase: Phase)
    requires k < |sends| && forall i :: 0 <= i < |sends| ==> LinkOk(sends, i)
    requires Done(sends, k) ==> phase == Cleaned
    requires DoneBefore(sends, k, sends[k].session)
    ensures forall i :: 0 <= i < |sends| ==> LinkOk(Move(sends, k, phase), i)
  {
    hide DoneBefore, LastBefore;
    MoveKeepsOrder(sends, k, phase);
    forall i | 0 <= i < |sends| ensures LinkOk(Move(sends, k, phase), i) {
      assert LinkOk(sends, i);
    }
  }

  lemma BeginIsFirst(c: Chains, k: nat)
    requires Inv(c) && Enabled(c, Begin(k))
    ensures DoneBefore(c.sends, k, c.sends[k].session)
  {
    assert LinkOk(c.sends, k);
    if c.sends[k].prev.Some? {
      assert LinkOk(c.sends, c.sends[k].prev.value);
    }
  }

  lemma PhaseKeepsInv(c: Chains, k: nat, phase: Phase)
    requires Inv(c) && k < |c.sends| && (Done(c.sends, k) ==> phase == Cleaned)
    requires DoneBefore(c.sends, k, c.sends[k].session)
    ensures Inv(c.(sends := Move(c.sends, k, phase)))
  {
    hide DoneBefore, LastBefore, LinkOk;
    MoveKeepsLinks(c.sends, k, phase);
    MoveKeepsOrder(c.sends, k, phase);
    var d := c.(sends := Move(c.sends, k, phase));
    forall s ensures TailOk(d, s) {
      assert TailOk(c, s);
    }
  }

  lemma SubmitKeepsInv(c: Chains, a: Action)
    requires Inv(c) && a.Submit?
    ensures Inv(Next(c, a))
  {
    var d := Next(c, a);
    if d != c {
      var n := |c.sends|;
      assert forall i: nat, s :: i < n ==> (Same(d.sends, i, s) <==> Same(c.sends, i, s));
      assert forall i: nat :: i < n ==> (Done(d.sends, i) <==> Done(c.sends, i));
      forall k | 0 <= k < |d.sends| ensures LinkOk(d.sends, k) {
        if k < n { assert LinkOk(c.sends, k); } else { assert TailOk(c, a.session); }
      }
      forall s ensures TailOk(d, s) {
        assert TailOk(c, s);
      }
    }
  }

  lemma CleanUpKeepsInv(c: Chains, k: nat)
    requires Inv(c) && Enabled(c, CleanUp(k))
    ensures Inv(Next(c, CleanUp(k)))
  {
    assert LinkOk(c.sends, k);
    PhaseKeepsInv(c, k, Cleaned);
    var mid, d := c.(sends := Move(c.sends, k, Cleaned)), Next(c, CleanUp(k));
    var s := c.sends[k].session;
    forall t ensures TailOk(d, t) {
      assert TailOk(mid, t);
      if t == s && s in c.tail && c.tail[s] == k {
        assert LinkOk(mid.sends, k) && LastBefore(mid.sends, k, |mid.sends|, s);
        assert Done(mid.sends, k);
        assert DoneBefore(mid.sends, |mid.sends|, s);
      }
    }
  }

  lemma StepKeepsInv(c: Chains, a: Action)
    requires Inv(c) && Enabled(c, a)
    ensures Inv(Next(c, a))
  {
    match a
    case Suppress(_, _) =>
      forall s ensures TailOk(Next(c, a), s) { assert TailOk(c, s); }
    case Submit(_, _, _, _) => SubmitKeepsInv(c, a);
    case Begin(k) => BeginIsFirst(c, k); PhaseKeepsInv(c, k, Calling);
      forall s ensures TailOk(Next(c, a), s) { assert TailOk(c.(sends := Move(c.sends, k, Calling)), s); }
    case Complete(k, ok) => assert LinkOk(c.sends, k); PhaseKeepsInv(c, k, Returned(ok));
    case Settle(k) => assert LinkOk(c.sends, k); PhaseKeepsInv(c, k, Settled);
    case CleanUp(k) => CleanUpKeepsInv(c, k);
  }

  // ---------- refinement of a FIFO queue ----------

  /** What an observer of one session sees: calls made, whether one is running, and what still waits. */
  datatype Fifo = Fifo(written: seq<Payload>, running: bool, queue: seq<Payload>)

  function WaitingOf(sends: seq<Send>, s: Session): seq<Payload> {
    if sends == [] then []
    else
      var last := sends[|sends| - 1];
      WaitingOf(sends[..|sends| - 1], s) + (if last.session == s && last.phase == Waiting then [last.payload] else [])
  }

  function WrittenOf(sends: seq<Send>, started: seq<nat>, s: Session): seq<Payload>
    requires forall i :: 0 <= i < |started| ==> started[i] < |sends|
  {
    if started == [] then []
    else
      var n := |started| - 1;
      WrittenOf(sends, started[..n], s)
      + (if sends[started[n]].session == s then [sends[started[n]].payload] else [])
  }

  predicate IsRunning(sends: seq<Send>, s: Session) {
    exists i :: 0 <= i < |sends| && sends[i].session == s && sends[i].phase == Calling
  }

  ghost function Observe(c: Chains, s: Session): Fifo
    requires Inv(c)
  {
    Fifo(WrittenOf(c.sends, c.started, s), IsRunning(c.sends, s), WaitingOf(c.sends, s))
  }

  /** The queue's own steps: append, start the oldest when idle, finish the running one. */
  ghost predicate FifoStep(f: Fifo, g: Fifo) {
    || g == f
    || (exists p :: g == f.(queue := f.queue + [p]))
    || (!f.running && f.queue != [] && g == Fifo(f.written + [f.queue[0]], true, f.queue[1..]))
    || (f.running && g == f.(running := false))
  }

  lemma {:induction false} WaitingUnchanged(x: seq<Send>, y: seq<Send>, s: Session)
    requires |x| == |y|
    requires forall i :: 0 <= i < |x| ==>
      x[i].payload == y[i].payload
      && ((x[i].session == s && x[i].phase == Waiting) <==> (y[i].session == s && y[i].phase == Waiting))
    ensures WaitingOf(x, s) == WaitingOf(y, s)
  {
    if x != [] {
      WaitingUnchanged(x[..|x| - 1], y[..|y| - 1], s);
    }
  }

  lemma {:induction false} NoneWaiting(sends: seq<Send>, s: Session)
    requires forall i :: 0 <= i < |sends| && sends[i].session == s ==> sends[i].phase != Waiting
    ensures WaitingOf(sends, s) == []
  {
    if sends != [] {
      NoneWaiting(sends[..|sends| - 1], s);
    }
  }

  /** Starting the first waiting send takes exactly the head of the queue. */
  lemma {:induction false} HeadLeaves(sends: seq<Send>, k: nat, s: Session)
    requires k < |sends| && sends[k].session == s && sends[k].phase == Waiting
    requires forall i :: 0 <= i < k && sends[i].session == s ==> sends[i].phase != Waiting
    ensures WaitingOf(sends, s) == [sends[k].payload] + WaitingOf(Move(sends, k, Calling), s)
  {
    var n := |sends| - 1;
    var after := Move(sends, k, Calling);
    if k == n {
      NoneWaiting(sends[..n], s);
      assert after[..n] == sends[..n];
    } else {
      HeadLeaves(sends[..n], k, s);
      assert after[..n] == Move(sends[..n], k, Calling);
    }
  }

  lemma {:induction false} WrittenUnchanged(x: seq<Send>, y: seq<Send>, started: seq<nat>, s: Session)
    requires |x| <= |y| && forall i :: 0 <= i < |started| ==> started[i] < |x|
    requires forall i :: 0 <= i < |x| ==> x[i].session == y[i].session && x[i].payload == y[i].payload
    ensures WrittenOf(x, started, s) == WrittenOf(y, started, s)
  {
    if started != [] {
      WrittenUnchanged(x, y, started[..|started| - 1], s);
    }
  }

  function Target(c: Chains, a: Action): Option<Session> {
    match a
    case Suppress(_, _) => None
    case Submit(s, _, _, _) => Some(s)
    case Begin(k) => if k < |c.sends| then Some(c.sends[k].session) else None
    case Complete(k, _) => if k < |c.sends| then Some(c.sends[k].session) else None
    case Settle(k) => if k < |c.sends| then Some(c.sends[k].session) else None
    case CleanUp(k) => if k < |c.sends| then Some(c.sends[k].session) else None
  }

  lemma RunningMoves(sends: seq<Send>, k: nat, phase: Phase, s: Session)
    requires k < |sends|
    ensures sends[k].session != s || (sends[k].phase != Calling && phase != Calling) ==>
              IsRunning(Move(sends, k, phase), s) == IsRunning(sends, s)
    ensures sends[k].session == s && phase == Calling ==> IsRunning(Move(sends, k, phase), s)
  {
    var after := Move(sends, k, phase);
    if IsRunning(sends, s) {
      var i :| 0 <= i < |sends| && sends[i].session == s && sends[i].phase == Calling;
      assert i != k ==> after[i] == sends[i];
    }
    if sends[k].session == s && phase == Calling {
      assert after[k].phase == Calling;
    }
  }

  /** Phase changes away from Waiting leave the queue alone. */
  lemma MoveObserved(c: Chains, k: nat, phase: Phase, s: Session)
    requires Inv(c) && k < |c.sends| && phase != Waiting
    requires c.sends[k].session != s || c.sends[k].phase != Waiting
    ensures WaitingOf(Move(c.sends, k, phase), s) == WaitingOf(c.sends, s)
    ensures WrittenOf(Move(c.sends, k, phase), c.started, s) == WrittenOf(c.sends, c.started, s)
  {
    WaitingUnchanged(c.sends, Move(c.sends, k, phase), s);
    WrittenUnchanged(c.sends, Move(c.sends, k, phase), c.started, s);
  }

  /** At most one call per session is outstanding, and nothing later has started. */
  lemma OnlyOneCalls(c: Chains, i: nat, k: nat)
    requires Inv(c) && i < |c.sends| && k < |c.sends| && c.sends[i].session == c.sends[k].session
    requires c.sends[i].phase == Calling
    ensures c.sends[k].phase == Calling ==> i == k
    ensures k < i ==> Done(c.sends, k)
    ensures i < k ==> c.sends[k].phase == Waiting
  {
    assert LinkOk(c.sends, i) && LinkOk(c.sends, k);
    assert Same(c.sends, i, c.sends[i].session) && Same(c.sends, k, c.sends[k].session);
  }

  lemma AppendedIsIdle(sends: seq<Send>, send: Send, s: Session)
    requires send.phase == Waiting
    ensures IsRunning(sends + [send], s) == IsRunning(sends, s)
    ensures WaitingOf(sends + [send], s)
         == WaitingOf(sends, s) + (if send.session == s then [send.payload] else [])
  {
    var after := sends + [send];
    assert after[..|sends|] == sends;
    if IsRunning(sends, s) {
      var i :| 0 <= i < |sends| && sends[i].session == s && sends[i].phase == Calling;
      assert after[i] == sends[i];
    }
  }

  lemma SubmitRefines(c: Chains, a: Action, s: Session)
    requires Inv(c) && a.Submit?
    ensures Inv(Next(c, a))
    ensures Observe(Next(c, a), s)
         == if a.session == s && !Dropped(c, a.force, a.time)
            then Observe(c, s).(queue := Observe(c, s).queue + [a.payload]) else Observe(c, s)
  {
    hide LinkOk, TailOk, IsRunning, WaitingOf, WrittenOf;
    SubmitKeepsInv(c, a);
    var d := Next(c, a);
    if !Dropped(c, a.force, a.time) {
      AppendedIsIdle(c.sends, d.sends[|c.sends|], s);
      WrittenUnchanged(c.sends, d.sends, c.started, s);
    }
  }

  lemma BeginRefines(c: Chains, k: nat)
    requires Inv(c) && Enabled(c, Begin(k))
    ensures Inv(Next(c, Begin(k)))
    ensures var s := c.sends[k].session;
            var f := Observe(c, s);
            && !f.running && f.queue != []
            && Observe(Next(c, Begin(k)), s) == Fifo(f.written + [f.queue[0]], true, f.queue[1..])
  {
    var s := c.sends[k].session;
    StepKeepsInv(c, Begin(k));
    BeginIsFirst(c, k);
    forall i | 0 <= i < k && c.sends[i].session == s ensures c.sends[i].phase != Waiting {
      assert Same(c.sends, i, s);
    }
    HeadLeaves(c.sends, k, s);
    if IsRunning(c.sends, s) {
      var i :| 0 <= i < |c.sends| && c.sends[i].session == s && c.sends[i].phase == Calling;
      OnlyOneCalls(c, i, k);
      assert Same(c.sends, i, s) && Same(c.sends, k, s);
      assert false;
    }
    var d := Next(c, Begin(k));
    RunningMoves(c.sends, k, Calling, s);
    WrittenUnchanged(c.sends, d.sends, c.started, s);
    assert d.started[..|c.started|] == c.started;
  }

  lemma CompleteRefines(c: Chains, k: nat, ok: bool)
    requires Inv(c) && Enabled(c, Complete(k, ok))
    ensures Inv(Next(c, Complete(k, ok)))
    ensures var s := c.sends[k].session;
            Observe(c, s).running && Observe(Next(c, Complete(k, ok)), s) == Observe(c, s).(running := false)
  {
    var s := c.sends[k].session;
    StepKeepsInv(c, Complete(k, ok));
    MoveObserved(c, k, Returned(ok), s);
    var d := Next(c, Complete(k, ok));
    assert IsRunning(c.sends, s);
    if IsRunning(d.sends, s) {
      var i :| 0 <= i < |d.sends| && d.sends[i].session == s && d.sends[i].phase == Calling;
      OnlyOneCalls(c, k, i);
    }
  }

  lemma OtherMoves(c: Chains, k: nat, phase: Phase, s: Session)
    requires Inv(c) && k < |c.sends| && phase != Waiting && phase != Calling
    requires c.sends[k].session != s || (c.sends[k].phase != Waiting && c.sends[k].phase != Calling)
    ensures Fifo(WrittenOf(Move(c.sends, k, phase), c.started, s), IsRunning(Move(c.sends, k, phase), s),
                 WaitingOf(Move(c.sends, k, phase), s)) == Observe(c, s)
  {
    MoveObserved(c, k, phase, s);
    RunningMoves(c.sends, k, phase, s);
  }

  /** A step never shows on any session but the one it belongs to. */
  lemma SessionsAreIndependent(c: Chains, a: Action, s: Session)
    requires Inv(c) && Enabled(c, a) && Target(c, a) != Some(s)
    ensures Inv(Next(c, a)) && Observe(Next(c, a), s) == Observe(c, s)
  {
    StepKeepsInv(c, a);
    match a
    case Suppress(_, _) =>
    case Submit(_, _, _, _) => SubmitRefines(c, a, s);
    case Begin(k) =>
      MoveObserved(c, k, Calling, s);
      RunningMoves(c.sends, k, Calling, s);
      assert Next(c, a).started[..|c.started|] == c.started;
    case Complete(k, ok) => OtherMoves(c, k, Returned(ok), s);
    case Settle(k) => OtherMoves(c, k, Settled, s);
    case CleanUp(k) => OtherMoves(c, k, Cleaned, s);
  }

  /** Every interleaved step is a step of the session's FIFO queue, or invisible to it. */
  lemma StepRefinesFifo(c: Chains, a: Action, s: Session)
    requires Inv(c) && Enabled(c, a)
    ensures Inv(Next(c, a)) && FifoStep(Observe(c, s), Observe(Next(c, a), s))
  {
    hide Observe, Inv;
    if Target(c, a) != Some(s) {
      SessionsAreIndependent(c, a, s);
    } else {
      StepKeepsInv(c, a);
      match a
      case Submit(_, _, _, _) => SubmitRefines(c, a, s);
      case Begin(k) => BeginRefines(c, k);
      case Complete(k, ok) => CompleteRefines(c, k, ok);
      case Settle(k) => SilentStep(c, a, k, Settled, s);
      case CleanUp(k) => SilentStep(c, a, k, Cleaned, s);
    }
  }

  lemma SilentStep(c: Chains, a: Action, k: nat, phase: Phase, s: Session)
    requires Inv(c) && Enabled(c, a) && k < |c.sends| && Inv(Next(c, a))
    requires (a == Settle(k) && phase == Settled) || (a == CleanUp(k) && phase == Cleaned)
    ensures Observe(Next(c, a), s) == Observe(c, s)
  {
    OtherMoves(c, k, phase, s);
  }

  // ---------- whole runs ----------

  /** The payloads of a session that a run accepted, in the order of the calls. */
  ghost function Accepted(c: Chains, actions: seq<Action>, s: Session): seq<Payload>
    requires Valid(c, actions)
    decreases |actions|
  {
    if actions == [] then []
    else
      var a := actions[0];
      (if a.Submit? && a.session == s && !Dropped(c, a.force, a.time) then [a.payload] else [])
      + Accepted(Next(c, a), actions[1..], s)
  }

  ghost function History(f: Fifo): seq<Payload> {
    f.written + f.queue
  }

  lemma StepHistory(c: Chains, a: Action, s: Session)
    requires Inv(c) && Enabled(c, a)
    ensures Inv(Next(c, a))
    ensures History(Observe(Next(c, a), s))
         == History(Observe(c, s))
            + (if a.Submit? && a.session == s && !Dropped(c, a.force, a.time) then [a.payload] else [])
  {
    hide Observe, Inv;
    var f := Observe(c, s);
    if a.Submit? {
      SubmitRefines(c, a, s);
      Associate(f.written, f.queue, [a.payload]);
    } else if Target(c, a) != Some(s) {
      SessionsAreIndependent(c, a, s);
    } else {
      StepKeepsInv(c, a);
      match a
      case Begin(k) =>
        BeginRefines(c, k);
        assert f.queue == [f.queue[0]] + f.queue[1..];
        Associate(f.written, [f.queue[0]], f.queue[1..]);
      case Complete(k, ok) => CompleteRefines(c, k, ok);
      case Settle(k) => SilentStep(c, a, k, Settled, s);
      case CleanUp(k) => SilentStep(c, a, k, Cleaned, s);
    }
  }

  /**
   In every run, for every session, the backend calls made so far followed by
   the sends still waiting are exactly the accepted sends in call order:
   nothing overtakes, is lost or is repeated, whatever fails or is cleaned up.
   */
  lemma {:induction false} RunIsFifo(c: Chains, actions: seq<Action>, s: Session)
    requires Inv(c) && Valid(c, actions)
    ensures Inv(Run(c, actions))
    ensures History(Observe(Run(c, actions), s)) == History(Observe(c, s)) + Accepted(c, actions, s)
    decreases |actions|
  {
    hide Observe, Inv, History;
    if actions != [] {
      StepHistory(c, actions[0], s);
      RunIsFifo(Next(c, actions[0]), actions[1..], s);
    }
  }

  // ---------- suppression ----------

  /** Some earlier call asked to suppress user input until after `time`. */
  ghost predicate Silenced(past: seq<Action>, time: int) {
    exists k :: 0 <= k < |past| && past[k].Suppress? && time < past[k].now + past[k].duration
  }

  /** The payloads of the sends that were forced or came when nothing was suppressed, in call order. */
  ghost function LetThrough(past: seq<Action>, actions: seq<Action>, s: Session): seq<Payload>
    decreases |actions|
  {
    if actions == [] then []
    else
      var a := actions[0];
      (if a.Submit? && a.session == s && (a.force || !Silenced(past, a.time)) then [a.payload] else [])
      + LetThrough(past + [a], actions[1..], s)
  }

  /** The stored deadline answers like the list of suppression calls. */
  ghost predicate Remembers(c: Chains, past: seq<Action>) {
    forall time: nat :: time < c.suppressedUntil <==> Silenced(past, time)
  }

  lemma SilencedSnoc(past: seq<Action>, a: Action, time: int)
    ensures Silenced(past + [a], time) <==> Silenced(past, time) || (a.Suppress? && time < a.now + a.duration)
  {
    var all := past + [a];
    assert all[|past|] == a;
    if k :| 0 <= k < |past| && past[k].Suppress? && time < past[k].now + past[k].duration { assert all[k] == past[k]; }
  }

  lemma StepRemembers(c: Chains, past: seq<Action>, a: Action)
    requires Remembers(c, past) && Enabled(c, a)
    ensures Remembers(Next(c, a), past + [a])
  {
    hide Silenced;
    forall time: nat ensures time < Next(c, a).suppressedUntil <==> Silenced(past + [a], time) {
      SilencedSnoc(past, a, time);
    }
  }

  ghost predicate Dated(actions: seq<Action>) {
    forall i :: 0 <= i < |actions| && actions[i].Submit? ==> 0 <= actions[i].time
  }

  lemma {:induction false} AcceptedIffLetThrough(c: Chains, past: seq<Action>, actions: seq<Action>, s: Session)
    requires Valid(c, actions) && Remembers(c, past) && Dated(actions)
    ensures Accepted(c, actions, s) == LetThrough(past, actions, s)
    decreases |actions|
  {
    if actions != [] {
      var a := actions[0];
      assert a.Submit? ==> (Dropped(c, a.force, a.time) <==> !a.force && Silenced(past, a.time)) by {
        if a.Submit? { var t: nat := a.time; assert t < c.suppressedUntil <==> Silenced(past, t); }
      }
      hide Silenced, Next;
      StepRemembers(c, past, a);
      AcceptedIffLetThrough(Next(c, a), past + [a], actions[1..], s);
    }
  }

  /**
   From the start of the application: the backend calls of a session followed by
   its waiting sends are exactly the sends that were forced or made while no
   suppression was in force, in call order.
   */
  lemma SuppressedIffSilenced(actions: seq<Action>, s: Session)
    requires Valid(Empty, actions) && Dated(actions)
    ensures Inv(Run(Empty, actions))
    ensures History(Observe(Run(Empty, actions), s)) == LetThrough([], actions, s)
  {
    EmptyIsIdle(s);
    hide Inv, Observe, Run, Accepted, LetThrough, Valid;
    RunIsFifo(Empty, actions, s);
    AcceptedIffLetThrough(Empty, [], actions, s);
  }

  lemma EmptyIsIdle(s: Session)
    ensures Inv(Empty) && History(Observe(Empty, s)) == [] && Remembers(Empty, [])
  {}

  /** No send is ever stuck: while one is unfinished, its session has a step to take, even after failures. */
  lemma {:induction false} Progress(c: Chains, s: Session, k: nat) returns (a: Action)
    requires Inv(c) && k < |c.sends| && c.sends[k].session == s && !Done(c.sends, k)
    ensures Enabled(c, a) && Target(c, a) == Some(s) && (a.Begin? || a.Complete? || a.Settle?)
  {
    if i: nat :| i < k && Same(c.sends, i, s) && !Done(c.sends, i) {
      a := Progress(c, s, i);
    } else {
      assert LinkOk(c.sends, k);
      match c.sends[k].phase
      case Waiting => a := Begin(k);
      case Calling => a := Complete(k, true);
      case Returned(_) => a := Settle(k);
    }
  }

  /** A map entry is always a promise whose clean-up has not run: an idle chain keeps no entry. */
  ghost predicate NoStale(c: Chains) {
    forall s :: s in c.tail ==> c.tail[s] < |c.sends| && c.sends[c.tail[s]].phase != Cleaned
  }

  lemma StepKeepsNoStale(c: Chains, a: Action)
    requires Inv(c) && NoStale(c) && Enabled(c, a)
    ensures NoStale(Next(c, a))
  {
    var d := Next(c, a);
    forall s | s in d.tail ensures d.tail[s] < |d.sends| && d.sends[d.tail[s]].phase != Cleaned {
      assert TailOk(c, s);
    }
  }

  lemma {:induction false} RunKeepsNoStale(c: Chains, actions: seq<Action>)
    requires Inv(c) && NoStale(c) && Valid(c, actions)
    ensures NoStale(Run(c, actions))
    ensures (forall i :: 0 <= i < |Run(c, actions).sends| ==> Run(c, actions).sends[i].phase == Cleaned) ==>
              Run(c, actions).tail == map[]
    decreases |actions|
  {
    hide Inv;
    if actions == [] {
      if forall i :: 0 <= i < |c.sends| ==> c.sends[i].phase == Cleaned {
        assert forall s :: s !in c.tail;
      }
    } else {
      StepKeepsInv(c, actions[0]);
      StepKeepsNoStale(c, actions[0]);
      RunKeepsNoStale(Next(c, actions[0]), actions[1..]);
    }
  }

  // ---------- the chain object ----------

  class InputChains {
    var sends: seq<Send>
    var tail: map<Session, nat>
    var started: seq<nat>
    var suppressedUntil: int

    ghost function View(): Chains
      reads this
    {
      Chains(sends, tail, started, suppressedUntil)
    }

    constructor ()
      ensures View() == Empty && Inv(View()) && NoStale(View())
    {
      sends, tail, started, suppressedUntil := [], map[], [], 0;
    }

    method SuppressUserInput(now: int, duration: int)
      modifies this
      ensures View() == Next(old(View()), Suppress(now, duration))
    {
      if suppressedUntil < now + duration {
        suppressedUntil := now + duration;
      }
    }

    method SendTerminalInput(session: Session, payload: Payload, force: bool, now: int)
      modifies this
      ensures View() == Next(old(View()), Submit(session, payload, force, now))
    {
      if !force && now < suppressedUntil { return; }
      var prev := if session in tail then Some(tail[session]) else None;
      var id := |sends|;
      sends := sends + [Send(session, payload, prev, Waiting)];
      tail := tail[session := id];
    }

    method OnPrevResolved(k: nat)
      requires Enabled(View(), Begin(k))
      modifies this
      ensures View() == Next(old(View()), Begin(k))
    {
      sends := sends[k := sends[k].(phase := Calling)];
      started := started + [k];
    }

    method OnCallReturned(k: nat, ok: bool)
      requires Enabled(View(), Complete(k, ok))
      modifies this
      ensures View() == Next(old(View()), Complete(k, ok))
    {
      sends := sends[k := sends[k].(phase := Returned(ok))];
    }

    method OnCaught(k: nat)
      requires Enabled(View(), Settle(k))
      modifies this
      ensures View() == Next(old(View()), Settle(k))
    {
      sends := sends[k := sends[k].(phase := Settled)];
    }

    method OnSettled(k: nat)
      requires Enabled(View(), CleanUp(k))
      modifies this
      ensures View() == Next(old(View()), CleanUp(k))
    {
      var s := sends[k].session;
      sends := sends[k := sends[k].(phase := Cleaned)];
      if s in tail && tail[s] == k {
        tail := tail - {s};
      }
    }
  }
}
