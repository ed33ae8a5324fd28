/**
 The host-key prompt broker. `decide` registers a one-shot sender under a new
 prompt id, announces the prompt and waits; `respond` takes the sender out and
 sends the answer; `clear` drops every registered sender. Every lock-protected
 section, channel operation and wake-up is one atomic step, and the steps of
 all calls interleave freely.
 */
module PromptBroker {
  import opened Common

  type Id = nat

  /** `late` answers reached the channel after its last look and before its receiver was gone. */
  datatype Answer = Answer(accepted: bool, late: bool)

  /** The one-shot channel of a prompt as its receiver will find it. */
  datatype Channel = Open | Sent(answer: Answer) | Dropped

  datatype Decision = AcceptAndRemember | Reject

  /** How far a `decide` call has come. The receiver is alive until it has heard or returned. */
  datatype Phase =
    | Registered
    | Failing                    // the announcement failed
    | Listening
    | Expiring                   // the wait found no answer and its time is over
    | Heard(accepted: bool)
    | Finished(decision: Decision)

  datatype Task = Task(phase: Phase, channel: Channel, announced: bool)

  datatype Outcome = Delivered(late: bool) | NoLonger | Expired

  /** A finished `respond` call. */
  datatype Reply = Reply(id: Id, accepted: bool, outcome: Outcome)

  /** `pending` holds the ids with a registered sender, `taken` the senders a `respond` call has removed but not used. */
  datatype Broker = Broker(pending: set<Id>, taken: map<Id, bool>, tasks: map<Id, Task>, replies: seq<Reply>)

  const Empty := Broker({}, map[], map[], [])

  datatype Step =
    | Register(id: Id)
    | Announce(id: Id, ok: bool)
    | Abort(id: Id)
    | Wake(id: Id)
    | Expire(id: Id)
    | Timeout(id: Id)
    | Finish(id: Id)
    | Take(id: Id, accepted: bool)
    | Deliver(id: Id)
    | Clear

  predicate Alive(phase: Phase) {
    phase.Registered? || phase.Failing? || phase.Listening? || phase.Expiring?
  }

  predicate In(b: Broker, id: Id, phase: Phase) {
    id in b.tasks && b.tasks[id].phase == phase
  }

  predicate Enabled(b: Broker, s: Step) {
    match s
    case Register(id) => id !in b.tasks
    case Announce(id, _) => In(b, id, Registered)
    case Abort(id) => In(b, id, Failing)
    case Wake(id) => In(b, id, Listening) && b.tasks[id].channel != Open
    case Expire(id) => In(b, id, Listening) && b.tasks[id].channel == Open
    case Timeout(id) => In(b, id, Expiring)
    case Finish(id) => id in b.tasks && b.tasks[id].phase.Heard?
    case Take(id, _) => true
    case Deliver(id) => id in b.taken && id in b.tasks
    case Clear => true
  }

  function SetPhase(b: Broker, id: Id, phase: Phase): Broker
    requires id in b.tasks
  {
    b.(tasks := b.tasks[id := b.tasks[id].(phase := phase)])
  }

  function Next(b: Broker, s: Step): Broker
    requires Enabled(b, s)
  {
    match s
    case Register(id) => b.(tasks := b.tasks[id := Task(Registered, Open, false)], pending := b.pending + {id})
    case Announce(id, ok) =>
      var t := b.tasks[id];
      b.(tasks := b.tasks[id := t.(phase := if ok then Listening else Failing, announced := ok)])
    case Abort(id) => SetPhase(b, id, Finished(Reject)).(pending := b.pending - {id})
    case Wake(id) =>
      var c := b.tasks[id].channel;
      SetPhase(b, id, Heard(c.Sent? && c.answer.accepted))
    case Expire(id) => SetPhase(b, id, Expiring)
    case Timeout(id) => SetPhase(b, id, Heard(false))
    case Finish(id) =>
      SetPhase(b, id, Finished(if b.tasks[id].phase.accepted then AcceptAndRemember else Reject))
        .(pending := b.pending - {id})
    case Take(id, accepted) =>
      if id in b.pending then b.(pending := b.pending - {id}, taken := b.taken[id := accepted])
      else b.(replies := b.replies + [Reply(id, accepted, Expired)])
    case Deliver(id) =>
      var accepted := b.taken[id];
      var t := b.tasks[id];
      var after := b.(taken := b.taken - {id});
      if Alive(t.phase) then
        var late := t.phase.Expiring?;
        after.(tasks := b.tasks[id := t.(channel := Sent(Answer(accepted, late)))],
               replies := b.replies + [Reply(id, accepted, Delivered(late))])
      else after.(replies := b.replies + [Reply(id, accepted, NoLonger)])
    case Clear =>
      b.(tasks := map id | id in b.tasks ::
                    if id in b.pending then b.tasks[id].(channel := Dropped) else b.tasks[id],
         pending := {})
  }

  ghost predicate Valid(b: Broker, steps: seq<Step>)
    decreases |steps|
  {
    steps == [] || (Enabled(b, steps[0]) && Valid(Next(b, steps[0]), steps[1..]))
  }

  ghost function Run(b: Broker, steps: seq<Step>): Broker
    requires Valid(b, steps)
    decreases |steps|
  {
    if steps == [] then b else Run(Next(b, steps[0]), steps[1..])
  }

  // ---------- safety ----------

  /** The successful answers given to a prompt. */
  function Answers(replies: seq<Reply>, id: Id): seq<Answer> {
    if replies == [] then []
    else
      var r := replies[|replies| - 1];
      Answers(replies[..|replies| - 1], id)
      + (if r.id == id && r.outcome.Delivered? then [Answer(r.accepted, r.outcome.late)] else [])
  }

  /** What the task of a `decide` call may look like; `answered` are the answers delivered to it. */
  ghost predicate Sound(t: Task, answered: seq<Answer>) {
    && answered == (if t.channel.Sent? then [t.channel.answer] else [])
    && (t.phase == Registered || t.phase == Failing ==> !t.announced)
    && (t.phase == Listening || t.phase == Expiring || t.phase.Heard? ==> t.announced)
    && (Alive(t.phase) && t.channel.Sent? ==> (t.channel.answer.late <==> t.phase == Expiring))
    && (t.phase.Heard? ==> (t.phase.accepted <==> t.channel == Sent(Answer(true, false))))
    && (t.phase.Finished? ==>
          (t.phase.decision == AcceptAndRemember <==> t.announced && t.channel == Sent(Answer(true, false))))
  }

  /** What one prompt looks like in every reachable state. */
  ghost predicate TaskOk(b: Broker, id: Id)
    requires id in b.tasks
  {
    Sound(b.tasks[id], Answers(b.replies, id))
  }

  /** Every usable sender belongs to a prompt that has no answer yet, and is in one place only. */
  ghost predicate SendersOk(b: Broker) {
    && (forall id :: id in b.pending ==>
          id in b.tasks && !b.tasks[id].phase.Finished? && b.tasks[id].channel == Open && id !in b.taken)
    && (forall id :: id in b.taken ==> id in b.tasks && b.tasks[id].channel == Open)
  }

  ghost predicate Inv(b: Broker) {
    && SendersOk(b)
    && (forall id :: id in b.tasks ==> TaskOk(b, id))
    && (forall id :: id !in b.tasks ==> Answers(b.replies, id) == [])
  }

  lemma AnswersSnoc(replies: seq<Reply>, r: Reply, id: Id)
    ensures Answers(replies + [r], id)
         == Answers(replies, id) + (if r.id == id && r.outcome.Delivered? then [Answer(r.accepted, r.outcome.late)] else [])
  {
    assert (replies + [r])[..|replies|] == replies;
  }

  lemma StepKeepsSenders(b: Broker, s: Step)
    requires SendersOk(b) && Enabled(b, s)
    ensures SendersOk(Next(b, s))
  {}

  predicate OfDecide(s: Step) {
    !s.Take? && !s.Deliver? && !s.Clear?
  }

  /** A step of a `decide` call touches its own prompt only. */
  lemma DecideFrame(b: Broker, s: Step, id: Id)
    requires Enabled(b, s) && OfDecide(s)
    ensures var d := Next(b, s);
            && d.replies == b.replies && s.id in d.tasks
            && (id != s.id ==> (id in d.tasks <==> id in b.tasks) && (id in b.tasks ==> d.tasks[id] == b.tasks[id]))
  {}

  lemma OwnTaskOk(b: Broker, s: Step)
    requires Enabled(b, s) && OfDecide(s) && (s.id !in b.tasks ==> Answers(b.replies, s.id) == [])
    requires s.id in b.tasks ==> Sound(b.tasks[s.id], Answers(b.replies, s.id))
    ensures s.id in Next(b, s).tasks && Sound(Next(b, s).tasks[s.id], Answers(b.replies, s.id))
  {
    hide Answers;
  }

  lemma DecideKeepsInv(b: Broker, s: Step)
    requires Inv(b) && Enabled(b, s) && OfDecide(s)
    ensures Inv(Next(b, s))
  {
    StepKeepsSenders(b, s);
    hide Answers, SendersOk, Next, Enabled, Sound;
    assert s.id in b.tasks ==> TaskOk(b, s.id);
    OwnTaskOk(b, s);
    var d := Next(b, s);
    DecideFrame(b, s, s.id);
    forall id ensures (id in d.tasks ==> TaskOk(d, id)) && (id !in d.tasks ==> Answers(d.replies, id) == []) {
      DecideFrame(b, s, id);
      assert id in b.tasks ==> TaskOk(b, id);
    }
  }

  lemma ClearKeepsInv(b: Broker)
    requires Inv(b)
    ensures Inv(Next(b, Clear))
  {
    hide Answers;
    var d := Next(b, Clear);
    forall id | id in d.tasks ensures TaskOk(d, id) {
      assert TaskOk(b, id);
    }
  }

  lemma TakeKeepsInv(b: Broker, id: Id, accepted: bool)
    requires Inv(b)
    ensures Inv(Next(b, Take(id, accepted)))
  {
    hide Answers;
    var d := Next(b, Take(id, accepted));
    forall i ensures Answers(d.replies, i) == Answers(b.replies, i) {
      AnswersSnoc(b.replies, Reply(id, accepted, Expired), i);
    }
    forall i | i in d.tasks ensures TaskOk(d, i) {
      assert TaskOk(b, i);
    }
  }

  lemma DeliverKeepsInv(b: Broker, id: Id)
    requires Inv(b) && Enabled(b, Deliver(id))
    ensures Inv(Next(b, Deliver(id)))
  {
    hide Answers;
    assert b.tasks[id].channel == Open && TaskOk(b, id);
    StepKeepsSenders(b, Deliver(id));
    hide SendersOk;
    var d := Next(b, Deliver(id));
    var r := d.replies[|b.replies|];
    assert d.replies == b.replies + [r];
    forall i ensures i != id ==> Answers(d.replies, i) == Answers(b.replies, i) {
      AnswersSnoc(b.replies, r, i);
    }
    AnswersSnoc(b.replies, r, id);
    forall i | i in d.tasks ensures TaskOk(d, i) {
      assert TaskOk(b, i);
      if i != id { assert d.tasks[i] == b.tasks[i]; }
    }
  }

  lemma StepKeepsInv(b: Broker, s: Step)
    requires Inv(b) && Enabled(b, s)
    ensures Inv(Next(b, s))
  {
    hide Inv;
    match s
    case Take(id, accepted) => TakeKeepsInv(b, id, accepted);
    case Deliver(id) => DeliverKeepsInv(b, id);
    case Clear => ClearKeepsInv(b);
    case _ => DecideKeepsInv(b, s);
  }

  lemma {:induction false} RunIsSafe(b: Broker, steps: seq<Step>)
    requires Inv(b) && Valid(b, steps)
    ensures Inv(Run(b, steps))
    decreases |steps|
  {
    hide Inv;
    if steps != [] {
      StepKeepsInv(b, steps[0]);
      RunIsSafe(Next(b, steps[0]), steps[1..]);
    }
  }

  /**
   In every run: a key is accepted exactly when its prompt was announced and
   some `respond` call delivered "yes" before the wait found its time over; no
   prompt is answered twice; and every registered sender belongs to a `decide`
   call that has not returned.
   */
  lemma AcceptedIffDelivered(steps: seq<Step>, id: Id)
    requires Valid(Empty, steps)
    ensures var b := Run(Empty, steps);
            && |Answers(b.replies, id)| <= 1
            && (id in b.pending ==> id in b.tasks && !b.tasks[id].phase.Finished?)
            && (id in b.tasks && b.tasks[id].phase.Finished? ==>
                  (b.tasks[id].phase.decision == AcceptAndRemember
                   <==> b.tasks[id].announced && Answers(b.replies, id) == [Answer(true, false)]))
  {
    hide Run;
    assert Inv(Empty);
    RunIsSafe(Empty, steps);
    var b := Run(Empty, steps);
    if id in b.tasks { assert TaskOk(b, id); }
  }

  /** A delivered "yes" is lost when the announcement fails afterwards: the call still rejects. */
  lemma YesBeforeFailedAnnouncement(id: Id)
    ensures var steps := [Register(id)] + ([Take(id, true)] + ([Deliver(id)] + ([Announce(id, false)] + [Abort(id)])));
            && Valid(Empty, steps)
            && Run(Empty, steps).replies == [Reply(id, true, Delivered(false))]
            && In(Run(Empty, steps), id, Finished(Reject))
  {
    var b1 := Next(Empty, Register(id));
    var b2 := Next(b1, Take(id, true));
    var b3 := Next(b2, Deliver(id));
    var b4 := Next(b3, Announce(id, false));
    var b5 := Next(b4, Abort(id));
    hide Valid, Run;
    Stops(b5);
    assert [Abort(id)] + [] == [Abort(id)];
    Prepend(b4, Abort(id), []);
    Prepend(b3, Announce(id, false), [Abort(id)]);
    Prepend(b2, Deliver(id), [Announce(id, false)] + [Abort(id)]);
    Prepend(b1, Take(id, true), [Deliver(id)] + ([Announce(id, false)] + [Abort(id)]));
    Prepend(Empty, Register(id), [Take(id, true)] + ([Deliver(id)] + ([Announce(id, false)] + [Abort(id)])));
  }

  /** It is also lost when it arrives between the last look at the channel and the end of the wait. */
  lemma LateYesIsRejected(id: Id)
    ensures var steps := [Register(id)] + ([Announce(id, true)] + ([Take(id, true)] + ([Expire(id)]
                         + ([Deliver(id)] + ([Timeout(id)] + [Finish(id)])))));
            && Valid(Empty, steps)
            && Run(Empty, steps).replies == [Reply(id, true, Delivered(true))]
            && In(Run(Empty, steps), id, Finished(Reject))
  {
    hide Valid, Run;
    var b3 := Single({}, map[id := true], id, Task(Listening, Open, true), []);
    var s3 := [Expire(id)] + ([Deliver(id)] + ([Timeout(id)] + [Finish(id)]));
    LateEnd(id);
    var b2 := Single({id}, map[], id, Task(Listening, Open, true), []);
    assert Next(b2, Take(id, true)) == b3;
    Prepend(b2, Take(id, true), s3);
    var b1 := Single({id}, map[], id, Task(Registered, Open, false), []);
    assert Next(b1, Announce(id, true)) == b2 && Next(Empty, Register(id)) == b1;
    Prepend(b1, Announce(id, true), [Take(id, true)] + s3);
    Prepend(Empty, Register(id), [Announce(id, true)] + ([Take(id, true)] + s3));
  }

  /** A broker with one prompt. */
  function Single(pending: set<Id>, taken: map<Id, bool>, id: Id, task: Task, replies: seq<Reply>): Broker {
    Broker(pending, taken, map[id := task], replies)
  }

  lemma LateDelivery(id: Id)
    ensures var b4 := Single({}, map[id := true], id, Task(Expiring, Open, true), []);
            && Enabled(b4, Deliver(id))
            && Next(b4, Deliver(id))
               == Single({}, map[], id, Task(Expiring, Sent(Answer(true, true)), true), [Reply(id, true, Delivered(true))])
  {}

  lemma LateVerdict(id: Id, channel: Channel, replies: seq<Reply>)
    ensures var b5 := Single({}, map[], id, Task(Expiring, channel, true), replies);
            var b6 := Single({}, map[], id, Task(Heard(false), channel, true), replies);
            && Enabled(b5, Timeout(id)) && Next(b5, Timeout(id)) == b6 && Enabled(b6, Finish(id))
            && Next(b6, Finish(id)) == Single({}, map[], id, Task(Finished(Reject), channel, true), replies)
  {}

  lemma LateEnd(id: Id)
    ensures var b3 := Single({}, map[id := true], id, Task(Listening, Open, true), []);
            var steps := [Expire(id)] + ([Deliver(id)] + ([Timeout(id)] + [Finish(id)]));
            && Valid(b3, steps) && Run(b3, steps).replies == [Reply(id, true, Delivered(true))]
            && In(Run(b3, steps), id, Finished(Reject))
  {
    var replies, late := [Reply(id, true, Delivered(true))], Sent(Answer(true, true));
    var b3 := Single({}, map[id := true], id, Task(Listening, Open, true), []);
    var b4 := Single({}, map[id := true], id, Task(Expiring, Open, true), []);
    var b5 := Single({}, map[], id, Task(Expiring, late, true), replies);
    var b6 := Single({}, map[], id, Task(Heard(false), late, true), replies);
    assert Next(b3, Expire(id)) == b4;
    assert Enabled(b3, Expire(id));
    hide Valid, Run, Next, Enabled;
    LateDelivery(id);
    LateVerdict(id, late, replies);
    Stops(Next(b6, Finish(id)));
    assert [Finish(id)] + [] == [Finish(id)];
    Prepend(b6, Finish(id), []);
    Prepend(b5, Timeout(id), [Finish(id)]);
    Prepend(b4, Deliver(id), [Timeout(id)] + [Finish(id)]);
    Prepend(b3, Expire(id), [Deliver(id)] + ([Timeout(id)] + [Finish(id)]));
  }

  lemma Stops(b: Broker)
    ensures Valid(b, []) && Run(b, []) == b
  {}

  lemma Prepend(b: Broker, s: Step, steps: seq<Step>)
    requires Enabled(b, s) && Valid(Next(b, s), steps)
    ensures Valid(b, [s] + steps) && Run(b, [s] + steps) == Run(Next(b, s), steps)
  {
    assert ([s] + steps)[1..] == steps;
  }

  // ---------- a waiting prompt can be answered ----------

  /** Every prompt still waiting for its first answer has its sender registered or in the hands of a `respond` call. */
  ghost predicate Answerable(b: Broker) {
    forall id :: id in b.tasks && Alive(b.tasks[id].phase) && b.tasks[id].channel == Open ==>
      id in b.pending || id in b.taken
  }

  lemma StepKeepsAnswerable(b: Broker, s: Step)
    requires Answerable(b) && Enabled(b, s)
    ensures Answerable(Next(b, s))
  {}

  lemma {:induction false} RunIsAnswerable(b: Broker, steps: seq<Step>)
    requires Answerable(b) && Valid(b, steps)
    ensures Answerable(Run(b, steps))
    decreases |steps|
  {
    hide Answerable;
    if steps != [] {
      StepKeepsAnswerable(b, steps[0]);
      RunIsAnswerable(Next(b, steps[0]), steps[1..]);
    }
  }

  lemma AnswerReachesDecision(b: Broker, id: Id, accepted: bool)
    requires In(b, id, Listening) && id in b.pending && b.tasks[id].channel == Open
    ensures var steps := [Take(id, accepted)] + ([Deliver(id)] + ([Wake(id)] + [Finish(id)]));
            && Valid(b, steps) && Run(b, steps).replies == b.replies + [Reply(id, accepted, Delivered(false))]
            && In(Run(b, steps), id, Finished(if accepted then AcceptAndRemember else Reject))
            && id !in Run(b, steps).pending
  {
    var b1 := Next(b, Take(id, accepted));
    var b2 := Next(b1, Deliver(id));
    var b3 := Next(b2, Wake(id));
    var b4 := Next(b3, Finish(id));
    hide Valid, Run;
    Stops(b4);
    assert [Finish(id)] + [] == [Finish(id)];
    Prepend(b3, Finish(id), []);
    Prepend(b2, Wake(id), [Finish(id)]);
    Prepend(b1, Deliver(id), [Wake(id)] + [Finish(id)]);
    Prepend(b, Take(id, accepted), [Deliver(id)] + ([Wake(id)] + [Finish(id)]));
  }

  /**
   In every run a prompt that is being waited for and has not been answered or
   cleared can be: a `respond` call finds its sender and, left alone, is
   delivered and decides as it says; unless another `respond` call holds the
   sender already.
   */
  lemma WaitingCanBeAnswered(steps: seq<Step>, id: Id, accepted: bool)
    requires Valid(Empty, steps) && Unanswered(Run(Empty, steps), id)
    ensures var b := Run(Empty, steps);
            var more := [Take(id, accepted)] + ([Deliver(id)] + ([Wake(id)] + [Finish(id)]));
            && Valid(b, more)
            && In(Run(b, more), id, Finished(if accepted then AcceptAndRemember else Reject))
  {
    assert Answerable(Empty);
    RunIsAnswerable(Empty, steps);
    AnswerReachesDecision(Run(Empty, steps), id, accepted);
  }

  /** The prompt is being waited for, neither answered nor cleared, and no `respond` call holds its sender. */
  ghost predicate Unanswered(b: Broker, id: Id) {
    In(b, id, Listening) && b.tasks[id].channel == Open && id !in b.taken
  }

  // ---------- clear ----------

  /** The sender is gone and can never be used. */
  ghost predicate Hopeless(b: Broker, id: Id) {
    && id in b.tasks && id !in b.pending && id !in b.taken && b.tasks[id].channel == Dropped
    && b.tasks[id].phase != Heard(true) && b.tasks[id].phase != Finished(AcceptAndRemember)
  }

  lemma ClearDooms(b: Broker, id: Id)
    requires Inv(b) && id in b.pending
    ensures Hopeless(Next(b, Clear), id)
  {
    assert TaskOk(b, id);
  }

  lemma StepKeepsHopeless(b: Broker, s: Step, id: Id)
    requires Enabled(b, s) && Hopeless(b, id)
    ensures Hopeless(Next(b, s), id)
  {}

  /** Every prompt still unanswered when the broker is cleared is rejected, whatever happens afterwards. */
  lemma {:induction false} ClearedIsRejected(b: Broker, id: Id, steps: seq<Step>)
    requires Inv(b) && id in b.pending && Valid(Next(b, Clear), steps)
    ensures var t := Run(Next(b, Clear), steps).tasks;
            id in t && (t[id].phase.Finished? ==> t[id].phase.decision == Reject)
  {
    ClearDooms(b, id);
    HopelessForever(Next(b, Clear), id, steps);
  }

  lemma {:induction false} HopelessForever(b: Broker, id: Id, steps: seq<Step>)
    requires Hopeless(b, id) && Valid(b, steps)
    ensures Hopeless(Run(b, steps), id)
    decreases |steps|
  {
    hide Hopeless;
    if steps != [] {
      StepKeepsHopeless(b, steps[0], id);
      HopelessForever(Next(b, steps[0]), id, steps[1..]);
    }
  }

  // ---------- the broker object ----------

  /** The shared map with the frames of the calls in progress. */
  class Desk {
    var pending: set<Id>
    var taken: map<Id, bool>
    var tasks: map<Id, Task>
    var replies: seq<Reply>

    ghost function View(): Broker
      reads this
    {
      Broker(pending, taken, tasks, replies)
    }

    constructor ()
      ensures View() == Empty && Inv(View())
    {
      pending, taken, tasks, replies := {}, map[], map[], [];
    }

    method BeginDecide(id: Id)
      requires id !in tasks
      modifies this
      ensures View() == Next(old(View()), Register(id))
    {
      tasks := tasks[id := Task(Registered, Open, false)];
      pending := pending + {id};
    }

    method AnnouncePrompt(id: Id, ok: bool)
      requires Enabled(View(), Announce(id, ok))
      modifies this`tasks
      ensures View() == Next(old(View()), Announce(id, ok))
    {
      tasks := tasks[id := Task(if ok then Listening else Failing, tasks[id].channel, ok)];
    }

    method AbortDecide(id: Id) returns (decision: Decision)
      requires Enabled(View(), Abort(id))
      modifies this
      ensures decision == Reject && View() == Next(old(View()), Abort(id))
    {
      pending := pending - {id};
      decision := Reject;
      tasks := tasks[id := tasks[id].(phase := Finished(decision))];
    }

    method Hear(id: Id)
      requires Enabled(View(), Wake(id))
      modifies this`tasks
      ensures View() == Next(old(View()), Wake(id))
    {
      var accepted := match tasks[id].channel case Sent(answer) => answer.accepted case _ => false;
      tasks := tasks[id := tasks[id].(phase := Heard(accepted))];
    }

    method LookInVain(id: Id)
      requires Enabled(View(), Expire(id))
      modifies this`tasks
      ensures View() == Next(old(View()), Expire(id))
    {
      tasks := tasks[id := tasks[id].(phase := Expiring)];
    }

    method GiveUp(id: Id)
      requires Enabled(View(), Timeout(id))
      modifies this`tasks
      ensures View() == Next(old(View()), Timeout(id))
    {
      tasks := tasks[id := tasks[id].(phase := Heard(false))];
    }

    method EndDecide(id: Id) returns (decision: Decision)
      requires Enabled(View(), Finish(id))
      modifies this
      ensures View() == Next(old(View()), Finish(id)) && In(View(), id, Finished(decision))
    {
      pending := pending - {id};
      decision := if tasks[id].phase.accepted then AcceptAndRemember else Reject;
      tasks := tasks[id := tasks[id].(phase := Finished(decision))];
    }

    method TakeSender(id: Id, accepted: bool)
      modifies this
      ensures View() == Next(old(View()), Take(id, accepted))
    {
      if id in pending {
        pending := pending - {id};
        taken := taken[id := accepted];
      } else {
        replies := replies + [Reply(id, accepted, Expired)];
      }
    }

    method SendAnswer(id: Id)
      requires Enabled(View(), Deliver(id))
      modifies this
      ensures View() == Next(old(View()), Deliver(id))
    {
      var accepted := taken[id];
      taken := taken - {id};
      if Alive(tasks[id].phase) {
        var late := tasks[id].phase.Expiring?;
        tasks := tasks[id := tasks[id].(channel := Sent(Answer(accepted, late)))];
        replies := replies + [Reply(id, accepted, Delivered(late))];
      } else {
        replies := replies + [Reply(id, accepted, NoLonger)];
      }
    }

    method ClearAll()
      modifies this
      ensures View() == Next(old(View()), Clear)
    {
      tasks := map id | id in tasks :: if id in pending then tasks[id].(channel := Dropped) else tasks[id];
      pending := {};
    }
  }
}
