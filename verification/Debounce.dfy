/**
 Debounced background sync: every mutation bumps a shared generation and
 spawns a task that sleeps, then runs only if its generation is still current.
 */
module Debounce {
  import opened Common

  /** Milliseconds. */
  const DEBOUNCE := 2000

  datatype Task = Task(generation: nat, scheduledAt: int, wokeAt: Option<int>, passed: bool)

  datatype Sync = Sync(generation: nat, tasks: seq<Task>, now: int)

  const Idle := Sync(0, [], 0)

  datatype Step = Schedule(time: int) | Wake(task: nat, time: int)

  /** Time only moves forward, and a task wakes once, after its sleep. */
  predicate Enabled(s: Sync, step: Step) {
    && s.now <= step.time
    && (step.Wake? ==>
          step.task < |s.tasks| && s.tasks[step.task].wokeAt.None?
          && s.tasks[step.task].scheduledAt + DEBOUNCE <= step.time)
  }

  function Next(s: Sync, step: Step): Sync
    requires Enabled(s, step)
  {
    match step
    case Schedule(time) =>
      Sync(s.generation + 1, s.tasks + [Task(s.generation + 1, time, None, false)], time)
    case Wake(i, time) =>
      var t := s.tasks[i];
      s.(tasks := s.tasks[i := t.(wokeAt := Some(time), passed := s.generation == t.generation)], now := time)
  }

  ghost predicate Valid(steps: seq<Step>)
    decreases |steps|, 0
  {
    steps == [] ||
    (Valid(steps[..|steps| - 1]) && Enabled(Run(steps[..|steps| - 1]), steps[|steps| - 1]))
  }

  ghost function Run(steps: seq<Step>): Sync
    requires Valid(steps)
    decreases |steps|, 1
  {
    if steps == [] then Idle else Next(Run(steps[..|steps| - 1]), steps[|steps| - 1])
  }

  function Schedules(steps: seq<Step>): nat {
    if steps == [] then 0
    else Schedules(steps[..|steps| - 1]) + (if steps[|steps| - 1].Schedule? then 1 else 0)
  }

  // ---------- invariant ----------

  ghost predicate Inv(s: Sync) {
    && s.generation == |s.tasks|
    && (forall i :: 0 <= i < |s.tasks| ==>
          var t := s.tasks[i];
          && t.generation == i + 1 && t.scheduledAt <= s.now
          && (t.wokeAt.None? ==> !t.passed)
          && (t.wokeAt.Some? ==> t.scheduledAt + DEBOUNCE <= t.wokeAt.value <= s.now))
    && (forall i, j :: 0 <= i < j < |s.tasks| ==> s.tasks[i].scheduledAt <= s.tasks[j].scheduledAt)
    && (forall i, j :: 0 <= i < j < |s.tasks| && s.tasks[i].passed ==>
          s.tasks[i].wokeAt.value <= s.tasks[j].scheduledAt)
    && (|s.tasks| > 0 && s.tasks[|s.tasks| - 1].wokeAt.Some? ==> s.tasks[|s.tasks| - 1].passed)
  }

  lemma ScheduleKeepsInv(s: Sync, time: int)
    requires Inv(s) && s.now <= time
    ensures Inv(Next(s, Schedule(time)))
  {
    var r := Next(s, Schedule(time));
    assert forall i :: 0 <= i < |s.tasks| ==> r.tasks[i] == s.tasks[i];
  }

  lemma WakeKeepsInv(s: Sync, k: nat, time: int)
    requires Inv(s) && Enabled(s, Wake(k, time))
    ensures Inv(Next(s, Wake(k, time)))
  {
    var r := Next(s, Wake(k, time));
    assert forall i :: 0 <= i < |s.tasks| && i != k ==> r.tasks[i] == s.tasks[i];
    assert r.tasks[k].generation == s.tasks[k].generation && r.tasks[k].scheduledAt == s.tasks[k].scheduledAt;
  }

  lemma StepKeepsInv(s: Sync, step: Step)
    requires Inv(s) && Enabled(s, step)
    ensures Inv(Next(s, step))
  {
    match step
    case Schedule(time) => ScheduleKeepsInv(s, time);
    case Wake(k, time) => WakeKeepsInv(s, k, time);
  }

  lemma {:induction false} Reachable(steps: seq<Step>)
    requires Valid(steps)
    ensures Inv(Run(steps)) && |Run(steps).tasks| == Schedules(steps)
  {
    if steps != [] {
      Reachable(steps[..|steps| - 1]);
      StepKeepsInv(Run(steps[..|steps| - 1]), steps[|steps| - 1]);
    }
  }

  // ---------- who passes ----------

  lemma {:induction false} PrefixIsValid(steps: seq<Step>, n: nat)
    requires Valid(steps) && n <= |steps|
    ensures Valid(steps[..n])
  {
    if n == |steps| {
      assert steps[..n] == steps;
    } else {
      PrefixIsValid(steps[..|steps| - 1], n);
      assert steps[..|steps| - 1][..n] == steps[..n];
    }
  }

  lemma {:induction false} ScheduleCount(steps: seq<Step>, p: nat, w: nat)
    requires p < w <= |steps| && steps[p].Schedule?
    ensures Schedules(steps[..p]) + 1 <= Schedules(steps[..w])
    ensures Schedules(steps[..w]) == Schedules(steps[..p]) + 1
            <==> forall q :: p < q < w ==> !steps[q].Schedule?
  {
    if w == p + 1 {
      assert steps[..w][..p] == steps[..p];
    } else {
      ScheduleCount(steps, p, w - 1);
      assert steps[..w][..w - 1] == steps[..w - 1];
    }
  }

  /** A verdict, once given, never changes. */
  lemma {:induction false} VerdictStays(steps: seq<Step>, n: nat, i: nat)
    requires n <= |steps| && Valid(steps) && Valid(steps[..n])
    requires i < |Run(steps[..n]).tasks| && Run(steps[..n]).tasks[i].wokeAt.Some?
    ensures i < |Run(steps).tasks| && Run(steps).tasks[i] == Run(steps[..n]).tasks[i]
  {
    if n == |steps| {
      assert steps[..n] == steps;
    } else {
      assert steps[..|steps| - 1][..n] == steps[..n];
      VerdictStays(steps[..|steps| - 1], n, i);
    }
  }

  lemma VerdictAtWake(steps: seq<Step>, w: nat)
    requires Valid(steps) && w < |steps| && steps[w].Wake?
    ensures Valid(steps[..w + 1])
    ensures var tasks := Run(steps[..w + 1]).tasks;
            var i := steps[w].task;
            && i < |tasks| && tasks[i].wokeAt.Some?
            && (tasks[i].passed <==> Schedules(steps[..w]) == i + 1)
  {
    PrefixIsValid(steps, w);
    PrefixIsValid(steps, w + 1);
    Reachable(steps[..w]);
    assert steps[..w + 1][..w] == steps[..w];
  }

  /**
   The task of the mutation at position `p` of a run, woken at position `w`,
   goes on to sync if and only if no other mutation happened in between.
   */
  lemma PassesIffLast(steps: seq<Step>, p: nat, w: nat)
    requires Valid(steps) && p < w < |steps| && steps[p].Schedule?
    requires steps[w].Wake? && steps[w].task == Schedules(steps[..p])
    ensures var i := steps[w].task;
            && i < |Run(steps).tasks|
            && (Run(steps).tasks[i].passed <==> forall q :: p < q < w ==> !steps[q].Schedule?)
  {
    hide Run, Valid, Schedules;
    ScheduleCount(steps, p, w);
    VerdictAtWake(steps, w);
    VerdictStays(steps, w + 1, steps[w].task);
  }

  /** When every task has woken, the last mutation's task has passed: no mutation is left unsynced. */
  lemma LastMutationSyncs(steps: seq<Step>)
    requires Valid(steps) && Schedules(steps) > 0
    requires forall i :: 0 <= i < |Run(steps).tasks| ==> Run(steps).tasks[i].wokeAt.Some?
    ensures |Run(steps).tasks| == Schedules(steps) && Run(steps).tasks[Schedules(steps) - 1].passed
  {
    Reachable(steps);
  }

  // ---------- how often ----------

  ghost predicate Passing(s: Sync, at: seq<nat>) {
    && (forall k :: 0 <= k < |at| ==> at[k] < |s.tasks| && s.tasks[at[k]].passed)
    && (forall k, m :: 0 <= k < m < |at| ==> at[k] < at[m])
  }

  /** Passing tasks are scheduled at least the debounce apart, so n of them span at least n - 1 debounce periods. */
  lemma {:induction false} PassesAreSpaced(s: Sync, at: seq<nat>)
    requires Inv(s) && Passing(s, at) && at != []
    ensures s.tasks[at[|at| - 1]].scheduledAt - s.tasks[at[0]].scheduledAt >= (|at| - 1) * DEBOUNCE
  {
    if |at| > 1 {
      var n := |at| - 1;
      assert Passing(s, at[..n]);
      PassesAreSpaced(s, at[..n]);
      assert at[..n][0] == at[0] && at[..n][n - 1] == at[n - 1];
    }
  }

  lemma RunPassesAreSpaced(steps: seq<Step>, at: seq<nat>)
    requires Valid(steps) && Passing(Run(steps), at) && at != []
    ensures var tasks := Run(steps).tasks;
            tasks[at[|at| - 1]].scheduledAt - tasks[at[0]].scheduledAt >= (|at| - 1) * DEBOUNCE
  {
    Reachable(steps);
    PassesAreSpaced(Run(steps), at);
  }

  // ---------- the scheduler object ----------

  class Scheduler {
    var generation: nat
    /** Spawned tasks, oldest first. */
    var tasks: seq<Task>
    var now: int

    ghost function View(): Sync
      reads this
    {
      Sync(generation, tasks, now)
    }

    constructor ()
      ensures View() == Idle && Inv(View())
    {
      generation, tasks, now := 0, [], 0;
    }

    method ScheduleBackgroundSync(time: int)
      requires Enabled(View(), Schedule(time))
      modifies this
      ensures View() == Next(old(View()), Schedule(time))
    {
      generation := generation + 1;
      tasks := tasks + [Task(generation, time, None, false)];
      now := time;
    }

    method OnWake(i: nat, time: int) returns (run: bool)
      requires Enabled(View(), Wake(i, time))
      modifies this
      ensures View() == Next(old(View()), Wake(i, time)) && run == tasks[i].passed
    {
      run := generation == tasks[i].generation;
      tasks := tasks[i := tasks[i].(wokeAt := Some(time), passed := run)];
      now := time;
    }
  }
}
