/**
 The module tasks of one cycle in which nothing fails: whichever order their steps are taken in, the key
 cache, the signing memory and the multiset of signatures and messages come out the same.
 */
module Interleaving {
  import opened Wrappers
  import opened StakingRouter
  import opened StakingModuleGuard
  import opened GuardianTasks

  /** Every request of the cycle is answered, and the Keys API stays at the block of the cycle. */
  function AnsweredStep(s: Shared, t: Task): (Shared, Task)
  {
    TaskStep(s, t, AnsweredAt(t.data.block))
  }

  /** What a task will have made of its own entries, and what it will have done, when it is done. */
  datatype Outcome = Outcome(keys: Option<KeysResponse>, state: Option<ContractsState>, effects: multiset<Effect>)

  function AnsweredLocal(t: Task, keys: Option<KeysResponse>, state: Option<ContractsState>): (l: Local)
    ensures l.task.data == t.data && l.task.listed == t.listed
    ensures Rank(t.pc) > 0 ==> Rank(l.task.pc) < Rank(t.pc)
    ensures Rank(t.pc) == 0 ==> l == Local(t, keys, state, [], [])
    ensures keys.Some? ==> l.keys.Some?
    ensures state.Some? ==> l.state.Some?
  {
    LocalStepShape(t, keys, state, AnsweredAt(t.data.block));
    LocalStep(t, keys, state, AnsweredAt(t.data.block))
  }

  function OutcomeOf(t: Task, keys: Option<KeysResponse>, state: Option<ContractsState>): Outcome
    decreases Rank(t.pc)
  {
    if Rank(t.pc) == 0 then Outcome(keys, state, multiset{})
    else
      var l := AnsweredLocal(t, keys, state);
      var rest := OutcomeOf(l.task, l.keys, l.state);
      rest.(effects := multiset(l.effects) + rest.effects)
  }

  function Own(s: Shared, t: Task): Outcome
  {
    OutcomeOf(t, Lookup(s.keyCache, t.listed.id), Lookup(s.signing, t.listed.id))
  }

  ghost predicate DistinctIds(tasks: seq<Task>)
  {
    forall i, j | 0 <= i < j < |tasks| :: tasks[i].listed.id != tasks[j].listed.id
  }

  predicate Done(tasks: seq<Task>)
  {
    forall t <- tasks :: Rank(t.pc) == 0
  }

  /** One task takes one step; a task that is done stays as it is. */
  function ScheduleStep(s: Shared, tasks: seq<Task>, i: nat): (Shared, seq<Task>)
  {
    if i < |tasks| then
      var next := AnsweredStep(s, tasks[i]);
      (next.0, tasks[i := next.1])
    else (s, tasks)
  }

  function Scheduled(s: Shared, tasks: seq<Task>, schedule: seq<nat>): (Shared, seq<Task>)
    decreases |schedule|
  {
    if schedule == [] then (s, tasks)
    else
      var next := ScheduleStep(s, tasks, schedule[0]);
      Scheduled(next.0, next.1, schedule[1..])
  }

  /** All that the tasks still have to do. */
  function Pending(s: Shared, tasks: seq<Task>): multiset<Effect>
  {
    if tasks == [] then multiset{} else Own(s, tasks[0]).effects + Pending(s, tasks[1..])
  }

  /** A step of `t` keeps its outcome, up to what it has done now. */
  lemma StepKeepsOwn(s: Shared, t: Task)
    ensures var next := AnsweredStep(s, t);
            && Own(next.0, next.1).keys == Own(s, t).keys && Own(next.0, next.1).state == Own(s, t).state
            && multiset(next.0.log) + Own(next.0, next.1).effects == multiset(s.log) + Own(s, t).effects
            && next.1.listed == t.listed
  {
    hide LocalStep;
    var l := AnsweredLocal(t, Lookup(s.keyCache, t.listed.id), Lookup(s.signing, t.listed.id));
    var next := AnsweredStep(s, t);
    assert next.1 == l.task && next.0.log == s.log + l.effects;
    assert Lookup(next.0.keyCache, t.listed.id) == l.keys && Lookup(next.0.signing, t.listed.id) == l.state;
  }

  /** A step of `t` does not touch the entries of another module. */
  lemma StepFramesOthers(s: Shared, t: Task, id: int)
    requires id != t.listed.id
    ensures Lookup(AnsweredStep(s, t).0.keyCache, id) == Lookup(s.keyCache, id)
    ensures Lookup(AnsweredStep(s, t).0.signing, id) == Lookup(s.signing, id)
  {
    hide LocalStep;
  }

  /** Steps of a task leave what the tasks of other modules have to do. */
  lemma {:induction false} PendingFrame(s: Shared, t: Task, others: seq<Task>)
    requires forall o <- others :: o.listed.id != t.listed.id
    ensures Pending(AnsweredStep(s, t).0, others) == Pending(s, others)
    decreases |others|
  {
    hide LocalStep, OutcomeOf, AnsweredStep;
    if others != [] {
      StepFramesOthers(s, t, others[0].listed.id);
      PendingFrame(s, t, others[1..]);
    }
  }

  lemma {:induction false} PendingAfterStep(s: Shared, tasks: seq<Task>, i: nat)
    requires i < |tasks| && DistinctIds(tasks)
    ensures var next := ScheduleStep(s, tasks, i);
            multiset(next.0.log) + Pending(next.0, next.1) == multiset(s.log) + Pending(s, tasks)
    decreases i
  {
    hide LocalStep, OutcomeOf, AnsweredStep, Own;
    var t := tasks[i];
    var next := ScheduleStep(s, tasks, i);
    if i == 0 {
      StepKeepsOwn(s, t);
      PendingFrame(s, t, tasks[1..]);
      assert next.1[1..] == tasks[1..];
      var rest := Pending(s, tasks[1..]);
      assert multiset(next.0.log) + (Own(next.0, next.1[0]).effects + rest)
        == (multiset(next.0.log) + Own(next.0, next.1[0]).effects) + rest;
      assert multiset(s.log) + (Own(s, t).effects + rest) == (multiset(s.log) + Own(s, t).effects) + rest;
    } else {
      PendingAfterStep(s, tasks[1..], i - 1);
      OwnFrame(s, t, tasks[0]);
      assert next.0 == ScheduleStep(s, tasks[1..], i - 1).0;
      assert next.1[1..] == ScheduleStep(s, tasks[1..], i - 1).1;
      var mine, rest, rest' := Own(s, tasks[0]).effects, Pending(s, tasks[1..]), Pending(next.0, next.1[1..]);
      assert multiset(next.0.log) + (mine + rest') == mine + (multiset(next.0.log) + rest');
      assert multiset(s.log) + (mine + rest) == mine + (multiset(s.log) + rest);
    }
  }

  lemma OwnFrame(s: Shared, t: Task, other: Task)
    requires other.listed.id != t.listed.id
    ensures Own(AnsweredStep(s, t).0, other) == Own(s, other)
  {
    hide AnsweredStep, OutcomeOf;
    StepFramesOthers(s, t, other.listed.id);
  }

  ghost predicate IsOther(id: int, tasks: seq<Task>)
  {
    forall t <- tasks :: t.listed.id != id
  }

  /** What every schedule keeps: the outcome of each module, the other entries, and done plus pending effects. */
  ghost predicate SameOutcome(s: Shared, tasks: seq<Task>, s': Shared, tasks': seq<Task>)
  {
    && |tasks'| == |tasks|
    && (forall i | 0 <= i < |tasks| ::
          && tasks'[i].listed == tasks[i].listed
          && Own(s', tasks'[i]).keys == Own(s, tasks[i]).keys && Own(s', tasks'[i]).state == Own(s, tasks[i]).state)
    && (forall id | IsOther(id, tasks) ::
          Lookup(s'.keyCache, id) == Lookup(s.keyCache, id) && Lookup(s'.signing, id) == Lookup(s.signing, id))
    && multiset(s'.log) + Pending(s', tasks') == multiset(s.log) + Pending(s, tasks)
  }

  lemma ScheduleStepKeepsOutcome(s: Shared, tasks: seq<Task>, i: nat)
    requires DistinctIds(tasks)
    ensures var next := ScheduleStep(s, tasks, i); SameOutcome(s, tasks, next.0, next.1) && DistinctIds(next.1)
  {
    hide LocalStep, OutcomeOf, AnsweredStep, Own, Pending;
    if i < |tasks| {
      var next := ScheduleStep(s, tasks, i);
      StepKeepsOwn(s, tasks[i]);
      PendingAfterStep(s, tasks, i);
      forall j | 0 <= j < |tasks| && j != i
        ensures next.1[j] == tasks[j] && Own(next.0, tasks[j]) == Own(s, tasks[j])
      {
        OwnFrame(s, tasks[i], tasks[j]);
      }
      forall id | IsOther(id, tasks)
        ensures Lookup(next.0.keyCache, id) == Lookup(s.keyCache, id)
            && Lookup(next.0.signing, id) == Lookup(s.signing, id)
      {
        assert tasks[i] in tasks;
        StepFramesOthers(s, tasks[i], id);
      }
    }
  }

  lemma {:induction false} ScheduleKeepsOutcome(s: Shared, tasks: seq<Task>, schedule: seq<nat>)
    requires DistinctIds(tasks)
    ensures var end := Scheduled(s, tasks, schedule); SameOutcome(s, tasks, end.0, end.1)
    decreases |schedule|
  {
    hide Own, Pending, ScheduleStep;
    if schedule != [] {
      var next := ScheduleStep(s, tasks, schedule[0]);
      ScheduleStepKeepsOutcome(s, tasks, schedule[0]);
      ScheduleKeepsOutcome(next.0, next.1, schedule[1..]);
      assert forall id :: IsOther(id, tasks) ==> IsOther(id, next.1);
    }
  }

  lemma {:induction false} NothingPending(s: Shared, tasks: seq<Task>)
    requires Done(tasks)
    ensures Pending(s, tasks) == multiset{}
    decreases |tasks|
  {
    if tasks != [] {
      NothingPending(s, tasks[1..]);
    }
  }

  lemma LookupExtensional<K, V>(a: map<K, V>, b: map<K, V>)
    requires forall k :: Lookup(a, k) == Lookup(b, k)
    ensures a == b
  {
    forall k
      ensures k in a <==> k in b
      ensures k in a ==> a[k] == b[k]
    {
      assert Lookup(a, k) == Lookup(b, k);
    }
  }

  /**
   Interleaving independence: two complete schedules of the tasks of modules with distinct ids end with the
   same key cache, the same signing memory and the same signatures and messages, each as often.
   */
  lemma EveryScheduleAgrees(s: Shared, tasks: seq<Task>, one: seq<nat>, two: seq<nat>)
    requires DistinctIds(tasks)
    requires Done(Scheduled(s, tasks, one).1) && Done(Scheduled(s, tasks, two).1)
    ensures var a, b := Scheduled(s, tasks, one).0, Scheduled(s, tasks, two).0;
            && a.keyCache == b.keyCache && a.signing == b.signing
            && multiset(a.log) == multiset(b.log)
  {
    hide Scheduled, Pending, OutcomeOf;
    var a, b := Scheduled(s, tasks, one), Scheduled(s, tasks, two);
    ScheduleKeepsOutcome(s, tasks, one);
    ScheduleKeepsOutcome(s, tasks, two);
    NothingPending(a.0, a.1);
    NothingPending(b.0, b.1);
    assert multiset(a.0.log) + multiset{} == multiset(a.0.log) && multiset(b.0.log) + multiset{} == multiset(b.0.log);
    forall id
      ensures Lookup(a.0.keyCache, id) == Lookup(b.0.keyCache, id) && Lookup(a.0.signing, id) == Lookup(b.0.signing, id)
    {
      if i :| 0 <= i < |tasks| && tasks[i].listed.id == id {
        DoneOwn(a.0, a.1[i]);
        DoneOwn(b.0, b.1[i]);
      } else {
        assert IsOther(id, tasks);
      }
    }
    LookupExtensional(a.0.keyCache, b.0.keyCache);
    LookupExtensional(a.0.signing, b.0.signing);
  }

  lemma DoneOwn(s: Shared, t: Task)
    requires Rank(t.pc) == 0
    ensures Own(s, t) == Outcome(Lookup(s.keyCache, t.listed.id), Lookup(s.signing, t.listed.id), multiset{})
  {}
}
