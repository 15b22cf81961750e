/**
 Interleaving independence in a run of the daemon: between the collect and the ping of a cycle whose requests
 are all answered, the module tasks take their steps in any order, pause transactions settle in between, and
 the key cache, the signing memory and the signatures and messages come out as those of the sequence.
 */
module CycleInterleavings {
  import opened Wrappers
  import opened Chain
  import opened OneAtTime
  import opened StakingRouter
  import opened StakingModuleGuard
  import opened GuardianTasks
  import opened Interleaving
  import opened GuardianService
  import opened GuardianSystem

  /** A step of a task with its answer from the block, a pause transaction that settles, or a head that moves. */
  predicate IsTaskAction(action: Action, block: Block)
  {
    || action.PauseSettles?
    || (action.Await? && action.reply == AnsweredAt(block))
    || (action.Index? && action.action.Advance?)
  }

  /** What one such action does to the tasks of the cycle. */
  function TurnOf(action: Action, first: nat): seq<nat>
  {
    if action.Await? && first <= action.i then [action.i - first] else []
  }

  /** The order in which the tasks from `first` on take their steps. */
  function ScheduleOf(actions: seq<Action>, first: nat): seq<nat>
  {
    if actions == [] then [] else TurnOf(actions[0], first) + ScheduleOf(actions[1..], first)
  }

  predicate SameButPausing(a: Shared, b: Shared)
  {
    a.keyCache == b.keyCache && a.signing == b.signing && a.log == b.log
  }

  lemma TaskStepIgnoresPauses(a: Shared, b: Shared, t: Task, reply: Reply)
    requires SameButPausing(a, b)
    ensures SameButPausing(TaskStep(a, t, reply).0, TaskStep(b, t, reply).0)
        && TaskStep(a, t, reply).1 == TaskStep(b, t, reply).1
  {
    hide LocalStep;
  }

  /** A task that is done does nothing, whatever it is answered. */
  lemma DoneDoesNothing(s: Shared, t: Task, reply: Reply)
    requires Rank(t.pc) == 0
    ensures TaskStep(s, t, reply) == (s, t)
  {
    Untouched(s, t.listed.id);
  }

  lemma KeepsData(s: Shared, t: Task, reply: Reply)
    ensures TaskStep(s, t, reply).1.data == t.data
  {
    hide LocalStep;
    LocalStepShape(t, Lookup(s.keyCache, t.listed.id), Lookup(s.signing, t.listed.id), reply);
  }

  lemma ActionIsATurn(sys: System, former: seq<Task>, tasks: seq<Task>, s: Shared, action: Action, block: Block,
      env: Env)
    requires sys.world.phase == DepositRuns.Ready && sys.tasks == former + tasks && SameButPausing(sys.shared, s)
    requires forall t <- former :: Rank(t.pc) == 0
    requires (forall t <- tasks :: t.data.block == block) && IsTaskAction(action, block)
    ensures var next, scheduled := Step(sys, action, env), Scheduled(s, tasks, TurnOf(action, |former|));
            && next.world.phase == DepositRuns.Ready
            && next == sys.(world := next.world, shared := next.shared, tasks := former + scheduled.1)
              && SameButPausing(next.shared, scheduled.0)
            && forall t <- scheduled.1 :: t.data.block == block
  {
    hide TaskStep, Left, Rank;
    if action.Await? && action.i < |sys.tasks| {
      if action.i < |former| {
        assert sys.tasks[action.i] == former[action.i] && former[action.i] in former;
        DoneDoesNothing(sys.shared, former[action.i], action.reply);
        assert sys.tasks[action.i := sys.tasks[action.i]] == sys.tasks;
      } else {
        var i := action.i - |former|;
        var t := tasks[i];
        assert sys.tasks[action.i] == t && t in tasks;
        TaskStepIgnoresPauses(sys.shared, s, t, action.reply);
        KeepsData(s, t, action.reply);
        var after := ScheduleStep(s, tasks, i);
        assert sys.tasks[action.i := after.1[i]] == former + after.1;
        assert [i][1..] == [];
        assert Scheduled(s, tasks, [i]) == Scheduled(after.0, after.1, []) == after;
      }
    } else if action.Await? {
      var i := action.i - |former|;
      assert ScheduleStep(s, tasks, i) == (s, tasks);
      assert [i][1..] == [];
      assert Scheduled(s, tasks, [i]) == Scheduled(s, tasks, []) == (s, tasks);
    }
  }

  lemma {:induction false} RunIsASchedule(sys: System, former: seq<Task>, tasks: seq<Task>, s: Shared,
      actions: seq<Action>, block: Block, env: Env)
    requires sys.world.phase == DepositRuns.Ready && sys.tasks == former + tasks && SameButPausing(sys.shared, s)
    requires forall t <- former :: Rank(t.pc) == 0
    requires forall t <- tasks :: t.data.block == block
    requires forall action <- actions :: IsTaskAction(action, block)
    ensures var end, scheduled := Run(sys, actions, env), Scheduled(s, tasks, ScheduleOf(actions, |former|));
            && end.world.phase == DepositRuns.Ready
            && end == sys.(world := end.world, shared := end.shared, tasks := former + scheduled.1)
              && SameButPausing(end.shared, scheduled.0)
    decreases |actions|
  {
    hide Step, Rank, IsTaskAction;
    if actions != [] {
      var turn := TurnOf(actions[0], |former|);
      ActionIsATurn(sys, former, tasks, s, actions[0], block, env);
      var after := Scheduled(s, tasks, turn);
      RunIsASchedule(Step(sys, actions[0], env), former, after.1, after.0, actions[1..], block, env);
      ScheduledConcat(s, tasks, turn, ScheduleOf(actions[1..], |former|));
    }
  }

  /**
   Whatever steps the tasks of the cycle take in whatever order, with those of former cycles done: when all have
   finished, the key cache, the signing memory and the multiset of signatures and messages are those of running
   them in sequence, and so they are after the ping, which comes last and records the block. Only which pause
   transaction went through may differ.
   */
  lemma EveryRunIsTheSequence(
    sys: System, former: seq<Task>, data: BlockData, modules: seq<SRModule>, actions: seq<Action>, env: Env)
    requires sys.world.phase == DepositRuns.Ready && sys.cycle == Checking(data, |former|)
    requires sys.tasks == former + Spawned(data, modules) && forall t <- former :: Rank(t.pc) == 0
    requires forall i, j | 0 <= i < j < |modules| :: modules[i].id != modules[j].id
    requires forall action <- actions :: IsTaskAction(action, data.block)
    requires AllFinished(Run(sys, actions, env).tasks, |former|)
    ensures var end, sequential := Run(sys, actions, env), AnsweredSequence(sys.shared, data, modules).0;
            var pinged := Step(end, Ping(true), env);
            && end.shared.keyCache == pinged.shared.keyCache == sequential.keyCache
            && end.shared.signing == pinged.shared.signing == sequential.signing
            && multiset(end.shared.log) == multiset(sequential.log)
            && pinged.shared.log == end.shared.log + Delivered(PingOf(data, modules))
            && end.processed == sys.processed && pinged.processed == sys.processed + [data.block] && pinged.cycle.Idle?
  {
    hide Run, Scheduled, AnsweredSequence, Spawned, DistinctIds, Step, Own, Pending, Delivered, PingOf;
    var tasks := Spawned(data, modules);
    assert forall t <- tasks :: t.data.block == data.block by { SpawnedAtBlock(data, modules); }
    RunIsASchedule(sys, former, tasks, sys.shared, actions, data.block, env);
    var schedule := ScheduleOf(actions, |former|);
    var end := Scheduled(sys.shared, tasks, schedule);
    forall t <- end.1
      ensures Rank(t.pc) == 0
    {
      var i :| 0 <= i < |end.1| && end.1[i] == t;
      assert (former + end.1)[|former| + i] == t;
    }
    EveryInterleavingIsTheSequence(sys.shared, data, modules, schedule);
    SpawnedAreDistinct(data, modules);
    ScheduleKeepsOutcome(sys.shared, tasks, schedule);
    PingEnds(Run(sys, actions, env), former, data, modules, end.1, env);
  }

  /** The ping of a cycle whose tasks have finished. */
  lemma PingEnds(sys: System, former: seq<Task>, data: BlockData, modules: seq<SRModule>, own: seq<Task>, env: Env)
    requires sys.world.phase == DepositRuns.Ready && sys.cycle == Checking(data, |former|) && sys.tasks == former + own
    requires AllFinished(sys.tasks, |former|)
    requires |own| == |Spawned(data, modules)| && forall i | 0 <= i < |own| ::
        own[i].listed == Spawned(data, modules)[i].listed
    ensures Step(sys, Ping(true), env)
         == sys.(cycle := Idle, processed := sys.processed + [data.block],
                 shared := sys.shared.(log := sys.shared.log + Delivered(PingOf(data, modules))))
  {
    hide Ids, PingOf, Delivered;
    assert sys.tasks[|former|..] == own;
    PingNamesModules(data, modules, own);
  }

  lemma SpawnedAtBlock(data: BlockData, modules: seq<SRModule>)
    ensures forall t <- Spawned(data, modules) :: t.data.block == data.block
  {}

  lemma PingNamesModules(data: BlockData, modules: seq<SRModule>, tasks: seq<Task>)
    requires |tasks| == |Spawned(data, modules)| && forall i | 0 <= i < |tasks| ::
        tasks[i].listed == Spawned(data, modules)[i].listed
    ensures PingMessage(data.block, data.guardianIndex, Ids(tasks)) == PingOf(data, modules)
  {
    assert Ids(tasks) == seq(|modules|, i requires 0 <= i < |modules| => modules[i].id);
  }
}
