/**
 The daemon: cron ticks, the deposit index, the cycle of GuardianService.handleNewBlock and the tasks of
 its modules, as one machine whose steps are the runs between two awaits. The tasks that a failed
 cycle leaves behind go on beside those of the next cycle.
 */
module GuardianSystem {
  import opened Wrappers
  import opened Chain
  import opened Provider
  import opened Deposits
  import opened DepositIndex
  import DepositRuns
  import opened OneAtTime
  import opened StakingRouter
  import opened StakingModuleGuard
  import opened BlockGuard
  import opened GuardianTasks

  /** handleNewBlock runs one at a time, so there is one cycle; a tick that finds it running is dropped. */
  datatype Cycle =
    | Idle
    | Listed(block: Block, modules: seq<SRModule>)
    | Refreshed(block: Block, modules: seq<SRModule>)
    | Checking(data: BlockData, first: nat)

  /** `processed` are the blocks this process passed to setLastProcessedStateMeta; `former` is what the processes
      before it left. */
  datatype System = System(
    world: DepositRuns.World, processed: seq<Block>, cycle: Cycle, tasks: seq<Task>, shared: Shared,
      former: seq<Effect>)

  /** The deployment block, the address of the guardian, and the blocks the Keys API ever reports. */
  datatype Env = Env(deployment: nat, address: string, seen: set<Block>)

  /** The blocks whose logs can be read: below the deployment the process exits. */
  ghost function Scanned(env: Env): set<Block>
  {
    set block <- env.seen | env.deployment <= Number(block)
  }

  datatype Action =
    | Index(action: DepositRuns.Action)
    | Tick(block: Block, modules: seq<SRModule>)
    | Refresh(head: int, readable: bool, chunks: seq<Chunk>, stop: nat)
    | Collect(readable: bool, attempts: Attempts, answered: bool)
    | Await(i: nat, reply: Reply)
    | PauseSettles(i: nat)
    | Abort
    | Ping(sent: bool)

  function LastMeta(processed: seq<Block>): Option<StateMeta>
  {
    if processed == [] then None else Some(MetaOf(Last(processed)))
  }

  predicate SomeFailed(tasks: seq<Task>, first: nat)
  {
    exists i | first <= i < |tasks| :: tasks[i].pc.Failed?
  }

  /** Everything the processes so far signed, sent and decided. */
  function TraceOf(sys: System): seq<Effect>
  {
    sys.former + sys.shared.log
  }

  function Ids(tasks: seq<Task>): seq<int>
  {
    seq(|tasks|, i requires 0 <= i < |tasks| => tasks[i].listed.id)
  }

  function UpdateOf(action: Action): DepositRuns.Action
    requires action.Refresh?
  {
    DepositRuns.Update(action.head, action.readable, action.chunks, action.stop)
  }

  function IndexStep(sys: System, action: DepositRuns.Action, deployment: nat): System
  {
    match action
    case Start(_) =>
      System(DepositRuns.Step(sys.world, action, deployment), [], Idle, [],
             Shared(map[], map[], Free(), []), TraceOf(sys))
    case Fetch(_, _, _) => sys
    case Update(_, _, _, _) =>
      if sys.cycle.Idle? then sys.(world := DepositRuns.Step(sys.world, action, deployment)) else sys
    case _ => sys.(world := DepositRuns.Step(sys.world, action, deployment))
  }

  function CollectStep(sys: System, action: Action, env: Env): System
    requires action.Collect? && sys.cycle.Refreshed?
  {
    var block := sys.cycle.block;
    var read := DepositRuns.ReadAt(sys.world.index, block, action.readable, action.attempts, env.deployment);
    var next := sys.(world := DepositRuns.Step(sys.world, DepositRuns.Fetch(block, action.readable, action.attempts),
      env.deployment));
    match CurrentBlockData(block, read, action.answered, env.address)
    case ProcessExits => next
    case Rejects => next.(cycle := Idle)
    case Data(data) => next.(cycle := Checking(data, |sys.tasks|),
      tasks := sys.tasks + Spawned(data, sys.cycle.modules))
  }

  function Step(sys: System, action: Action, env: Env): System
  {
    if action.Index? then IndexStep(sys, action.action, env.deployment)
    else if sys.world.phase != DepositRuns.Ready then sys
    else
      match action
      case Tick(block, modules) =>
        // getModulesList rejects an empty list
        if !sys.cycle.Idle? || modules == [] || !IsNeedToProcessNewState(LastMeta(sys.processed), MetaOf(block))
          then sys
        else sys.(cycle := Listed(block, modules))
      case Refresh(_, _, _, _) =>
        if !sys.cycle.Listed? then sys
        else
          var next := sys.(cycle := Refreshed(sys.cycle.block, sys.cycle.modules));
          if Number(sys.cycle.block) % DEPOSIT_EVENTS_CACHE_UPDATE_BLOCK_RATE != 0 then next
          else next.(world := DepositRuns.Step(sys.world, UpdateOf(action), env.deployment))
      case Collect(_, _, _) => if sys.cycle.Refreshed? then CollectStep(sys, action, env) else sys
      case Await(i, reply) =>
        if i < |sys.tasks| then
          var next := TaskStep(sys.shared, sys.tasks[i], reply);
          sys.(shared := next.0, tasks := sys.tasks[i := next.1])
        else sys
      case PauseSettles(i) => sys.(shared := sys.shared.(pausing := Left(sys.shared.pausing, i)))
      case Abort => if sys.cycle.Checking? && SomeFailed(sys.tasks, sys.cycle.first) then sys.(cycle := Idle) else sys
      case Ping(sent) =>
        if !sys.cycle.Checking? || !AllFinished(sys.tasks, sys.cycle.first) || |sys.tasks| < sys.cycle.first then sys
        else if !sent && sys.cycle.data.guardianIndex != -1 then sys.(cycle := Idle)
        else
          var ping := PingMessage(sys.cycle.data.block, sys.cycle.data.guardianIndex,
            Ids(sys.tasks[sys.cycle.first..]));
          sys.(cycle := Idle, processed := sys.processed + [sys.cycle.data.block],
               shared := sys.shared.(log := sys.shared.log + Delivered(ping)))
  }

  function Run(sys: System, actions: seq<Action>, env: Env): System
    decreases |actions|
  {
    if actions == [] then sys else Run(Step(sys, actions[0], env), actions[1..], env)
  }

  lemma OneStep(sys: System, action: Action, env: Env)
    ensures Run(sys, [action], env) == Step(sys, action, env)
    ensures HonestRun(sys, [action], env) <==> Honest(sys, action, env)
  {
    assert [action][1..] == [];
    assert Run(sys, [action], env) == Run(Step(sys, action, env), [], env);
  }

  lemma {:induction false} RunConcat(sys: System, one: seq<Action>, two: seq<Action>, env: Env)
    ensures Run(sys, one + two, env) == Run(Run(sys, one, env), two, env)
    ensures HonestRun(sys, one + two, env) <==> HonestRun(sys, one, env) && HonestRun(Run(sys, one, env), two, env)
    decreases |one|
  {
    hide Step, Honest;
    if one == [] {
      assert one + two == two;
    } else {
      assert (one + two)[1..] == one[1..] + two;
      RunConcat(Step(sys, one[0], env), one[1..], two, env);
    }
  }

  /** A machine on which the daemon never ran. */
  function Fresh(tip: Block): System
  {
    System(DepositRuns.Fresh(tip), [], Idle, [], Shared(map[], map[], Free(), []), [])
  }

  // ---- The guard, the lock and the order of a cycle, whatever the environment answers.

  /** Block numbers never decrease, and no block is processed twice in a row. */
  ghost predicate Monotone(processed: seq<Block>)
  {
    && (forall i, j | 0 <= i < j < |processed| :: Number(processed[i]) <= Number(processed[j]))
    && (forall i | 0 < i < |processed| :: processed[i] != processed[i - 1])
  }

  /** The guard lets the block of the cycle pass, and the tasks from the first one on work on its data. */
  ghost predicate GuardPasses(sys: System)
  {
    match sys.cycle
    case Idle => true
    case Listed(block, _) => IsNeedToProcessNewState(LastMeta(sys.processed), MetaOf(block))
    case Refreshed(block, _) => IsNeedToProcessNewState(LastMeta(sys.processed), MetaOf(block))
    case Checking(data, first) =>
      && IsNeedToProcessNewState(LastMeta(sys.processed), MetaOf(data.block)) && first <= |sys.tasks|
      && forall i | first <= i < |sys.tasks| :: sys.tasks[i].data == data
  }

  ghost predicate Guarded(sys: System)
  {
    Monotone(sys.processed) && Exclusive(sys.shared.pausing) && GuardPasses(sys)
  }

  lemma PingKeepsMonotone(processed: seq<Block>, block: Block)
    requires Monotone(processed) && IsNeedToProcessNewState(LastMeta(processed), MetaOf(block))
    ensures Monotone(processed + [block])
  {}

  lemma AwaitKeepsGuard(sys: System, i: nat, reply: Reply)
    requires Exclusive(sys.shared.pausing) && i < |sys.tasks|
    ensures var next := TaskStep(sys.shared, sys.tasks[i], reply);
            Exclusive(next.0.pausing) && next.1.data == sys.tasks[i].data
  {
    hide LocalStep;
    var t := sys.tasks[i];
    LocalStepShape(t, Lookup(sys.shared.keyCache, t.listed.id), Lookup(sys.shared.signing, t.listed.id), reply);
  }

  lemma StepKeepsGuard(sys: System, action: Action, env: Env)
    requires Guarded(sys)
    ensures Guarded(Step(sys, action, env))
  {
    hide DepositRuns.Step, DepositRuns.ReadAt, CurrentBlockData, TaskStep, Monotone, Left, Ids;
    MonotoneNone();
    match action
    case Await(i, reply) =>
      if i < |sys.tasks| {
        AwaitKeepsGuard(sys, i, reply);
      }
    case PauseSettles(i) => TurnExcludes(sys.shared.pausing, Settles(i));
    case Ping(_) =>
      if sys.cycle.Checking? {
        PingKeepsMonotone(sys.processed, sys.cycle.data.block);
      }
    case Collect(_, _, _) =>
      var next := Step(sys, action, env);
      if next.cycle.Checking? && sys.cycle.Refreshed? {
        CollectedBlock(sys.cycle.block,
                       DepositRuns.ReadAt(sys.world.index, sys.cycle.block, action.readable, action.attempts,
                         env.deployment), action.answered, env.address);
      }
    case _ =>
  }

  lemma MonotoneNone()
    ensures Monotone([])
  {}

  lemma {:induction false} RunKeepsGuard(sys: System, actions: seq<Action>, env: Env)
    requires Guarded(sys)
    ensures Guarded(Run(sys, actions, env))
    decreases |actions|
  {
    hide Guarded, Step;
    if actions != [] {
      StepKeepsGuard(sys, actions[0], env);
      RunKeepsGuard(Step(sys, actions[0], env), actions[1..], env);
    }
  }

  /**
   In every run, with any answers, failures, stale or wrong listings and reorganisations: the processed blocks
   are monotone, and at most one pause transaction is in flight.
   */
  lemma ProcessedBlocksAreMonotone(tip: Block, actions: seq<Action>, env: Env)
    ensures Monotone(Run(Fresh(tip), actions, env).processed)
    ensures Exclusive(Run(Fresh(tip), actions, env).shared.pausing)
  {
    hide Run;
    RunKeepsGuard(Fresh(tip), actions, env);
  }

  /** A block is recorded only by the ping, when all tasks of its cycle have finished. */
  lemma RecordedOnlyAfterPing(sys: System, action: Action, env: Env)
    requires Step(sys, action, env).processed != sys.processed && Step(sys, action, env).processed != []
    ensures action.Ping? && sys.cycle.Checking? && AllFinished(sys.tasks, sys.cycle.first)
    ensures action.sent || sys.cycle.data.guardianIndex == -1
    ensures Step(sys, action, env).processed == sys.processed + [sys.cycle.data.block]
    ensures Guarded(sys) ==> forall i | sys.cycle.first <= i < |sys.tasks| :: sys.tasks[i].data == sys.cycle.data
  {
    hide DepositRuns.Step, DepositRuns.ReadAt, CurrentBlockData, TaskStep;
  }

  // ---- Truth.

  /** What the environment is trusted with, step by step. */
  ghost predicate Honest(sys: System, action: Action, env: Env)
  {
    match action
    case Index(a) => DepositRuns.Honest(sys.world, a, env.deployment)
    // the Keys API lists the modules with the nonces they have at the block it reports
    case Tick(block, modules) => block in env.seen && forall m <- modules :: m == ListedAt(block, m.id)
    case Refresh(_, _, _, _) =>
      sys.cycle.Listed? && sys.world.phase == DepositRuns.Ready
        && Number(sys.cycle.block) % DEPOSIT_EVENTS_CACHE_UPDATE_BLOCK_RATE == 0
      ==> DepositRuns.Honest(sys.world, UpdateOf(action), env.deployment)
    // the logs come from the chain of the block of the cycle, or from one view that suffices
    case Collect(readable, attempts, _) =>
      sys.cycle.Refreshed? ==> DepositRuns.FetchHonest(sys.world, sys.cycle.block, readable, attempts, env.deployment)
    case _ => true
  }

  ghost predicate SharedInv(shared: Shared, env: Env)
  {
    && Truthful(shared.keyCache, Scanned(env))
    && RightPauses(shared.pausing, env.deployment)
    && (forall effect <- shared.log :: RightEffect(effect, env.deployment))
  }

  ghost predicate TasksInv(tasks: seq<Task>, log: seq<Effect>, pausing: Lock<PauseCall>, env: Env)
  {
    forall i | 0 <= i < |tasks| :: TrueTask(tasks[i], Scanned(env), env.deployment)
      && Recorded(tasks[i], log, pausing, env.deployment)
  }

  ghost predicate CycleInv(sys: System, env: Env)
  {
    match sys.cycle
    case Listed(block, modules) => block in env.seen && forall m <- modules :: m == ListedAt(block, m.id)
    case Refreshed(block, modules) => block in env.seen && forall m <- modules :: m == ListedAt(block, m.id)
    case _ => true
  }

  ghost predicate Inv(sys: System, env: Env)
  {
    && DepositRuns.Inv(sys.world, env.deployment)
    && SharedInv(sys.shared, env)
    && TasksInv(sys.tasks, sys.shared.log, sys.shared.pausing, env)
    && CycleInv(sys, env)
    && GuardPasses(sys)
    && (forall effect <- sys.former :: RightEffect(effect, env.deployment))
  }

  lemma AwaitKeepsInv(sys: System, i: nat, reply: Reply, env: Env)
    requires Inv(sys, env) && NonceDeterminesVerdicts(Scanned(env), env.deployment) && i < |sys.tasks|
    ensures var next := TaskStep(sys.shared, sys.tasks[i], reply);
            SharedInv(next.0, env) && TasksInv(sys.tasks[i := next.1], next.0.log, next.0.pausing, env)
              && next.1.data == sys.tasks[i].data
  {
    hide DepositRuns.Inv, CycleInv, NonceDeterminesVerdicts, TrueTask, RightEffect, LocalStep;
    var t := sys.tasks[i];
    var keys, state := Lookup(sys.shared.keyCache, t.listed.id), Lookup(sys.shared.signing, t.listed.id);
    LocalStepIsRight(t, keys, state, reply, Scanned(env), env.deployment);
    LocalStepRecords(sys.shared, t, reply, Scanned(env), env.deployment);
    LocalStepShape(t, keys, state, reply);
    var l := LocalStep(t, keys, state, reply);
    var pausing := TaskStep(sys.shared, t, reply).0.pausing;
    if l.pauses != [] {
      EnteredWasCalled(sys.shared.pausing, l.pauses[0]);
    }
    forall j | 0 <= j < |sys.tasks|
      ensures Recorded(sys.tasks[j], sys.shared.log + l.effects, pausing, env.deployment)
    {
      RecordedStays(sys.tasks[j], sys.shared.log, l.effects, sys.shared.pausing, pausing, env.deployment);
    }
  }

  lemma RecordedStays(t: Task, log: seq<Effect>, more: seq<Effect>, before: Lock<PauseCall>, after: Lock<PauseCall>,
      deployment: nat)
    requires Recorded(t, log, before, deployment)
    requires forall call | WasCalled(before, call) :: WasCalled(after, call)
    ensures Recorded(t, log + more, after, deployment)
  {
    hide TrueVerdict, WasCalled;
  }

  lemma SpawnedTasksInv(tasks: seq<Task>, data: BlockData, modules: seq<SRModule>, log: seq<Effect>,
      pausing: Lock<PauseCall>, env: Env)
    requires TasksInv(tasks, log, pausing, env)
    requires data.block in Scanned(env) && TrueData(data, env.deployment)
        && forall m <- modules :: m == ListedAt(data.block, m.id)
    ensures TasksInv(tasks + Spawned(data, modules), log, pausing, env)
  {
    hide TrueVerdict, TrueData, ModuleAt;
    var all := tasks + Spawned(data, modules);
    forall i | 0 <= i < |all|
      ensures TrueTask(all[i], Scanned(env), env.deployment) && Recorded(all[i], log, pausing, env.deployment)
    {
      if |tasks| <= i {
        assert modules[i - |tasks|] in modules;
      }
    }
  }

  lemma CollectKeepsInv(sys: System, action: Action, env: Env)
    requires Inv(sys, env) && action.Collect? && sys.cycle.Refreshed? && sys.world.phase == DepositRuns.Ready
    requires Honest(sys, action, env)
    ensures Inv(CollectStep(sys, action, env), env)
  {
    hide TrueTask, Recorded, RightEffect, Truthful, IndexOf, DepositRuns.Inv, DepositRuns.Step, DepositRuns.FetchHonest,
      DepositRuns.ReadAt, Scan;
    var block := sys.cycle.block;
    DepositRuns.StepKeepsInv(sys.world, DepositRuns.Fetch(block, action.readable, action.attempts), env.deployment);
    ReadSound(sys.world, block, action.readable, action.attempts, env.deployment);
    var next := CollectStep(sys, action, env);
    if next.cycle.Checking? {
      SpawnedTasksInv(sys.tasks, next.cycle.data, sys.cycle.modules, sys.shared.log, sys.shared.pausing, env);
    }
  }

  lemma ReadSound(world: DepositRuns.World, block: Block, readable: bool, attempts: Attempts, deployment: nat)
    requires DepositRuns.Inv(world, deployment) && world.phase == DepositRuns.Ready
    requires DepositRuns.FetchHonest(world, block, readable, attempts, deployment)
    ensures var read := DepositRuns.ReadAt(world.index, block, readable, attempts, deployment);
            read.Returns? ==>
                  deployment <= Number(block) && read.group.events == Scan(block, deployment + 1, Number(block))
  {
    hide Scan, Sound, AllDepositedEvents, TailServed, ServedFrom;
    ReadIsTheScan(world.index, block, readable, attempts, world.settled, deployment);
  }

  lemma IndexStepKeepsInv(sys: System, action: DepositRuns.Action, env: Env)
    requires Inv(sys, env) && DepositRuns.Honest(sys.world, action, env.deployment)
    ensures Inv(IndexStep(sys, action, env.deployment), env)
  {
    hide DepositRuns.Inv, DepositRuns.Step, TrueTask, Recorded, RightEffect;
    DepositRuns.StepKeepsInv(sys.world, action, env.deployment);
  }

  lemma StepKeepsInv(sys: System, action: Action, env: Env)
    requires Inv(sys, env) && Honest(sys, action, env) && NonceDeterminesVerdicts(Scanned(env), env.deployment)
    ensures Inv(Step(sys, action, env), env)
  {
    hide DepositRuns.Inv, DepositRuns.Step, DepositRuns.Honest, TrueTask, Recorded, RightEffect, RightPauses, Left,
      TaskStep, CollectStep, NonceDeterminesVerdicts;
    if action.Index? {
      IndexStepKeepsInv(sys, action.action, env);
    } else if sys.world.phase == DepositRuns.Ready {
      match action
      case Refresh(_, _, _, _) =>
        if sys.cycle.Listed? && Number(sys.cycle.block) % DEPOSIT_EVENTS_CACHE_UPDATE_BLOCK_RATE == 0 {
          DepositRuns.StepKeepsInv(sys.world, UpdateOf(action), env.deployment);
        }
      case Collect(_, _, _) =>
        if sys.cycle.Refreshed? {
          CollectKeepsInv(sys, action, env);
        }
      case Await(i, reply) =>
        if i < |sys.tasks| {
          AwaitKeepsInv(sys, i, reply, env);
        }
      case PauseSettles(i) => SettlingKeepsInv(sys, i, env);
      case Ping(sent) => PingKeepsInv(sys, action, env);
      case _ =>
    }
  }

  lemma SettlingKeepsInv(sys: System, i: nat, env: Env)
    requires Inv(sys, env)
    ensures var pausing := Left(sys.shared.pausing, i);
            SharedInv(sys.shared.(pausing := pausing), env) && TasksInv(sys.tasks, sys.shared.log, pausing, env)
  {
    hide DepositRuns.Inv, TrueTask, WasCalled, TrueVerdict;
    var pausing := Left(sys.shared.pausing, i);
    LeftWasCalled(sys.shared.pausing, i);
    assert sys.shared.log + [] == sys.shared.log;
    forall j | 0 <= j < |sys.tasks|
      ensures Recorded(sys.tasks[j], sys.shared.log, pausing, env.deployment)
    {
      RecordedStays(sys.tasks[j], sys.shared.log, [], sys.shared.pausing, pausing, env.deployment);
    }
  }

  lemma PingKeepsInv(sys: System, action: Action, env: Env)
    requires Inv(sys, env) && action.Ping? && sys.world.phase == DepositRuns.Ready
    ensures Inv(Step(sys, action, env), env)
  {
    hide DepositRuns.Inv, TrueTask, Recorded;
    var next := Step(sys, action, env);
    if next.processed != sys.processed {
      var ping := PingMessage(sys.cycle.data.block, sys.cycle.data.guardianIndex, Ids(sys.tasks[sys.cycle.first..]));
      assert RightEffect(Sent(ping), env.deployment);
      forall j | 0 <= j < |sys.tasks|
        ensures Recorded(sys.tasks[j], sys.shared.log + Delivered(ping), sys.shared.pausing, env.deployment)
      {
        RecordedStays(sys.tasks[j], sys.shared.log, Delivered(ping), sys.shared.pausing, sys.shared.pausing,
          env.deployment);
      }
    }
  }

  ghost predicate HonestRun(sys: System, actions: seq<Action>, env: Env)
    decreases |actions|
  {
    actions == [] || (Honest(sys, actions[0], env) && HonestRun(Step(sys, actions[0], env), actions[1..], env))
  }

  lemma {:induction false} RunKeepsInv(sys: System, actions: seq<Action>, env: Env)
    requires Inv(sys, env) && HonestRun(sys, actions, env) && NonceDeterminesVerdicts(Scanned(env), env.deployment)
    ensures Inv(Run(sys, actions, env), env)
    decreases |actions|
  {
    hide Inv, Step, Honest, NonceDeterminesVerdicts;
    if actions != [] {
      StepKeepsInv(sys, actions[0], env);
      RunKeepsInv(Step(sys, actions[0], env), actions[1..], env);
    }
  }

  lemma FreshInv(tip: Block, env: Env)
    ensures Inv(Fresh(tip), env)
  {
    var settled := DepositRuns.Fresh(tip).settled;
    AncestorOfAncestor(tip, Number(settled), Number(settled));
  }

  /**
   End to end: in every run, with any failures, restarts, leftover tasks and interleavings, the verdict on
   a module at a block is the verdict of a full scan of that chain with a fresh list of keys. So nothing
   signs or sends a deposit while an attack deposit exists, and nothing pauses without one.
   */
  lemma EveryVerdictIsTrue(tip: Block, actions: seq<Action>, env: Env, effect: Effect)
    requires HonestRun(Fresh(tip), actions, env) && NonceDeterminesVerdicts(Scanned(env), env.deployment)
    requires effect in TraceOf(Run(Fresh(tip), actions, env))
    ensures RightEffect(effect, env.deployment)
  {
    hide HonestRun, Run, RightEffect, NonceDeterminesVerdicts;
    FreshInv(tip, env);
    RunKeepsInv(Fresh(tip), actions, env);
  }

  /** The same, said of the signature alone: no event in (deployment, n] is an attack on the module. */
  lemma NoDepositIsSignedUnderAttack(
    tip: Block, actions: seq<Action>, env: Env, id: int, block: Block, depositRoot: string, nonce: int, e: Event)
    requires HonestRun(Fresh(tip), actions, env) && NonceDeterminesVerdicts(Scanned(env), env.deployment)
    requires SignedDeposit(id, block, depositRoot, nonce) in TraceOf(Run(Fresh(tip), actions, env))
    requires e in Scan(block, env.deployment + 1, Number(block))
    ensures ModuleAt(block, id).active
    ensures !(e.valid && e.pubkey in ModuleAt(block, id).unusedKeys && e.wc != ContractsAt(block).lidoWC)
  {
    hide HonestRun, Run, NonceDeterminesVerdicts;
    EveryVerdictIsTrue(tip, actions, env, SignedDeposit(id, block, depositRoot, nonce));
  }

  /** In every honest run pauseDeposits is only ever called for an attacked module. */
  lemma PausesOnlyTheAttacked(tip: Block, actions: seq<Action>, env: Env)
    requires HonestRun(Fresh(tip), actions, env) && NonceDeterminesVerdicts(Scanned(env), env.deployment)
    ensures RightPauses(Run(Fresh(tip), actions, env).shared.pausing, env.deployment)
  {
    hide HonestRun, Run, NonceDeterminesVerdicts, RightPauses;
    FreshInv(tip, env);
    RunKeepsInv(Fresh(tip), actions, env);
  }

  /**
   When a block is recorded as processed, every module of the cycle has its true verdict in the log. For an
   attacked one the pause is signed, pauseDeposits was called, whether or not it was dropped, and the pause
   message is sent, if the guardian is in the list; for a clean one the state was remembered.
   */
  lemma ProcessedOnlyAfterAll(sys: System, action: Action, env: Env)
    requires Inv(sys, env) && Step(sys, action, env).processed != sys.processed
        && Step(sys, action, env).processed != []
    ensures sys.cycle.Checking?
    ensures forall i | sys.cycle.first <= i < |sys.tasks| ::
              var t := sys.tasks[i];
              var verdict := TrueVerdict(t.data.block, t.listed.id, env.deployment);
              && t.data == sys.cycle.data
              && Decided(t.listed.id, t.data.block, verdict) in sys.shared.log
              && (verdict == Clean ==> Remembered(t.listed.id, t.data.block,
                StateAt(t.data.block, t.listed.id)) in sys.shared.log)
              && (verdict == Attacked ==>
                    && SignedPause(t.listed.id, t.data.block) in sys.shared.log
                    && WasCalled(sys.shared.pausing, PauseCall(t.listed.id, t.data.block)))
              && (verdict == Attacked && t.data.guardianIndex != -1 ==>
                    Sent(PauseMessage(ContractsAt(t.data.block).depositRoot, ModuleAt(t.data.block, t.listed.id).nonce,
                                      t.data.block, t.data.guardianIndex, t.listed.id)) in sys.shared.log)
  {
    hide TrueVerdict, RightEffect, DepositRuns.Inv, StateAt, Step;
    RecordedOnlyAfterPing(sys, action, env);
    forall i | sys.cycle.first <= i < |sys.tasks|
      ensures sys.tasks[i].pc.Finished? && Recorded(sys.tasks[i], sys.shared.log, sys.shared.pausing, env.deployment)
    {}
  }

  /**
   Fresh logs from one chain view with a non-empty block n that is not the block of the cycle end the
   cycle: nothing is signed, sent or recorded as processed.
   */
  lemma AlternateChainEndsCycle(sys: System, action: Action, view: Block, env: Env)
    requires action.Collect? && sys.cycle.Refreshed? && sys.world.phase == DepositRuns.Ready
    requires var first, n := DepositRuns.Served(sys.world.index, action.readable, env.deployment).endBlock + 1,
        Number(sys.cycle.block);
             && first <= n <= Number(view) && ServedBy(first, n, action.attempts, view)
             && EventsAt(view, n) != [] && !OnChain(sys.cycle.block, view)
    ensures var next := Step(sys, action, env);
            next.cycle.Idle? && next.shared == sys.shared && next.processed == sys.processed && next.tasks == sys.tasks
  {
    hide OnChain, EventsAt, ServedBy, FetchEventsFallOver;
    BlockHashCheck(DepositRuns.Served(sys.world.index, action.readable, env.deployment).endBlock + 1, sys.cycle.block,
      action.attempts, view);
  }

  /** A cycle goes on to its modules exactly if the root and the guardian list are answered and the read returns. */
  lemma ChecksExactly(sys: System, action: Action, env: Env)
    requires action.Collect? && sys.cycle.Refreshed? && sys.world.phase == DepositRuns.Ready
    ensures var next := Step(sys, action, env);
            var block := sys.cycle.block;
            var read := DepositRuns.ReadAt(sys.world.index, block, action.readable, action.attempts, env.deployment);
            && next.shared == sys.shared && next.processed == sys.processed
            && (next.world.phase == DepositRuns.Down <==> read.Exits?)
            && if action.answered && read.Returns? then
                 && next.cycle.Checking? && next.cycle.first == |sys.tasks|
                 && next.cycle.data.block == block && next.cycle.data.events == read.group.events
                 && next.cycle.data.depositRoot == ContractsAt(block).depositRoot
                 && next.tasks == sys.tasks + Spawned(next.cycle.data, sys.cycle.modules)
               else next.tasks == sys.tasks && (!read.Exits? ==> next.cycle.Idle?)
  {
    hide DepositRuns.ReadAt, IndexOf;
  }

  /** The index is updated in the cycles of every tenth block, and left alone in the others. */
  lemma RefreshesEveryTen(sys: System, action: Action, env: Env)
    requires action.Refresh? && sys.cycle.Listed? && sys.world.phase == DepositRuns.Ready
    ensures var next := Step(sys, action, env);
            && next == sys.(world := next.world, cycle := Refreshed(sys.cycle.block, sys.cycle.modules))
            && next.world == if Number(sys.cycle.block) % 10 == 0
                             then DepositRuns.Step(sys.world, UpdateOf(action), env.deployment) else sys.world
  {}

  /** The ping ends a cycle whose tasks have all finished, and records the block exactly if it went out or need not. */
  lemma PingEndsExactly(sys: System, sent: bool, env: Env)
    requires sys.world.phase == DepositRuns.Ready
    ensures var next := Step(sys, Ping(sent), env);
            if sys.cycle.Checking? && sys.cycle.first <= |sys.tasks|
               && forall i | sys.cycle.first <= i < |sys.tasks| :: sys.tasks[i].pc.Finished? then
              && next == sys.(cycle := Idle, processed := next.processed, shared := sys.shared.(log := next.shared.log))
              && next.processed
              == sys.processed + (if sent || sys.cycle.data.guardianIndex == -1 then [sys.cycle.data.block] else [])
              && next.shared.log
              == sys.shared.log
                 + if sent && sys.cycle.data.guardianIndex != -1 then
                     [Sent(PingMessage(sys.cycle.data.block, sys.cycle.data.guardianIndex,
                       Ids(sys.tasks[sys.cycle.first..])))]
                   else []
            else next == sys
  {
    assert sys.processed + [] == sys.processed && sys.shared.log + [] == sys.shared.log;
  }
}
