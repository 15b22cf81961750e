/**
 Runs of the daemon, written out: how a process boots, and how any call of handleNewBlock goes through the
 steps of GuardianSystem, whatever it is answered. What a run can do is shown with these.
 */
module GuardianCycle {
  import opened Wrappers
  import opened Chain
  import opened Provider
  import opened Cache
  import opened Deposits
  import opened DepositIndex
  import opened OneAtTime
  import opened StakingRouter
  import opened StakingModuleGuard
  import opened BlockGuard
  import opened GuardianTasks
  import opened GuardianService
  import opened GuardianSystem

  /** The process serves, no cycle runs, and nothing is cached. */
  ghost predicate Idles(sys: System)
  {
    && sys.world.phase == DepositRuns.Ready && sys.cycle.Idle?
    && LoadedIndex(sys.world.index, true).memory.value == DEPOSIT_CACHE_DEFAULT
  }

  /** The settled block, and what nodes report, are the same. */
  ghost predicate SameChain(a: System, b: System)
  {
    a.world.settled == b.world.settled && a.world.tip == b.world.tip && a.world.peak == b.world.peak
  }

  /** A fresh machine starts the daemon and initialises it. */
  lemma Boots(tip: Block, env: Env) returns (actions: seq<Action>)
    ensures HonestRun(Fresh(tip), actions, env)
    ensures var sys := Run(Fresh(tip), actions, env);
            && Idles(sys) && SameChain(sys, Fresh(tip))
            && sys.processed == [] && sys.tasks == [] && sys.shared == Shared(map[], map[], Free(), [])
              && sys.former == []
  {
    var start, initialize := Index(DepositRuns.Start(Absent)), Index(DepositRuns.Initialize(0, true, true, 3));
    actions := [start] + [initialize];
    var started := Step(Fresh(tip), start, env);
    var initialized := Step(started, initialize, env);
    assert initialized.world.phase == DepositRuns.Ready;
    OneStep(Fresh(tip), start, env);
    OneStep(started, initialize, env);
    RunConcat(Fresh(tip), [start], [initialize], env);
  }

  lemma RunAloneEnds(s: Shared, t: Task, replies: Replies)
    ensures var end := RunAlone(s, t, replies);
            Rank(end.1.pc) == 0 && end.1.data == t.data && end.1.listed == t.listed
    decreases Rank(t.pc)
  {
    hide LocalStep, Merged;
    if Rank(t.pc) > 0 {
      LocalStepShape(t, Lookup(s.keyCache, t.listed.id), Lookup(s.signing, t.listed.id), ReplyTo(t.pc, replies));
      var next := TaskStep(s, t, ReplyTo(t.pc, replies));
      RunAloneEnds(next.0, next.1, replies);
    }
  }

  /** A task whose requests are all answered finishes. */
  lemma AnsweredFinishes(s: Shared, t: Task)
    requires !t.pc.Failed?
    ensures RunAlone(s, t, AllAnswered(t.data.block)).1.pc.Finished?
    decreases Rank(t.pc)
  {
    hide KeysIntersections, ValidIntersections, AttackIntersections, IsSameContractsStates, UnusedModuleKeys,
      ModuleDataOf, Merged;
    if Rank(t.pc) > 0 {
      var reply := ReplyTo(t.pc, AllAnswered(t.data.block));
      LocalStepShape(t, Lookup(s.keyCache, t.listed.id), Lookup(s.signing, t.listed.id), reply);
      var next := TaskStep(s, t, reply);
      AnsweredFinishes(next.0, next.1);
    }
  }

  /** A task never takes back what it has signed or sent. */
  lemma RunAloneGrows(s: Shared, t: Task, replies: Replies)
    ensures s.log <= RunAlone(s, t, replies).0.log
    decreases Rank(t.pc)
  {
    hide LocalStep;
    if Rank(t.pc) > 0 {
      LocalStepShape(t, Lookup(s.keyCache, t.listed.id), Lookup(s.signing, t.listed.id), ReplyTo(t.pc, replies));
      var next := TaskStep(s, t, ReplyTo(t.pc, replies));
      RunAloneGrows(next.0, next.1, replies);
    }
  }

  /** The awaits of one task, one after another, are that task run alone. */
  lemma {:induction false} AwaitsRunAlone(sys: System, i: nat, replies: Replies, env: Env)
      returns (actions: seq<Action>)
    requires sys.world.phase == DepositRuns.Ready && i < |sys.tasks|
    ensures HonestRun(sys, actions, env)
    ensures var end := RunAlone(sys.shared, sys.tasks[i], replies);
            Run(sys, actions, env) == sys.(shared := end.0, tasks := sys.tasks[i := end.1])
    decreases Rank(sys.tasks[i].pc)
  {
    hide LocalStep, Merged;
    var t := sys.tasks[i];
    if Rank(t.pc) == 0 {
      actions := [];
      assert sys.tasks[i := t] == sys.tasks;
    } else {
      var reply := ReplyTo(t.pc, replies);
      LocalStepShape(t, Lookup(sys.shared.keyCache, t.listed.id), Lookup(sys.shared.signing, t.listed.id), reply);
      var next := Step(sys, Await(i, reply), env);
      var rest := AwaitsRunAlone(next, i, replies, env);
      actions := [Await(i, reply)] + rest;
      assert actions[1..] == rest;
      var end := RunAlone(sys.shared, t, replies);
      assert next.tasks[i := end.1] == sys.tasks[i := end.1];
    }
  }

  /** The awaits of the tasks of a cycle, task by task, are the tasks in sequence. */
  lemma {:induction false} AwaitsInSequence(
    sys: System, before: seq<Task>, data: BlockData, modules: seq<SRModule>, replies: seq<Replies>, env: Env)
    returns (actions: seq<Action>)
    requires sys.world.phase == DepositRuns.Ready && |replies| == |modules|
        && sys.tasks == before + Spawned(data, modules)
    ensures HonestRun(sys, actions, env)
    ensures var run := InSequence(sys.shared, data, modules, replies);
            && Run(sys, actions, env) == sys.(shared := run.0, tasks := before + run.1)
            && |run.1| == |modules|
            && forall i | 0 <= i < |modules| ::
                  Rank(run.1[i].pc) == 0 && run.1[i].data == data && run.1[i].listed == modules[i]
    decreases |modules|
  {
    hide RunAlone, Step, Honest;
    if modules == [] {
      actions := [];
    } else {
      var t := sys.tasks[|before|];
      assert t == Task(data, modules[0], Starting);
      var first := AwaitsRunAlone(sys, |before|, replies[0], env);
      RunAloneEnds(sys.shared, t, replies[0]);
      var end := RunAlone(sys.shared, t, replies[0]);
      var next := Run(sys, first, env);
      assert next.tasks == before + [end.1] + Spawned(data, modules[1..]);
      var rest := AwaitsInSequence(next, before + [end.1], data, modules[1..], replies[1..], env);
      RunConcat(sys, first, rest, env);
      actions := first + rest;
      var run := InSequence(next.shared, data, modules[1..], replies[1..]);
      assert before + [end.1] + run.1 == before + ([end.1] + run.1);
    }
  }

  /** What the environment is trusted with in one cycle. */
  ghost predicate HonestAnswers(sys: System, a: Answers, env: Env)
  {
    && Honest(sys, Tick(a.block, a.modules), env)
    && (Number(a.block) % DEPOSIT_EVENTS_CACHE_UPDATE_BLOCK_RATE == 0 ==>
          DepositRuns.Honest(sys.world, DepositRuns.Update(a.head, a.readable, a.chunks, 0), env.deployment))
    && var refreshed := RefreshedIndex(sys.world.index, a, env.deployment);
       (!refreshed.1 ==>
          DepositRuns.FetchHonest(sys.world.(index := refreshed.0), a.block, a.readable, a.attempts, env.deployment))
  }

  /** The end of the cycle that the answers make, said of the machine as HandleNewBlock says it of the services. */
  ghost predicate HandledAs(sys: System, a: Answers, env: Env, end: System)
    requires |a.replies| == |a.modules|
  {
    if a.modules == [] || !IsNeedToProcessNewState(LastMeta(sys.processed), MetaOf(a.block)) then end == sys
    else
      var collected := CollectedAt(sys.world.index, a, env.deployment, env.address);
      && end.world.index == collected.0 && SameChain(end, sys) && end.former == sys.former
      && (end.world.phase == if collected.1.ProcessExits? then DepositRuns.Down else DepositRuns.Ready)
      && (!collected.1.ProcessExits? ==> end.cycle.Idle?)
      && match collected.1
         case Data(data) =>
           var run := InSequence(sys.shared, data, a.modules, a.replies);
           && end.tasks == sys.tasks + run.1
           && if AllFinished(run.1, 0) && (a.pinged || data.guardianIndex == -1) then
                && end.processed == sys.processed + [a.block]
                && end.shared == run.0.(log := run.0.log + Delivered(PingOf(data, a.modules)))
              else end.processed == sys.processed && end.shared == run.0
         case _ => end.tasks == sys.tasks && end.processed == sys.processed && end.shared == sys.shared
  }

  /** The tick and the refresh of a cycle. */
  lemma Refreshes(sys: System, a: Answers, env: Env) returns (actions: seq<Action>)
    requires sys.world.phase == DepositRuns.Ready && sys.cycle.Idle?
    requires a.modules != [] && IsNeedToProcessNewState(LastMeta(sys.processed), MetaOf(a.block))
    ensures HonestAnswers(sys, a, env) ==> HonestRun(sys, actions, env)
    ensures var refreshed := RefreshedIndex(sys.world.index, a, env.deployment);
            Run(sys, actions, env)
            == sys.(world := sys.world.(index := refreshed.0, phase := if refreshed.1 then DepositRuns.Down
              else DepositRuns.Ready),
                    cycle := Refreshed(a.block, a.modules))
  {
    hide IsNeedToProcessNewState, Updated, DepositRuns.FetchHonest;
    var stop := |Updated(sys.world.index, a.head, a.readable, a.chunks, env.deployment).trail|;
    var tick, refresh := Tick(a.block, a.modules), Refresh(a.head, a.readable, a.chunks, stop);
    var listed := Step(sys, tick, env);
    OneStep(sys, tick, env);
    OneStep(listed, refresh, env);
    RunConcat(sys, [tick], [refresh], env);
    actions := [tick] + [refresh];
  }

  /** The end of a cycle whose tasks are done. */
  lemma Ends(sys: System, before: seq<Task>, data: BlockData, modules: seq<SRModule>, own: seq<Task>, pinged: bool,
      env: Env)
    returns (last: Action)
    requires sys.world.phase == DepositRuns.Ready && sys.cycle == Checking(data, |before|) && sys.tasks == before + own
    requires |own| == |modules|
    requires forall i | 0 <= i < |own| :: Rank(own[i].pc) == 0 && own[i].listed == modules[i]
    ensures HonestRun(sys, [last], env)
    ensures Run(sys, [last], env)
         == if AllFinished(own, 0) && (pinged || data.guardianIndex == -1) then
              sys.(cycle := Idle, processed := sys.processed + [data.block],
                   shared := sys.shared.(log := sys.shared.log + Delivered(PingOf(data, modules))))
            else sys.(cycle := Idle)
  {
    var first := |before|;
    assert sys.tasks[first..] == own;
    assert forall i | 0 <= i < |own| :: sys.tasks[first + i] == own[i];
    if AllFinished(own, 0) {
      last := Ping(pinged);
      assert AllFinished(sys.tasks, first);
      assert Ids(own) == seq(|modules|, i requires 0 <= i < |modules| => modules[i].id);
    } else {
      last := Abort;
      var i :| 0 <= i < |own| && !own[i].pc.Finished?;
      assert sys.tasks[first + i].pc.Failed?;
    }
    OneStep(sys, last, env);
  }

  /**
   A call of handleNewBlock is a run: whatever a cycle is answered, over any number of modules and from any
   index, the machine has a run that ends where HandleNewBlock ends, and it is honest if the answers are.
   */
  lemma HandleNewBlockRuns(sys: System, a: Answers, env: Env) returns (actions: seq<Action>)
    requires sys.world.phase == DepositRuns.Ready && sys.cycle.Idle? && |a.replies| == |a.modules|
    ensures HonestAnswers(sys, a, env) ==> HonestRun(sys, actions, env)
    ensures HandledAs(sys, a, env, Run(sys, actions, env))
  {
    hide Step, Honest, HonestRun, Run, InSequence, Ids, IsNeedToProcessNewState, RefreshedIndex,
      DepositRuns.FetchHonest, Spawned;
    if a.modules == [] || !IsNeedToProcessNewState(LastMeta(sys.processed), MetaOf(a.block)) {
      actions := [];
      NoStep(sys, env);
      return;
    }
    var refreshes := Refreshes(sys, a, env);
    var refreshed := Run(sys, refreshes, env);
    if RefreshedIndex(sys.world.index, a, env.deployment).1 {
      return refreshes;
    }
    var collect := Collect(a.readable, a.attempts, a.answered);
    CollectsAt(sys, refreshed, a, env);
    OneStep(refreshed, collect, env);
    RunConcat(sys, refreshes, [collect], env);
    actions := refreshes + [collect];
    var collected := CollectedAt(sys.world.index, a, env.deployment, env.address).1;
    if collected.Data? {
      var checking := Run(sys, actions, env);
      var awaits := AwaitsInSequence(checking, sys.tasks, collected.data, a.modules, a.replies, env);
      var checked := Run(checking, awaits, env);
      var run := InSequence(sys.shared, collected.data, a.modules, a.replies);
      var last := Ends(checked, sys.tasks, collected.data, a.modules, run.1, a.pinged, env);
      CycleDataBlock(sys.world.index, a, env.deployment, env.address);
      RunConcat(sys, actions, awaits, env);
      RunConcat(sys, actions + awaits, [last], env);
      actions := actions + awaits + [last];
    }
  }

  lemma NoStep(sys: System, env: Env)
    ensures Run(sys, [], env) == sys && HonestRun(sys, [], env)
  {}

  /** The collect of a cycle. */
  lemma CollectsAt(sys: System, refreshed: System, a: Answers, env: Env)
    requires var index := RefreshedIndex(sys.world.index, a, env.deployment);
             && !index.1
             && refreshed == sys.(world := sys.world.(index := index.0, phase := DepositRuns.Ready),
               cycle := Refreshed(a.block, a.modules))
    ensures var collect := Collect(a.readable, a.attempts, a.answered);
            var collected := CollectedAt(sys.world.index, a, env.deployment, env.address);
            var phase := if collected.1.ProcessExits? then DepositRuns.Down else DepositRuns.Ready;
            var next := refreshed.(world := refreshed.world.(index := collected.0, phase := phase));
            && (HonestAnswers(sys, a, env) ==> Honest(refreshed, collect, env))
            && Step(refreshed, collect, env)
            == match collected.1
               case ProcessExits => next
               case Rejects => next.(cycle := Idle)
               case Data(data) => next.(cycle := Checking(data, |sys.tasks|),
                 tasks := sys.tasks + Spawned(data, a.modules))
  {
    hide AllDepositedEvents, IndexOf, RefreshedIndex, LoadedIndex, Clamped, TailServed;
  }

  // ---- The services as a run.

  /** The services are in the state of the machine. */
  ghost predicate Mirrors(service: GuardianService, sys: System)
    reads service, service.router, service.moduleGuard, service.pauseDeposits, service.blockGuard,
    service.blockGuard.depositService.cacheService
  {
    && service.State() == sys.shared
    && service.blockGuard.lastProcessedStateMeta == LastMeta(sys.processed)
    && service.blockGuard.depositService.cacheService.State() == sys.world.index
  }

  /** A call over the service objects keeps them in the state of the machine. */
  method HandleAsRun(service: GuardianService, ghost sys: System, a: Answers, ghost env: Env)
      returns (end: CycleEnd, ghost actions: seq<Action>)
    requires |a.replies| == |a.modules| && Mirrors(service, sys) && sys.world.phase == DepositRuns.Ready
        && sys.cycle.Idle?
    requires service.blockGuard.depositService.cacheService.default == DEPOSIT_CACHE_DEFAULT
    requires env.deployment == service.blockGuard.depositService.deployment && env.address == service.blockGuard.address
    modifies service, service.blockGuard, service.router, service.moduleGuard, service.pauseDeposits
    modifies service.blockGuard.depositService.cacheService
    ensures Mirrors(service, Run(sys, actions, env))
    ensures end.ProcessStops? <==> Run(sys, actions, env).world.phase == DepositRuns.Down
    ensures HonestAnswers(sys, a, env) ==> HonestRun(sys, actions, env)
  {
    hide Run, HonestRun, HonestAnswers, InSequence, CollectedAt, IsNeedToProcessNewState, Delivered;
    end := service.HandleNewBlock(a);
    actions := HandleNewBlockRuns(sys, a, env);
  }

  // ---- A cycle over one module that reads all logs.

  /** What is collected at a block whose logs come from its own chain. */
  function DataAt(block: Block, env: Env): BlockData
  {
    BlockData(block, ContractsAt(block).depositRoot, Scan(block, env.deployment + 1, Number(block)),
      IndexOf(ContractsAt(block).guardians, env.address))
  }

  /** A block the guard lets pass, on the settled chain or above it. */
  ghost predicate Offered(sys: System, block: Block, env: Env)
  {
    && block in env.seen && env.deployment <= Number(block)
    && IsNeedToProcessNewState(LastMeta(sys.processed), MetaOf(block))
    && (OnChain(sys.world.settled, block) || OnChain(block, sys.world.settled))
  }

  /** One module, an index with nothing cached, and logs from the chain of the block. */
  function AnswersOf(block: Block, m: SRModule, replies: Replies, sent: bool): Answers
  {
    Answers(block, [m], 0, true, [], Attempts.Served(block), true, [replies], sent)
  }

  lemma ReadsAll(sys: System, block: Block, m: SRModule, replies: Replies, sent: bool, env: Env)
    requires Idles(sys) && Offered(sys, block, env) && m == ListedAt(block, m.id)
    ensures var a := AnswersOf(block, m, replies, sent);
            var collected := CollectedAt(sys.world.index, a, env.deployment, env.address);
            && HonestAnswers(sys, a, env) && collected.1 == Data(DataAt(block, env))
            && LoadedIndex(collected.0, true).memory.value == DEPOSIT_CACHE_DEFAULT
  {
    hide IndexOf;
    var a := AnswersOf(block, m, replies, sent);
    var n := Number(block);
    var index := RefreshedIndex(sys.world.index, a, env.deployment).0;
    assert LoadedIndex(index, true).memory.value == DEPOSIT_CACHE_DEFAULT;
    var cached := Clamped(LoadedIndex(index, true).memory.value, env.deployment);
    assert cached.endBlock == env.deployment && cached.events == [];
    OwnScanMatches(block, env.deployment + 1);
    assert cached.events + Scan(block, env.deployment + 1, n) == Scan(block, env.deployment + 1, n);
    assert ServedFrom(env.deployment + 1, n, Attempts.Served(block), block);
  }

  /**
   One cycle over one module, whatever its requests and the ping meet: the run ends with what the module task
   does when it runs alone, and the block is recorded if the task finished and the ping went out.
   */
  lemma CycleRuns(sys: System, block: Block, m: SRModule, replies: Replies, sent: bool, env: Env)
      returns (actions: seq<Action>)
    requires Idles(sys) && Offered(sys, block, env) && m == ListedAt(block, m.id)
    ensures HonestRun(sys, actions, env)
    ensures var end, data := Run(sys, actions, env), DataAt(block, env);
            var run := RunAlone(sys.shared, Task(data, m, Starting), replies);
            && Idles(end) && SameChain(end, sys) && end.former == sys.former
            && end.tasks == sys.tasks + [run.1]
            && if run.1.pc.Finished? && (sent || data.guardianIndex == -1) then
                 && end.processed == sys.processed + [block]
                 && end.shared == run.0.(log := run.0.log + Delivered(PingOf(data, [m])))
               else end.processed == sys.processed && end.shared == run.0
  {
    hide Run, HonestRun, HonestAnswers, RunAlone, CollectedAt, DataAt, IsNeedToProcessNewState, LoadedIndex, Delivered;
    var a, data := AnswersOf(block, m, replies, sent), DataAt(block, env);
    ReadsAll(sys, block, m, replies, sent, env);
    actions := HandleNewBlockRuns(sys, a, env);
    OneInSequence(sys.shared, data, m, replies);
  }

  lemma OneInSequence(s: Shared, data: BlockData, m: SRModule, replies: Replies)
    ensures var run := RunAlone(s, Task(data, m, Starting), replies);
            && InSequence(s, data, [m], [replies]) == (run.0, [run.1])
            && (AllFinished([run.1], 0) <==> run.1.pc.Finished?)
  {
    hide RunAlone;
    assert [m][1..] == [] && [replies][1..] == [];
    var run := RunAlone(s, Task(data, m, Starting), replies);
    assert InSequence(run.0, data, [], []) == (run.0, []);
    assert [run.1] + [] == [run.1];
    assert [run.1][0] == run.1;
  }

  // ---- Every order the guard may keep, it does keep.

  /** A cycle is idle and the last recorded block is lower: the tick goes on to the block, whatever else holds. */
  lemma HigherBlockIsTaken(sys: System, block: Block, modules: seq<SRModule>, env: Env)
    requires sys.world.phase == DepositRuns.Ready && sys.cycle.Idle? && modules != []
    requires sys.processed == [] || Number(Last(sys.processed)) < Number(block)
    ensures Step(sys, Tick(block, modules), env) == sys.(cycle := Listed(block, modules))
  {
    if sys.processed != [] {
      assert Last(sys.processed) != block;
    }
  }

  /** So is another block at the same height; a lower one, the same one again, and an empty list are not, nor any while
      a cycle runs. */
  lemma TickIsTakenExactly(sys: System, block: Block, modules: seq<SRModule>, env: Env)
    requires sys.world.phase == DepositRuns.Ready
    ensures var isNew := sys.processed == []
                         || (Number(Last(sys.processed)) <= Number(block) && Last(sys.processed) != block);
            Step(sys, Tick(block, modules), env)
            == if sys.cycle.Idle? && modules != [] && isNew then sys.(cycle := Listed(block, modules)) else sys
  {}

  /** A cycle is given up only when a task of it has failed, and then its tasks go on. */
  lemma AbortsExactly(sys: System, env: Env)
    requires sys.world.phase == DepositRuns.Ready
    ensures var failed := sys.cycle.Checking?
                          && exists i | sys.cycle.first <= i < |sys.tasks| :: sys.tasks[i].pc.Failed?;
            Step(sys, Abort, env) == if failed then sys.(cycle := Idle) else sys
  {}

  /** Nothing but a start and the chain acts while no process serves. */
  lemma OnlyAServingProcessActs(sys: System, action: Action, env: Env)
    requires sys.world.phase != DepositRuns.Ready && !action.Index?
    ensures Step(sys, action, env) == sys
  {}

  /** A restart forgets all but the file, the chain and what was already signed and sent. */
  lemma RestartForgets(sys: System, file: File<EventsCache>, env: Env)
    ensures var next := Step(sys, Index(DepositRuns.Start(file)), env);
            && next.processed == [] && next.cycle.Idle? && next.tasks == []
              && next.former == sys.former + sys.shared.log
            && next.shared == Shared(map[], map[], Lock(false, [], [], []), [])
            && SameChain(next, sys) && next.world.index == Cell(None, file) && next.world.phase == DepositRuns.Starting
  {}

  lemma {:induction false} RecordsAll(sys: System, blocks: seq<Block>, id: int, env: Env) returns (actions: seq<Action>)
    requires Idles(sys) && Monotone(sys.processed + blocks)
    requires forall b <- blocks ::
        b in Scanned(env) && (OnChain(sys.world.settled, b) || OnChain(b, sys.world.settled))
    ensures HonestRun(sys, actions, env) && Run(sys, actions, env).processed == sys.processed + blocks
    decreases |blocks|
  {
    hide Idles, Run, HonestRun, RunAlone, DataAt, OnChain;
    if blocks == [] {
      actions := [];
      NoStep(sys, env);
      assert sys.processed + blocks == sys.processed;
    } else {
      var block := blocks[0];
      assert block in blocks;
      if sys.processed != [] {
        var all, k := sys.processed + blocks, |sys.processed|;
        assert all[k] == block && all[k - 1] == Last(sys.processed);
        assert Number(all[k - 1]) <= Number(all[k]) && all[k] != all[k - 1];
      }
      var m := ListedAt(block, id);
      var cycle := CycleRuns(sys, block, m, AllAnswered(block), true, env);
      DataIsOfBlock(block, env);
      AnsweredFinishes(sys.shared, Task(DataAt(block, env), m, Starting));
      var next := Run(sys, cycle, env);
      assert next.processed + blocks[1..] == sys.processed + blocks;
      var rest := RecordsAll(next, blocks[1..], id, env);
      RunConcat(sys, cycle, rest, env);
      actions := cycle + rest;
    }
  }

  lemma DataIsOfBlock(block: Block, env: Env)
    ensures DataAt(block, env).block == block
  {}

  /**
   Every sequence of blocks of one network whose numbers do not fall and whose neighbours differ is what some
   honest run of the daemon records; with ProcessedBlocksAreMonotone, these are exactly the orders there are.
   */
  lemma EveryOrderIsRecorded(tip: Block, blocks: seq<Block>, id: int, env: Env) returns (actions: seq<Action>)
    requires Number(tip) == 0 && forall b <- blocks :: b in Scanned(env) && Ancestor(b, 0) == tip
    requires forall i | 0 < i < |blocks| :: Number(blocks[i - 1]) <= Number(blocks[i]) && blocks[i - 1] != blocks[i]
    ensures HonestRun(Fresh(tip), actions, env) && Run(Fresh(tip), actions, env).processed == blocks
  {
    hide Idles, Run, HonestRun;
    var boot := Boots(tip, env);
    var booted := Run(Fresh(tip), boot, env);
    assert booted.world.settled == tip;
    Ascends(blocks);
    assert [] + blocks == blocks;
    var records := RecordsAll(booted, blocks, id, env);
    RunConcat(Fresh(tip), boot, records, env);
    actions := boot + records;
  }

  lemma {:induction false} Ascends(blocks: seq<Block>)
    requires forall i | 0 < i < |blocks| :: Number(blocks[i - 1]) <= Number(blocks[i]) && blocks[i - 1] != blocks[i]
    ensures Monotone(blocks)
    decreases |blocks|
  {
    if blocks != [] {
      var front := blocks[..|blocks| - 1];
      Ascends(front);
      forall i, j | 0 <= i < j < |blocks|
        ensures Number(blocks[i]) <= Number(blocks[j])
      {
        if j == |blocks| - 1 {
          assert blocks[j - 1] == front[j - 1] && blocks[i] == front[i];
        } else {
          assert blocks[i] == front[i] && blocks[j] == front[j];
        }
      }
    }
  }
}
