/**
 GuardianService.handleNewBlock over the service objects, with the module tasks run one after another:
 the order every interleaving of a cycle without failures agrees with.
 */
module GuardianService {
  import opened Wrappers
  import opened Chain
  import opened Provider
  import opened Deposits
  import opened OneAtTime
  import opened StakingRouter
  import opened StakingModuleGuard
  import opened BlockGuard
  import opened GuardianTasks
  import opened Interleaving

  /** What the requests of one module task are answered. */
  datatype Replies = Replies(keys: Reply, paused: Reply, credentials: Reply, sign: Reply, send: Reply)

  function ReplyTo(pc: Pc, replies: Replies): Reply
  {
    match pc
    case FetchingKeys => replies.keys
    case AskingPaused(_) => replies.paused
    case AskingCredentials(_, _) => replies.credentials
    case SigningPause(_) => replies.sign
    case SigningDeposit(_) => replies.sign
    case _ => replies.send
  }

  /** One task taken to its end without another one in between. */
  function RunAlone(s: Shared, t: Task, replies: Replies): (Shared, Task)
    decreases Rank(t.pc)
  {
    if Rank(t.pc) == 0 then (s, t)
    else
      LocalStepShape(t, Lookup(s.keyCache, t.listed.id), Lookup(s.signing, t.listed.id), ReplyTo(t.pc, replies));
      var next := TaskStep(s, t, ReplyTo(t.pc, replies));
      RunAlone(next.0, next.1, replies)
  }

  /** The tasks of a cycle in sequence. */
  function InSequence(s: Shared, data: BlockData, modules: seq<SRModule>, replies: seq<Replies>): (Shared, seq<Task>)
    requires |replies| == |modules|
    decreases |modules|
  {
    if modules == [] then (s, [])
    else
      var first := RunAlone(s, Task(data, modules[0], Starting), replies[0]);
      var rest := InSequence(first.0, data, modules[1..], replies[1..]);
      (rest.0, [first.1] + rest.1)
  }

  /** How a cycle ends: the block is not new, the process stops, a request is rejected, or the modules are checked. */
  datatype CycleEnd = Skipped | ProcessStops | CycleRejected | Checked(data: BlockData, tasks: seq<Task>,
    processed: bool)

  /** All that a cycle is answered: the listing, the head and the logs, the requests of its module tasks, the ping. */
  datatype Answers = Answers(
    block: Block, modules: seq<SRModule>, head: int, readable: bool, chunks: seq<Chunk>, attempts: Attempts,
      answered: bool,
    replies: seq<Replies>, pinged: bool)

  /** The deposit index after the update with which blocks divisible by ten begin, and whether the process stops. */
  function RefreshedIndex(index: Index, a: Answers, deployment: nat): (Index, bool)
  {
    if Number(a.block) % DEPOSIT_EVENTS_CACHE_UPDATE_BLOCK_RATE != 0 then (index, false)
    else
      var run := Updated(index, a.head, a.readable, a.chunks, deployment);
      (Last(run.trail), run.outcome.Stopped?)
  }

  /** The first half of a cycle: refresh the index, collect what there is to know about the block. */
  function CollectedAt(index: Index, a: Answers, deployment: nat, address: string): (Index, Collected)
  {
    var refreshed := RefreshedIndex(index, a, deployment);
    if refreshed.1 then (refreshed.0, ProcessExits)
    else
      var loaded := LoadedIndex(refreshed.0, a.readable);
      var read := AllDepositedEvents(Clamped(loaded.memory.value, deployment), Number(a.block), a.block, a.attempts);
      (loaded, CurrentBlockData(a.block, read, a.answered, address))
  }

  lemma CycleDataBlock(index: Index, a: Answers, deployment: nat, address: string)
    ensures var collected := CollectedAt(index, a, deployment, address).1;
            collected.Data? ==> collected.data.block == a.block
  {}

  class GuardianService {
    const blockGuard: BlockGuardService
    const router: StakingRouterService
    const moduleGuard: StakingModuleGuardService
    const pauseDeposits: OneAtTime<PauseCall>
    var log: seq<Effect>

    constructor (
      blockGuard: BlockGuardService, router: StakingRouterService, moduleGuard: StakingModuleGuardService,
        pauseDeposits: OneAtTime<PauseCall>)
      ensures this.blockGuard == blockGuard && this.router == router && this.moduleGuard == moduleGuard
      ensures this.pauseDeposits == pauseDeposits && log == []
    {
      this.blockGuard, this.router, this.moduleGuard, this.pauseDeposits :=
        blockGuard, router, moduleGuard, pauseDeposits;
      this.log := [];
    }

    ghost function State(): Shared
      reads this, router, moduleGuard, pauseDeposits
    {
      Shared(router.stakingRouterCache, moduleGuard.lastContractsStateByModuleId, pauseDeposits.State(), log)
    }

    /** handleKeysIntersections: sign, call pauseDeposits without waiting, send. */
    method HandleKeysIntersections(t: Task, m: ModuleData, replies: Replies) returns (end: Task)
      requires t.pc == SigningPause(m) && m.id == t.listed.id
      modifies this, pauseDeposits
      ensures (State(), end) == RunAlone(old(State()), t, replies)
    {
      hide Decide;
      ghost var s := State();
      Untouched(s, t.listed.id);
      if replies.sign == Rejected {
        end := t.(pc := Pc.Failed(t.pc));
        assert TaskStep(s, t, replies.sign) == (s, end);
        return;
      }
      log := log + [SignedPause(m.id, t.data.block)];
      var started := pauseDeposits.Enter(PauseCall(m.id, t.data.block));
      ghost var signed, sending := State(), t.(pc := SendingPause(m));
      Untouched(signed, t.listed.id);
      assert TaskStep(s, t, replies.sign) == (signed, sending);
      if replies.send == Rejected && t.data.guardianIndex != -1 {
        end := t.(pc := Pc.Failed(SendingPause(m)));
      } else {
        log := log + Delivered(PauseMessageOf(t, m));
        end := t.(pc := Pc.Finished);
      }
      assert TaskStep(signed, sending, replies.send) == (State(), end);
      assert RunAlone(signed, sending, replies) == RunAlone(State(), end, replies) == (State(), end);
    }

    /** handleCorrectKeys after the state is remembered: sign and send. */
    method SignDeposit(t: Task, m: ModuleData, replies: Replies) returns (end: Task)
      requires t.pc == SigningDeposit(m) && m.id == t.listed.id
      modifies this
      ensures (State(), end) == RunAlone(old(State()), t, replies)
    {
      hide Decide;
      ghost var s := State();
      Untouched(s, t.listed.id);
      if replies.sign == Rejected {
        end := t.(pc := Pc.Failed(t.pc));
        assert TaskStep(s, t, replies.sign) == (s, end);
        return;
      }
      log := log + [SignedDeposit(m.id, t.data.block, t.data.depositRoot, m.nonce)];
      ghost var signed, sending := State(), t.(pc := SendingDeposit(m));
      Untouched(signed, t.listed.id);
      assert TaskStep(s, t, replies.sign) == (signed, sending);
      if replies.send == Rejected && t.data.guardianIndex != -1 {
        end := t.(pc := Pc.Failed(SendingDeposit(m)));
      } else {
        log := log + Delivered(DepositMessageOf(t, m));
        end := t.(pc := Pc.Finished);
      }
      assert TaskStep(signed, sending, replies.send) == (State(), end);
      assert RunAlone(signed, sending, replies) == RunAlone(State(), end, replies) == (State(), end);
    }

    /** The end of checkKeysIntersections, once the attacks are known. */
    method HandleVerdict(t: Task, m: ModuleData, attacks: seq<Event>, replies: Replies) returns (end: Task)
      requires m.id == t.listed.id
      modifies this, moduleGuard, pauseDeposits
      ensures var l := Decide(Local(t, Lookup(old(State()).keyCache, m.id), Lookup(old(State()).signing, m.id), [], []),
          m, attacks);
              (State(), end) == RunAlone(Merged(old(State()), m.id, l), l.task, replies)
    {
      ghost var s := State();
      ghost var l := Decide(Local(t, Lookup(s.keyCache, m.id), Lookup(s.signing, m.id), [], []), m, attacks);
      ghost var decided := Merged(s, m.id, l);
      Untouched(s, m.id);
      if m.isDepositsPaused {
        log := log + [Decided(m.id, t.data.block, Paused)];
        end := t.(pc := Pc.Finished);
        assert State() == decided && end == l.task;
      } else if attacks != [] {
        log := log + [Decided(m.id, t.data.block, Attacked)];
        assert State() == decided && t.(pc := SigningPause(m)) == l.task;
        end := HandleKeysIntersections(t.(pc := SigningPause(m)), m, replies);
      } else {
        var current := ContractsState(m.nonce, t.data.depositRoot, Number(t.data.block));
        log := log + [Decided(m.id, t.data.block, Clean), Remembered(m.id, t.data.block, current)];
        var sign := moduleGuard.HandleCorrectKeys(m, t.data);
        assert State() == decided;
        if sign {
          assert t.(pc := SigningDeposit(m)) == l.task;
          end := SignDeposit(t.(pc := SigningDeposit(m)), m, replies);
        } else {
          end := t.(pc := Pc.Finished);
          assert end == l.task;
        }
      }
    }

    /** getStakingRouterModuleData: the keys, from the cache or a request, and whether deposits are paused. */
    method GetStakingRouterModuleData(data: BlockData, listed: SRModule, replies: Replies)
        returns (m: Option<ModuleData>, next: Task)
      modifies router
      ensures RunAlone(old(State()), Task(data, listed, Starting), replies) == RunAlone(State(), next, replies)
      ensures next.listed == listed && next.data == data
      ensures if m.None? then next.pc.Failed?
              else next.pc.AskingPaused? && !replies.paused.Rejected? && m.value == ModuleDataOf(next, next.pc.keys)
    {
      hide Decide, KeysIntersections, ValidIntersections, AttackIntersections;
      ghost var s, t := State(), Task(data, listed, Starting);
      Untouched(s, listed.id);
      var keys := router.GetStakingModuleUnusedKeys(data.block, listed, replies.keys);
      ghost var asked := State();
      if keys.None? {
        next := Task(data, listed, Pc.Failed(FetchingKeys));
        assert TaskStep(s, t, replies.send) == (s, t.(pc := FetchingKeys));
        assert TaskStep(s, t.(pc := FetchingKeys), replies.keys) == (asked, next);
        assert RunAlone(s, t, replies) == RunAlone(s, t.(pc := FetchingKeys), replies)
          == RunAlone(asked, next, replies);
        return None, next;
      }
      var asking := Task(data, listed, AskingPaused(keys.value));
      assert RunAlone(s, t, replies) == RunAlone(asked, asking, replies) by {
        if IsNeedToUpdateState(Lookup(s.keyCache, listed.id), listed.nonce) {
          assert TaskStep(s, t, replies.send) == (s, t.(pc := FetchingKeys));
          assert TaskStep(s, t.(pc := FetchingKeys), replies.keys) == (asked, asking);
        } else {
          assert TaskStep(s, t, replies.send) == (asked, asking);
        }
      }
      if replies.paused == Rejected {
        next := asking.(pc := Pc.Failed(asking.pc));
        Untouched(asked, listed.id);
        assert TaskStep(asked, asking, replies.paused) == (asked, next);
        return None, next;
      }
      return Some(ModuleDataOf(asking, keys.value)), asking;
    }

    /** checkKeysIntersections: the filters, with their early exit, and the branch after them. */
    method CheckKeysIntersections(t: Task, m: ModuleData, replies: Replies) returns (end: Task)
      requires t.pc.AskingPaused? && !replies.paused.Rejected? && m == ModuleDataOf(t, t.pc.keys)
      modifies this, moduleGuard, pauseDeposits
      ensures (State(), end) == RunAlone(old(State()), t, replies)
    {
      hide Decide, KeysIntersections, ValidIntersections, AttackIntersections;
      ghost var s := State();
      Untouched(s, t.listed.id);
      var valid := ValidIntersections(KeysIntersections(t.data.events, m.unusedKeys));
      if valid == [] {
        end := HandleVerdict(t, m, [], replies);
        return;
      }
      var filtering := t.(pc := AskingCredentials(m, valid));
      assert TaskStep(s, t, replies.paused) == (s, filtering);
      if replies.credentials == Rejected {
        end := t.(pc := Pc.Failed(filtering.pc));
        assert TaskStep(s, filtering, replies.credentials) == (s, end);
        assert RunAlone(s, t, replies) == RunAlone(s, filtering, replies) == (s, end);
        return;
      }
      assert RunAlone(s, t, replies) == RunAlone(s, filtering, replies);
      var attacks := AttackIntersections(valid, ContractsAt(t.data.block).lidoWC);
      ghost var l := Decide(Local(filtering, Lookup(s.keyCache, m.id), Lookup(s.signing, m.id), [], []), m, attacks);
      assert TaskStep(s, filtering, replies.credentials) == (Merged(s, m.id, l), l.task);
      end := HandleVerdict(filtering, m, attacks, replies);
    }

    /** One module of a cycle. */
    method CheckModule(data: BlockData, listed: SRModule, replies: Replies) returns (end: Task)
      modifies this, router, moduleGuard, pauseDeposits
      ensures (State(), end) == RunAlone(old(State()), Task(data, listed, Starting), replies)
    {
      hide LocalStep, TaskStep;
      var m, next := GetStakingRouterModuleData(data, listed, replies);
      if m.None? {
        return next;
      }
      end := CheckKeysIntersections(next, m.value, replies);
    }

    method CollectBlockData(a: Answers) returns (collected: Collected)
      requires blockGuard.depositService.cacheService.default == DEPOSIT_CACHE_DEFAULT
      modifies blockGuard.depositService.cacheService
      ensures (blockGuard.depositService.cacheService.State(), collected)
           == CollectedAt(old(blockGuard.depositService.cacheService.State()), a, blockGuard.depositService.deployment,
             blockGuard.address)
    {
      hide Updated, AllDepositedEvents, IndexOf, Clamped, LoadedIndex;
      if Number(a.block) % DEPOSIT_EVENTS_CACHE_UPDATE_BLOCK_RATE == 0 {
        // OneAtTime swallows a rejected update; the cycle goes on
        var outcome, _ := blockGuard.depositService.UpdateEventsCache(a.head, a.readable, a.chunks);
        if outcome == Stopped {
          return ProcessExits;
        }
      }
      collected := blockGuard.GetCurrentBlockData(a.block, a.readable, a.attempts, a.answered);
    }

    /**
     One cycle. The last processed block changes exactly when every module finished and the ping went out;
     what is signed, sent and remembered is what the module tasks do in sequence.
     */
    method HandleNewBlock(a: Answers) returns (end: CycleEnd)
      requires |a.replies| == |a.modules|
      requires blockGuard.depositService.cacheService.default == DEPOSIT_CACHE_DEFAULT
      modifies this, blockGuard, router, moduleGuard, pauseDeposits, blockGuard.depositService.cacheService
      ensures a.modules == [] ==> end.CycleRejected?
      ensures a.modules != [] ==> (end.Skipped? <==> !IsNeedToProcessNewState(old(blockGuard.lastProcessedStateMeta),
          MetaOf(a.block)))
      ensures var before, after := old(blockGuard.depositService.cacheService.State()),
          blockGuard.depositService.cacheService.State();
              if a.modules == [] || end.Skipped? then after == before
              else
                var collected := CollectedAt(before, a, blockGuard.depositService.deployment, blockGuard.address);
                && after == collected.0
                && match collected.1
                   case ProcessExits => end.ProcessStops?
                   case Rejects => end.CycleRejected?
                   case Data(data) => end.Checked? && end.data == data
      ensures blockGuard.lastProcessedStateMeta
           == if end.Checked? && end.processed then Some(MetaOf(a.block)) else old(blockGuard.lastProcessedStateMeta)
      ensures !end.Checked? ==> State() == old(State())
      ensures end.Checked? ==>
                var run := InSequence(old(State()), end.data, a.modules, a.replies);
                && end.data.block == a.block && end.tasks == run.1
                && (end.processed <==> AllFinished(end.tasks, 0) && (a.pinged || end.data.guardianIndex == -1))
                && State() == if end.processed then run.0.(log := run.0.log + Delivered(PingOf(end.data, a.modules)))
                  else run.0
    {
      hide RunAlone, CollectedAt, Delivered;
      var modules, replies := a.modules, a.replies;
      if modules == [] {
        // getModulesList rejects an empty list
        return CycleRejected;
      }
      var need := blockGuard.IsNeedToProcess(MetaOf(a.block));
      if !need {
        return Skipped;
      }
      var collected := CollectBlockData(a);
      if collected.ProcessExits? {
        return ProcessStops;
      }
      if collected.Rejects? {
        return CycleRejected;
      }
      var data := collected.data;
      CycleDataBlock(old(blockGuard.depositService.cacheService.State()), a, blockGuard.depositService.deployment,
        blockGuard.address);
      ghost var index := blockGuard.depositService.cacheService.State();
      ghost var run := InSequence(State(), data, modules, replies);
      var tasks: seq<Task> := [];
      ghost var rest := run.1;
      assert modules[0..] == modules && replies[0..] == replies;
      for i := 0 to |modules|
        invariant blockGuard.lastProcessedStateMeta == old(blockGuard.lastProcessedStateMeta)
        invariant blockGuard.depositService.cacheService.State() == index
        invariant (run.0, rest) == InSequence(State(), data, modules[i..], replies[i..]) && tasks + rest == run.1
      {
        assert modules[i..][0] == modules[i] && modules[i..][1..] == modules[i + 1..];
        assert replies[i..][0] == replies[i] && replies[i..][1..] == replies[i + 1..];
        var t := CheckModule(data, modules[i], replies[i]);
        tasks := tasks + [t];
        rest := rest[1..];
      }
      if !AllFinished(tasks, 0) || (!a.pinged && data.guardianIndex != -1) {
        return Checked(data, tasks, false);
      }
      log := log + Delivered(PingOf(data, modules));
      blockGuard.SetLastProcessedStateMeta(MetaOf(a.block));
      return Checked(data, tasks, true);
    }
  }

  function PingOf(data: BlockData, modules: seq<SRModule>): Message
  {
    PingMessage(data.block, data.guardianIndex, seq(|modules|, i requires 0 <= i < |modules| => modules[i].id))
  }

  /** Putting back what was looked up, and adding nothing to the log, changes nothing. */
  lemma Untouched(s: Shared, id: int)
    ensures Put(s.keyCache, id, Lookup(s.keyCache, id)) == s.keyCache
    ensures Put(s.signing, id, Lookup(s.signing, id)) == s.signing
    ensures s.log + [] == s.log
  {}

  // ---- Every interleaving agrees with the sequence.

  /** Nothing fails, and the Keys API stays at the block. */
  function AllAnswered(block: Block): Replies
  {
    var reply := AnsweredAt(block);
    Replies(reply, reply, reply, reply, reply)
  }

  function AnsweredSequence(s: Shared, data: BlockData, modules: seq<SRModule>): (Shared, seq<Task>)
  {
    InSequence(s, data, modules, seq(|modules|, _ => AllAnswered(data.block)))
  }

  lemma {:induction false} AloneIsASchedule(s: Shared, tasks: seq<Task>, i: nat, replies: Replies)
      returns (schedule: seq<nat>)
    requires i < |tasks| && replies == AllAnswered(tasks[i].data.block)
    ensures var end := RunAlone(s, tasks[i], replies);
            Scheduled(s, tasks, schedule) == (end.0, tasks[i := end.1]) && Rank(end.1.pc) == 0
    decreases Rank(tasks[i].pc)
  {
    hide LocalStep, Merged;
    var t := tasks[i];
    if Rank(t.pc) == 0 {
      schedule := [];
      assert tasks[i := t] == tasks;
    } else {
      LocalStepShape(t, Lookup(s.keyCache, t.listed.id), Lookup(s.signing, t.listed.id), AnsweredAt(t.data.block));
      assert ReplyTo(t.pc, replies) == AnsweredAt(t.data.block);
      var next := ScheduleStep(s, tasks, i);
      var rest := AloneIsASchedule(next.0, next.1, i, replies);
      schedule := [i] + rest;
      assert schedule[1..] == rest;
      var end := RunAlone(s, t, replies);
      assert end == RunAlone(next.0, next.1[i], replies);
      assert next.1[i := end.1] == tasks[i := end.1];
    }
  }

  lemma {:induction false} ScheduledConcat(s: Shared, tasks: seq<Task>, one: seq<nat>, two: seq<nat>)
    ensures var middle := Scheduled(s, tasks, one);
            Scheduled(s, tasks, one + two) == Scheduled(middle.0, middle.1, two)
    decreases |one|
  {
    hide ScheduleStep;
    if one == [] {
      assert one + two == two;
    } else {
      var next := ScheduleStep(s, tasks, one[0]);
      ScheduledConcat(next.0, next.1, one[1..], two);
      assert (one + two)[1..] == one[1..] + two;
    }
  }

  lemma {:induction false} SequenceIsASchedule(s: Shared, before: seq<Task>, data: BlockData, modules: seq<SRModule>)
      returns (schedule: seq<nat>)
    ensures var end := AnsweredSequence(s, data, modules);
            Scheduled(s, before + Spawned(data, modules), schedule) == (end.0, before + end.1) && Done(end.1)
    decreases |modules|
  {
    hide RunAlone, ScheduleStep;
    if modules == [] {
      schedule := [];
    } else {
      var replies := AllAnswered(data.block);
      var tasks, i := before + Spawned(data, modules), |before|;
      var one := AloneIsASchedule(s, tasks, i, replies);
      var first := RunAlone(s, tasks[i], replies);
      assert tasks[i := first.1] == before + [first.1] + Spawned(data, modules[1..]);
      var two := SequenceIsASchedule(first.0, before + [first.1], data, modules[1..]);
      schedule := one + two;
      ScheduledConcat(s, tasks, one, two);
      assert seq(|modules|, _ => replies)[1..] == seq(|modules[1..]|, _ => replies);
      var rest := AnsweredSequence(first.0, data, modules[1..]);
      assert AnsweredSequence(s, data, modules) == (rest.0, [first.1] + rest.1);
      assert before + [first.1] + rest.1 == before + ([first.1] + rest.1);
    }
  }

  lemma SpawnedAreDistinct(data: BlockData, modules: seq<SRModule>)
    requires forall i, j | 0 <= i < j < |modules| :: modules[i].id != modules[j].id
    ensures DistinctIds(Spawned(data, modules))
  {}

  /**
   Interleaving independence: in a cycle without failures over modules with distinct ids, every complete
   interleaving of the tasks leaves the key cache, the signing memory and the multiset of signatures and
   messages that running them in sequence leaves.
   */
  lemma EveryInterleavingIsTheSequence(s: Shared, data: BlockData, modules: seq<SRModule>, schedule: seq<nat>)
    requires forall i, j | 0 <= i < j < |modules| :: modules[i].id != modules[j].id
    requires Done(Scheduled(s, Spawned(data, modules), schedule).1)
    ensures var mixed, sequential := Scheduled(s, Spawned(data, modules), schedule).0,
        AnsweredSequence(s, data, modules).0;
            && mixed.keyCache == sequential.keyCache && mixed.signing == sequential.signing
            && multiset(mixed.log) == multiset(sequential.log)
  {
    hide Scheduled, AnsweredSequence, RunAlone, LocalStep, TaskStep, OutcomeOf, Pending, Spawned, Done, DistinctIds;
    SpawnedAreDistinct(data, modules);
    var inSequence := SequenceIsASchedule(s, [], data, modules);
    assert [] + Spawned(data, modules) == Spawned(data, modules);
    assert [] + AnsweredSequence(s, data, modules).1 == AnsweredSequence(s, data, modules).1;
    EveryScheduleAgrees(s, Spawned(data, modules), schedule, inSequence);
  }
}
