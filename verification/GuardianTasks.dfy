/**
 The asynchronous task of one staking module inside a guardian cycle, cut at its awaits. Many tasks run at once, so
 what a step does is given in two parts: `LocalStep` is what it does with its own entries of the
 key cache and the signing memory, `TaskStep` puts that back into the shared state.
 */
module GuardianTasks {
  import opened Wrappers
  import opened Chain
  import opened OneAtTime
  import opened StakingRouter
  import opened StakingModuleGuard

  datatype Verdict = Paused | Attacked | Clean

  datatype Message =
    | DepositMessage(depositRoot: string, nonce: int, block: Block, guardianIndex: int, id: int)
    | PauseMessage(depositRoot: string, nonce: int, block: Block, guardianIndex: int, id: int)
    | PingMessage(block: Block, guardianIndex: int, ids: seq<int>)

  /** What leaves a trace: the verdict on a module, the state remembered with a clean one, signatures, messages sent. */
  datatype Effect =
    | Decided(id: int, block: Block, verdict: Verdict)
    | Remembered(id: int, block: Block, state: ContractsState)
    | SignedDeposit(id: int, block: Block, depositRoot: string, nonce: int)
    | SignedPause(id: int, block: Block)
    | Sent(message: Message)

  /** Where a task waits, or where it failed. */
  datatype Pc =
    | Starting
    | FetchingKeys
    | AskingPaused(keys: KeysResponse)
    | AskingCredentials(m: ModuleData, valid: seq<Event>)
    | SigningPause(m: ModuleData)
    | SendingPause(m: ModuleData)
    | SigningDeposit(m: ModuleData)
    | SendingDeposit(m: ModuleData)
    | Finished
    | Failed(at: Pc)

  datatype Task = Task(data: BlockData, listed: SRModule, pc: Pc)

  /** The tasks from `first` on have all finished. */
  predicate AllFinished(tasks: seq<Task>, first: nat)
  {
    forall i | first <= i < |tasks| :: tasks[i].pc.Finished?
  }

  /** The tasks of a cycle. */
  function Spawned(data: BlockData, modules: seq<SRModule>): seq<Task>
  {
    seq(|modules|, i requires 0 <= i < |modules| => Task(data, modules[i], Starting))
  }

  /** A call of pauseDeposits, which nobody awaits. */
  datatype PauseCall = PauseCall(id: int, block: Block)

  datatype Local = Local(
    task: Task, keys: Option<KeysResponse>, state: Option<ContractsState>, effects: seq<Effect>, pauses: seq<PauseCall>)

  /** What the tasks of a process share, and the trace the process leaves. */
  datatype Shared = Shared(
    keyCache: KeyCache, signing: map<int, ContractsState>, pausing: Lock<PauseCall>, log: seq<Effect>)

  /** sendMessageFromGuardian: an address that is not in the guardian list sends nothing. */
  function Delivered(message: Message): seq<Effect>
  {
    if message.guardianIndex == -1 then [] else [Sent(message)]
  }

  function DepositMessageOf(t: Task, m: ModuleData): Message
  {
    DepositMessage(t.data.depositRoot, m.nonce, t.data.block, t.data.guardianIndex, m.id)
  }

  function PauseMessageOf(t: Task, m: ModuleData): Message
  {
    PauseMessage(t.data.depositRoot, m.nonce, t.data.block, t.data.guardianIndex, m.id)
  }

  /** The end of checkKeysIntersections, with the synchronous part of handleCorrectKeys. */
  function Decide(l: Local, m: ModuleData, attacks: seq<Event>): Local
  {
    if m.isDepositsPaused then
      l.(task := l.task.(pc := Finished), effects := [Decided(m.id, l.task.data.block, Paused)])
    else if attacks != [] then
      l.(task := l.task.(pc := SigningPause(m)), effects := [Decided(m.id, l.task.data.block, Attacked)])
    else
      var current := ContractsState(m.nonce, l.task.data.depositRoot, Number(l.task.data.block));
      l.(task := l.task.(pc := if IsSameContractsStates(Some(current), l.state) then Finished else SigningDeposit(m)),
         state := Some(current),
         effects := [Decided(m.id, l.task.data.block, Clean), Remembered(m.id, l.task.data.block, current)])
  }

  function ModuleDataOf(t: Task, keys: KeysResponse): ModuleData
  {
    ModuleData(t.listed.id, keys.nonce, keys.keys, !ModuleAt(t.data.block, t.listed.id).active)
  }

  /** It runs from the await it is at, with this answer, to the next one. */
  function LocalStep(t: Task, keys: Option<KeysResponse>, state: Option<ContractsState>, reply: Reply): Local
  {
    var l := Local(t, keys, state, [], []);
    var failed := l.(task := t.(pc := Failed(t.pc)));
    match t.pc
    case Starting =>
      if IsNeedToUpdateState(keys, t.listed.nonce) then l.(task := t.(pc := FetchingKeys))
      else l.(task := t.(pc := AskingPaused(keys.value)))
    case FetchingKeys =>
      if reply.Rejected? || reply.block != t.data.block then failed
      else
        var response := UnusedModuleKeys(reply.block, t.listed.id);
        l.(task := t.(pc := AskingPaused(response)), keys := Some(response))
    case AskingPaused(response) =>
      if reply.Rejected? then failed
      else
        var m := ModuleDataOf(t, response);
        var valid := ValidIntersections(KeysIntersections(t.data.events, m.unusedKeys));
        if valid == [] then Decide(l, m, []) else l.(task := t.(pc := AskingCredentials(m, valid)))
    case AskingCredentials(m, valid) =>
      if reply.Rejected? then failed
      else Decide(l, m, AttackIntersections(valid, ContractsAt(t.data.block).lidoWC))
    case SigningPause(m) =>
      if reply.Rejected? then failed
      else l.(task := t.(pc := SendingPause(m)), effects := [SignedPause(m.id, t.data.block)],
        pauses := [PauseCall(m.id, t.data.block)])
    case SendingPause(m) =>
      if reply.Rejected? && t.data.guardianIndex != -1 then failed
      else l.(task := t.(pc := Finished), effects := Delivered(PauseMessageOf(t, m)))
    case SigningDeposit(m) =>
      if reply.Rejected? then failed
      else l.(task := t.(pc := SendingDeposit(m)),
        effects := [SignedDeposit(m.id, t.data.block, t.data.depositRoot, m.nonce)])
    case SendingDeposit(m) =>
      if reply.Rejected? && t.data.guardianIndex != -1 then failed
      else l.(task := t.(pc := Finished), effects := Delivered(DepositMessageOf(t, m)))
    case Finished => l
    case Failed(_) => l
  }

  function Put<V>(m: map<int, V>, id: int, v: Option<V>): map<int, V>
  {
    if v.Some? then m[id := v.value] else m
  }

  function LocalOf(s: Shared, t: Task, reply: Reply): Local
  {
    LocalStep(t, Lookup(s.keyCache, t.listed.id), Lookup(s.signing, t.listed.id), reply)
  }

  function Merged(s: Shared, id: int, l: Local): Shared
  {
    Shared(
      Put(s.keyCache, id, l.keys),
      Put(s.signing, id, l.state),
      if l.pauses == [] then s.pausing else Entered(s.pausing, l.pauses[0]),
      s.log + l.effects)
  }

  function TaskStep(s: Shared, t: Task, reply: Reply): (Shared, Task)
  {
    (Merged(s, t.listed.id, LocalOf(s, t, reply)), LocalOf(s, t, reply).task)
  }

  /** The state handleCorrectKeys remembers for a module at a block. */
  function StateAt(block: Block, id: int): ContractsState
  {
    ContractsState(ModuleAt(block, id).nonce, ContractsAt(block).depositRoot, Number(block))
  }

  // ---- Truth: what holds at the block of a module task.

  /** The verdict a full scan of the chain of `block` and this list of keys give. */
  ghost function VerdictWith(block: Block, id: int, keys: seq<string>, deployment: nat): Verdict
  {
    if !ModuleAt(block, id).active then Paused
    else if IsAttack(Scan(block, deployment + 1, Number(block)), keys, ContractsAt(block).lidoWC) then Attacked
    else Clean
  }

  /** The verdict with the keys the module has at the block. */
  ghost function TrueVerdict(block: Block, id: int, deployment: nat): Verdict
  {
    VerdictWith(block, id, ModuleAt(block, id).unusedKeys, deployment)
  }

  /** Among these blocks the keys a module had at one give the true verdict at any other where its nonce is the same. */
  ghost predicate NonceDeterminesVerdicts(blocks: set<Block>, deployment: nat)
  {
    forall a, b, id | a in blocks && b in blocks && ModuleAt(a, id).nonce == ModuleAt(b, id).nonce ::
      VerdictWith(b, id, ModuleAt(a, id).unusedKeys, deployment) == TrueVerdict(b, id, deployment)
  }

  lemma KeysDetermineVerdicts(blocks: set<Block>, some: set<Block>, deployment: nat)
    requires NonceDeterminesKeys(blocks) && some <= blocks
    ensures NonceDeterminesVerdicts(some, deployment)
  {
    hide VerdictWith, ModuleAt;
  }

  ghost predicate RightMessage(message: Message, deployment: nat)
  {
    match message
    case DepositMessage(depositRoot, nonce, block, _, id) =>
      && TrueVerdict(block, id, deployment) == Clean
      && depositRoot == ContractsAt(block).depositRoot && nonce == ModuleAt(block, id).nonce
    case PauseMessage(depositRoot, nonce, block, _, id) =>
      && TrueVerdict(block, id, deployment) == Attacked
      && depositRoot == ContractsAt(block).depositRoot && nonce == ModuleAt(block, id).nonce
    case PingMessage(_, _, _) => true
  }

  ghost predicate RightEffect(effect: Effect, deployment: nat)
  {
    match effect
    case Decided(id, block, verdict) => verdict == TrueVerdict(block, id, deployment)
    case Remembered(id, block, state) => TrueVerdict(block, id, deployment) == Clean && state == StateAt(block, id)
    case SignedDeposit(id, block, depositRoot, nonce) =>
      && TrueVerdict(block, id, deployment) == Clean
      && depositRoot == ContractsAt(block).depositRoot && nonce == ModuleAt(block, id).nonce
    case SignedPause(id, block) => TrueVerdict(block, id, deployment) == Attacked
    case Sent(message) => RightMessage(message, deployment)
  }

  ghost predicate TrueData(data: BlockData, deployment: nat)
  {
    data.events == Scan(data.block, deployment + 1, Number(data.block))
      && data.depositRoot == ContractsAt(data.block).depositRoot
  }

  /** The nonce and the pause flag are those of the block, and the keys give its verdict. */
  ghost predicate TrueModule(m: ModuleData, block: Block, id: int, deployment: nat)
  {
    && m == ModuleData(id, ModuleAt(block, id).nonce, m.unusedKeys, !ModuleAt(block, id).active)
    && VerdictWith(block, id, m.unusedKeys, deployment) == TrueVerdict(block, id, deployment)
  }

  ghost predicate TruePc(t: Task, seen: set<Block>, deployment: nat)
  {
    var block, id := t.data.block, t.listed.id;
    match t.pc
    case AskingPaused(keys) => keys.nonce == ModuleAt(block, id).nonce && TrueEntry(Some(keys), id, seen)
    case AskingCredentials(m, valid) =>
      TrueModule(m, block, id, deployment) && valid == ValidIntersections(KeysIntersections(t.data.events,
        m.unusedKeys))
    case SigningPause(m) => TrueModule(m, block, id, deployment) && TrueVerdict(block, id, deployment) == Attacked
    case SendingPause(m) => TrueModule(m, block, id, deployment) && TrueVerdict(block, id, deployment) == Attacked
    case SigningDeposit(m) => TrueModule(m, block, id, deployment) && TrueVerdict(block, id, deployment) == Clean
    case SendingDeposit(m) => TrueModule(m, block, id, deployment) && TrueVerdict(block, id, deployment) == Clean
    case _ => true
  }

  ghost predicate TrueTask(t: Task, seen: set<Block>, deployment: nat)
  {
    && t.data.block in seen
    && TrueData(t.data, deployment)
    && t.listed == ListedAt(t.data.block, t.listed.id)
    && TruePc(t, seen, deployment)
  }

  /** A cached entry was answered at a block that was seen. */
  ghost predicate TrueEntry(keys: Option<KeysResponse>, id: int, seen: set<Block>)
  {
    keys.Some? ==> keys.value.blockHash in seen && keys.value == UnusedModuleKeys(keys.value.blockHash, id)
  }

  ghost predicate RightLocal(l: Local, id: int, seen: set<Block>, deployment: nat)
  {
    && TrueTask(l.task, seen, deployment)
    && TrueEntry(l.keys, id, seen)
    && (forall effect <- l.effects :: RightEffect(effect, deployment))
    && l.task.listed.id == id
  }

  lemma DecideIsRight(l: Local, m: ModuleData, attacks: seq<Event>, seen: set<Block>, deployment: nat)
    requires l.effects == [] && RightLocal(l, l.task.listed.id, seen, deployment)
    requires TrueModule(m, l.task.data.block, l.task.listed.id, deployment)
    requires attacks != [] <==> IsAttack(l.task.data.events, m.unusedKeys, ContractsAt(l.task.data.block).lidoWC)
    ensures RightLocal(Decide(l, m, attacks), l.task.listed.id, seen, deployment)
  {
    hide IsAttack, Scan, ModuleAt, ContractsAt;
    var block, id := l.task.data.block, l.task.listed.id;
    assert VerdictWith(block, id, m.unusedKeys, deployment) == if m.isDepositsPaused then Paused else if attacks != []
      then Attacked else Clean;
    assert RightEffect(Decided(id, block, TrueVerdict(block, id, deployment)), deployment);
  }

  /** A cached reply with the listed nonce is as good as a fresh one among blocks where nonces determine keys. */
  lemma HitIsTrue(keys: KeysResponse, block: Block, id: int, seen: set<Block>)
    requires NonceDeterminesKeys(seen) && block in seen
    requires TrueEntry(Some(keys), id, seen) && keys.nonce == ModuleAt(block, id).nonce
    ensures keys.keys == ModuleAt(block, id).unusedKeys
  {
    assert keys == UnusedModuleKeys(keys.blockHash, id);
    assert ModuleAt(keys.blockHash, id).nonce == ModuleAt(block, id).nonce;
  }

  /** And as good as the keys of the block for its verdict, where nonces determine verdicts. */
  lemma HitGivesVerdict(keys: KeysResponse, block: Block, id: int, seen: set<Block>, deployment: nat)
    requires NonceDeterminesVerdicts(seen, deployment) && block in seen
    requires TrueEntry(Some(keys), id, seen) && keys.nonce == ModuleAt(block, id).nonce
    ensures VerdictWith(block, id, keys.keys, deployment) == TrueVerdict(block, id, deployment)
  {
    hide VerdictWith, TrueVerdict;
    assert keys == UnusedModuleKeys(keys.blockHash, id);
    assert ModuleAt(keys.blockHash, id).nonce == ModuleAt(block, id).nonce;
  }

  /** Whatever a request is answered, a step of a true task is true and everything it does is right. */
  lemma LocalStepIsRight(
    t: Task, keys: Option<KeysResponse>, state: Option<ContractsState>, reply: Reply, seen: set<Block>, deployment: nat)
    requires TrueTask(t, seen, deployment) && TrueEntry(keys, t.listed.id, seen)
        && NonceDeterminesVerdicts(seen, deployment)
    ensures RightLocal(LocalStep(t, keys, state, reply), t.listed.id, seen, deployment)
  {
    hide NonceDeterminesVerdicts, VerdictWith, TrueVerdict, IsAttack, Scan, ContractsAt, ModuleAt, KeysIntersections,
      ValidIntersections, AttackIntersections;
    var block, id := t.data.block, t.listed.id;
    var l := Local(t, keys, state, [], []);
    match t.pc
    case AskingPaused(response) =>
      if !reply.Rejected? {
        var m := ModuleDataOf(t, response);
        HitGivesVerdict(response, block, id, seen, deployment);
        FiltersFindAttacks(t.data.events, m.unusedKeys, ContractsAt(block).lidoWC);
        if ValidIntersections(KeysIntersections(t.data.events, m.unusedKeys)) == [] {
          DecideIsRight(l, m, [], seen, deployment);
        }
      }
    case AskingCredentials(m, valid) =>
      if !reply.Rejected? {
        FiltersFindAttacks(t.data.events, m.unusedKeys, ContractsAt(block).lidoWC);
        DecideIsRight(l, m, AttackIntersections(valid, ContractsAt(block).lidoWC), seen, deployment);
      }
    case _ =>
  }

  /** Every call of pauseDeposits is for an attacked module. */
  ghost predicate RightPauses(pausing: Lock<PauseCall>, deployment: nat)
  {
    && Exclusive(pausing)
    && forall call | WasCalled(pausing, call) :: TrueVerdict(call.block, call.id, deployment) == Attacked
  }

  /** The task is past its verdict. */
  predicate HasDecided(pc: Pc)
  {
    pc.SigningPause? || pc.SendingPause? || pc.SigningDeposit? || pc.SendingDeposit? || pc.Finished?
  }

  /**
   A task that has decided has recorded its verdict, and with a clean one the state; one that finished on an
   attack has signed the pause, called pauseDeposits and sent the pause message.
   */
  ghost predicate Recorded(t: Task, log: seq<Effect>, pausing: Lock<PauseCall>, deployment: nat)
  {
    var block, id := t.data.block, t.listed.id;
    var verdict := TrueVerdict(block, id, deployment);
    && (HasDecided(t.pc) ==> Decided(id, block, verdict) in log)
    && (HasDecided(t.pc) && verdict == Clean ==> Remembered(id, block, StateAt(block, id)) in log)
    && (t.pc.SendingPause? || (t.pc.Finished? && verdict == Attacked) ==>
          SignedPause(id, block) in log && WasCalled(pausing, PauseCall(id, block)))
    && (t.pc.Finished? && verdict == Attacked && t.data.guardianIndex != -1 ==>
          Sent(PauseMessage(ContractsAt(block).depositRoot, ModuleAt(block, id).nonce, block, t.data.guardianIndex,
            id)) in log)
  }

  lemma EnteredWasCalled(lock: Lock<PauseCall>, call: PauseCall)
    ensures WasCalled(Entered(lock, call), call)
    ensures forall c :: WasCalled(Entered(lock, call), c) <==> WasCalled(lock, c) || c == call
  {
    var next := Entered(lock, call);
    assert call in next.live || call in next.dropped by {
      assert Last(lock.live + [call]) == call && Last(lock.dropped + [call]) == call;
    }
  }

  lemma LeftWasCalled(lock: Lock<PauseCall>, i: nat)
    ensures forall c :: WasCalled(Left(lock, i), c) <==> WasCalled(lock, c)
  {
    if i < |lock.live| {
      assert lock.live == lock.live[..i] + [lock.live[i]] + lock.live[i + 1..];
    }
  }

  lemma DecideRecords(l: Local, m: ModuleData, attacks: seq<Event>, log: seq<Effect>, pausing: Lock<PauseCall>,
      seen: set<Block>, deployment: nat)
    requires RightLocal(Decide(l, m, attacks), m.id, seen, deployment) && m.id == l.task.listed.id
    ensures Recorded(Decide(l, m, attacks).task, log + Decide(l, m, attacks).effects, pausing, deployment)
  {
    hide TrueVerdict, TrueTask, TrueEntry, IsSameContractsStates, WasCalled;
    var effects := Decide(l, m, attacks).effects;
    assert effects[0] in effects && effects[0] in log + effects;
    if |effects| > 1 {
      assert effects[1] in effects && effects[1] in log + effects;
    }
  }

  lemma LocalStepRecords(s: Shared, t: Task, reply: Reply, seen: set<Block>, deployment: nat)
    requires TrueTask(t, seen, deployment) && TrueEntry(Lookup(s.keyCache, t.listed.id), t.listed.id, seen)
    requires NonceDeterminesVerdicts(seen, deployment)
    requires Recorded(t, s.log, s.pausing, deployment) && RightPauses(s.pausing, deployment)
    ensures var next := TaskStep(s, t, reply);
            Recorded(next.1, next.0.log, next.0.pausing, deployment) && RightPauses(next.0.pausing, deployment)
  {
    hide NonceDeterminesVerdicts, TrueVerdict, Scan, TrueEntry, ContractsAt, ModuleAt, KeysIntersections,
      ValidIntersections, AttackIntersections, Decide, WasCalled, Entered, Put;
    var keys, state := Lookup(s.keyCache, t.listed.id), Lookup(s.signing, t.listed.id);
    LocalStepIsRight(t, keys, state, reply, seen, deployment);
    var l := Local(t, keys, state, [], []);
    EnteredWasCalled(s.pausing, PauseCall(t.listed.id, t.data.block));
    EnteredStaysExclusive(s.pausing, PauseCall(t.listed.id, t.data.block));
    match t.pc
    case AskingPaused(response) =>
      var m := ModuleDataOf(t, response);
      if reply.AnsweredAt? && ValidIntersections(KeysIntersections(t.data.events, m.unusedKeys)) == [] {
        DecideShape(l, m, []);
        DecideRecords(l, m, [], s.log, s.pausing, seen, deployment);
      }
    case AskingCredentials(m, valid) =>
      if reply.AnsweredAt? {
        var attacks := AttackIntersections(valid, ContractsAt(t.data.block).lidoWC);
        DecideShape(l, m, attacks);
        DecideRecords(l, m, attacks, s.log, s.pausing, seen, deployment);
      }
    case _ =>
  }

  lemma EnteredStaysExclusive(lock: Lock<PauseCall>, call: PauseCall)
    requires Exclusive(lock)
    ensures Exclusive(Entered(lock, call))
  {}

  lemma DecideShape(l: Local, m: ModuleData, attacks: seq<Event>)
    ensures Decide(l, m, attacks).pauses == l.pauses
  {}

  /** How many awaits a task has before it at most. */
  function Rank(pc: Pc): nat
  {
    match pc
    case Starting => 6
    case FetchingKeys => 5
    case AskingPaused(_) => 4
    case AskingCredentials(_, _) => 3
    case SigningPause(_) => 2
    case SigningDeposit(_) => 2
    case SendingPause(_) => 1
    case SendingDeposit(_) => 1
    case Finished => 0
    case Failed(_) => 0
  }

  /** A step keeps the inputs of the task, brings it nearer to its end, and never removes an entry. */
  lemma LocalStepShape(t: Task, keys: Option<KeysResponse>, state: Option<ContractsState>, reply: Reply)
    ensures var l := LocalStep(t, keys, state, reply);
            && l.task.data == t.data && l.task.listed == t.listed
            && (if Rank(t.pc) == 0 then l == Local(t, keys, state, [], []) else Rank(l.task.pc) < Rank(t.pc))
            && (keys.Some? ==> l.keys.Some?) && (state.Some? ==> l.state.Some?)
  {
    hide KeysIntersections, ValidIntersections, AttackIntersections, IsSameContractsStates, UnusedModuleKeys,
      ModuleDataOf;
  }
}
