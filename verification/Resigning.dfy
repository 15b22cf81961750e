/**
 How often the deposit of a module is signed, in every run of the daemon: the guard lets a cycle run, the
 verdict lets its task reach the signing memory, the memory lets it sign, and signing may fail. Nothing here
 depends on what the environment answers.
 */
module Resigning {
  import opened Wrappers
  import opened Chain
  import opened OneAtTime
  import opened StakingRouter
  import opened StakingModuleGuard
  import opened BlockGuard
  import opened GuardianTasks
  import opened GuardianSystem
  import opened ModuleCheck

  /** The states remembered for a module, one for each clean visit. */
  function Visits(log: seq<Effect>, id: int): seq<ContractsState>
  {
    if log == [] then []
    else (if log[0].Remembered? && log[0].id == id then [log[0].state] else []) + Visits(log[1..], id)
  }

  /** The first visit, or one that differs from the visit before in root, nonce or bucket of ten blocks. */
  predicate IsNew(visits: seq<ContractsState>, i: nat)
    requires i < |visits|
  {
    i == 0 || !SameState(visits[i], visits[i - 1])
  }

  function NewStates(visits: seq<ContractsState>): nat
  {
    if visits == [] then 0
    else NewStates(visits[..|visits| - 1]) + if IsNew(visits, |visits| - 1) then 1 else 0
  }

  /** The deposit messages of a module that were sent. */
  function MessagesIn(log: seq<Effect>, id: int): nat
  {
    if log == [] then 0
    else
      (if log[0].Sent? && log[0].message.DepositMessage? && log[0].message.id == id then 1 else 0)
      + MessagesIn(log[1..], id)
  }

  /** The deposit is being signed, or signing it was rejected. */
  predicate IsUnsigned(pc: Pc)
  {
    pc.SigningDeposit? || (pc.Failed? && pc.at.SigningDeposit?)
  }

  /** The deposit message is being sent, or sending it was rejected. */
  predicate IsUnsent(pc: Pc)
  {
    pc.SendingDeposit? || (pc.Failed? && pc.at.SendingDeposit?)
  }

  function One(b: bool): nat
  {
    if b then 1 else 0
  }

  /** The tasks of a module that are at such a point. */
  function TasksAt(tasks: seq<Task>, id: int, at: Pc -> bool): nat
  {
    if tasks == [] then 0 else One(tasks[0].listed.id == id && at(tasks[0].pc)) + TasksAt(tasks[1..], id, at)
  }

  lemma {:induction false} VisitsConcat(a: seq<Effect>, b: seq<Effect>, id: int)
    ensures Visits(a + b, id) == Visits(a, id) + Visits(b, id)
    ensures MessagesIn(a + b, id) == MessagesIn(a, id) + MessagesIn(b, id)
    decreases |a|
  {
    if a == [] {
      assert a + b == b;
    } else {
      assert (a + b)[1..] == a[1..] + b;
      VisitsConcat(a[1..], b, id);
    }
  }

  lemma {:induction false} TasksAtUpdate(tasks: seq<Task>, i: nat, t: Task, id: int, at: Pc -> bool)
    requires i < |tasks| && t.listed.id == tasks[i].listed.id
    ensures TasksAt(tasks[i := t], id, at) + One(t.listed.id == id && at(tasks[i].pc))
         == TasksAt(tasks, id, at) + One(t.listed.id == id && at(t.pc))
    decreases i
  {
    var next := tasks[i := t];
    if i == 0 {
      assert next[1..] == tasks[1..];
    } else {
      assert next[1..] == tasks[1..][i - 1 := t];
      TasksAtUpdate(tasks[1..], i - 1, t, id, at);
    }
  }

  lemma {:induction false} TasksAtConcat(a: seq<Task>, b: seq<Task>, id: int, at: Pc -> bool)
    requires forall t <- b :: !at(t.pc)
    ensures TasksAt(a + b, id, at) == TasksAt(a, id, at)
    decreases |a| + |b|
  {
    if a != [] {
      assert (a + b)[1..] == a[1..] + b;
      TasksAtConcat(a[1..], b, id, at);
    } else if b != [] {
      assert a + b == b;
      assert [] + b[1..] == b[1..];
      TasksAtConcat([], b[1..], id, at);
    }
  }

  // ---- One step of a task.

  /** A task carries the id of its own module. */
  predicate OwnModule(t: Task)
  {
    match t.pc
    case AskingCredentials(m, _) => m.id == t.listed.id
    case SigningPause(m) => m.id == t.listed.id
    case SendingPause(m) => m.id == t.listed.id
    case SigningDeposit(m) => m.id == t.listed.id
    case SendingDeposit(m) => m.id == t.listed.id
    case Failed(SigningDeposit(m)) => m.id == t.listed.id
    case _ => true
  }

  /** What a step adds for its module: at most one visit, which is what is then remembered; and what it signs and
      sends. */
  ghost predicate Counts(t: Task, state: Option<ContractsState>, l: Local, id: int)
  {
    var visits := Visits(l.effects, id);
    var signatures, messages := SignaturesIn(l.effects, id), MessagesIn(l.effects, id);
    && OwnModule(l.task) && l.task.listed == t.listed && l.task.data == t.data
    && (forall visit <- visits :: visit.blockNumber == Number(t.data.block))
    && if t.listed.id != id then visits == [] && signatures == messages == 0
       else
         && |visits| <= 1 && l.state == (if visits == [] then state else Some(visits[0]))
         && signatures + One(IsUnsigned(l.task.pc))
         == One(IsUnsigned(t.pc)) + One(visits != [] && !IsRemembered(visits[0], state))
         && (t.data.guardianIndex != -1 ==> messages + One(IsUnsent(l.task.pc)) == One(IsUnsent(t.pc)) + signatures)
  }

  lemma EmptyCounts(id: int)
    ensures Visits([], id) == [] && SignaturesIn([], id) == MessagesIn([], id) == 0
  {}

  lemma SingleCounts(e: Effect, id: int)
    ensures Visits([e], id) == if e.Remembered? && e.id == id then [e.state] else []
    ensures SignaturesIn([e], id) == One(e.SignedDeposit? && e.id == id)
    ensures MessagesIn([e], id) == One(e.Sent? && e.message.DepositMessage? && e.message.id == id)
  {
    assert [e][1..] == [];
  }

  lemma DecideCounts(l: Local, m: ModuleData, attacks: seq<Event>, id: int)
    requires l.effects == [] && m.id == l.task.listed.id && !IsUnsigned(l.task.pc) && !IsUnsent(l.task.pc)
    ensures Counts(l.task, l.state, Decide(l, m, attacks), id)
  {
    hide IsRemembered, IsSameContractsStates, Number, Visits, MessagesIn, SignaturesIn;
    ComparesWhatIsSigned(ContractsState(m.nonce, l.task.data.depositRoot, Number(l.task.data.block)), l.state);
    var effects := Decide(l, m, attacks).effects;
    SingleCounts(effects[0], id);
    if |effects| > 1 {
      SingleCounts(effects[1], id);
      assert effects == [effects[0]] + [effects[1]];
      VisitsConcat([effects[0]], [effects[1]], id);
      SignaturesInConcat([effects[0]], [effects[1]], id);
    } else {
      assert effects == [effects[0]];
    }
  }

  lemma SigningCounts(t: Task, keys: Option<KeysResponse>, state: Option<ContractsState>, reply: Reply, id: int)
    requires OwnModule(t) && (t.pc.SigningDeposit? || t.pc.SendingDeposit?)
    ensures Counts(t, state, LocalStep(t, keys, state, reply), id)
  {
    hide Number, Visits, SignaturesIn, MessagesIn;
    EmptyCounts(id);
    if t.pc.SigningDeposit? {
      SingleCounts(SignedDeposit(t.pc.m.id, t.data.block, t.data.depositRoot, t.pc.m.nonce), id);
    } else {
      SingleCounts(Sent(DepositMessageOf(t, t.pc.m)), id);
    }
  }

  lemma AskingCounts(t: Task, keys: Option<KeysResponse>, state: Option<ContractsState>, reply: Reply, id: int)
    requires t.pc.AskingPaused? || (t.pc.AskingCredentials? && t.pc.m.id == t.listed.id)
    ensures Counts(t, state, LocalStep(t, keys, state, reply), id)
  {
    hide Decide, IsRemembered, KeysIntersections, ValidIntersections, AttackIntersections, Number, ModuleAt,
      ContractsAt, Visits, SignaturesIn, MessagesIn;
    var l := Local(t, keys, state, [], []);
    EmptyCounts(id);
    match t.pc
    case AskingPaused(response) => DecideCounts(l, ModuleDataOf(t, response), [], id);
    case AskingCredentials(m, valid) => DecideCounts(l, m, AttackIntersections(valid, ContractsAt(t.data.block).lidoWC),
      id);
  }

  lemma LocalStepCounts(t: Task, keys: Option<KeysResponse>, state: Option<ContractsState>, reply: Reply, id: int)
    requires OwnModule(t)
    ensures Counts(t, state, LocalStep(t, keys, state, reply), id)
  {
    if t.pc.AskingPaused? || t.pc.AskingCredentials? {
      AskingCounts(t, keys, state, reply, id);
    } else if t.pc.SigningDeposit? || t.pc.SendingDeposit? {
      SigningCounts(t, keys, state, reply, id);
    } else {
      hide Decide, IsRemembered, Number, ModuleAt, ContractsAt, UnusedModuleKeys, IsNeedToUpdateState, Visits,
        SignaturesIn, MessagesIn;
      EmptyCounts(id);
      match t.pc
      case SigningPause(m) => SingleCounts(SignedPause(m.id, t.data.block), id);
      case SendingPause(m) => SingleCounts(Sent(PauseMessageOf(t, m)), id);
      case _ =>
    }
  }

  // ---- Conservation: every new state is signed, is being signed, or was rejected.

  ghost predicate AllInTheList(tasks: seq<Task>, id: int)
  {
    forall t <- tasks :: t.listed.id == id ==> t.data.guardianIndex != -1
  }

  /** What is remembered is the last visit, and new states and signatures add up. */
  ghost predicate SignaturesBalance(s: Shared, tasks: seq<Task>, id: int)
  {
    var visits := Visits(s.log, id);
    && Lookup(s.signing, id) == (if visits == [] then None else Some(Last(visits)))
    && SignaturesIn(s.log, id) + TasksAt(tasks, id, IsUnsigned) == NewStates(visits)
  }

  /** Signatures and messages add up. */
  ghost predicate MessagesBalance(s: Shared, tasks: seq<Task>, id: int)
  {
    AllInTheList(tasks, id) ==> MessagesIn(s.log, id) + TasksAt(tasks, id, IsUnsent) == SignaturesIn(s.log, id)
  }

  ghost predicate Balanced(s: Shared, tasks: seq<Task>, id: int)
  {
    SignaturesBalance(s, tasks, id) && MessagesBalance(s, tasks, id)
  }

  ghost predicate AddsUp(sys: System, id: int)
  {
    (forall t <- sys.tasks :: OwnModule(t)) && Balanced(sys.shared, sys.tasks, id)
  }

  lemma NewStatesAppend(visits: seq<ContractsState>, visit: ContractsState)
    ensures NewStates(visits + [visit])
         == NewStates(visits) + One(!IsRemembered(visit, if visits == [] then None
           else Some(Last(visits))))
  {
    var all := visits + [visit];
    assert all[..|all| - 1] == visits;
  }

  lemma AwaitBalancesSignatures(s: Shared, tasks: seq<Task>, i: nat, reply: Reply, id: int)
    requires SignaturesBalance(s, tasks, id) && i < |tasks| && OwnModule(tasks[i])
    ensures var next := TaskStep(s, tasks[i], reply);
            SignaturesBalance(next.0, tasks[i := next.1], id) && OwnModule(next.1)
  {
    hide LocalStep, IsRemembered, NewStates, Visits, SignaturesIn, MessagesIn, OwnModule, IsUnsigned, IsUnsent, TasksAt,
      Number;
    var t := tasks[i];
    LocalStepCounts(t, Lookup(s.keyCache, t.listed.id), Lookup(s.signing, t.listed.id), reply, id);
    var l := LocalOf(s, t, reply);
    var more := Visits(l.effects, id);
    VisitsConcat(s.log, l.effects, id);
    SignaturesInConcat(s.log, l.effects, id);
    TasksAtUpdate(tasks, i, l.task, id, IsUnsigned);
    if more == [] {
      assert Visits(s.log, id) + more == Visits(s.log, id);
    } else {
      assert more == [more[0]];
      NewStatesAppend(Visits(s.log, id), more[0]);
    }
  }

  lemma AwaitBalancesMessages(s: Shared, tasks: seq<Task>, i: nat, reply: Reply, id: int)
    requires MessagesBalance(s, tasks, id) && i < |tasks| && OwnModule(tasks[i])
    ensures var next := TaskStep(s, tasks[i], reply);
            MessagesBalance(next.0, tasks[i := next.1], id)
  {
    hide LocalStep, IsRemembered, Visits, SignaturesIn, MessagesIn, OwnModule, IsUnsigned, IsUnsent, AllInTheList,
      TasksAt, Number;
    var t := tasks[i];
    LocalStepCounts(t, Lookup(s.keyCache, t.listed.id), Lookup(s.signing, t.listed.id), reply, id);
    var l := LocalOf(s, t, reply);
    VisitsConcat(s.log, l.effects, id);
    SignaturesInConcat(s.log, l.effects, id);
    TasksAtUpdate(tasks, i, l.task, id, IsUnsent);
    AllInTheListUpdate(tasks, i, l.task, id);
  }

  lemma AwaitBalances(s: Shared, tasks: seq<Task>, i: nat, reply: Reply, id: int)
    requires Balanced(s, tasks, id) && i < |tasks| && OwnModule(tasks[i])
    ensures var next := TaskStep(s, tasks[i], reply);
            Balanced(next.0, tasks[i := next.1], id) && OwnModule(next.1)
  {
    hide TaskStep, SignaturesBalance, MessagesBalance;
    AwaitBalancesSignatures(s, tasks, i, reply, id);
    AwaitBalancesMessages(s, tasks, i, reply, id);
  }

  lemma AwaitAccounts(sys: System, i: nat, reply: Reply, id: int)
    requires AddsUp(sys, id) && i < |sys.tasks|
    ensures var next := TaskStep(sys.shared, sys.tasks[i], reply);
            AddsUp(sys.(shared := next.0, tasks := sys.tasks[i := next.1]), id)
  {
    hide TaskStep, Balanced, OwnModule;
    AwaitBalances(sys.shared, sys.tasks, i, reply, id);
  }

  lemma AllInTheListUpdate(tasks: seq<Task>, i: nat, t: Task, id: int)
    requires i < |tasks| && t.data == tasks[i].data && t.listed == tasks[i].listed
    ensures AllInTheList(tasks[i := t], id) ==>
        AllInTheList(tasks, id) && (t.listed.id == id ==> t.data.guardianIndex != -1)
  {
    var next := tasks[i := t];
    if AllInTheList(next, id) {
      assert next[i] in next;
      forall j | 0 <= j < |tasks|
        ensures tasks[j].listed.id == id ==> tasks[j].data.guardianIndex != -1
      {
        assert next[j] in next;
      }
    }
  }

  lemma SpawnAccounts(sys: System, data: BlockData, modules: seq<SRModule>, id: int)
    requires AddsUp(sys, id)
    ensures AddsUp(sys.(tasks := sys.tasks + Spawned(data, modules)), id)
  {
    hide NewStates, Visits, SignaturesIn, MessagesIn;
    TasksAtConcat(sys.tasks, Spawned(data, modules), id, IsUnsigned);
    TasksAtConcat(sys.tasks, Spawned(data, modules), id, IsUnsent);
    var all := sys.tasks + Spawned(data, modules);
    assert AllInTheList(all, id) ==> AllInTheList(sys.tasks, id) by {
      assert forall t <- sys.tasks :: t in all;
    }
  }

  lemma PingAccounts(sys: System, ping: Message, id: int)
    requires AddsUp(sys, id) && ping.PingMessage?
    ensures AddsUp(sys.(shared := sys.shared.(log := sys.shared.log + Delivered(ping))), id)
    ensures Visits(sys.shared.log + Delivered(ping), id) == Visits(sys.shared.log, id)
  {
    hide NewStates, Visits, SignaturesIn, MessagesIn, OwnModule;
    if Delivered(ping) == [] {
      assert sys.shared.log + Delivered(ping) == sys.shared.log;
    } else {
      assert Delivered(ping) == [Sent(ping)];
      SingleCounts(Sent(ping), id);
      assert Visits(sys.shared.log, id) + [] == Visits(sys.shared.log, id);
    }
    VisitsConcat(sys.shared.log, Delivered(ping), id);
    SignaturesInConcat(sys.shared.log, Delivered(ping), id);
  }

  lemma StepAccounts(sys: System, action: Action, env: Env, id: int)
    requires AddsUp(sys, id)
    ensures AddsUp(Step(sys, action, env), id)
  {
    hide DepositRuns.Step, DepositRuns.ReadAt, CurrentBlockData, TaskStep, Ids, Spawned, Left, IsNeedToProcessNewState,
      OwnModule, Delivered;
    match action
    case Await(i, reply) =>
      if i < |sys.tasks| {
        AwaitAccounts(sys, i, reply, id);
      }
    case Collect(_, _, _) =>
      var next := Step(sys, action, env);
      if next.cycle.Checking? && sys.cycle.Refreshed? {
        SpawnAccounts(sys, next.cycle.data, sys.cycle.modules, id);
      }
    case Ping(_) =>
      if sys.cycle.Checking? && sys.cycle.first <= |sys.tasks| {
        PingAccounts(sys, PingMessage(sys.cycle.data.block, sys.cycle.data.guardianIndex,
          Ids(sys.tasks[sys.cycle.first..])), id);
      }
    case _ =>
  }

  lemma {:induction false} RunAccounts(sys: System, actions: seq<Action>, env: Env, id: int)
    requires AddsUp(sys, id)
    ensures AddsUp(Run(sys, actions, env), id)
    decreases |actions|
  {
    hide AddsUp, Step;
    if actions != [] {
      StepAccounts(sys, actions[0], env, id);
      RunAccounts(Step(sys, actions[0], env), actions[1..], env, id);
    }
  }

  /**
   In every run, whatever fails: of the states a process remembered for a module, those that are new were signed
   once each, but for those whose signature was rejected or is still being made. So every new clean state is
   signed if and only if no signature of the module was rejected or is pending; and likewise every signature
   was sent, but for those whose sending was rejected or is pending, if the guardian was in the list.
   */
  lemma SignaturesFollowVisits(tip: Block, actions: seq<Action>, env: Env, id: int)
    ensures var sys := Run(Fresh(tip), actions, env);
            var log, unsigned, unsent := sys.shared.log, TasksAt(sys.tasks, id, IsUnsigned),
              TasksAt(sys.tasks, id, IsUnsent);
            && SignaturesIn(log, id) + unsigned == NewStates(Visits(log, id))
            && (SignaturesIn(log, id) == NewStates(Visits(log, id))
              <==> forall t <- sys.tasks :: t.listed.id == id ==> !IsUnsigned(t.pc))
            && (AllInTheList(sys.tasks, id) ==> MessagesIn(log, id) + unsent == SignaturesIn(log, id))
  {
    hide Run, IsUnsigned, IsUnsent;
    RunAccounts(Fresh(tip), actions, env, id);
    NoTaskAt(Run(Fresh(tip), actions, env).tasks, id, IsUnsigned);
  }

  lemma {:induction false} NoTaskAt(tasks: seq<Task>, id: int, at: Pc -> bool)
    ensures TasksAt(tasks, id, at) == 0 <==> forall t <- tasks :: t.listed.id == id ==> !at(t.pc)
  {
    if tasks != [] {
      NoTaskAt(tasks[1..], id, at);
      assert forall t :: t in tasks <==> t == tasks[0] || t in tasks[1..];
    }
  }

  // ---- The bound.

  /** Visits whose deposit root or nonce differs from the visit before. */
  function Changes(visits: seq<ContractsState>): nat
  {
    if |visits| <= 1 then 0
    else
      var before, last := visits[|visits| - 2], visits[|visits| - 1];
      Changes(visits[..|visits| - 1]) + One(last.depositRoot != before.depositRoot || last.nonce != before.nonce)
  }

  /** One, and one for each change of (depositRoot, nonce), and one for each ten blocks from the first visit to the
      last. */
  function Bound(visits: seq<ContractsState>): int
  {
    if visits == [] then 0
    else 1 + Changes(visits) + Bucket(Last(visits).blockNumber) - Bucket(visits[0].blockNumber)
  }

  /** From a visit to the next the bucket of ten blocks does not fall. */
  predicate BucketsAscend(visits: seq<ContractsState>)
  {
    forall i | 0 < i < |visits| :: Bucket(visits[i - 1].blockNumber) <= Bucket(visits[i].blockNumber)
  }

  lemma {:induction false} AscendingIsBounded(visits: seq<ContractsState>)
    requires BucketsAscend(visits)
    ensures NewStates(visits) <= Bound(visits)
  {
    if visits != [] {
      var front := visits[..|visits| - 1];
      AscendingIsBounded(front);
    }
  }

  /** Visits in another ten blocks than the visit before. */
  function Moves(visits: seq<ContractsState>): nat
  {
    if |visits| <= 1 then 0
    else
      var before, last := visits[|visits| - 2], visits[|visits| - 1];
      Moves(visits[..|visits| - 1]) + One(last.blockNumber / 10 != before.blockNumber / 10)
  }

  /** From below: the first visit, each change of (depositRoot, nonce), and each move to another ten blocks is new. */
  lemma {:induction false} EveryChangeIsNew(visits: seq<ContractsState>)
    requires visits != []
    ensures 1 + Changes(visits) <= NewStates(visits) && 1 + Moves(visits) <= NewStates(visits)
    ensures NewStates(visits) <= 1 + Changes(visits) + Moves(visits)
  {
    var front := visits[..|visits| - 1];
    if front == [] {
      assert NewStates(front) == 0;
    } else {
      EveryChangeIsNew(front);
    }
  }

  /** Two visits with a falling bucket are both new, and exceed their bound. */
  lemma FallBreaksTheBound(a: ContractsState, b: ContractsState)
    requires Bucket(a.blockNumber) > Bucket(b.blockNumber)
    ensures NewStates([a, b]) > Bound([a, b])
  {
    assert [a, b][..1] == [a] && [a][..0] == [];
    assert NewStates([]) == 0 && NewStates([a]) == 1 && Changes([a]) == 0;
  }

  /** The exact condition: the bound holds of every stretch of visits if and only if the buckets do not fall. */
  lemma BoundedIffAscending(visits: seq<ContractsState>)
    ensures (forall i, j | 0 <= i <= j <= |visits| :: NewStates(visits[i..j]) <= Bound(visits[i..j]))
        <==> BucketsAscend(visits)
  {
    hide NewStates, Bound, Bucket;
    if BucketsAscend(visits) {
      forall i, j | 0 <= i <= j <= |visits|
        ensures NewStates(visits[i..j]) <= Bound(visits[i..j])
      {
        AscendingIsBounded(visits[i..j]);
      }
    } else {
      var i :| 0 < i < |visits| && Bucket(visits[i - 1].blockNumber) > Bucket(visits[i].blockNumber);
      FallBreaksTheBound(visits[i - 1], visits[i]);
      assert visits[i - 1..i + 1] == [visits[i - 1], visits[i]];
    }
  }

  // ---- Where no cycle fails, the guard keeps the visits in order.

  /** A cycle over its modules ends without its block being recorded. */
  predicate CycleFails(sys: System, action: Action, env: Env)
  {
    var next := Step(sys, action, env);
    !action.Index? && sys.cycle.Checking? && next.cycle.Idle? && next.processed == sys.processed
  }

  ghost predicate NoCycleFails(sys: System, actions: seq<Action>, env: Env)
    decreases |actions|
  {
    actions == [] || (!CycleFails(sys, actions[0], env) && NoCycleFails(Step(sys, actions[0], env), actions[1..], env))
  }

  /** The number of the block the process is at, or of the last one it recorded. */
  function Reached(sys: System): int
  {
    if sys.cycle.Checking? then Number(sys.cycle.data.block)
    else if sys.processed == [] then -1
    else Number(Last(sys.processed))
  }

  /** The tasks below are those of former cycles. */
  function FirstOf(sys: System): nat
  {
    if sys.cycle.Checking? then sys.cycle.first else |sys.tasks|
  }

  ghost predicate Ascending(visits: seq<ContractsState>, reached: int)
  {
    && (forall i | 0 <= i < |visits| :: 0 <= visits[i].blockNumber <= reached)
    && (forall i, j | 0 <= i < j < |visits| :: visits[i].blockNumber <= visits[j].blockNumber)
  }

  ghost predicate FormerAreDone(tasks: seq<Task>, first: nat)
  {
    first <= |tasks| && forall i | 0 <= i < first :: Rank(tasks[i].pc) == 0
  }

  /** Former tasks are done, and the visits go up to the block reached. */
  ghost predicate Ordered(sys: System, id: int)
  {
    && Guarded(sys) && FormerAreDone(sys.tasks, FirstOf(sys))
    && (forall t <- sys.tasks :: OwnModule(t))
    && Ascending(Visits(sys.shared.log, id), Reached(sys))
  }

  lemma AscendingAppend(visits: seq<ContractsState>, more: seq<ContractsState>, reached: nat)
    requires Ascending(visits, reached) && |more| <= 1 && forall visit <- more :: visit.blockNumber == reached
    ensures Ascending(visits + more, reached)
  {
    assert more != [] ==> more[0] in more;
  }

  /** A step of a task of the cycle visits at most once, at the block reached; a former task does nothing. */
  lemma AwaitVisits(s: Shared, t: Task, reply: Reply, id: int)
    requires OwnModule(t)
    ensures var next, visits := TaskStep(s, t, reply), Visits(s.log, id);
            && OwnModule(next.1) && next.1.data == t.data && (Rank(t.pc) == 0 ==>
              next.1 == t && Visits(next.0.log, id) == visits)
            && forall reached | Ascending(visits, reached) && reached == Number(t.data.block) ::
              Ascending(Visits(next.0.log, id), reached)
  {
    hide LocalStep, Visits, OwnModule, IsUnsigned, IsUnsent, IsRemembered, Number, Ascending;
    var keys, state := Lookup(s.keyCache, t.listed.id), Lookup(s.signing, t.listed.id);
    LocalStepCounts(t, keys, state, reply, id);
    LocalStepShape(t, keys, state, reply);
    var l := LocalStep(t, keys, state, reply);
    var visits, more := Visits(s.log, id), Visits(l.effects, id);
    VisitsConcat(s.log, l.effects, id);
    EmptyCounts(id);
    assert visits + [] == visits;
    if Ascending(visits, Number(t.data.block)) {
      AscendingAppend(visits, more, Number(t.data.block));
    }
  }

  lemma AwaitKeepsOrder(sys: System, i: nat, reply: Reply, id: int)
    requires Ordered(sys, id) && i < |sys.tasks|
    ensures var next := TaskStep(sys.shared, sys.tasks[i], reply);
            Ordered(sys.(shared := next.0, tasks := sys.tasks[i := next.1]), id)
  {
    hide TaskStep, Visits, OwnModule, Number, IsNeedToProcessNewState, Monotone, Ascending;
    AwaitVisits(sys.shared, sys.tasks[i], reply, id);
    AwaitKeepsGuard(sys, i, reply);
    var next := TaskStep(sys.shared, sys.tasks[i], reply);
    if i < FirstOf(sys) {
      assert sys.tasks[i := next.1] == sys.tasks;
    } else {
      assert sys.cycle.Checking? && sys.tasks[i].data == sys.cycle.data;
    }
  }

  lemma StepKeepsOrder(sys: System, action: Action, env: Env, id: int)
    requires Ordered(sys, id) && !CycleFails(sys, action, env)
    ensures Ordered(Step(sys, action, env), id)
  {
    hide DepositRuns.Step, DepositRuns.ReadAt, CurrentBlockData, TaskStep, Ids, Left, Visits, Delivered, Number,
      Guarded;
    StepKeepsGuard(sys, action, env);
    match action
    case Await(i, reply) =>
      if i < |sys.tasks| {
        AwaitKeepsOrder(sys, i, reply, id);
      }
    case Collect(_, _, _) =>
      if sys.cycle.Refreshed? {
        CollectKeepsOrder(sys, action, env, id);
      }
    case Ping(_) =>
      if sys.cycle.Checking? && sys.cycle.first <= |sys.tasks| {
        PingIsNoVisit(sys.shared.log, PingMessage(sys.cycle.data.block, sys.cycle.data.guardianIndex,
          Ids(sys.tasks[sys.cycle.first..])), id);
      }
    case Index(_) => EmptyCounts(id);
    case _ =>
  }

  lemma CollectKeepsOrder(sys: System, action: Action, env: Env, id: int)
    requires Ordered(sys, id) && action.Collect? && sys.cycle.Refreshed?
    ensures Guarded(CollectStep(sys, action, env)) ==> Ordered(CollectStep(sys, action, env), id)
  {
    hide DepositRuns.Step, DepositRuns.ReadAt, CurrentBlockData, Visits, Number, Monotone;
    CollectedBlock(sys.cycle.block, DepositRuns.ReadAt(sys.world.index, sys.cycle.block, action.readable,
      action.attempts, env.deployment), action.answered, env.address);
  }

  lemma PingIsNoVisit(log: seq<Effect>, ping: Message, id: int)
    requires ping.PingMessage?
    ensures Visits(log + Delivered(ping), id) == Visits(log, id)
  {
    if Delivered(ping) == [] {
      assert log + Delivered(ping) == log;
    } else {
      VisitsConcat(log, [Sent(ping)], id);
      SingleCounts(Sent(ping), id);
      assert Visits(log, id) + [] == Visits(log, id);
    }
  }

  lemma {:induction false} RunKeepsOrder(sys: System, actions: seq<Action>, env: Env, id: int)
    requires Ordered(sys, id) && NoCycleFails(sys, actions, env)
    ensures Ordered(Run(sys, actions, env), id)
    decreases |actions|
  {
    hide Ordered, Step, CycleFails;
    if actions != [] {
      StepKeepsOrder(sys, actions[0], env, id);
      RunKeepsOrder(Step(sys, actions[0], env), actions[1..], env, id);
    }
  }

  /** The guard keeps the visits of cycles that do not fail in order. */
  lemma VisitsAscend(tip: Block, actions: seq<Action>, env: Env, id: int)
    requires NoCycleFails(Fresh(tip), actions, env)
    ensures var sys := Run(Fresh(tip), actions, env);
            Ascending(Visits(sys.shared.log, id), Reached(sys)) && BucketsAscend(Visits(sys.shared.log, id))
  {
    hide Run, NoCycleFails, Reached;
    assert Ordered(Fresh(tip), id);
    RunKeepsOrder(Fresh(tip), actions, env, id);
  }

  /**
   Re-signing bound, in every run: the process has signed the deposit of a module at most once, plus once for
   each change of (depositRoot, nonce), plus once for each ten blocks from its first clean visit to its last,
   if the buckets of its clean visits do not fall; and they do not where no cycle fails.
   */
  lemma ResigningBound(tip: Block, actions: seq<Action>, env: Env, id: int)
    ensures var log := Run(Fresh(tip), actions, env).shared.log;
            && (NoCycleFails(Fresh(tip), actions, env) ==> BucketsAscend(Visits(log, id)))
            && (BucketsAscend(Visits(log, id)) ==> SignaturesIn(log, id) <= Bound(Visits(log, id)))
  {
    hide Run, NoCycleFails, BucketsAscend, Bound, Ascending;
    var visits := Visits(Run(Fresh(tip), actions, env).shared.log, id);
    SignaturesFollowVisits(tip, actions, env, id);
    if NoCycleFails(Fresh(tip), actions, env) {
      VisitsAscend(tip, actions, env, id);
    }
    if BucketsAscend(visits) {
      AscendingIsBounded(visits);
    }
  }
}
