/**
 What a clean module gets: in every run, each state that was remembered for it is signed by this process, in
 this block or an earlier one with the same root, nonce and bucket, unless just that signature was rejected or
 is still being made; and each signature is sent, unless just that message was rejected or is on its way.
 */
module SignedStates {
  import opened Wrappers
  import opened Chain
  import opened OneAtTime
  import opened StakingRouter
  import opened StakingModuleGuard
  import opened BlockGuard
  import opened GuardianTasks
  import opened GuardianSystem
  import opened Resigning

  function SignedState(e: Effect): ContractsState
    requires e.SignedDeposit?
  {
    ContractsState(e.nonce, e.depositRoot, Number(e.block))
  }

  /** The state that a task has not got signed. */
  function UnsignedState(t: Task): ContractsState
    requires IsUnsigned(t.pc)
  {
    ContractsState(if t.pc.Failed? then t.pc.at.m.nonce else t.pc.m.nonce, t.data.depositRoot, Number(t.data.block))
  }

  /** The message that a task has not got sent. */
  function UnsentMessage(t: Task): Message
    requires IsUnsent(t.pc)
  {
    DepositMessageOf(t, if t.pc.Failed? then t.pc.at.m else t.pc.m)
  }

  predicate Announces(message: Message, e: Effect)
    requires e.SignedDeposit?
  {
    message.DepositMessage? && message.id == e.id && message.block == e.block && message.depositRoot == e.depositRoot
      && message.nonce == e.nonce
  }

  ghost predicate IsSigned(log: seq<Effect>, id: int, state: ContractsState)
  {
    exists e <- log :: e.SignedDeposit? && e.id == id && SameState(SignedState(e), state)
  }

  ghost predicate IsStuck(tasks: seq<Task>, id: int, state: ContractsState)
  {
    exists t <- tasks :: t.listed.id == id && IsUnsigned(t.pc) && SameState(UnsignedState(t), state)
  }

  ghost predicate IsSent(log: seq<Effect>, e: Effect)
    requires e.SignedDeposit?
  {
    exists sent <- log :: sent.Sent? && Announces(sent.message, e)
  }

  /** The task works on the block and the root of the signature, and its guardian is not in the list there. */
  predicate IsUnlisted(t: Task, block: Block, depositRoot: string)
  {
    t.data.guardianIndex == -1 && t.data.block == block && t.data.depositRoot == depositRoot
  }

  /** Just this message was rejected, is being sent, or is not sent because the guardian was not in the list. */
  ghost predicate IsHeld(tasks: seq<Task>, e: Effect)
    requires e.SignedDeposit?
  {
    exists t <- tasks ::
      && t.listed.id == e.id
      && ((IsUnsent(t.pc) && Announces(UnsentMessage(t), e)) || IsUnlisted(t, e.block, e.depositRoot))
  }

  ghost predicate Covered(s: Shared, tasks: seq<Task>, id: int)
  {
    && (forall visit <- Visits(s.log, id) :: IsSigned(s.log, id, visit) || IsStuck(tasks, id, visit))
    && (forall e <- s.log :: e.SignedDeposit? && e.id == id ==> IsSent(s.log, e) || IsHeld(tasks, e))
  }

  /** What a step of a task leaves open of its own, it closes in the log or carries on. */
  ghost predicate CarriesOn(t: Task, state: Option<ContractsState>, l: Local)
  {
    var id := t.listed.id;
    && (IsUnsigned(t.pc) ==>
          || (IsUnsigned(l.task.pc) && UnsignedState(l.task) == UnsignedState(t))
          || exists e <- l.effects :: e.SignedDeposit? && e.id == id && SignedState(e) == UnsignedState(t))
    && (IsUnsent(t.pc) && t.data.guardianIndex != -1 ==>
          (IsUnsent(l.task.pc) && UnsentMessage(l.task) == UnsentMessage(t)) || Sent(UnsentMessage(t)) in l.effects)
    && (forall e <- l.effects :: e.SignedDeposit? ==>
          e.id == id && IsUnsent(l.task.pc) && Announces(UnsentMessage(l.task), e))
    && (forall visit <- Visits(l.effects, id) ::
          || IsRemembered(visit, state)
          || (IsUnsigned(l.task.pc) && UnsignedState(l.task) == visit))
  }

  lemma DecideCarriesOn(l: Local, m: ModuleData, attacks: seq<Event>)
    requires l.effects == [] && m.id == l.task.listed.id && !IsUnsigned(l.task.pc) && !IsUnsent(l.task.pc)
    ensures CarriesOn(l.task, l.state, Decide(l, m, attacks))
  {
    hide IsSameContractsStates, Number, Visits;
    ComparesWhatIsSigned(ContractsState(m.nonce, l.task.data.depositRoot, Number(l.task.data.block)), l.state);
    var effects := Decide(l, m, attacks).effects;
    SingleCounts(effects[0], m.id);
    if |effects| > 1 {
      SingleCounts(effects[1], m.id);
      assert effects == [effects[0]] + [effects[1]];
      VisitsConcat([effects[0]], [effects[1]], m.id);
    } else {
      assert effects == [effects[0]];
    }
  }

  lemma LocalStepCarriesOn(t: Task, keys: Option<KeysResponse>, state: Option<ContractsState>, reply: Reply)
    requires OwnModule(t)
    ensures CarriesOn(t, state, LocalStep(t, keys, state, reply))
  {
    hide Decide, KeysIntersections, ValidIntersections, AttackIntersections, UnusedModuleKeys,
      Number, IsNeedToUpdateState, Visits;
    var l := Local(t, keys, state, [], []);
    EmptyCounts(t.listed.id);
    match t.pc
    case AskingPaused(response) => DecideCarriesOn(l, ModuleDataOf(t, response), []);
    case AskingCredentials(m, valid) => DecideCarriesOn(l, m,
      AttackIntersections(valid, ContractsAt(t.data.block).lidoWC));
    case SigningPause(m) => SingleCounts(SignedPause(m.id, t.data.block), t.listed.id);
    case SigningDeposit(m) =>
      var e := SignedDeposit(m.id, t.data.block, t.data.depositRoot, m.nonce);
      SingleCounts(e, t.listed.id);
      assert !reply.Rejected? ==> LocalStep(t, keys, state, reply).effects[0] == e;
    case SendingPause(m) => SingleCounts(Sent(PauseMessageOf(t, m)), t.listed.id);
    case SendingDeposit(m) =>
      SingleCounts(Sent(DepositMessageOf(t, m)), t.listed.id);
      assert !reply.Rejected? && t.data.guardianIndex != -1 ==>
        LocalStep(t, keys, state, reply).effects[0] == Sent(DepositMessageOf(t, m));
    case _ =>
  }

  // ---- A step among the tasks.

  /** A state that was covered before the step of a task is covered after it. */
  lemma VisitStaysCovered(log: seq<Effect>, tasks: seq<Task>, i: nat, state: Option<ContractsState>, l: Local, id: int,
      visit: ContractsState)
    requires i < |tasks| && CarriesOn(tasks[i], state, l) && l.task.listed == tasks[i].listed
    requires IsSigned(log, id, visit) || IsStuck(tasks, id, visit)
    ensures IsSigned(log + l.effects, id, visit) || IsStuck(tasks[i := l.task], id, visit)
  {
    hide SameState, SignedState, UnsignedState, UnsentMessage, IsUnsigned, IsUnsent, Visits;
    var next := tasks[i := l.task];
    if IsSigned(log, id, visit) {
      var e :| e in log && e.SignedDeposit? && e.id == id && SameState(SignedState(e), visit);
      assert e in log + l.effects;
    } else {
      var t :| t in tasks && t.listed.id == id && IsUnsigned(t.pc) && SameState(UnsignedState(t), visit);
      var j :| 0 <= j < |tasks| && tasks[j] == t;
      assert next[j] in next;
      if j == i && !(IsUnsigned(l.task.pc) && UnsignedState(l.task) == UnsignedState(t)) {
        var e :| e in l.effects && e.SignedDeposit? && e.id == id && SignedState(e) == UnsignedState(t);
        assert e in log + l.effects;
      }
    }
  }

  lemma SignatureStaysCovered(log: seq<Effect>, tasks: seq<Task>, i: nat, state: Option<ContractsState>, l: Local,
      e: Effect)
    requires i < |tasks| && CarriesOn(tasks[i], state, l) && l.task.listed == tasks[i].listed
        && l.task.data == tasks[i].data
    requires e.SignedDeposit? && (IsSent(log, e) || IsHeld(tasks, e))
    ensures IsSent(log + l.effects, e) || IsHeld(tasks[i := l.task], e)
  {
    hide SignedState, UnsignedState, IsUnsigned, Visits;
    var next := tasks[i := l.task];
    if IsSent(log, e) {
      var sent :| sent in log && sent.Sent? && Announces(sent.message, e);
      assert sent in log + l.effects;
    } else {
      var t :| t in tasks && t.listed.id == e.id
               && ((IsUnsent(t.pc) && Announces(UnsentMessage(t), e)) || IsUnlisted(t, e.block, e.depositRoot));
      var j :| 0 <= j < |tasks| && tasks[j] == t;
      assert next[j] in next;
      if j == i && t.data.guardianIndex != -1 && !(IsUnsent(l.task.pc) && UnsentMessage(l.task) == UnsentMessage(t)) {
        assert Sent(UnsentMessage(t)) in log + l.effects;
      }
    }
  }

  lemma SameCovers(log: seq<Effect>, tasks: seq<Task>, id: int, a: ContractsState, b: ContractsState)
    requires SameState(b, a) && (IsSigned(log, id, a) || IsStuck(tasks, id, a))
    ensures IsSigned(log, id, b) || IsStuck(tasks, id, b)
  {
    hide IsUnsigned, UnsignedState, SignedState;
  }

  lemma AwaitCovers(s: Shared, tasks: seq<Task>, i: nat, reply: Reply, id: int)
    requires Covered(s, tasks, id) && Balanced(s, tasks, id) && i < |tasks| && OwnModule(tasks[i])
    ensures var next := TaskStep(s, tasks[i], reply);
            Covered(next.0, tasks[i := next.1], id)
  {
    hide LocalStep, SameState, IsSigned, IsStuck, IsSent, IsHeld, SignedState, UnsignedState, UnsentMessage, IsUnsigned,
      IsUnsent, OwnModule, Visits;
    var t := tasks[i];
    var state := Lookup(s.signing, t.listed.id);
    LocalStepCarriesOn(t, Lookup(s.keyCache, t.listed.id), state, reply);
    LocalStepShape(t, Lookup(s.keyCache, t.listed.id), state, reply);
    LocalStepCounts(t, Lookup(s.keyCache, t.listed.id), state, reply, id);
    var l := LocalOf(s, t, reply);
    var log, next := s.log + l.effects, tasks[i := l.task];
    VisitsConcat(s.log, l.effects, id);
    forall visit <- Visits(s.log, id)
      ensures IsSigned(log, id, visit) || IsStuck(next, id, visit)
    {
      VisitStaysCovered(s.log, tasks, i, state, l, id, visit);
    }
    forall visit <- Visits(l.effects, id)
      ensures IsSigned(log, id, visit) || IsStuck(next, id, visit)
    {
      NewVisitIsCovered(s, tasks, i, l, id, visit);
    }
    forall e <- log | e.SignedDeposit? && e.id == id
      ensures IsSent(log, e) || IsHeld(next, e)
    {
      if e in s.log {
        SignatureStaysCovered(s.log, tasks, i, state, l, e);
      } else {
        assert next[i] in next;
        NewSignatureIsHeld(next, i, e);
      }
    }
  }

  lemma NewSignatureIsHeld(tasks: seq<Task>, i: nat, e: Effect)
    requires i < |tasks| && e.SignedDeposit? && tasks[i].listed.id == e.id && IsUnsent(tasks[i].pc)
        && Announces(UnsentMessage(tasks[i]), e)
    ensures IsHeld(tasks, e)
  {
    assert tasks[i] in tasks;
  }

  lemma NewVisitIsCovered(s: Shared, tasks: seq<Task>, i: nat, l: Local, id: int, visit: ContractsState)
    requires Covered(s, tasks, id) && Balanced(s, tasks, id) && i < |tasks|
    requires CarriesOn(tasks[i], Lookup(s.signing, tasks[i].listed.id), l) && l.task.listed == tasks[i].listed
    requires tasks[i].listed.id == id && visit in Visits(l.effects, id)
    ensures IsSigned(s.log + l.effects, id, visit) || IsStuck(tasks[i := l.task], id, visit)
  {
    hide IsUnsigned, IsUnsent, Visits, UnsentMessage, SignedState, UnsignedState, IsSigned, IsStuck, SameState;
    var state, next := Lookup(s.signing, id), tasks[i := l.task];
    if state.Some? && SameState(visit, state.value) {
      assert state.value in Visits(s.log, id);
      VisitStaysCovered(s.log, tasks, i, state, l, id, state.value);
      SameCovers(s.log + l.effects, next, id, state.value, visit);
    } else {
      StuckItself(next, i, id, visit);
    }
  }

  lemma StuckItself(tasks: seq<Task>, i: nat, id: int, visit: ContractsState)
    requires i < |tasks| && tasks[i].listed.id == id && IsUnsigned(tasks[i].pc) && UnsignedState(tasks[i]) == visit
    ensures IsStuck(tasks, id, visit)
  {
    assert tasks[i] in tasks;
  }

  // ---- Every run.

  ghost predicate Answered(sys: System, id: int)
  {
    AddsUp(sys, id) && Covered(sys.shared, sys.tasks, id)
  }

  lemma MoreTasksCover(s: Shared, tasks: seq<Task>, more: seq<Task>, id: int)
    requires Covered(s, tasks, id)
    ensures Covered(s, tasks + more, id)
  {
    hide SameState, UnsignedState, UnsentMessage, IsUnsigned, IsUnsent, Visits, IsSigned, IsSent;
    var all := tasks + more;
    assert forall t <- tasks :: t in all;
  }

  lemma PingCovers(s: Shared, tasks: seq<Task>, ping: Message, id: int)
    requires Covered(s, tasks, id) && ping.PingMessage?
    ensures Covered(s.(log := s.log + Delivered(ping)), tasks, id)
  {
    hide SameState, SignedState, UnsignedState, UnsentMessage, IsUnsigned, IsUnsent, Visits, IsStuck, IsHeld;
    PingIsNoVisit(s.log, ping, id);
    var log := s.log + Delivered(ping);
    assert forall e <- s.log :: e in log;
    forall visit <- Visits(s.log, id) | IsSigned(s.log, id, visit)
      ensures IsSigned(log, id, visit)
    {}
    forall e <- s.log | e.SignedDeposit? && IsSent(s.log, e)
      ensures IsSent(log, e)
    {}
  }

  lemma StepAnswers(sys: System, action: Action, env: Env, id: int)
    requires Answered(sys, id)
    ensures Answered(Step(sys, action, env), id)
  {
    hide DepositRuns.Step, DepositRuns.ReadAt, CurrentBlockData, TaskStep, Ids, Spawned, Left, IsNeedToProcessNewState,
      Delivered, Covered, OwnModule, Balanced;
    StepAccounts(sys, action, env, id);
    match action
    case Await(i, reply) =>
      if i < |sys.tasks| {
        AwaitCovers(sys.shared, sys.tasks, i, reply, id);
      }
    case Collect(_, _, _) =>
      var next := Step(sys, action, env);
      if next.cycle.Checking? && sys.cycle.Refreshed? {
        MoreTasksCover(sys.shared, sys.tasks, Spawned(next.cycle.data, sys.cycle.modules), id);
      }
    case Ping(_) =>
      if sys.cycle.Checking? && sys.cycle.first <= |sys.tasks| {
        PingCovers(sys.shared, sys.tasks, PingMessage(sys.cycle.data.block, sys.cycle.data.guardianIndex,
          Ids(sys.tasks[sys.cycle.first..])), id);
      }
    case PauseSettles(i) => CoveredIgnoresPauses(sys.shared, Left(sys.shared.pausing, i), sys.tasks, id);
    case Index(_) => NothingToCover(Shared(map[], map[], Free(), []), [], id);
    case _ =>
  }

  lemma CoveredIgnoresPauses(s: Shared, pausing: Lock<PauseCall>, tasks: seq<Task>, id: int)
    requires Covered(s, tasks, id)
    ensures Covered(s.(pausing := pausing), tasks, id)
  {}

  lemma NothingToCover(s: Shared, tasks: seq<Task>, id: int)
    requires s.log == []
    ensures Covered(s, tasks, id)
  {}

  lemma {:induction false} RunAnswers(sys: System, actions: seq<Action>, env: Env, id: int)
    requires Answered(sys, id)
    ensures Answered(Run(sys, actions, env), id)
    decreases |actions|
  {
    hide Answered, Step;
    if actions != [] {
      StepAnswers(sys, actions[0], env, id);
      RunAnswers(Step(sys, actions[0], env), actions[1..], env, id);
    }
  }

  /** In every run, whatever is answered: every remembered state is signed or stuck, every signature sent or held. */
  lemma EveryStateIsSigned(tip: Block, actions: seq<Action>, env: Env, id: int)
    ensures var sys := Run(Fresh(tip), actions, env);
            && (forall visit <- Visits(sys.shared.log, id) ::
                  IsSigned(sys.shared.log, id, visit) || IsStuck(sys.tasks, id, visit))
            && (forall e <- sys.shared.log :: e.SignedDeposit? && e.id == id ==>
              IsSent(sys.shared.log, e) || IsHeld(sys.tasks, e))
  {
    hide Run, IsSigned, IsStuck, IsSent, IsHeld;
    RunAnswers(Fresh(tip), actions, env, id);
  }

  lemma {:induction false} RememberedIsVisit(log: seq<Effect>, id: int, block: Block, state: ContractsState)
    requires Remembered(id, block, state) in log
    ensures state in Visits(log, id)
  {
    if log[0] != Remembered(id, block, state) {
      RememberedIsVisit(log[1..], id, block, state);
    }
  }

  function MessageState(message: Message): ContractsState
    requires message.DepositMessage?
  {
    ContractsState(message.nonce, message.depositRoot, Number(message.block))
  }

  /** The module has no task that is stuck at this state or holds a message of it. */
  ghost predicate NothingOpen(tasks: seq<Task>, id: int, state: ContractsState)
  {
    && !IsStuck(tasks, id, state)
    && forall t <- tasks :: t.listed.id == id ==>
         && (IsUnsent(t.pc) ==> !SameState(MessageState(UnsentMessage(t)), state))
         && !(t.data.guardianIndex == -1 && t.data.depositRoot == state.depositRoot
              && Number(t.data.block) / 10 == state.blockNumber / 10)
  }

  /**
   When a block is recorded in an honest run, every clean module of the cycle has its state of that block signed
   in the log of the process, or is stuck at just that signature. Where nothing of this state is open, a message
   with its root and its nonce, and a block of the same bucket, has been sent.
   */
  lemma ProcessedCleanIsSigned(tip: Block, actions: seq<Action>, action: Action, env: Env, i: nat)
    requires HonestRun(Fresh(tip), actions, env) && NonceDeterminesVerdicts(Scanned(env), env.deployment)
    requires var sys := Run(Fresh(tip), actions, env);
             && Step(sys, action, env).processed != sys.processed && Step(sys, action, env).processed != []
             && sys.cycle.Checking? && sys.cycle.first <= i < |sys.tasks|
             && TrueVerdict(sys.tasks[i].data.block, sys.tasks[i].listed.id, env.deployment) == Clean
    ensures var sys := Run(Fresh(tip), actions, env);
            var block, id := sys.tasks[i].data.block, sys.tasks[i].listed.id;
            var state := StateAt(block, id);
            && block == sys.cycle.data.block
            && (IsSigned(sys.shared.log, id, state) || IsStuck(sys.tasks, id, state))
            && (NothingOpen(sys.tasks, id, state) ==>
                  exists sent <- sys.shared.log ::
                    && sent.Sent? && sent.message.DepositMessage? && sent.message.id == id
                    && SameState(MessageState(sent.message), state))
  {
    hide Run, HonestRun, NonceDeterminesVerdicts, TrueVerdict, StateAt, Step, IsUnsigned,
      IsUnsent;
    var sys := Run(Fresh(tip), actions, env);
    FreshInv(tip, env);
    RunKeepsInv(Fresh(tip), actions, env);
    ProcessedOnlyAfterAll(sys, action, env);
    var block, id := sys.tasks[i].data.block, sys.tasks[i].listed.id;
    var state := StateAt(block, id);
    RememberedIsVisit(sys.shared.log, id, block, state);
    EveryStateIsSigned(tip, actions, env, id);
    if NothingOpen(sys.tasks, id, state) {
      var sent := SignedIsSent(sys.shared.log, sys.tasks, id, state);
    }
  }

  lemma SignedIsSent(log: seq<Effect>, tasks: seq<Task>, id: int, state: ContractsState) returns (sent: Effect)
    requires NothingOpen(tasks, id, state) && (IsSigned(log, id, state) || IsStuck(tasks, id, state))
    requires forall e <- log :: e.SignedDeposit? && e.id == id ==> IsSent(log, e) || IsHeld(tasks, e)
    ensures sent in log && sent.Sent? && sent.message.DepositMessage? && sent.message.id == id
    ensures SameState(MessageState(sent.message), state)
  {
    hide IsUnsigned, IsUnsent, UnsentMessage, UnsignedState;
    var e :| e in log && e.SignedDeposit? && e.id == id && SameState(SignedState(e), state);
    assert !IsHeld(tasks, e);
    sent :| sent in log && sent.Sent? && Announces(sent.message, e);
  }
}
