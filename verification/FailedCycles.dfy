/**
 What cycles that fail can do, as runs of the daemon on a chain where nothing ever changes: sign a module any
 number of times, and never sign a module that is clean.
 */
module FailedCycles {
  import opened Wrappers
  import opened Chain
  import opened StakingRouter
  import opened StakingModuleGuard
  import opened BlockGuard
  import opened GuardianTasks
  import opened GuardianService
  import opened GuardianSystem
  import opened GuardianCycle
  import opened ModuleCheck
  import opened Resigning

  /** A chain without deposits on which the contracts always answer the same. */
  function Straight(n: nat, state: Contracts): (b: Block)
    ensures Number(b) == n && ContractsAt(b) == state
  {
    if n == 0 then Genesis(state) else Block(Straight(n - 1, state), 0, [], state)
  }

  lemma {:induction false} StraightIsOneChain(a: nat, b: nat, state: Contracts)
    requires a <= b
    ensures Ancestor(Straight(b, state), a) == Straight(a, state) && OnChain(Straight(a, state), Straight(b, state))
    decreases b
  {
    if a < b {
      StraightIsOneChain(a, b - 1, state);
    }
  }

  lemma {:induction false} NothingIsLogged(n: nat, first: int, last: int, state: Contracts)
    ensures Scan(Straight(n, state), first, last) == []
    decreases last - first
  {
    if first <= last {
      NothingIsLogged(n, first, last - 1, state);
      if 0 <= last <= n {
        StraightIsOneChain(last, n, state);
      }
    }
  }

  /** An active module is clean there. */
  lemma StraightIsClean(n: nat, state: Contracts, id: int)
    requires id in state.modules && state.modules[id].active
    ensures TrueVerdict(Straight(n, state), id, 0) == Clean
  {
    NothingIsLogged(n, 1, n, state);
  }

  /** The guardian is in the list, and the Keys API is at block `a` or `b`. */
  function EnvOf(state: Contracts, a: nat, b: nat): Env
    requires state.guardians != []
  {
    Env(0, state.guardians[0], {Straight(a, state), Straight(b, state)})
  }

  lemma StraightDeterminesKeys(state: Contracts, a: nat, b: nat)
    requires state.guardians != []
    ensures NonceDeterminesKeys(EnvOf(state, a, b).seen)
  {}

  /** The daemon idles on this chain, and its key cache is truthful. */
  ghost predicate OnStraight(sys: System, state: Contracts, env: Env)
  {
    Idles(sys) && sys.world.settled == Straight(0, state) && Truthful(sys.shared.keyCache, env.seen)
  }

  /** One cycle over one module that is clean: what it adds to the log and to the memory. */
  lemma CleanCycle(sys: System, n: nat, state: Contracts, id: int, replies: Replies, sent: bool, a: nat, b: nat)
      returns (actions: seq<Action>)
    requires state.guardians != [] && id in state.modules && state.modules[id].active && (n == a || n == b)
    requires OnStraight(sys, state, EnvOf(state, a, b)) && IsNeedToProcessNewState(LastMeta(sys.processed),
        MetaOf(Straight(n, state)))
    requires replies.keys == replies.paused == replies.credentials == replies.send == AnsweredAt(Straight(n, state))
    ensures var env, block := EnvOf(state, a, b), Straight(n, state);
            var end, current := Run(sys, actions, env), StateAt(block, id);
            var isSame := IsRemembered(current, Lookup(sys.shared.signing, id));
            && HonestRun(sys, actions, env) && OnStraight(end, state, env)
            && end.shared.signing == sys.shared.signing[id := current] && end.former == sys.former
            && SignaturesIn(end.shared.log, id) == SignaturesIn(sys.shared.log, id)
              + One(!isSame && !replies.sign.Rejected?)
            && Visits(end.shared.log, id) == Visits(sys.shared.log, id) + [current]
            && end.processed == sys.processed + if sent && (isSame || !replies.sign.Rejected?) then [block] else []
  {
    hide Idles, Scan, RunAlone, TrueVerdict, Run, HonestRun, StateAt, Truthful, NonceDeterminesKeys,
      IsRemembered, Visits, SignaturesIn, AnsweredAfterKeys;
    var env, block := EnvOf(state, a, b), Straight(n, state);
    StraightIsOneChain(0, n, state);
    StraightIsClean(n, state, id);
    StraightDeterminesKeys(state, a, b);
    var m, data := ListedAt(block, id), DataAt(block, env);
    actions := CycleRuns(sys, block, m, replies, sent, env);
    var t := Task(data, m, Starting);
    var run := RunAlone(sys.shared, t, replies);
    CheckSteps(sys.shared, data, id, replies, env.seen, 0);
    assert Reaches(sys.shared, data, id, replies) by { Straightforward(data, ModuleAt(block, id).unusedKeys, replies); }
    assert data.guardianIndex != -1 by { assert env.address in ContractsAt(block).guardians; }
    var isSame := IsRemembered(StateAt(block, id), Lookup(sys.shared.signing, id));
    var effects := ExpectedEffects(data, id, Clean, isSame, replies);
    ExpectedSignatures(data, id, Clean, isSame, replies, id);
    SignaturesInConcat(sys.shared.log, effects, id);
    VisitsConcat(sys.shared.log, effects, id);
    ExpectedVisits(data, id, isSame, replies);
    PingIsNoVisit(run.0.log, PingOf(data, [m]), id);
    SignaturesInConcat(run.0.log, Delivered(PingOf(data, [m])), id);
    PingIsNoSignature(PingOf(data, [m]), id);
  }

  lemma Straightforward(data: BlockData, keys: seq<string>, replies: Replies)
    requires !replies.paused.Rejected? && !replies.credentials.Rejected?
    ensures AnsweredAfterKeys(data, keys, replies)
  {}

  lemma PingIsNoSignature(ping: Message, id: int)
    requires ping.PingMessage?
    ensures SignaturesIn(Delivered(ping), id) == 0
  {
    EmptyCounts(id);
    SingleCounts(Sent(ping), id);
  }

  lemma ExpectedVisits(data: BlockData, id: int, isSame: bool, replies: Replies)
    ensures Visits(ExpectedEffects(data, id, Clean, isSame, replies), id) == [StateAt(data.block, id)]
  {
    hide StateAt;
    var effects := ExpectedEffects(data, id, Clean, isSame, replies);
    var rest := effects[2..];
    assert effects == [effects[0]] + ([effects[1]] + rest);
    SingleCounts(effects[0], id);
    SingleCounts(effects[1], id);
    VisitsConcat([effects[0]], [effects[1]] + rest, id);
    VisitsConcat([effects[1]], rest, id);
    if rest != [] {
      assert Visits(rest, id) == Visits(rest[1..], id);
      if |rest| > 1 {
        assert Visits(rest[1..], id) == Visits(rest[1..][1..], id) == [];
      }
    }
  }

  // ---- No bound.

  /** The block of the k-th cycle from the last: the Keys API alternates between blocks 10 and 9. */
  function Height(k: nat): nat
  {
    if k % 2 == 0 then 10 else 9
  }

  /** The visits so far are all to these two blocks, with this root and this nonce. */
  ghost predicate NothingChanges(visits: seq<ContractsState>, state: Contracts, id: int)
    requires id in state.modules
  {
    forall visit <- visits :: visit.depositRoot == state.depositRoot && visit.nonce == state.modules[id].nonce
      && 9 <= visit.blockNumber <= 10
  }

  lemma {:induction false} Flaps(sys: System, k: nat, state: Contracts, id: int) returns (actions: seq<Action>)
    requires state.guardians != [] && id in state.modules && state.modules[id].active
    requires OnStraight(sys, state, EnvOf(state, 9, 10)) && sys.processed == []
    requires id in sys.shared.signing ==> Bucket(sys.shared.signing[id].blockNumber) != Bucket(Height(k))
    requires NothingChanges(Visits(sys.shared.log, id), state, id)
    ensures var end := Run(sys, actions, EnvOf(state, 9, 10));
            && HonestRun(sys, actions, EnvOf(state, 9, 10)) && end.former == sys.former
            && SignaturesIn(end.shared.log, id) == SignaturesIn(sys.shared.log, id) + k
            && NothingChanges(Visits(end.shared.log, id), state, id) && end.processed == []
    decreases k
  {
    hide Idles, Truthful, Visits, SignaturesIn, HonestRun, Run;
    var env := EnvOf(state, 9, 10);
    if k == 0 {
      actions := [];
      NoActions(sys, env);
    } else {
      var n := Height(k);
      var block := Straight(n, state);
      var cycle := CleanCycle(sys, n, state, id, AllAnswered(block), false, 9, 10);
      var next := Run(sys, cycle, env);
      assert StateAt(block, id) == ContractsState(state.modules[id].nonce, state.depositRoot, n);
      var rest := Flaps(next, k - 1, state, id);
      RunConcat(sys, cycle, rest, env);
      actions := cycle + rest;
    }
  }

  lemma NoActions(sys: System, env: Env)
    ensures Run(sys, [], env) == sys && HonestRun(sys, [], env)
  {}

  /**
   No bound under failed cycles: on a chain where nothing changes, a process whose pings fail signs one and the
   same module k times, for any k, at two blocks that are next to each other.
   */
  lemma NoBoundUnderFailures(k: nat, state: Contracts, id: int) returns (actions: seq<Action>)
    requires state.guardians != [] && id in state.modules && state.modules[id].active
    ensures var env := EnvOf(state, 9, 10);
            var end := Run(Fresh(Straight(10, state)), actions, env);
            && HonestRun(Fresh(Straight(10, state)), actions, env)
            && SignaturesIn(end.shared.log, id) == k
            && NothingChanges(Visits(end.shared.log, id), state, id) && end.processed == []
  {
    hide HonestRun, Run, Idles, Straight;
    var env, tip := EnvOf(state, 9, 10), Straight(10, state);
    StraightIsOneChain(0, 10, state);
    var boot := Boots(tip, env);
    var booted := Run(Fresh(tip), boot, env);
    var flaps := Flaps(booted, k, state, id);
    RunConcat(Fresh(tip), boot, flaps, env);
    actions := boot + flaps;
  }

  // ---- Never signed.

  /**
   A rejected signature is not made up for: the state was remembered before, so a later cycle over the same
   state completes, its block is recorded, the module is clean, and its deposit was never signed.
   */
  lemma RejectedIsNeverSigned(state: Contracts, id: int) returns (actions: seq<Action>)
    requires state.guardians != [] && id in state.modules && state.modules[id].active
    ensures var env := EnvOf(state, 1, 2);
            var end := Run(Fresh(Straight(2, state)), actions, env);
            && HonestRun(Fresh(Straight(2, state)), actions, env)
            && end.processed == [Straight(2, state)] && TrueVerdict(Straight(2, state), id, env.deployment) == Clean
            && SignaturesIn(TraceOf(end), id) == 0
  {
    hide HonestRun, Run, Idles, Straight, TrueVerdict;
    var env, tip := EnvOf(state, 1, 2), Straight(2, state);
    StraightIsOneChain(0, 2, state);
    StraightIsClean(2, state, id);
    var boot := Boots(tip, env);
    var booted := Run(Fresh(tip), boot, env);
    var early := Straight(1, state);
    var one := CleanCycle(booted, 1, state, id, AllAnswered(early).(sign := Rejected), true, 1, 2);
    var failed := Run(booted, one, env);
    var two := CleanCycle(failed, 2, state, id, AllAnswered(tip), true, 1, 2);
    RunConcat(Fresh(tip), boot, one, env);
    RunConcat(Fresh(tip), boot + one, two, env);
    actions := boot + one + two;
    var end := Run(failed, two, env);
    assert TraceOf(end) == [] + end.shared.log == end.shared.log;
  }
}
