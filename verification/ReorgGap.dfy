/**
 What the condition on nonces in GuardianSystem is for. Both branches of a fork obey the rule that a
 module's nonce changes with its keys, every log and every answer is right, and still a daemon that started
 on a fresh machine signs a deposit under attack.
 */
module ReorgGap {
  import opened Wrappers
  import opened Chain
  import opened OneAtTime
  import opened StakingRouter
  import opened StakingModuleGuard
  import opened BlockGuard
  import opened GuardianTasks
  import opened GuardianService
  import opened GuardianSystem
  import opened GuardianCycle
  import opened ModuleCheck

  const ID := 1
  const ATTACK := Deposit("b", "attacker", "", "", "", true)
  const ROOT := Contracts("before", "lido", ["guardian"], map[ID := Module(0, [], true)])

  function Branch(salt: int, key: string, depositRoot: string, deposits: seq<Deposit>): Block
  {
    Block(Genesis(ROOT), salt, deposits, ROOT.(depositRoot := depositRoot,
      modules := map[ID := Module(1, [key], true)]))
  }

  /** The branch that was reorganised away, where the key of the module was "a". */
  const STALE := Branch(0, "a", "before", [])

  /** The branch that stays, where the key is "b" and somebody has deposited it. */
  const CURRENT := Branch(1, "b", "after", [ATTACK])

  const ENV := Env(0, "guardian", {STALE, CURRENT})

  lemma BothBranchesFollowTheRule()
    ensures CountsChanges(STALE) && CountsChanges(CURRENT) && ModuleAt(STALE, ID).nonce == ModuleAt(CURRENT, ID).nonce
  {
    assert CountsChanges(STALE.parent) && CountsChanges(CURRENT.parent);
  }

  lemma CurrentIsAttacked()
    ensures TrueVerdict(CURRENT, ID, 0) == Attacked
  {
    var e := EventOf(CURRENT, ATTACK);
    assert Number(CURRENT.parent) == 0;
    assert Number(CURRENT) == 1;
    assert Ancestor(CURRENT, Number(CURRENT)) == CURRENT;
    assert BlockEvents(CURRENT)[0] == e;
    ScanMembers(CURRENT, 1, 1, e);
    assert ModuleAt(CURRENT, ID).unusedKeys[0] == e.pubkey;
    assert "attacker"[0] != "lido"[0];
  }

  /** With the keys of the stale branch nothing intersects on the current one. */
  lemma StaleKeysSeeNothing()
    ensures ValidIntersections(KeysIntersections(Scan(CURRENT, 1, 1), UnusedModuleKeys(STALE, ID).keys)) == []
  {
    var events, keys := Scan(CURRENT, 1, 1), ["a"];
    assert UnusedModuleKeys(STALE, ID).keys == keys;
    forall e <- events
      ensures e.pubkey !in keys
    {
      ScanMembers(CURRENT, 1, 1, e);
      assert Number(CURRENT.parent) == 0;
      assert Number(CURRENT) == 1;
      assert Ancestor(CURRENT, Number(CURRENT)) == CURRENT;
      assert e in BlockEvents(CURRENT);
      assert e.pubkey[0] == 'b';
    }
  }

  /** From these keys in the cache the task signs, unless it has signed this state before. */
  lemma StaleKeysSign(s: Shared)
    requires Lookup(s.keyCache, ID) == Some(UnusedModuleKeys(STALE, ID))
    requires !IsRemembered(StateAt(CURRENT, ID), Lookup(s.signing, ID))
    ensures var t := Task(DataAt(CURRENT, ENV), ListedAt(CURRENT, ID), Starting);
            SignedDeposit(ID, CURRENT, "after", 1) in RunAlone(s, t, AllAnswered(CURRENT)).0.log
  {
    hide IndexOf, Scan, KeysIntersections, ValidIntersections, AttackIntersections, IsSameContractsStates;
    StaleKeysSeeNothing();
    ComparesWhatIsSigned(StateAt(CURRENT, ID), Lookup(s.signing, ID));
    assert Number(CURRENT.parent) == 0;
    assert Number(CURRENT) == 1;
    var data, reply, answered := DataAt(CURRENT, ENV), AnsweredAt(CURRENT), AllAnswered(CURRENT);
    var keys := UnusedModuleKeys(STALE, ID);
    var t := Task(data, ListedAt(CURRENT, ID), Starting);
    Untouched(s, ID);
    var asking := t.(pc := AskingPaused(keys));
    assert TaskStep(s, t, reply) == (s, asking);
    var m := ModuleDataOf(asking, keys);
    var decided := TaskStep(s, asking, reply);
    assert decided.1.pc == SigningDeposit(m);
    var signed := TaskStep(decided.0, decided.1, reply);
    var effect := SignedDeposit(ID, CURRENT, "after", 1);
    assert signed.0.log == decided.0.log + [effect];
    assert Last(signed.0.log) == effect;
    RunAloneGrows(signed.0, signed.1, answered);
    assert RunAlone(s, t, answered) == RunAlone(s, asking, answered) == RunAlone(decided.0, decided.1, answered)
        == RunAlone(signed.0, signed.1, answered);
  }

  /** After a cycle on the stale branch the keys and the state of that branch are cached. */
  lemma StaleIsCached(s: Shared)
    requires s == Shared(map[], map[], Free(), [])
    ensures var end := RunAlone(s, Task(DataAt(STALE, ENV), ListedAt(STALE, ID), Starting), AllAnswered(STALE));
            && end.1.pc.Finished? && Lookup(end.0.keyCache, ID) == Some(UnusedModuleKeys(STALE, ID))
            && !IsRemembered(StateAt(CURRENT, ID), Lookup(end.0.signing, ID))
  {
    hide RunAlone, IndexOf, Scan, UnusedModuleKeys, TrueVerdict;
    CheckSteps(s, DataAt(STALE, ENV), ID, AllAnswered(STALE), {STALE}, 0);
    AnsweredFinishes(s, Task(DataAt(STALE, ENV), ListedAt(STALE, ID), Starting));
    assert "after"[0] != "before"[0];
  }

  /**
   The run: the daemon boots, completes a cycle on the stale branch, sees the head move to the other branch,
   and completes a cycle there. Everything it is answered is right, and it signs the deposit of a module
   that is attacked.
   */
  lemma SignedUnderAttack() returns (actions: seq<Action>)
    ensures HonestRun(Fresh(STALE), actions, ENV)
    ensures SignedDeposit(ID, CURRENT, "after", 1) in TraceOf(Run(Fresh(STALE), actions, ENV))
    ensures TrueVerdict(CURRENT, ID, ENV.deployment) == Attacked
    ensures Run(Fresh(STALE), actions, ENV).processed == [STALE, CURRENT]
  {
    hide RunAlone, Run, HonestRun, IndexOf, Scan, TrueVerdict, AllAnswered;
    CurrentIsAttacked();
    var root := Genesis(ROOT);
    assert Number(root) == 0 && Number(STALE) == 1 && Number(CURRENT) == 1;
    assert Ancestor(STALE, 0) == Ancestor(root, 0) == root && Ancestor(CURRENT, 0) == Ancestor(root, 0) == root;
    var boot := Boots(STALE, ENV);
    var booted := Run(Fresh(STALE), boot, ENV);
    assert booted.world.settled == root;
    var one := CycleRuns(booted, STALE, ListedAt(STALE, ID), AllAnswered(STALE), true, ENV);
    StaleIsCached(booted.shared);
    var stale := Run(booted, one, ENV);
    var advance := Index(DepositRuns.Advance(CURRENT));
    var advanced := Step(stale, advance, ENV);
    OneStep(stale, advance, ENV);
    assert STALE != CURRENT;
    var two := CycleRuns(advanced, CURRENT, ListedAt(CURRENT, ID), AllAnswered(CURRENT), true, ENV);
    StaleKeysSign(advanced.shared);
    AnsweredFinishes(advanced.shared, Task(DataAt(CURRENT, ENV), ListedAt(CURRENT, ID), Starting));
    RunConcat(Fresh(STALE), boot, one, ENV);
    RunConcat(Fresh(STALE), boot + one, [advance], ENV);
    RunConcat(Fresh(STALE), boot + one + [advance], two, ENV);
    actions := boot + one + [advance] + two;
  }
}
