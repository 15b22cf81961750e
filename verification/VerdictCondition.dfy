/**
 The exact condition for the end-to-end verdict. In every honest run everything is right if and only if, among
 the blocks the Keys API reports, the keys of a module at one give its verdict at any other with its nonce.
 */
module VerdictCondition {
  import opened Wrappers
  import opened Chain
  import opened StakingRouter
  import opened StakingModuleGuard
  import opened BlockGuard
  import opened GuardianTasks
  import opened GuardianService
  import opened GuardianSystem
  import opened GuardianCycle
  import opened ModuleCheck

  /** The blocks are of one network. */
  ghost predicate OneNetwork(blocks: set<Block>)
  {
    forall a, b | a in blocks && b in blocks :: Ancestor(a, 0) == Ancestor(b, 0)
  }

  /** Whatever happens, every verdict, remembered state, signature and message is right. */
  ghost predicate AlwaysRight(env: Env)
  {
    forall tip: Block, actions: seq<Action>, effect: Effect |
      HonestRun(Fresh(tip), actions, env) && effect in TraceOf(Run(Fresh(tip), actions, env)) ::
      RightEffect(effect, env.deployment)
  }

  /** The keys are fetched, and then the task fails before it comes to a verdict. */
  function KeysOnly(block: Block): Replies
  {
    AllAnswered(block).(paused := Rejected)
  }

  lemma KeysAreCached(s: Shared, data: BlockData, id: int)
    requires s.keyCache == map[]
    ensures var end := RunAlone(s, Task(data, ListedAt(data.block, id), Starting), KeysOnly(data.block));
            && end.1.pc.Failed? && Lookup(end.0.keyCache, id) == Some(UnusedModuleKeys(data.block, id))
  {
    hide ModuleAt;
    var block, replies := data.block, KeysOnly(data.block);
    var t := Task(data, ListedAt(block, id), Starting);
    Untouched(s, id);
    var fetching, asking := t.(pc := FetchingKeys), t.(pc := AskingPaused(UnusedModuleKeys(block, id)));
    var fetched := s.(keyCache := s.keyCache[id := UnusedModuleKeys(block, id)]);
    assert TaskStep(s, t, replies.send) == (s, fetching);
    assert TaskStep(s, fetching, replies.keys) == (fetched, asking);
    var failed := asking.(pc := Pc.Failed(asking.pc));
    Untouched(fetched, id);
    assert TaskStep(fetched, asking, replies.paused) == (fetched, failed);
    assert RunAlone(fetched, asking, replies) == RunAlone(fetched, failed, replies) == (fetched, failed);
    assert RunAlone(s, t, replies) == RunAlone(s, fetching, replies) == RunAlone(fetched, asking, replies);
  }

  /** A hit comes to the verdict of the cached keys. */
  lemma CachedKeysDecide(s: Shared, data: BlockData, id: int, keys: KeysResponse, deployment: nat)
    requires Lookup(s.keyCache, id) == Some(keys) && keys.nonce == ModuleAt(data.block, id).nonce
        && TrueData(data, deployment)
    ensures Decided(id, data.block, VerdictWith(data.block, id, keys.keys, deployment))
         in RunAlone(s, Task(data, ListedAt(data.block, id), Starting), AllAnswered(data.block)).0.log
  {
    hide VerdictWith, ModuleAt, Scan, AnsweredAfterKeys, SignedAndSent;
    var block, answered := data.block, AllAnswered(data.block);
    var t := Task(data, ListedAt(block, id), Starting);
    Untouched(s, id);
    var asking := t.(pc := AskingPaused(keys));
    assert TaskStep(s, t, answered.send) == (s, asking);
    assert RunAlone(s, t, answered) == RunAlone(s, asking, answered);
    AskingSteps(s, asking, keys, answered, deployment);
    assert AnsweredAfterKeys(data, keys.keys, answered) by { AllAnsweredAfterKeys(data, keys.keys); }
    var log := RunAlone(s, asking, answered).0.log;
    assert log[|s.log|] == Decided(id, block, VerdictWith(block, id, keys.keys, deployment));
  }

  lemma AllAnsweredAfterKeys(data: BlockData, keys: seq<string>)
    ensures AnsweredAfterKeys(data, keys, AllAnswered(data.block))
  {}

  /**
   The run for two blocks of one network with one nonce: a cycle at the first caches the keys and fails, a cycle
   at the second comes to the verdict these keys give.
   */
  lemma StaleVerdict(a: Block, b: Block, id: int, env: Env) returns (actions: seq<Action>)
    requires a in Scanned(env) && b in Scanned(env) && Ancestor(a, 0) == Ancestor(b, 0)
    requires ModuleAt(a, id).nonce == ModuleAt(b, id).nonce
    ensures var tip := Ancestor(a, 0);
            && HonestRun(Fresh(tip), actions, env)
            && Decided(id, b, VerdictWith(b, id, ModuleAt(a, id).unusedKeys, env.deployment)) in TraceOf(Run(Fresh(tip),
              actions, env))
  {
    hide Run, HonestRun, RunAlone, Idles, IndexOf, Scan, VerdictWith, AllAnswered, KeysOnly, ModuleAt;
    var tip := Ancestor(a, 0);
    assert Fresh(tip).world.settled == tip;
    assert OnChain(tip, a) && OnChain(tip, b);
    var boot := Boots(tip, env);
    var booted := Run(Fresh(tip), boot, env);
    var one := CycleRuns(booted, a, ListedAt(a, id), KeysOnly(a), false, env);
    KeysAreCached(booted.shared, DataAt(a, env), id);
    var cached := Run(booted, one, env);
    var two := CycleRuns(cached, b, ListedAt(b, id), AllAnswered(b), false, env);
    CachedKeysDecide(cached.shared, DataAt(b, env), id, UnusedModuleKeys(a, id), env.deployment);
    RunConcat(Fresh(tip), boot, one, env);
    RunConcat(Fresh(tip), boot + one, two, env);
    actions := boot + one + two;
  }

  /** The exact condition: every honest run is right if and only if nonces determine verdicts. */
  lemma RightIffNonceDeterminesVerdicts(env: Env)
    requires OneNetwork(env.seen)
    ensures AlwaysRight(env) <==> NonceDeterminesVerdicts(Scanned(env), env.deployment)
  {
    hide Run, HonestRun, VerdictWith, ModuleAt, Ancestor;
    if NonceDeterminesVerdicts(Scanned(env), env.deployment) {
      forall tip: Block, actions: seq<Action>, effect: Effect |
        HonestRun(Fresh(tip), actions, env) && effect in TraceOf(Run(Fresh(tip), actions, env))
        ensures RightEffect(effect, env.deployment)
      {
        EveryVerdictIsTrue(tip, actions, env, effect);
      }
    } else {
      var a, b, id :| a in Scanned(env) && b in Scanned(env) && ModuleAt(a, id).nonce == ModuleAt(b, id).nonce
                      && VerdictWith(b, id, ModuleAt(a, id).unusedKeys, env.deployment) != TrueVerdict(b, id,
                        env.deployment);
      var actions := StaleVerdict(a, b, id, env);
      var effect := Decided(id, b, VerdictWith(b, id, ModuleAt(a, id).unusedKeys, env.deployment));
      assert !RightEffect(effect, env.deployment);
      assert effect in TraceOf(Run(Fresh(Ancestor(a, 0)), actions, env));
    }
  }
}
