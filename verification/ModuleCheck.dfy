/**
 What the check of a module comes to, whatever its requests are answered: from the logs and the keys of a
 block, exactly the verdict of TrueVerdict, and exactly the signatures, messages and memory that go with it.
 */
module ModuleCheck {
  import opened Wrappers
  import opened Chain
  import opened OneAtTime
  import opened StakingRouter
  import opened StakingModuleGuard
  import opened GuardianTasks
  import opened GuardianService

  /** The signature and then the message, as far as signing and sending go. */
  function SignedAndSent(signature: Effect, message: Message, replies: Replies): seq<Effect>
  {
    if replies.sign.Rejected? then []
    else [signature] + if replies.send.Rejected? then [] else Delivered(message)
  }

  /** The verdict is recorded, and with it goes the pause, the remembered state and the deposit, or nothing. */
  ghost function ExpectedEffects(data: BlockData, id: int, verdict: Verdict, isSame: bool,
      replies: Replies): seq<Effect>
  {
    var block, root, nonce := data.block, data.depositRoot, ModuleAt(data.block, id).nonce;
    [Decided(id, block, verdict)]
    + match verdict
      case Paused => []
      case Attacked => SignedAndSent(SignedPause(id, block), PauseMessage(root, nonce, block, data.guardianIndex, id),
        replies)
      case Clean =>
        [Remembered(id, block, StateAt(block, id))]
        + if isSame then []
        else SignedAndSent(SignedDeposit(id, block, root, nonce),
          DepositMessage(root, nonce, block, data.guardianIndex, id), replies)
  }

  predicate SignsAndSends(data: BlockData, replies: Replies)
  {
    !replies.sign.Rejected? && (!replies.send.Rejected? || data.guardianIndex == -1)
  }

  /** The end of the check of a module that reaches this verdict. */
  ghost predicate EndsAs(s: Shared, data: BlockData, id: int, verdict: Verdict, replies: Replies, end: (Shared, Task))
  {
    var current := StateAt(data.block, id);
    var isSame := IsRemembered(current, Lookup(s.signing, id));
    && (if verdict == Paused || (verdict == Clean && isSame)
      || SignsAndSends(data, replies) then end.1.pc.Finished? else end.1.pc.Failed?)
    && end.0.signing == (if verdict == Clean then s.signing[id := current] else s.signing)
    && end.0.log == s.log + ExpectedEffects(data, id, verdict, isSame, replies)
  }

  lemma PauseSteps(s: Shared, t: Task, m: ModuleData, replies: Replies)
    requires t.pc == SigningPause(m) && m.id == t.listed.id
    ensures var end := RunAlone(s, t, replies);
            && (if SignsAndSends(t.data, replies) then end.1.pc.Finished? else end.1.pc.Failed?)
            && end.0.signing == s.signing && end.0.keyCache == s.keyCache
            && end.0.log == s.log + SignedAndSent(SignedPause(m.id, t.data.block), PauseMessageOf(t, m), replies)
  {
    hide Decide, Entered;
    Untouched(s, m.id);
    var signed := TaskStep(s, t, replies.sign);
    if replies.sign.Rejected? {
      assert signed == (s, t.(pc := Pc.Failed(t.pc)));
      assert RunAlone(s, t, replies) == RunAlone(signed.0, signed.1, replies) == signed;
    } else {
      var sending := t.(pc := SendingPause(m));
      assert signed.1 == sending;
      Untouched(signed.0, m.id);
      assert PauseMessageOf(sending, m) == PauseMessageOf(t, m);
      var sent := TaskStep(signed.0, sending, replies.send);
      assert RunAlone(signed.0, sending, replies) == RunAlone(sent.0, sent.1, replies) == sent;
    }
  }

  lemma DepositSteps(s: Shared, t: Task, m: ModuleData, replies: Replies)
    requires t.pc == SigningDeposit(m) && m.id == t.listed.id
    ensures var end := RunAlone(s, t, replies);
            && (if SignsAndSends(t.data, replies) then end.1.pc.Finished? else end.1.pc.Failed?)
            && end.0.signing == s.signing && end.0.keyCache == s.keyCache
            && end.0.log == s.log + SignedAndSent(SignedDeposit(m.id, t.data.block, t.data.depositRoot, m.nonce),
              DepositMessageOf(t, m), replies)
  {
    hide Decide, Entered;
    Untouched(s, m.id);
    var signed := TaskStep(s, t, replies.sign);
    if replies.sign.Rejected? {
      assert signed == (s, t.(pc := Pc.Failed(t.pc)));
      assert RunAlone(s, t, replies) == RunAlone(signed.0, signed.1, replies) == signed;
    } else {
      var sending := t.(pc := SendingDeposit(m));
      assert signed.1 == sending;
      Untouched(signed.0, m.id);
      assert DepositMessageOf(sending, m) == DepositMessageOf(t, m);
      var sent := TaskStep(signed.0, sending, replies.send);
      assert RunAlone(signed.0, sending, replies) == RunAlone(sent.0, sent.1, replies) == sent;
    }
  }

  /** From the verdict on: handleKeysIntersections, handleCorrectKeys or nothing. */
  lemma DecidedSteps(s: Shared, t: Task, m: ModuleData, attacks: seq<Event>, replies: Replies, deployment: nat)
    requires m == ModuleData(t.listed.id, ModuleAt(t.data.block, t.listed.id).nonce, m.unusedKeys,
        !ModuleAt(t.data.block, t.listed.id).active)
    requires TrueData(t.data, deployment)
    requires attacks != [] <==> IsAttack(t.data.events, m.unusedKeys, ContractsAt(t.data.block).lidoWC)
    ensures var id := t.listed.id;
            var l := Decide(Local(t, Lookup(s.keyCache, id), Lookup(s.signing, id), [], []), m, attacks);
            var end := RunAlone(Merged(s, id, l), l.task, replies);
            EndsAs(s, t.data, id, VerdictWith(t.data.block, id, m.unusedKeys, deployment), replies, end)
              && end.0.keyCache == s.keyCache
  {
    hide IsAttack, Scan, SignedAndSent, SignsAndSends, LocalStep, IsRemembered, IsSameContractsStates, ModuleAt,
      ContractsAt;
    var block, id := t.data.block, t.listed.id;
    ComparesWhatIsSigned(StateAt(block, id), Lookup(s.signing, id));
    var l := Decide(Local(t, Lookup(s.keyCache, id), Lookup(s.signing, id), [], []), m, attacks);
    var decided := Merged(s, id, l);
    Untouched(s, id);
    var verdict := VerdictWith(block, id, m.unusedKeys, deployment);
    assert verdict == if m.isDepositsPaused then Paused else if attacks != [] then Attacked else Clean;
    if verdict == Attacked {
      PauseSteps(decided, l.task, m, replies);
    } else if l.task.pc.SigningDeposit? {
      DepositSteps(decided, l.task, m, replies);
    }
  }

  /** The requests after the keys are answered; the credentials are asked for only if some intersection is valid. */
  predicate AnsweredAfterKeys(data: BlockData, keys: seq<string>, replies: Replies)
  {
    !replies.paused.Rejected? && (!replies.credentials.Rejected?
      || ValidIntersections(KeysIntersections(data.events, keys)) == [])
  }

  /** Nothing is signed, sent or remembered. */
  ghost predicate EndsBefore(s: Shared, end: (Shared, Task))
  {
    end.1.pc.Failed? && end.0.signing == s.signing && end.0.log == s.log
  }

  /** From the keys on, whatever they are: the filters find an attack on them exactly where there is one. */
  lemma AskingSteps(s: Shared, t: Task, keys: KeysResponse, replies: Replies, deployment: nat)
    requires t.pc == AskingPaused(keys) && TrueData(t.data, deployment)
    requires keys.nonce == ModuleAt(t.data.block, t.listed.id).nonce
    ensures var end := RunAlone(s, t, replies);
            && (if AnsweredAfterKeys(t.data, keys.keys, replies) then
                  EndsAs(s, t.data, t.listed.id, VerdictWith(t.data.block, t.listed.id, keys.keys, deployment), replies,
                    end)
                else EndsBefore(s, end))
            && end.0.keyCache == s.keyCache
  {
    hide IsAttack, Scan, Decide, EndsAs, KeysIntersections, ValidIntersections, AttackIntersections, ModuleAt,
      ContractsAt, VerdictWith;
    var block, id := t.data.block, t.listed.id;
    Untouched(s, id);
    var asked := TaskStep(s, t, replies.paused);
    if replies.paused.Rejected? {
      assert asked == (s, t.(pc := Pc.Failed(t.pc)));
      assert RunAlone(s, t, replies) == RunAlone(asked.0, asked.1, replies) == asked;
      return;
    }
    var m := ModuleDataOf(t, keys);
    var valid := ValidIntersections(KeysIntersections(t.data.events, m.unusedKeys));
    FiltersFindAttacks(t.data.events, m.unusedKeys, ContractsAt(block).lidoWC);
    if valid == [] {
      DecidedSteps(s, t, m, [], replies, deployment);
    } else {
      var asking := t.(pc := AskingCredentials(m, valid));
      assert asked == (s, asking);
      assert RunAlone(s, t, replies) == RunAlone(s, asking, replies);
      if replies.credentials.Rejected? {
        var failed := asking.(pc := Pc.Failed(asking.pc));
        assert TaskStep(s, asking, replies.credentials) == (s, failed);
        assert RunAlone(s, asking, replies) == RunAlone(s, failed, replies) == (s, failed);
      } else {
        DecidedSteps(s, asking, m, AttackIntersections(valid, ContractsAt(block).lidoWC), replies, deployment);
      }
    }
  }

  /** The check comes to a verdict: the keys are cached or answered at the block, and so is what is asked after them. */
  predicate Reaches(s: Shared, data: BlockData, id: int, replies: Replies)
  {
    && (!IsNeedToUpdateState(Lookup(s.keyCache, id), ModuleAt(data.block, id).nonce)
      || replies.keys == AnsweredAt(data.block))
    && AnsweredAfterKeys(data, ModuleAt(data.block, id).unusedKeys, replies)
  }

  /**
   The whole check of a module, whatever its requests are answered, from a key cache whose entries were
   answered at blocks that were seen. If it comes to a verdict, that is the true one, and its end is exactly
   that of this verdict: a new clean state is remembered in any case, and signed exactly if signing is not
   rejected. If it does not, nothing is signed, sent or remembered.
   */
  lemma CheckSteps(s: Shared, data: BlockData, id: int, replies: Replies, seen: set<Block>, deployment: nat)
    requires TrueData(data, deployment) && data.block in seen && NonceDeterminesKeys(seen) && Truthful(s.keyCache, seen)
    ensures var end := RunAlone(s, Task(data, ListedAt(data.block, id), Starting), replies);
            && (if Reaches(s, data, id, replies) then EndsAs(s, data, id, TrueVerdict(data.block, id, deployment),
              replies, end)
                else EndsBefore(s, end))
            && Truthful(end.0.keyCache, seen) && (Reaches(s, data, id, replies) ==> id in end.0.keyCache)
  {
    hide NonceDeterminesKeys, Scan, EndsAs, Decide, ModuleAt, VerdictWith, AnsweredAfterKeys;
    var block := data.block;
    var t := Task(data, ListedAt(block, id), Starting);
    Untouched(s, id);
    var cached := Lookup(s.keyCache, id);
    if IsNeedToUpdateState(cached, t.listed.nonce) {
      var fetching := t.(pc := FetchingKeys);
      assert TaskStep(s, t, replies.send) == (s, fetching);
      assert RunAlone(s, t, replies) == RunAlone(s, fetching, replies);
      if replies.keys == AnsweredAt(block) {
        var response := UnusedModuleKeys(block, id);
        var fetched := s.(keyCache := s.keyCache[id := response]);
        var asking := t.(pc := AskingPaused(response));
        assert TaskStep(s, fetching, replies.keys) == (fetched, asking);
        AskingSteps(fetched, asking, response, replies, deployment);
        assert RunAlone(s, fetching, replies) == RunAlone(fetched, asking, replies);
        EndsAsIgnoresKeys(s, fetched, data, id, TrueVerdict(block, id, deployment), replies, RunAlone(s, t, replies));
      } else {
        var failed := t.(pc := Pc.Failed(FetchingKeys));
        assert TaskStep(s, fetching, replies.keys) == (s, failed);
        assert RunAlone(s, fetching, replies) == RunAlone(s, failed, replies) == (s, failed);
      }
    } else {
      HitIsTrue(cached.value, block, id, seen);
      var asking := t.(pc := AskingPaused(cached.value));
      assert TaskStep(s, t, replies.send) == (s, asking);
      AskingSteps(s, asking, cached.value, replies, deployment);
      assert RunAlone(s, t, replies) == RunAlone(s, asking, replies);
    }
  }

  lemma EndsAsIgnoresKeys(s: Shared, fetched: Shared, data: BlockData, id: int, verdict: Verdict, replies: Replies,
      end: (Shared, Task))
    requires fetched.signing == s.signing && fetched.log == s.log
    ensures EndsAs(s, data, id, verdict, replies, end) <==> EndsAs(fetched, data, id, verdict, replies, end)
  {}

  // ---- A cycle.

  /** How often the deposit of a module was signed. */
  function SignaturesIn(log: seq<Effect>, id: int): nat
  {
    if log == [] then 0
    else (if log[0].SignedDeposit? && log[0].id == id then 1 else 0) + SignaturesIn(log[1..], id)
  }

  lemma {:induction false} SignaturesInConcat(a: seq<Effect>, b: seq<Effect>, id: int)
    ensures SignaturesIn(a + b, id) == SignaturesIn(a, id) + SignaturesIn(b, id)
    decreases |a|
  {
    if a == [] {
      assert a + b == b;
    } else {
      assert (a + b)[1..] == a[1..] + b;
      SignaturesInConcat(a[1..], b, id);
    }
  }

  lemma ExpectedSignatures(data: BlockData, id: int, verdict: Verdict, isSame: bool, replies: Replies, other: int)
    ensures SignaturesIn(ExpectedEffects(data, id, verdict, isSame, replies), other)
         == if other == id && verdict == Clean && !isSame && !replies.sign.Rejected? then 1 else 0
  {
    var effects := ExpectedEffects(data, id, verdict, isSame, replies);
    assert |effects| <= 4;
    if |effects| > 1 {
      var rest := effects[1..];
      assert SignaturesIn(effects, other) == SignaturesIn(rest, other);
      if |rest| > 1 {
        assert SignaturesIn(rest[1..], other)
            == (if rest[1].SignedDeposit? && rest[1].id == other then 1 else 0) + SignaturesIn(rest[1..][1..], other);
      }
    }
  }

  /** What one cycle over modules with these ids does to the memory and the signatures of a module. */
  ghost predicate Signs(s: Shared, s': Shared, block: Block, id: int, listed: bool, deployment: nat)
  {
    var before, current := Lookup(s.signing, id), Some(StateAt(block, id));
    if listed && TrueVerdict(block, id, deployment) == Clean then
      && Lookup(s'.signing, id) == current
      && SignaturesIn(s'.log, id) == SignaturesIn(s.log, id) + if IsRemembered(StateAt(block, id), before) then 0 else 1
    else
      Lookup(s'.signing, id) == before && SignaturesIn(s'.log, id) == SignaturesIn(s.log, id)
  }

  lemma EndSigns(s: Shared, data: BlockData, id: int, verdict: Verdict, replies: Replies, end: (Shared, Task),
      other: int, deployment: nat)
    requires EndsAs(s, data, id, verdict, replies, end) && !replies.sign.Rejected?
        && verdict == TrueVerdict(data.block, id, deployment)
    ensures Signs(s, end.0, data.block, other, other == id, deployment)
  {
    hide TrueVerdict, ExpectedEffects, StateAt, IsRemembered;
    var isSame := IsRemembered(StateAt(data.block, id), Lookup(s.signing, id));
    SignaturesInConcat(s.log, ExpectedEffects(data, id, verdict, isSame, replies), other);
    ExpectedSignatures(data, id, verdict, isSame, replies, other);
  }

  ghost predicate DistinctModules(modules: seq<SRModule>)
  {
    forall i, j | 0 <= i < j < |modules| :: modules[i].id != modules[j].id
  }

  predicate IsListed(modules: seq<SRModule>, id: int)
  {
    exists m <- modules :: m.id == id
  }

  /** A cycle without failures signs a listed module exactly when it is clean and its state is new, and no other. */
  lemma {:induction false} CycleSigns(s: Shared, data: BlockData, modules: seq<SRModule>, id: int, seen: set<Block>,
      deployment: nat)
    requires TrueData(data, deployment) && data.block in seen && NonceDeterminesKeys(seen) && Truthful(s.keyCache, seen)
    requires DistinctModules(modules) && forall m <- modules :: m == ListedAt(data.block, m.id)
    ensures var end := AnsweredSequence(s, data, modules);
            && Signs(s, end.0, data.block, id, IsListed(modules, id), deployment)
            && Truthful(end.0.keyCache, seen) && AllFinished(end.1, 0)
    decreases |modules|
  {
    hide RunAlone, NonceDeterminesKeys, Truthful, TrueData, EndsAs, StateAt, TrueVerdict, ListedAt,
      IsRemembered;
    if modules != [] {
      var first := RunAlone(s, Task(data, modules[0], Starting), AllAnswered(data.block));
      CheckSteps(s, data, modules[0].id, AllAnswered(data.block), seen, deployment);
      assert modules[0] == ListedAt(data.block, modules[0].id);
      EndSigns(s, data, modules[0].id, TrueVerdict(data.block, modules[0].id, deployment), AllAnswered(data.block),
        first, id, deployment);
      CycleSigns(first.0, data, modules[1..], id, seen, deployment);
      assert seq(|modules|, _ => AllAnswered(data.block))[1..] == seq(|modules[1..]|, _ => AllAnswered(data.block));
      assert IsListed(modules, id) <==> modules[0].id == id || IsListed(modules[1..], id);
      assert modules[0].id == id ==> !IsListed(modules[1..], id);
      assert first.1.pc.Finished? by { EndFinishes(s, data, modules[0].id,
        TrueVerdict(data.block, modules[0].id, deployment), AllAnswered(data.block), first); }
    }
  }

  lemma EndFinishes(s: Shared, data: BlockData, id: int, verdict: Verdict, replies: Replies, end: (Shared, Task))
    requires EndsAs(s, data, id, verdict, replies, end) && SignsAndSends(data, replies)
    ensures end.1.pc.Finished?
  {}
}
