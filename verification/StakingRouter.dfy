/**
 StakingRouterService: the unused keys of each staking module, cached by the nonce of the module.
 The Keys API lists the modules at one block and answers key requests at the block its own index is at.
 */
module StakingRouter {
  import opened Wrappers
  import opened Chain

  datatype SRModule = SRModule(id: int, nonce: int)

  datatype KeysResponse = KeysResponse(blockHash: Block, nonce: int, keys: seq<string>)

  type KeyCache = map<int, KeysResponse>

  /** A request was rejected, or answered with what holds at `block`. */
  datatype Reply = Rejected | AnsweredAt(block: Block)

  function ModuleAt(b: Block, id: int): Module
  {
    if id in ContractsAt(b).modules then ContractsAt(b).modules[id] else Module(0, [], false)
  }

  /** What the Keys API lists for a module when its index is at `b`. */
  function ListedAt(b: Block, id: int): SRModule
  {
    SRModule(id, ModuleAt(b, id).nonce)
  }

  /** What the Keys API answers to getUnusedModuleKeys when its index is at `b`. */
  function UnusedModuleKeys(b: Block, id: int): KeysResponse
  {
    KeysResponse(b, ModuleAt(b, id).nonce, ModuleAt(b, id).unusedKeys)
  }

  predicate IsNeedToUpdateState(cached: Option<KeysResponse>, nextNonce: int)
  {
    cached.None? || cached.value.nonce != nextNonce
  }

  /** getStakingModuleUnusedKeys on the cached entry: the new entry, and the keys unless it throws. */
  function UnusedKeys(cached: Option<KeysResponse>, blockHash: Block, m: SRModule, reply: Reply): (Option<KeysResponse>,
      Option<KeysResponse>)
  {
    if !IsNeedToUpdateState(cached, m.nonce) then (cached, cached)
    else if reply.Rejected? || UnusedModuleKeys(reply.block, m.id).blockHash != blockHash then (cached, None)
    else (Some(UnusedModuleKeys(reply.block, m.id)), Some(UnusedModuleKeys(reply.block, m.id)))
  }

  class StakingRouterService {
    var stakingRouterCache: KeyCache

    constructor ()
      ensures stakingRouterCache == map[]
    {
      stakingRouterCache := map[];
    }

    /** `keys` is None when the call throws. */
    method GetStakingModuleUnusedKeys(blockHash: Block, m: SRModule, reply: Reply) returns (keys: Option<KeysResponse>)
      modifies this
      ensures var served := UnusedKeys(Lookup(old(stakingRouterCache), m.id), blockHash, m, reply);
              && keys == served.1
              && stakingRouterCache == if served.0.Some? then old(stakingRouterCache)[m.id := served.0.value]
                else old(stakingRouterCache)
      ensures keys.None? ==> stakingRouterCache == old(stakingRouterCache)
    {
      if m.id in stakingRouterCache && stakingRouterCache[m.id].nonce == m.nonce {
        return Some(stakingRouterCache[m.id]);
      }
      if reply.Rejected? {
        return None;
      }
      var response := UnusedModuleKeys(reply.block, m.id);
      if response.blockHash != blockHash {
        return None;
      }
      stakingRouterCache := stakingRouterCache[m.id := response];
      return Some(response);
    }
  }

  // ---- When the cache is as good as a fresh request.

  /** One call of the service in a cycle at `blockHash`, for a module listed at that block. */
  datatype Call = Call(blockHash: Block, id: int, reply: Reply)

  function Serve(cache: KeyCache, call: Call): (KeyCache, Option<KeysResponse>)
  {
    var served := UnusedKeys(Lookup(cache, call.id), call.blockHash, ListedAt(call.blockHash, call.id), call.reply);
    (if served.0.Some? then cache[call.id := served.0.value] else cache, served.1)
  }

  /** The call threw, or gave the nonce and the keys of the module at the block of the cycle. */
  ghost predicate IsFresh(call: Call, keys: Option<KeysResponse>)
  {
    keys.Some? ==>
      && keys.value.nonce == ModuleAt(call.blockHash, call.id).nonce
      && keys.value.keys == ModuleAt(call.blockHash, call.id).unusedKeys
  }

  ghost predicate AlwaysFresh(cache: KeyCache, calls: seq<Call>)
    decreases |calls|
  {
    calls == [] || (IsFresh(calls[0], Serve(cache, calls[0]).1) && AlwaysFresh(Serve(cache, calls[0]).0, calls[1..]))
  }

  /** Among these blocks a module with one nonce has one list of unused keys. */
  ghost predicate NonceDeterminesKeys(blocks: set<Block>)
  {
    forall a, b, id | a in blocks && b in blocks && ModuleAt(a, id).nonce == ModuleAt(b, id).nonce ::
      ModuleAt(a, id).unusedKeys == ModuleAt(b, id).unusedKeys
  }

  /** Every entry is what the Keys API answered at one of the blocks. */
  ghost predicate Truthful(cache: KeyCache, blocks: set<Block>)
  {
    forall id | id in cache :: cache[id].blockHash in blocks && cache[id] == UnusedModuleKeys(cache[id].blockHash, id)
  }

  lemma {:induction false} TruthfulCacheIsFresh(cache: KeyCache, calls: seq<Call>, blocks: set<Block>)
    requires Truthful(cache, blocks) && NonceDeterminesKeys(blocks)
    requires forall call <- calls :: call.blockHash in blocks
    ensures AlwaysFresh(cache, calls)
    decreases |calls|
  {
    if calls != [] {
      var call := calls[0];
      if call.id in cache {
        assert cache[call.id] == UnusedModuleKeys(cache[call.id].blockHash, call.id);
        var a, b := cache[call.id].blockHash, call.blockHash;
        assert a in blocks && b in blocks;
        assert ModuleAt(a, call.id).nonce == ModuleAt(b, call.id).nonce ==>
            ModuleAt(a, call.id).unusedKeys == ModuleAt(b, call.id).unusedKeys;
      }
      TruthfulCacheIsFresh(Serve(cache, call).0, calls[1..], blocks);
    }
  }

  /**
   Key-cache refinement, with its exact condition: over every sequence of calls at these blocks, whatever
   hits, misses, mismatches and errors it meets, the cached service answers like a fresh request if and
   only if the nonce of a module determines its keys among these blocks.
   */
  lemma KeyCacheRefinesFetch(blocks: set<Block>)
    ensures (forall calls: seq<Call> :: (forall call <- calls :: call.blockHash in blocks) ==>
        AlwaysFresh(map[], calls))
       <==> NonceDeterminesKeys(blocks)
  {
    if NonceDeterminesKeys(blocks) {
      forall calls: seq<Call> | forall call <- calls :: call.blockHash in blocks
        ensures AlwaysFresh(map[], calls)
      {
        TruthfulCacheIsFresh(map[], calls, blocks);
      }
    } else {
      var a, b, id :| a in blocks && b in blocks && ModuleAt(a, id).nonce == ModuleAt(b, id).nonce
                      && ModuleAt(a, id).unusedKeys != ModuleAt(b, id).unusedKeys;
      StaleHit(a, b, id);
    }
  }

  /** Keys fetched at `a` are served at `b`, because only the nonces are compared. */
  lemma StaleHit(a: Block, b: Block, id: int)
    requires ModuleAt(a, id).nonce == ModuleAt(b, id).nonce && ModuleAt(a, id).unusedKeys != ModuleAt(b, id).unusedKeys
    ensures !AlwaysFresh(map[], [Call(a, id, AnsweredAt(a)), Call(b, id, Rejected)])
  {
    var miss, hit := Call(a, id, AnsweredAt(a)), Call(b, id, Rejected);
    var cache := Serve(map[], miss).0;
    assert cache[id] == UnusedModuleKeys(a, id);
    assert !IsFresh(hit, Serve(cache, hit).1);
    assert [miss, hit][1..] == [hit];
  }

  // ---- Where the condition comes from, and where it fails.

  /** The rule of SRModule.nonce, read along one chain: the counter moves on whenever the keys change. */
  ghost predicate CountsChanges(tip: Block)
  {
    tip.Block? ==>
      && CountsChanges(tip.parent)
      && forall id :: var before, after := ModuleAt(tip.parent, id), ModuleAt(tip, id);
                      before.nonce < after.nonce || (before.nonce == after.nonce
                        && before.unusedKeys == after.unusedKeys)
  }

  lemma {:induction false} NonceIsMonotone(a: Block, tip: Block, id: int)
    requires CountsChanges(tip) && OnChain(a, tip)
    ensures ModuleAt(a, id).nonce <= ModuleAt(tip, id).nonce
    ensures ModuleAt(a, id).nonce == ModuleAt(tip, id).nonce ==>
        ModuleAt(a, id).unusedKeys == ModuleAt(tip, id).unusedKeys
  {
    if a != tip {
      NonceIsMonotone(a, tip.parent, id);
    }
  }

  lemma {:induction false} CountsChangesBelow(a: Block, tip: Block)
    requires CountsChanges(tip) && OnChain(a, tip)
    ensures CountsChanges(a)
  {
    if a != tip {
      CountsChangesBelow(a, tip.parent);
    }
  }

  /** Without reorganisations the rule is enough. */
  lemma OneChainDeterminesKeys(blocks: set<Block>, tip: Block)
    requires CountsChanges(tip) && forall b <- blocks :: OnChain(b, tip)
    ensures NonceDeterminesKeys(blocks)
  {
    forall a, b, id | a in blocks && b in blocks && ModuleAt(a, id).nonce == ModuleAt(b, id).nonce
      ensures ModuleAt(a, id).unusedKeys == ModuleAt(b, id).unusedKeys
    {
      var low, high := if Number(a) <= Number(b) then a else b, if Number(a) <= Number(b) then b else a;
      OnChainLinear(low, high, tip);
      CountsChangesBelow(high, tip);
      NonceIsMonotone(low, high, id);
    }
  }

  /** Across a fork it is not: each branch counts its own change to the same number. */
  lemma ForkDefeatsTheNonce(root: Contracts, id: int)
    requires root.modules == map[id := Module(0, [], true)]
    ensures var left := Block(Genesis(root), 0, [], root.(modules := map[id := Module(1, ["a"], true)]));
            var right := Block(Genesis(root), 1, [], root.(modules := map[id := Module(1, ["b"], true)]));
            CountsChanges(left) && CountsChanges(right) && !NonceDeterminesKeys({left, right})
  {
    var left := Block(Genesis(root), 0, [], root.(modules := map[id := Module(1, ["a"], true)]));
    var right := Block(Genesis(root), 1, [], root.(modules := map[id := Module(1, ["b"], true)]));
    assert ModuleAt(left, id).unusedKeys[0] != ModuleAt(right, id).unusedKeys[0];
    assert ModuleAt(left, id).nonce == ModuleAt(right, id).nonce;
  }
}
