/**
 StakingModuleGuardService: the verdict on one staking module at one block, and the memory that
 decides whether a deposit message is signed again.
 */
module StakingModuleGuard {
  import opened Wrappers
  import opened Chain

  const GUARDIAN_DEPOSIT_RESIGNING_BLOCKS := 10

  /** What getCurrentBlockData collects; the block stands for its number and its hash. */
  datatype BlockData = BlockData(block: Block, depositRoot: string, events: seq<Event>, guardianIndex: int)

  datatype ModuleData = ModuleData(id: int, nonce: int, unusedKeys: seq<string>, isDepositsPaused: bool)

  datatype ContractsState = ContractsState(nonce: int, depositRoot: string, blockNumber: int)

  function KeysIntersections(events: seq<Event>, unusedKeys: seq<string>): seq<Event>
  {
    Filter(events, (e: Event) => e.pubkey in unusedKeys)
  }

  function ValidIntersections(intersections: seq<Event>): seq<Event>
  {
    Filter(intersections, (e: Event) => e.valid)
  }

  function AttackIntersections(validIntersections: seq<Event>, lidoWC: string): seq<Event>
  {
    Filter(validIntersections, (e: Event) => e.wc != lidoWC)
  }

  /** Someone has deposited one of the keys validly and with withdrawal credentials that are not Lido's. */
  ghost predicate IsAttack(events: seq<Event>, unusedKeys: seq<string>, lidoWC: string)
  {
    exists e <- events :: e.valid && e.pubkey in unusedKeys && e.wc != lidoWC
  }

  /** The three filters together, with the early exit when no intersection is valid. */
  lemma FiltersFindAttacks(events: seq<Event>, unusedKeys: seq<string>, lidoWC: string)
    ensures var valid := ValidIntersections(KeysIntersections(events, unusedKeys));
            && (IsAttack(events, unusedKeys, lidoWC) <==> AttackIntersections(valid, lidoWC) != [])
            && (valid == [] ==> !IsAttack(events, unusedKeys, lidoWC))
  {
    var intersections := KeysIntersections(events, unusedKeys);
    var valid := ValidIntersections(intersections);
    var attacks := AttackIntersections(valid, lidoWC);
    if attacks != [] {
      assert attacks[0] in valid && attacks[0] in intersections && attacks[0] in events;
    }
  }

  /** Math.floor of a quotient; block numbers are not negative. */
  function Bucket(blockNumber: int): int
  {
    blockNumber / GUARDIAN_DEPOSIT_RESIGNING_BLOCKS
  }

  predicate IsSameContractsStates(firstState: Option<ContractsState>, secondState: Option<ContractsState>)
  {
    && firstState.Some? && secondState.Some?
    && firstState.value.depositRoot == secondState.value.depositRoot
    && firstState.value.nonce == secondState.value.nonce
    && Bucket(firstState.value.blockNumber) == Bucket(secondState.value.blockNumber)
  }

  /** What a signature stands for: the nonce, the root and the ten blocks of the block number. */
  predicate SameState(a: ContractsState, b: ContractsState)
  {
    a.nonce == b.nonce && a.depositRoot == b.depositRoot && a.blockNumber / 10 == b.blockNumber / 10
  }

  predicate IsRemembered(current: ContractsState, last: Option<ContractsState>)
  {
    last.Some? && SameState(current, last.value)
  }

  /** The comparison of the code tells exactly the states that one signature does not cover. */
  lemma ComparesWhatIsSigned(current: ContractsState, last: Option<ContractsState>)
    ensures IsSameContractsStates(Some(current), last) <==> IsRemembered(current, last)
    ensures !IsSameContractsStates(None, last)
  {}

  class StakingModuleGuardService {
    var lastContractsStateByModuleId: map<int, ContractsState>

    constructor ()
      ensures lastContractsStateByModuleId == map[]
    {
      lastContractsStateByModuleId := map[];
    }

    /** handleCorrectKeys up to the signature: remember the state, and sign unless it is the same. */
    method HandleCorrectKeys(m: ModuleData, blockData: BlockData) returns (sign: bool)
      modifies this
      ensures var current := ContractsState(m.nonce, blockData.depositRoot, Number(blockData.block));
              && lastContractsStateByModuleId == old(lastContractsStateByModuleId)[m.id := current]
              && sign == !IsRemembered(current, Lookup(old(lastContractsStateByModuleId), m.id))
    {
      var current := ContractsState(m.nonce, blockData.depositRoot, Number(blockData.block));
      var last := Lookup(lastContractsStateByModuleId, m.id);
      var isSame := IsSameContractsStates(Some(current), last);
      lastContractsStateByModuleId := lastContractsStateByModuleId[m.id := current];
      sign := !isSame;
    }
  }
}
