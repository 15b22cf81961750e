/** BlockGuardService: which blocks are worth a cycle, and what is collected about one. */
module BlockGuard {
  import opened Wrappers
  import opened Chain
  import opened Provider
  import opened Deposits
  import opened StakingModuleGuard

  datatype StateMeta = StateMeta(blockHash: Block, blockNumber: int)

  function MetaOf(b: Block): StateMeta
  {
    StateMeta(b, Number(b))
  }

  predicate IsNeedToProcessNewState(lastMeta: Option<StateMeta>, newMeta: StateMeta)
  {
    || lastMeta.None?
    || (lastMeta.value.blockNumber <= newMeta.blockNumber && lastMeta.value.blockHash != newMeta.blockHash)
  }

  /** Array.prototype.indexOf */
  function IndexOf(s: seq<string>, x: string): (i: int)
    ensures i == -1 <==> x !in s
    ensures i != -1 ==> 0 <= i < |s| && s[i] == x && x !in s[..i]
  {
    if s == [] then -1
    else if s[0] == x then 0
    else
      var i := IndexOf(s[1..], x);
      if i == -1 then -1 else i + 1
  }

  datatype Collected = Data(data: BlockData) | Rejects | ProcessExits

  /** getCurrentBlockData: `answered` is false when the deposit root or the guardian list cannot be read. */
  function CurrentBlockData(block: Block, read: Read, answered: bool, address: string): Collected
  {
    if read.Exits? then ProcessExits
    else if read.Throws? || !answered then Rejects
    else Data(BlockData(block, ContractsAt(block).depositRoot, read.group.events,
      IndexOf(ContractsAt(block).guardians, address)))
  }

  lemma CollectedBlock(block: Block, read: Read, answered: bool, address: string)
    ensures var collected := CurrentBlockData(block, read, answered, address);
            collected.Data? ==> collected.data.block == block
  {}

  class BlockGuardService {
    var lastProcessedStateMeta: Option<StateMeta>
    const depositService: DepositService
    const address: string

    constructor (depositService: DepositService, address: string)
      ensures lastProcessedStateMeta == None && this.depositService == depositService && this.address == address
    {
      this.lastProcessedStateMeta := None;
      this.depositService := depositService;
      this.address := address;
    }

    method IsNeedToProcess(newMeta: StateMeta) returns (need: bool)
      ensures need == IsNeedToProcessNewState(lastProcessedStateMeta, newMeta)
    {
      var lastMeta := lastProcessedStateMeta;
      if lastMeta == None {
        return true;
      }
      if lastMeta.value.blockNumber > newMeta.blockNumber {
        return false;
      }
      return lastMeta.value.blockHash != newMeta.blockHash;
    }

    method SetLastProcessedStateMeta(newMeta: StateMeta)
      modifies this
      ensures lastProcessedStateMeta == Some(newMeta)
    {
      lastProcessedStateMeta := Some(newMeta);
    }

    method GetCurrentBlockData(block: Block, readable: bool, attempts: Attempts, answered: bool)
        returns (collected: Collected)
      requires depositService.cacheService.default == DEPOSIT_CACHE_DEFAULT
      modifies depositService.cacheService
      ensures var index := old(depositService.cacheService.State());
              var cached := Clamped(LoadedIndex(index, readable).memory.value, depositService.deployment);
              && depositService.cacheService.State() == LoadedIndex(index, readable)
              && collected == CurrentBlockData(block, AllDepositedEvents(cached, Number(block), block, attempts),
                answered, address)
    {
      var read := depositService.GetAllDepositedEvents(Number(block), block, readable, attempts);
      collected := CurrentBlockData(block, read, answered, address);
    }
  }
}
