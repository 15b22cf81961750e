/**
 DepositService: the deposit events of the chain, most of them from a cache that lags behind the
 head. Every operation is first given as a function of what memory and file hold; the class below
 is proved to do exactly that, and the theorems are about the functions.
 */
module Deposits {
  import opened Wrappers
  import opened Chain
  import opened Provider
  import opened Cache

  const DEPOSIT_EVENTS_CACHE_LAG_BLOCKS := 100
  const DEPOSIT_EVENTS_STEP := 10_000
  const DEPOSIT_EVENTS_CACHE_UPDATE_BLOCK_RATE := 10

  /** The environment of the build; nothing is assumed about it. */
  const NPM_PACKAGE_VERSION: Option<string>
  const APP_VERSION := if NPM_PACKAGE_VERSION.Some? && NPM_PACKAGE_VERSION.value != "" then NPM_PACKAGE_VERSION.value
    else "unversioned"

  datatype EventsCache = EventsCache(version: string, startBlock: int, endBlock: int, events: seq<Event>)

  const DEPOSIT_CACHE_DEFAULT := EventsCache("-1", 0, 0, [])

  type Index = Cell<EventsCache>

  /** getCachedEvents on what the cache service returned. */
  function Clamped(cached: EventsCache, deployment: nat): EventsCache
  {
    cached.(startBlock := Max(cached.startBlock, deployment), endBlock := Max(cached.endBlock, deployment))
  }

  function LoadedIndex(index: Index, readable: bool): (loaded: Index)
    ensures loaded.memory.Some? && loaded.file == index.file
  {
    Loaded(index, readable, DEPOSIT_CACHE_DEFAULT)
  }

  predicate ValidateCache(cached: EventsCache, currentBlock: int)
  {
    currentBlock >= cached.endBlock && cached.version == APP_VERSION
  }

  /** initialize: keep a cache that validates, delete any other. The result is the states at the awaits. */
  function Initialized(index: Index, currentBlock: int, readable: bool, unlinked: bool, deployment: nat): seq<Index>
  {
    var loaded := LoadedIndex(index, readable);
    [loaded] + if ValidateCache(Clamped(loaded.memory.value, deployment), currentBlock) then []
      else Deleted(loaded, unlinked)
  }

  /** What one round of the update loop meets. */
  datatype Chunk = Chunk(attempts: Attempts, write: Write)

  /** The loop ran to its end, a save rejected, or the process stopped inside a fetch. */
  datatype Outcome = Finished | Threw | Stopped

  datatype Progress = Progress(trail: seq<Index>, ranges: seq<(int, int)>, outcome: Outcome)

  function ChunkToBlock(block: int, toBlock: int): int
  {
    Min(toBlock, block + DEPOSIT_EVENTS_STEP - 1)
  }

  /** The event group after one round. */
  function WithChunk(group: EventsCache, block: int, toBlock: int, attempts: Attempts): EventsCache
  {
    var fetched := FetchEventsFallOver(block, ChunkToBlock(block, toBlock), attempts);
    EventsCache(APP_VERSION, group.startBlock, fetched.endBlock, group.events + fetched.events)
  }

  /** The loop of updateEventsCache from `block` on; the process stops when `chunks` ends. */
  function Extended(index: Index, group: EventsCache, block: int, toBlock: int, chunks: seq<Chunk>): Progress
    decreases |chunks|
  {
    if block > toBlock then Progress([], [], Finished)
    else if chunks == [] then Progress([], [], Stopped)
    else
      var next := WithChunk(group, block, toBlock, chunks[0].attempts);
      var range := (block, ChunkToBlock(block, toBlock));
      var saved := Saved(index, next, chunks[0].write);
      if !chunks[0].write.Written? then Progress(saved, [range], Threw)
      else
        var rest := Extended(Cell(Some(next), Stored(next)), next, block + DEPOSIT_EVENTS_STEP, toBlock, chunks[1..]);
        Progress(saved + rest.trail, [range] + rest.ranges, rest.outcome)
  }

  function Updated(index: Index, head: int, readable: bool, chunks: seq<Chunk>, deployment: nat): (run: Progress)
    ensures run.trail != []
  {
    var loaded := LoadedIndex(index, readable);
    var cached := Clamped(loaded.memory.value, deployment);
    var run := Extended(loaded, cached, cached.endBlock + 1, head - DEPOSIT_EVENTS_CACHE_LAG_BLOCKS, chunks);
    run.(trail := [loaded] + run.trail)
  }

  /** checkEventsBlockHash does not throw. */
  predicate BlockHashMatches(events: seq<Event>, blockNumber: int, blockHash: Block)
  {
    forall e <- events :: e.blockNumber == blockNumber ==> e.blockHash == blockHash
  }

  datatype Read = Exits | Throws | Returns(group: EventGroup)

  /** getAllDepositedEvents on the clamped cache. */
  function AllDepositedEvents(cached: EventsCache, blockNumber: int, blockHash: Block, attempts: Attempts): Read
  {
    if blockNumber < cached.endBlock then Exits
    else
      var freshEvents := FetchEventsFallOver(cached.endBlock + 1, blockNumber, attempts).events;
      if !BlockHashMatches(freshEvents, blockNumber, blockHash) then Throws
      else Returns(EventGroup(cached.events + freshEvents, cached.startBlock, blockNumber))
  }

  class DepositService {
    const cacheService: CacheService<EventsCache>
    const deployment: nat

    constructor (cacheService: CacheService<EventsCache>, deployment: nat)
      requires cacheService.default == DEPOSIT_CACHE_DEFAULT
      ensures this.cacheService == cacheService && this.deployment == deployment
      ensures cacheService.default == DEPOSIT_CACHE_DEFAULT
    {
      this.cacheService := cacheService;
      this.deployment := deployment;
    }

    method GetCachedEvents(readable: bool) returns (cached: EventsCache)
      requires cacheService.default == DEPOSIT_CACHE_DEFAULT
      modifies cacheService
      ensures cacheService.State() == LoadedIndex(old(cacheService.State()), readable)
      ensures cached == Clamped(cacheService.State().memory.value, deployment)
      ensures cacheService.trail == old(cacheService.trail) + [cacheService.State()]
    {
      var value := cacheService.GetCache(readable);
      cached := value.(startBlock := Max(value.startBlock, deployment), endBlock := Max(value.endBlock, deployment));
    }

    method Initialize(currentBlock: int, readable: bool, unlinked: bool)
      requires cacheService.default == DEPOSIT_CACHE_DEFAULT
      modifies cacheService
      ensures cacheService.trail == old(cacheService.trail) + Initialized(old(cacheService.State()), currentBlock,
          readable, unlinked, deployment)
      ensures cacheService.State() == Last(Initialized(old(cacheService.State()), currentBlock, readable, unlinked,
          deployment))
    {
      var cached := GetCachedEvents(readable);
      if !ValidateCache(cached, currentBlock) {
        cacheService.DeleteCache(unlinked);
      }
    }

    /** One round of the update loop: fetch a chunk, append it, save. */
    method UpdateChunk(eventGroup: EventsCache, block: int, toBlock: int, chunk: Chunk)
      returns (next: EventsCache, range: (int, int), written: bool)
      modifies cacheService
      ensures next == WithChunk(eventGroup, block, toBlock, chunk.attempts)
          && range == (block, ChunkToBlock(block, toBlock))
      ensures var saved := Saved(old(cacheService.State()), next, chunk.write);
              && cacheService.trail == old(cacheService.trail) + saved
              && cacheService.State() == Last(saved) == Last(cacheService.trail)
      ensures written == chunk.write.Written?
      ensures written ==> cacheService.State() == Cell(Some(next), Stored(next))
    {
      var chunkToBlock := Min(toBlock, block + DEPOSIT_EVENTS_STEP - 1);
      var fetched := FetchEventsFallOver(block, chunkToBlock, chunk.attempts);
      next := EventsCache(APP_VERSION, eventGroup.startBlock, fetched.endBlock, eventGroup.events + fetched.events);
      range := (block, chunkToBlock);
      written := cacheService.SetCache(next, chunk.write);
    }

    method UpdateEventsCache(head: int, readable: bool, chunks: seq<Chunk>)
        returns (outcome: Outcome, ranges: seq<(int, int)>)
      requires cacheService.default == DEPOSIT_CACHE_DEFAULT
      modifies cacheService
      ensures var run := Updated(old(cacheService.State()), head, readable, chunks, deployment);
              && cacheService.trail == old(cacheService.trail) + run.trail
              && cacheService.State() == Last(run.trail)
              && outcome == run.outcome && ranges == run.ranges
    {
      hide FetchEventsFallOver, WithChunk, Saved;
      ghost var run := Updated(cacheService.State(), head, readable, chunks, deployment);
      ghost var full := cacheService.trail + run.trail;
      var eventGroup := GetCachedEvents(readable);
      var block := eventGroup.endBlock + 1;
      var toBlock := head - DEPOSIT_EVENTS_CACHE_LAG_BLOCKS;
      var i := 0;
      ranges := [];
      ghost var rest := Extended(cacheService.State(), eventGroup, block, toBlock, chunks);
      assert chunks[0..] == chunks;
      while block <= toBlock && i < |chunks|
        invariant i <= |chunks|
        invariant rest == Extended(cacheService.State(), eventGroup, block, toBlock, chunks[i..])
        invariant cacheService.trail != [] && Last(cacheService.trail) == cacheService.State()
        invariant cacheService.trail + rest.trail == full
        invariant ranges + rest.ranges == run.ranges && rest.outcome == run.outcome
        decreases |chunks| - i
      {
        ghost var trail, saved := cacheService.trail, Saved(cacheService.State(),
            WithChunk(eventGroup, block, toBlock, chunks[i].attempts), chunks[i].write);
        assert chunks[i..][0] == chunks[i] && chunks[i..][1..] == chunks[i + 1..];
        var next, range, written := UpdateChunk(eventGroup, block, toBlock, chunks[i]);
        ghost var before := ranges;
        ranges := ranges + [range];
        if !written {
          return Threw, ranges;
        }
        eventGroup := next;
        block := block + DEPOSIT_EVENTS_STEP;
        i := i + 1;
        rest := Extended(cacheService.State(), eventGroup, block, toBlock, chunks[i..]);
        ConcatAssociates(trail, saved, rest.trail);
        ConcatAssociates(before, [range], rest.ranges);
      }
      // With rounds left to do the process stopped inside the next fetch.
      outcome := if block <= toBlock then Stopped else Finished;
    }

    method CheckEventsBlockHash(events: seq<Event>, blockNumber: int, blockHash: Block) returns (matches: bool)
      ensures matches == BlockHashMatches(events, blockNumber, blockHash)
    {
      for i := 0 to |events|
        invariant BlockHashMatches(events[..i], blockNumber, blockHash)
      {
        if events[i].blockNumber == blockNumber && events[i].blockHash != blockHash {
          return false;
        }
      }
      assert events[..|events|] == events;
      return true;
    }

    method GetAllDepositedEvents(blockNumber: int, blockHash: Block, readable: bool, attempts: Attempts)
        returns (read: Read)
      requires cacheService.default == DEPOSIT_CACHE_DEFAULT
      modifies cacheService
      ensures var loaded := LoadedIndex(old(cacheService.State()), readable);
              && cacheService.State() == loaded
              && cacheService.trail == old(cacheService.trail) + [loaded]
              && read == AllDepositedEvents(Clamped(loaded.memory.value, deployment), blockNumber, blockHash, attempts)
    {
      var cached := GetCachedEvents(readable);
      if blockNumber < cached.endBlock {
        return Exits;
      }
      var freshGroup := FetchEventsFallOver(cached.endBlock + 1, blockNumber, attempts);
      var matches := CheckEventsBlockHash(freshGroup.events, blockNumber, blockHash);
      if !matches {
        return Throws;
      }
      return Returns(EventGroup(cached.events + freshGroup.events, cached.startBlock, blockNumber));
    }
  }
}
