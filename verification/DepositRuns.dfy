/**
 Whole runs of the deposit index: processes start, initialise, update, read and stop at any await,
 while the head of the chain moves and is reorganised above the settled block.
 */
module DepositRuns {
  import opened Wrappers
  import opened Chain
  import opened Provider
  import opened Cache
  import opened Deposits
  import opened DepositIndex

  /** Blocks this far below a head never change. */
  const FINALITY := 100

  /** A process before initialize, a process that serves, and no process. */
  datatype Phase = Starting | Ready | Down

  /** `peak` is the highest head number any node ever reported. */
  datatype World = World(index: Index, phase: Phase, tip: Block, peak: nat, settled: Block)

  datatype Action =
    | Advance(tip: Block)
    | Start(file: File<EventsCache>)
    | Initialize(currentBlock: int, readable: bool, unlinked: bool, stop: nat)
    | Update(head: int, readable: bool, chunks: seq<Chunk>, stop: nat)
    | Fetch(blockHash: Block, readable: bool, attempts: Attempts)

  function Served(index: Index, readable: bool, deployment: nat): EventsCache
  {
    Clamped(LoadedIndex(index, readable).memory.value, deployment)
  }

  function ReadAt(index: Index, blockHash: Block, readable: bool, attempts: Attempts, deployment: nat): Read
  {
    AllDepositedEvents(Served(index, readable, deployment), Number(blockHash), blockHash, attempts)
  }

  /** The process stops after the await number `stop`, unless the operation has fewer. */
  function StoppedAt(world: World, trail: seq<Index>, stop: nat, ended: bool): World
    requires trail != []
  {
    if ended && |trail| <= stop then world.(index := Last(trail), phase := Ready)
    else world.(index := trail[Min(stop, |trail| - 1)], phase := Down)
  }

  /** A process may stop at any await of an operation, and goes on only past the last one. */
  lemma AnyAwaitMayBeTheLast(world: World, trail: seq<Index>, stop: nat, ended: bool)
    requires trail != []
    ensures var next := StoppedAt(world, trail, stop, ended);
            && (stop < |trail| ==> next == world.(index := trail[stop], phase := Down))
            && (|trail| <= stop ==> next == world.(index := Last(trail), phase := if ended then Ready else Down))
  {}

  function Step(world: World, action: Action, deployment: nat): World
  {
    match action
    case Advance(tip) =>
      var height := Max(Number(world.settled), Number(tip) - FINALITY);
      if height <= Number(tip) then
        world.(tip := tip, peak := Max(world.peak, Number(tip)), settled := Ancestor(tip, height))
      else world
    case Start(file) => world.(index := Cell(None, file), phase := Starting)
    case Initialize(currentBlock, readable, unlinked, stop) =>
      if world.phase != Starting then world
      else StoppedAt(world, Initialized(world.index, currentBlock, readable, unlinked, deployment), stop, true)
    case Update(head, readable, chunks, stop) =>
      if world.phase != Ready then world
      else
        var run := Updated(world.index, head, readable, chunks, deployment);
        StoppedAt(world, run.trail, stop, !run.outcome.Stopped?)
    case Fetch(blockHash, readable, attempts) =>
      if world.phase != Ready then world
      else
        var read := ReadAt(world.index, blockHash, readable, attempts, deployment);
        world.(index := LoadedIndex(world.index, readable), phase := if read.Exits? then Down else Ready)
  }

  /** What the environment is trusted with. */
  ghost predicate Honest(world: World, action: Action, deployment: nat)
  {
    match action
    // blocks at or below a head minus 100 never change
    case Advance(tip) => OnChain(world.settled, tip)
    // between two processes the file stays, is removed or damaged, or is written by another build
    case Start(file) => file == world.index.file || (file.Stored? ==> file.value.version != APP_VERSION)
    // the exact condition of InitializeSound
    case Initialize(currentBlock, readable, unlinked, stop) =>
      && world.index.memory.None?
      && (|| Keeps(world.index, currentBlock, readable, deployment)
          || unlinked || !world.index.file.Stored? || world.index.file.value.version == APP_VERSION)
    // the head was reported by some node, and every node that answers has the settled block
    case Update(head, readable, chunks, stop) =>
      && head <= world.peak
      && ChunksServed(Served(world.index, readable, deployment).endBlock + 1, head - DEPOSIT_EVENTS_CACHE_LAG_BLOCKS,
        chunks, world.settled)
    // the block is on the settled chain or extends it; the logs come from its chain, or from one view that suffices
    case Fetch(blockHash, readable, attempts) => FetchHonest(world, blockHash, readable, attempts, deployment)
  }

  ghost predicate FetchHonest(world: World, blockHash: Block, readable: bool, attempts: Attempts, deployment: nat)
  {
    && (OnChain(world.settled, blockHash) || OnChain(blockHash, world.settled))
    && TailServed(Served(world.index, readable, deployment).endBlock + 1, blockHash, attempts)
  }

  ghost predicate Inv(world: World, deployment: nat)
  {
    && OnChain(world.settled, world.tip)
    && Number(world.tip) <= world.peak <= Number(world.settled) + FINALITY
    && SoundFile(world.index, world.settled, deployment)
    && (world.phase == Starting ==> world.index.memory.None?)
    && (world.phase == Ready ==> Sound(world.index, world.settled, deployment))
  }

  function Run(world: World, actions: seq<Action>, deployment: nat): World
    decreases |actions|
  {
    if actions == [] then world else Run(Step(world, actions[0], deployment), actions[1..], deployment)
  }

  ghost predicate HonestRun(world: World, actions: seq<Action>, deployment: nat)
    decreases |actions|
  {
    actions == [] || (Honest(world, actions[0], deployment) && HonestRun(Step(world, actions[0], deployment),
      actions[1..], deployment))
  }

  lemma StoppedAtKeepsInv(world: World, trail: seq<Index>, stop: nat, ended: bool, deployment: nat)
    requires trail != [] && Inv(world, deployment)
    requires forall state <- trail :: SoundFile(state, world.settled, deployment)
    requires Sound(Last(trail), world.settled, deployment)
    ensures Inv(StoppedAt(world, trail, stop, ended), deployment)
  {
    assert trail[Min(stop, |trail| - 1)] in trail;
  }

  lemma AdvanceKeepsInv(world: World, tip: Block, deployment: nat)
    requires Inv(world, deployment) && OnChain(world.settled, tip)
    ensures var next := Step(world, Advance(tip), deployment);
            Inv(next, deployment) && OnChain(world.settled, next.settled)
  {
    var next := Step(world, Advance(tip), deployment);
    AncestorOfAncestor(tip, Number(next.settled), Number(next.settled));
    OnChainLinear(world.settled, next.settled, tip);
    if world.phase == Ready {
      SoundStaysSound(world.index, world.settled, next.settled, deployment);
    }
    if world.index.file.Stored? && world.index.file.value.version == APP_VERSION {
      ExactStaysExact(world.index.file.value, world.settled, next.settled, deployment);
    }
  }

  lemma StepKeepsInv(world: World, action: Action, deployment: nat)
    requires Inv(world, deployment) && Honest(world, action, deployment)
    ensures Inv(Step(world, action, deployment), deployment)
    ensures OnChain(world.settled, Step(world, action, deployment).settled)
  {
    hide Updated, ReadAt, Scan, ChunksServed, TailServed;
    match action
    case Advance(tip) => AdvanceKeepsInv(world, tip, deployment);
    case Start(file) =>
    case Initialize(currentBlock, readable, unlinked, stop) =>
      if world.phase == Starting {
        var trail := Initialized(world.index, currentBlock, readable, unlinked, deployment);
        InitializeSound(world.index, currentBlock, readable, unlinked, world.settled, deployment);
        StoppedAtKeepsInv(world, trail, stop, true, deployment);
      }
    case Update(head, readable, chunks, stop) =>
      if world.phase == Ready {
        UpdateIsCrashSafe(world.index, head, readable, chunks, world.settled, deployment);
        var run := Updated(world.index, head, readable, chunks, deployment);
        StoppedAtKeepsInv(world, run.trail, stop, !run.outcome.Stopped?, deployment);
      }
    case Fetch(blockHash, readable, attempts) =>
      LoadedSoundFile(world.index, readable, world.settled, deployment);
      if world.phase == Ready {
        LoadedSound(world.index, readable, world.settled, deployment);
      }
  }

  lemma LoadedSoundFile(index: Index, readable: bool, settled: Block, deployment: nat)
    requires SoundFile(index, settled, deployment)
    ensures SoundFile(LoadedIndex(index, readable), settled, deployment)
  {}

  /** In every reachable state memory and file hold the default, nothing usable, or an exact prefix of the log. */
  lemma {:induction false} EveryStateIsSound(world: World, actions: seq<Action>, deployment: nat)
    requires Inv(world, deployment) && HonestRun(world, actions, deployment)
    ensures Inv(Run(world, actions, deployment), deployment)
    decreases |actions|
  {
    if actions != [] {
      StepKeepsInv(world, actions[0], deployment);
      EveryStateIsSound(Step(world, actions[0], deployment), actions[1..], deployment);
    }
  }

  /** A machine that never ran the daemon, at any head. */
  function Fresh(tip: Block): World
  {
    World(Cell(None, Absent), Down, tip, Number(tip), Ancestor(tip,
      Max(0, Number(tip) - FINALITY)))
  }

  /**
   Cache refinement: after any run, getAllDepositedEvents(n, h) exits, throws, or returns exactly the naive
   scan of (deployment, n] on the chain of h. It exits exactly when the cache is ahead of n, and throws only
   when the tail is not from the chain of h.
   */
  lemma CacheRefinesTheScan(
    tip: Block, actions: seq<Action>, blockHash: Block, readable: bool, attempts: Attempts, deployment: nat)
    requires HonestRun(Fresh(tip), actions, deployment)
    requires var world := Run(Fresh(tip), actions, deployment);
             world.phase == Ready && FetchHonest(world, blockHash, readable, attempts, deployment)
    ensures var world := Run(Fresh(tip), actions, deployment);
            var read, cached := ReadAt(world.index, blockHash, readable, attempts, deployment),
              Served(world.index, readable, deployment);
            && ExitsThrowsOrScans(read, cached, blockHash, deployment)
            && (ServedFrom(cached.endBlock + 1, Number(blockHash), attempts, blockHash) ==> !read.Throws?)
  {
    hide Run, HonestRun, Sound, Scan, AllDepositedEvents, Ancestor, TailServed, ServedFrom, ExitsThrowsOrScans;
    var settled := Fresh(tip).settled;
    AncestorOfAncestor(tip, Number(settled), Number(settled));
    EveryStateIsSound(Fresh(tip), actions, deployment);
    var world := Run(Fresh(tip), actions, deployment);
    ReadIsTheScan(world.index, blockHash, readable, attempts, world.settled, deployment);
  }

  /**
   And it does throw: when one view with a non-empty block n answers the tail, exactly if h is not on that
   view, so that the events of a reorganised sibling never get through.
   */
  lemma SiblingIsRejected(
    tip: Block, actions: seq<Action>, blockHash: Block, readable: bool, attempts: Attempts, view: Block,
      deployment: nat)
    requires HonestRun(Fresh(tip), actions, deployment)
    requires var world := Run(Fresh(tip), actions, deployment);
             && world.phase == Ready && (OnChain(world.settled, blockHash) || OnChain(blockHash, world.settled))
             && Served(world.index, readable, deployment).endBlock < Number(blockHash)
             && ServedBy(Served(world.index, readable, deployment).endBlock + 1, Number(blockHash), attempts, view)
             && EventsAt(view, Number(blockHash)) != []
    ensures var read := ReadAt(Run(Fresh(tip), actions, deployment).index, blockHash, readable, attempts, deployment);
            && (read.Throws? <==> !OnChain(blockHash, view))
            && (!read.Throws? ==> read == Returns(EventGroup(Scan(blockHash, deployment + 1, Number(blockHash)),
              deployment, Number(blockHash))))
  {
    hide Run, HonestRun, Exact, Scan, AllDepositedEvents, Ancestor, ServedBy, EventsAt;
    var settled := Fresh(tip).settled;
    AncestorOfAncestor(tip, Number(settled), Number(settled));
    EveryStateIsSound(Fresh(tip), actions, deployment);
    var world := Run(Fresh(tip), actions, deployment);
    LoadedSound(world.index, readable, world.settled, deployment);
    ReadOfOneView(LoadedIndex(world.index, readable).memory.value, blockHash, attempts, view, world.settled,
      deployment);
  }
}
