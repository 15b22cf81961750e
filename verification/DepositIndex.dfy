/**
 What the lagging cache promises: at every await, in every run, it is an exact prefix of the one
 scan of the chain, and what is read through it is that scan.

 `settled` is the block that every later head of the node extends, whatever is reorganised above it.
 The cache is filled up to head - 100, so settled must be at least that high.
 */
module DepositIndex {
  import opened Wrappers
  import opened Chain
  import opened Provider
  import opened Cache
  import opened Deposits

  /** The record is the log of the blocks (deployment, endBlock], all of them settled, and starts no later. */
  ghost predicate Exact(cached: EventsCache, settled: Block, deployment: nat)
  {
    var endBlock := Max(cached.endBlock, deployment);
    && cached.startBlock <= deployment
    && cached.events == Scan(settled, deployment + 1, endBlock)
    && endBlock <= Max(Number(settled), deployment)
  }

  /** A file this build wrote is exact; what another build left may be anything. */
  ghost predicate SoundFile(index: Index, settled: Block, deployment: nat)
  {
    index.file.Stored? && index.file.value.version == APP_VERSION ==> Exact(index.file.value, settled, deployment)
  }

  /** Memory and file each hold nothing, the default, or an exact record, and no other build's record will be read. */
  ghost predicate Sound(index: Index, settled: Block, deployment: nat)
  {
    && SoundFile(index, settled, deployment)
    && (index.memory.Some? ==> Exact(index.memory.value, settled, deployment))
    && (index.memory.None? && index.file.Stored? ==> index.file.value.version == APP_VERSION)
  }

  lemma ExactStaysExact(cached: EventsCache, settled: Block, later: Block, deployment: nat)
    requires Exact(cached, settled, deployment) && OnChain(settled, later)
    ensures Exact(cached, later, deployment)
  {
    var endBlock := Max(cached.endBlock, deployment);
    if deployment < endBlock {
      ScanAgrees(settled, later, deployment + 1, endBlock);
    }
  }

  lemma SoundStaysSound(index: Index, settled: Block, later: Block, deployment: nat)
    requires Sound(index, settled, deployment) && OnChain(settled, later)
    ensures Sound(index, later, deployment)
  {
    if index.memory.Some? {
      ExactStaysExact(index.memory.value, settled, later, deployment);
    }
    if index.file.Stored? && index.file.value.version == APP_VERSION {
      ExactStaysExact(index.file.value, settled, later, deployment);
    }
  }

  lemma LoadedSound(index: Index, readable: bool, settled: Block, deployment: nat)
    requires Sound(index, settled, deployment)
    ensures Sound(LoadedIndex(index, readable), settled, deployment)
  {}

  // ---- The update loop.

  /** Every fetch of the loop was answered from chains that hold `settled`. */
  ghost predicate ChunksServed(block: int, toBlock: int, chunks: seq<Chunk>, settled: Block)
    decreases |chunks|
  {
    block > toBlock || chunks == []
    || (&& ServedFrom(block, ChunkToBlock(block, toBlock), chunks[0].attempts, settled)
        && ChunksServed(block + DEPOSIT_EVENTS_STEP, toBlock, chunks[1..], settled))
  }

  ghost predicate AllSound(trail: seq<Index>, settled: Block, deployment: nat)
  {
    forall state <- trail :: Sound(state, settled, deployment)
  }

  lemma ChunkExact(group: EventsCache, block: int, toBlock: int, attempts: Attempts, settled: Block, deployment: nat)
    requires deployment < block <= toBlock <= Number(settled)
    requires group.startBlock <= deployment && group.events == Scan(settled, deployment + 1, block - 1)
    requires ServedFrom(block, ChunkToBlock(block, toBlock), attempts, settled)
    ensures var next := WithChunk(group, block, toBlock, attempts);
            && next.version == APP_VERSION && next.endBlock == ChunkToBlock(block, toBlock)
            && next.events == Scan(settled, deployment + 1, next.endBlock)
            && Exact(next, settled, deployment)
  {
    var last := ChunkToBlock(block, toBlock);
    BisectionPreservesMeaning(block, last, attempts, settled);
    ScanSplit(settled, deployment + 1, block - 1, last);
  }

  lemma SavedSound(index: Index, value: EventsCache, write: Write, settled: Block, deployment: nat)
    requires Sound(index, settled, deployment) && Exact(value, settled, deployment) && value.version == APP_VERSION
    ensures AllSound(Saved(index, value, write), settled, deployment)
  {}

  lemma AllSoundConcat(a: seq<Index>, b: seq<Index>, settled: Block, deployment: nat)
    requires AllSound(a, settled, deployment) && AllSound(b, settled, deployment)
    ensures AllSound(a + b, settled, deployment)
  {}

  lemma {:induction false} ExtendedSound(
    index: Index, group: EventsCache, block: int, toBlock: int, chunks: seq<Chunk>, settled: Block, deployment: nat)
    requires Sound(index, settled, deployment) && deployment < block && toBlock <= Number(settled)
    requires block <= toBlock ==>
        group.startBlock <= deployment && group.events == Scan(settled, deployment + 1, block - 1)
    requires ChunksServed(block, toBlock, chunks, settled)
    ensures AllSound(Extended(index, group, block, toBlock, chunks).trail, settled, deployment)
    decreases |chunks|
  {
    hide FetchEventsFallOver, ServedFrom, Scan, WithChunk;
    if block <= toBlock && chunks != [] {
      var next := WithChunk(group, block, toBlock, chunks[0].attempts);
      ChunkExact(group, block, toBlock, chunks[0].attempts, settled, deployment);
      var saved := Saved(index, next, chunks[0].write);
      SavedSound(index, next, chunks[0].write, settled, deployment);
      if chunks[0].write.Written? {
        var after, from := Cell(Some(next), Stored(next)), block + DEPOSIT_EVENTS_STEP;
        assert from <= toBlock ==> next.endBlock == from - 1;
        ExtendedSound(after, next, from, toBlock, chunks[1..], settled, deployment);
        AllSoundConcat(saved, Extended(after, next, from, toBlock, chunks[1..]).trail, settled, deployment);
      }
    }
  }

  /** Crash safety: wherever updateEventsCache stops, memory and file hold exact prefixes of the log. */
  lemma UpdateIsCrashSafe(index: Index, head: int, readable: bool, chunks: seq<Chunk>, settled: Block, deployment: nat)
    requires Sound(index, settled, deployment) && head - DEPOSIT_EVENTS_CACHE_LAG_BLOCKS <= Number(settled)
    requires var end := Clamped(LoadedIndex(index, readable).memory.value, deployment).endBlock;
             ChunksServed(end + 1, head - DEPOSIT_EVENTS_CACHE_LAG_BLOCKS, chunks, settled)
    ensures AllSound(Updated(index, head, readable, chunks, deployment).trail, settled, deployment)
  {
    hide Extended, Scan;
    var loaded := LoadedIndex(index, readable);
    LoadedSound(index, readable, settled, deployment);
    var cached := Clamped(loaded.memory.value, deployment);
    var toBlock := head - DEPOSIT_EVENTS_CACHE_LAG_BLOCKS;
    ExtendedSound(loaded, cached, cached.endBlock + 1, toBlock, chunks, settled, deployment);
    var loop := Extended(loaded, cached, cached.endBlock + 1, toBlock, chunks);
    assert Updated(index, head, readable, chunks, deployment).trail == [loaded] + loop.trail;
    AllSoundConcat([loaded], loop.trail, settled, deployment);
  }

  /** The k-th range the loop fetches, and that a loop that finishes fetches all of them and no more. */
  lemma {:induction false} ExtendedTiles(index: Index, group: EventsCache, block: int, toBlock: int, chunks: seq<Chunk>,
      k: nat)
    requires k < |Extended(index, group, block, toBlock, chunks).ranges|
    ensures var first := block + k * DEPOSIT_EVENTS_STEP;
            && first <= toBlock
            && Extended(index, group, block, toBlock, chunks).ranges[k]
              == (first, Min(toBlock, first + DEPOSIT_EVENTS_STEP - 1))
    decreases |chunks|
  {
    hide FetchEventsFallOver, WithChunk, Scan;
    if k > 0 {
      var next := WithChunk(group, block, toBlock, chunks[0].attempts);
      ExtendedTiles(Cell(Some(next), Stored(next)), next, block + DEPOSIT_EVENTS_STEP, toBlock, chunks[1..], k - 1);
    }
  }

  lemma {:induction false} ExtendedReachesEnd(index: Index, group: EventsCache, block: int, toBlock: int,
      chunks: seq<Chunk>)
    requires index.memory == Some(group) || block <= toBlock
    requires Extended(index, group, block, toBlock, chunks).outcome.Finished?
    ensures var run := Extended(index, group, block, toBlock, chunks);
            && |run.ranges| == (if block > toBlock then 0 else (toBlock - block) / DEPOSIT_EVENTS_STEP + 1)
            && (block <= toBlock ==>
                  run.trail != [] && Last(run.trail).memory.Some? && Last(run.trail).memory.value.endBlock == toBlock)
            && (block <= toBlock ==> Last(run.trail).file == Stored(Last(run.trail).memory.value))
    decreases |chunks|
  {
    if block <= toBlock {
      var next := WithChunk(group, block, toBlock, chunks[0].attempts);
      FallOverBounds(block, ChunkToBlock(block, toBlock), chunks[0].attempts);
      ExtendedReachesEnd(Cell(Some(next), Stored(next)), next, block + DEPOSIT_EVENTS_STEP, toBlock, chunks[1..]);
    }
  }

  lemma {:induction false} FallOverBounds(startBlock: int, endBlock: int, attempts: Attempts)
    ensures var group := FetchEventsFallOver(startBlock, endBlock, attempts);
            group.startBlock == startBlock && group.endBlock == endBlock
    decreases attempts
  {
    if attempts.Failed? && !Splits(startBlock, endBlock, attempts.error) {
      FallOverBounds(startBlock, endBlock, attempts.retry);
    }
  }

  /**
   A successful update fetches ranges of at most 10,000 blocks that tile (oldEnd, head - 100] in order,
   ceil((head - 100 - oldEnd) / 10000) of them, and leaves the cache at max(oldEnd, head - 100).
   */
  lemma UpdateTilesTheGap(index: Index, head: int, readable: bool, chunks: seq<Chunk>, deployment: nat)
    requires Updated(index, head, readable, chunks, deployment).outcome.Finished?
    ensures var run := Updated(index, head, readable, chunks, deployment);
            var oldEnd := Clamped(LoadedIndex(index, readable).memory.value, deployment).endBlock;
            var toBlock := head - 100;
            && |run.ranges|
            == (if oldEnd < toBlock then (toBlock - oldEnd + 9_999) / 10_000 else 0)
            && (forall k | 0 <= k < |run.ranges| ::
                  && run.ranges[k].0 == (if k == 0 then oldEnd else run.ranges[k - 1].1) + 1
                  && run.ranges[k].0 <= run.ranges[k].1 < run.ranges[k].0 + 10_000)
            && (run.ranges != [] ==> Last(run.ranges).1 == toBlock)
            && Last(run.trail).memory.Some?
            && Clamped(Last(run.trail).memory.value, deployment).endBlock == Max(oldEnd, toBlock)
  {
    hide FetchEventsFallOver, WithChunk, Scan;
    var run := Updated(index, head, readable, chunks, deployment);
    var loaded := LoadedIndex(index, readable);
    var cached := Clamped(loaded.memory.value, deployment);
    var toBlock := head - DEPOSIT_EVENTS_CACHE_LAG_BLOCKS;
    var loop := Extended(loaded, cached, cached.endBlock + 1, toBlock, chunks);
    forall k | 0 <= k < |run.ranges|
      ensures var first := cached.endBlock + 1 + k * DEPOSIT_EVENTS_STEP;
              first <= toBlock && run.ranges[k] == (first, Min(toBlock, first + DEPOSIT_EVENTS_STEP - 1))
    {
      ExtendedTiles(loaded, cached, cached.endBlock + 1, toBlock, chunks, k);
    }
    if cached.endBlock < toBlock {
      ExtendedReachesEnd(loaded, cached, cached.endBlock + 1, toBlock, chunks);
      assert Last(run.trail) == Last(loop.trail);
    }
  }

  // ---- Initialisation.

  /** What the next getCachedEvents serves is the default, or has this version and is no newer than the block. */
  ghost predicate ServesValidated(index: Index, currentBlock: int, deployment: nat)
  {
    forall readable: bool ::
      var served := LoadedIndex(index, readable).memory.value;
      served == DEPOSIT_CACHE_DEFAULT || IsCurrent(served, currentBlock, deployment)
  }

  /** A record of this version that does not reach beyond the block. */
  predicate IsCurrent(record: EventsCache, currentBlock: int, deployment: nat)
  {
    record.version == APP_VERSION && record.endBlock <= currentBlock && deployment <= currentBlock
  }

  /** What was loaded is kept. */
  predicate Keeps(index: Index, currentBlock: int, readable: bool, deployment: nat)
  {
    IsCurrent(LoadedIndex(index, readable).memory.value, currentBlock, deployment)
  }

  /** initialize keeps what it loads, in memory and with its events, exactly if that is current; else memory is empty.
      */
  lemma InitializeKeepsTheCurrent(index: Index, currentBlock: int, readable: bool, unlinked: bool, deployment: nat)
    ensures var loaded := LoadedIndex(index, readable);
            var after := Last(Initialized(index, currentBlock, readable, unlinked, deployment));
            if Keeps(index, currentBlock, readable, deployment) then after == loaded else after.memory.None?
  {}

  /** A file that cannot be read is deleted, unless this build has the version of the default. */
  lemma UnreadableIsDeleted(index: Index, currentBlock: int, deployment: nat)
    requires index.memory.None? && APP_VERSION != "-1"
    ensures Last(Initialized(index, currentBlock, false, true, deployment)) == Cell(None, Absent)
    ensures index.file == Unparsable ==>
        forall readable: bool :: Last(Initialized(index, currentBlock, readable, true, deployment))
          == Cell(None, Absent)
  {
    assert "-1"[0] == '-';
  }

  /** So where the rejected file is gone, no read at that block or above exits. */
  lemma InitializedReadsDoNotExit(
    index: Index, currentBlock: nat, readable: bool, unlinked: bool, deployment: nat, again: bool,
    blockHash: Block, attempts: Attempts)
    requires index.memory.None? && deployment <= currentBlock <= Number(blockHash) && (unlinked || index.file.Absent?)
    ensures var after := Last(Initialized(index, currentBlock, readable, unlinked, deployment));
            var cached := Clamped(LoadedIndex(after, again).memory.value, deployment);
            && cached.endBlock <= currentBlock
            && !AllDepositedEvents(cached, Number(blockHash), blockHash, attempts).Exits?
  {
    hide FetchEventsFallOver, BlockHashMatches, Number;
    InitializeKeepsTheCurrent(index, currentBlock, readable, unlinked, deployment);
  }

  /**
   initialize promises a validated cache. The rejected unlink that deleteCache swallows breaks that: the
   cache it had to delete is read again. It holds exactly when what was loaded is kept, the unlink succeeds
   or the file is fine.
   */
  lemma InitializeValidates(index: Index, currentBlock: int, readable: bool, unlinked: bool, deployment: nat)
    requires index.memory.None?
    ensures ServesValidated(Last(Initialized(index, currentBlock, readable, unlinked, deployment)), currentBlock,
        deployment)
       <==> (|| Keeps(index, currentBlock, readable, deployment)
             || unlinked || !index.file.Stored? || index.file.value == DEPOSIT_CACHE_DEFAULT
             || IsCurrent(index.file.value, currentBlock, deployment))
  {
    var after := Last(Initialized(index, currentBlock, readable, unlinked, deployment));
    assert LoadedIndex(after, true).memory.value
        == if after.memory.Some? then after.memory.value
           else if after.file.Stored? then after.file.value else DEPOSIT_CACHE_DEFAULT;
  }

  /** Whatever it loads, initialize leaves a sound index exactly where another build's file is not read again. */
  lemma InitializeSound(index: Index, currentBlock: int, readable: bool, unlinked: bool, settled: Block,
      deployment: nat)
    requires index.memory.None? && SoundFile(index, settled, deployment)
    ensures Sound(Last(Initialized(index, currentBlock, readable, unlinked, deployment)), settled, deployment)
       <==> (|| Keeps(index, currentBlock, readable, deployment)
             || unlinked || !index.file.Stored? || index.file.value.version == APP_VERSION)
    ensures forall state <- Initialized(index, currentBlock, readable, unlinked, deployment) ::
        SoundFile(state, settled, deployment)
  {
    assert Exact(DEPOSIT_CACHE_DEFAULT, settled, deployment);
  }

  // ---- Reading.

  /** The view and h have one block at height k, or neither logs anything there. */
  ghost predicate SharedOrEmpty(view: Block, blockHash: Block, k: nat)
    requires k <= Number(blockHash)
  {
    || (k <= Number(view) && Ancestor(view, k) == Ancestor(blockHash, k))
    || (EventsAt(view, k) == [] && EventsAt(blockHash, k) == [])
  }

  /** One view is enough if it logs something in block n, so that it is checked, or the tail is that of h anyway. */
  ghost predicate ViewSuffices(view: Block, blockHash: Block, first: nat)
  {
    || EventsAt(view, Number(blockHash)) != []
    || forall k: nat | first <= k <= Number(blockHash) :: SharedOrEmpty(view, blockHash, k)
  }

  /** The tail was answered from chains that hold h, or from one view that suffices. */
  ghost predicate TailServed(first: nat, blockHash: Block, attempts: Attempts)
  {
    || ServedFrom(first, Number(blockHash), attempts, blockHash)
    || exists view: Block :: ServedBy(first, Number(blockHash), attempts, view) && ViewSuffices(view, blockHash, first)
  }

  /** The read exits exactly if the cache is ahead of n; else it throws, or is the naive scan of (deployment, n] on the
      chain of h. */
  ghost predicate ExitsThrowsOrScans(read: Read, cached: EventsCache, blockHash: Block, deployment: nat)
  {
    var n := Number(blockHash);
    && (read.Exits? <==> n < cached.endBlock)
    && (read.Returns? ==> read.group == EventGroup(Scan(blockHash, deployment + 1, n), deployment, n))
  }

  /**
   However stale the cache is, the read exits, throws or is the scan, when h is on the settled chain or
   extends it. It never throws when the tail comes from chains that hold h.
   */
  lemma ReadIsTheScan(index: Index, blockHash: Block, readable: bool, attempts: Attempts, settled: Block,
      deployment: nat)
    requires Sound(index, settled, deployment)
    requires OnChain(settled, blockHash) || OnChain(blockHash, settled)
    requires TailServed(Clamped(LoadedIndex(index, readable).memory.value, deployment).endBlock + 1, blockHash,
        attempts)
    ensures var cached := Clamped(LoadedIndex(index, readable).memory.value, deployment);
            var read := AllDepositedEvents(cached, Number(blockHash), blockHash, attempts);
            && ExitsThrowsOrScans(read, cached, blockHash, deployment)
            && (ServedFrom(cached.endBlock + 1, Number(blockHash), attempts, blockHash) ==> !read.Throws?)
  {
    hide ServedFrom, ServedBy, OnChain, AllDepositedEvents, Exact, Scan, ViewSuffices, ExitsThrowsOrScans;
    LoadedSound(index, readable, settled, deployment);
    var record := LoadedIndex(index, readable).memory.value;
    var first, n := Clamped(record, deployment).endBlock + 1, Number(blockHash);
    if ServedFrom(first, n, attempts, blockHash) {
      ReadOfOwnChain(record, blockHash, attempts, settled, deployment);
    } else {
      var view: Block :| ServedBy(first, n, attempts, view) && ViewSuffices(view, blockHash, first);
      ReadOfOneViewIff(record, blockHash, attempts, view, settled, deployment);
    }
  }

  lemma ReadOfOwnChain(record: EventsCache, blockHash: Block, attempts: Attempts, settled: Block, deployment: nat)
    requires Exact(record, settled, deployment)
    requires OnChain(settled, blockHash) || OnChain(blockHash, settled)
    requires ServedFrom(Clamped(record, deployment).endBlock + 1, Number(blockHash), attempts, blockHash)
    ensures var cached := Clamped(record, deployment);
            var read := AllDepositedEvents(cached, Number(blockHash), blockHash, attempts);
            ExitsThrowsOrScans(read, cached, blockHash, deployment) && !read.Throws?
  {
    hide FetchEventsFallOver, ServedFrom, BlockHashMatches, OnChain, Number;
    var cached := Clamped(record, deployment);
    var n := Number(blockHash);
    if cached.endBlock <= n {
      BisectionPreservesMeaning(cached.endBlock + 1, n, attempts, blockHash);
      OwnScanMatches(blockHash, cached.endBlock + 1);
      PrefixAndTail(record, blockHash, settled, deployment);
    }
  }

  /** An exact record below n, with the tail of the chain of h, is the scan of that chain. */
  lemma PrefixAndTail(record: EventsCache, blockHash: Block, settled: Block, deployment: nat)
    requires Exact(record, settled, deployment) && Clamped(record, deployment).endBlock <= Number(blockHash)
    requires OnChain(settled, blockHash) || OnChain(blockHash, settled)
    ensures var cached := Clamped(record, deployment);
            && cached.startBlock == deployment
            && cached.events + Scan(blockHash, cached.endBlock + 1, Number(blockHash))
              == Scan(blockHash, deployment + 1, Number(blockHash))
  {
    hide OnChain, Number;
    var cached := Clamped(record, deployment);
    if deployment < cached.endBlock {
      CommonPrefix(settled, blockHash, deployment + 1, cached.endBlock);
    }
    ScanSplit(blockHash, deployment + 1, cached.endBlock, Number(blockHash));
  }

  /** With one view that logs something in block n, the read throws exactly if there is a tail to fetch and the view
      does not hold h. */
  lemma ReadOfOneView(record: EventsCache, blockHash: Block, attempts: Attempts, view: Block, settled: Block,
      deployment: nat)
    requires Exact(record, settled, deployment)
    requires OnChain(settled, blockHash) || OnChain(blockHash, settled)
    requires ServedBy(Clamped(record, deployment).endBlock + 1, Number(blockHash), attempts, view)
        && EventsAt(view, Number(blockHash)) != []
    ensures var cached := Clamped(record, deployment);
            var read := AllDepositedEvents(cached, Number(blockHash), blockHash, attempts);
            && ExitsThrowsOrScans(read, cached, blockHash, deployment)
            && (read.Throws? <==> cached.endBlock < Number(blockHash) && !OnChain(blockHash, view))
  {
    hide FetchEventsFallOver, ServedBy, BlockHashMatches, OnChain;
    var cached := Clamped(record, deployment);
    var first, n := cached.endBlock + 1, Number(blockHash);
    if first <= n {
      BlockHashCheck(first, blockHash, attempts, view);
      PrefixAndTail(record, blockHash, settled, deployment);
    } else if first == n + 1 {
      BisectionIsOneFetch(first, n, attempts, view);
      NothingMatches(n, blockHash);
      PrefixAndTail(record, blockHash, settled, deployment);
    }
  }

  /**
   The exact condition for one view: the read exits, throws or is the scan of the chain of h if and only if the
   view logs something in block n, or agrees with h on every block of the tail that either logs in.
   */
  lemma ReadOfOneViewIff(record: EventsCache, blockHash: Block, attempts: Attempts, view: Block, settled: Block,
      deployment: nat)
    requires Exact(record, settled, deployment)
    requires OnChain(settled, blockHash) || OnChain(blockHash, settled)
    requires ServedBy(Clamped(record, deployment).endBlock + 1, Number(blockHash), attempts, view)
    ensures var cached := Clamped(record, deployment);
            var read := AllDepositedEvents(cached, Number(blockHash), blockHash, attempts);
            ExitsThrowsOrScans(read, cached, blockHash, deployment)
            <==> ViewSuffices(view, blockHash, cached.endBlock + 1)
  {
    hide FetchEventsFallOver, ServedBy, BlockHashMatches, OnChain, SharedOrEmpty, Ancestor, EventsAt, Scan;
    var cached := Clamped(record, deployment);
    var first, n := cached.endBlock + 1, Number(blockHash);
    if EventsAt(view, n) != [] {
      ReadOfOneView(record, blockHash, attempts, view, settled, deployment);
    } else if first <= n + 1 {
      BisectionIsOneFetch(first, n, attempts, view);
      EmptyBlockMatches(view, first, blockHash);
      PrefixAndTail(record, blockHash, settled, deployment);
      SameTail(cached.events, Scan(view, first, n), Scan(blockHash, first, n));
      ScansAgree(view, blockHash, first, n);
    }
  }

  lemma SameTail<T>(prefix: seq<T>, a: seq<T>, b: seq<T>)
    ensures prefix + a == prefix + b <==> a == b
  {
    assert (prefix + a)[|prefix|..] == a && (prefix + b)[|prefix|..] == b;
  }

  lemma EmptyBlockMatches(view: Block, first: int, blockHash: Block)
    requires EventsAt(view, Number(blockHash)) == []
    ensures BlockHashMatches(Scan(view, first, Number(blockHash)), Number(blockHash), blockHash)
  {
    forall e <- Scan(view, first, Number(blockHash))
      ensures e.blockNumber != Number(blockHash)
    {
      ScanMembers(view, first, Number(blockHash), e);
    }
  }

  /** Two scans are the same if and only if their blocks are shared or empty, one by one. */
  lemma {:induction false} ScansAgree(view: Block, blockHash: Block, first: nat, last: int)
    requires last <= Number(blockHash)
    ensures Scan(view, first, last) == Scan(blockHash, first, last)
       <==> forall k: nat | first <= k <= last :: SharedOrEmpty(view, blockHash, k)
    decreases last - first
  {
    hide SharedOrEmpty, EventsAt;
    if first <= last {
      ScansAgree(view, blockHash, first, last - 1);
      SharedOrEmptyIsSame(view, blockHash, last);
      LastBlockSplits(Scan(view, first, last - 1), EventsAt(view, last), Scan(blockHash, first, last - 1),
        EventsAt(blockHash, last), last) by {
        ScanInOrder(view, first, last - 1);
        ScanInOrder(blockHash, first, last - 1);
      }
    }
  }

  lemma SharedOrEmptyIsSame(view: Block, blockHash: Block, k: nat)
    requires k <= Number(blockHash)
    ensures SharedOrEmpty(view, blockHash, k) <==> EventsAt(view, k) == EventsAt(blockHash, k)
  {
    if EventsAt(view, k) == EventsAt(blockHash, k) != [] {
      assert EventsAt(view, k)[0].blockHash == Ancestor(view, k)
        && EventsAt(blockHash, k)[0].blockHash == Ancestor(blockHash, k);
    }
  }

  /** Where the numbers tell the last block apart, equal sequences have equal parts. */
  lemma LastBlockSplits(a: seq<Event>, x: seq<Event>, b: seq<Event>, y: seq<Event>, last: int)
    requires forall e <- a + b :: e.blockNumber < last
    requires forall e <- x + y :: e.blockNumber == last
    ensures a + x == b + y <==> a == b && x == y
  {
    var all := a + x;
    if all == b + y {
      assert forall i | 0 <= i < |a| :: all[i] in a + b;
      assert forall i | 0 <= i < |b| :: all[i] == b[i] && all[i] in a + b;
      assert forall i | |a| <= i < |all| :: all[i] in x + y;
      assert forall i | |b| <= i < |all| :: all[i] == y[i - |b|] && all[i] in x + y;
      var k := Min(|a|, |b|);
      if k < |all| {
        assert all[k].blockNumber < last <==> k < |a|;
        assert all[k].blockNumber < last <==> k < |b|;
      }
      assert a == all[..|a|] == b;
      SameTail(a, x, y);
    }
  }

  lemma NothingMatches(blockNumber: int, blockHash: Block)
    ensures BlockHashMatches([], blockNumber, blockHash)
  {}

  lemma OwnScanMatches(blockHash: Block, first: int)
    ensures BlockHashMatches(Scan(blockHash, first, Number(blockHash)), Number(blockHash), blockHash)
  {
    var n := Number(blockHash);
    forall e <- Scan(blockHash, first, n)
      ensures e.blockNumber == n ==> e.blockHash == blockHash
    {
      ScanMembers(blockHash, first, n, e);
    }
  }

  lemma CommonPrefix(a: Block, b: Block, first: int, last: int)
    requires OnChain(a, b) || OnChain(b, a)
    requires last <= Number(a) && last <= Number(b)
    ensures Scan(a, first, last) == Scan(b, first, last)
  {
    if OnChain(a, b) {
      ScanAgrees(a, b, first, last);
    } else {
      ScanAgrees(b, a, first, last);
    }
  }

  // ---- The block hash check.

  /**
   When one chain view answered, the check accepts it exactly if that view logs nothing in block n, or
   has h there. A non-empty block n that is accepted therefore puts all fresh events on the chain of h.
   */
  lemma BlockHashCheck(first: int, blockHash: Block, attempts: Attempts, view: Block)
    requires first <= Number(blockHash) && ServedBy(first, Number(blockHash), attempts, view)
    ensures var n := Number(blockHash);
            var events := FetchEventsFallOver(first, n, attempts).events;
            && (BlockHashMatches(events, n, blockHash) <==> EventsAt(view, n) == [] || OnChain(blockHash, view))
            && (BlockHashMatches(events, n, blockHash) && EventsAt(view, n) != [] ==>
              events == Scan(blockHash, first, n))
  {
    var n := Number(blockHash);
    BisectionIsOneFetch(first, n, attempts, view);
    var events := Scan(view, first, n);
    forall e <- events
      ensures e.blockNumber == n ==> n <= Number(view) && e.blockHash == Ancestor(view, n)
    {
      ScanMembers(view, first, n, e);
    }
    if EventsAt(view, n) != [] {
      var e := EventsAt(view, n)[0];
      ScanMembers(view, first, n, e);
      assert e.blockNumber == n && e.blockHash == Ancestor(view, n);
      if OnChain(blockHash, view) {
        ScanAgrees(blockHash, view, first, n);
      }
    }
    if BlockHashMatches(events, n, blockHash) && EventsAt(view, n) == [] {
      // no event carries the number n, so there was nothing to compare
      assert forall e <- events :: e.blockNumber == n ==> e in EventsAt(view, n) by {
        forall e <- events ensures e.blockNumber == n ==> e in EventsAt(view, n) {
          ScanMembers(view, first, n, e);
        }
      }
    }
    if EventsAt(view, n) == [] {
      forall e <- events ensures e.blockNumber != n {
        ScanMembers(view, first, n, e);
      }
    }
  }

  /** The gap the check leaves: a sibling block without deposits is accepted, and the events of h are lost. */
  lemma EmptySiblingIsAccepted(state: Contracts, d: Deposit)
    ensures var root := Genesis(state);
            var h, sibling := Block(root, 0, [d], state), Block(root, 1, [], state);
            && BlockHashMatches(FetchEventsFallOver(1, 1, Served(sibling)).events, 1, h)
            && FetchEventsFallOver(1, 1, Served(sibling)).events != Scan(h, 1, 1)
  {
    var root := Genesis(state);
    var h, sibling := Block(root, 0, [d], state), Block(root, 1, [], state);
    assert Number(h) == Number(sibling) == 1;
    assert EventsAt(h, 1) == BlockEvents(h) == [EventOf(h, d)];
    assert EventsAt(sibling, 1) == [];
    assert Scan(h, 1, 1) == Scan(h, 1, 0) + EventsAt(h, 1) && Scan(h, 1, 0) == [];
    assert Scan(sibling, 1, 1) == Scan(sibling, 1, 0) + EventsAt(sibling, 1) && Scan(sibling, 1, 0) == [];
  }

  /** And a node whose head is still below block n is accepted, with all the events of block n lost. */
  lemma HeadBelowIsAccepted(state: Contracts, d: Deposit)
    ensures var root := Genesis(state);
            var h := Block(root, 0, [d], state);
            && BlockHashMatches(FetchEventsFallOver(1, 1, Served(root)).events, 1, h)
            && FetchEventsFallOver(1, 1, Served(root)).events != Scan(h, 1, 1)
  {
    var root := Genesis(state);
    var h := Block(root, 0, [d], state);
    assert Number(h) == 1;
    assert EventsAt(h, 1) == BlockEvents(h) == [EventOf(h, d)];
    assert EventsAt(root, 1) == [];
    assert Scan(h, 1, 1) == Scan(h, 1, 0) + EventsAt(h, 1) && Scan(h, 1, 0) == [];
    assert Scan(root, 1, 1) == Scan(root, 1, 0) + EventsAt(root, 1) && Scan(root, 1, 0) == [];
  }
}
