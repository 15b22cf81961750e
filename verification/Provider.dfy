/**
 ProviderService.fetchEventsFallOver: fetch a block range, bisect it when the node cannot serve it,
 retry otherwise. A call that returns has met finitely many failures; `Attempts` is what it met.
 */
module Provider {
  import opened Wrappers
  import opened Chain

  /** The parts of a rejected request that the code looks at. */
  datatype FetchError = FetchError(rpcCode: Option<int>, code: string, reason: string)

  const ERRORS_LIMIT_EXCEEDED: seq<int> := [-32005, -32064, -32600, -32602]

  datatype EventGroup = EventGroup(events: seq<Event>, startBlock: int, endBlock: int)

  /** One request and what follows it: an answer from a node whose head is `tip`, or a failure, after
      which the code goes on either with `retry` or with the two halves. */
  datatype Attempts =
    | Served(tip: Block)
    | Failed(error: FetchError, retry: Attempts, first: Attempts, second: Attempts)

  predicate IsPartitionRequired(error: FetchError)
  {
    || error.code == "TIMEOUT"
    || (error.rpcCode.Some? && error.rpcCode.value in ERRORS_LIMIT_EXCEEDED)
    || error.reason == "missing response"
    || error.code == "SERVER_ERROR"
  }

  predicate IsPartitionable(startBlock: int, endBlock: int)
  {
    endBlock - startBlock > 1
  }

  predicate Splits(startBlock: int, endBlock: int, error: FetchError)
  {
    IsPartitionable(startBlock, endBlock) && IsPartitionRequired(error)
  }

  /** Math.ceil((endBlock + startBlock) / 2) */
  function Center(startBlock: int, endBlock: int): int
  {
    (endBlock + startBlock + 1) / 2
  }

  /** The fetcher of the deposit service against a node whose head is `tip`. */
  function FetchEvents(tip: Block, startBlock: int, endBlock: int): EventGroup
  {
    EventGroup(Scan(tip, startBlock, endBlock), startBlock, endBlock)
  }

  function FetchEventsFallOver(startBlock: int, endBlock: int, attempts: Attempts): EventGroup
    decreases attempts
  {
    match attempts
    case Served(tip) => FetchEvents(tip, startBlock, endBlock)
    case Failed(error, retry, first, second) =>
      if Splits(startBlock, endBlock, error) then
        var center := Center(startBlock, endBlock);
        var left := FetchEventsFallOver(startBlock, center - 1, first);
        var right := FetchEventsFallOver(center, endBlock, second);
        EventGroup(left.events + right.events, startBlock, endBlock)
      else
        FetchEventsFallOver(startBlock, endBlock, retry)
  }

  /** Every request that was answered was answered by a node that has `base` in its chain. */
  ghost predicate ServedFrom(startBlock: int, endBlock: int, attempts: Attempts, base: Block)
    decreases attempts
  {
    match attempts
    case Served(tip) => OnChain(base, tip)
    case Failed(error, retry, first, second) =>
      if Splits(startBlock, endBlock, error) then
        && ServedFrom(startBlock, Center(startBlock, endBlock) - 1, first, base)
        && ServedFrom(Center(startBlock, endBlock), endBlock, second, base)
      else
        ServedFrom(startBlock, endBlock, retry, base)
  }

  /** Every request that was answered was answered by the one chain view `tip`. */
  ghost predicate ServedBy(startBlock: int, endBlock: int, attempts: Attempts, tip: Block)
    decreases attempts
  {
    match attempts
    case Served(t) => t == tip
    case Failed(error, retry, first, second) =>
      if Splits(startBlock, endBlock, error) then
        && ServedBy(startBlock, Center(startBlock, endBlock) - 1, first, tip)
        && ServedBy(Center(startBlock, endBlock), endBlock, second, tip)
      else
        ServedBy(startBlock, endBlock, retry, tip)
  }

  /** Whatever failed on the way, the answer is the one scan of the range that `base` fixes. */
  lemma {:induction false} BisectionPreservesMeaning(startBlock: int, endBlock: int, attempts: Attempts, base: Block)
    requires ServedFrom(startBlock, endBlock, attempts, base) && endBlock <= Number(base)
    ensures FetchEventsFallOver(startBlock, endBlock, attempts) == FetchEvents(base, startBlock, endBlock)
    decreases attempts
  {
    match attempts
    case Served(tip) => ScanAgrees(base, tip, startBlock, endBlock);
    case Failed(error, retry, first, second) =>
      if Splits(startBlock, endBlock, error) {
        var center := Center(startBlock, endBlock);
        BisectionPreservesMeaning(startBlock, center - 1, first, base);
        BisectionPreservesMeaning(center, endBlock, second, base);
        ScanSplit(base, startBlock, center - 1, endBlock);
      } else {
        BisectionPreservesMeaning(startBlock, endBlock, retry, base);
      }
  }

  /** Against one chain view the result is that of one direct fetch, also beyond the head of the node. */
  lemma {:induction false} BisectionIsOneFetch(startBlock: int, endBlock: int, attempts: Attempts, tip: Block)
    requires ServedBy(startBlock, endBlock, attempts, tip)
    ensures FetchEventsFallOver(startBlock, endBlock, attempts) == FetchEvents(tip, startBlock, endBlock)
    decreases attempts
  {
    match attempts
    case Served(_) =>
    case Failed(error, retry, first, second) =>
      if Splits(startBlock, endBlock, error) {
        var center := Center(startBlock, endBlock);
        BisectionIsOneFetch(startBlock, center - 1, first, tip);
        BisectionIsOneFetch(center, endBlock, second, tip);
        ScanSplit(tip, startBlock, center - 1, endBlock);
      } else {
        BisectionIsOneFetch(startBlock, endBlock, retry, tip);
      }
  }

  /** Events with block numbers inside the range, in the order of the chain. */
  ghost predicate InOrder(events: seq<Event>, startBlock: int, endBlock: int)
  {
    && (forall e <- events :: startBlock <= e.blockNumber <= endBlock)
    && (forall i, j | 0 <= i < j < |events| :: events[i].blockNumber <= events[j].blockNumber)
  }

  lemma {:induction false} ScanInOrder(tip: Block, first: int, last: int)
    ensures InOrder(Scan(tip, first, last), first, last)
    decreases last - first
  {
    if first <= last {
      ScanInOrder(tip, first, last - 1);
    }
  }

  /** Even when the nodes that answered disagree about the chain, no event is out of range or out of order. */
  lemma {:induction false} BisectionKeepsOrder(startBlock: int, endBlock: int, attempts: Attempts)
    ensures InOrder(FetchEventsFallOver(startBlock, endBlock, attempts).events, startBlock, endBlock)
    decreases attempts
  {
    match attempts
    case Served(tip) => ScanInOrder(tip, startBlock, endBlock);
    case Failed(error, retry, first, second) =>
      if Splits(startBlock, endBlock, error) {
        var center := Center(startBlock, endBlock);
        BisectionKeepsOrder(startBlock, center - 1, first);
        BisectionKeepsOrder(center, endBlock, second);
      } else {
        BisectionKeepsOrder(startBlock, endBlock, retry);
      }
  }

  // ---- Cost. Calls of fetchEventsFallOver, requests that were answered, depth of the recursion.

  function Calls(startBlock: int, endBlock: int, attempts: Attempts): nat
    decreases attempts
  {
    match attempts
    case Served(_) => 1
    case Failed(error, retry, first, second) =>
      1 + if Splits(startBlock, endBlock, error) then
            Calls(startBlock, Center(startBlock, endBlock) - 1, first)
              + Calls(Center(startBlock, endBlock), endBlock, second)
          else Calls(startBlock, endBlock, retry)
  }

  function Leaves(startBlock: int, endBlock: int, attempts: Attempts): (leaves: nat)
    ensures leaves >= 1
    decreases attempts
  {
    match attempts
    case Served(_) => 1
    case Failed(error, retry, first, second) =>
      if Splits(startBlock, endBlock, error) then
        Leaves(startBlock, Center(startBlock, endBlock) - 1, first)
          + Leaves(Center(startBlock, endBlock), endBlock, second)
      else Leaves(startBlock, endBlock, retry)
  }

  function Depth(startBlock: int, endBlock: int, attempts: Attempts): nat
    decreases attempts
  {
    match attempts
    case Served(_) => 0
    case Failed(error, retry, first, second) =>
      1 + if Splits(startBlock, endBlock, error) then
            Max(Depth(startBlock, Center(startBlock, endBlock) - 1, first),
              Depth(Center(startBlock, endBlock), endBlock, second))
          else Depth(startBlock, endBlock, retry)
  }

  /** A node as a function of the range it is asked for: it answers from `tip`, or it fails. */
  type Node = (int, int) -> Option<FetchError>

  /** The failures of a node that the range was too much for: a timeout, a server error, no response, or a limit. */
  predicate IsTooMuch(error: FetchError)
  {
    || error.code in {"TIMEOUT", "SERVER_ERROR"} || error.reason == "missing response"
    || error.rpcCode in {Some(-32005), Some(-32064), Some(-32600), Some(-32602)}
  }

  /** Ranges of at most two blocks succeed, and a failure on a longer one is of a splitting class. */
  ghost predicate Splitting(node: Node)
  {
    forall s, e :: node(s, e).Some? ==> e - s > 1 && IsTooMuch(node(s, e).value)
  }

  /** A failure halves the range exactly if it was too much and has three blocks; any other repeats the same range. */
  lemma SplitsExactly(startBlock: int, endBlock: int, error: FetchError, retry: Attempts, one: Attempts, two: Attempts)
    ensures var failed := Failed(error, retry, one, two);
            var middle := startBlock + (endBlock - startBlock + 1) / 2;
            if endBlock - startBlock > 1 && IsTooMuch(error) then
              var first, second := FetchEventsFallOver(startBlock, middle - 1, one),
                FetchEventsFallOver(middle, endBlock, two);
              && FetchEventsFallOver(startBlock, endBlock, failed)
              == EventGroup(first.events + second.events, startBlock, endBlock)
              && Calls(startBlock, endBlock, failed)
              == 1 + Calls(startBlock, middle - 1, one) + Calls(middle, endBlock, two)
            else
              && FetchEventsFallOver(startBlock, endBlock, failed) == FetchEventsFallOver(startBlock, endBlock, retry)
              && Calls(startBlock, endBlock, failed) == 1 + Calls(startBlock, endBlock, retry)
  {
    TooMuchIsPartitioned(error);
    assert Center(startBlock, endBlock) == startBlock + (endBlock - startBlock + 1) / 2;
  }

  /** The classes of errors that the code partitions on are exactly these. */
  lemma TooMuchIsPartitioned(error: FetchError)
    ensures IsTooMuch(error) <==> IsPartitionRequired(error)
  {
    if error.rpcCode.Some? {
      var c := error.rpcCode.value;
      assert c in ERRORS_LIMIT_EXCEEDED <==> c == -32005 || c == -32064 || c == -32600 || c == -32602;
    }
  }

  /** What the call meets at such a node. That this function is total is that the call terminates. */
  ghost function Met(startBlock: int, endBlock: int, node: Node, tip: Block): (attempts: Attempts)
    requires Splitting(node)
    ensures ServedBy(startBlock, endBlock, attempts, tip)
    decreases endBlock - startBlock
  {
    if node(startBlock, endBlock).None? then Served(tip)
    else
      var center := Center(startBlock, endBlock);
      TooMuchIsPartitioned(node(startBlock, endBlock).value);
      assert Splits(startBlock, endBlock, node(startBlock, endBlock).value);
      Failed(node(startBlock, endBlock).value, Served(tip),
             Met(startBlock, center - 1, node, tip), Met(center, endBlock, node, tip))
  }

  function Power2(k: nat): (p: nat)
    ensures p >= 1
  {
    if k == 0 then 1 else 2 * Power2(k - 1)
  }

  /** With len = endBlock - startBlock + 1 >= 2: at most 2 len / 3 answered requests and 4 len / 3 - 1 calls. */
  lemma {:induction false} BisectionCost(startBlock: int, endBlock: int, node: Node, tip: Block)
    requires Splitting(node) && startBlock <= endBlock
    ensures var met, len := Met(startBlock, endBlock, node, tip), endBlock - startBlock + 1;
            && Calls(startBlock, endBlock, met) == 2 * Leaves(startBlock, endBlock, met) - 1
            && (len == 1 ==> Leaves(startBlock, endBlock, met) == 1)
            && (len >= 2 ==> 3 * Leaves(startBlock, endBlock, met) <= 2 * len)
            && (len >= 2 ==> 3 * Calls(startBlock, endBlock, met) <= 4 * len - 3)
    decreases endBlock - startBlock
  {
    if node(startBlock, endBlock).Some? {
      var center := Center(startBlock, endBlock);
      BisectionCost(startBlock, center - 1, node, tip);
      BisectionCost(center, endBlock, node, tip);
    }
  }

  /** The recursion is at most `k` deep for a range of at most 2^(k+1) blocks. */
  lemma {:induction false} BisectionDepth(startBlock: int, endBlock: int, node: Node, tip: Block, k: nat)
    requires Splitting(node) && startBlock <= endBlock && endBlock - startBlock + 1 <= Power2(k + 1)
    ensures Depth(startBlock, endBlock, Met(startBlock, endBlock, node, tip)) <= k
    decreases k
  {
    if node(startBlock, endBlock).Some? {
      assert Splits(startBlock, endBlock, node(startBlock, endBlock).value);
      assert k > 0;
      var center := Center(startBlock, endBlock);
      BisectionDepth(startBlock, center - 1, node, tip, k - 1);
      BisectionDepth(center, endBlock, node, tip, k - 1);
    }
  }

  lemma LeavesOfSplit(startBlock: int, endBlock: int, node: Node, tip: Block)
    requires Splitting(node) && node(startBlock, endBlock).Some?
    ensures var center := Center(startBlock, endBlock);
            && startBlock < center <= endBlock
            && Leaves(startBlock, endBlock, Met(startBlock, endBlock, node, tip))
            == Leaves(startBlock, center - 1, Met(startBlock, center - 1, node, tip))
              + Leaves(center, endBlock, Met(center, endBlock, node, tip))
  {
    assert Splits(startBlock, endBlock, node(startBlock, endBlock).value);
  }

  /** The cost bound is attained by every node that fails wherever it may. */
  lemma {:induction false} CostBoundIsTight(startBlock: int, node: Node, tip: Block, k: nat)
    requires Splitting(node) && forall s, e | IsPartitionable(s, e) :: node(s, e).Some?
    ensures var endBlock := startBlock + 3 * Power2(k) - 1;
            3 * Leaves(startBlock, endBlock, Met(startBlock, endBlock, node, tip)) == 2 * (endBlock - startBlock + 1)
    decreases k
  {
    hide Leaves, Met, Splitting, Splits;
    var endBlock := startBlock + 3 * Power2(k) - 1;
    assert IsPartitionable(startBlock, endBlock);
    LeavesOfSplit(startBlock, endBlock, node, tip);
    if k == 0 {
      BisectionCost(startBlock, startBlock, node, tip);
      BisectionCost(startBlock + 1, endBlock, node, tip);
    } else {
      CostBoundIsTight(startBlock, node, tip, k - 1);
      CostBoundIsTight(startBlock + 3 * Power2(k - 1), node, tip, k - 1);
    }
  }
}
