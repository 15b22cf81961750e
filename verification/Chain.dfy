/**
 The chain as the daemon sees it. Block hashes are collision free, so a block stands for its own
 hash: two blocks with one hash have one parent, one content and therefore one history.
 */
module Chain {
  import opened Wrappers

  /** A deposit as the deposit contract logs it; `valid` is the BLS verdict over its four signed fields. */
  datatype Deposit = Deposit(pubkey: string, wc: string, amount: string, signature: string, tx: string, valid: bool)

  datatype Module = Module(nonce: int, unusedKeys: seq<string>, active: bool)

  /** What the contracts answer when they are asked at one block hash. */
  datatype Contracts = Contracts(depositRoot: string, lidoWC: string, guardians: seq<string>, modules: map<int, Module>)

  datatype Block =
    | Genesis(genesis: Contracts)
    | Block(parent: Block, salt: int, deposits: seq<Deposit>, state: Contracts)

  datatype Event = Event(
    pubkey: string, wc: string, amount: string, signature: string, tx: string,
    blockNumber: int, blockHash: Block, valid: bool)

  function Number(b: Block): nat
  {
    if b.Genesis? then 0 else Number(b.parent) + 1
  }

  function ContractsAt(b: Block): Contracts
  {
    if b.Genesis? then b.genesis else b.state
  }

  /** The block at height `k` in the history of `b`. */
  function Ancestor(b: Block, k: nat): (a: Block)
    requires k <= Number(b)
    ensures Number(a) == k
  {
    if k == Number(b) then b else Ancestor(b.parent, k)
  }

  /** `a` is in the history of `tip` (or is `tip` itself). */
  predicate OnChain(a: Block, tip: Block)
  {
    Number(a) <= Number(tip) && Ancestor(tip, Number(a)) == a
  }

  function EventOf(b: Block, d: Deposit): Event
  {
    Event(d.pubkey, d.wc, d.amount, d.signature, d.tx, Number(b), b, d.valid)
  }

  function BlockEvents(b: Block): (events: seq<Event>)
    ensures forall e <- events :: e.blockNumber == Number(b) && e.blockHash == b
  {
    if b.Genesis? then []
    else seq(|b.deposits|, i requires 0 <= i < |b.deposits| => EventOf(b, b.deposits[i]))
  }

  /** The deposit events a node with head `tip` has at height `k`; a node knows nothing above its head. */
  function EventsAt(tip: Block, k: int): (events: seq<Event>)
    ensures forall e <- events :: e.blockNumber == k
  {
    if 0 <= k <= Number(tip) then BlockEvents(Ancestor(tip, k)) else []
  }

  /** The naive scan: every deposit event of the blocks `first .. last`, both included, in chain order. */
  function Scan(tip: Block, first: int, last: int): seq<Event>
    decreases last - first
  {
    if last < first then [] else Scan(tip, first, last - 1) + EventsAt(tip, last)
  }

  lemma {:induction false} AncestorOfAncestor(b: Block, m: nat, k: nat)
    requires k <= m <= Number(b)
    ensures Ancestor(Ancestor(b, m), k) == Ancestor(b, k)
  {
    if m < Number(b) {
      AncestorOfAncestor(b.parent, m, k);
    }
  }

  /** Two blocks of one history are themselves ordered by it. */
  lemma OnChainLinear(a: Block, b: Block, tip: Block)
    requires OnChain(a, tip) && OnChain(b, tip) && Number(a) <= Number(b)
    ensures OnChain(a, b)
  {
    AncestorOfAncestor(tip, Number(b), Number(a));
  }

  /** Adjacent scans join to the scan of both ranges. */
  lemma {:induction false} ScanSplit(tip: Block, first: int, middle: int, last: int)
    requires first - 1 <= middle <= last
    ensures Scan(tip, first, last) == Scan(tip, first, middle) + Scan(tip, middle + 1, last)
    decreases last - middle
  {
    hide EventsAt;
    if middle < last {
      ScanSplit(tip, first, middle, last - 1);
      ConcatAssociates(Scan(tip, first, middle), Scan(tip, middle + 1, last - 1), EventsAt(tip, last));
    }
  }

  /** Everything up to `b` reads the same on every chain that contains `b`. */
  lemma {:induction false} ScanAgrees(b: Block, tip: Block, first: int, last: int)
    requires OnChain(b, tip) && last <= Number(b)
    ensures Scan(tip, first, last) == Scan(b, first, last)
    decreases last - first
  {
    hide EventsAt, OnChain;
    if first <= last {
      ScanAgrees(b, tip, first, last - 1);
      EventsAgree(b, tip, last);
    }
  }

  lemma EventsAgree(b: Block, tip: Block, k: int)
    requires OnChain(b, tip) && k <= Number(b)
    ensures EventsAt(tip, k) == EventsAt(b, k)
  {
    if 0 <= k {
      AncestorOfAncestor(tip, Number(b), k);
    }
  }

  /** A scan holds exactly the events of the blocks in its range. */
  lemma {:induction false} ScanMembers(tip: Block, first: int, last: int, e: Event)
    ensures e in Scan(tip, first, last) <==> first <= e.blockNumber <= last && e in EventsAt(tip, e.blockNumber)
    decreases last - first
  {
    hide EventsAt;
    if first <= last {
      ScanMembers(tip, first, last - 1, e);
    }
  }
}
