/** The OneAtTime decorator: a call that arrives while another one runs is dropped. */
module OneAtTime {

  /** The captured flag; the activations that run, those that have returned or thrown, and the dropped calls. */
  datatype Lock<T> = Lock(isExecuting: bool, live: seq<T>, settled: seq<T>, dropped: seq<T>)

  function Free<T>(): Lock<T>
  {
    Lock(false, [], [], [])
  }

  function Entered<T>(lock: Lock<T>, call: T): Lock<T>
  {
    if lock.isExecuting then lock.(dropped := lock.dropped + [call])
    else lock.(isExecuting := true, live := lock.live + [call])
  }

  /** The activation `i` returns or throws; `finally` clears the flag either way. */
  function Left<T>(lock: Lock<T>, i: nat): Lock<T>
  {
    if i < |lock.live| then
      lock.(isExecuting := false, live := lock.live[..i] + lock.live[i + 1..], settled := lock.settled + [lock.live[i]])
    else lock
  }

  class OneAtTime<T> {
    var isExecuting: bool
    ghost var live: seq<T>
    ghost var settled: seq<T>
    ghost var dropped: seq<T>

    constructor ()
      ensures State() == Free()
    {
      isExecuting := false;
      live, settled, dropped := [], [], [];
    }

    ghost function State(): Lock<T>
      reads this
    {
      Lock(isExecuting, live, settled, dropped)
    }

    /** The decorated method is called; it runs only if `started`. */
    method Enter(ghost call: T) returns (started: bool)
      modifies this
      ensures State() == Entered(old(State()), call) && started == !old(isExecuting)
    {
      if isExecuting {
        dropped := dropped + [call];
        return false;
      }
      isExecuting := true;
      live := live + [call];
      return true;
    }

    method Leave(ghost i: nat)
      requires i < |live|
      modifies this
      ensures State() == Left(old(State()), i)
    {
      isExecuting := false;
      settled := settled + [live[i]];
      live := live[..i] + live[i + 1..];
    }
  }

  datatype Turn<T> = Calls(call: T) | Settles(i: nat)

  function Turned<T>(lock: Lock<T>, turn: Turn<T>): Lock<T>
  {
    match turn
    case Calls(call) => Entered(lock, call)
    case Settles(i) => Left(lock, i)
  }

  function After<T>(lock: Lock<T>, history: seq<Turn<T>>): Lock<T>
    decreases |history|
  {
    if history == [] then lock else After(Turned(lock, history[0]), history[1..])
  }

  /** At most one activation runs, and the flag is set exactly while one does. */
  ghost predicate Exclusive<T>(lock: Lock<T>)
  {
    |lock.live| <= 1 && (lock.isExecuting <==> lock.live != [])
  }

  /** The call was made: it runs, it has run, or it was dropped. */
  predicate WasCalled<T(==)>(lock: Lock<T>, call: T)
  {
    call in lock.live || call in lock.settled || call in lock.dropped
  }

  function Arrived<T>(history: seq<Turn<T>>): multiset<T>
    decreases |history|
  {
    if history == [] then multiset{}
    else (if history[0].Calls? then multiset{history[0].call} else multiset{}) + Arrived(history[1..])
  }

  function Accounted<T>(lock: Lock<T>): multiset<T>
  {
    multiset(lock.live) + multiset(lock.settled) + multiset(lock.dropped)
  }

  lemma TurnExcludes<T>(lock: Lock<T>, turn: Turn<T>)
    requires Exclusive(lock)
    ensures Exclusive(Turned(lock, turn))
  {}

  lemma TurnAccounts<T>(lock: Lock<T>, turn: Turn<T>)
    ensures Accounted(Turned(lock, turn)) == Accounted(lock) + if turn.Calls? then multiset{turn.call} else multiset{}
  {
    if turn.Settles? && turn.i < |lock.live| {
      assert lock.live == lock.live[..turn.i] + [lock.live[turn.i]] + lock.live[turn.i + 1..];
    }
  }

  /** Under every interleaving of calls, returns and throws the lock is exclusive, and every call is accounted for
      once. */
  lemma {:induction false} LockIsExclusive<T>(lock: Lock<T>, history: seq<Turn<T>>)
    requires Exclusive(lock)
    ensures Exclusive(After(lock, history)) && Accounted(After(lock, history)) == Accounted(lock) + Arrived(history)
    decreases |history|
  {
    hide Turned, Accounted, Exclusive;
    if history != [] {
      TurnExcludes(lock, history[0]);
      TurnAccounts(lock, history[0]);
      LockIsExclusive(Turned(lock, history[0]), history[1..]);
    }
  }

  /** A call is dropped if and only if another activation is live when it arrives. */
  lemma DroppedOnlyWhileBusy<T>(history: seq<Turn<T>>, call: T)
    ensures var lock := After(Free(), history);
            Entered(lock, call).dropped != lock.dropped <==> lock.live != []
  {
    var free: Lock<T> := Free();
    LockIsExclusive(free, history);
    var lock := After(free, history);
    assert |(lock.dropped + [call])| == |lock.dropped| + 1;
  }
}
