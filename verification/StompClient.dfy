/**
 The connection of StompClient: connectWithRetry as a chain of attempts cut at its awaits, among the
 handlers of the socket and the callers of connect and send, in every interleaving.
 */
module StompClient {
  import opened Wrappers

  const SLEEP := 250
  const CLOSED_NORMALLY := 1000

  datatype Options = Options(reconnectAttempts: int, reconnectTimeout: nat, webSocketConnectTimeout: nat)

  /** Where connectWithRetry waits: inside waitWsConnection, for the CONNECT frame to be sent, or before the next
      attempt. */
  datatype Pc = Waiting(totalPassed: nat) | Transmitting | Pausing

  /** `slept` is all the time the chain has slept. */
  datatype Chain = Chain(attempt: nat, pc: Pc, slept: nat)

  datatype Settled = Settled(attempts: nat, slept: nat, connects: bool)

  /** The fields, with connectionPromise as whether it is set, and the chains that live and that have settled. */
  datatype Client = Client(
    isOpened: bool, isConnected: bool, connectionPromise: bool, chains: seq<Chain>, settled: seq<Settled>)

  /** `throws`: creating the socket throws; `goes`: the frame is sent. */
  datatype Event =
    | Connect(throws: bool)
    | Send(throws: bool)
    | SocketOpen
    | ConnectedFrame
    | SocketClose(code: int, throws: bool)
    | SocketError(throws: bool)
    | Disconnect(goes: bool)
    | Resume(i: nat, goes: bool, throws: bool)

  function CleanedUp(c: Client): Client
  {
    c.(isConnected := false, isOpened := false)
  }

  /** The catch block: give up after the last attempt, otherwise clean up and pause. */
  function Caught(c: Client, chain: Chain, o: Options): (Client, Option<Chain>)
  {
    if chain.attempt >= o.reconnectAttempts then
      (c.(connectionPromise := false, settled := c.settled + [Settled(chain.attempt, chain.slept, false)]), None)
    else (CleanedUp(c), Some(chain.(attempt := chain.attempt + 1, pc := Pausing)))
  }

  /** The synchronous start of an attempt: create the socket, and wait for it unless one is open. */
  function Attempted(c: Client, chain: Chain, throws: bool, o: Options): (Client, Option<Chain>)
  {
    if throws then Caught(c, chain, o)
    else (c, Some(chain.(pc := if c.isOpened then Transmitting else Waiting(0))))
  }

  /** `this.connectionPromise = this.connectWithRetry()`: the chain runs to its first await, then the field is set. */
  function Started(c: Client, throws: bool, o: Options): Client
  {
    var run := Attempted(c, Chain(1, Waiting(0), 0), throws, o);
    run.0.(connectionPromise := true, chains := run.0.chains + if run.1.Some? then [run.1.value] else [])
  }

  function Reconnected(c: Client, throws: bool, o: Options): Client
  {
    if c.connectionPromise then c else Started(CleanedUp(c), throws, o)
  }

  /** The chain goes on from its await. */
  function Resumed(c: Client, chain: Chain, goes: bool, throws: bool, o: Options): (Client, Option<Chain>)
  {
    match chain.pc
    case Waiting(totalPassed) =>
      var passed, woken := totalPassed + SLEEP, chain.(slept := chain.slept + SLEEP);
      if o.webSocketConnectTimeout < passed then Caught(c, woken, o)
      else (c, Some(woken.(pc := if c.isOpened then Transmitting else Waiting(passed))))
    case Transmitting =>
      if goes then (c.(connectionPromise := false, settled := c.settled + [Settled(chain.attempt, chain.slept, true)]),
        None)
      else Caught(c, chain, o)
    case Pausing => Attempted(c, chain.(slept := chain.slept + o.reconnectTimeout), throws, o)
  }

  function WithChain(c: Client, i: nat, chain: Option<Chain>): Client
    requires i < |c.chains|
  {
    c.(chains := if chain.Some? then c.chains[i := chain.value] else c.chains[..i] + c.chains[i + 1..])
  }

  function Step(c: Client, e: Event, o: Options): Client
  {
    match e
    case Connect(throws) => if c.connectionPromise then c else Started(c, throws, o)
    case Send(throws) => if c.isOpened && c.isConnected then c else Reconnected(c, throws, o)
    case SocketOpen => c.(isOpened := true)
    case ConnectedFrame => c.(isConnected := true)
    case SocketClose(code, throws) =>
      if c.connectionPromise then c
      else if code == CLOSED_NORMALLY then CleanedUp(c)
      else Reconnected(CleanedUp(c), throws, o)
    case SocketError(throws) => Reconnected(c, throws, o)
    case Disconnect(goes) => if goes then CleanedUp(c) else c
    case Resume(i, goes, throws) =>
      if i < |c.chains| then
        var run := Resumed(c, c.chains[i], goes, throws, o);
        WithChain(run.0, i, run.1)
      else c
  }

  const INITIAL := Client(false, false, false, [], [])

  /** The client as an object: each handler does what its step says. */
  class StompClient {
    var isOpened: bool
    var isConnected: bool
    var connectionPromise: bool
    var chains: seq<Chain>
    ghost var settled: seq<Settled>
    const options: Options

    constructor (options: Options)
      ensures State() == INITIAL && this.options == options
    {
      this.isOpened, this.isConnected, this.connectionPromise := false, false, false;
      this.chains, this.settled := [], [];
      this.options := options;
    }

    ghost function State(): Client
      reads this
    {
      Client(isOpened, isConnected, connectionPromise, chains, settled)
    }

    method CleanUp()
      modifies this
      ensures State() == CleanedUp(old(State()))
    {
      isConnected := false;
      isOpened := false;
    }

    /** The catch block of connectWithRetry; the chain that goes on, if it does. */
    method Catch(chain: Chain) returns (next: Option<Chain>)
      modifies this
      ensures (State(), next) == Caught(old(State()), chain, options)
    {
      if chain.attempt >= options.reconnectAttempts {
        connectionPromise := false;
        settled := settled + [Settled(chain.attempt, chain.slept, false)];
        return None;
      }
      CleanUp();
      return Some(chain.(attempt := chain.attempt + 1, pc := Pausing));
    }

    method Attempt(chain: Chain, throws: bool) returns (next: Option<Chain>)
      modifies this
      ensures (State(), next) == Attempted(old(State()), chain, throws, options)
    {
      if throws {
        next := Catch(chain);
      } else {
        next := Some(chain.(pc := if isOpened then Transmitting else Waiting(0)));
      }
    }

    method Start(throws: bool)
      modifies this
      ensures State() == Started(old(State()), throws, options)
    {
      var next := Attempt(Chain(1, Waiting(0), 0), throws);
      if next.Some? {
        chains := chains + [next.value];
      }
      connectionPromise := true;
      assert chains == old(chains) + if next.Some? then [next.value] else [];
    }

    method DoConnect(throws: bool)
      modifies this
      ensures State() == Step(old(State()), Connect(throws), options)
    {
      if connectionPromise {
        return;
      }
      Start(throws);
    }

    method Reconnect(throws: bool)
      modifies this
      ensures State() == Reconnected(old(State()), throws, options)
    {
      if connectionPromise {
        return;
      }
      CleanUp();
      Start(throws);
    }

    method DoSend(throws: bool)
      modifies this
      ensures State() == Step(old(State()), Send(throws), options)
    {
      if !isOpened || !isConnected {
        Reconnect(throws);
      }
    }

    method OnClose(code: int, throws: bool)
      modifies this
      ensures State() == Step(old(State()), SocketClose(code, throws), options)
    {
      if connectionPromise {
        return;
      }
      CleanUp();
      if code == CLOSED_NORMALLY {
        return;
      }
      Reconnect(throws);
    }

    method OnError(throws: bool)
      modifies this
      ensures State() == Step(old(State()), SocketError(throws), options)
    {
      if connectionPromise {
        return;
      }
      Reconnect(throws);
    }

    method DoDisconnect(goes: bool)
      modifies this
      ensures State() == Step(old(State()), Disconnect(goes), options)
    {
      if goes {
        CleanUp();
      }
    }

    /** The chain wakes from its await: a sleep of waitWsConnection, the CONNECT frame, or the pause. */
    method Wake(chain: Chain, goes: bool, throws: bool) returns (next: Option<Chain>)
      modifies this
      ensures (State(), next) == Resumed(old(State()), chain, goes, throws, options)
    {
      match chain.pc
      case Waiting(totalPassed) =>
        var passed := totalPassed + SLEEP;
        var woken := chain.(slept := chain.slept + SLEEP);
        if options.webSocketConnectTimeout < passed {
          next := Catch(woken);
        } else {
          next := Some(woken.(pc := if isOpened then Transmitting else Waiting(passed)));
        }
      case Transmitting =>
        if goes {
          connectionPromise := false;
          settled := settled + [Settled(chain.attempt, chain.slept, true)];
          next := None;
        } else {
          next := Catch(chain);
        }
      case Pausing =>
        next := Attempt(chain.(slept := chain.slept + options.reconnectTimeout), throws);
    }

    method DoResume(i: nat, goes: bool, throws: bool)
      requires i < |chains|
      modifies this
      ensures State() == Step(old(State()), Resume(i, goes, throws), options)
    {
      var next := Wake(chains[i], goes, throws);
      chains := if next.Some? then chains[i := next.value] else chains[..i] + chains[i + 1..];
    }

    method OnOpen()
      modifies this
      ensures State() == Step(old(State()), SocketOpen, options)
    {
      isOpened := true;
    }

    method OnConnectedFrame()
      modifies this
      ensures State() == Step(old(State()), ConnectedFrame, options)
    {
      isConnected := true;
    }
  }

  /**
   waitWsConnection for a socket that opens during the k-th sleep (0: it is open already), or never. The
   loop looks at the clock before it looks at the socket, so a socket that opens in time but during the
   sleep that crosses the timeout is given up.
   */
  method WaitWsConnection(timeout: nat, opensIn: Option<nat>) returns (totalPassed: nat, opens: bool)
    ensures opens <==> opensIn.Some? && SLEEP * opensIn.value <= timeout
    ensures totalPassed == SLEEP * (if opens then opensIn.value else timeout / SLEEP + 1)
  {
    totalPassed := 0;
    var sleeps := 0;
    while opensIn.None? || sleeps < opensIn.value
      invariant totalPassed == SLEEP * sleeps <= timeout
      invariant opensIn.Some? ==> sleeps <= opensIn.value
      decreases timeout - totalPassed
    {
      totalPassed := totalPassed + SLEEP;
      sleeps := sleeps + 1;
      if timeout < totalPassed {
        return totalPassed, false;
      }
    }
    return totalPassed, true;
  }

  // ---- Single flight.

  function Run(c: Client, events: seq<Event>, o: Options): Client
    decreases |events|
  {
    if events == [] then c else Run(Step(c, events[0], o), events[1..], o)
  }

  /** At most one chain lives, and never without the promise. */
  ghost predicate SingleFlight(c: Client)
  {
    |c.chains| <= 1 && (c.chains != [] ==> c.connectionPromise)
  }

  /** The promise is set exactly while a chain lives. */
  ghost predicate PromiseMatches(c: Client)
  {
    c.connectionPromise <==> c.chains != []
  }

  /** This event starts a chain now. */
  predicate Starts(c: Client, e: Event)
  {
    && !c.connectionPromise
    && match e
       case Connect(_) => true
       case Send(_) => !c.isOpened || !c.isConnected
       case SocketClose(code, _) => code != CLOSED_NORMALLY
       case SocketError(_) => true
       case _ => false
  }

  /** A chain whose only attempt throws before its first await. */
  predicate FatalStart(c: Client, e: Event, o: Options)
  {
    Starts(c, e) && e.throws && o.reconnectAttempts <= 1
  }

  ghost predicate NoFatalStart(c: Client, events: seq<Event>, o: Options)
    decreases |events|
  {
    events == [] || (!FatalStart(c, events[0], o) && NoFatalStart(Step(c, events[0], o), events[1..], o))
  }

  /** A start sets the promise, and its chain lives unless it threw and had no attempt left. */
  lemma StartedShape(c: Client, throws: bool, o: Options)
    ensures var next := Started(c, throws, o);
            && next.connectionPromise
            && (if throws && o.reconnectAttempts <= 1 then next.chains == c.chains else |next.chains| == |c.chains| + 1)
  {}

  /** A chain that ends takes the promise with it. */
  lemma ResumedShape(c: Client, chain: Chain, goes: bool, throws: bool, o: Options)
    ensures var run := Resumed(c, chain, goes, throws, o);
            && run.0.chains == c.chains
            && run.0.connectionPromise == (run.1.Some? && c.connectionPromise)
  {}

  lemma StepSingleFlight(c: Client, e: Event, o: Options)
    requires SingleFlight(c)
    ensures SingleFlight(Step(c, e, o))
    ensures PromiseMatches(c) ==> (PromiseMatches(Step(c, e, o)) <==> !FatalStart(c, e, o))
    ensures !PromiseMatches(c) ==> Step(c, e, o).connectionPromise && Step(c, e, o).chains == [] && !FatalStart(c, e, o)
  {
    hide Started, Resumed;
    match e
    case Resume(i, goes, throws) =>
      if i < |c.chains| {
        ResumedShape(c, c.chains[i], goes, throws, o);
      }
    case SocketOpen =>
    case ConnectedFrame =>
    case Disconnect(_) =>
    case _ =>
      StartedShape(c, e.throws, o);
      StartedShape(CleanedUp(c), e.throws, o);
      assert CleanedUp(CleanedUp(c)) == CleanedUp(c);
  }

  lemma {:induction false} StuckForever(c: Client, events: seq<Event>, o: Options)
    requires SingleFlight(c) && !PromiseMatches(c)
    ensures Run(c, events, o).connectionPromise && Run(c, events, o).chains == []
    decreases |events|
  {
    hide Step;
    if events != [] {
      StepSingleFlight(c, events[0], o);
      StuckForever(Step(c, events[0], o), events[1..], o);
    }
  }

  lemma {:induction false} RunSingleFlight(c: Client, events: seq<Event>, o: Options)
    requires SingleFlight(c) && PromiseMatches(c)
    ensures SingleFlight(Run(c, events, o))
    ensures PromiseMatches(Run(c, events, o)) <==> NoFatalStart(c, events, o)
    decreases |events|
  {
    hide Step, FatalStart;
    if events != [] {
      var next := Step(c, events[0], o);
      StepSingleFlight(c, events[0], o);
      if PromiseMatches(next) {
        RunSingleFlight(next, events[1..], o);
      } else {
        StuckForever(next, events[1..], o);
      }
    }
  }

  /**
   Single flight: under every interleaving at most one connectWithRetry chain lives. The promise is set
   exactly while one does, if and only if no chain whose only attempt it was threw synchronously: the
   assignment then overwrites the null its catch block left, and the client never connects again.
   */
  lemma SingleFlightReconnect(events: seq<Event>, o: Options)
    ensures SingleFlight(Run(INITIAL, events, o))
    ensures PromiseMatches(Run(INITIAL, events, o)) <==> NoFatalStart(INITIAL, events, o)
    ensures o.reconnectAttempts >= 2 ==> PromiseMatches(Run(INITIAL, events, o))
  {
    RunSingleFlight(INITIAL, events, o);
    if o.reconnectAttempts >= 2 {
      EnoughAttempts(INITIAL, events, o);
    }
  }

  lemma {:induction false} EnoughAttempts(c: Client, events: seq<Event>, o: Options)
    requires o.reconnectAttempts >= 2
    ensures NoFatalStart(c, events, o)
    decreases |events|
  {
    hide Step;
    if events != [] {
      EnoughAttempts(Step(c, events[0], o), events[1..], o);
    }
  }

  // ---- The time bound.

  function MaxAttempts(o: Options): nat
  {
    Max(1, o.reconnectAttempts)
  }

  /** The longest an attempt sleeps in waitWsConnection. */
  function MaxWait(o: Options): nat
  {
    SLEEP * (o.webSocketConnectTimeout / SLEEP + 1)
  }

  /** The longest a chain has slept when attempt `n` begins. */
  function SleptBefore(n: nat, o: Options): nat
  {
    if n <= 1 then 0 else SleptBefore(n - 1, o) + MaxWait(o) + o.reconnectTimeout
  }

  ghost predicate ChainInTime(chain: Chain, o: Options)
  {
    && 1 <= chain.attempt <= MaxAttempts(o)
    && match chain.pc
       case Waiting(passed) =>
         passed % SLEEP == 0 && passed <= o.webSocketConnectTimeout
           && chain.slept <= SleptBefore(chain.attempt, o) + passed
       case Transmitting => chain.slept <= SleptBefore(chain.attempt, o) + MaxWait(o)
       case Pausing => chain.attempt > 1 && chain.slept + o.reconnectTimeout <= SleptBefore(chain.attempt, o)
  }

  ghost predicate InTime(c: Client, o: Options)
  {
    && (forall chain <- c.chains :: ChainInTime(chain, o))
    && (forall s <- c.settled ::
          1 <= s.attempts <= MaxAttempts(o) && s.slept <= SleptBefore(s.attempts, o) + MaxWait(o))
  }

  lemma CaughtInTime(c: Client, chain: Chain, o: Options)
    requires InTime(c, o) && 1 <= chain.attempt <= MaxAttempts(o)
    requires chain.slept <= SleptBefore(chain.attempt, o) + MaxWait(o)
    ensures var run := Caught(c, chain, o);
            InTime(run.0, o) && (run.1.Some? ==> ChainInTime(run.1.value, o)) && run.0.chains == c.chains
  {}

  lemma ResumedInTime(c: Client, chain: Chain, goes: bool, throws: bool, o: Options)
    requires InTime(c, o) && ChainInTime(chain, o)
    ensures var run := Resumed(c, chain, goes, throws, o);
            InTime(run.0, o) && (run.1.Some? ==> ChainInTime(run.1.value, o)) && run.0.chains == c.chains
  {
    hide Caught;
    match chain.pc
    case Waiting(passed) => CaughtInTime(c, chain.(slept := chain.slept + SLEEP), o);
    case Transmitting => CaughtInTime(c, chain, o);
    case Pausing => CaughtInTime(c, chain.(slept := chain.slept + o.reconnectTimeout), o);
  }

  lemma StartedInTime(c: Client, throws: bool, o: Options)
    requires InTime(c, o)
    ensures InTime(Started(c, throws, o), o)
  {
    hide Caught;
    CaughtInTime(c, Chain(1, Waiting(0), 0), o);
  }

  lemma StepInTime(c: Client, e: Event, o: Options)
    requires InTime(c, o)
    ensures InTime(Step(c, e, o), o)
  {
    hide Started, Resumed, ChainInTime;
    if e.Resume? && e.i < |c.chains| {
      ResumedInTime(c, c.chains[e.i], e.goes, e.throws, o);
    } else if e.Connect? || e.Send? || e.SocketClose? || e.SocketError? {
      StartedInTime(c, e.throws, o);
      StartedInTime(CleanedUp(c), e.throws, o);
      assert CleanedUp(CleanedUp(c)) == CleanedUp(c);
    }
  }

  lemma {:induction false} RunInTime(c: Client, events: seq<Event>, o: Options)
    requires InTime(c, o)
    ensures InTime(Run(c, events, o), o)
    decreases |events|
  {
    hide Step;
    if events != [] {
      StepInTime(c, events[0], o);
      RunInTime(Step(c, events[0], o), events[1..], o);
    }
  }

  /** R attempts wait R times at most and pause R - 1 times. */
  lemma {:induction false} SleptInAll(n: nat, o: Options)
    requires n >= 1
    ensures SleptBefore(n, o) + MaxWait(o) == n * MaxWait(o) + (n - 1) * o.reconnectTimeout
  {
    if n > 1 {
      SleptInAll(n - 1, o);
      assert n * MaxWait(o) == (n - 1) * MaxWait(o) + MaxWait(o);
      assert (n - 1) * o.reconnectTimeout == (n - 2) * o.reconnectTimeout + o.reconnectTimeout;
    }
  }

  lemma {:induction false} SleptGrows(n: nat, m: nat, o: Options)
    requires n <= m
    ensures SleptBefore(n, o) <= SleptBefore(m, o)
  {
    if n < m {
      SleptGrows(n, m - 1, o);
    }
  }

  /**
   Reconnect bound: with R attempts, socket timeout T and pause P, every chain makes at most max(1, R)
   attempts and sleeps at most max(1, R) * 250 * (T / 250 + 1) + (max(1, R) - 1) * P before it settles.
   */
  lemma ReconnectBound(events: seq<Event>, o: Options)
    ensures var end := Run(INITIAL, events, o);
            var bound := MaxAttempts(o) * MaxWait(o) + (MaxAttempts(o) - 1) * o.reconnectTimeout;
            && (forall chain <- end.chains :: chain.attempt <= MaxAttempts(o) && chain.slept <= bound)
            && (forall s <- end.settled :: s.attempts <= MaxAttempts(o) && s.slept <= bound)
  {
    hide Run;
    RunInTime(INITIAL, events, o);
    var end := Run(INITIAL, events, o);
    SleptInAll(MaxAttempts(o), o);
    forall chain <- end.chains
      ensures chain.slept <= SleptBefore(MaxAttempts(o), o) + MaxWait(o)
    {
      assert ChainInTime(chain, o);
      SleptGrows(chain.attempt, MaxAttempts(o), o);
    }
    forall s <- end.settled
      ensures s.slept <= SleptBefore(MaxAttempts(o), o) + MaxWait(o)
    {
      SleptGrows(s.attempts, MaxAttempts(o), o);
    }
  }

  /** The chain has slept as long as it can have. */
  ghost predicate AtItsLimit(c: Client, chain: Chain, o: Options)
  {
    && c.chains == [chain] && !c.isOpened && ChainInTime(chain, o)
    && match chain.pc
       case Waiting(passed) => chain.slept == SleptBefore(chain.attempt, o) + passed
       case Transmitting => false
       case Pausing => chain.slept + o.reconnectTimeout == SleptBefore(chain.attempt, o)
  }

  /** The next attempt pauses first, a pause is followed by a wait, and a wait goes on by one sleep. */
  ghost predicate GoesOn(before: Chain, after: Chain, o: Options)
  {
    match before.pc
    case Waiting(passed) =>
      || (after.attempt == before.attempt && after.pc == Waiting(passed + SLEEP)
        && passed + SLEEP <= o.webSocketConnectTimeout)
      || (after.attempt == before.attempt + 1 <= MaxAttempts(o) && after.pc.Pausing?
          && o.webSocketConnectTimeout < passed + SLEEP)
    case Transmitting => false
    case Pausing => after.attempt == before.attempt && after.pc == Waiting(0)
  }

  /** The chain stays at its limit until it settles there. */
  lemma LimitStep(c: Client, chain: Chain, o: Options)
    requires AtItsLimit(c, chain, o)
    ensures var next := Step(c, Resume(0, false, false), o);
            if next.chains == [] then
              && chain.attempt == MaxAttempts(o) && chain.pc.Waiting?
              && o.webSocketConnectTimeout < chain.pc.totalPassed + SLEEP
              && next.settled == c.settled + [Settled(MaxAttempts(o), SleptBefore(MaxAttempts(o), o) + MaxWait(o),
                false)]
            else
              && AtItsLimit(next, next.chains[0], o) && next.settled == c.settled && GoesOn(chain, next.chains[0], o)
  {
    if chain.pc.Waiting? && o.webSocketConnectTimeout < chain.pc.totalPassed + SLEEP {
      LastSleep(chain.pc.totalPassed, o);
      hide MaxWait;
    }
  }

  /** The sleep that crosses the timeout makes the longest wait. */
  lemma LastSleep(passed: nat, o: Options)
    requires passed % SLEEP == 0 && passed <= o.webSocketConnectTimeout < passed + SLEEP
    ensures passed + SLEEP == MaxWait(o)
  {}

  lemma {:induction false} NeverOpens(c: Client, chain: Chain, o: Options) returns (events: seq<Event>)
    requires AtItsLimit(c, chain, o)
    ensures Run(c, events, o).settled == c.settled + [Settled(MaxAttempts(o),
        SleptBefore(MaxAttempts(o), o) + MaxWait(o), false)]
    decreases MaxAttempts(o) - chain.attempt, chain.pc.Pausing?, if chain.pc.Waiting?
      then o.webSocketConnectTimeout - chain.pc.totalPassed else 0
  {
    var e := Resume(0, false, false);
    var next := Step(c, e, o);
    hide Step, AtItsLimit, SleptBefore, MaxWait, MaxAttempts;
    LimitStep(c, chain, o);
    if next.chains == [] {
      events := [e];
      assert Run(next, [], o) == next;
    } else {
      var rest := NeverOpens(next, next.chains[0], o);
      events := [e] + rest;
      assert events[1..] == rest;
    }
  }

  /** The bound is reached by a socket that never opens. */
  lemma ReconnectBoundIsTight(o: Options)
    ensures exists events :: var end := Run(INITIAL, events, o);
              end.settled == [Settled(MaxAttempts(o), MaxAttempts(o) * MaxWait(o)
                + (MaxAttempts(o) - 1) * o.reconnectTimeout, false)]
  {
    var start := Connect(false);
    var c := Step(INITIAL, start, o);
    var rest := NeverOpens(c, c.chains[0], o);
    SleptInAll(MaxAttempts(o), o);
    assert ([start] + rest)[1..] == rest;
    assert Run(INITIAL, [start] + rest, o) == Run(c, rest, o);
  }

  // ---- Success.

  const SLEEPS := Resume(0, false, false)

  /** While its socket stays closed the chain comes to any attempt it has, and starts to wait there. */
  lemma {:induction false} ComesToAttempt(c: Client, chain: Chain, n: nat, o: Options) returns (events: seq<Event>)
    requires AtItsLimit(c, chain, o) && chain.attempt <= n <= MaxAttempts(o) && !c.isConnected
    requires chain.attempt == n ==> chain.pc.Pausing? || chain.pc == Waiting(0)
    ensures var end := Run(c, events, o);
            && AtItsLimit(end, Chain(n, Waiting(0), SleptBefore(n, o)), o)
            && end.settled == c.settled && end.connectionPromise == c.connectionPromise && !end.isConnected
    decreases n - chain.attempt, chain.pc.Pausing?, if chain.pc.Waiting?
      then o.webSocketConnectTimeout - chain.pc.totalPassed else 0
  {
    if chain.attempt == n && chain.pc == Waiting(0) {
      events := [];
    } else {
      var next := Step(c, SLEEPS, o);
      LimitStep(c, chain, o);
      KeepsPromise(c, chain, o);
      hide Step, SleptBefore, MaxWait, MaxAttempts;
      var rest := ComesToAttempt(next, next.chains[0], n, o);
      events := [SLEEPS] + rest;
      assert events[1..] == rest;
    }
  }

  lemma KeepsPromise(c: Client, chain: Chain, o: Options)
    requires c.chains == [chain] && !chain.pc.Transmitting?
    ensures Step(c, SLEEPS, o).chains != [] ==> Step(c, SLEEPS, o).connectionPromise == c.connectionPromise
    ensures !c.isConnected ==> !Step(c, SLEEPS, o).isConnected
  {}

  lemma SleepsOnce(c: Client, chain: Chain, o: Options)
    requires c.chains == [chain] && !c.isOpened && chain.pc.Waiting?
    requires chain.pc.totalPassed + SLEEP <= o.webSocketConnectTimeout
    ensures Step(c, SLEEPS, o)
         == c.(chains := [chain.(pc := Waiting(chain.pc.totalPassed + SLEEP), slept := chain.slept + SLEEP)])
  {}

  /** And it waits there for any number of sleeps within the timeout. */
  lemma {:induction false} Sleeps(c: Client, chain: Chain, k: nat, o: Options) returns (events: seq<Event>)
    requires c.chains == [chain] && !c.isOpened && chain.pc.Waiting?
    requires chain.pc.totalPassed + SLEEP * k <= o.webSocketConnectTimeout
    ensures Run(c, events, o)
         == c.(chains := [chain.(pc := Waiting(chain.pc.totalPassed + SLEEP * k), slept := chain.slept + SLEEP * k)])
    decreases k
  {
    if k == 0 {
      events := [];
    } else {
      var next := Step(c, SLEEPS, o);
      SleepsOnce(c, chain, o);
      hide Step;
      var rest := Sleeps(next, next.chains[0], k - 1, o);
      events := [SLEEPS] + rest;
      assert events[1..] == rest;
    }
  }

  lemma {:induction false} RunConcat(c: Client, one: seq<Event>, two: seq<Event>, o: Options)
    ensures Run(c, one + two, o) == Run(Run(c, one, o), two, o)
    decreases |one|
  {
    hide Step;
    if one == [] {
      assert one + two == two;
    } else {
      assert (one + two)[1..] == one[1..] + two;
      RunConcat(Step(c, one[0], o), one[1..], two, o);
    }
  }

  /** The socket opens, the chain wakes from its sleep, sends the CONNECT frame, and settles. */
  lemma Opens(c: Client, chain: Chain, o: Options) returns (events: seq<Event>)
    requires c.chains == [chain] && chain.pc.Waiting? && chain.pc.totalPassed + SLEEP <= o.webSocketConnectTimeout
    ensures Run(c, events, o)
         == c.(isOpened := true, connectionPromise := false, chains := [],
               settled := c.settled + [Settled(chain.attempt, chain.slept + SLEEP, true)])
  {
    var goes := Resume(0, true, false);
    events := [SocketOpen, SLEEPS, goes];
    var sent := Step(Step(c, SocketOpen, o), SLEEPS, o);
    assert events[1..] == [SLEEPS, goes] && [SLEEPS, goes][1..] == [goes] && [goes][1..] == [];
    assert Run(sent, [goes], o) == Run(Step(sent, goes, o), [], o) == Step(sent, goes, o);
    assert Run(Step(c, SocketOpen, o), [SLEEPS, goes], o) == Run(sent, [goes], o);
  }

  /**
   A chain does connect: whichever of its attempts n finds the socket open after its k-th sleep, within the
   timeout, the chain sends the CONNECT frame and settles there, having waited and paused for the attempts
   before, and leaves no promise and no chain.
   */
  lemma ConnectsInTime(n: nat, k: nat, o: Options) returns (events: seq<Event>)
    requires 1 <= n <= MaxAttempts(o) && 1 <= k && 250 * k <= o.webSocketConnectTimeout
    ensures var end := Run(INITIAL, events, o);
            var slept := (n - 1) * (250 * (o.webSocketConnectTimeout / 250 + 1) + o.reconnectTimeout) + 250 * k;
            && end.isOpened && !end.connectionPromise && end.chains == []
            && |end.settled| == 1 && end.settled[0].attempts == n && end.settled[0].slept == slept
              && end.settled[0].connects
  {
    hide Run, Step;
    var start := [Connect(false)];
    var c := ConnectStarts(o);
    var comes := ComesToAttempt(c, Chain(1, Waiting(0), 0), n, o);
    var waiting := Run(c, comes, o);
    var sleeps := Sleeps(waiting, waiting.chains[0], k - 1, o);
    var slept := Run(waiting, sleeps, o);
    var opens := Opens(slept, slept.chains[0], o);
    RunConcat(INITIAL, start, comes, o);
    RunConcat(INITIAL, start + comes, sleeps, o);
    RunConcat(INITIAL, start + comes + sleeps, opens, o);
    events := start + comes + sleeps + opens;
    SleptBeforeIs(n, o);
  }

  lemma {:induction false} SleptBeforeIs(n: nat, o: Options)
    requires 1 <= n
    ensures SleptBefore(n, o) == (n - 1) * (250 * (o.webSocketConnectTimeout / 250 + 1) + o.reconnectTimeout)
  {
    if n > 1 {
      SleptBeforeIs(n - 1, o);
      var round := 250 * (o.webSocketConnectTimeout / 250 + 1) + o.reconnectTimeout;
      assert (n - 1) * round == (n - 2) * round + round;
    }
  }

  lemma ConnectStarts(o: Options) returns (c: Client)
    ensures c == Run(INITIAL, [Connect(false)], o) == INITIAL.(connectionPromise := true, chains :=
        [Chain(1, Waiting(0), 0)])
    ensures AtItsLimit(c, Chain(1, Waiting(0), 0), o)
  {
    c := Step(INITIAL, Connect(false), o);
    assert [Connect(false)][1..] == [];
    assert Run(INITIAL, [Connect(false)], o) == Run(c, [], o) == c;
  }

  /** What starts a chain: connect and errors always, send unless connected, and a close that is not normal. */
  lemma ReconnectsExactly(c: Client, e: Event, o: Options)
    requires !c.connectionPromise && (e.Connect? || e.Send? || e.SocketClose? || e.SocketError? ==> !e.throws)
    ensures var next := Step(c, e, o);
            var reconnects := e.SocketError? || (e.SocketClose? && e.code != 1000)
                              || (e.Send? && !(c.isOpened && c.isConnected));
            && (|next.chains| > |c.chains| <==> e.Connect? || reconnects)
            && (reconnects ==> next == c.(isOpened := false, isConnected := false, connectionPromise := true,
                                          chains := c.chains + [Chain(1, Waiting(0), 0)]))
            && (e.SocketClose? && e.code == 1000 ==> next == c.(isOpened := false, isConnected := false))
  {}

  /** A chain whose attempt has failed: it clears the flags and pauses before the next one, or rejects after the last.
      */
  ghost predicate HasFailed(c: Client, chain: Chain, slept: nat, next: Client, o: Options)
  {
    if chain.attempt < o.reconnectAttempts then
      next == c.(isOpened := false, isConnected := false, chains := [Chain(chain.attempt + 1, Pausing, slept)])
    else
      next == c.(connectionPromise := false, chains := [],
                 settled := c.settled + [Settled(chain.attempt, slept, false)])
  }

  /** What fails an attempt: a CONNECT frame that does not go out, or a socket that cannot be created after the pause.
      */
  lemma FailedAttemptPauses(c: Client, chain: Chain, goes: bool, throws: bool, o: Options)
    requires c.chains == [chain] && ((chain.pc.Transmitting? && !goes) || (chain.pc.Pausing? && throws))
    ensures var slept := chain.slept + if chain.pc.Pausing? then o.reconnectTimeout else 0;
            HasFailed(c, chain, slept, Step(c, Resume(0, goes, throws), o), o)
  {}

  /** While a chain is promised nothing starts another one, and a close or an error changes nothing. */
  lemma PromiseHoldsOff(c: Client, e: Event, o: Options)
    requires c.connectionPromise && (e.Connect? || e.Send? || e.SocketClose? || e.SocketError?)
    ensures Step(c, e, o) == c
  {}

  /** An attempt that finds the socket open sends at once; connect leaves the flags as they are. */
  lemma OpenSocketNeedsNoWait(c: Client, chain: Chain, o: Options)
    requires c.isOpened
    ensures !c.connectionPromise ==>
        Step(c, Connect(false), o) == c.(connectionPromise := true, chains := c.chains + [Chain(1, Transmitting, 0)])
    ensures c.chains == [chain] && chain.pc.Pausing? ==>
        Step(c, SLEEPS, o) == c.(chains := [chain.(pc := Transmitting, slept := chain.slept + o.reconnectTimeout)])
  {}

  /** The clock is looked at before the socket: one that opens in the sleep that crosses the timeout is given up. */
  lemma LateSocketIsGivenUp(c: Client, chain: Chain, goes: bool, throws: bool, o: Options)
    requires c.chains == [chain] && chain.pc.Waiting? && o.webSocketConnectTimeout < chain.pc.totalPassed + 250
    ensures HasFailed(c, chain, chain.slept + 250, Step(c, Resume(0, goes, throws), o), o)
  {}

  /**
   The life of a session: once the socket is open and the CONNECTED frame has come, sending needs no
   reconnection, also after a disconnection that did not go out; after one that did, it reconnects.
   */
  lemma SessionLives(c: Client, throws: bool, o: Options)
    requires !c.connectionPromise
    ensures var session := Step(Step(c, SocketOpen, o), ConnectedFrame, o);
            && session == c.(isOpened := true, isConnected := true)
            && Step(session, Send(throws), o) == session
            && Step(session, Disconnect(false), o) == session
            && Step(session, Disconnect(true), o) == c.(isOpened := false, isConnected := false)
            && Step(Step(session, Disconnect(true), o), Send(throws), o).connectionPromise
  {}
}
