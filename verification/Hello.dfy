/**
 * The symmetric hello handshake: two processes, each serving its own memory and reading
 * the other's. Resources are created lazily on the peer's first reply; memory is freed
 * when both of a process's tasks are over.
 */
module Hello {
  import opened Wrappers

  /** Where a process's client task is; `Asked` holds the status of a reply still on its way. */
  datatype Client =
    | Polling | Asked(ready: bool) | Importing | Connecting | Waiting | Leaving | ByeSent | Done | Failed

  /** Why a process's server task stopped serving. */
  datatype End = Bye | Aborted | Stopped | Timeout | Broken

  datatype Node = Node(
    started: bool,
    published: bool,       // the descriptor slot is filled, the memory registered
    client: Client,
    reading: bool,         // the READ of the peer's memory is in flight
    readDone: bool,        // its completion has been seen
    bye: bool,             // the peer's bye notice has arrived
    abort: bool,           // the peer's abort notice has arrived
    stop: bool,            // the own client told the server to stop
    ended: Option<End>,
    freed: bool)

  type Side = x: int | 0 <= x < 2

  function Peer(x: Side): (y: Side)
    ensures y != x && 1 - y == x
  {
    1 - x
  }

  datatype State = State(a: Node, b: Node) {
    function At(x: Side): (n: Node) { if x == 0 then a else b }
  }

  const IDLE := Node(false, false, Polling, false, false, false, false, false, None, false)
  const INIT: State := State(IDLE, IDLE)

  /** The process answers HTTP requests. */
  predicate Up(n: Node)
  {
    n.started && n.ended.None? && !n.freed
  }

  /** The process still runs its tasks. */
  predicate Alive(n: Node)
  {
    n.started && !n.freed
  }

  /** What `combined` returns: the client is fine and the server was not cut short. */
  predicate ReturnsOk(n: Node)
  {
    n.client == Done && (n.ended == Some(Bye) || n.ended == Some(Stopped))
  }

  /** One step of one process. */
  datatype Move =
    | Start
    | Ask                    // GET /info reaches the peer, which reads its slot
    | Receive                // the reply arrives: ensure resources, then look at the status
    | Import                 // POST /import answered
    | PostRead               // peer imported, READ posted
    | ReadLands              // the device finishes the READ
    | SeeRead                // the completion is polled
    | SendBye                // POST /bye reaches the peer
    | ByeAnswered
    | ServerEnds(why: End)   // the first end condition wins
    | Return                 // both tasks joined, memory freed
    | ClientFails            // any error of the client task, which stops its own server
    | SendAbort
    | Crash

  datatype Event = Event(x: Side, move: Move)

  /** When a reply to GET /info makes a node create its resources. */
  datatype Gate = OnAnyReply | OnlyOn200

  /** May process `n` take this step while its peer is `p`? */
  predicate Can(n: Node, p: Node, m: Move)
  {
    match m
    case Start => !n.started
    case Ask => Alive(n) && n.client == Polling && Up(p)
    case Receive => Alive(n) && n.client.Asked?
    case Import => Alive(n) && n.client == Importing && Up(p)
    case PostRead => Alive(n) && n.client == Connecting
    case ReadLands => n.reading
    case SeeRead => Alive(n) && n.client == Waiting && !n.reading
    case SendBye => Alive(n) && n.client == Leaving && Up(p)
    case ByeAnswered => Alive(n) && n.client == ByeSent
    case ServerEnds(why) =>
      && Alive(n) && n.ended.None?
      && (why == Bye ==> n.bye) && (why == Aborted ==> n.abort) && (why == Stopped ==> n.stop)
    case Return => Alive(n) && n.ended.Some? && (n.client == Done || n.client == Failed)
    case ClientFails => Alive(n) && n.client != Done && n.client != Failed
    case SendAbort => Alive(n) && n.client == Failed && Up(p)
    case Crash => Alive(n)
  }

  /** The process after its own step. */
  function Own(gate: Gate, n: Node, p: Node, m: Move): (n': Node)
  {
    match m
    case Start => n.(started := true)
    case Ask => n.(client := Asked(p.published))
    case Receive =>
      var ready := n.client.Asked? && n.client.ready;
      n.(published := n.published || gate == OnAnyReply || ready, client := if ready then Importing else Polling)
    case Import => n.(client := Connecting)
    case PostRead => n.(client := Waiting, reading := true)
    case ReadLands => n.(reading := false)
    case SeeRead => n.(client := Leaving, readDone := true)
    case SendBye => n.(client := ByeSent)
    case ByeAnswered => n.(client := Done)
    case ServerEnds(why) => n.(ended := Some(why))
    case Return => n.(freed := true)
    case ClientFails => n.(client := Failed, stop := true)
    case SendAbort => n
    case Crash => n.(client := Failed, freed := true)
  }

  /** The peer after the other process's step. */
  function Other(p: Node, m: Move): (p': Node)
  {
    match m
    case SendBye => p.(bye := true)
    case SendAbort => p.(abort := true)
    case _ => p
  }

  predicate Enabled(s: State, e: Event)
  {
    Can(s.At(e.x), s.At(Peer(e.x)), e.move)
  }

  function Next(gate: Gate, s: State, e: Event): (s': State)
    ensures s'.At(e.x) == Own(gate, s.At(e.x), s.At(Peer(e.x)), e.move)
    ensures s'.At(Peer(e.x)) == Other(s.At(Peer(e.x)), e.move)
  {
    if e.x == 0 then State(Own(gate, s.a, s.b, e.move), Other(s.b, e.move))
    else State(Other(s.a, e.move), Own(gate, s.b, s.a, e.move))
  }

  ghost predicate Run(gate: Gate, trace: seq<State>, events: seq<Event>)
  {
    && |trace| == |events| + 1 && trace[0] == INIT
    && forall i :: 0 <= i < |events| ==> Enabled(trace[i], events[i]) && trace[i + 1] == Next(gate, trace[i], events[i])
  }

  // ---------------------------------------------------------------- memory lifetime

  ghost predicate NodeInv(n: Node, p: Node)
  {
    && (n.bye ==> p.readDone)
    && (n.readDone ==> !n.reading && n.client in {Leaving, ByeSent, Done, Failed})
    && (n.client in {Leaving, ByeSent, Done} ==> n.readDone)
    && (n.reading ==> n.client == Waiting || n.client == Failed)
    && (n.reading ==> p.published)
    && (n.ended == Some(Bye) ==> n.bye)
    && (n.ended == Some(Stopped) ==> n.stop)
    && (n.ended == Some(Aborted) ==> n.abort)
    && (n.stop ==> n.client == Failed)
    && (n.client == Failed && !n.freed ==> n.stop)
    && (n.client == Asked(true) ==> p.published)
    && (n.client in {Importing, Connecting, Waiting, Leaving, ByeSent, Done} ==> n.published && p.published)
    && (!n.started ==> n.(bye := false, abort := false) == IDLE)
  }

  ghost predicate Inv(s: State)
  {
    NodeInv(s.a, s.b) && NodeInv(s.b, s.a)
  }

  /** Published slots and finished READs stay so. */
  predicate Keeps(n: Node, n': Node)
  {
    (n.readDone ==> n'.readDone) && (n.published ==> n'.published)
  }

  predicate Polls(m: Move) { m == Start || m == Ask || m == Receive }

  predicate Reads(m: Move) { m == Import || m == PostRead || m == ReadLands || m == SeeRead }

  predicate Leaves(m: Move) { m == SendBye || m == ByeAnswered || m == SendAbort }

  lemma PollsInv(gate: Gate, n: Node, p: Node, m: Move)
    requires NodeInv(n, p) && NodeInv(p, n) && Can(n, p, m) && Polls(m)
    ensures NodeInv(Own(gate, n, p, m), Other(p, m)) && NodeInv(Other(p, m), Own(gate, n, p, m))
    ensures Keeps(n, Own(gate, n, p, m)) && Keeps(p, Other(p, m))
  {
  }

  lemma ReadsInv(gate: Gate, n: Node, p: Node, m: Move)
    requires NodeInv(n, p) && NodeInv(p, n) && Can(n, p, m) && Reads(m)
    ensures NodeInv(Own(gate, n, p, m), Other(p, m)) && NodeInv(Other(p, m), Own(gate, n, p, m))
    ensures Keeps(n, Own(gate, n, p, m)) && Keeps(p, Other(p, m))
  {
  }

  lemma LeavesInv(gate: Gate, n: Node, p: Node, m: Move)
    requires NodeInv(n, p) && NodeInv(p, n) && Can(n, p, m) && Leaves(m)
    ensures NodeInv(Own(gate, n, p, m), Other(p, m)) && NodeInv(Other(p, m), Own(gate, n, p, m))
    ensures Keeps(n, Own(gate, n, p, m)) && Keeps(p, Other(p, m))
  {
  }

  lemma EndsInv(gate: Gate, n: Node, p: Node, m: Move)
    requires NodeInv(n, p) && NodeInv(p, n) && Can(n, p, m) && !Polls(m) && !Reads(m) && !Leaves(m)
    ensures NodeInv(Own(gate, n, p, m), Other(p, m)) && NodeInv(Other(p, m), Own(gate, n, p, m))
    ensures Keeps(n, Own(gate, n, p, m)) && Keeps(p, Other(p, m))
  {
  }

  lemma MoveInv(gate: Gate, n: Node, p: Node, m: Move)
    requires NodeInv(n, p) && NodeInv(p, n) && Can(n, p, m)
    ensures NodeInv(Own(gate, n, p, m), Other(p, m)) && NodeInv(Other(p, m), Own(gate, n, p, m))
    ensures Keeps(n, Own(gate, n, p, m)) && Keeps(p, Other(p, m))
  {
    hide NodeInv, Keeps, Can, Own, Other, Polls, Reads, Leaves;
    if Polls(m) {
      PollsInv(gate, n, p, m);
    } else if Reads(m) {
      ReadsInv(gate, n, p, m);
    } else if Leaves(m) {
      LeavesInv(gate, n, p, m);
    } else {
      EndsInv(gate, n, p, m);
    }
  }

  lemma InitFine()
    ensures NodeInv(IDLE, IDLE) && Fine(IDLE, IDLE)
  {
  }

  lemma {:induction false} RunInv(gate: Gate, trace: seq<State>, events: seq<Event>, t: nat)
    requires Run(gate, trace, events) && t < |trace|
    ensures Inv(trace[t])
  {
    hide NodeInv, Can, Own, Other;
    if t == 0 {
      InitFine();
    } else {
      RunInv(gate, trace, events, t - 1);
      var s, e := trace[t - 1], events[t - 1];
      MoveInv(gate, s.At(e.x), s.At(Peer(e.x)), e.move);
    }
  }

  lemma ReadIsOver(n: Node, p: Node)
    requires NodeInv(n, p) && n.readDone
    ensures !n.reading
  {
  }

  lemma ByeMeansRead(n: Node, p: Node)
    requires NodeInv(n, p) && n.bye
    ensures p.readDone
  {
  }

  /** Once the peer's bye has arrived, its READ is over for good, whatever else fails. */
  lemma {:induction false} ByeMeansReadFinished(
    gate: Gate, trace: seq<State>, events: seq<Event>, i: nat, t: nat, x: Side)
    requires Run(gate, trace, events) && i <= t < |trace| && trace[i].At(x).bye
    ensures trace[t].At(Peer(x)).readDone && !trace[t].At(Peer(x)).reading
    decreases t
  {
    hide NodeInv, Can, Own, Other;
    RunInv(gate, trace, events, t);
    if t > i {
      ByeMeansReadFinished(gate, trace, events, i, t - 1, x);
      var s, e := trace[t - 1], events[t - 1];
      RunInv(gate, trace, events, t - 1);
      MoveInv(gate, s.At(e.x), s.At(Peer(e.x)), e.move);
    } else {
      ByeMeansRead(trace[i].At(x), trace[i].At(Peer(x)));
    }
    ReadIsOver(trace[t].At(Peer(x)), trace[t].At(x));
  }

  /** The process has its READ in flight, or is alive and may still post it without asking its peer again. */
  predicate MayRead(p: Node)
  {
    p.reading || (!p.freed && p.client == Connecting)
  }

  predicate Gone(n: Node)
  {
    n.started && n.freed
  }

  /** A peer that may not read a process that is gone never will. */
  lemma MoveStaysAway(gate: Gate, n: Node, p: Node, m: Move)
    ensures Gone(n) && !MayRead(p) && Can(n, p, m) ==> Gone(Own(gate, n, p, m)) && !MayRead(Other(p, m))
    ensures Gone(n) && !MayRead(p) && Can(p, n, m) ==> Gone(Other(n, m)) && !MayRead(Own(gate, p, n, m))
  {
  }

  lemma {:induction false} AwayForever(gate: Gate, trace: seq<State>, events: seq<Event>, i: nat, t: nat, x: Side)
    requires Run(gate, trace, events) && i <= t < |trace|
    requires Gone(trace[i].At(x)) && !MayRead(trace[i].At(Peer(x)))
    ensures Gone(trace[t].At(x)) && !MayRead(trace[t].At(Peer(x)))
    decreases t
  {
    hide MayRead, Gone, Can, Own, Other;
    if t > i {
      AwayForever(gate, trace, events, i, t - 1, x);
      var s, e := trace[t - 1], events[t - 1];
      MoveStaysAway(gate, s.At(x), s.At(Peer(x)), e.move);
    }
  }

  lemma ReturnGoes(gate: Gate, n: Node, p: Node)
    requires Can(n, p, Return)
    ensures Gone(Own(gate, n, p, Return)) && Other(p, Return) == p
  {
  }

  /** What a process sees of the protocol bounds what its peer may still do. */
  lemma OwnViewBoundsPeer(n: Node, p: Node)
    requires NodeInv(n, p) && NodeInv(p, n) && (n.bye || !n.published)
    ensures !MayRead(p)
  {
  }

  /**
   * The memory a process frees on return is not being read and never will be, if the peer's
   * bye has arrived or the memory was never published. Holds for every return, Ok or not.
   */
  lemma ReturnIsSafe(gate: Gate, trace: seq<State>, events: seq<Event>, i: nat, t: nat, x: Side)
    requires Run(gate, trace, events) && i < |events| && i <= t < |trace|
    requires events[i] == Event(x, Return) && (trace[i].At(x).bye || !trace[i].At(x).published)
    ensures !trace[t].At(Peer(x)).reading
  {
    hide NodeInv, Gone, Can, Own, Other;
    var n, p := trace[i].At(x), trace[i].At(Peer(x));
    RunInv(gate, trace, events, i);
    OwnViewBoundsPeer(n, p);
    ReturnGoes(gate, n, p);
    if t > i {
      AwayForever(gate, trace, events, i + 1, t, x);
    }
  }

  /** Some continuation of the run has a READ of `x`'s memory in flight. */
  ghost predicate ReadFollows(gate: Gate, trace: seq<State>, events: seq<Event>, x: Side)
  {
    exists trace': seq<State>, events': seq<Event>, t: nat ::
      Continues(gate, trace, events, trace', events') && ReadAt(trace', |events|, t, x)
  }

  predicate ReadAt(trace: seq<State>, from: nat, t: nat, x: Side)
  {
    from <= t < |trace| && trace[t].At(Peer(x)).reading
  }

  ghost predicate Continues(gate: Gate, trace: seq<State>, events: seq<Event>, trace': seq<State>, events': seq<Event>)
  {
    Run(gate, trace', events') && trace <= trace' && events <= events'
  }

  /**
   * Exactly when a return frees memory under a READ: some continuation has one in flight if
   * and only if the peer is reading, or is alive with its import done and its READ to come.
   */
  lemma ReturnFreesUnderRead(gate: Gate, trace: seq<State>, events: seq<Event>, x: Side)
    requires Run(gate, trace, events) && events != [] && events[|events| - 1] == Event(x, Return)
    ensures ReadFollows(gate, trace, events, x) <==> MayRead(trace[|events| - 1].At(Peer(x)))
  {
    hide Gone, Own, Other, NodeInv;
    var last := |events| - 1;
    var n, p := trace[last].At(x), trace[last].At(Peer(x));
    RunInv(gate, trace, events, last);
    ReturnGoes(gate, n, p);
    assert trace[|events|].At(Peer(x)) == p;
    if MayRead(p) {
      if p.reading {
        assert Continues(gate, trace, events, trace, events) && ReadAt(trace, |events|, |events|, x);
      } else {
        RunInv(gate, trace, events, |events|);
        PostsRead(gate, p, trace[|events|].At(x));
        var trace', events', s := Extend(gate, trace, events, Peer(x), PostRead);
        assert Continues(gate, trace, events, trace', events') && ReadAt(trace', |events|, |events'|, x);
      }
    } else if trace': seq<State>, events': seq<Event>, t: nat :|
      Continues(gate, trace, events, trace', events') && ReadAt(trace', |events|, t, x) {
      AwayForever(gate, trace', events', |events|, t, x);
    }
  }

  lemma PostsRead(gate: Gate, p: Node, n: Node)
    requires NodeInv(p, n) && !p.freed && p.client == Connecting
    ensures Alive(p)
    ensures Can(p, n, PostRead) && Own(gate, p, n, PostRead).reading
  {
  }

  /** A run that ends with the return of process `x`, whose own state was `n`. */
  ghost predicate ReturnsAs(trace: seq<State>, events: seq<Event>, x: Side, n: Node)
  {
    && Run(OnAnyReply, trace, events) && events != [] && events[|events| - 1] == Event(x, Return)
    && trace[|events| - 1].At(x) == n
  }

  /**
   * What the returning process itself can tell: its own state admits a READ under the freed
   * memory if and only if the memory was published and no bye has come. So the condition
   * of `ReturnIsSafe` cannot be improved by looking at anything else the process knows.
   */
  lemma OwnViewDecides(trace: seq<State>, events: seq<Event>, x: Side, n: Node)
    requires ReturnsAs(trace, events, x, n)
    ensures (exists trace': seq<State>, events': seq<Event> :: ReturnsAs(trace', events', x, n) && ReadFollows(OnAnyReply, trace', events', x))
      <==> n.published && !n.bye
  {
    hide Run, Own, Other, Can, NodeInv, ReadFollows;
    if n.published && !n.bye {
      ReturnStep(trace, events);
      RunInv(OnAnyReply, trace, events, |events| - 1);
      ReturnShape(n, trace[|events| - 1].At(Peer(x)));
      var trace', events' := ReturnUnderRead(x, n);
      ReturnFreesUnderRead(OnAnyReply, trace', events', x);
      assert ReturnsAs(trace', events', x, n) && ReadFollows(OnAnyReply, trace', events', x);
    }
    if trace': seq<State>, events': seq<Event> :| ReturnsAs(trace', events', x, n) && ReadFollows(OnAnyReply, trace', events', x) {
      ReturnFreesUnderRead(OnAnyReply, trace', events', x);
      RunLength(OnAnyReply, trace', events');
      RunInv(OnAnyReply, trace', events', |events'| - 1);
      if n.bye || !n.published {
        OwnViewBoundsPeer(n, trace'[|events'| - 1].At(Peer(x)));
      }
    }
  }

  lemma RunLength(gate: Gate, trace: seq<State>, events: seq<Event>)
    requires Run(gate, trace, events)
    ensures |trace| == |events| + 1
  {
  }

  lemma ReturnStep(trace: seq<State>, events: seq<Event>)
    requires Run(OnAnyReply, trace, events) && events != []
    ensures |trace| == |events| + 1 && Enabled(trace[|events| - 1], events[|events| - 1])
  {
  }

  /** The states in which a process with published memory and no bye may return. */
  predicate MayReturn(n: Node)
  {
    && n.started && n.published && !n.bye && !n.freed
    && n.ended.Some? && n.ended != Some(Bye)
    && (n.ended == Some(Aborted) ==> n.abort) && (n.ended == Some(Stopped) ==> n.stop)
    && if n.client == Done then n.readDone && !n.reading && !n.stop
       else n.client == Failed && n.stop && !(n.reading && n.readDone)
  }

  lemma ReturnShape(n: Node, p: Node)
    requires NodeInv(n, p) && Can(n, p, Return) && n.published && !n.bye
    ensures MayReturn(n)
  {
  }

  lemma Extend(gate: Gate, trace: seq<State>, events: seq<Event>, x: Side, m: Move)
    returns (trace': seq<State>, events': seq<Event>, last: State)
    requires Run(gate, trace, events) && Can(trace[|events|].At(x), trace[|events|].At(Peer(x)), m)
    ensures Run(gate, trace', events') && Continues(gate, trace, events, trace', events')
    ensures events' == events + [Event(x, m)] && trace'[|events|] == trace[|events|]
    ensures last == trace'[|events'|] == Next(gate, trace[|events|], Event(x, m))
  {
    hide Can, Own, Other;
    last := Next(gate, trace[|events|], Event(x, m));
    trace', events' := trace + [last], events + [Event(x, m)];
  }

  /** Process `x` has published, and its peer's READ is in flight. */
  predicate BeingRead(s: State, x: Side)
  {
    var p := s.At(Peer(x));
    p.reading && p.client == Waiting && p.published && Up(p) && s.At(x).published && Up(s.At(x))
  }

  lemma ReadInFlight(x: Side) returns (trace: seq<State>, events: seq<Event>, s: State)
    ensures Run(OnAnyReply, trace, events) && s == trace[|events|]
    ensures BeingRead(s, x) && s.At(x) == IDLE.(started := true, published := true)
  {
    hide Run, Continues;
    trace, events := [INIT], [];
    RunStarts();
    trace, events, s := Extend(OnAnyReply, trace, events, x, Start);
    trace, events, s := Extend(OnAnyReply, trace, events, Peer(x), Start);
    trace, events, s := Extend(OnAnyReply, trace, events, x, Ask);
    trace, events, s := Extend(OnAnyReply, trace, events, x, Receive);
    trace, events, s := Extend(OnAnyReply, trace, events, Peer(x), Ask);
    trace, events, s := Extend(OnAnyReply, trace, events, Peer(x), Receive);
    trace, events, s := Extend(OnAnyReply, trace, events, Peer(x), Import);
    trace, events, s := Extend(OnAnyReply, trace, events, Peer(x), PostRead);
  }

  lemma RunStarts()
    ensures Run(OnAnyReply, [INIT], [])
  {
  }

  /** The own client posts its READ as well. */
  lemma BothReading(x: Side) returns (trace: seq<State>, events: seq<Event>, s: State)
    ensures Run(OnAnyReply, trace, events) && s == trace[|events|] && BeingRead(s, x)
    ensures s.At(x) == IDLE.(started := true, published := true, client := Waiting, reading := true)
  {
    hide Run, Continues;
    trace, events, s := ReadInFlight(x);
    trace, events, s := Extend(OnAnyReply, trace, events, x, Ask);
    trace, events, s := Extend(OnAnyReply, trace, events, x, Receive);
    trace, events, s := Extend(OnAnyReply, trace, events, x, Import);
    trace, events, s := Extend(OnAnyReply, trace, events, x, PostRead);
  }

  /** The client comes to the fate that `n` describes, while the peer is still reading. */
  lemma ReachFate(x: Side, n: Node) returns (trace: seq<State>, events: seq<Event>, s: State)
    requires MayReturn(n)
    ensures Run(OnAnyReply, trace, events) && s == trace[|events|] && BeingRead(s, x)
    ensures s.At(x) == n.(abort := false, ended := None)
  {
    hide Run, Continues;
    if !n.reading && !n.readDone {
      trace, events, s := ReadInFlight(x);
    } else {
      trace, events, s := BothReading(x);
      if n.readDone {
        trace, events, s := Extend(OnAnyReply, trace, events, x, ReadLands);
        trace, events, s := Extend(OnAnyReply, trace, events, x, SeeRead);
      }
    }
    if n.client == Done {
      trace, events, s := Extend(OnAnyReply, trace, events, x, SendBye);
      trace, events, s := Extend(OnAnyReply, trace, events, x, ByeAnswered);
    } else {
      trace, events, s := Extend(OnAnyReply, trace, events, x, ClientFails);
    }
  }

  /** Every such state is one in which a process returns while its memory is being read. */
  lemma ReturnUnderRead(x: Side, n: Node) returns (trace: seq<State>, events: seq<Event>)
    requires MayReturn(n)
    ensures ReturnsAs(trace, events, x, n) && trace[|events| - 1].At(Peer(x)).reading
  {
    hide Run, Continues;
    var s: State;
    trace, events, s := ReachFate(x, n);
    if n.abort {
      trace, events, s := Extend(OnAnyReply, trace, events, Peer(x), ClientFails);
      trace, events, s := Extend(OnAnyReply, trace, events, Peer(x), SendAbort);
    }
    trace, events, s := Extend(OnAnyReply, trace, events, x, ServerEnds(n.ended.value));
    trace, events, s := Extend(OnAnyReply, trace, events, x, Return);
  }

  /**
   * Whenever a process returns Ok, the peer's READ of its memory had finished before that
   * memory was freed, and none is ever in flight again, whatever else fails in the run.
   */
  lemma OkMeansReadFinished(gate: Gate, trace: seq<State>, events: seq<Event>, i: nat, t: nat, x: Side)
    requires Run(gate, trace, events) && i < |events| && i <= t < |trace|
    requires events[i] == Event(x, Return) && ReturnsOk(trace[i].At(x))
    ensures trace[i].At(Peer(x)).readDone && !trace[i].At(x).freed
    ensures trace[t].At(Peer(x)).readDone && !trace[t].At(Peer(x)).reading
  {
    hide NodeInv, Own, Other, ReturnsOk;
    RunInv(gate, trace, events, i);
    OkMeansBye(trace[i].At(x), trace[i].At(Peer(x)));
    ByeMeansReadFinished(gate, trace, events, i, i, x);
    ByeMeansReadFinished(gate, trace, events, i, t, x);
  }

  lemma OkMeansBye(n: Node, p: Node)
    requires NodeInv(n, p) && ReturnsOk(n)
    ensures n.bye
  {
  }

  /** An error return may free memory that the peer is reading. */
  lemma ErrorMayFreeUnderRead() returns (trace: seq<State>, events: seq<Event>)
    ensures Run(OnAnyReply, trace, events)
    ensures var s := trace[|events|]; s.a.freed && !ReturnsOk(s.a) && s.b.reading
  {
    var n := IDLE.(started := true, published := true, client := Failed, stop := true, ended := Some(Stopped));
    trace, events := ReturnUnderRead(0, n);
  }

  // ---------------------------------------------------------------- a survivor

  /** The process has served, and never will again. */
  predicate Deaf(n: Node)
  {
    n.started && (n.ended.Some? || n.freed)
  }

  /** The client's next step is a request to the peer. */
  predicate AtRequest(c: Client)
  {
    c == Polling || c == Importing || c == Leaving
  }

  /** The client has a request to the peer left to make. */
  predicate RequestsLeft(c: Client)
  {
    AtRequest(c) || c.Asked? || c == Connecting || c == Waiting
  }

  /** What may go wrong for the survivor: anything but a refused connection, or nothing at all. */
  datatype Manner = RefusalsRetried | NothingFails

  predicate Allowed(manner: Manner, n: Node, m: Move)
  {
    match manner
    case RefusalsRetried => m == ClientFails ==> !AtRequest(n.client)
    case NothingFails => m != ClientFails && m != Crash
  }

  predicate Stuck(manner: Manner, c: Client)
  {
    match manner
    case RefusalsRetried => AtRequest(c)
    case NothingFails => RequestsLeft(c)
  }

  /** From step `from` on process `x` fails only as allowed. */
  ghost predicate Restrained(manner: Manner, trace: seq<State>, events: seq<Event>, from: nat, x: Side)
    requires |trace| == |events| + 1
  {
    forall t :: from <= t < |events| && events[t].x == x ==> Allowed(manner, trace[t].At(x), events[t].move)
  }

  predicate ReturnsAt(events: seq<Event>, from: nat, t: nat, x: Side)
  {
    from <= t < |events| && events[t] == Event(x, Return)
  }

  ghost predicate CanReturn(gate: Gate, manner: Manner, trace: seq<State>, events: seq<Event>, x: Side)
  {
    exists trace': seq<State>, events': seq<Event>, t: nat ::
      && Continues(gate, trace, events, trace', events') && |trace'| == |events'| + 1
      && Restrained(manner, trace', events', |events|, x) && ReturnsAt(events', |events|, t, x)
  }

  ghost predicate StuckOrGone(manner: Manner, n: Node)
  {
    n.started && (n.freed || Stuck(manner, n.client))
  }

  lemma MoveStaysStuck(gate: Gate, manner: Manner, n: Node, p: Node, m: Move)
    requires StuckOrGone(manner, n) && Deaf(p)
    ensures Can(n, p, m) && Allowed(manner, n, m) ==>
      m != Return && StuckOrGone(manner, Own(gate, n, p, m)) && Deaf(Other(p, m))
    ensures Can(p, n, m) ==> StuckOrGone(manner, Other(n, m)) && Deaf(Own(gate, p, n, m))
  {
  }

  lemma {:induction false} StaysStuck(
    gate: Gate, manner: Manner, trace: seq<State>, events: seq<Event>, from: nat, t: nat, x: Side)
    requires Run(gate, trace, events) && from <= t < |trace| && Restrained(manner, trace, events, from, x)
    requires StuckOrGone(manner, trace[from].At(x)) && Deaf(trace[from].At(Peer(x)))
    ensures StuckOrGone(manner, trace[t].At(x)) && Deaf(trace[t].At(Peer(x)))
    decreases t
  {
    hide StuckOrGone, Deaf, Can, Own, Other, Allowed;
    if t > from {
      StaysStuck(gate, manner, trace, events, from, t - 1, x);
      var s, e := trace[t - 1], events[t - 1];
      MoveStaysStuck(gate, manner, s.At(x), s.At(Peer(x)), e.move);
    }
  }

  lemma ContinueAllowed(
    gate: Gate, manner: Manner, trace0: seq<State>, events0: seq<Event>,
    trace: seq<State>, events: seq<Event>, x: Side, m: Move)
    returns (trace': seq<State>, events': seq<Event>, s': State)
    requires Continues(gate, trace0, events0, trace, events) && |trace| == |events| + 1
    requires Restrained(manner, trace, events, |events0|, x)
    requires Can(trace[|events|].At(x), trace[|events|].At(Peer(x)), m) && Allowed(manner, trace[|events|].At(x), m)
    ensures Continues(gate, trace0, events0, trace', events') && |trace'| == |events'| + 1
    ensures Restrained(manner, trace', events', |events0|, x) && events' == events + [Event(x, m)]
    ensures s' == trace'[|events'|] && s'.At(x) == Own(gate, trace[|events|].At(x), trace[|events|].At(Peer(x)), m)
  {
    hide Can, Own, Other, Allowed;
    trace', events', s' := Extend(gate, trace, events, x, m);
  }

  /** A failed client can always let its peer's server end at once, instead of waiting for a bye. */
  lemma AbortEndsPeer(gate: Gate, trace: seq<State>, events: seq<Event>, x: Side)
    returns (trace': seq<State>, events': seq<Event>, s: State)
    requires Run(gate, trace, events) && |trace| == |events| + 1
    requires Alive(trace[|events|].At(x)) && trace[|events|].At(x).client == Failed && Up(trace[|events|].At(Peer(x)))
    ensures Run(gate, trace', events') && trace <= trace' && |events'| == |events| + 2 && s == trace'[|events'|]
    ensures s.At(Peer(x)).ended == Some(Aborted) && s.At(x) == trace[|events|].At(x)
  {
    hide Run;
    trace', events', s := Extend(gate, trace, events, x, SendAbort);
    trace', events', s := Extend(gate, trace', events', Peer(x), ServerEnds(Aborted));
  }

  /** A client without a request left comes to an end ... */
  lemma ClientEnds(gate: Gate, manner: Manner, trace: seq<State>, events: seq<Event>, x: Side)
    returns (t: seq<State>, e: seq<Event>, s: State)
    requires Run(gate, trace, events) && |trace| == |events| + 1
    requires Alive(trace[|events|].At(x)) && !Stuck(manner, trace[|events|].At(x).client)
    ensures Continues(gate, trace, events, t, e) && |t| == |e| + 1 && s == t[|e|]
    ensures Restrained(manner, t, e, |events|, x)
    ensures Alive(s.At(x)) && (s.At(x).client == Done || s.At(x).client == Failed)
  {
    hide Run, Continues, Restrained;
    t, e, s := trace, events, trace[|events|];
    ContinuesItself(gate, trace, events);
    NothingYet(manner, trace, events, x);
    var c := s.At(x).client;
    if c == ByeSent {
      t, e, s := ContinueAllowed(gate, manner, trace, events, t, e, x, ByeAnswered);
    } else if c != Done && c != Failed {
      t, e, s := ContinueAllowed(gate, manner, trace, events, t, e, x, ClientFails);
    }
  }

  /** ... and the wait of its server is bounded. */
  lemma ServerGivesUp(
    gate: Gate, manner: Manner, trace: seq<State>, events: seq<Event>, t: seq<State>, e: seq<Event>, x: Side)
    returns (t': seq<State>, e': seq<Event>, s: State)
    requires Continues(gate, trace, events, t, e) && |t| == |e| + 1 && Restrained(manner, t, e, |events|, x)
    requires Alive(t[|e|].At(x)) && (t[|e|].At(x).client == Done || t[|e|].At(x).client == Failed)
    ensures Continues(gate, trace, events, t', e') && |t'| == |e'| + 1 && s == t'[|e'|]
    ensures Restrained(manner, t', e', |events|, x)
    ensures Can(s.At(x), s.At(Peer(x)), Return)
  {
    hide Run, Continues, Restrained;
    t', e', s := t, e, t[|e|];
    if s.At(x).ended.None? {
      t', e', s := ContinueAllowed(gate, manner, trace, events, t, e, x, ServerEnds(Timeout));
    }
  }

  lemma ReturningRun(gate: Gate, manner: Manner, trace: seq<State>, events: seq<Event>, x: Side)
    requires Run(gate, trace, events) && |trace| == |events| + 1
    requires Alive(trace[|events|].At(x)) && !Stuck(manner, trace[|events|].At(x).client)
    ensures CanReturn(gate, manner, trace, events, x)
  {
    hide Run, Continues, Restrained, Alive, Stuck, Can, Own;
    var t, e, s := ClientEnds(gate, manner, trace, events, x);
    t, e, s := ServerGivesUp(gate, manner, trace, events, t, e, x);
    var last := |e|;
    EventsGrow(gate, trace, events, t, e);
    t, e, s := ContinueAllowed(gate, manner, trace, events, t, e, x, Return);
    assert ReturnsAt(e, |events|, last, x);
  }

  lemma ContinuesItself(gate: Gate, trace: seq<State>, events: seq<Event>)
    requires Run(gate, trace, events)
    ensures Continues(gate, trace, events, trace, events)
  {
  }

  lemma NothingYet(manner: Manner, trace: seq<State>, events: seq<Event>, x: Side)
    requires |trace| == |events| + 1
    ensures Restrained(manner, trace, events, |events|, x)
  {
  }

  lemma EventsGrow(gate: Gate, trace: seq<State>, events: seq<Event>, trace': seq<State>, events': seq<Event>)
    requires Continues(gate, trace, events, trace', events')
    ensures |events| <= |events'|
  {
  }

  /**
   * Once its peer no longer serves, a process can still return if and only if its client has
   * no request to the peer left to make; where other errors may end the client, if and only
   * if it is not at a request already. The bound on the wait for the bye does not help: the
   * client retries refused connections for ever.
   */
  lemma SurvivorReturnsExactly(gate: Gate, manner: Manner, trace: seq<State>, events: seq<Event>, x: Side)
    requires Run(gate, trace, events) && |trace| == |events| + 1
    requires Alive(trace[|events|].At(x)) && Deaf(trace[|events|].At(Peer(x)))
    ensures CanReturn(gate, manner, trace, events, x) <==> !Stuck(manner, trace[|events|].At(x).client)
  {
    hide Run, Stuck, Deaf, Can, Own, Other, Allowed, Restrained;
    if !Stuck(manner, trace[|events|].At(x).client) {
      ReturningRun(gate, manner, trace, events, x);
    }
    if CanReturn(gate, manner, trace, events, x) {
      var trace': seq<State>, events': seq<Event>, t: nat :|
        && Continues(gate, trace, events, trace', events') && |trace'| == |events'| + 1
        && Restrained(manner, trace', events', |events|, x) && ReturnsAt(events', |events|, t, x);
      if Stuck(manner, trace[|events|].At(x).client) {
        NoReturn(gate, manner, trace', events', |events|, t, x);
      }
    }
  }

  lemma NoReturn(gate: Gate, manner: Manner, trace: seq<State>, events: seq<Event>, from: nat, t: nat, x: Side)
    requires Run(gate, trace, events) && from <= t < |events| && |trace| == |events| + 1
    requires Restrained(manner, trace, events, from, x)
    requires StuckOrGone(manner, trace[from].At(x)) && Deaf(trace[from].At(Peer(x)))
    ensures events[t] != Event(x, Return)
  {
    hide StuckOrGone, Deaf, Can, Own, Other, Allowed;
    StaysStuck(gate, manner, trace, events, from, t, x);
    MoveStaysStuck(gate, manner, trace[t].At(x), trace[t].At(Peer(x)), events[t].move);
  }

  /** Such a process exists: its server has given up on the bye, its client waits for the import. */
  lemma SurvivorHangs(x: Side) returns (trace: seq<State>, events: seq<Event>)
    ensures Run(OnAnyReply, trace, events) && |trace| == |events| + 1
    ensures Alive(trace[|events|].At(x)) && trace[|events|].At(x).ended == Some(Timeout)
    ensures !CanReturn(OnAnyReply, RefusalsRetried, trace, events, x)
  {
    hide Run, Continues, CanReturn;
    var s: State;
    trace, events := [INIT], [];
    RunStarts();
    trace, events, s := Extend(OnAnyReply, trace, events, x, Start);
    trace, events, s := Extend(OnAnyReply, trace, events, Peer(x), Start);
    trace, events, s := Extend(OnAnyReply, trace, events, Peer(x), Ask);
    trace, events, s := Extend(OnAnyReply, trace, events, Peer(x), Receive);
    trace, events, s := Extend(OnAnyReply, trace, events, x, Ask);
    trace, events, s := Extend(OnAnyReply, trace, events, x, Receive);
    trace, events, s := Extend(OnAnyReply, trace, events, Peer(x), Crash);
    trace, events, s := Extend(OnAnyReply, trace, events, x, ServerEnds(Timeout));
    RunLength(OnAnyReply, trace, events);
    SurvivorReturnsExactly(OnAnyReply, RefusalsRetried, trace, events, x);
  }

  // ---------------------------------------------------------------- liveness

  /** Steps of a run in which nothing goes wrong. */
  predicate Smooth(m: Move)
  {
    match m
    case ServerEnds(why) => why == Bye
    case ClientFails => false
    case SendAbort => false
    case Crash => false
    case _ => true
  }

  ghost predicate SmoothRun(gate: Gate, trace: seq<State>, events: seq<Event>)
  {
    Run(gate, trace, events) && forall i :: 0 <= i < |events| ==> Smooth(events[i].move)
  }

  /** What a node looks like when nothing has gone wrong. */
  ghost predicate Fine(n: Node, p: Node)
  {
    && n.client != Failed && !n.abort && !n.stop
    && (n.ended == None || n.ended == Some(Bye))
    && (n.ended.Some? ==> n.bye)
    && (n.freed ==> ReturnsOk(n))
    && (n.bye <==> p.client == ByeSent || p.client == Done)
    && (n.client.Asked? ==> p.started)
    && (n.published ==> n.started && p.started)
  }

  lemma MoveFine(gate: Gate, n: Node, p: Node, m: Move)
    requires NodeInv(n, p) && NodeInv(p, n) && Fine(n, p) && Fine(p, n) && Can(n, p, m) && Smooth(m)
    ensures Fine(Own(gate, n, p, m), Other(p, m)) && Fine(Other(p, m), Own(gate, n, p, m))
  {
  }

  ghost predicate AllFine(s: State)
  {
    Inv(s) && Fine(s.a, s.b) && Fine(s.b, s.a)
  }

  lemma {:induction false} RunFine(gate: Gate, trace: seq<State>, events: seq<Event>, t: nat)
    requires SmoothRun(gate, trace, events) && t < |trace|
    ensures AllFine(trace[t])
  {
    hide NodeInv, Fine, Can, Own, Other, Smooth;
    RunInv(gate, trace, events, t);
    InitFine();
    if t > 0 {
      RunInv(gate, trace, events, t - 1);
      RunFine(gate, trace, events, t - 1);
      var s, e := trace[t - 1], events[t - 1];
      MoveFine(gate, s.At(e.x), s.At(Peer(e.x)), e.move);
    }
  }

  lemma {:induction false} PublishedStays(gate: Gate, trace: seq<State>, events: seq<Event>, i: nat, t: nat, x: Side)
    requires Run(gate, trace, events) && i <= t < |trace| && trace[i].At(x).published
    ensures trace[t].At(x).published
    decreases t
  {
    hide Can, Own, Other;
    if t > i {
      PublishedStays(gate, trace, events, i, t - 1, x);
      var s, e := trace[t - 1], events[t - 1];
      RunInv(gate, trace, events, t - 1);
      MoveInv(gate, s.At(e.x), s.At(Peer(e.x)), e.move);
    }
  }

  /**
   * Nobody waits forever for a descriptor: a node publishes at its first reply, whatever the
   * status, and every poll that reaches it afterwards is answered with the descriptor.
   */
  lemma PollAfterFirstReplySucceeds(trace: seq<State>, events: seq<Event>, i: nat, j: nat, x: Side)
    requires Run(OnAnyReply, trace, events) && i < j < |events|
    requires events[i] == Event(Peer(x), Receive) && events[j] == Event(x, Ask)
    ensures trace[j + 1].At(x).client == Asked(true)
    ensures j + 1 < |events| && events[j + 1] == Event(x, Receive) ==> trace[j + 2].At(x).client == Importing
  {
    assert trace[i + 1].At(Peer(x)).published;
    PublishedStays(OnAnyReply, trace, events, i + 1, j, Peer(x));
  }

  function Flag(b: bool): (r: nat) { if b then 1 else 0 }

  function ClientWork(c: Client): (r: nat)
  {
    match c
    case Polling => 8
    case Asked(ready) => if ready then 7 else 8
    case Importing => 6
    case Connecting => 5
    case Waiting => 3
    case Leaving => 2
    case ByeSent => 1
    case Done => 0
    case Failed => 0
  }

  /** Steps a node still has to make, not counting fruitless polls. */
  function NodeWork(n: Node): (r: nat)
  {
    ClientWork(n.client) + Flag(n.reading)
    + Flag(!n.started) + Flag(!n.published) + Flag(n.ended.None?) + Flag(!n.freed)
  }

  function WorkLeft(s: State): (r: nat)
  {
    NodeWork(s.a) + NodeWork(s.b)
  }

  /** A poll that finds the peer's slot empty and has nothing left to publish. */
  predicate FruitlessMove(n: Node, p: Node, m: Move)
  {
    (m == Ask && !p.published) || (m == Receive && n.client == Asked(false) && n.published)
  }

  predicate Fruitless(s: State, e: Event)
  {
    FruitlessMove(s.At(e.x), s.At(Peer(e.x)), e.move)
  }

  lemma MoveShrinks(n: Node, p: Node, m: Move)
    requires NodeInv(n, p) && Fine(n, p) && Can(n, p, m) && Smooth(m)
    ensures NodeWork(Other(p, m)) == NodeWork(p)
    ensures NodeWork(Own(OnAnyReply, n, p, m)) == NodeWork(n) <==> FruitlessMove(n, p, m)
    ensures !FruitlessMove(n, p, m) ==> NodeWork(Own(OnAnyReply, n, p, m)) < NodeWork(n)
  {
    OtherWork(p, m);
    hide Other;
  }

  lemma OtherWork(p: Node, m: Move)
    ensures NodeWork(Other(p, m)) == NodeWork(p)
  {
  }

  lemma WorkShrinks(s: State, e: Event)
    requires AllFine(s) && Enabled(s, e) && Smooth(e.move)
    ensures WorkLeft(Next(OnAnyReply, s, e)) == WorkLeft(s) <==> Fruitless(s, e)
    ensures !Fruitless(s, e) ==> WorkLeft(Next(OnAnyReply, s, e)) < WorkLeft(s)
  {
    hide NodeInv, Fine, Can, Own, Other, Smooth, NodeWork, FruitlessMove;
    MoveShrinks(s.At(e.x), s.At(Peer(e.x)), e.move);
  }

  /** How many of the first `t` steps achieved something. */
  ghost function Fruitful(trace: seq<State>, events: seq<Event>, t: nat): (r: nat)
    requires t <= |events| < |trace|
  {
    if t == 0 then 0
    else Fruitful(trace, events, t - 1) + Flag(!Fruitless(trace[t - 1], events[t - 1]))
  }

  /** Only fruitless polls can make a smooth run long: at most 24 steps achieve something. */
  lemma {:induction false} FruitfulStepsAreBounded(trace: seq<State>, events: seq<Event>, t: nat)
    requires SmoothRun(OnAnyReply, trace, events) && t < |trace|
    ensures Fruitful(trace, events, t) + WorkLeft(trace[t]) <= WorkLeft(INIT) == 24
  {
    if t > 0 {
      hide AllFine, Enabled, Next, Smooth, Fruitless, WorkLeft;
      FruitfulStepsAreBounded(trace, events, t - 1);
      RunFine(OnAnyReply, trace, events, t - 1);
      WorkShrinks(trace[t - 1], events[t - 1]);
    }
  }

  predicate Finished(s: State)
  {
    s.a.freed && s.b.freed
  }

  /** The next step of a client task. */
  function OwnTurn(n: Node): (m: Move)
  {
    match n.client
    case Polling => Ask
    case Asked(_) => Receive
    case Importing => Import
    case Connecting => PostRead
    case Waiting => if n.reading then ReadLands else SeeRead
    case Leaving => SendBye
    case ByeSent => ByeAnswered
    case Done => Return
    case Failed => Return
  }

  /** A schedule: clients first, a poll only where it leads somewhere, then servers, then returns. */
  function Choose(s: State): (e: Event)
  {
    if !s.a.started then Event(0, Start)
    else if !s.b.started then Event(1, Start)
    else if OwnTurn(s.a) != Ask && OwnTurn(s.a) != Return then Event(0, OwnTurn(s.a))
    else if OwnTurn(s.b) != Ask && OwnTurn(s.b) != Return then Event(1, OwnTurn(s.b))
    else if s.a.client == Polling && (s.b.published || !s.a.published) then Event(0, Ask)
    else if s.b.client == Polling then Event(1, Ask)
    else if s.a.ended.None? then Event(0, ServerEnds(Bye))
    else if s.b.ended.None? then Event(1, ServerEnds(Bye))
    else if !s.a.freed then Event(0, Return)
    else Event(1, Return)
  }

  /** No smooth state is stuck, and `Choose` names a step that can be taken. */
  lemma ChosenIsEnabled(s: State)
    requires AllFine(s) && !Finished(s)
    ensures Enabled(s, Choose(s)) && Smooth(Choose(s).move)
  {
    if s.a.started && s.b.started {
      TurnIsEnabled(s.a, s.b);
      TurnIsEnabled(s.b, s.a);
    }
    if s.a.started && s.b.started && OwnTurn(s.a) in {Ask, Return} && OwnTurn(s.b) in {Ask, Return} {
      RestIsEnabled(s);
    } else {
      hide NodeInv, Fine, Can, Smooth, OwnTurn;
      StartIsEnabled(s);
    }
  }

  lemma StartIsEnabled(s: State)
    ensures !s.a.started ==> Can(s.a, s.b, Start)
    ensures !s.b.started ==> Can(s.b, s.a, Start)
    ensures Smooth(Start)
  {
  }

  /** A client in the middle of its exchange can go on: the peer still serves. */
  lemma TurnIsEnabled(n: Node, p: Node)
    requires NodeInv(n, p) && NodeInv(p, n) && Fine(n, p) && Fine(p, n) && n.started && p.started
    ensures OwnTurn(n) != Ask && OwnTurn(n) != Return ==> Can(n, p, OwnTurn(n)) && Smooth(OwnTurn(n))
  {
  }

  lemma RestIsEnabled(s: State)
    requires AllFine(s) && !Finished(s) && s.a.started && s.b.started
    requires OwnTurn(s.a) in {Ask, Return} && OwnTurn(s.b) in {Ask, Return}
    ensures Enabled(s, Choose(s)) && Smooth(Choose(s).move)
  {
  }

  function Pause(n: Node): (r: nat)
  {
    if n.client == Polling then 1 else if n.client == Asked(false) && n.published then 2 else 0
  }

  /** Unfinished work, and how far each client is from its next useful reply. */
  function Distance(s: State): (r: nat)
  {
    3 * WorkLeft(s) + Pause(s.a) + Pause(s.b)
  }

  lemma PauseBound(gate: Gate, n: Node, p: Node, m: Move)
    requires Can(n, p, m)
    ensures Pause(Other(p, m)) == Pause(p)
    ensures Pause(Own(gate, n, p, m)) <= Pause(n) + 2
    ensures m == Receive && n.client == Asked(false) && n.published ==> Pause(Own(gate, n, p, m)) < Pause(n)
    ensures m == Ask && !p.published && !n.published ==> Pause(Own(gate, n, p, m)) < Pause(n)
  {
  }

  lemma FruitlessChoice(s: State)
    requires AllFine(s) && Fruitless(s, Choose(s))
    ensures var e := Choose(s); e.move == Ask ==> !s.At(e.x).published
  {
  }

  lemma ChosenComesCloser(s: State)
    requires AllFine(s) && !Finished(s)
    ensures Distance(Next(OnAnyReply, s, Choose(s))) < Distance(s)
  {
    ChosenIsEnabled(s);
    var e := Choose(s);
    if Fruitless(s, e) {
      FruitlessChoice(s);
    }
    hide AllFine, Can, Own, Other, Smooth, WorkLeft, Choose, Pause;
    WorkShrinks(s, e);
    PauseBound(OnAnyReply, s.At(e.x), s.At(Peer(e.x)), e.move);
  }

  predicate ReadsDone(s: State)
  {
    s.a.readDone && s.b.readDone
  }

  lemma FinishedReads(s: State)
    requires AllFine(s) && Finished(s)
    ensures ReturnsOk(s.a) && ReturnsOk(s.b) && ReadsDone(s)
  {
  }

  /** Every smooth run can be extended until both processes have returned Ok. */
  lemma {:induction false} CanAlwaysFinish(trace: seq<State>, events: seq<Event>)
    returns (trace': seq<State>, events': seq<Event>)
    requires SmoothRun(OnAnyReply, trace, events)
    ensures SmoothRun(OnAnyReply, trace', events')
    ensures trace <= trace' && events <= events'
    ensures var s := trace'[|trace'| - 1]; Finished(s) && ReturnsOk(s.a) && ReturnsOk(s.b) && ReadsDone(s)
    decreases Distance(trace[|trace| - 1])
  {
    hide Enabled, Next, Smooth, Distance, Choose, NodeInv;
    var s := trace[|trace| - 1];
    RunFine(OnAnyReply, trace, events, |events|);
    if Finished(s) {
      FinishedReads(s);
      trace', events' := trace, events;
    } else {
      var e := Choose(s);
      ChosenIsEnabled(s);
      ChosenComesCloser(s);
      trace', events' := CanAlwaysFinish(trace + [Next(OnAnyReply, s, e)], events + [e]);
    }
  }

  ghost predicate Stalled(n: Node)
  {
    !n.published && n.client in {Polling, Asked(false), Failed}
  }

  lemma MoveStalls(n: Node, p: Node, m: Move)
    requires Stalled(n) && Stalled(p) && Can(n, p, m)
    ensures Stalled(Own(OnlyOn200, n, p, m)) && Stalled(Other(p, m))
  {
  }

  /**
   * Gating creation on a 200 reply deadlocks: in no run does either process ever publish,
   * leave its polling loop other than by failing, or return Ok.
   */
  lemma {:induction false} GateOn200Deadlocks(trace: seq<State>, events: seq<Event>, t: nat, x: Side)
    requires Run(OnlyOn200, trace, events) && t < |trace|
    ensures Stalled(trace[t].At(x)) && !ReturnsOk(trace[t].At(x))
  {
    hide Can, Own, Other;
    if t > 0 {
      GateOn200Deadlocks(trace, events, t - 1, x);
      GateOn200Deadlocks(trace, events, t - 1, Peer(x));
      var s, e := trace[t - 1], events[t - 1];
      MoveStalls(s.At(e.x), s.At(Peer(e.x)), e.move);
    }
  }
}
