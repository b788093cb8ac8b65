/**
 * The pipelined bandwidth pass as a step system: the poster's ledger (`next`, `posted`,
 * `done`, `doneTotal`, `fenced`) next to the device it drives.
 *
 * The device completes requests in any order. A signaled request carries comp_order, so
 * its record appears only once it and every earlier request of the same jetty are
 * complete; records of one jetty arrive in request order, records of different jettys
 * interleave freely.
 */
module Pipeline {
  import opened Sums
  import opened Arithmetic
  import opened Assignment

  const MAX_JETTIES: nat := 64
  const FENCE_CTX_BASE: nat := 0xFFFF_FFFF_FFFF_FFFF
  const FENCE_CTX_MIN: nat := FENCE_CTX_BASE - (MAX_JETTIES - 1)
  const DEFAULT_DEPTH: nat := 64

  /** `n` jettys, chunks of `list`, at most `depth` ops in flight, every `cqMod`-th op signaled. */
  datatype Config = Config(n: Positive, list: Positive, depth: Positive, cqMod: Positive)
  {
    /** The jetty ceiling of the fence user_ctx encoding, and a depth that fits its u32 flag. */
    predicate Valid() { n <= MAX_JETTIES && depth < 0x1_0000_0000 }
  }

  /** When a pass stops posting: after a number of ops, or at a deadline. */
  datatype Stop = Ops(ops: nat) | Until

  datatype Request = Request(ctx: nat, signaled: bool)

  /**
   * One jetty as the device sees it: the requests posted in this pass, which positions
   * have completed, and the position just behind the last record handed out.
   */
  datatype Lane = Lane(queue: seq<Request>, completed: set<nat>, polled: nat)

  datatype State = State(
    next: nat,
    posted: seq<nat>,
    done: seq<nat>,
    doneTotal: nat,
    fenced: seq<bool>,
    lanes: seq<Lane>,
    expired: bool)

  predicate Shaped(c: Config, s: State)
  {
    |s.posted| == |s.done| == |s.fenced| == |s.lanes| == c.n
  }

  function Init(c: Config): (s: State)
    ensures Shaped(c, s)
  {
    State(0, seq(c.n, _ => 0), seq(c.n, _ => 0), 0, seq(c.n, _ => false),
          seq(c.n, _ => Lane([], {}, 0)), false)
  }

  // ---------------------------------------------------------------- the poster

  /** The stop test; the deadline arm always allows one post. */
  predicate StopPosting(stop: Stop, s: State)
  {
    match stop
    case Ops(ops) => s.next >= ops
    case Until => s.next > 0 && s.expired
  }

  predicate Full(c: Config, s: State)
  {
    s.next - s.doneTotal >= c.depth
  }

  predicate Signaled(c: Config, rank: nat)
  {
    (rank + 1) % c.cqMod == 0
  }

  function OpRequest(c: Config, i: nat): (r: Request)
  {
    Request(i, Signaled(c, OpRank(i, c.n, c.list)))
  }

  function FenceRequest(j: nat): (r: Request)
    requires j < MAX_JETTIES
  {
    Request(FENCE_CTX_BASE - j, true)
  }

  /** A stream of `posts` ops ends on an unsignaled one. */
  predicate TailUncovered(c: Config, posts: nat)
  {
    c.cqMod > 1 && posts % c.cqMod != 0
  }

  function Enqueue(l: Lane, r: Request): (l': Lane)
  {
    l.(queue := l.queue + [r])
  }

  /** Post op `next` on its jetty. */
  function PostedOp(c: Config, s: State): (s': State)
    requires Shaped(c, s)
    ensures Shaped(c, s')
  {
    var j := OpJetty(s.next, c.n, c.list);
    s.(next := s.next + 1,
       posted := s.posted[j := s.posted[j] + 1],
       lanes := s.lanes[j := Enqueue(s.lanes[j], OpRequest(c, s.next))])
  }

  /** Post the fence READ of jetty `j`. */
  function PostedFence(c: Config, s: State, j: nat): (s': State)
    requires c.Valid() && Shaped(c, s) && j < c.n
    ensures Shaped(c, s')
  {
    s.(fenced := s.fenced[j := true],
       lanes := s.lanes[j := Enqueue(s.lanes[j], FenceRequest(j))])
  }

  /** Which jetty a record's user_ctx belongs to: a fence, or an op index. */
  function CtxJetty(c: Config, ctx: nat): (j: int)
  {
    if ctx >= FENCE_CTX_MIN then FENCE_CTX_BASE - ctx else OpJetty(ctx, c.n, c.list)
  }

  /** How many ops of that jetty the record proves complete. */
  function CtxTarget(c: Config, posted: seq<nat>, ctx: nat): (t: nat)
    requires 0 <= CtxJetty(c, ctx) < |posted|
  {
    if ctx >= FENCE_CTX_MIN then posted[CtxJetty(c, ctx)] else OpRank(ctx, c.n, c.list) + 1
  }

  /** Account one successful record. */
  function Accounted(c: Config, s: State, ctx: nat): (s': State)
    requires Shaped(c, s) && 0 <= CtxJetty(c, ctx) < c.n
    ensures Shaped(c, s')
  {
    var j := CtxJetty(c, ctx);
    var target := CtxTarget(c, s.posted, ctx);
    if target > s.done[j]
    then s.(doneTotal := s.doneTotal + (target - s.done[j]), done := s.done[j := target])
    else s
  }

  // ---------------------------------------------------------------- the device

  /** Position `k` is the next record of this lane and comp_order lets it out. */
  predicate Deliverable(l: Lane, k: nat)
  {
    && l.polled <= k < |l.queue|
    && l.queue[k].signaled
    && (forall i :: l.polled <= i < k ==> !l.queue[i].signaled)
    && (forall i: nat :: i <= k ==> i in l.completed)
  }

  /** Some record of this lane has not been handed out yet. */
  predicate Pending(l: Lane)
  {
    exists k :: l.polled <= k < |l.queue| && l.queue[k].signaled
  }

  /** Any set of posted requests may complete at any time, in any order. */
  predicate CanComplete(lanes: seq<Lane>, more: seq<set<nat>>)
  {
    && |more| == |lanes|
    && (forall j, k :: 0 <= j < |lanes| && k in more[j] ==> k < |lanes[j].queue|)
  }

  function Completed(lanes: seq<Lane>, more: seq<set<nat>>): (lanes': seq<Lane>)
    requires |more| == |lanes|
    ensures |lanes'| == |lanes|
  {
    seq(|lanes|, j requires 0 <= j < |lanes| =>
      lanes[j].(completed := lanes[j].completed + more[j]))
  }

  function Delivered(s: State, j: nat, k: nat): (s': State)
    requires j < |s.lanes|
  {
    s.(lanes := s.lanes[j := s.lanes[j].(polled := k + 1)])
  }

  // ---------------------------------------------------------------- steps

  datatype Event =
    | PostOp
    | PostFence(j: nat)
    | Complete(more: seq<set<nat>>)
    | Reap(j: nat, k: nat)
    | Expire

  ghost predicate Step(c: Config, stop: Stop, s: State, e: Event, s': State)
    requires c.Valid() && Shaped(c, s)
  {
    match e
    case PostOp =>
      !StopPosting(stop, s) && !Full(c, s) && s.next < FENCE_CTX_MIN && s' == PostedOp(c, s)
    case PostFence(j) =>
      && StopPosting(stop, s) && !Full(c, s)
      && j < c.n && !s.fenced[j] && TailUncovered(c, s.posted[j])
      && s' == PostedFence(c, s, j)
    case Complete(more) =>
      CanComplete(s.lanes, more) && s' == s.(lanes := Completed(s.lanes, more))
    case Reap(j, k) =>
      && j < c.n && Deliverable(s.lanes[j], k)
      && var ctx := s.lanes[j].queue[k].ctx;
         0 <= CtxJetty(c, ctx) < c.n && s' == Accounted(c, Delivered(s, j, k), ctx)
    case Expire =>
      s' == s.(expired := true)
  }

  /** A run: states `trace`, joined by `events`, starting in the initial state. */
  ghost predicate Run(c: Config, stop: Stop, trace: seq<State>, events: seq<Event>)
    requires c.Valid()
  {
    && |trace| == |events| + 1
    && trace[0] == Init(c)
    && (forall i :: 0 <= i < |trace| ==> Shaped(c, trace[i]))
    && (forall i :: 0 <= i < |events| ==> Step(c, stop, trace[i], events[i], trace[i + 1]))
  }

  // ---------------------------------------------------------------- the invariant

  /** What ledger and device agree on for one jetty with `p` posts and `d` known completions. */
  ghost predicate LaneInv(c: Config, j: nat, p: nat, d: nat, f: bool, l: Lane)
    requires c.Valid() && j < c.n
  {
    && |l.queue| == p + (if f then 1 else 0)
    && (forall k: nat :: k < p ==> l.queue[k] == OpRequest(c, OpIndex(j, k, c.n, c.list)))
    && (f ==> l.queue[p] == FenceRequest(j) && TailUncovered(c, p))
    && l.polled <= |l.queue|
    && (l.polled <= p ==> l.polled % c.cqMod == 0)
    && d == (if l.polled <= p then l.polled else p)
    && (forall k: nat :: k < l.polled ==> k in l.completed)
    && (forall k :: k in l.completed ==> k < |l.queue|)
  }

  ghost predicate Inv(c: Config, stop: Stop, s: State)
    requires c.Valid()
  {
    && Shaped(c, s)
    && s.posted == Counts(s.next, c.n, c.list)
    && s.next <= FENCE_CTX_MIN
    && (stop.Ops? ==> s.next <= stop.ops)
    && s.doneTotal == Sum(s.done)
    && s.next - s.doneTotal <= c.depth
    && (forall j: nat :: j < c.n ==> LaneInv(c, j, s.posted[j], s.done[j], s.fenced[j], s.lanes[j]))
    && (forall j: nat :: j < c.n && s.fenced[j] ==> StopPosting(stop, s))
  }

  lemma InitInv(c: Config, stop: Stop)
    requires c.Valid()
    ensures Inv(c, stop, Init(c))
  {
    var s := Init(c);
    forall j: nat | j < c.n ensures CountOn(0, j, c.n, c.list) == 0 {
      CountZero(j, c.n, c.list);
    }
    SumZero(s.done);
    assert s.posted == Counts(0, c.n, c.list);
  }

  lemma PostOpInv(c: Config, stop: Stop, s: State)
    requires c.Valid() && Inv(c, stop, s)
    requires !StopPosting(stop, s) && !Full(c, s) && s.next < FENCE_CTX_MIN
    ensures Inv(c, stop, PostedOp(c, s))
  {
    var s' := PostedOp(c, s);
    var at := OpJetty(s.next, c.n, c.list);
    CountsStep(s.next, c.n, c.list);
    IndexOfAssigned(s.next, c.n, c.list);
    assert s.posted[at] == OpRank(s.next, c.n, c.list);
    forall j: nat | j < c.n
      ensures LaneInv(c, j, s'.posted[j], s'.done[j], s'.fenced[j], s'.lanes[j])
    {
      assert LaneInv(c, j, s.posted[j], s.done[j], s.fenced[j], s.lanes[j]);
    }
  }

  lemma PostFenceInv(c: Config, stop: Stop, s: State, j: nat)
    requires c.Valid() && Inv(c, stop, s)
    requires StopPosting(stop, s) && j < c.n && !s.fenced[j] && TailUncovered(c, s.posted[j])
    ensures Inv(c, stop, PostedFence(c, s, j))
  {
    var s' := PostedFence(c, s, j);
    forall i: nat | i < c.n
      ensures LaneInv(c, i, s'.posted[i], s'.done[i], s'.fenced[i], s'.lanes[i])
    {
      assert LaneInv(c, i, s.posted[i], s.done[i], s.fenced[i], s.lanes[i]);
    }
  }

  /** The record at position `k` of jetty `j` decodes to jetty `j` and to all ops up to `k`. */
  lemma RecordDecodes(c: Config, stop: Stop, s: State, j: nat, k: nat)
    requires c.Valid() && Inv(c, stop, s) && j < c.n && k < |s.lanes[j].queue|
    ensures var ctx := s.lanes[j].queue[k].ctx;
            && CtxJetty(c, ctx) == j
            && CtxTarget(c, s.posted, ctx) == (if k < s.posted[j] then k + 1 else s.posted[j])
  {
    assert LaneInv(c, j, s.posted[j], s.done[j], s.fenced[j], s.lanes[j]);
    if k < s.posted[j] {
      AssignedOfIndex(j, k, c.n, c.list);
      IndexBelow(c, s.next, j, k);
    }
  }

  /** The ranks already counted on a jetty belong to ops already posted. */
  lemma IndexBelow(c: Config, next: nat, j: nat, k: nat)
    requires j < c.n && k < CountOn(next, j, c.n, c.list)
    ensures OpIndex(j, k, c.n, c.list) < next
  {
    var i := OpIndex(j, k, c.n, c.list);
    AssignedOfIndex(j, k, c.n, c.list);
    if i >= next {
      CountGrows(next, i, j, c.n, c.list);
    }
  }

  /** Between two records a lane advances by whole moderation groups, or onto its fence. */
  lemma NextRecordPosition(c: Config, j: nat, p: nat, d: nat, f: bool, l: Lane, k: nat)
    requires c.Valid() && j < c.n && LaneInv(c, j, p, d, f, l)
    requires l.polled <= k < |l.queue| && l.queue[k].signaled
    ensures k < p ==> (k + 1) % c.cqMod == 0
    ensures k >= p ==> k == p && f && l.polled <= p
  {
    if k < p {
      AssignedOfIndex(j, k, c.n, c.list);
    }
  }

  /** How far a lane is known complete after the record at position `k`. */
  function DoneAfter(p: nat, k: nat): (d: nat)
  {
    if k < p then k + 1 else p
  }

  lemma ReapLane(c: Config, j: nat, p: nat, d: nat, f: bool, l: Lane, k: nat)
    requires c.Valid() && j < c.n && LaneInv(c, j, p, d, f, l) && Deliverable(l, k)
    ensures LaneInv(c, j, p, DoneAfter(p, k), f, l.(polled := k + 1))
    ensures d < DoneAfter(p, k)
  {
    NextRecordPosition(c, j, p, d, f, l, k);
  }

  /** What reaping the record at position `k` of jetty `j` does to ledger and device. */
  function ReapedState(s: State, j: nat, k: nat): (s': State)
    requires j < |s.lanes| && |s.lanes| == |s.done| == |s.posted|
    requires s.done[j] < DoneAfter(s.posted[j], k)
  {
    var d := DoneAfter(s.posted[j], k);
    s.(done := s.done[j := d],
       doneTotal := s.doneTotal + (d - s.done[j]),
       lanes := s.lanes[j := s.lanes[j].(polled := k + 1)])
  }

  /** Every record moves its jetty's count forward: none is redundant, none is miscredited. */
  lemma ReapDecodes(c: Config, stop: Stop, s: State, j: nat, k: nat)
    requires c.Valid() && Inv(c, stop, s) && j < c.n && Deliverable(s.lanes[j], k)
    ensures var ctx := s.lanes[j].queue[k].ctx;
            && CtxJetty(c, ctx) == j && s.done[j] < DoneAfter(s.posted[j], k)
            && Accounted(c, Delivered(s, j, k), ctx) == ReapedState(s, j, k)
  {
    RecordDecodes(c, stop, s, j, k);
    ReapLane(c, j, s.posted[j], s.done[j], s.fenced[j], s.lanes[j], k);
    hide CtxJetty, CtxTarget, LaneInv, Counts;
  }

  lemma ReapInv(c: Config, stop: Stop, s: State, j: nat, k: nat)
    requires c.Valid() && Inv(c, stop, s) && j < c.n && Deliverable(s.lanes[j], k)
    ensures var ctx := s.lanes[j].queue[k].ctx;
            CtxJetty(c, ctx) == j && Inv(c, stop, Accounted(c, Delivered(s, j, k), ctx))
  {
    ReapDecodes(c, stop, s, j, k);
    ReapLane(c, j, s.posted[j], s.done[j], s.fenced[j], s.lanes[j], k);
    SumUpdate(s.done, j, DoneAfter(s.posted[j], k));
    hide LaneInv, CtxJetty, CtxTarget, Counts, Accounted, Sum, Deliverable;
    var s' := ReapedState(s, j, k);
    forall i: nat | i < c.n
      ensures LaneInv(c, i, s'.posted[i], s'.done[i], s'.fenced[i], s'.lanes[i])
    {
      assert LaneInv(c, i, s.posted[i], s.done[i], s.fenced[i], s.lanes[i]);
    }
  }

  lemma CompleteInv(c: Config, stop: Stop, s: State, more: seq<set<nat>>)
    requires c.Valid() && Inv(c, stop, s) && CanComplete(s.lanes, more)
    ensures Inv(c, stop, s.(lanes := Completed(s.lanes, more)))
  {
    var s' := s.(lanes := Completed(s.lanes, more));
    forall i: nat | i < c.n
      ensures LaneInv(c, i, s'.posted[i], s'.done[i], s'.fenced[i], s'.lanes[i])
    {
      assert LaneInv(c, i, s.posted[i], s.done[i], s.fenced[i], s.lanes[i]);
    }
  }

  /** Every step of poster, device or clock keeps the invariant. */
  lemma StepInv(c: Config, stop: Stop, s: State, e: Event, s': State)
    requires c.Valid() && Inv(c, stop, s) && Step(c, stop, s, e, s')
    ensures Inv(c, stop, s')
  {
    match e
    case PostOp => PostOpInv(c, stop, s);
    case PostFence(j) => PostFenceInv(c, stop, s, j);
    case Complete(more) => CompleteInv(c, stop, s, more);
    case Reap(j, k) => ReapInv(c, stop, s, j, k);
    case Expire =>
  }

  lemma {:induction false} RunInv(c: Config, stop: Stop, trace: seq<State>, events: seq<Event>, i: nat)
    requires c.Valid() && Run(c, stop, trace, events) && i < |trace|
    ensures Inv(c, stop, trace[i])
  {
    if i == 0 {
      InitInv(c, stop);
    } else {
      RunInv(c, stop, trace, events, i - 1);
      StepInv(c, stop, trace[i - 1], events[i - 1], trace[i]);
    }
  }

  // ---------------------------------------------------------------- safety over whole runs

  /**
   * Soundness of moderated completion: in every reachable state, every op the ledger
   * counts as done was posted on the device and has really completed there.
   */
  lemma CountedOpsHaveCompleted(c: Config, stop: Stop, trace: seq<State>, events: seq<Event>, t: nat, op: nat)
    requires c.Valid() && Run(c, stop, trace, events) && t < |trace|
    requires OpRank(op, c.n, c.list) < trace[t].done[OpJetty(op, c.n, c.list)]
    ensures var lane := trace[t].lanes[OpJetty(op, c.n, c.list)];
            var rank := OpRank(op, c.n, c.list);
            && op < trace[t].next
            && rank < |lane.queue| && lane.queue[rank].ctx == op
            && rank in lane.completed
  {
    RunInv(c, stop, trace, events, t);
    var s := trace[t];
    var j, rank := OpJetty(op, c.n, c.list), OpRank(op, c.n, c.list);
    assert LaneInv(c, j, s.posted[j], s.done[j], s.fenced[j], s.lanes[j]);
    IndexOfAssigned(op, c.n, c.list);
    IndexBelow(c, s.next, j, rank);
  }

  /** Exact accounting in every reachable state. */
  lemma AccountingIsExact(c: Config, stop: Stop, trace: seq<State>, events: seq<Event>, t: nat)
    requires c.Valid() && Run(c, stop, trace, events) && t < |trace|
    ensures var s := trace[t];
            && s.next == Sum(s.posted)
            && s.doneTotal == Sum(s.done)
            && (forall j: nat :: j < c.n ==> s.done[j] <= s.posted[j])
            && (forall j: nat :: j < c.n ==> s.posted[j] == |OpsOn(s.next, j, c.n, c.list)|)
            && 0 <= s.next - s.doneTotal <= c.depth
            && (stop.Ops? ==> s.next <= stop.ops)
  {
    RunInv(c, stop, trace, events, t);
    var s := trace[t];
    CountsSum(s.next, c.n, c.list);
    forall j: nat | j < c.n
      ensures s.done[j] <= s.posted[j] && s.posted[j] == |OpsOn(s.next, j, c.n, c.list)|
    {
      assert LaneInv(c, j, s.posted[j], s.done[j], s.fenced[j], s.lanes[j]);
      CountIsCardinality(s.next, j, c.n, c.list);
    }
    SumMonotone(s.done, s.posted);
  }

  /** The condition under which the pass leaves its loop with Ok. */
  predicate Finished(stop: Stop, s: State)
  {
    s.doneTotal == s.next && StopPosting(stop, s)
  }

  predicate Drained(lanes: seq<Lane>)
  {
    forall j :: 0 <= j < |lanes| ==> !Pending(lanes[j])
  }

  /**
   * An Ok exit leaves nothing behind: every jetty is fully counted, every fence was
   * reaped, and the shared completion queue holds no record for a later pass to find.
   */
  lemma FinishedIsDrained(c: Config, stop: Stop, s: State)
    requires c.Valid() && Inv(c, stop, s) && Finished(stop, s)
    ensures s.done == s.posted
    ensures Drained(s.lanes)
    ensures forall j: nat :: j < c.n && s.fenced[j] ==> s.lanes[j].polled == |s.lanes[j].queue|
    ensures forall j: nat, k: nat :: j < c.n && k < s.posted[j] ==> k in s.lanes[j].completed
    ensures stop.Ops? ==> s.doneTotal == stop.ops
  {
    CountsSum(s.next, c.n, c.list);
    forall j: nat | j < c.n ensures s.done[j] <= s.posted[j] {
      assert LaneInv(c, j, s.posted[j], s.done[j], s.fenced[j], s.lanes[j]);
    }
    SumMonotone(s.done, s.posted);
    forall j: nat | j < c.n
      ensures !Pending(s.lanes[j])
      ensures s.fenced[j] ==> s.lanes[j].polled == |s.lanes[j].queue|
      ensures forall k: nat :: k < s.posted[j] ==> k in s.lanes[j].completed
    {
      assert LaneInv(c, j, s.posted[j], s.done[j], s.fenced[j], s.lanes[j]);
    }
  }

  /** The queue length every jetty and the completion queue are created with. */
  function QueueDepth(c: Config): (q: nat)
  {
    (if c.depth > DEFAULT_DEPTH then c.depth else DEFAULT_DEPTH) + c.n
  }

  /** The least length that leaves one slot per jetty above both the depth and the default. */
  lemma QueueDepthIsLeast(c: Config, q: nat)
    ensures q >= QueueDepth(c) <==> q - c.n >= c.depth && q - c.n >= 64
  {
  }

  function CountSignaled(q: seq<Request>): (c: nat)
    ensures c <= |q|
  {
    if q == [] then 0 else CountSignaled(q[..|q| - 1]) + (if q[|q| - 1].signaled then 1 else 0)
  }

  /** Records of a lane that the pass has not reaped: at most what the completion queue holds. */
  function Unreaped(l: Lane): (c: nat)
  {
    if l.polled <= |l.queue| then CountSignaled(l.queue[l.polled..]) else 0
  }

  /** Requests of a lane whose queue slot no record has released yet. */
  function Outstanding(l: Lane): (c: nat)
  {
    if l.polled <= |l.queue| then |l.queue| - l.polled else 0
  }

  /** In-flight ops per jetty. */
  function InFlight(s: State): (f: seq<nat>)
    requires |s.posted| == |s.done|
    requires forall j :: 0 <= j < |s.posted| ==> s.done[j] <= s.posted[j]
    ensures |f| == |s.posted|
    ensures forall j :: 0 <= j < |f| ==> s.posted[j] == s.done[j] + f[j]
  {
    seq(|s.posted|, j requires 0 <= j < |s.posted| => s.posted[j] - s.done[j])
  }

  lemma InFlightSum(c: Config, stop: Stop, s: State)
    requires c.Valid() && Inv(c, stop, s)
    ensures forall j: nat :: j < c.n ==> s.done[j] <= s.posted[j]
    ensures Sum(InFlight(s)) == s.next - s.doneTotal
  {
    forall j: nat | j < c.n ensures s.done[j] <= s.posted[j] {
      assert LaneInv(c, j, s.posted[j], s.done[j], s.fenced[j], s.lanes[j]);
    }
    CountsSum(s.next, c.n, c.list);
    SumDifference(s.posted, s.done, InFlight(s));
  }

  /**
   * The queues never overflow: in every reachable state each jetty's outstanding requests,
   * fence included, and all unreaped records together fit the configured queue depth.
   */
  lemma QueuesNeverOverflow(c: Config, stop: Stop, trace: seq<State>, events: seq<Event>, t: nat)
    requires c.Valid() && Run(c, stop, trace, events) && t < |trace|
    ensures forall j: nat :: j < c.n ==> Outstanding(trace[t].lanes[j]) <= QueueDepth(c)
    ensures Sum(seq(c.n, (j: nat) requires j < c.n => Unreaped(trace[t].lanes[j]))) <= QueueDepth(c)
  {
    hide OpRank, OpIndex, OpJetty, CountOn, OpRequest, Run;
    RunInv(c, stop, trace, events, t);
    var s := trace[t];
    InFlightSum(c, stop, s);
    var flight := InFlight(s);
    var records := seq(c.n, (j: nat) requires j < c.n => Unreaped(s.lanes[j]));
    var slots := seq(c.n, (j: nat) requires j < c.n => flight[j] + 1);
    var ones := seq(c.n, (j: nat) => 1);
    forall j: nat | j < c.n
      ensures records[j] <= Outstanding(s.lanes[j]) <= slots[j] <= c.depth + 1
    {
      assert LaneInv(c, j, s.posted[j], s.done[j], s.fenced[j], s.lanes[j]);
      SumAtLeastOne(flight, j);
    }
    SumMonotone(records, slots);
    SumDifference(slots, flight, ones);
    SumAtMost(ones, 1);
  }
}
