/**
 * When the moderated pipeline can make progress, when it stalls for good, and why an
 * op-count pass ends.
 */
module Progress {
  import opened Sums
  import opened Arithmetic
  import opened Assignment
  import opened Pipeline

  const CQ_MOD_AUTO: nat := 100

  /** Effective moderation: min(100, depth) by default, an explicit value clamped to 1..=depth. */
  function ResolveCqMod(flag: nat, depth: Positive): (m: Positive)
    ensures m <= depth
    ensures flag == 0 && depth >= 100 ==> m == 100
    ensures 1 <= flag <= depth ==> m == flag
    ensures flag > depth || (flag == 0 && depth < 100) ==> m == depth
  {
    if flag == 0 then (if CQ_MOD_AUTO < depth then CQ_MOD_AUTO else depth)
    else if flag > depth then depth else flag
  }

  /** The poll at the bottom of the loop: posting is blocked, fences are out, work remains. */
  ghost predicate AboutToPoll(c: Config, stop: Stop, s: State)
    requires Shaped(c, s)
  {
    && s.doneTotal < s.next
    && (Full(c, s) || StopPosting(stop, s))
    && (!Full(c, s) ==> forall j: nat :: j < c.n && TailUncovered(c, s.posted[j]) ==> s.fenced[j])
  }

  ghost predicate SomePending(s: State)
  {
    exists j :: 0 <= j < |s.lanes| && Pending(s.lanes[j])
  }

  lemma NextMultiple(p: nat, m: Positive)
    requires p % m == 0
    ensures (p + m) % m == 0
  {
    MulDistributes(p / m, 1, m);
    DivUnique(p + m, m, p / m + 1, 0);
  }

  /** A jetty with a whole moderation group in flight has a signaled op to wait for. */
  lemma GroupIsPending(c: Config, stop: Stop, s: State, j: nat)
    requires c.Valid() && Inv(c, stop, s) && j < c.n
    requires s.posted[j] - s.done[j] >= c.cqMod
    ensures Pending(s.lanes[j])
  {
    var l := s.lanes[j];
    assert LaneInv(c, j, s.posted[j], s.done[j], s.fenced[j], l);
    var k := l.polled + c.cqMod - 1;
    NextMultiple(l.polled, c.cqMod);
    AssignedOfIndex(j, k, c.n, c.list);
    hide OpRank, OpIndex, OpJetty;
    assert l.queue[k] == OpRequest(c, OpIndex(j, k, c.n, c.list));
    assert l.queue[k].signaled;
  }

  /** A fenced jetty that is not fully counted still waits for its fence's record. */
  lemma FenceIsPending(c: Config, stop: Stop, s: State, j: nat)
    requires c.Valid() && Inv(c, stop, s) && j < c.n
    requires s.done[j] < s.posted[j] && s.fenced[j]
    ensures Pending(s.lanes[j])
  {
    var l := s.lanes[j];
    assert LaneInv(c, j, s.posted[j], s.done[j], s.fenced[j], l);
    assert l.queue[s.posted[j]].signaled;
  }

  /** A stream whose tail is covered and that is not fully counted has a signaled op in flight. */
  lemma CoveredTailIsPending(c: Config, stop: Stop, s: State, j: nat)
    requires c.Valid() && Inv(c, stop, s) && j < c.n
    requires s.done[j] < s.posted[j] && !TailUncovered(c, s.posted[j])
    ensures Pending(s.lanes[j])
  {
    var l, p, m := s.lanes[j], s.posted[j], c.cqMod;
    assert LaneInv(c, j, p, s.done[j], s.fenced[j], l);
    assert p % m == 0;
    AssignedOfIndex(j, p - 1, c.n, c.list);
    assert l.queue[p - 1].signaled;
  }

  /** The pipeline is deeper than everything the jettys can hold without a signaled op. */
  predicate DeepEnough(c: Config)
  {
    c.depth > c.n * (c.cqMod - 1)
  }

  /**
   * Progress: for every chunk size, if `depth > n * (cqMod - 1)` a reachable state that is
   * about to poll always has an unreaped record coming.
   */
  lemma PollingStateHasPending(c: Config, stop: Stop, s: State)
    requires c.Valid() && Inv(c, stop, s) && AboutToPoll(c, stop, s) && DeepEnough(c)
    ensures SomePending(s)
  {
    InFlightSum(c, stop, s);
    var flight := InFlight(s);
    if forall j :: 0 <= j < c.n ==> flight[j] <= c.cqMod - 1 {
      SumAtMost(flight, c.cqMod - 1);
      var j: nat :| j < c.n && s.done[j] < s.posted[j] by {
        if forall j: nat :: j < c.n ==> s.done[j] >= s.posted[j] {
          SumZero(flight);
        }
      }
      if TailUncovered(c, s.posted[j]) {
        FenceIsPending(c, stop, s, j);
      } else {
        CoveredTailIsPending(c, stop, s, j);
      }
    } else {
      var j: nat :| j < c.n && flight[j] >= c.cqMod;
      GroupIsPending(c, stop, s, j);
    }
  }

  lemma ProgressOverRuns(c: Config, stop: Stop, trace: seq<State>, events: seq<Event>, t: nat)
    requires c.Valid() && Run(c, stop, trace, events) && t < |trace|
    requires AboutToPoll(c, stop, trace[t]) && DeepEnough(c)
    ensures SomePending(trace[t])
  {
    RunInv(c, stop, trace, events, t);
    PollingStateHasPending(c, stop, trace[t]);
  }

  /** One jetty: clamping the moderation to the depth is enough. */
  lemma ClampSufficesForOneJetty(flag: nat, depth: Positive, list: Positive)
    ensures DeepEnough(Config(1, list, depth, ResolveCqMod(flag, depth)))
  {
  }

  // ---------------------------------------------------------------- stalls

  /** A full pipeline none of whose ops will ever produce a record. */
  ghost predicate Stalled(c: Config, s: State)
  {
    Full(c, s) && !SomePending(s)
  }

  ghost predicate CanStall(c: Config, stop: Stop)
    requires c.Valid()
  {
    exists trace, events ::
      Run(c, stop, trace, events) && Stalled(c, trace[|trace| - 1])
  }

  /** The state after the first `k` posts. */
  function AfterPosts(c: Config, k: nat): (s: State)
    ensures Shaped(c, s) && s.next == k && s.doneTotal == 0
    ensures forall j: nat :: j < c.n ==> s.lanes[j].polled == 0
  {
    if k == 0 then Init(c) else PostedOp(c, AfterPosts(c, k - 1))
  }

  /** The opening burst is a run: nothing has to complete for the first `depth` posts. */
  lemma BurstRun(c: Config, stop: Stop, k: nat)
    returns (trace: seq<State>, events: seq<Event>)
    requires c.Valid() && stop.Ops? && k <= c.depth && k <= stop.ops
    ensures Run(c, stop, trace, events) && trace[|trace| - 1] == AfterPosts(c, k)
  {
    trace, events := [Init(c)], [];
    var i := 0;
    while i < k
      invariant 0 <= i <= k && |events| == i
      invariant Run(c, stop, trace, events) && trace[i] == AfterPosts(c, i)
    {
      var s := AfterPosts(c, i + 1);
      assert Step(c, stop, trace[i], PostOp, s);
      trace, events := trace + [s], events + [PostOp];
      i := i + 1;
    }
  }

  /** With plain round robin, `k` ops put at most ceil(k / n) on any jetty. */
  lemma RoundRobinShare(k: nat, j: nat, n: Positive, m: Positive)
    requires j < n && k <= n * (m - 1)
    ensures CountOn(k, j, n, 1) <= m - 1
  {
    Decompose(k, n, 1);
    var q := Cycle(k, n, 1);
    assert q * (1 * n) == q * n;
    if q >= m - 1 {
      MulDistributes(q, m - 1, n);
      if q > m - 1 {
        MulAtLeast(q - (m - 1), n);
      }
    }
  }

  /** A lane with fewer posts than one moderation group holds no signaled op. */
  lemma ShortLaneNotPending(c: Config, stop: Stop, s: State, j: nat)
    requires c.Valid() && Inv(c, stop, s) && j < c.n
    requires s.posted[j] < c.cqMod && !s.fenced[j]
    ensures !Pending(s.lanes[j])
  {
    var l := s.lanes[j];
    assert LaneInv(c, j, s.posted[j], s.done[j], s.fenced[j], l);
    forall k: nat | k < |l.queue| ensures !l.queue[k].signaled {
      AssignedOfIndex(j, k, c.n, c.list);
      DivUnique(k + 1, c.cqMod, 0, k + 1);
    }
  }

  lemma {:induction false} BurstInv(c: Config, stop: Stop, k: nat)
    requires c.Valid() && stop.Ops? && k <= c.depth && k <= stop.ops
    ensures Inv(c, stop, AfterPosts(c, k))
    ensures forall j: nat :: j < c.n ==> !AfterPosts(c, k).fenced[j]
  {
    if k == 0 {
      InitInv(c, stop);
    } else {
      BurstInv(c, stop, k - 1);
      PostOpInv(c, stop, AfterPosts(c, k - 1));
    }
  }

  /**
   * Exactly when plain round robin stalls: a pass of at least `depth` ops can fill its
   * pipeline with ops that never report if and only if `depth <= n * (cqMod - 1)`.
   */
  lemma StallCondition(c: Config, ops: nat)
    requires c.Valid() && c.list == 1 && ops >= c.depth
    ensures CanStall(c, Ops(ops)) <==> !DeepEnough(c)
  {
    var stop := Ops(ops);
    if DeepEnough(c) {
      forall trace, events | Run(c, stop, trace, events)
        ensures !Stalled(c, trace[|trace| - 1])
      {
        var s := trace[|trace| - 1];
        RunInv(c, stop, trace, events, |trace| - 1);
        if Stalled(c, s) {
          PollingStateHasPending(c, stop, s);
        }
      }
    } else {
      var trace, events := BurstRun(c, stop, c.depth);
      var s := AfterPosts(c, c.depth);
      BurstInv(c, stop, c.depth);
      forall j: nat | j < c.n ensures !Pending(s.lanes[j]) {
        RoundRobinShare(c.depth, j, c.n, c.cqMod);
        ShortLaneNotPending(c, stop, s, j);
      }
      assert Stalled(c, trace[|trace| - 1]);
    }
  }

  /** The documented clamp is not enough: two jettys at depth 128 stall with default moderation. */
  lemma DefaultModerationStalls()
    ensures var c := Config(2, 1, 128, ResolveCqMod(0, 128));
            c.cqMod <= c.depth && CanStall(c, Ops(1000))
  {
    StallCondition(Config(2, 1, 128, ResolveCqMod(0, 128)), 1000);
  }

  /** A stalled pass stays stalled: no post, fence or record step is possible any more. */
  lemma StallIsPermanent(c: Config, stop: Stop, s: State, e: Event, s': State)
    requires c.Valid() && Inv(c, stop, s) && Stalled(c, s) && Step(c, stop, s, e, s')
    ensures e.Complete? || e.Expire?
    ensures Stalled(c, s')
  {
    if e.Complete? {
      forall j: nat | j < c.n ensures !Pending(s'.lanes[j]) {
        assert !Pending(s.lanes[j]);
        assert s'.lanes[j].queue == s.lanes[j].queue && s'.lanes[j].polled == s.lanes[j].polled;
      }
    }
  }

  // ---------------------------------------------------------------- termination

  function Unfenced(f: seq<bool>): (u: seq<nat>)
    ensures |u| == |f|
  {
    seq(|f|, j requires 0 <= j < |f| => if f[j] then 0 else 1)
  }

  function OutstandingAll(lanes: seq<Lane>): (o: seq<nat>)
    ensures |o| == |lanes|
  {
    seq(|lanes|, j requires 0 <= j < |lanes| => Outstanding(lanes[j]))
  }

  /** Work left: posts still to come, unposted fences, undelivered requests. */
  function Work(posts: int, s: State): (w: int)
  {
    3 * posts + 2 * Sum(Unfenced(s.fenced)) + Sum(OutstandingAll(s.lanes))
  }

  function WorkLeft(ops: nat, s: State): (w: int)
  {
    Work(ops - s.next, s)
  }

  predicate Progresses(e: Event)
  {
    e.PostOp? || e.PostFence? || e.Reap?
  }

  /** Appending a request to one lane adds one outstanding request. */
  lemma EnqueueOutstanding(c: Config, stop: Stop, s: State, j: nat, r: Request)
    requires c.Valid() && Inv(c, stop, s) && j < c.n
    ensures Sum(OutstandingAll(s.lanes[j := Enqueue(s.lanes[j], r)])) == Sum(OutstandingAll(s.lanes)) + 1
  {
    var o := OutstandingAll(s.lanes);
    assert LaneInv(c, j, s.posted[j], s.done[j], s.fenced[j], s.lanes[j]);
    assert OutstandingAll(s.lanes[j := Enqueue(s.lanes[j], r)]) == o[j := o[j] + 1];
    SumUpdate(o, j, o[j] + 1);
  }

  /** Reaping a record releases at least one outstanding request. */
  lemma ReapOutstanding(s: State, j: nat, k: nat)
    requires j < |s.lanes| && Deliverable(s.lanes[j], k)
    ensures Sum(OutstandingAll(Delivered(s, j, k).lanes)) < Sum(OutstandingAll(s.lanes))
  {
    var o := OutstandingAll(s.lanes);
    var left := |s.lanes[j].queue| - (k + 1);
    assert OutstandingAll(Delivered(s, j, k).lanes) == o[j := left];
    SumUpdate(o, j, left);
  }

  lemma CompletedOutstanding(lanes: seq<Lane>, more: seq<set<nat>>)
    requires |more| == |lanes|
    ensures OutstandingAll(Completed(lanes, more)) == OutstandingAll(lanes)
  {
  }

  lemma FenceUnfenced(f: seq<bool>, j: nat)
    requires j < |f| && !f[j]
    ensures Sum(Unfenced(f[j := true])) == Sum(Unfenced(f)) - 1
  {
    var u := Unfenced(f);
    assert Unfenced(f[j := true]) == u[j := 0];
    SumUpdate(u, j, 0);
  }

  /** Every post, fence and reap shrinks the work left; device and clock never add any. */
  lemma StepShrinksWork(c: Config, ops: nat, s: State, e: Event, s': State)
    requires c.Valid() && Inv(c, Ops(ops), s) && Step(c, Ops(ops), s, e, s')
    ensures WorkLeft(ops, s') >= 0
    ensures if Progresses(e) then WorkLeft(ops, s') < WorkLeft(ops, s) else WorkLeft(ops, s') == WorkLeft(ops, s)
  {
    hide LaneInv, OpRank, OpRequest, Counts, Sum, OutstandingAll, Unfenced, Deliverable;
    StepInv(c, Ops(ops), s, e, s');
    match e
    case PostOp =>
      EnqueueOutstanding(c, Ops(ops), s, OpJetty(s.next, c.n, c.list), OpRequest(c, s.next));
    case PostFence(j) =>
      EnqueueOutstanding(c, Ops(ops), s, j, FenceRequest(j));
      FenceUnfenced(s.fenced, j);
    case Complete(more) =>
      CompletedOutstanding(s.lanes, more);
    case Reap(j, k) =>
      ReapOutstanding(s, j, k);
    case Expire =>
  }

  function CountProgress(events: seq<Event>): (k: nat)
  {
    if events == [] then 0
    else CountProgress(events[..|events| - 1]) + (if Progresses(events[|events| - 1]) then 1 else 0)
  }

  /** Termination: every run of an op-count pass has at most `3 * ops + 2 * n` posts, fences and reaps. */
  lemma {:induction false} RunsAreBounded(c: Config, ops: nat, trace: seq<State>, events: seq<Event>)
    requires c.Valid() && Run(c, Ops(ops), trace, events)
    ensures WorkLeft(ops, trace[|trace| - 1]) >= 0
    ensures CountProgress(events) + WorkLeft(ops, trace[|trace| - 1]) <= 3 * ops + 2 * c.n
  {
    var last := |events|;
    if events == [] {
      var s := Init(c);
      SumZero(OutstandingAll(s.lanes));
      SumAtMost(Unfenced(s.fenced), 1);
    } else {
      var trace', events' := trace[..last], events[..last - 1];
      assert Run(c, Ops(ops), trace', events');
      RunsAreBounded(c, ops, trace', events');
      RunInv(c, Ops(ops), trace, events, last - 1);
      StepShrinksWork(c, ops, trace[last - 1], events[last - 1], trace[last]);
    }
  }

  /** The first record a lane with a pending request will hand out. */
  lemma FirstPending(l: Lane) returns (k: nat)
    requires Pending(l)
    ensures l.polled <= k < |l.queue| && l.queue[k].signaled
    ensures forall i :: l.polled <= i < k ==> !l.queue[i].signaled
  {
    k := l.polled;
    while !l.queue[k].signaled
      invariant l.polled <= k < |l.queue|
      invariant forall i :: l.polled <= i < k ==> !l.queue[i].signaled
      invariant exists i :: k <= i < |l.queue| && l.queue[i].signaled
      decreases |l.queue| - k
    {
      k := k + 1;
    }
  }

  /** All posted requests have completed on the device. */
  ghost predicate DeviceIdle(s: State)
  {
    forall j, k: nat :: 0 <= j < |s.lanes| && k < |s.lanes[j].queue| ==> k in s.lanes[j].completed
  }

  /** A run segment: like a run, but from any state. */
  ghost predicate Segment(c: Config, stop: Stop, trace: seq<State>, events: seq<Event>)
    requires c.Valid()
  {
    && |trace| == |events| + 1
    && (forall i :: 0 <= i < |trace| ==> Shaped(c, trace[i]))
    && (forall i :: 0 <= i < |events| ==> Step(c, stop, trace[i], events[i], trace[i + 1]))
  }

  function Positions(len: nat): (ks: set<nat>)
    ensures forall k: nat :: k in ks <==> k < len
  {
    if len == 0 then {} else Positions(len - 1) + {len - 1}
  }

  lemma PrependStep(c: Config, stop: Stop, s: State, e: Event, trace: seq<State>, events: seq<Event>)
    requires c.Valid() && Shaped(c, s) && Segment(c, stop, trace, events)
    requires Step(c, stop, s, e, trace[0])
    ensures Segment(c, stop, [s] + trace, [e] + events)
    ensures ([s] + trace)[|events| + 1] == trace[|events|]
  {
    var trace', events' := [s] + trace, [e] + events;
    forall i | 0 <= i < |events'| ensures Step(c, stop, trace'[i], events'[i], trace'[i + 1]) {
      if i > 0 {
        assert Step(c, stop, trace[i - 1], events[i - 1], trace[i]);
      }
    }
  }

  /** The device completes everything it was given; ledger, queues and poll positions stay. */
  lemma DeviceCatchesUp(c: Config, stop: Stop, s: State) returns (e: Event, s': State)
    requires c.Valid() && Inv(c, stop, s)
    ensures Step(c, stop, s, e, s') && Inv(c, stop, s') && DeviceIdle(s')
    ensures !Progresses(e) && s' == s.(lanes := s'.lanes)
    ensures forall j: nat :: j < c.n ==> s'.lanes[j] == s.lanes[j].(completed := s'.lanes[j].completed)
  {
    var more := seq(c.n, (j: nat) requires j < c.n => Positions(|s.lanes[j].queue|));
    e, s' := Complete(more), s.(lanes := Completed(s.lanes, more));
    StepInv(c, stop, s, e, s');
  }
}
