/**
 * Exactly when a moderated pass stalls and when it finishes, for every chunk size: it
 * depends on whether the unsignaled tails that the op stream leaves on the jettys can fill
 * the whole pipeline.
 */
module Stalls {
  import opened Sums
  import opened Arithmetic
  import opened Assignment
  import opened Pipeline
  import opened Progress

  /** Per jetty, the ops behind the last signaled one once the first `k` ops of the stream are posted. */
  function Tails(c: Config, k: nat): (t: seq<nat>)
    ensures |t| == c.n
  {
    seq(c.n, (j: nat) => CountOn(k, j, c.n, c.list) % c.cqMod)
  }

  /** The tails at stream position `k` leave no room for another op. */
  predicate TailsFill(c: Config, k: nat)
  {
    Sum(Tails(c, k)) >= c.depth
  }

  lemma TailOf(p: nat, d: nat, m: Positive)
    requires d <= p < d + m && d % m == 0
    ensures p - d == p % m
  {
    DivUnique(p, m, d / m, p - d);
  }

  /** A jetty without a record to come has at most its tail in flight, and exactly that before fencing. */
  lemma QuietTail(c: Config, stop: Stop, s: State, j: nat)
    requires c.Valid() && Inv(c, stop, s) && j < c.n && !Pending(s.lanes[j])
    ensures 0 <= s.posted[j] - s.done[j] <= s.posted[j] % c.cqMod
    ensures !s.fenced[j] ==> s.posted[j] - s.done[j] == s.posted[j] % c.cqMod
  {
    if s.fenced[j] {
      FencedIsDone(c, stop, s, j);
    } else {
      hide OpRank, OpIndex, OpJetty, CountOn, OpRequest, Counts, Sum, Pending;
      assert LaneInv(c, j, s.posted[j], s.done[j], s.fenced[j], s.lanes[j]);
      if s.posted[j] - s.done[j] >= c.cqMod {
        GroupIsPending(c, stop, s, j);
      }
      TailOf(s.posted[j], s.done[j], c.cqMod);
    }
  }

  lemma FencedIsDone(c: Config, stop: Stop, s: State, j: nat)
    requires c.Valid() && Inv(c, stop, s) && j < c.n && !Pending(s.lanes[j]) && s.fenced[j]
    ensures s.done[j] == s.posted[j]
  {
    hide OpRank, OpIndex, OpJetty, CountOn, OpRequest, Counts, Sum, Pending, TailUncovered;
    assert LaneInv(c, j, s.posted[j], s.done[j], s.fenced[j], s.lanes[j]);
    if s.done[j] < s.posted[j] {
      FenceIsPending(c, stop, s, j);
    }
  }

  lemma QuietSum(c: Config, stop: Stop, s: State)
    requires c.Valid() && Inv(c, stop, s)
    requires forall j: nat :: j < c.n ==> !Pending(s.lanes[j])
    ensures s.next - s.doneTotal <= Sum(Tails(c, s.next))
  {
    hide OpRank, OpIndex, OpJetty, CountOn, LaneInv, Pending;
    InFlightSum(c, stop, s);
    var flight, tails := InFlight(s), Tails(c, s.next);
    forall j: nat | j < c.n
      ensures flight[j] <= tails[j]
    {
      QuietTail(c, stop, s, j);
    }
    SumMonotone(flight, tails);
  }

  /** How far the stop condition and the user_ctx space let the stream go. */
  function LastPosition(stop: Stop): (k: nat)
    ensures k <= FENCE_CTX_MIN && (stop.Ops? ==> k <= stop.ops)
  {
    if stop.Ops? && stop.ops < FENCE_CTX_MIN then stop.ops else FENCE_CTX_MIN
  }

  // ---------------------------------------------------------------- driving the loop

  /** The loop polls only where it cannot post: with the pipeline full or posting stopped. */
  ghost predicate LoopRun(c: Config, stop: Stop, trace: seq<State>, events: seq<Event>)
    requires c.Valid()
  {
    && Run(c, stop, trace, events)
    && forall t :: 0 <= t < |events| && events[t].Reap? ==> Full(c, trace[t]) || StopPosting(stop, trace[t])
  }

  /** Nothing is fenced, the clock has not run out, and jetty `j` is not reaped beyond `base` ops. */
  ghost predicate Driven(c: Config, stop: Stop, s: State, j: nat, base: nat)
    requires c.Valid()
  {
    && Shaped(c, s) && Inv(c, stop, s) && !s.expired && j < c.n && s.done[j] <= base
    && forall i: nat :: i < c.n ==> !s.fenced[i]
  }

  /** What has to stay in flight at position `p` if jetty `j` is never reaped beyond `base` ops. */
  function Held(c: Config, j: nat, base: nat, p: nat): (h: seq<nat>)
    requires j < c.n
    ensures |h| == c.n
  {
    var posts := CountOn(p, j, c.n, c.list);
    TailBelow(posts, c.cqMod);
    Tails(c, p)[j := posts - Min(base, posts - posts % c.cqMod)]
  }

  lemma TailBelow(p: nat, m: Positive)
    ensures p % m <= p
  {
    BeyondLastMultiple(p, 0, m);
  }

  predicate HasRoom(c: Config, j: nat, base: nat, p: nat)
    requires j < c.n
  {
    Sum(Held(c, j, base, p)) < c.depth
  }

  /** A jetty with more in flight than its tail waits for a record. */
  lemma BeyondTailIsPending(c: Config, stop: Stop, s: State, l: nat)
    requires c.Valid() && Inv(c, stop, s) && l < c.n && !s.fenced[l]
    requires s.posted[l] - s.done[l] > s.posted[l] % c.cqMod
    ensures Pending(s.lanes[l])
  {
    hide LaneInv, Pending, CountOn;
    if !Pending(s.lanes[l]) {
      QuietTail(c, stop, s, l);
    }
  }

  /** Its next record completes one more moderation group, no more. */
  lemma NextRecordIsNextGroup(c: Config, stop: Stop, s: State, l: nat, k: nat)
    requires c.Valid() && Inv(c, stop, s) && l < c.n && !s.fenced[l]
    requires s.lanes[l].polled <= k < |s.lanes[l].queue| && s.lanes[l].queue[k].signaled
    requires forall i :: s.lanes[l].polled <= i < k ==> !s.lanes[l].queue[i].signaled
    ensures s.done[l] % c.cqMod == 0 && k + 1 == s.done[l] + c.cqMod && k < s.posted[l]
  {
    var lane, d, m := s.lanes[l], s.done[l], c.cqMod;
    assert LaneInv(c, l, s.posted[l], d, s.fenced[l], lane);
    NextRecordPosition(c, l, s.posted[l], d, s.fenced[l], lane, k);
    hide LaneInv, Inv;
    SignaledStep(c, stop, s, l, k);
  }

  lemma SignaledStep(c: Config, stop: Stop, s: State, l: nat, k: nat)
    requires c.Valid() && Inv(c, stop, s) && l < c.n && !s.fenced[l]
    requires s.done[l] == s.lanes[l].polled <= k < s.posted[l] == |s.lanes[l].queue|
    requires (k + 1) % c.cqMod == 0 && s.done[l] % c.cqMod == 0
    requires forall i :: s.lanes[l].polled <= i < k ==> !s.lanes[l].queue[i].signaled
    ensures k + 1 == s.done[l] + c.cqMod
  {
    hide OpRank, OpIndex, OpJetty, CountOn, Counts, Sum;
    var d, m := s.done[l], c.cqMod;
    var first := d + m - 1;
    NextMultiple(d, m);
    if k < first {
      DivUnique(k + 1, m, d / m, k + 1 - d);
    } else if first < k {
      assert LaneInv(c, l, s.posted[l], d, s.fenced[l], s.lanes[l]);
      assert s.lanes[l].queue[first] == OpRequest(c, OpIndex(l, first, c.n, c.list));
      SignaledRank(c, l, first);
    }
  }

  lemma SignaledRank(c: Config, j: nat, k: nat)
    requires j < c.n && (k + 1) % c.cqMod == 0
    ensures OpRequest(c, OpIndex(j, k, c.n, c.list)).signaled
  {
    AssignedOfIndex(j, k, c.n, c.list);
  }

  lemma GroupBelow(d: nat, base: nat, m: Positive)
    requires d < base && d % m == 0 && base % m == 0
    ensures d + m <= base
  {
    BeyondLastMultiple(base, d, m);
    var q := base / m - d / m;
    MulDistributes(base / m, d / m, m);
    if q <= 0 {
      MulDistributes(0, q, m);
      if q < 0 {
        MulAtLeast(-q, m);
      }
    } else {
      MulAtLeast(q, m);
    }
  }

  /** Some jetty has more in flight than has to be held. */
  lemma SomeAboveHeld(c: Config, stop: Stop, s: State, j: nat, base: nat) returns (l: nat)
    requires c.Valid() && Driven(c, stop, s, j, base) && Full(c, s) && HasRoom(c, j, base, s.next)
    ensures l < c.n && s.posted[l] - s.done[l] > Held(c, j, base, s.next)[l]
  {
    hide LaneInv, Held, CountOn;
    InFlightSum(c, stop, s);
    var held, flight := Held(c, j, base, s.next), InFlight(s);
    if forall l: nat :: l < c.n ==> flight[l] <= held[l] {
      SumMonotone(flight, held);
    }
    l :| l < c.n && flight[l] > held[l];
  }

  /** That jetty waits for a record that does not go beyond `base`. */
  lemma AboveHeldIsPending(c: Config, stop: Stop, s: State, j: nat, base: nat, l: nat)
    requires c.Valid() && Driven(c, stop, s, j, base) && base % c.cqMod == 0
    requires l < c.n && s.posted[l] - s.done[l] > Held(c, j, base, s.next)[l]
    ensures Pending(s.lanes[l]) && (l == j ==> s.done[l] < base)
  {
    hide LaneInv, Pending;
    assert s.posted[l] == CountOn(s.next, l, c.n, c.list);
    hide CountOn;
    TailBelow(s.posted[l], c.cqMod);
    BeyondTailIsPending(c, stop, s, l);
  }

  /** In a full pipeline with room a record can be reaped that keeps the run going. */
  lemma ReapForRoom(c: Config, stop: Stop, s: State, j: nat, base: nat) returns (e: Event, s': State)
    requires c.Valid() && Driven(c, stop, s, j, base) && base % c.cqMod == 0
    requires Full(c, s) && HasRoom(c, j, base, s.next) && DeviceIdle(s)
    ensures e.Reap? && Step(c, stop, s, e, s')
    ensures Driven(c, stop, s', j, base) && s'.next == s.next && !Full(c, s')
  {
    hide LaneInv, Held, CountOn, OpJetty, OpRank, Counts;
    var l := SomeAboveHeld(c, stop, s, j, base);
    AboveHeldIsPending(c, stop, s, j, base, l);
    var k := FirstPending(s.lanes[l]);
    NextRecordIsNextGroup(c, stop, s, l, k);
    if l == j {
      GroupBelow(s.done[l], base, c.cqMod);
    }
    assert Deliverable(s.lanes[l], k);
    ReapDecodes(c, stop, s, l, k);
    ReapInv(c, stop, s, l, k);
    e, s' := Reap(l, k), ReapedState(s, l, k);
  }

  lemma LoopExtend(c: Config, stop: Stop, trace: seq<State>, events: seq<Event>, e: Event, s': State)
    requires c.Valid() && LoopRun(c, stop, trace, events) && Shaped(c, s')
    requires Step(c, stop, trace[|events|], e, s')
    requires e.Reap? ==> Full(c, trace[|events|]) || StopPosting(stop, trace[|events|])
    ensures LoopRun(c, stop, trace + [s'], events + [e])
  {
    hide Step;
  }

  lemma InitDriven(c: Config, stop: Stop, j: nat, base: nat)
    requires c.Valid() && j < c.n
    ensures Driven(c, stop, Init(c), j, base) && LoopRun(c, stop, [Init(c)], [])
  {
    InitInv(c, stop);
  }

  lemma PostDriven(c: Config, stop: Stop, s: State, j: nat, base: nat)
    requires c.Valid() && Driven(c, stop, s, j, base) && !Full(c, s) && s.next < LastPosition(stop)
    ensures Step(c, stop, s, PostOp, PostedOp(c, s)) && Driven(c, stop, PostedOp(c, s), j, base)
  {
    hide LaneInv, CountOn, OpJetty, OpRank, Counts;
    PostOpInv(c, stop, s);
  }

  /**
   * The loop at its keenest: post whenever there is room, and when there is none reap one
   * record, but never beyond `base` ops of jetty `j`. It comes to position `k` if there is
   * room at every position before.
   */
  lemma {:induction false} Drive(c: Config, stop: Stop, j: nat, base: nat, k: nat)
    returns (trace: seq<State>, events: seq<Event>)
    requires c.Valid() && j < c.n && base % c.cqMod == 0 && k <= LastPosition(stop)
    requires forall p: nat :: p < k ==> HasRoom(c, j, base, p)
    ensures |trace| == |events| + 1 && LoopRun(c, stop, trace, events)
    ensures var s := trace[|events|];
      Driven(c, stop, s, j, base) && s.next == k && (HasRoom(c, j, base, k) ==> !Full(c, s))
  {
    hide Inv, Step, HasRoom, LoopRun;
    if k == 0 {
      InitDriven(c, stop, j, base);
      trace, events := [Init(c)], [];
    } else {
      trace, events := Drive(c, stop, j, base, k - 1);
      var s := trace[|events|];
      PostDriven(c, stop, s, j, base);
      var s1 := PostedOp(c, s);
      LoopExtend(c, stop, trace, events, PostOp, s1);
      trace, events := trace + [s1], events + [PostOp];
      if Full(c, s1) && HasRoom(c, j, base, k) {
        var e, s2 := DeviceCatchesUp(c, stop, s1);
        LoopExtend(c, stop, trace, events, e, s2);
        trace, events := trace + [s2], events + [e];
        var e', s3 := ReapForRoom(c, stop, s2, j, base);
        LoopExtend(c, stop, trace, events, e', s3);
        trace, events := trace + [s3], events + [e'];
      }
    }
  }

  /** With a `base` out of reach nothing is held but the tails. */
  lemma NothingHeld(c: Config, base: nat, p: nat)
    requires base >= p
    ensures HasRoom(c, 0, base, p) <==> !TailsFill(c, p)
  {
    CountAtMost(p, 0, c.n, c.list);
    assert Held(c, 0, base, p) == Tails(c, p);
  }

  lemma CountAtMost(p: nat, j: nat, n: Positive, list: Positive)
    requires j < n
    ensures CountOn(p, j, n, list) <= p
  {
    CountsSum(p, n, list);
    SumAtLeastOne(Counts(p, n, list), j);
  }

  lemma {:induction false} LeastFilling(c: Config, k: nat) returns (least: nat)
    requires TailsFill(c, k)
    ensures least <= k && TailsFill(c, least) && forall i: nat :: i < least ==> !TailsFill(c, i)
  {
    if i: nat :| i < k && TailsFill(c, i) {
      least := LeastFilling(c, i);
    } else {
      least := k;
    }
  }

  /** No stream position within the pass fills the pipeline with tails. */
  ghost predicate NeverFills(c: Config, ops: nat)
  {
    forall k: nat :: k <= ops ==> !TailsFill(c, k)
  }

  /**
   * For every number of jettys, chunk size, depth and moderation, and for both kinds of pass:
   * it can stall if and only if at some stream position within it the tails fill the pipeline.
   */
  lemma StallsExactlyWhenTailsFill(c: Config, stop: Stop)
    requires c.Valid()
    ensures CanStall(c, stop) <==> !NeverFills(c, LastPosition(stop))
    ensures LoopStalls(c, stop) <==> !NeverFills(c, LastPosition(stop))
  {
    hide Step, Inv, TailsFill;
    if CanStall(c, stop) {
      var trace, events :| Run(c, stop, trace, events) && Stalled(c, trace[|trace| - 1]);
      RunInv(c, stop, trace, events, |trace| - 1);
      StalledIsFilled(c, stop, trace[|trace| - 1]);
    }
    if k: nat :| k <= LastPosition(stop) && TailsFill(c, k) {
      var least := LeastFilling(c, k);
      var trace, events := StallingRun(c, stop, least);
    }
  }

  /** The loop itself comes to the stall. */
  ghost predicate LoopStalls(c: Config, stop: Stop)
    requires c.Valid()
  {
    exists trace, events :: LoopRun(c, stop, trace, events) && Stalled(c, trace[|trace| - 1])
  }

  lemma StallingRun(c: Config, stop: Stop, k: nat) returns (trace: seq<State>, events: seq<Event>)
    requires c.Valid() && k <= LastPosition(stop) && TailsFill(c, k) && forall p: nat :: p < k ==> !TailsFill(c, p)
    ensures |trace| > 0 && LoopRun(c, stop, trace, events) && Stalled(c, trace[|trace| - 1])
  {
    hide Inv, TailsFill, HasRoom, Step;
    var base := c.cqMod * k;
    MultipleAtLeast(c.cqMod, k);
    forall p: nat | p < k ensures HasRoom(c, 0, base, p) {
      NothingHeld(c, base, p);
    }
    trace, events := Drive(c, stop, 0, base, k);
    RunClear(c, stop, trace, events, |events|);
    FilledIsStalled(c, stop, trace[|events|]);
  }

  lemma MultipleAtLeast(m: Positive, k: nat)
    ensures m * k >= k && (m * k) % m == 0
  {
    if k > 0 {
      MulAtLeast(m, k);
    }
    DivUnique(m * k, m, k, 0);
  }

  lemma FilledIsStalled(c: Config, stop: Stop, s: State)
    requires c.Valid() && Shaped(c, s) && Inv(c, stop, s) && Clear(c, s) && TailsFill(c, s.next)
    ensures Stalled(c, s)
  {
    hide Clear, LaneInv, CountOn, SomePending;
    FilledHasNonePending(c, stop, s);
    if !Full(c, s) {
      RoomIsClear(c, stop, s);
    }
  }

  lemma StalledIsFilled(c: Config, stop: Stop, s: State)
    requires c.Valid() && Inv(c, stop, s) && Stalled(c, s)
    ensures s.next <= LastPosition(stop) && TailsFill(c, s.next)
  {
    hide LaneInv, CountOn, Pending;
    QuietSum(c, stop, s);
  }

  // ---------------------------------------------------------------- passes that finish, passes that cannot

  /** A deep enough pipeline is never filled, whatever the chunk size. */
  lemma DeepEnoughNeverFills(c: Config, ops: nat)
    requires DeepEnough(c)
    ensures NeverFills(c, ops)
  {
    forall k: nat
      ensures !TailsFill(c, k)
    {
      SumAtMost(Tails(c, k), c.cqMod - 1);
    }
  }

  /** The tails are always in flight: only a later record of the same jetty could have counted them. */
  lemma TailsAreInFlight(c: Config, stop: Stop, s: State)
    requires c.Valid() && Inv(c, stop, s) && forall j: nat :: j < c.n ==> !s.fenced[j]
    ensures Sum(Tails(c, s.next)) <= s.next - s.doneTotal
  {
    hide OpRank, OpIndex, OpJetty, CountOn, LaneInv;
    InFlightSum(c, stop, s);
    forall j: nat | j < c.n
      ensures Tails(c, s.next)[j] <= InFlight(s)[j]
    {
      TailIsInFlight(c, stop, s, j);
    }
    SumMonotone(Tails(c, s.next), InFlight(s));
  }

  lemma TailIsInFlight(c: Config, stop: Stop, s: State, j: nat)
    requires c.Valid() && Inv(c, stop, s) && j < c.n && !s.fenced[j]
    ensures s.posted[j] % c.cqMod <= s.posted[j] - s.done[j]
  {
    hide OpRank, OpIndex, OpJetty, CountOn, OpRequest, Counts, Sum;
    assert LaneInv(c, j, s.posted[j], s.done[j], s.fenced[j], s.lanes[j]);
    BeyondLastMultiple(s.posted[j], s.done[j], c.cqMod);
  }

  lemma BeyondLastMultiple(p: nat, d: nat, m: Positive)
    requires d <= p && d % m == 0
    ensures p % m <= p - d
  {
    var over := p / m - d / m;
    assert p == (p / m) * m + p % m && d == (d / m) * m;
    MulDistributes(p / m, d / m, m);
    if over < 0 {
      MulAtLeast(-over, m);
      MulDistributes(0, over, m);
    } else if over > 0 {
      MulAtLeast(over, m);
    }
  }

  /** No position the stream has left behind, or stopped and fenced at, had tails that fill the pipeline. */
  ghost predicate Clear(c: Config, s: State)
    requires Shaped(c, s)
  {
    && (forall k: nat :: k < s.next ==> !TailsFill(c, k))
    && ((exists j: nat :: j < c.n && s.fenced[j]) ==> !TailsFill(c, s.next))
  }

  /** As long as no fence is out, room for one more op means that the tails leave room. */
  lemma RoomIsClear(c: Config, stop: Stop, s: State)
    requires c.Valid() && Inv(c, stop, s) && Clear(c, s) && !Full(c, s)
    ensures !TailsFill(c, s.next)
  {
    hide LaneInv, CountOn;
    if forall j: nat :: j < c.n ==> !s.fenced[j] {
      TailsAreInFlight(c, stop, s);
    }
  }

  lemma PostOpClear(c: Config, stop: Stop, s: State)
    requires c.Valid() && Inv(c, stop, s) && Clear(c, s) && !StopPosting(stop, s) && !Full(c, s)
    ensures Clear(c, PostedOp(c, s))
  {
    hide LaneInv, CountOn, TailsFill;
    RoomIsClear(c, stop, s);
  }

  lemma PostFenceClear(c: Config, stop: Stop, s: State, j: nat)
    requires c.Valid() && Inv(c, stop, s) && Clear(c, s) && !Full(c, s) && j < c.n
    ensures Clear(c, PostedFence(c, s, j))
  {
    hide LaneInv, CountOn, TailsFill;
    RoomIsClear(c, stop, s);
  }

  lemma StepClear(c: Config, stop: Stop, s: State, e: Event, s': State)
    requires c.Valid() && Shaped(c, s) && Shaped(c, s')
    requires Inv(c, stop, s) && Clear(c, s) && Step(c, stop, s, e, s')
    ensures Clear(c, s')
  {
    hide Inv, Clear, TailsFill, OpRank, OpJetty, Deliverable, CtxTarget, CtxJetty;
    match e
    case PostOp => PostOpClear(c, stop, s);
    case PostFence(j) => PostFenceClear(c, stop, s, j);
    case Complete(more) => SameClear(c, s, s');
    case Reap(j, k) => SameClear(c, s, s');
    case Expire => SameClear(c, s, s');
  }

  lemma SameClear(c: Config, s: State, s': State)
    requires Shaped(c, s) && Shaped(c, s') && Clear(c, s) && s'.next == s.next && s'.fenced == s.fenced
    ensures Clear(c, s')
  {
  }

  lemma {:induction false} RunClear(c: Config, stop: Stop, trace: seq<State>, events: seq<Event>, t: nat)
    requires c.Valid() && Run(c, stop, trace, events) && t < |trace|
    ensures Clear(c, trace[t])
  {
    hide Step, Inv, TailsFill;
    if t > 0 {
      RunClear(c, stop, trace, events, t - 1);
      RunInv(c, stop, trace, events, t - 1);
      hide Clear;
      StepClear(c, stop, trace[t - 1], events[t - 1], trace[t]);
    }
  }

  /** A finished pass has met no filling tails anywhere. */
  lemma FinishedNeverFilled(c: Config, stop: Stop, s: State)
    requires c.Valid() && Inv(c, stop, s) && Clear(c, s) && Finished(stop, s)
    ensures NeverFills(c, s.next)
  {
    hide LaneInv, CountOn;
    RoomIsClear(c, stop, s);
  }

  /**
   * Tails that fill the pipeline are a wall: whatever the device and the clock do, no run
   * posts past that position, and at that position it neither fences a jetty nor finishes.
   */
  lemma FilledTailsAreAWall(c: Config, stop: Stop, trace: seq<State>, events: seq<Event>, t: nat, k: nat)
    requires c.Valid() && Run(c, stop, trace, events) && t < |trace| && TailsFill(c, k)
    ensures trace[t].next <= k
    ensures trace[t].next == k ==> (forall j: nat :: j < c.n ==> !trace[t].fenced[j]) && !Finished(stop, trace[t])
  {
    hide Inv, TailsFill, Finished, Step;
    RunInv(c, stop, trace, events, t);
    RunClear(c, stop, trace, events, t);
    if Finished(stop, trace[t]) {
      FinishedNeverFilled(c, stop, trace[t]);
    }
  }

  /** So an op-count pass with such a position never fences and never finishes. */
  lemma FilledPassNeverFinishes(c: Config, ops: nat, trace: seq<State>, events: seq<Event>, t: nat, k: nat)
    requires c.Valid() && Run(c, Ops(ops), trace, events) && t < |trace|
    requires k <= ops && TailsFill(c, k)
    ensures trace[t].next <= k && (forall j: nat :: j < c.n ==> !trace[t].fenced[j])
    ensures !Finished(Ops(ops), trace[t])
  {
    hide LaneInv, TailsFill, CountOn, Step;
    FilledTailsAreAWall(c, Ops(ops), trace, events, t, k);
    RunInv(c, Ops(ops), trace, events, t);
  }

  /** Where the tails leave room, a state about to poll has a record coming. */
  lemma PollHasPending(c: Config, stop: Stop, s: State)
    requires c.Valid() && Inv(c, stop, s) && AboutToPoll(c, stop, s) && !TailsFill(c, s.next)
    ensures SomePending(s)
  {
    hide LaneInv, CountOn, OpJetty, OpRank, Pending;
    if forall j: nat :: j < c.n ==> !Pending(s.lanes[j]) {
      QuietSum(c, stop, s);
      var j := Unfinished(c, stop, s);
      if TailUncovered(c, s.posted[j]) {
        FenceIsPending(c, stop, s, j);
      } else {
        CoveredTailIsPending(c, stop, s, j);
      }
    }
  }

  /** Where they do not, everything in flight is tails, and no record is coming. */
  lemma FilledHasNonePending(c: Config, stop: Stop, s: State)
    requires c.Valid() && Inv(c, stop, s) && Clear(c, s) && TailsFill(c, s.next)
    ensures !SomePending(s)
  {
    hide LaneInv, CountOn, OpJetty, OpRank, Pending, TailsFill;
    forall j: nat | j < c.n ensures !Pending(s.lanes[j]) {
      FlightIsTails(c, stop, s);
      OnlyTailNotPending(c, stop, s, j);
    }
  }

  lemma FlightIsTails(c: Config, stop: Stop, s: State)
    requires c.Valid() && Inv(c, stop, s) && TailsFill(c, s.next) && forall j: nat :: j < c.n ==> !s.fenced[j]
    ensures forall j: nat :: j < c.n ==> s.posted[j] - s.done[j] == s.posted[j] % c.cqMod
  {
    hide OpRank, OpIndex, OpJetty, CountOn, LaneInv;
    InFlightSum(c, stop, s);
    var flight, tails := InFlight(s), Tails(c, s.next);
    forall j: nat | j < c.n
      ensures tails[j] <= flight[j]
    {
      TailIsInFlight(c, stop, s, j);
    }
    SumMonotone(tails, flight);
    assert tails == flight;
  }

  /** A jetty with only its unsignaled tail in flight waits for no record. */
  lemma OnlyTailNotPending(c: Config, stop: Stop, s: State, j: nat)
    requires c.Valid() && Inv(c, stop, s) && j < c.n && !s.fenced[j]
    requires s.posted[j] - s.done[j] == s.posted[j] % c.cqMod
    ensures !Pending(s.lanes[j])
  {
    hide OpRank, OpIndex, OpJetty, CountOn, OpRequest, Counts, Sum;
    var l, p, m := s.lanes[j], s.posted[j], c.cqMod;
    assert LaneInv(c, j, p, s.done[j], s.fenced[j], l);
    forall k: nat | l.polled <= k < |l.queue|
      ensures !l.queue[k].signaled
    {
      assert p == (p / m) * m + p % m;
      DivUnique(k + 1, m, p / m, k + 1 - l.polled);
      UnsignaledRank(c, j, k);
    }
  }

  lemma UnsignaledRank(c: Config, j: nat, k: nat)
    requires j < c.n && (k + 1) % c.cqMod != 0
    ensures !OpRequest(c, OpIndex(j, k, c.n, c.list)).signaled
  {
    AssignedOfIndex(j, k, c.n, c.list);
  }

  /**
   * In every run of either kind of pass, a poll waits for a record that will come if and
   * only if the tails at the stream's position leave room in the pipeline.
   */
  lemma PollStallsExactlyWhenFilled(c: Config, stop: Stop, trace: seq<State>, events: seq<Event>, t: nat)
    requires c.Valid() && Run(c, stop, trace, events) && t < |trace| && AboutToPoll(c, stop, trace[t])
    ensures SomePending(trace[t]) <==> !TailsFill(c, trace[t].next)
  {
    hide Inv, Clear, TailsFill, AboutToPoll, SomePending, Step;
    RunInv(c, stop, trace, events, t);
    RunClear(c, stop, trace, events, t);
    PollDecided(c, stop, trace[t]);
  }

  lemma PollDecided(c: Config, stop: Stop, s: State)
    requires c.Valid() && Inv(c, stop, s) && Clear(c, s) && AboutToPoll(c, stop, s)
    ensures SomePending(s) <==> !TailsFill(c, s.next)
  {
    hide Inv, Clear, TailsFill, AboutToPoll, SomePending;
    if TailsFill(c, s.next) {
      FilledHasNonePending(c, stop, s);
    } else {
      PollHasPending(c, stop, s);
    }
  }

  lemma Unfinished(c: Config, stop: Stop, s: State) returns (j: nat)
    requires c.Valid() && Inv(c, stop, s) && s.doneTotal < s.next
    ensures j < c.n && s.done[j] < s.posted[j]
  {
    hide LaneInv, CountOn;
    InFlightSum(c, stop, s);
    if forall i: nat :: i < c.n ==> s.done[i] >= s.posted[i] {
      SumZero(InFlight(s));
    }
    j :| j < c.n && s.done[j] < s.posted[j];
  }

  /**
   * A pass whose tails never fill the pipeline never gets stuck: once the device has completed what it was given,
   * some post, fence or reap is possible, unless the pass has finished.
   */
  lemma NeverStuck(c: Config, ops: nat, s: State) returns (e: Event, s': State)
    requires c.Valid() && Inv(c, Ops(ops), s) && NeverFills(c, ops) && DeviceIdle(s)
    requires !Finished(Ops(ops), s) && ops <= FENCE_CTX_MIN
    ensures Progresses(e) && Step(c, Ops(ops), s, e, s')
  {
    hide LaneInv, CountOn, OpJetty, OpRank, TailsFill;
    var stop := Ops(ops);
    if !StopPosting(stop, s) && !Full(c, s) {
      e, s' := PostOp, PostedOp(c, s);
    } else if !Full(c, s) && exists j: nat :: j < c.n && TailUncovered(c, s.posted[j]) && !s.fenced[j] {
      var j: nat :| j < c.n && TailUncovered(c, s.posted[j]) && !s.fenced[j];
      e, s' := PostFence(j), PostedFence(c, s, j);
    } else {
      InFlightSum(c, stop, s);
      PollHasPending(c, stop, s);
      var j: nat :| j < c.n && Pending(s.lanes[j]);
      var k := FirstPending(s.lanes[j]);
      ReapInv(c, stop, s, j, k);
      var ctx := s.lanes[j].queue[k].ctx;
      e, s' := Reap(j, k), Accounted(c, Delivered(s, j, k), ctx);
    }
  }

  /** One round: the device completes what it has, and the pass posts, fences or reaps. */
  lemma OneRound(c: Config, ops: nat, s: State) returns (e0: Event, s1: State, e1: Event, s2: State)
    requires c.Valid() && Inv(c, Ops(ops), s) && NeverFills(c, ops) && ops <= FENCE_CTX_MIN
    requires !Finished(Ops(ops), s)
    ensures Step(c, Ops(ops), s, e0, s1)
    ensures Shaped(c, s1) && Step(c, Ops(ops), s1, e1, s2)
    ensures Inv(c, Ops(ops), s2) && 0 <= WorkLeft(ops, s2) < WorkLeft(ops, s)
  {
    e0, s1 := DeviceCatchesUp(c, Ops(ops), s);
    StepShrinksWork(c, ops, s, e0, s1);
    e1, s2 := NeverStuck(c, ops, s1);
    StepShrinksWork(c, ops, s1, e1, s2);
    StepInv(c, Ops(ops), s1, e1, s2);
  }

  /**
   * From every reachable state an op-count pass whose tails never fill the pipeline can still finish, and by
   * `RunsAreBounded` it cannot run on forever instead.
   */
  lemma {:induction false} CanAlwaysFinish(c: Config, ops: nat, s: State) returns (trace: seq<State>, events: seq<Event>)
    requires c.Valid() && Inv(c, Ops(ops), s) && NeverFills(c, ops) && ops <= FENCE_CTX_MIN
    ensures Segment(c, Ops(ops), trace, events)
    ensures trace[0] == s && Finished(Ops(ops), trace[|trace| - 1])
    decreases WorkLeft(ops, s)
  {
    if Finished(Ops(ops), s) {
      trace, events := [s], [];
    } else {
      var e0, s1, e1, s2 := OneRound(c, ops, s);
      trace, events := CanAlwaysFinish(c, ops, s2);
      PrependStep(c, Ops(ops), s1, e1, trace, events);
      trace, events := [s1] + trace, [e1] + events;
      PrependStep(c, Ops(ops), s, e0, trace, events);
      trace, events := [s] + trace, [e0] + events;
    }
  }

  ghost predicate CanFinish(c: Config, stop: Stop)
    requires c.Valid()
  {
    exists trace, events :: Run(c, stop, trace, events) && Finished(stop, trace[|trace| - 1])
  }

  /**
   * For every number of jettys, chunk size, depth and moderation, an op-count pass can
   * finish if and only if it cannot stall, and that is decided by the tails alone.
   */
  lemma FinishesExactlyWhenTailsFit(c: Config, ops: nat)
    requires c.Valid() && ops <= FENCE_CTX_MIN
    ensures CanFinish(c, Ops(ops)) <==> NeverFills(c, ops)
    ensures CanStall(c, Ops(ops)) <==> !NeverFills(c, ops)
  {
    StallsExactlyWhenTailsFill(c, Ops(ops));
    var stop := Ops(ops);
    hide Finished, TailsFill;
    if CanFinish(c, stop) {
      var trace, events :| Run(c, stop, trace, events) && Finished(stop, trace[|trace| - 1]);
      forall k: nat | k <= ops
        ensures !TailsFill(c, k)
      {
        if TailsFill(c, k) {
          FilledPassNeverFinishes(c, ops, trace, events, |trace| - 1, k);
        }
      }
    }
    if NeverFills(c, ops) {
      InitInv(c, stop);
      var trace, events := CanAlwaysFinish(c, ops, Init(c));
      assert Run(c, stop, trace, events);
    }
  }

  /** With single-op chunks, a pass of at least `depth` ops finishes exactly when `depth > n * (cqMod - 1)`. */
  lemma RoundRobinFinishesExactlyWhenDeep(c: Config, ops: nat)
    requires c.Valid() && c.list == 1 && c.depth <= ops <= FENCE_CTX_MIN
    ensures CanFinish(c, Ops(ops)) <==> DeepEnough(c)
  {
    hide CanFinish, CanStall, NeverFills, DeepEnough;
    StallCondition(c, ops);
    FinishesExactlyWhenTailsFit(c, ops);
  }

  /** So two jettys at depth 128 with default moderation finish no pass of 128 ops or more. */
  lemma DefaultModerationNeverFinishes(ops: nat)
    requires 128 <= ops <= FENCE_CTX_MIN
    ensures !CanFinish(Config(2, 1, 128, ResolveCqMod(0, 128)), Ops(ops))
  {
    hide CanFinish;
    RoundRobinFinishesExactlyWhenDeep(Config(2, 1, 128, ResolveCqMod(0, 128)), ops);
  }

  // ---------------------------------------------------------------- deadline passes that can finish

  /** Where a deadline pass can stop at the earliest: its first op is always posted. */
  function FirstStop(next: nat): (k: nat)
  {
    if next == 0 then 1 else next
  }

  ghost predicate Finishes(c: Config, stop: Stop, s: State)
    requires c.Valid()
  {
    exists trace, events ::
      Segment(c, stop, trace, events) && trace[0] == s && Finished(stop, trace[|trace| - 1])
  }

  /** An expired deadline pass is an op-count pass that has posted all its ops. */
  lemma ExpiredIsCount(c: Config, s: State)
    requires c.Valid() && Shaped(c, s) && Inv(c, Until, s)
    ensures Inv(c, Ops(s.next), s)
  {
    hide LaneInv;
  }

  /** No step of either kind of pass brings new ops, or the clock back, once posting has stopped. */
  lemma StoppedStep(c: Config, s: State, e: Event, s': State)
    requires c.Valid() && Shaped(c, s) && s.expired && s.next > 0 && Step(c, Ops(s.next), s, e, s')
    ensures Step(c, Until, s, e, s') && s'.expired && s'.next == s.next
  {
  }

  lemma {:induction false} StoppedAt(c: Config, trace: seq<State>, events: seq<Event>, ops: nat, t: nat)
    requires c.Valid() && Segment(c, Ops(ops), trace, events) && t < |trace|
    requires trace[0].expired && trace[0].next == ops > 0
    ensures trace[t].expired && trace[t].next == ops
  {
    hide Step;
    if t > 0 {
      StoppedAt(c, trace, events, ops, t - 1);
      StoppedStep(c, trace[t - 1], events[t - 1], trace[t]);
    }
  }

  lemma StoppedSegment(c: Config, trace: seq<State>, events: seq<Event>, ops: nat)
    requires c.Valid() && Segment(c, Ops(ops), trace, events)
    requires trace[0].expired && trace[0].next == ops > 0
    ensures Segment(c, Until, trace, events)
    ensures Finished(Ops(ops), trace[|trace| - 1]) ==> Finished(Until, trace[|trace| - 1])
  {
    hide Step;
    StoppedAt(c, trace, events, ops, |trace| - 1);
    forall i | 0 <= i < |events| ensures Step(c, Until, trace[i], events[i], trace[i + 1]) {
      StoppedAt(c, trace, events, ops, i);
      StoppedStep(c, trace[i], events[i], trace[i + 1]);
    }
  }

  /** Let the deadline pass, fence and drain. */
  lemma ExpireAndDrain(c: Config, s: State)
    requires c.Valid() && Shaped(c, s) && Inv(c, Until, s) && Clear(c, s) && s.next > 0 && !TailsFill(c, s.next)
    ensures Finishes(c, Until, s)
  {
    hide LaneInv, TailsFill;
    var s1 := s.(expired := true);
    StepInv(c, Until, s, Expire, s1);
    ExpiredIsCount(c, s1);
    hide Inv;
    var trace, events := CanAlwaysFinish(c, s.next, s1);
    StoppedSegment(c, trace, events, s.next);
    PrependStep(c, Until, s, Expire, trace, events);
    assert ([s] + trace)[0] == s;
  }

  lemma {:induction false} SegmentClear(c: Config, stop: Stop, trace: seq<State>, events: seq<Event>, t: nat)
    requires c.Valid() && Segment(c, stop, trace, events) && t < |trace| && Inv(c, stop, trace[0]) && Clear(c, trace[0])
    ensures Inv(c, stop, trace[t]) && Clear(c, trace[t]) && trace[0].next <= trace[t].next
  {
    hide Step, Inv, Clear;
    if t > 0 {
      SegmentClear(c, stop, trace, events, t - 1);
      StepInv(c, stop, trace[t - 1], events[t - 1], trace[t]);
      StepClear(c, stop, trace[t - 1], events[t - 1], trace[t]);
      NextGrows(c, stop, trace[t - 1], events[t - 1], trace[t]);
    }
  }

  lemma NextGrows(c: Config, stop: Stop, s: State, e: Event, s': State)
    requires c.Valid() && Shaped(c, s) && Step(c, stop, s, e, s')
    ensures s.next <= s'.next
  {
    hide OpRank, OpJetty, Deliverable, CtxTarget, CtxJetty;
  }

  /** The first op of a pass always finds room. */
  lemma FirstPost(c: Config, stop: Stop, s: State)
    requires c.Valid() && Shaped(c, s) && Inv(c, stop, s) && Clear(c, s) && s.next == 0 && stop.Until?
    ensures Step(c, stop, s, PostOp, PostedOp(c, s))
    ensures Inv(c, stop, PostedOp(c, s)) && Clear(c, PostedOp(c, s))
  {
    hide LaneInv, Clear, OpJetty, OpRank;
    PostOpInv(c, stop, s);
    PostOpClear(c, stop, s);
  }

  /**
   * In whatever state a deadline pass is, it can still finish if and only if the tails leave
   * room where it can stop first: it lets the deadline pass, fences and drains.
   */
  lemma DeadlinePassFinishes(c: Config, trace: seq<State>, events: seq<Event>, t: nat)
    requires c.Valid() && Run(c, Until, trace, events) && t < |trace|
    ensures Finishes(c, Until, trace[t]) <==> !TailsFill(c, FirstStop(trace[t].next))
  {
    hide Step, Inv, TailsFill, Clear;
    RunInv(c, Until, trace, events, t);
    RunClear(c, Until, trace, events, t);
    StateFinishes(c, trace[t]);
  }

  lemma StateFinishes(c: Config, s: State)
    requires c.Valid() && Shaped(c, s) && Inv(c, Until, s) && Clear(c, s)
    ensures Finishes(c, Until, s) <==> !TailsFill(c, FirstStop(s.next))
  {
    hide Step, Inv, TailsFill, Clear;
    if Finishes(c, Until, s) {
      FinishedPastFirst(c, s);
    }
    if !TailsFill(c, FirstStop(s.next)) {
      if s.next > 0 {
        ExpireAndDrain(c, s);
      } else {
        var s1 := PostedOp(c, s);
        FirstPost(c, Until, s);
        ExpireAndDrain(c, s1);
        var trace, events :|
          Segment(c, Until, trace, events) && trace[0] == s1 && Finished(Until, trace[|trace| - 1]);
        PrependStep(c, Until, s, PostOp, trace, events);
        assert ([s] + trace)[0] == s;
      }
    }
  }

  lemma FinishedPastFirst(c: Config, s: State)
    requires c.Valid() && Shaped(c, s) && Inv(c, Until, s) && Clear(c, s) && Finishes(c, Until, s)
    ensures !TailsFill(c, FirstStop(s.next))
  {
    hide Step, Inv, TailsFill, Clear;
    var trace, events :|
      Segment(c, Until, trace, events) && trace[0] == s && Finished(Until, trace[|trace| - 1]);
    SegmentClear(c, Until, trace, events, |trace| - 1);
    FinishedNeverFilled(c, Until, trace[|trace| - 1]);
  }
}
