/**
 * When two ops in flight share a window of the landing buffer, and when a fence READ lands
 * inside the window of an op in flight: exactly, for every configuration and both kinds of
 * pass. An op stays in flight as long as the loop finds room without its record.
 */
module Collisions {
  import opened Sums
  import opened Arithmetic
  import opened Assignment
  import opened Pipeline
  import opened Progress
  import opened Stalls
  import opened Windows

  // ---------------------------------------------------------------- how long an op can be held

  /** The ops of its jetty that can be known complete while op `i` is in flight. */
  function Base(c: Config, i: nat): (b: nat)
  {
    TailBelow(OpRank(i, c.n, c.list), c.cqMod);
    OpRank(i, c.n, c.list) - OpRank(i, c.n, c.list) % c.cqMod
  }

  lemma BaseIsGroups(c: Config, i: nat)
    ensures Base(c, i) % c.cqMod == 0 && Base(c, i) <= OpRank(i, c.n, c.list)
  {
    var r, m := OpRank(i, c.n, c.list), c.cqMod;
    assert r == (r / m) * m + r % m;
    DivUnique(Base(c, i), m, r / m, 0);
  }

  /** Op `i` can be kept in flight while the stream goes on to position `k`. */
  ghost predicate Holdable(c: Config, i: nat, k: nat)
  {
    forall p: nat :: p <= k ==> RoomFor(c, i, p)
  }

  /** There is room at position `p` although op `i`, if posted, is in flight. */
  predicate RoomFor(c: Config, i: nat, p: nat)
  {
    HasRoom(c, OpJetty(i, c.n, c.list), Base(c, i), p)
  }

  lemma GroupsGrow(a: nat, b: nat, m: Positive)
    requires a <= b
    ensures a - a % m <= b - b % m
  {
    TailBelow(a, m);
    assert a == (a / m) * m + a % m;
    DivUnique(a - a % m, m, a / m, 0);
    BeyondLastMultiple(b, a - a % m, m);
  }

  /** Up to its own position op `i` holds nothing. */
  lemma RoomBefore(c: Config, i: nat, p: nat)
    requires p <= i
    ensures RoomFor(c, i, p) <==> !TailsFill(c, p)
  {
    var j := OpJetty(i, c.n, c.list);
    CountGrows(p, i, j, c.n, c.list);
    assert CountOn(i, j, c.n, c.list) == OpRank(i, c.n, c.list);
    GroupsGrow(CountOn(p, j, c.n, c.list), OpRank(i, c.n, c.list), c.cqMod);
    hide OpJetty, OpRank, CountOn;
    assert Held(c, j, Base(c, i), p) == Tails(c, p);
  }

  /** What is held is in flight. */
  lemma HeldInFlight(c: Config, stop: Stop, s: State, i: nat)
    requires c.Valid() && Inv(c, stop, s) && OpInFlight(c, s, i) && forall l: nat :: l < c.n ==> !s.fenced[l]
    ensures !Full(c, s) ==> RoomFor(c, i, s.next)
  {
    hide LaneInv, OpRank, CountOn, OpJetty;
    InFlightSum(c, stop, s);
    var j := OpJetty(i, c.n, c.list);
    var held, flight := Held(c, j, Base(c, i), s.next), InFlight(s);
    forall l: nat | l < c.n ensures held[l] <= flight[l] {
      HeldLane(c, stop, s, i, l);
    }
    SumMonotone(held, flight);
  }

  lemma HeldLane(c: Config, stop: Stop, s: State, i: nat, l: nat)
    requires c.Valid() && Inv(c, stop, s) && OpInFlight(c, s, i) && l < c.n && !s.fenced[l]
    ensures Held(c, OpJetty(i, c.n, c.list), Base(c, i), s.next)[l] <= s.posted[l] - s.done[l]
  {
    hide OpRank, OpJetty;
    TailIsInFlight(c, stop, s, l);
    assert s.posted[l] == CountOn(s.next, l, c.n, c.list);
    hide CountOn, LaneInv;
    if l == OpJetty(i, c.n, c.list) {
      DoneIsGroups(c, stop, s, l);
      BeyondLastMultiple(OpRank(i, c.n, c.list), s.done[l], c.cqMod);
    }
  }

  lemma DoneIsGroups(c: Config, stop: Stop, s: State, l: nat)
    requires c.Valid() && Inv(c, stop, s) && l < c.n && !s.fenced[l]
    ensures s.done[l] % c.cqMod == 0
  {
    hide OpRank, OpJetty, OpIndex, CountOn, OpRequest;
    assert LaneInv(c, l, s.posted[l], s.done[l], s.fenced[l], s.lanes[l]);
  }

  // ---------------------------------------------------------------- an op in flight has been holdable

  /** While op `i` is in flight the stream has found room for it wherever it went or fenced. */
  ghost predicate HeldClear(c: Config, s: State, i: nat)
    requires Shaped(c, s)
  {
    OpInFlight(c, s, i) ==>
      && (forall p: nat :: p < s.next ==> RoomFor(c, i, p))
      && ((exists j: nat :: j < c.n && s.fenced[j]) ==> RoomFor(c, i, s.next))
  }

  lemma PostOpHeld(c: Config, stop: Stop, s: State, i: nat)
    requires c.Valid() && Inv(c, stop, s) && Clear(c, s) && HeldClear(c, s, i)
    requires !StopPosting(stop, s) && !Full(c, s)
    ensures HeldClear(c, PostedOp(c, s), i)
  {
    hide LaneInv, RoomFor, OpJetty, OpRank, TailsFill;
    var s' := PostedOp(c, s);
    PostOpClear(c, stop, s);
    if OpInFlight(c, s', i) {
      if i == s.next {
        forall p: nat | p < s'.next ensures RoomFor(c, i, p) {
          RoomBefore(c, i, p);
        }
      } else {
        assert OpInFlight(c, s, i);
        HeldInFlight(c, stop, s, i);
      }
    }
  }

  lemma PostFenceHeld(c: Config, stop: Stop, s: State, j: nat, i: nat)
    requires c.Valid() && Inv(c, stop, s) && HeldClear(c, s, i) && !Full(c, s) && j < c.n
    ensures HeldClear(c, PostedFence(c, s, j), i)
  {
    hide LaneInv, RoomFor, OpJetty, OpRank;
    if OpInFlight(c, PostedFence(c, s, j), i) {
      assert OpInFlight(c, s, i);
      if forall l: nat :: l < c.n ==> !s.fenced[l] {
        HeldInFlight(c, stop, s, i);
      }
    }
  }

  lemma SameHeld(c: Config, s: State, s': State, i: nat)
    requires Shaped(c, s) && Shaped(c, s') && HeldClear(c, s, i) && s'.next == s.next && s'.fenced == s.fenced
    requires forall j: nat :: j < c.n ==> s.done[j] <= s'.done[j]
    ensures HeldClear(c, s', i)
  {
    hide RoomFor, OpJetty, OpRank;
  }

  lemma StepHeld(c: Config, stop: Stop, s: State, e: Event, s': State, i: nat)
    requires c.Valid() && Shaped(c, s) && Shaped(c, s')
    requires Inv(c, stop, s) && Clear(c, s) && HeldClear(c, s, i) && Step(c, stop, s, e, s')
    ensures HeldClear(c, s', i)
  {
    hide Inv, Clear, HeldClear, OpRank, OpJetty, Deliverable, CtxTarget, CtxJetty;
    match e
    case PostOp => PostOpHeld(c, stop, s, i);
    case PostFence(j) => PostFenceHeld(c, stop, s, j, i);
    case Complete(more) => SameHeld(c, s, s', i);
    case Reap(j, k) => SameHeld(c, s, s', i);
    case Expire => SameHeld(c, s, s', i);
  }

  lemma {:induction false} RunHeld(c: Config, stop: Stop, trace: seq<State>, events: seq<Event>, t: nat, i: nat)
    requires c.Valid() && Run(c, stop, trace, events) && t < |trace|
    ensures HeldClear(c, trace[t], i)
  {
    hide Step, Inv, Clear, RoomFor;
    if t > 0 {
      RunHeld(c, stop, trace, events, t - 1, i);
      RunInv(c, stop, trace, events, t - 1);
      RunClear(c, stop, trace, events, t - 1);
      hide HeldClear;
      StepHeld(c, stop, trace[t - 1], events[t - 1], trace[t], i);
    }
  }

  // ---------------------------------------------------------------- a holdable op can be in flight

  /** The loop comes to position `k`, with room left, and op `i` is still in flight. */
  lemma HoldingRun(c: Config, stop: Stop, i: nat, k: nat) returns (trace: seq<State>, events: seq<Event>, s: State)
    requires c.Valid() && i < k <= LastPosition(stop) && Holdable(c, i, k)
    ensures |trace| == |events| + 1 && LoopRun(c, stop, trace, events) && s == trace[|events|]
    ensures Driven(c, stop, s, OpJetty(i, c.n, c.list), Base(c, i)) && s.next == k && !Full(c, s)
    ensures OpInFlight(c, s, i)
  {
    hide Inv, Step, HasRoom, OpJetty, OpRank, LoopRun, Base;
    BaseIsGroups(c, i);
    forall p: nat | p <= k ensures HasRoom(c, OpJetty(i, c.n, c.list), Base(c, i), p) {
      assert RoomFor(c, i, p);
    }
    trace, events := Drive(c, stop, OpJetty(i, c.n, c.list), Base(c, i), k);
    s := trace[|events|];
  }

  // ---------------------------------------------------------------- shared windows

  /** Two ops in flight use overlapping windows. */
  ghost predicate WindowShared(c: Config, s: State, size: Positive, len: nat)
    requires Shaped(c, s)
  {
    exists a: nat, b: nat :: a < b && OpInFlight(c, s, a) && OpInFlight(c, s, b)
      && !Disjoint(SlotOffset(a, size, len), size, SlotOffset(b, size, len), size)
  }

  ghost predicate CanCollide(c: Config, stop: Stop, size: Positive, len: nat)
    requires c.Valid()
  {
    exists trace, events :: Run(c, stop, trace, events) && WindowShared(c, trace[|trace| - 1], size, len)
  }

  ghost predicate LoopCollides(c: Config, stop: Stop, size: Positive, len: nat)
    requires c.Valid()
  {
    exists trace, events :: LoopRun(c, stop, trace, events) && WindowShared(c, trace[|trace| - 1], size, len)
  }

  /** Some op can be held until the op that comes round to its window is posted. */
  ghost predicate HoldsAWindow(c: Config, stop: Stop, slots: nat)
  {
    exists i: nat :: HeldRound(c, stop, i, slots)
  }

  ghost predicate HeldRound(c: Config, stop: Stop, i: nat, slots: nat)
  {
    i + slots < LastPosition(stop) && Holdable(c, i, i + slots)
  }

  lemma ResidueApart(a: nat, b: nat, slots: Positive)
    requires a < b && a % slots == b % slots
    ensures a + slots <= b
  {
    if b < a + slots {
      ResiduesDiffer(a, b, slots);
    }
  }

  lemma ResidueNext(a: nat, slots: Positive)
    ensures (a + slots) % slots == a % slots
  {
    MulDistributes(a / slots, 1, slots);
    DivUnique(a + slots, slots, a / slots + 1, a % slots);
  }

  lemma SharedIsHeld(c: Config, stop: Stop, s: State, size: Positive, len: nat)
    requires c.Valid() && Shaped(c, s) && Inv(c, stop, s) && (forall i: nat :: HeldClear(c, s, i))
    requires WindowShared(c, s, size, len)
    ensures HoldsAWindow(c, stop, Slots(size, len))
  {
    hide LaneInv, RoomFor, OpJetty, OpRank, SlotOffset, Slots, Disjoint;
    var a: nat, b: nat :| a < b && OpInFlight(c, s, a) && OpInFlight(c, s, b)
      && !Disjoint(SlotOffset(a, size, len), size, SlotOffset(b, size, len), size);
    WindowsMeet(a, b, size, len);
    ResidueApart(a, b, Slots(size, len));
    assert HeldClear(c, s, a);
    assert s.next <= LastPosition(stop);
    assert HeldRound(c, stop, a, Slots(size, len));
  }

  /** Posting the op that comes round makes the two share the window. */
  lemma PostShares(c: Config, stop: Stop, s: State, i: nat, size: Positive, len: nat)
    requires c.Valid() && Inv(c, stop, s) && OpInFlight(c, s, i) && s.next == i + Slots(size, len)
    ensures WindowShared(c, PostedOp(c, s), size, len)
  {
    var s', k := PostedOp(c, s), s.next;
    ResidueNext(i, Slots(size, len));
    WindowsMeet(i, k, size, len);
    NextIsInFlight(c, stop, s);
    hide SlotOffset, Slots, Disjoint, OpRank, OpJetty, Inv;
    assert OpInFlight(c, s', i) && OpInFlight(c, s', k);
  }

  lemma NextIsInFlight(c: Config, stop: Stop, s: State)
    requires c.Valid() && Inv(c, stop, s)
    ensures OpInFlight(c, PostedOp(c, s), s.next)
  {
    var j := OpJetty(s.next, c.n, c.list);
    assert CountOn(s.next, j, c.n, c.list) == OpRank(s.next, c.n, c.list);
    hide CountOn, OpRank, OpJetty, OpIndex;
    assert LaneInv(c, j, s.posted[j], s.done[j], s.fenced[j], s.lanes[j]);
  }

  lemma CollidingRun(c: Config, stop: Stop, i: nat, size: Positive, len: nat)
    returns (trace: seq<State>, events: seq<Event>)
    requires c.Valid() && i + Slots(size, len) < LastPosition(stop) && Holdable(c, i, i + Slots(size, len))
    ensures |trace| > 0 && LoopRun(c, stop, trace, events) && WindowShared(c, trace[|trace| - 1], size, len)
  {
    hide Inv, Step, WindowShared, OpInFlight, Holdable, Slots, OpJetty;
    var s: State;
    trace, events, s := HoldingRun(c, stop, i, i + Slots(size, len));
    PostDriven(c, stop, s, OpJetty(i, c.n, c.list), Base(c, i));
    PostShares(c, stop, s, i, size, len);
    LoopExtend(c, stop, trace, events, PostOp, PostedOp(c, s));
    trace, events := trace + [PostedOp(c, s)], events + [PostOp];
  }

  /**
   * For every configuration, buffer and kind of pass: two ops in flight can share a window if
   * and only if some op can be held until its window comes round. The loop itself, which
   * polls only where it cannot post, gets there whenever any run does.
   */
  lemma WindowsCollideExactly(c: Config, stop: Stop, size: Positive, len: nat)
    requires c.Valid()
    ensures CanCollide(c, stop, size, len) <==> HoldsAWindow(c, stop, Slots(size, len))
    ensures LoopCollides(c, stop, size, len) <==> HoldsAWindow(c, stop, Slots(size, len))
  {
    hide Step, Inv, WindowShared, HeldClear, Holdable, Slots;
    if CanCollide(c, stop, size, len) {
      var trace, events :| Run(c, stop, trace, events) && WindowShared(c, trace[|trace| - 1], size, len);
      var t := |trace| - 1;
      RunInv(c, stop, trace, events, t);
      forall i: nat ensures HeldClear(c, trace[t], i) {
        RunHeld(c, stop, trace, events, t, i);
      }
      SharedIsHeld(c, stop, trace[t], size, len);
    }
    if i: nat :| HeldRound(c, stop, i, Slots(size, len)) {
      var trace, events := CollidingRun(c, stop, i, size, len);
    }
  }

  // ---------------------------------------------------------------- single ops, all signaled

  lemma CeilOf(a: nat, b: nat, n: Positive)
    requires b < n
    ensures (a * n + b + n - 1) / n == if b == 0 then a else a + 1
  {
    MulDistributes(a, 1, n);
    if b == 0 {
      DivUnique(a * n + b + n - 1, n, a, n - 1);
    } else {
      DivUnique(a * n + b + n - 1, n, a + 1, b - 1);
    }
  }

  lemma CountAheadFrom(q: nat, j: nat, a: nat, b: nat, n: Positive)
    requires j < n && b < n && q * n + j >= 0 && a * n + b >= 0
    ensures CountOn(q * n + j + (a * n + b), j, n, 1) == q + if b == 0 then a else a + 1
  {
    hide CountOn, OpJetty, OpRank;
    MulDistributes(q, a, n);
    MulDistributes(q + a, 1, n);
    if j + b < n {
      RoundRobin(q * n + j + (a * n + b), q + a, j + b, n);
    } else {
      RoundRobin(q * n + j + (a * n + b), q + a + 1, j + b - n, n);
    }
  }

  lemma Quotients(i: nat, n: Positive) returns (q: nat, r: nat)
    ensures i == q * n + r && r < n
  {
    q, r := i / n, i % n;
  }

  /** With plain round robin, `d` ops from op `i` on put ceil(d / n) of them on its jetty. */
  lemma CountAhead(i: nat, d: nat, n: Positive)
    ensures CountOn(i + d, OpJetty(i, n, 1), n, 1) == OpRank(i, n, 1) + (d + n - 1) / n
  {
    hide CountOn, OpJetty, OpRank;
    var q, j := Quotients(i, n);
    var a, b := Quotients(d, n);
    RoundRobin(i, q, j, n);
    CountAheadFrom(q, j, a, b, n);
    CeilOf(a, b, n);
  }

  lemma RoundRobin(i: nat, q: nat, j: nat, n: Positive)
    requires j < n && i == q * n + j
    ensures OpJetty(i, n, 1) == j && OpRank(i, n, 1) == q
    ensures forall l: nat :: l < n ==> CountOn(i, l, n, 1) == q + if l < j then 1 else 0
  {
    assert q * (1 * n) == q * n;
    Compose(i, q, j, 0, n, 1);
  }

  /** Every op is signaled, so nothing but the ops behind the held one stays in flight. */
  lemma PlainRoom(c: Config, i: nat, p: nat)
    requires c.list == 1 && c.cqMod == 1
    ensures RoomFor(c, i, p) <==> CountOn(p, OpJetty(i, c.n, 1), c.n, 1) - OpRank(i, c.n, 1) < c.depth
  {
    hide CountOn, OpJetty, OpRank;
    var j := OpJetty(i, c.n, 1);
    var h, t := Held(c, j, Base(c, i), p), Tails(c, p);
    SumZero(t);
    SumUpdate(t, j, h[j]);
    assert h == t[j := h[j]];
  }

  lemma CeilAtMost(d: nat, n: Positive, k: nat)
    ensures (d + n - 1) / n <= k <==> d <= n * k
  {
    var u, r := (d + n - 1) / n, (d + n - 1) % n;
    assert d + n - 1 == u * n + r;
    MulDistributes(k, u, n);
    if u <= k {
      if u < k {
        MulAtLeast(k - u, n);
      }
    } else {
      MulDistributes(u, k, n);
      MulAtLeast(u - k, n);
    }
  }

  lemma PlainHoldable(c: Config, i: nat, d: nat)
    requires c.list == 1 && c.cqMod == 1
    ensures Holdable(c, i, i + d) <==> d <= c.n * (c.depth - 1)
  {
    hide CountOn, OpJetty, OpRank, RoomFor;
    CountAhead(i, d, c.n);
    CeilAtMost(d, c.n, c.depth - 1);
    PlainRoom(c, i, i + d);
    if RoomFor(c, i, i + d) {
      forall p: nat | p <= i + d ensures RoomFor(c, i, p) {
        CountGrows(p, i + d, OpJetty(i, c.n, 1), c.n, 1);
        PlainRoom(c, i, p);
      }
    }
  }

  /**
   * With single-op chunks and every op signaled, windows collide if and only if there are at
   * most `n * (depth - 1)` of them and the pass is long enough to come round.
   */
  lemma PlainWindowsCollide(c: Config, stop: Stop, size: Positive, len: nat)
    requires c.Valid() && c.list == 1 && c.cqMod == 1
    ensures CanCollide(c, stop, size, len) <==>
      Slots(size, len) < LastPosition(stop) && Slots(size, len) <= c.n * (c.depth - 1)
  {
    hide CanCollide, Holdable, Slots;
    var slots := Slots(size, len);
    WindowsCollideExactly(c, stop, size, len);
    if i: nat :| HeldRound(c, stop, i, slots) {
      PlainHoldable(c, i, slots);
    }
    PlainHoldable(c, 0, slots);
    if slots < LastPosition(stop) && slots <= c.n * (c.depth - 1) {
      assert HeldRound(c, stop, 0, slots);
    }
  }

  lemma WholeBuffer(size: Positive, depth: Positive)
    ensures Slots(size, size * depth) == depth
  {
    DivUnique(size * depth, size, depth, 0);
  }

  /**
   * The landing buffer that is registered for disjoint windows, `size * depth` bytes, does
   * collide at its largest size, for every pass of more than `depth` ops over two or more
   * jettys that pipelines at all; one jetty is safe.
   */
  lemma UncappedLandingCollides(c: Config, stop: Stop, largest: Positive)
    requires c.Valid() && c.list == 1 && c.cqMod == 1
    ensures largest * c.depth >= 0
    ensures CanCollide(c, stop, largest, largest * c.depth) <==> c.depth < LastPosition(stop) && c.n >= 2 && c.depth >= 2
  {
    MulPositive(largest, c.depth);
    hide CanCollide;
    WholeBuffer(largest, c.depth);
    PlainWindowsCollide(c, stop, largest, largest * c.depth);
    if c.n >= 2 && c.depth >= 2 {
      MulDistributes(c.n, 2, c.depth - 1);
      if c.n > 2 {
        MulAtLeast(c.n - 2, c.depth - 1);
      }
    }
  }

  /** In general it collides at its largest size if and only if some op can be held for `depth` more. */
  lemma UncappedLandingExactly(c: Config, stop: Stop, largest: Positive)
    requires c.Valid()
    ensures largest * c.depth >= 0
    ensures CanCollide(c, stop, largest, largest * c.depth) <==> HoldsAWindow(c, stop, c.depth)
  {
    MulPositive(largest, c.depth);
    hide CanCollide, HoldsAWindow;
    WholeBuffer(largest, c.depth);
    WindowsCollideExactly(c, stop, largest, largest * c.depth);
  }

  /** One jetty never collides on it, at any swept size, chunk and moderation. */
  lemma OneJettyNeverCollides(c: Config, stop: Stop, size: Positive, largest: Positive)
    requires c.Valid() && c.n == 1 && size <= largest
    ensures largest * c.depth >= 0 && !CanCollide(c, stop, size, largest * c.depth)
  {
    UncappedLandingSuffices(c, size, largest);
    forall trace, events | Run(c, stop, trace, events)
      ensures !WindowShared(c, trace[|trace| - 1], size, largest * c.depth)
    {
      NoneShared(c, stop, trace, events, size, largest * c.depth);
    }
  }

  lemma NoneShared(c: Config, stop: Stop, trace: seq<State>, events: seq<Event>, size: Positive, len: nat)
    requires c.Valid() && Run(c, stop, trace, events) && size <= len && Slots(size, len) >= Span(c)
    ensures !WindowShared(c, trace[|trace| - 1], size, len)
  {
    hide OpInFlight, SlotOffset, Slots, Span, Disjoint, Step;
    var s := trace[|trace| - 1];
    if WindowShared(c, s, size, len) {
      var a: nat, b: nat :| a < b && OpInFlight(c, s, a) && OpInFlight(c, s, b)
        && !Disjoint(SlotOffset(a, size, len), size, SlotOffset(b, size, len), size);
      InFlightWindowsDisjoint(c, stop, trace, events, |trace| - 1, size, len, a, b);
    }
  }

  /** Two jettys, depth 2, three ops: ops 0 and 2 land in the same window. */
  lemma TwoJettysCollide(size: Positive)
    ensures size * 2 >= 0 && LoopCollides(Config(2, 1, 2, 1), Ops(3), size, size * 2)
  {
    hide CanCollide, LoopCollides;
    UncappedLandingCollides(Config(2, 1, 2, 1), Ops(3), size);
    WindowsCollideExactly(Config(2, 1, 2, 1), Ops(3), size, size * 2);
  }

  // ---------------------------------------------------------------- the fence READ's landing byte

  const FENCE_OFFSET: nat := 0
  const FENCE_SIZE: nat := 1

  /** The fence of jetty `j` is posted and its record not reaped. */
  predicate FenceInFlight(s: State, j: nat)
    requires j < |s.fenced| && |s.fenced| == |s.lanes| == |s.posted|
  {
    s.fenced[j] && s.lanes[j].polled <= s.posted[j]
  }

  /** A fence lands in the first byte of the buffer: it meets the ops of window 0 and no others. */
  lemma FenceMeetsWindowZero(i: nat, size: Positive, len: nat)
    ensures Disjoint(SlotOffset(i, size, len), size, FENCE_OFFSET, FENCE_SIZE) <==> i % Slots(size, len) != 0
  {
    var w := i % Slots(size, len);
    if w >= 1 {
      MulAtLeast(w, size);
    }
  }

  ghost predicate FenceMeetsOp(c: Config, s: State, size: Positive, len: nat)
    requires Shaped(c, s)
  {
    exists j: nat, i: nat :: j < c.n && FenceInFlight(s, j) && OpInFlight(c, s, i)
      && !Disjoint(SlotOffset(i, size, len), size, FENCE_OFFSET, FENCE_SIZE)
  }

  ghost predicate CanMeet(c: Config, stop: Stop, size: Positive, len: nat)
    requires c.Valid()
  {
    exists trace, events :: Run(c, stop, trace, events) && FenceMeetsOp(c, trace[|trace| - 1], size, len)
  }

  ghost predicate LoopMeets(c: Config, stop: Stop, size: Positive, len: nat)
    requires c.Valid()
  {
    exists trace, events :: LoopRun(c, stop, trace, events) && FenceMeetsOp(c, trace[|trace| - 1], size, len)
  }

  /** Some jetty's share of the first `k` ops ends on an unsignaled op. */
  ghost predicate NeedsFence(c: Config, k: nat)
  {
    exists j: nat :: j < c.n && TailUncovered(c, CountOn(k, j, c.n, c.list))
  }

  /** Posting can stop at position `k`: a count stops at its own, a deadline at any but the first. */
  predicate StopsAt(stop: Stop, k: nat)
  {
    k <= LastPosition(stop) && if stop.Ops? then k == stop.ops else k > 0
  }

  /** Op `i` uses the first window and can still be in flight where posting stops, at `k`. */
  ghost predicate FenceTarget(c: Config, stop: Stop, slots: Positive, k: nat, i: nat)
  {
    StopsAt(stop, k) && NeedsFence(c, k) && i < k && i % slots == 0 && Holdable(c, i, k)
  }

  lemma MeetingIsHeld(c: Config, stop: Stop, s: State, size: Positive, len: nat) returns (i: nat)
    requires c.Valid() && Shaped(c, s) && Inv(c, stop, s) && (forall i: nat :: HeldClear(c, s, i))
    requires FenceMeetsOp(c, s, size, len)
    ensures FenceTarget(c, stop, Slots(size, len), s.next, i)
  {
    hide RoomFor, OpJetty, OpRank, OpIndex, CountOn, SlotOffset, Slots, Disjoint;
    var j: nat;
    j, i :| j < c.n && FenceInFlight(s, j) && OpInFlight(c, s, i)
      && !Disjoint(SlotOffset(i, size, len), size, FENCE_OFFSET, FENCE_SIZE);
    FenceMeetsWindowZero(i, size, len);
    assert HeldClear(c, s, i);
    assert LaneInv(c, j, s.posted[j], s.done[j], s.fenced[j], s.lanes[j]);
    assert TailUncovered(c, CountOn(s.next, j, c.n, c.list));
  }

  /** A fence posted where op `i` is in flight meets it, if `i` uses the first window. */
  lemma PostedFenceMeets(c: Config, stop: Stop, s: State, j: nat, i: nat, size: Positive, len: nat)
    requires c.Valid() && Inv(c, stop, s) && j < c.n && !s.fenced[j]
    requires OpInFlight(c, s, i) && i % Slots(size, len) == 0
    ensures FenceMeetsOp(c, PostedFence(c, s, j), size, len)
  {
    hide OpRank, OpJetty, OpIndex, CountOn, SlotOffset, Slots, Disjoint;
    var s' := PostedFence(c, s, j);
    FenceMeetsWindowZero(i, size, len);
    assert LaneInv(c, j, s.posted[j], s.done[j], s.fenced[j], s.lanes[j]);
    assert FenceInFlight(s', j) && OpInFlight(c, s', i);
  }

  /** Let the deadline pass, if it is one, where posting is to stop. */
  lemma StopHere(c: Config, stop: Stop, trace: seq<State>, events: seq<Event>)
    returns (trace': seq<State>, events': seq<Event>, s': State)
    requires c.Valid() && |trace| == |events| + 1 && LoopRun(c, stop, trace, events)
    requires StopsAt(stop, trace[|events|].next) && Inv(c, stop, trace[|events|])
    ensures |trace'| == |events'| + 1 && LoopRun(c, stop, trace', events') && s' == trace'[|events'|]
    ensures Shaped(c, s') && Inv(c, stop, s') && s' == trace[|events|].(expired := s'.expired) && StopPosting(stop, s')
  {
    var s := trace[|events|];
    if stop.Ops? {
      trace', events', s' := trace, events, s;
    } else {
      s' := s.(expired := true);
      StepInv(c, stop, s, Expire, s');
      LoopExtend(c, stop, trace, events, Expire, s');
      trace', events' := trace + [s'], events + [Expire];
    }
  }

  lemma MeetingRun(c: Config, stop: Stop, k: nat, i: nat, size: Positive, len: nat)
    returns (trace: seq<State>, events: seq<Event>)
    requires c.Valid() && FenceTarget(c, stop, Slots(size, len), k, i)
    ensures |trace| > 0 && LoopRun(c, stop, trace, events) && FenceMeetsOp(c, trace[|trace| - 1], size, len)
  {
    hide Step, LoopRun, FenceMeetsOp, Holdable, Slots, OpJetty, OpRank, CountOn, LaneInv, TailUncovered;
    var s: State;
    trace, events, s := HoldingRun(c, stop, i, k);
    var j: nat :| j < c.n && TailUncovered(c, CountOn(k, j, c.n, c.list));
    assert s.posted[j] == CountOn(k, j, c.n, c.list);
    trace, events, s := StopHere(c, stop, trace, events);
    hide Inv;
    PostedFenceMeets(c, stop, s, j, i, size, len);
    FenceStep(c, stop, s, j);
    LoopExtend(c, stop, trace, events, PostFence(j), PostedFence(c, s, j));
    trace, events := trace + [PostedFence(c, s, j)], events + [PostFence(j)];
  }

  lemma FenceStep(c: Config, stop: Stop, s: State, j: nat)
    requires c.Valid() && Shaped(c, s) && StopPosting(stop, s) && !Full(c, s)
    requires j < c.n && !s.fenced[j] && TailUncovered(c, s.posted[j])
    ensures Step(c, stop, s, PostFence(j), PostedFence(c, s, j))
  {
  }

  /**
   * For every configuration, buffer and kind of pass: a fence can land inside the window of
   * an op in flight if and only if, at some position where posting can stop, a fence is
   * needed and some op of window 0 can still be held.
   */
  lemma FenceMeetsExactly(c: Config, stop: Stop, size: Positive, len: nat)
    requires c.Valid()
    ensures CanMeet(c, stop, size, len) <==> exists k: nat, i: nat :: FenceTarget(c, stop, Slots(size, len), k, i)
    ensures LoopMeets(c, stop, size, len) <==> exists k: nat, i: nat :: FenceTarget(c, stop, Slots(size, len), k, i)
  {
    hide Step, Inv, FenceMeetsOp, HeldClear, FenceTarget, Slots;
    if CanMeet(c, stop, size, len) {
      var trace, events :| Run(c, stop, trace, events) && FenceMeetsOp(c, trace[|trace| - 1], size, len);
      var t := |trace| - 1;
      RunInv(c, stop, trace, events, t);
      forall i: nat ensures HeldClear(c, trace[t], i) {
        RunHeld(c, stop, trace, events, t, i);
      }
      var i := MeetingIsHeld(c, stop, trace[t], size, len);
    }
    if k: nat, i: nat :| FenceTarget(c, stop, Slots(size, len), k, i) {
      var trace, events := MeetingRun(c, stop, k, i, size, len);
    }
  }

  /** A pass of `ops` ops, in particular. */
  lemma CountPassFenceMeets(c: Config, ops: nat, size: Positive, len: nat)
    requires c.Valid() && ops <= FENCE_CTX_MIN
    ensures CanMeet(c, Ops(ops), size, len) <==>
      NeedsFence(c, ops) && exists i: nat :: i < ops && i % Slots(size, len) == 0 && Holdable(c, i, ops)
  {
    hide CanMeet, NeedsFence, Holdable, Slots;
    FenceMeetsExactly(c, Ops(ops), size, len);
    if i: nat :| i < ops && i % Slots(size, len) == 0 && Holdable(c, i, ops) && NeedsFence(c, ops) {
      assert FenceTarget(c, Ops(ops), Slots(size, len), ops, i);
    }
  }

  /** A pass that fits the pipeline can hold its first op to the end. */
  lemma FirstIsHoldable(c: Config, ops: nat)
    requires ops < c.depth
    ensures Holdable(c, 0, ops)
  {
    forall p: nat | p <= ops ensures RoomFor(c, 0, p) {
      HeldAtMostCounts(c, OpJetty(0, c.n, c.list), Base(c, 0), p);
    }
  }

  lemma HeldAtMostCounts(c: Config, j: nat, base: nat, p: nat)
    requires j < c.n
    ensures Sum(Held(c, j, base, p)) <= p
  {
    forall l: nat | l < c.n ensures Held(c, j, base, p)[l] <= Counts(p, c.n, c.list)[l] {
      TailBelow(CountOn(p, l, c.n, c.list), c.cqMod);
    }
    SumMonotone(Held(c, j, base, p), Counts(p, c.n, c.list));
    CountsSum(p, c.n, c.list);
  }

  /** So its fence can meet an op in flight if and only if it posts one, however many windows there are. */
  lemma ShortPassFenceMeetsOp(c: Config, ops: nat, size: Positive, len: nat)
    requires c.Valid() && 1 <= ops < c.depth
    ensures CanMeet(c, Ops(ops), size, len) <==> NeedsFence(c, ops)
  {
    hide CanMeet, NeedsFence, Holdable;
    FirstIsHoldable(c, ops);
    CountPassFenceMeets(c, ops, size, len);
    assert 0 % Slots(size, len) == 0;
  }
}
