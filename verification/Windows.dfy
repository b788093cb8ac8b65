/**
 * Buffer windows of the bandwidth pass: op `i` uses window `i mod slots` of the landing
 * buffer (and of the peer's segment). In-flight ops stay close together in the op stream,
 * so enough windows keep them apart.
 */
module Windows {
  import opened Sums
  import opened Arithmetic
  import opened Assignment
  import opened Pipeline

  function Slots(size: Positive, len: nat): (s: Positive)
  {
    if len / size >= 1 then len / size else 1
  }

  /** Offset of op `i`'s window in a buffer of `len` bytes. */
  function SlotOffset(i: nat, size: Positive, len: nat): (off: nat)
  {
    (i % Slots(size, len)) * size
  }

  /** How a residue moves on. */
  lemma NextResidue(i: nat, slots: Positive)
    ensures (i + 1) % slots == if i % slots + 1 < slots then i % slots + 1 else 0
  {
    var q, w := i / slots, i % slots;
    MulDistributes(q, 1, slots);
    if w + 1 < slots {
      DivUnique(i + 1, slots, q, w + 1);
    } else {
      DivUnique(i + 1, slots, q + 1, 0);
    }
  }

  /** Whether `k` windows fit, in bytes. */
  lemma FitsInBytes(k: nat, size: Positive, len: nat)
    ensures k <= len / size <==> k * size <= len
  {
    var q := len / size;
    MulDistributes(k, q, size);
    if k < q {
      MulAtLeast(q - k, size);
      MulDistributes(q, k, size);
    } else if k > q {
      MulAtLeast(k - q, size);
    }
  }

  /**
   * The windows are walked from the start of the buffer, one size at a time, and from the
   * beginning again when the next one would not fit; a buffer too small for one has offset 0.
   */
  lemma WindowWalk(i: nat, size: Positive, len: nat)
    ensures SlotOffset(0, size, len) == 0
    ensures size > len ==> SlotOffset(i, size, len) == 0
    ensures size <= len ==>
      SlotOffset(i + 1, size, len)
      == if SlotOffset(i, size, len) + 2 * size <= len then SlotOffset(i, size, len) + size else 0
  {
    var slots: Positive := Slots(size, len);
    var w := i % slots;
    assert 0 % slots == 0;
    FitsInBytes(1, size, len);
    FitsInBytes(w + 2, size, len);
    NextResidue(i, slots);
    MulDistributes(w, 2, size);
    MulDistributes(w, 1, size);
  }

  /** An op the ledger does not know to be complete. */
  predicate OpInFlight(c: Config, s: State, i: nat)
    requires Shaped(c, s)
  {
    i < s.next && OpRank(i, c.n, c.list) >= s.done[OpJetty(i, c.n, c.list)]
  }

  /** The widest stretch of the op stream that in-flight ops can cover. */
  function Span(c: Config): (w: nat)
  {
    MulNonNegative(c.n, c.depth);
    MulNonNegative(c.n - 1, c.list - 1);
    c.n * c.depth + (c.n - 1) * (c.list - 1)
  }

  lemma MulNonNegative(a: nat, b: nat)
    ensures a * b >= 0
  {
  }

  lemma OthersKeepPace(i: nat, next: nat, mine: nat, n: Positive, list: Positive)
    requires i <= next
    requires mine == CountOn(next, OpJetty(i, n, list), n, list) - CountOn(i, OpJetty(i, n, list), n, list)
    ensures next - i <= mine + (n - 1) * (mine + (list - 1))
  {
    hide CountOn, OpJetty, Sum;
    var j := OpJetty(i, n, list);
    var before, after := Counts(i, n, list), Counts(next, n, list);
    forall k: nat | k < n ensures before[k] <= after[k] {
      CountGrows(i, next, k, n, list);
    }
    var moved := seq(n, (k: nat) requires k < n => after[k] - before[k]);
    CountsSum(i, n, list);
    CountsSum(next, n, list);
    SumDifference(after, before, moved);
    var cap: nat := mine + (list - 1);
    forall k: nat | k < n ensures moved[k] <= cap {
      JettysKeepPace(i, next, k, n, list);
    }
    SumUpdate(moved, j, cap);
    SumAtMost(moved[j := cap], cap);
    MulDistributes(n, 1, cap);
  }

  /** From an in-flight op on, its own jetty has posted at most `depth` ops. */
  lemma InFlightAhead(c: Config, stop: Stop, s: State, i: nat)
    requires c.Valid() && Inv(c, stop, s) && OpInFlight(c, s, i)
    ensures var j := OpJetty(i, c.n, c.list);
      i < s.next && 0 <= CountOn(s.next, j, c.n, c.list) - CountOn(i, j, c.n, c.list) <= c.depth
  {
    var j := OpJetty(i, c.n, c.list);
    assert CountOn(i, j, c.n, c.list) == OpRank(i, c.n, c.list);
    hide CountOn, OpRank, LaneInv, OpJetty;
    InFlightSum(c, stop, s);
    SumAtLeastOne(InFlight(s), j);
    CountGrows(i, s.next, j, c.n, c.list);
  }

  /** In-flight ops lie within the last `Span` indices of the stream. */
  lemma InFlightWithinSpan(c: Config, stop: Stop, s: State, i: nat)
    requires c.Valid() && Inv(c, stop, s) && OpInFlight(c, s, i)
    ensures s.next - i <= Span(c)
  {
    hide CountOn, OpRank, LaneInv, Inv, OpJetty, OpInFlight;
    var j := OpJetty(i, c.n, c.list);
    InFlightAhead(c, stop, s, i);
    var mine := CountOn(s.next, j, c.n, c.list) - CountOn(i, j, c.n, c.list);
    OthersKeepPace(i, s.next, mine, c.n, c.list);
    SpanArithmetic(c.n, mine, c.depth, c.list - 1);
  }

  lemma SpanArithmetic(n: Positive, mine: nat, depth: nat, extra: nat)
    requires mine <= depth
    ensures mine + (n - 1) * (mine + extra) <= n * depth + (n - 1) * extra
  {
    MulDistributes(mine, extra, n - 1);
    MulDistributes(n, 1, depth);
    MulDistributes(depth, mine, n - 1);
    MulNonNegative(depth - mine, n - 1);
  }

  /** A window lies inside its buffer. */
  lemma WindowInBounds(i: nat, size: Positive, len: nat)
    requires size <= len
    ensures SlotOffset(i, size, len) + size <= len
  {
    var slots := Slots(size, len);
    MulDistributes(1, 0, size);
    assert len / size >= 1;
    var w := i % slots;
    MulDistributes(slots, w, size);
    MulAtLeast(slots - w, size);
  }

  lemma ResiduesDiffer(a: nat, b: nat, slots: Positive)
    requires a < b < a + slots
    ensures a % slots != b % slots
  {
    if a % slots == b % slots {
      var q, r := a / slots, a % slots;
      assert a == q * slots + r;
      var d := b / slots - q;
      MulDistributes(b / slots, q, slots);
      assert d * slots == b - a;
      if d >= 2 {
        MulAtLeast(d - 1, slots);
        MulDistributes(d, 1, slots);
      } else if d <= 0 {
        MulNonNegative(-d, slots);
        MulDistributes(0, d, slots);
      }
    }
  }

  ghost predicate Disjoint(off: nat, size: nat, off': nat, size': nat)
  {
    off + size <= off' || off' + size' <= off
  }

  /** Two ops use the same window or disjoint ones. */
  lemma WindowsMeet(a: nat, b: nat, size: Positive, len: nat)
    ensures Disjoint(SlotOffset(a, size, len), size, SlotOffset(b, size, len), size)
      <==> a % Slots(size, len) != b % Slots(size, len)
  {
    var x, y := a % Slots(size, len), b % Slots(size, len);
    if x < y {
      MulDistributes(y, x, size);
      MulAtLeast(y - x, size);
    } else if y < x {
      MulDistributes(x, y, size);
      MulAtLeast(x - y, size);
    }
  }

  lemma WindowsDisjoint(a: nat, b: nat, size: Positive, len: nat)
    requires a < b < a + Slots(size, len)
    ensures Disjoint(SlotOffset(a, size, len), size, SlotOffset(b, size, len), size)
  {
    ResiduesDiffer(a, b, Slots(size, len));
    WindowsMeet(a, b, size, len);
  }

  /**
   * In every reachable state, any two in-flight ops use disjoint windows inside the
   * buffer, whenever the buffer has at least `Span` windows.
   */
  lemma InFlightWindowsDisjoint(
    c: Config, stop: Stop, trace: seq<State>, events: seq<Event>, t: nat,
    size: Positive, len: nat, a: nat, b: nat)
    requires c.Valid() && Run(c, stop, trace, events) && t < |trace|
    requires size <= len && Slots(size, len) >= Span(c)
    requires OpInFlight(c, trace[t], a) && OpInFlight(c, trace[t], b) && a != b
    ensures SlotOffset(a, size, len) + size <= len
    ensures Disjoint(SlotOffset(a, size, len), size, SlotOffset(b, size, len), size)
  {
    RunInv(c, stop, trace, events, t);
    InFlightWithinSpan(c, stop, trace[t], a);
    InFlightWithinSpan(c, stop, trace[t], b);
    WindowInBounds(a, size, len);
    if a < b {
      WindowsDisjoint(a, b, size, len);
    } else {
      WindowsDisjoint(b, a, size, len);
    }
  }

  /** One jetty with the uncapped `size * depth` landing buffer never overlaps two in-flight ops. */
  lemma UncappedLandingSuffices(c: Config, size: Positive, largest: Positive)
    requires c.n == 1 && size <= largest
    ensures size <= largest * c.depth
    ensures Slots(size, largest * c.depth) >= Span(c)
  {
    var len := largest * c.depth;
    MulDistributes(largest, size, c.depth);
    if largest > size {
      MulAtLeast(largest - size, c.depth);
    }
    assert len >= size * c.depth;
    MulAtLeast(c.depth, size);
    var q := len / size;
    if q < c.depth {
      MulDistributes(c.depth, q, size);
      MulAtLeast(c.depth - q, size);
    }
  }
}
