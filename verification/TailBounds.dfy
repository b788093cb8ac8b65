/**
 * How much of the pipeline the unsignaled tails can take at most: a closed form in the
 * number of jettys, the chunk size and the moderation, reached within one period of the
 * op stream. It turns the stall condition into a comparison with the depth.
 */
module TailBounds {
  import opened Sums
  import opened Arithmetic
  import opened Assignment
  import opened Pipeline
  import opened Progress
  import opened Stalls

  // ---------------------------------------------------------------- divisors

  function Gcd(a: Positive, b: nat): (g: Positive)
    decreases b
  {
    if b == 0 then a else Gcd(b, a % b)
  }

  lemma IsMultiple(x: int, q: int, d: Positive)
    requires x == q * d
    ensures x % d == 0
  {
    DivUnique(x, d, q, 0);
  }

  lemma Quotient(x: int, d: Positive) returns (q: int)
    requires x % d == 0
    ensures x == q * d
  {
    q := x / d;
  }

  lemma SumDivides(x: int, y: int, d: Positive)
    requires x % d == 0 && y % d == 0
    ensures (x + y) % d == 0 && (x - y) % d == 0
  {
    var a := Quotient(x, d);
    var b := Quotient(y, d);
    MulDistributes(a, b, d);
    IsMultiple(x + y, a + b, d);
    IsMultiple(x - y, a - b, d);
  }

  lemma MulAssociates(q: int, a: int, d: int)
    ensures q * (a * d) == (q * a) * d
  {
  }

  lemma ProductDivides(q: int, x: int, d: Positive)
    requires x % d == 0
    ensures (q * x) % d == 0
  {
    var a := Quotient(x, d);
    MulAssociates(q, a, d);
    IsMultiple(q * x, q * a, d);
  }

  /** In a division by a multiple of `g`, number and remainder are multiples of `g` together. */
  lemma DivisionKeepsDivisor(v: int, k: int, m: Positive, w: int, g: Positive)
    requires v == k * m + w && m % g == 0
    ensures v % g == 0 <==> w % g == 0
  {
    ProductDivides(k, m, g);
    if v % g == 0 {
      SumDivides(v, k * m, g);
    } else if w % g == 0 {
      SumDivides(k * m, w, g);
    }
  }

  lemma {:induction false} GcdDivides(a: Positive, b: nat)
    ensures a % Gcd(a, b) == 0 && b % Gcd(a, b) == 0
    decreases b
  {
    if b == 0 {
      IsMultiple(a, 1, a);
      IsMultiple(0, 0, a);
    } else {
      GcdDivides(b, a % b);
      DivisionKeepsDivisor(a, a / b, b, a % b, Gcd(b, a % b));
    }
  }

  /** The greatest common divisor is a combination of the two numbers. */
  lemma {:induction false} Bezout(a: Positive, b: nat) returns (x: int, y: int)
    ensures x * a + y * b == Gcd(a, b)
    decreases b
  {
    if b == 0 {
      x, y := 1, 0;
    } else {
      var u, v := Bezout(b, a % b);
      x, y := v, u - v * (a / b);
      var q, r := a / b, a % b;
      assert a == q * b + r;
      assert v * a == v * (q * b + r) == v * (q * b) + v * r;
      assert v * (q * b) == (v * q) * b;
      MulDistributes(u, v * q, b);
    }
  }

  /** A multiple of `g` below another one is below it by at least `g`. */
  lemma MultipleBelow(v: nat, m: Positive, g: Positive)
    requires v % g == 0 && m % g == 0 && v < m
    ensures v <= m - g
  {
    var a := Quotient(m, g);
    var b := Quotient(v, g);
    MulDistributes(a, b, g);
    PositiveFactor(a - b, g);
    MulAtLeast(a - b, g);
  }

  lemma PositiveFactor(d: int, g: Positive)
    requires d * g > 0
    ensures d >= 1
  {
    if d < 0 {
      MulAtLeast(-d, g);
    }
  }

  lemma RemainderDivides(v: nat, m: Positive, g: Positive)
    requires v % g == 0 && m % g == 0
    ensures (v % m) % g == 0
  {
    DivisionKeepsDivisor(v, v / m, m, v % m, g);
  }

  // ---------------------------------------------------------------- the largest tails

  /** The common divisor of chunk size and moderation. */
  function Grain(c: Config): (g: Positive)
  {
    Gcd(c.list, c.cqMod)
  }

  /** One jetty can have all but one op of a group, every other one all but `Grain` of them. */
  function LargestTails(c: Config): (t: int)
  {
    (c.n - 1) * (c.cqMod - Grain(c)) + (c.cqMod - 1)
  }

  /** The op stream repeats its pattern of chunks and groups after this many ops. */
  function Period(c: Config): (p: int)
  {
    (c.cqMod / Grain(c)) * (c.list * c.n)
  }

  /** All jettys but the one the stream is on have whole chunks, so their tails are multiples of `Grain`. */
  lemma OtherTail(c: Config, k: nat, j: nat)
    requires j < c.n && j != OpJetty(k, c.n, c.list)
    ensures CountOn(k, j, c.n, c.list) % c.cqMod <= c.cqMod - Grain(c)
  {
    var q, g := Cycle(k, c.n, c.list), Grain(c);
    GcdDivides(c.list, c.cqMod);
    var chunks := if j < OpJetty(k, c.n, c.list) then q + 1 else q;
    MulDistributes(q, 1, c.list);
    var v := CountOn(k, j, c.n, c.list);
    assert v == chunks * c.list;
    ProductDivides(chunks, c.list, g);
    RemainderDivides(v, c.cqMod, g);
    MultipleBelow(v % c.cqMod, c.cqMod, g);
  }

  lemma TailsAtMost(c: Config, k: nat)
    ensures Sum(Tails(c, k)) <= LargestTails(c)
  {
    hide Grain, CountOn, OpJetty;
    var t, at, g := Tails(c, k), OpJetty(k, c.n, c.list), Grain(c);
    GrainFits(c);
    var most: nat := c.cqMod - g;
    forall j: nat | j < c.n && j != at ensures t[j] <= most {
      OtherTail(c, k, j);
    }
    SumUpdate(t, at, most);
    SumAtMost(t[at := most], most);
    MulDistributes(c.n, 1, most);
  }

  lemma GrainFits(c: Config)
    ensures 1 <= Grain(c) <= c.cqMod && Grain(c) <= c.list
  {
    GcdDivides(c.list, c.cqMod);
    AtMostMultiple(c.cqMod, Grain(c));
    AtMostMultiple(c.list, Grain(c));
  }

  lemma AtMostMultiple(m: Positive, g: Positive)
    requires m % g == 0
    ensures g <= m && m / g >= 1
  {
    PositiveFactor(m / g, g);
    MulAtLeast(m / g, g);
  }

  /** Some number of rounds below `cqMod / Grain` puts every jetty `Grain` ops short of a group. */
  lemma RoundsShortOfGroup(list: Positive, m: Positive) returns (q: nat)
    ensures var g := Gcd(list, m); q < m / g && (q * list) % m == m - g
  {
    var g := Gcd(list, m);
    GcdDivides(list, m);
    var x, y := Bezout(list, m);
    AtMostMultiple(m, g);
    var period: Positive := m / g;
    var z := -x / period;
    q := -x % period;
    assert -x == z * period + q;
    var scaled := list / g;
    ShortOfGroup(list, m, g, x, y, z, q, scaled);
    DivUnique(q * list, m, y - z * scaled - 1, m - g);
  }

  lemma ShortOfGroup(list: int, m: int, g: int, x: int, y: int, z: int, q: int, scaled: int)
    requires g > 0 && m % g == 0 && list == scaled * g
    requires x * list + y * m == g && -x == z * (m / g) + q
    ensures q * list == (y - z * scaled - 1) * m + (m - g)
  {
    var period := m / g;
    assert q == -x - z * period;
    MulDistributes(-x, z * period, list);
    assert (-x) * list == y * m - g;
    assert (z * period) * list == z * (period * (scaled * g)) == z * (scaled * (period * g)) == (z * scaled) * m;
    MulDistributes(y, z * scaled, m);
    MulDistributes(y - z * scaled, 1, m);
  }

  /** The op `o` of the first chunk of round `q`: who has how many whole chunks. */
  lemma CountsInFirstChunk(c: Config, q: nat, o: nat, j: nat)
    requires o < c.list && j < c.n && q * (c.list * c.n) >= 0
    ensures CountOn(q * (c.list * c.n) + o, j, c.n, c.list) == q * c.list + (if j == 0 then o else 0)
  {
    Compose(q * (c.list * c.n) + o, q, 0, o, c.n, c.list);
  }

  lemma TailsInFirstChunk(c: Config, q: nat, j: nat)
    requires (q * c.list) % c.cqMod == c.cqMod - Grain(c) && Grain(c) <= c.list && j < c.n
    requires q * (c.list * c.n) >= 0 && q * c.list >= 0
    ensures CountOn(q * (c.list * c.n) + (Grain(c) - 1), j, c.n, c.list) % c.cqMod
            == if j == 0 then c.cqMod - 1 else c.cqMod - Grain(c)
  {
    hide CountOn, Gcd;
    CountsInFirstChunk(c, q, Grain(c) - 1, j);
    AddBelow(q * c.list, Grain(c) - 1, c.cqMod);
  }

  lemma NonNegativeProduct(q: nat, d: nat)
    ensures q * d >= 0
  {
  }

  /** The bound is reached, within the first period. */
  lemma TailsReachMost(c: Config) returns (k: nat)
    ensures k < Period(c) && Sum(Tails(c, k)) == LargestTails(c)
  {
    hide Gcd, CountOn;
    GrainFits(c);
    var q := RoundsShortOfGroup(c.list, c.cqMod);
    MulPositive(c.list, c.n);
    NonNegativeProduct(q, c.list * c.n);
    NonNegativeProduct(q, c.list);
    PositionInPeriod(c, q, Grain(c) - 1);
    k := q * (c.list * c.n) + (Grain(c) - 1);
    var t := Tails(c, k);
    forall j: nat | j < c.n
      ensures t[j] == if j == 0 then c.cqMod - 1 else c.cqMod - Grain(c)
    {
      TailsInFirstChunk(c, q, j);
    }
    SumAllButFirst(t, c.cqMod - Grain(c), c.cqMod - 1);
  }

  lemma SumAllButFirst(t: seq<nat>, rest: nat, first: nat)
    requires t != [] && forall j :: 0 <= j < |t| ==> t[j] == if j == 0 then first else rest
    ensures Sum(t) == (|t| - 1) * rest + first
  {
    SumConstant(t[0 := rest], rest);
    SumUpdate(t, 0, rest);
    MulDistributes(|t|, 1, rest);
  }

  lemma PositionInPeriod(c: Config, q: nat, o: nat)
    requires q < c.cqMod / Grain(c) && o < c.list
    ensures q * (c.list * c.n) + o < Period(c)
  {
    MulPositive(c.list, c.n);
    var round, left := c.list * c.n, c.cqMod / Grain(c) - q;
    MulDistributes(c.cqMod / Grain(c), q, round);
    MulAtLeast(left, round);
    MulDistributes(c.n, 1, c.list);
    if c.n > 1 {
      MulAtLeast(c.n - 1, c.list);
    }
  }

  /** Adding less than is missing to the next multiple adds to the remainder. */
  lemma AddBelow(v: nat, o: nat, m: Positive)
    requires v % m + o < m
    ensures (v + o) % m == v % m + o
  {
    DivUnique(v + o, m, v / m, v % m + o);
  }

  lemma {:induction false} SumConstant(s: seq<nat>, v: nat)
    requires forall j :: 0 <= j < |s| ==> s[j] == v
    ensures Sum(s) == |s| * v
  {
    if s != [] {
      SumConstant(s[..|s| - 1], v);
      MulDistributes(|s| - 1, 1, v);
    }
  }

  // ---------------------------------------------------------------- stalling by depth

  /** Above the bound nothing ever fills the pipeline, however long the pass. */
  lemma DepthNeverFilled(c: Config, last: nat)
    requires c.depth > LargestTails(c)
    ensures NeverFills(c, last)
  {
    hide LargestTails, Tails;
    forall k: nat | k <= last ensures !TailsFill(c, k) {
      TailsAtMost(c, k);
    }
  }

  /**
   * A pass that may run for at least one period can stall if and only if its depth is at
   * most `(n - 1) * (cqMod - gcd(list, cqMod)) + cqMod - 1`, be it a count or a deadline.
   */
  lemma StallsByDepth(c: Config, stop: Stop)
    requires c.Valid() && Period(c) <= LastPosition(stop)
    ensures CanStall(c, stop) <==> c.depth <= LargestTails(c)
  {
    hide CanStall, LargestTails, Period, Tails;
    StallsExactlyWhenTailsFill(c, stop);
    if c.depth <= LargestTails(c) {
      var k := TailsReachMost(c);
      assert TailsFill(c, k);
    } else {
      DepthNeverFilled(c, LastPosition(stop));
    }
  }

  /** And an op-count pass of at least one period can finish if and only if it is deeper than that. */
  lemma FinishesByDepth(c: Config, ops: nat)
    requires c.Valid() && Period(c) <= ops <= FENCE_CTX_MIN
    ensures CanFinish(c, Ops(ops)) <==> c.depth > LargestTails(c)
  {
    hide CanStall, CanFinish, LargestTails, Period, NeverFills;
    StallsByDepth(c, Ops(ops));
    FinishesExactlyWhenTailsFit(c, ops);
  }

  /** Chunks of whole groups: the documented clamp of the moderation to the depth is enough. */
  lemma AlignedChunksNeverStall(c: Config, stop: Stop)
    requires c.Valid() && c.list % c.cqMod == 0 && c.cqMod <= c.depth
    ensures !CanStall(c, stop)
  {
    hide CanStall, NeverFills;
    assert Gcd(c.list, c.cqMod) == Gcd(c.cqMod, 0) == c.cqMod;
    assert LargestTails(c) == c.cqMod - 1;
    DepthNeverFilled(c, LastPosition(stop));
    StallsExactlyWhenTailsFill(c, stop);
  }

  /** Single-op chunks have the worst tails there are: `n * (cqMod - 1)`. */
  lemma SingleOpChunks(c: Config)
    requires c.list == 1
    ensures Grain(c) == 1 && LargestTails(c) == c.n * (c.cqMod - 1)
  {
    GrainFits(c);
    MulDistributes(c.n, 1, c.cqMod - 1);
  }
}
