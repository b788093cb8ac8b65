/**
 * How the bandwidth pass spreads one unbounded op stream over `n` jettys: runs of
 * `list` consecutive ops per jetty, cycling through the jettys.
 */
module Assignment {
  import opened Arithmetic
  import opened Sums

  /** Jetty of global op `i`. */
  function OpJetty(i: nat, n: Positive, list: Positive): (j: nat)
    ensures j < n
  {
    (i / list) % n
  }

  /** Rank of global op `i` within its own jetty's stream. */
  function OpRank(i: nat, n: Positive, list: Positive): (r: nat)
  {
    Cycle(i, n, list) * list + i % list
  }

  /** Number of full rounds over all jettys that precede op `i`. */
  function Cycle(i: nat, n: Positive, list: Positive): (q: nat)
  {
    MulPositive(list, n);
    DivNonNegative(i, list * n);
    i / (list * n)
  }

  /** The global op with rank `r` on jetty `j`: the inverse of (`OpJetty`, `OpRank`). */
  function OpIndex(j: nat, r: nat, n: Positive, list: Positive): (i: nat)
  {
    (r / list) * (list * n) + j * list + r % list
  }

  /** How many of the ops below `i` run on jetty `j`. */
  function CountOn(i: nat, j: nat, n: Positive, list: Positive): (c: nat)
  {
    var at := OpJetty(i, n, list);
    Cycle(i, n, list) * list + (if j < at then list else if j == at then i % list else 0)
  }

  lemma MulRegroup(q: int, n: int, j: int, list: int)
    ensures (q * n + j) * list == q * (list * n) + j * list
  {
    MulDistributes(q * n, j, list);
    assert (q * n) * list == q * (list * n);
  }

  /** An offset inside jetty `j`'s run stays inside one round. */
  lemma RunInsideRound(j: nat, o: nat, n: Positive, list: Positive)
    requires j < n && o < list
    ensures 0 <= j * list + o < list * n
  {
    MulDistributes(n, j, list);
    MulAtLeast(n - j, list);
    if j > 0 {
      MulAtLeast(j, list);
    }
  }

  /** Every op index splits into a round, a jetty and an offset in that jetty's run. */
  lemma Decompose(i: nat, n: Positive, list: Positive)
    ensures i == Cycle(i, n, list) * (list * n) + OpJetty(i, n, list) * list + i % list
  {
    var a, o := i / list, i % list;
    var q, j := a / n, a % n;
    MulRegroup(q, n, j, list);
    RunInsideRound(j, o, n, list);
    MulPositive(list, n);
    DivUnique(i, list * n, q, j * list + o);
  }

  /** A round, a jetty and an offset determine the op index they came from. */
  lemma Compose(i: nat, q: nat, j: nat, o: nat, n: Positive, list: Positive)
    requires j < n && o < list
    requires i == q * (list * n) + j * list + o
    ensures OpJetty(i, n, list) == j && i % list == o && Cycle(i, n, list) == q
  {
    MulRegroup(q, n, j, list);
    DivUnique(i, list, q * n + j, o);
    assert q * n + j >= 0;
    DivUnique(q * n + j, n, q, j);
    RunInsideRound(j, o, n, list);
    MulPositive(list, n);
    DivUnique(i, list * n, q, j * list + o);
  }

  /** Op assignment is one-to-one: the index can be recovered from jetty and rank. */
  lemma IndexOfAssigned(i: nat, n: Positive, list: Positive)
    ensures OpIndex(OpJetty(i, n, list), OpRank(i, n, list), n, list) == i
  {
    Decompose(i, n, list);
    var q, o := Cycle(i, n, list), i % list;
    DivUnique(OpRank(i, n, list), list, q, o);
  }

  /** Op assignment is onto: every (jetty, rank) pair belongs to some op. */
  lemma AssignedOfIndex(j: nat, r: nat, n: Positive, list: Positive)
    requires j < n
    ensures OpJetty(OpIndex(j, r, n, list), n, list) == j
    ensures OpRank(OpIndex(j, r, n, list), n, list) == r
  {
    var i := OpIndex(j, r, n, list);
    Compose(i, r / list, j, r % list, n, list);
    assert r == (r / list) * list + r % list;
  }

  lemma NextIndex(q: nat, at: nat, o: nat, n: Positive, list: Positive)
    ensures q * (list * n) + at * list + o + 1 == q * (list * n) + at * list + (o + 1)
    ensures o + 1 == list ==> q * (list * n) + at * list + o + 1 == q * (list * n) + (at + 1) * list
    ensures o + 1 == list && at + 1 == n ==> q * (list * n) + at * list + o + 1 == (q + 1) * (list * n)
  {
    MulDistributes(at, 1, list);
    MulDistributes(q, 1, list * n);
  }

  /** The op after `i` is the next offset, or the next jetty's first, or the next round's first. */
  lemma NextOp(i: nat, n: Positive, list: Positive)
    ensures var q, at, o := Cycle(i, n, list), OpJetty(i, n, list), i % list;
            var q', at', o' := Cycle(i + 1, n, list), OpJetty(i + 1, n, list), (i + 1) % list;
            if o + 1 < list then q' == q && at' == at && o' == o + 1
            else if at + 1 < n then q' == q && at' == at + 1 && o' == 0
            else q' == q + 1 && at' == 0 && o' == 0
  {
    Decompose(i, n, list);
    var q, at, o := Cycle(i, n, list), OpJetty(i, n, list), i % list;
    hide Cycle, OpJetty;
    NextIndex(q, at, o, n, list);
    if o + 1 < list {
      Compose(i + 1, q, at, o + 1, n, list);
    } else if at + 1 < n {
      Compose(i + 1, q, at + 1, 0, n, list);
    } else {
      Compose(i + 1, q + 1, 0, 0, n, list);
    }
  }

  /** The stream starts on the first jetty, and moves on to the next, round and round, after every `list` ops. */
  lemma JettyWalk(i: nat, n: Positive, list: Positive)
    ensures OpJetty(0, n, list) == 0
    ensures OpJetty(i + 1, n, list) ==
      if (i + 1) % list != 0 then OpJetty(i, n, list)
      else if OpJetty(i, n, list) + 1 < n then OpJetty(i, n, list) + 1 else 0
  {
    Compose(0, 0, 0, 0, n, list);
    NextOp(i, n, list);
  }

  /** Posting op `i` adds one to its own jetty's count and to no other. */
  lemma CountStep(i: nat, j: nat, n: Positive, list: Positive)
    requires j < n
    ensures CountOn(i + 1, j, n, list)
         == CountOn(i, j, n, list) + (if j == OpJetty(i, n, list) then 1 else 0)
  {
    NextOp(i, n, list);
    MulDistributes(Cycle(i, n, list), 1, list);
  }

  lemma CountZero(j: nat, n: Positive, list: Positive)
    requires j < n
    ensures CountOn(0, j, n, list) == 0
  {
    Compose(0, 0, 0, 0, n, list);
  }

  /** The ops below `i` that run on jetty `j`. */
  ghost function OpsOn(i: nat, j: nat, n: Positive, list: Positive): (s: set<nat>)
  {
    set k: nat | k < i && OpJetty(k, n, list) == j
  }

  /** `CountOn` really counts: it is the number of earlier ops on that jetty. */
  lemma {:induction false} CountIsCardinality(i: nat, j: nat, n: Positive, list: Positive)
    requires j < n
    ensures CountOn(i, j, n, list) == |OpsOn(i, j, n, list)|
  {
    if i == 0 {
      CountZero(j, n, list);
      assert OpsOn(0, j, n, list) == {};
    } else {
      CountIsCardinality(i - 1, j, n, list);
      CountStep(i - 1, j, n, list);
      var before := OpsOn(i - 1, j, n, list);
      if OpJetty(i - 1, n, list) == j {
        assert OpsOn(i, j, n, list) == before + {i - 1};
      } else {
        assert OpsOn(i, j, n, list) == before;
      }
    }
  }

  /** Ranks are dense and increasing: an op's rank is the number of earlier ops on its jetty. */
  lemma RankCountsEarlierOps(i: nat, n: Positive, list: Positive)
    ensures OpRank(i, n, list) == |OpsOn(i, OpJetty(i, n, list), n, list)|
  {
    CountIsCardinality(i, OpJetty(i, n, list), n, list);
  }

  /** Later ops on the same jetty have larger ranks. */
  lemma RankIncreases(i: nat, k: nat, n: Positive, list: Positive)
    requires i < k && OpJetty(i, n, list) == OpJetty(k, n, list)
    ensures OpRank(i, n, list) < OpRank(k, n, list)
  {
    var j := OpJetty(i, n, list);
    CountGrows(i + 1, k, j, n, list);
    CountStep(i, j, n, list);
  }

  lemma {:induction false} CountGrows(i: nat, k: nat, j: nat, n: Positive, list: Positive)
    requires i <= k && j < n
    ensures CountOn(i, j, n, list) <= CountOn(k, j, n, list)
    decreases k - i
  {
    if i < k {
      CountStep(i, j, n, list);
      CountGrows(i + 1, k, j, n, list);
    }
  }

  /** One post-list window stays on one jetty. */
  lemma ChunkStaysOnJetty(i: nat, k: nat, n: Positive, list: Positive)
    requires i % list + k < list
    ensures OpJetty(i + k, n, list) == OpJetty(i, n, list)
  {
    var a, o := i / list, i % list;
    DivUnique(i + k, list, a, o + k);
  }

  /** Per-jetty counts of the first `i` ops. */
  function Counts(i: nat, n: Positive, list: Positive): (s: seq<nat>)
    ensures |s| == n
  {
    seq(n, (j: nat) => CountOn(i, j, n, list))
  }

  lemma CountsStep(i: nat, n: Positive, list: Positive)
    ensures var j := OpJetty(i, n, list);
            Counts(i + 1, n, list) == Counts(i, n, list)[j := OpRank(i, n, list) + 1]
  {
    var at := OpJetty(i, n, list);
    var before, after := Counts(i, n, list), Counts(i + 1, n, list);
    forall j: nat | j < n
      ensures after[j] == before[at := OpRank(i, n, list) + 1][j]
    {
      CountStep(i, j, n, list);
    }
  }

  /** The jettys share the stream without loss: the counts add up to the stream position. */
  lemma {:induction false} CountsSum(i: nat, n: Positive, list: Positive)
    ensures Sum(Counts(i, n, list)) == i
  {
    if i == 0 {
      forall j: nat | j < n ensures CountOn(0, j, n, list) == 0 {
        CountZero(j, n, list);
      }
      SumZero(Counts(0, n, list));
    } else {
      CountsSum(i - 1, n, list);
      CountsStep(i - 1, n, list);
      var j := OpJetty(i - 1, n, list);
      SumUpdate(Counts(i - 1, n, list), j, OpRank(i - 1, n, list) + 1);
    }
  }

  /**
   * Starting from an op of jetty `j`, no other jetty advances more than `list - 1` ops
   * further than jetty `j` does.
   */
  lemma JettysKeepPace(i: nat, k: nat, other: nat, n: Positive, list: Positive)
    requires i <= k && other < n
    ensures var j := OpJetty(i, n, list);
            CountOn(k, other, n, list) - CountOn(i, other, n, list)
            <= CountOn(k, j, n, list) - CountOn(i, j, n, list) + (list - 1)
  {
  }
}
