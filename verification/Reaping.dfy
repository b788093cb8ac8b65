/**
 * Reaping is order-insensitive: once posting has stopped, the ledger after a bag of
 * successful records depends on the bag only, not on arrival order or poll batching.
 */
module Reaping {
  import opened Arithmetic
  import opened Assignment
  import opened Pipeline

  predicate Decodable(c: Config, ctxs: seq<nat>)
  {
    forall i :: 0 <= i < |ctxs| ==> 0 <= CtxJetty(c, ctxs[i]) < c.n
  }

  /** Account records one after the other. */
  function AccountedAll(c: Config, s: State, ctxs: seq<nat>): (s': State)
    requires Shaped(c, s) && Decodable(c, ctxs)
    ensures Shaped(c, s')
    decreases |ctxs|
  {
    if ctxs == [] then s
    else AccountedAll(c, Accounted(c, s, ctxs[0]), ctxs[1..])
  }

  lemma AccountCommutes(c: Config, s: State, a: nat, b: nat)
    requires Shaped(c, s) && 0 <= CtxJetty(c, a) < c.n && 0 <= CtxJetty(c, b) < c.n
    ensures Accounted(c, Accounted(c, s, a), b) == Accounted(c, Accounted(c, s, b), a)
  {
    var ja, jb := CtxJetty(c, a), CtxJetty(c, b);
    var ta, tb := CtxTarget(c, s.posted, a), CtxTarget(c, s.posted, b);
    if ja == jb {
      assert s.done[ja := ta][ja := tb] == s.done[ja := tb];
      assert s.done[ja := tb][ja := ta] == s.done[ja := ta];
    } else {
      assert s.done[ja := ta][jb := tb] == s.done[jb := tb][ja := ta];
    }
  }

  /** A record can be pulled to the front of a batch. */
  lemma {:induction false} PullToFront(c: Config, s: State, ctxs: seq<nat>, k: nat)
    requires Shaped(c, s) && Decodable(c, ctxs) && k < |ctxs|
    ensures AccountedAll(c, s, ctxs) == AccountedAll(c, Accounted(c, s, ctxs[k]), ctxs[..k] + ctxs[k + 1..])
    decreases k
  {
    if k == 0 {
      assert ctxs[..0] + ctxs[1..] == ctxs[1..];
    } else {
      var a, b := ctxs[0], ctxs[k];
      var rest := ctxs[1..];
      PullToFront(c, Accounted(c, s, a), rest, k - 1);
      assert rest[k - 1] == b;
      AccountCommutes(c, s, a, b);
      var others := ctxs[..k] + ctxs[k + 1..];
      assert others[0] == a && others[1..] == rest[..k - 1] + rest[k..];
    }
  }

  /** Two bags with the same first record agree on the rest. */
  lemma RemoveShared(p: seq<nat>, q: seq<nat>, k: nat)
    requires p != [] && k < |q| && q[k] == p[0] && multiset(p) == multiset(q)
    ensures multiset(p[1..]) == multiset(q[..k] + q[k + 1..])
  {
    assert p == [p[0]] + p[1..];
    assert q == q[..k] + [q[k]] + q[k + 1..];
    assert multiset(p[1..]) == multiset(p) - multiset{p[0]};
    assert multiset(q[..k] + q[k + 1..]) == multiset(q) - multiset{q[k]};
  }

  /** Any permutation of the same records gives the same ledger. */
  lemma {:induction false} OrderInsensitive(c: Config, s: State, p: seq<nat>, q: seq<nat>)
    requires Shaped(c, s) && Decodable(c, p) && Decodable(c, q)
    requires multiset(p) == multiset(q)
    ensures AccountedAll(c, s, p) == AccountedAll(c, s, q)
    decreases |p|
  {
    assert |multiset(p)| == |p| && |multiset(q)| == |q|;
    if p != [] {
      assert p[0] in multiset(q);
      var k :| 0 <= k < |q| && q[k] == p[0];
      RemoveShared(p, q, k);
      PullToFront(c, s, q, k);
      OrderInsensitive(c, Accounted(c, s, p[0]), p[1..], q[..k] + q[k + 1..]);
    }
  }

  /** Splitting the records into two polls changes nothing. */
  lemma {:induction false} BatchInsensitive(c: Config, s: State, p: seq<nat>, q: seq<nat>)
    requires Shaped(c, s) && Decodable(c, p) && Decodable(c, q) && Decodable(c, p + q)
    ensures AccountedAll(c, s, p + q) == AccountedAll(c, AccountedAll(c, s, p), q)
    decreases |p|
  {
    if p == [] {
      assert p + q == q;
    } else {
      assert (p + q)[1..] == p[1..] + q;
      BatchInsensitive(c, Accounted(c, s, p[0]), p[1..], q);
    }
  }

  function Flatten(batches: seq<seq<nat>>): (ctxs: seq<nat>)
  {
    if batches == [] then [] else batches[0] + Flatten(batches[1..])
  }

  predicate AllDecodable(c: Config, batches: seq<seq<nat>>)
  {
    forall i :: 0 <= i < |batches| ==> Decodable(c, batches[i])
  }

  /** The pass's own loop: poll a batch, account its records, poll again. */
  function AccountedBatches(c: Config, s: State, batches: seq<seq<nat>>): (s': State)
    requires Shaped(c, s) && AllDecodable(c, batches)
    decreases |batches|
  {
    if batches == [] then s
    else AccountedBatches(c, AccountedAll(c, s, batches[0]), batches[1..])
  }

  lemma {:induction false} FlattenDecodable(c: Config, batches: seq<seq<nat>>)
    requires AllDecodable(c, batches)
    ensures Decodable(c, Flatten(batches))
  {
    if batches != [] {
      FlattenDecodable(c, batches[1..]);
    }
  }

  lemma {:induction false} BatchesAreOneBatch(c: Config, s: State, batches: seq<seq<nat>>)
    requires Shaped(c, s) && AllDecodable(c, batches)
    ensures Decodable(c, Flatten(batches))
    ensures AccountedBatches(c, s, batches) == AccountedAll(c, s, Flatten(batches))
    decreases |batches|
  {
    FlattenDecodable(c, batches);
    if batches != [] {
      FlattenDecodable(c, batches[1..]);
      BatchesAreOneBatch(c, AccountedAll(c, s, batches[0]), batches[1..]);
      BatchInsensitive(c, s, batches[0], Flatten(batches[1..]));
    }
  }

  /** Two ways of polling the same bag of records, in any order and batching, agree. */
  lemma ReapingIsOrderInsensitive(c: Config, s: State, b: seq<seq<nat>>, b': seq<seq<nat>>)
    requires Shaped(c, s) && AllDecodable(c, b) && AllDecodable(c, b')
    requires multiset(Flatten(b)) == multiset(Flatten(b'))
    ensures AccountedBatches(c, s, b) == AccountedBatches(c, s, b')
  {
    BatchesAreOneBatch(c, s, b);
    BatchesAreOneBatch(c, s, b');
    OrderInsensitive(c, s, Flatten(b), Flatten(b'));
  }

  /** Fences of distinct jettys and ops below the fence space never share a user_ctx reading. */
  lemma CtxDecodesUniquely(c: Config, j: nat, k: nat, op: nat)
    requires j < MAX_JETTIES && k < MAX_JETTIES && op < FENCE_CTX_MIN
    ensures CtxJetty(c, FenceRequest(j).ctx) == j
    ensures FenceRequest(j).ctx == FenceRequest(k).ctx <==> j == k
    ensures FenceRequest(j).ctx != op
    ensures CtxJetty(c, op) == OpJetty(op, c.n, c.list)
    ensures FenceRequest(j).ctx == MAX_USIZE - j && op + 64 <= MAX_USIZE
  {
  }
}
