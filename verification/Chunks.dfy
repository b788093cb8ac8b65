/**
 * What a chunk of the pass really posts: one list entry per op, with its landing window, its
 * remote window, its user_ctx and its signal flag; and where the bytes end up.
 */
module Chunks {
  import opened Wrappers
  import opened Text
  import opened Arithmetic
  import opened Assignment
  import Pipeline
  import Windows
  import P = PostList

  /** The two transfer ends: the landing buffer, and the peer's segment of `segLen` bytes. */
  datatype Ends = Ends(landing: P.Segment, peer: P.Peer, remoteVa: nat, segLen: nat)
  {
    /** The landing buffer holds a window of this size, and is addressable. */
    predicate Fit(size: Positive) { size <= landing.len <= MAX_USIZE }
  }

  /** The entry of op `i`; the landing window is asked of the segment, which may refuse it. */
  function OpEntry(c: Pipeline.Config, b: Ends, size: Positive, i: nat): (r: Result<P.Entry, P.Error>)
  {
    var w := P.Window(b.landing, Windows.SlotOffset(i, size, b.landing.len), size);
    if w.Err? then Err(w.error)
    else
      var remote := b.remoteVa + Windows.SlotOffset(i, size, b.segLen);
      Ok(P.Entry(remote, w.value, i, Pipeline.Signaled(c, OpRank(i, c.n, c.list))))
  }

  /** The landing window is never refused. */
  lemma EntryIsGranted(c: Pipeline.Config, b: Ends, size: Positive, i: nat)
    requires b.Fit(size)
    ensures OpEntry(c, b, size, i).Ok?
  {
    Windows.WindowInBounds(i, size, b.landing.len);
  }

  function Granted(c: Pipeline.Config, b: Ends, size: Positive, i: nat): (e: P.Entry)
    requires b.Fit(size)
    ensures OpEntry(c, b, size, i) == Ok(e)
  {
    EntryIsGranted(c, b, size, i);
    OpEntry(c, b, size, i).value
  }

  function ChunkEntries(c: Pipeline.Config, b: Ends, size: Positive, start: nat, k: nat): (es: seq<P.Entry>)
    requires b.Fit(size)
    ensures |es| == k
  {
    seq(k, i requires 0 <= i < k => Granted(c, b, size, start + i))
  }

  lemma EntryAt(c: Pipeline.Config, b: Ends, size: Positive, start: nat, k: nat, i: nat)
    requires b.Fit(size) && i < k
    ensures OpEntry(c, b, size, start + i) == Ok(ChunkEntries(c, b, size, start, k)[i])
  {
    assert ChunkEntries(c, b, size, start, k)[i] == Granted(c, b, size, start + i);
  }

  /** The list carries the requests the pass counts with: user_ctx is the op's index, and only signaled ops ask for records. */
  lemma ChunkCarriesRequests(c: Pipeline.Config, op: P.Op, b: Ends, size: Positive, start: nat, k: nat, i: nat)
    requires b.Fit(size) && i < k
    ensures var r, q := P.Singles(op, b.peer, ChunkEntries(c, b, size, start, k))[i], Pipeline.OpRequest(c, start + i);
      && r.userCtx == q.ctx && r.tjetty == b.peer.tjetty
      && (P.HasBit(r.flag, 0x20) <==> q.signaled) && (P.HasBit(r.flag, 0x04) <==> q.signaled)
  {
    hide Windows.SlotOffset;
    EntryAt(c, b, size, start, k, i);
  }

  /** Where op `i` lands, or is fetched from, at the local end. */
  function LocalByte(b: Ends, size: Positive, i: nat, x: nat): (l: P.Loc)
  {
    P.Loc(P.Registered(b.landing.tseg), b.landing.va + Windows.SlotOffset(i, size, b.landing.len) + x)
  }

  function RemoteByte(b: Ends, size: Positive, i: nat, x: nat): (l: P.Loc)
  {
    P.Loc(P.Imported(b.peer.tseg), b.remoteVa + Windows.SlotOffset(i, size, b.segLen) + x)
  }

  /** At most as many ops as there are windows at the end that is written to. */
  predicate Apart(op: P.Op, b: Ends, size: Positive, k: nat)
  {
    k <= Windows.Slots(size, if op == P.Read then b.landing.len else b.segLen)
  }

  lemma ChunkLandsApart(c: Pipeline.Config, op: P.Op, b: Ends, size: Positive, start: nat, k: nat)
    requires b.Fit(size) && Apart(op, b, size, k)
    ensures P.LandsApart(op, b.peer, ChunkEntries(c, b, size, start, k))
  {
    hide Windows.SlotOffset, Windows.Slots, Pipeline.Signaled, OpRank;
    var es := ChunkEntries(c, b, size, start, k);
    forall i, j | 0 <= i < j < |es|
      ensures P.Disjoint(P.Target(op, b.peer, es[i]), P.Target(op, b.peer, es[j]))
    {
      EntryAt(c, b, size, start, k, i);
      EntryAt(c, b, size, start, k, j);
      Windows.WindowsDisjoint(start + i, start + j, size, if op == P.Read then b.landing.len else b.segLen);
    }
  }

  /**
   * A chunk of no more ops than there are windows moves every byte of every op between its
   * two windows, in whatever order the device performs the list.
   */
  lemma ChunkMovesBytes(c: Pipeline.Config, op: P.Op, b: Ends, size: Positive, start: nat, k: nat, mem: P.Memory, i: nat, x: nat)
    requires b.Fit(size) && Apart(op, b, size, k) && i < k && x < size
    ensures var after := P.PerformAll(mem, op, b.peer, ChunkEntries(c, b, size, start, k));
      if op == P.Read then after(LocalByte(b, size, start + i, x)) == mem(RemoteByte(b, size, start + i, x))
      else after(RemoteByte(b, size, start + i, x)) == mem(LocalByte(b, size, start + i, x))
  {
    hide Windows.SlotOffset, Windows.Slots, Pipeline.Signaled, OpRank, P.PerformAll;
    var es := ChunkEntries(c, b, size, start, k);
    EntryAt(c, b, size, start, k, i);
    ChunkLandsApart(c, op, b, size, start, k);
    var l := if op == P.Read then LocalByte(b, size, start + i, x) else RemoteByte(b, size, start + i, x);
    P.BatchLands(mem, op, b.peer, es, l);
    assert P.Covers(P.Target(op, b.peer, es[i]), l);
  }
}
