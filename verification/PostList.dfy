/**
 * One-sided posts: a single READ or WRITE with its scatter/gather list, and the batched
 * form that links an array of work requests through their `next` pointers.
 */
module PostList {

  import opened Wrappers
  import opened Text
  import opened Arithmetic

  /** A handle of memory registered here, or of memory imported from a peer. */
  datatype Handle = Registered(id: nat) | Imported(id: nat)

  /** A window of such memory: start, length, segment handle. */
  datatype Sge = Sge(addr: nat, len: nat, tseg: Handle)

  /** A local element is cut from memory registered here. */
  type LocalSge = g: Sge | g.tseg.Registered? witness Sge(0, 0, Registered(0))

  datatype Segment = Segment(va: nat, len: nat, tseg: nat)
  datatype Peer = Peer(tseg: nat, tjetty: nat)
  datatype Op = Read | Write

  /** One entry of a batch. */
  datatype Entry = Entry(remoteVa: nat, local: LocalSge, userCtx: nat, signaled: bool)

  /** A work request as the device understands it, every pointer followed. */
  datatype Request = Request(opcode: nat, flag: nat, tjetty: nat, userCtx: nat, src: seq<Sge>, dst: seq<Sge>)

  datatype Error = EmptyList | EmptySges | TooManySges | LengthOverflow | OutOfSegment

  function Opcode(op: Op): (r: nat)
  {
    match op
    case Read => 0x10
    case Write => 0x00
  }

  /** `COMPLETE_ENABLE | COMP_ORDER`, or nothing. */
  function Flag(signaled: bool): (r: nat)
  {
    if signaled then 0x20 + 0x04 else 0
  }

  // ---------------------------------------------------------------- windows

  /** The window `[off, off + len)` of a segment. */
  function Window(seg: Segment, off: nat, len: nat): (r: Result<LocalSge, Error>)
    ensures r.Ok? <==> off + len <= seg.len && off + len <= MAX_USIZE
    ensures r.Ok? ==>
      r.value.tseg == Registered(seg.tseg) && seg.va <= r.value.addr && r.value.addr + r.value.len <= seg.va + seg.len
  {
    if off + len > MAX_USIZE || off + len > seg.len then Err(OutOfSegment)
    else Ok(Sge(seg.va + off, len, Registered(seg.tseg)))
  }

  /** Byte for byte, the window is the part of the segment that was asked for. */
  lemma WindowBytes(seg: Segment, off: nat, len: nat, l: Loc)
    requires Window(seg, off, len).Ok?
    ensures Covers(Window(seg, off, len).value, l)
      <==> l.tseg == Registered(seg.tseg) && seg.va + off <= l.addr < seg.va + off + len
  {
  }

  /** The sum of the lengths, unless some partial sum leaves 32 bits. */
  function Total(local: seq<Sge>, sum: nat): (r: Result<nat, Error>)
  {
    if local == [] then Ok(sum)
    else if sum + local[0].len > MAX_U32 then Err(LengthOverflow)
    else Total(local[1..], sum + local[0].len)
  }

  function Length(sges: seq<Sge>): (r: nat)
  {
    if sges == [] then 0 else sges[0].len + Length(sges[1..])
  }

  lemma {:induction false} TotalIsLength(local: seq<Sge>, sum: nat)
    ensures Total(local, sum).Ok? ==> Total(local, sum).value == sum + Length(local)
    ensures sum <= MAX_U32 ==> (Total(local, sum).Ok? <==> sum + Length(local) <= MAX_U32)
    decreases |local|
  {
    if local != [] {
      TotalIsLength(local[1..], sum + local[0].len);
    }
  }

  // ---------------------------------------------------------------- single posts

  /** What one post hands to the device. */
  function Post(op: Op, maxSge: nat, peer: Peer, remoteVa: nat, local: seq<LocalSge>, userCtx: nat, signaled: bool)
    : (r: Result<Request, Error>)
  {
    if local == [] then Err(EmptySges)
    else if |local| > maxSge then Err(TooManySges)
    else
      var total := Total(local, 0);
      if total.Err? then Err(total.error)
      else
        var remote := [Sge(remoteVa, total.value, Imported(peer.tseg))];
        var (src, dst) := if op == Read then (remote, local) else (local, remote);
        Ok(Request(Opcode(op), Flag(signaled), peer.tjetty, userCtx, src, dst))
  }

  // ---------------------------------------------------------------- the linked list

  datatype Ptr = Null | At(i: nat)

  /** A pointer into the array of remote or of local elements. */
  datatype SgePtr = NoSge | Remote(i: nat) | Local(i: nat)
  datatype Sg = Sg(sge: SgePtr, count: nat)
  datatype Wr = Wr(opcode: nat, flag: nat, tjetty: nat, userCtx: nat, src: Sg, dst: Sg, next: Ptr)

  /** The three arrays a batch is laid out in. */
  datatype Image = Image(wrs: seq<Wr>, remote: seq<Sge>, local: seq<Sge>)

  predicate Readable(m: Image, sg: Sg)
  {
    match sg.sge
    case NoSge => sg.count == 0
    case Remote(i) => i + sg.count <= |m.remote|
    case Local(i) => i + sg.count <= |m.local|
  }

  function Elements(m: Image, sg: Sg): (r: seq<Sge>)
    requires Readable(m, sg)
  {
    match sg.sge
    case NoSge => []
    case Remote(i) => m.remote[i..i + sg.count]
    case Local(i) => m.local[i..i + sg.count]
  }

  /** Following `next` from `p` reads only valid elements, gives `reqs` in order, and ends in null. */
  ghost predicate Walks(m: Image, p: Ptr, reqs: seq<Request>)
    decreases |reqs|
  {
    if p.Null? then reqs == []
    else
      && p.i < |m.wrs| && reqs != []
      && var w := m.wrs[p.i];
         && Readable(m, w.src) && Readable(m, w.dst)
         && reqs[0] == Request(w.opcode, w.flag, w.tjetty, w.userCtx, Elements(m, w.src), Elements(m, w.dst))
         && Walks(m, w.next, reqs[1..])
  }

  /** A chain has one reading, so `Walks` says all that the device can see. */
  lemma {:induction false} WalkIsUnique(m: Image, p: Ptr, a: seq<Request>, b: seq<Request>)
    requires Walks(m, p, a) && Walks(m, p, b)
    ensures a == b
    decreases |a|
  {
    if !p.Null? {
      WalkIsUnique(m, m.wrs[p.i].next, a[1..], b[1..]);
      assert a == [a[0]] + a[1..] && b == [b[0]] + b[1..];
    }
  }

  /** The request a single post with one local element would issue for `e`. */
  function Single(op: Op, peer: Peer, e: Entry): (r: Request)
  {
    var remote := [Sge(e.remoteVa, e.local.len, Imported(peer.tseg))];
    var (src, dst) := if op == Read then (remote, [e.local]) else ([e.local], remote);
    Request(Opcode(op), Flag(e.signaled), peer.tjetty, e.userCtx, src, dst)
  }

  function Singles(op: Op, peer: Peer, reqs: seq<Entry>): (r: seq<Request>)
    ensures |r| == |reqs| && forall i :: 0 <= i < |reqs| ==> r[i] == Single(op, peer, reqs[i])
  {
    seq(|reqs|, i requires 0 <= i < |reqs| => Single(op, peer, reqs[i]))
  }

  /** The wired request number `i` of a batch of `n`. */
  function Wired(op: Op, peer: Peer, e: Entry, i: nat, n: nat): (w: Wr)
  {
    var (src, dst) := if op == Read then (Sg(Remote(i), 1), Sg(Local(i), 1)) else (Sg(Local(i), 1), Sg(Remote(i), 1));
    Wr(Opcode(op), Flag(e.signaled), peer.tjetty, e.userCtx, src, dst, if i + 1 < n then At(i + 1) else Null)
  }

  ghost predicate LaidOut(op: Op, peer: Peer, reqs: seq<Entry>, m: Image)
  {
    && |m.wrs| == |m.remote| == |m.local| == |reqs|
    && forall i :: 0 <= i < |reqs| ==>
      && m.wrs[i] == Wired(op, peer, reqs[i], i, |reqs|)
      && m.remote[i] == Sge(reqs[i].remoteVa, reqs[i].local.len, Imported(peer.tseg))
      && m.local[i] == reqs[i].local
  }

  lemma {:induction false} LaidOutWalks(op: Op, peer: Peer, reqs: seq<Entry>, m: Image, i: nat)
    requires LaidOut(op, peer, reqs, m) && i <= |reqs|
    ensures Walks(m, if i < |reqs| then At(i) else Null, Singles(op, peer, reqs)[i..])
    decreases |reqs| - i
  {
    if i < |reqs| {
      LaidOutWalks(op, peer, reqs, m, i + 1);
      var rs := Singles(op, peer, reqs);
      assert rs[i..][1..] == rs[i + 1..];
      assert m.remote[i..i + 1] == [m.remote[i]] && m.local[i..i + 1] == [m.local[i]];
    }
  }

  /**
   * The batched post: fill the three arrays, wire them through pointers, hand the first
   * request to the device, which sees exactly the single posts of the entries.
   */
  method Build(op: Op, peer: Peer, reqs: seq<Entry>) returns (r: Result<Image, Error>)
    ensures reqs == [] ==> r == Err(EmptyList)
    ensures reqs != [] ==> r.Ok? && Walks(r.value, At(0), Singles(op, peer, reqs))
  {
    hide Walks, Singles;
    if reqs == [] {
      return Err(EmptyList);
    }
    var remote := new Sge[|reqs|](_ => Sge(0, 0, Registered(0)));
    var local := new Sge[|reqs|](_ => Sge(0, 0, Registered(0)));
    var wrs := new Wr[|reqs|](_ => Unwired(op, peer, reqs[0]));
    Fill(op, peer, reqs, wrs, remote, local);
    Wire(op, peer, reqs, wrs);
    var image := Image(wrs[..], remote[..], local[..]);
    LaidOutWalks(op, peer, reqs, image, 0);
    assert Singles(op, peer, reqs)[0..] == Singles(op, peer, reqs);
    return Ok(image);
  }

  /** A work request with its scatter/gather pointers and `next` still null. */
  function Unwired(op: Op, peer: Peer, e: Entry): (w: Wr)
  {
    Wr(Opcode(op), Flag(e.signaled), peer.tjetty, e.userCtx, Sg(NoSge, 0), Sg(NoSge, 0), Null)
  }

  method Fill(op: Op, peer: Peer, reqs: seq<Entry>, wrs: array<Wr>, remote: array<Sge>, local: array<Sge>)
    requires wrs.Length == remote.Length == local.Length == |reqs| && remote != local
    modifies wrs, remote, local
    ensures forall k :: 0 <= k < |reqs| ==> wrs[k] == Unwired(op, peer, reqs[k])
    ensures forall k :: 0 <= k < |reqs| ==> remote[k] == Sge(reqs[k].remoteVa, reqs[k].local.len, Imported(peer.tseg))
    ensures forall k :: 0 <= k < |reqs| ==> local[k] == reqs[k].local
  {
    for i := 0 to |reqs|
      invariant forall k :: 0 <= k < i ==> wrs[k] == Unwired(op, peer, reqs[k])
      invariant forall k :: 0 <= k < i ==> remote[k] == Sge(reqs[k].remoteVa, reqs[k].local.len, Imported(peer.tseg))
      invariant forall k :: 0 <= k < i ==> local[k] == reqs[k].local
    {
      var e := reqs[i];
      remote[i] := Sge(e.remoteVa, e.local.len, Imported(peer.tseg));
      local[i] := e.local;
      wrs[i] := Unwired(op, peer, e);
    }
  }

  method Wire(op: Op, peer: Peer, reqs: seq<Entry>, wrs: array<Wr>)
    requires wrs.Length == |reqs| && forall k :: 0 <= k < |reqs| ==> wrs[k] == Unwired(op, peer, reqs[k])
    modifies wrs
    ensures forall k :: 0 <= k < |reqs| ==> wrs[k] == Wired(op, peer, reqs[k], k, |reqs|)
  {
    for i := 0 to |reqs|
      invariant forall k :: 0 <= k < i ==> wrs[k] == Wired(op, peer, reqs[k], k, |reqs|)
      invariant forall k :: i <= k < |reqs| ==> wrs[k] == Unwired(op, peer, reqs[k])
    {
      if op == Read {
        wrs[i] := wrs[i].(src := Sg(Remote(i), 1), dst := Sg(Local(i), 1));
      } else {
        wrs[i] := wrs[i].(src := Sg(Local(i), 1), dst := Sg(Remote(i), 1));
      }
      if i + 1 < |reqs| {
        wrs[i] := wrs[i].(next := At(i + 1));
      }
    }
  }

  /** Entries whose window length is a 32-bit number, as its type says. */
  predicate Fits(reqs: seq<Entry>)
  {
    forall i :: 0 <= i < |reqs| ==> reqs[i].local.len <= MAX_U32
  }

  /**
   * A batch refines the successive single posts of its entries, one local element each,
   * exactly when the jetty takes at least one element: the batch does not look at `maxSge`.
   */
  lemma BatchRefinesSinglePosts(op: Op, maxSge: nat, peer: Peer, reqs: seq<Entry>)
    requires Fits(reqs) && reqs != []
    ensures (forall i :: 0 <= i < |reqs| ==>
        Post(op, maxSge, peer, reqs[i].remoteVa, [reqs[i].local], reqs[i].userCtx, reqs[i].signaled)
        == Ok(Singles(op, peer, reqs)[i]))
      <==> maxSge >= 1
  {
    forall i | 0 <= i < |reqs| && maxSge >= 1
      ensures Post(op, maxSge, peer, reqs[i].remoteVa, [reqs[i].local], reqs[i].userCtx, reqs[i].signaled)
        == Ok(Singles(op, peer, reqs)[i])
    {
      assert Total([reqs[i].local], 0) == Ok(reqs[i].local.len);
    }
    if maxSge == 0 {
      assert Post(op, maxSge, peer, reqs[0].remoteVa, [reqs[0].local], reqs[0].userCtx, reqs[0].signaled) == Err(TooManySges);
    }
  }

  // ---------------------------------------------------------------- what a request does to memory

  /** A byte of a segment, local or imported. */
  datatype Loc = Loc(tseg: Handle, addr: nat)
  type Memory = Loc -> Byte

  predicate Covers(g: Sge, l: Loc)
  {
    l.tseg == g.tseg && g.addr <= l.addr < g.addr + g.len
  }

  predicate Disjoint(g: Sge, h: Sge)
  {
    g.tseg != h.tseg || g.addr + g.len <= h.addr || h.addr + h.len <= g.addr
  }

  predicate ApartFrom(g: Sge, hs: seq<Sge>)
  {
    forall i :: 0 <= i < |hs| ==> Disjoint(g, hs[i])
  }

  predicate PairwiseApart(gs: seq<Sge>)
  {
    gs != [] ==> ApartFrom(gs[0], gs[1..]) && PairwiseApart(gs[1..])
  }

  function Load(mem: Memory, g: Sge): (data: seq<Byte>)
    ensures |data| == g.len && forall i :: 0 <= i < g.len ==> data[i] == mem(Loc(g.tseg, g.addr + i))
  {
    seq(g.len, i requires 0 <= i < g.len => mem(Loc(g.tseg, g.addr + i)))
  }

  function Gather(mem: Memory, gs: seq<Sge>): (data: seq<Byte>)
    ensures |data| == Length(gs)
  {
    if gs == [] then [] else Load(mem, gs[0]) + Gather(mem, gs[1..])
  }

  function Store(mem: Memory, g: Sge, data: seq<Byte>): (mem': Memory)
    requires |data| == g.len
  {
    (l: Loc) => if Covers(g, l) && l.addr - g.addr < |data| then data[l.addr - g.addr] else mem(l)
  }

  function Scatter(mem: Memory, gs: seq<Sge>, data: seq<Byte>): (mem': Memory)
    requires |data| == Length(gs)
    decreases |gs|
  {
    if gs == [] then mem
    else Scatter(Store(mem, gs[0], data[..gs[0].len]), gs[1..], data[gs[0].len..])
  }

  /** One range of a peer's memory. */
  predicate IsRemote(gs: seq<Sge>)
  {
    |gs| == 1 && gs[0].tseg.Imported?
  }

  predicate IsLocal(gs: seq<Sge>)
  {
    forall i :: 0 <= i < |gs| ==> gs[i].tseg.Registered?
  }

  /**
   * What the device does with a request, decoded from its opcode: 0x10 reads one range of the
   * peer into local elements, 0x00 writes local elements into one range of the peer, in order
   * of the bytes. Nothing else moves data.
   */
  function Perform(mem: Memory, r: Request): (mem': Memory)
    requires Length(r.src) == Length(r.dst)
  {
    if (r.opcode == 0x10 && IsRemote(r.src) && IsLocal(r.dst))
      || (r.opcode == 0x00 && IsLocal(r.src) && IsRemote(r.dst))
    then Scatter(mem, r.dst, Gather(mem, r.src))
    else mem
  }

  /** Bit `b` of a flag word, `b` a power of two. */
  predicate HasBit(flag: nat, b: Positive)
  {
    flag / b % 2 == 1
  }

  /**
   * A signaled request asks for a record (0x20) that is ordered behind all earlier ones
   * (0x04), an unsignaled one for neither; none asks to be executed in order (0x01, 0x02, 0x08).
   */
  lemma FlagBits(op: Op, maxSge: nat, peer: Peer, remoteVa: nat, local: seq<LocalSge>, userCtx: nat, signaled: bool)
    ensures var r := Post(op, maxSge, peer, remoteVa, local, userCtx, signaled);
      r.Ok? ==>
        && (HasBit(r.value.flag, 0x20) <==> signaled) && (HasBit(r.value.flag, 0x04) <==> signaled)
        && !HasBit(r.value.flag, 0x01) && !HasBit(r.value.flag, 0x02) && !HasBit(r.value.flag, 0x08)
        && r.value.userCtx == userCtx && r.value.tjetty == peer.tjetty
  {
  }

  /** What is accepted moves as many bytes as it places, on a contiguous remote range. */
  lemma PostBalances(op: Op, maxSge: nat, peer: Peer, remoteVa: nat, local: seq<LocalSge>, userCtx: nat, signaled: bool)
    ensures var r := Post(op, maxSge, peer, remoteVa, local, userCtx, signaled);
      && (r.Ok? <==> 1 <= |local| <= maxSge && Length(local) <= MAX_U32)
      && (r.Ok? ==>
        && Length(r.value.src) == Length(r.value.dst)
        && (if op == Read then r.value.dst else r.value.src) == local
        && (if op == Read then r.value.src else r.value.dst) == [Sge(remoteVa, Length(local), Imported(peer.tseg))])
  {
    TotalIsLength(local, 0);
    assert Length([Sge(remoteVa, Length(local), Imported(peer.tseg))]) == Length(local);
  }

  /** Why a post or a window is refused. */
  lemma Refusals(op: Op, maxSge: nat, peer: Peer, remoteVa: nat, local: seq<LocalSge>, userCtx: nat, signaled: bool)
    ensures var r := Post(op, maxSge, peer, remoteVa, local, userCtx, signaled);
      && (local == [] ==> r == Err(EmptySges))
      && (local != [] && |local| > maxSge ==> r == Err(TooManySges))
      && (1 <= |local| <= maxSge && Length(local) > MAX_U32 ==> r == Err(LengthOverflow))
    ensures forall seg: Segment, off: nat, len: nat :: off + len > seg.len ==> Window(seg, off, len) == Err(OutOfSegment)
  {
    TotalIsLength(local, 0);
    TotalError(local, 0);
  }

  lemma {:induction false} TotalError(local: seq<Sge>, sum: nat)
    ensures Total(local, sum).Err? ==> Total(local, sum).error == LengthOverflow
    decreases |local|
  {
    if local != [] {
      TotalError(local[1..], sum + local[0].len);
    }
  }

  /** Nothing outside the destination changes. */
  lemma {:induction false} ScatterFrame(mem: Memory, gs: seq<Sge>, data: seq<Byte>, l: Loc)
    requires |data| == Length(gs) && forall i :: 0 <= i < |gs| ==> !Covers(gs[i], l)
    ensures Scatter(mem, gs, data)(l) == mem(l)
    decreases |gs|
  {
    if gs != [] {
      ScatterFrame(Store(mem, gs[0], data[..gs[0].len]), gs[1..], data[gs[0].len..], l);
    }
  }

  lemma LoadAfterScatter(mem: Memory, g: Sge, gs: seq<Sge>, data: seq<Byte>)
    requires |data| == Length(gs) && ApartFrom(g, gs)
    ensures Load(Scatter(mem, gs, data), g) == Load(mem, g)
  {
    forall i | 0 <= i < g.len
      ensures Load(Scatter(mem, gs, data), g)[i] == Load(mem, g)[i]
    {
      ScatterFrame(mem, gs, data, Loc(g.tseg, g.addr + i));
    }
  }

  lemma LoadStore(mem: Memory, g: Sge, data: seq<Byte>)
    requires |data| == g.len
    ensures Load(Store(mem, g, data), g) == data
  {
    forall i | 0 <= i < g.len
      ensures Load(Store(mem, g, data), g)[i] == data[i]
    {
      assert Covers(g, Loc(g.tseg, g.addr + i));
    }
  }

  lemma {:induction false} GatherScatter(mem: Memory, gs: seq<Sge>, data: seq<Byte>)
    requires |data| == Length(gs) && PairwiseApart(gs)
    ensures Gather(Scatter(mem, gs, data), gs) == data
    decreases |gs|
  {
    if gs != [] {
      var k := gs[0].len;
      var mem1 := Store(mem, gs[0], data[..k]);
      GatherScatter(mem1, gs[1..], data[k..]);
      LoadAfterScatter(mem1, gs[0], gs[1..], data[k..]);
      LoadStore(mem, gs[0], data[..k]);
      assert data == data[..k] + data[k..];
    }
  }

  /** A READ fills the local elements, in order, with the remote range. */
  lemma ReadDelivers(mem: Memory, maxSge: nat, peer: Peer, remoteVa: nat, local: seq<LocalSge>, userCtx: nat, signaled: bool)
    requires 1 <= |local| <= maxSge && Length(local) <= MAX_U32 && PairwiseApart(local)
    ensures var r := Post(Read, maxSge, peer, remoteVa, local, userCtx, signaled);
      && r.Ok? && Length(r.value.src) == Length(r.value.dst)
      && Gather(Perform(mem, r.value), local) == Load(mem, Sge(remoteVa, Length(local), Imported(peer.tseg)))
  {
    PostBalances(Read, maxSge, peer, remoteVa, local, userCtx, signaled);
    var remote := Sge(remoteVa, Length(local), Imported(peer.tseg));
    assert Gather(mem, [remote]) == Load(mem, remote);
    GatherScatter(mem, local, Load(mem, remote));
  }

  /** A WRITE fills the remote range with the local elements, in order. */
  lemma WriteDelivers(mem: Memory, maxSge: nat, peer: Peer, remoteVa: nat, local: seq<LocalSge>, userCtx: nat, signaled: bool)
    requires 1 <= |local| <= maxSge && Length(local) <= MAX_U32
    ensures var r := Post(Write, maxSge, peer, remoteVa, local, userCtx, signaled);
      && r.Ok? && Length(r.value.src) == Length(r.value.dst)
      && Load(Perform(mem, r.value), Sge(remoteVa, Length(local), Imported(peer.tseg))) == Gather(mem, local)
  {
    PostBalances(Write, maxSge, peer, remoteVa, local, userCtx, signaled);
    var remote := Sge(remoteVa, Length(local), Imported(peer.tseg));
    var data := Gather(mem, local);
    GatherScatter(mem, [remote], data);
    var after := Scatter(mem, [remote], data);
    assert Gather(after, [remote]) == Load(after, remote);
  }

  /** What was written comes back when the same remote range is read into other windows. */
  lemma WriteThenRead(mem: Memory, maxSge: nat, peer: Peer, remoteVa: nat, from: seq<LocalSge>, into: seq<LocalSge>, ctx: nat)
    requires 1 <= |from| <= maxSge && 1 <= |into| <= maxSge && PairwiseApart(into)
    requires Length(from) == Length(into) <= MAX_U32
    ensures var w := Post(Write, maxSge, peer, remoteVa, from, ctx, true);
      var r := Post(Read, maxSge, peer, remoteVa, into, ctx, true);
      && w.Ok? && r.Ok? && Length(w.value.src) == Length(w.value.dst) && Length(r.value.src) == Length(r.value.dst)
      && Gather(Perform(Perform(mem, w.value), r.value), into) == Gather(mem, from)
  {
    hide Perform, Post;
    WriteDelivers(mem, maxSge, peer, remoteVa, from, ctx, true);
    var w := Post(Write, maxSge, peer, remoteVa, from, ctx, true);
    ReadDelivers(Perform(mem, w.value), maxSge, peer, remoteVa, into, ctx, true);
  }

  // ---------------------------------------------------------------- a batch, in any order

  /** Where an entry's bytes come from ... */
  function Source(op: Op, peer: Peer, e: Entry): (g: Sge)
  {
    if op == Read then Sge(e.remoteVa, e.local.len, Imported(peer.tseg)) else e.local
  }

  /** ... and where they go. */
  function Target(op: Op, peer: Peer, e: Entry): (g: Sge)
  {
    if op == Read then e.local else Sge(e.remoteVa, e.local.len, Imported(peer.tseg))
  }

  /** The targets do not overlap. */
  predicate LandsApart(op: Op, peer: Peer, es: seq<Entry>)
  {
    forall i, j :: 0 <= i < j < |es| ==> Disjoint(Target(op, peer, es[i]), Target(op, peer, es[j]))
  }

  function PerformAll(mem: Memory, op: Op, peer: Peer, es: seq<Entry>): (mem': Memory)
    decreases |es|
  {
    if es == [] then mem
    else
      var r := Single(op, peer, es[0]);
      assert Length(r.src) == Length(r.dst);
      PerformAll(Perform(mem, r), op, peer, es[1..])
  }

  /** The byte of the source that entry `e` moves to `l`. */
  function Moved(op: Op, peer: Peer, e: Entry, l: Loc): (from: Loc)
    requires Covers(Target(op, peer, e), l)
  {
    var g := Source(op, peer, e);
    Loc(g.tseg, g.addr + (l.addr - Target(op, peer, e).addr))
  }

  /** One entry of a batch: its target gets the bytes of its source, nothing else changes. */
  lemma PerformOne(mem: Memory, op: Op, peer: Peer, e: Entry, l: Loc)
    ensures var r := Single(op, peer, e);
      && Length(r.src) == Length(r.dst)
      && Perform(mem, r)(l) == if Covers(Target(op, peer, e), l) then mem(Moved(op, peer, e, l)) else mem(l)
  {
    var r := Single(op, peer, e);
    assert Length(r.src) == Length(r.dst);
    var data := Gather(mem, r.src);
    assert data == Load(mem, Source(op, peer, e));
    assert data[..e.local.len] == data;
    assert Scatter(mem, r.dst, data) == Store(mem, Target(op, peer, e), data);
  }

  /** The byte at `l` after the whole batch. */
  ghost predicate Landed(mem: Memory, after: Memory, op: Op, peer: Peer, es: seq<Entry>, l: Loc)
  {
    && (forall i :: 0 <= i < |es| && Covers(Target(op, peer, es[i]), l) ==> after(l) == mem(Moved(op, peer, es[i], l)))
    && ((forall i :: 0 <= i < |es| ==> !Covers(Target(op, peer, es[i]), l)) ==> after(l) == mem(l))
  }

  /** Sources and targets of a batch never meet. */
  lemma MovedIsForeign(op: Op, peer: Peer, e: Entry, f: Entry, l: Loc)
    requires Covers(Target(op, peer, f), l)
    ensures !Covers(Target(op, peer, e), Moved(op, peer, f, l))
  {
  }

  lemma {:induction false} BatchLands(mem: Memory, op: Op, peer: Peer, es: seq<Entry>, l: Loc)
    requires LandsApart(op, peer, es)
    ensures Landed(mem, PerformAll(mem, op, peer, es), op, peer, es, l)
    decreases |es|
  {
    hide Perform, Target, Moved, Source;
    if es != [] {
      PerformOne(mem, op, peer, es[0], l);
      var mid := Perform(mem, Single(op, peer, es[0]));
      BatchLands(mid, op, peer, es[1..], l);
      var after := PerformAll(mem, op, peer, es);
      forall i | 0 <= i < |es| && Covers(Target(op, peer, es[i]), l)
        ensures after(l) == mem(Moved(op, peer, es[i], l))
      {
        if i == 0 {
          assert forall k :: 0 <= k < |es[1..]| ==> !Covers(Target(op, peer, es[1..][k]), l);
        } else {
          assert es[1..][i - 1] == es[i];
          PerformOne(mem, op, peer, es[0], Moved(op, peer, es[i], l));
          MovedIsForeign(op, peer, es[0], es[i], l);
        }
      }
    }
  }

  ghost predicate Reordering(es: seq<Entry>, fs: seq<Entry>, perm: seq<nat>)
  {
    && |es| == |fs| == |perm|
    && (forall k :: 0 <= k < |perm| ==> perm[k] < |es| && fs[k] == es[perm[k]])
    && (forall j, k :: 0 <= j < k < |perm| ==> perm[j] != perm[k])
    && forall i :: 0 <= i < |es| ==> i in perm
  }

  lemma ReorderedApart(op: Op, peer: Peer, es: seq<Entry>, fs: seq<Entry>, perm: seq<nat>)
    requires LandsApart(op, peer, es) && Reordering(es, fs, perm)
    ensures LandsApart(op, peer, fs)
  {
    hide Disjoint, Target;
    forall j, k | 0 <= j < k < |fs|
      ensures Disjoint(Target(op, peer, fs[j]), Target(op, peer, fs[k]))
    {
      var a, b := perm[j], perm[k];
      assert a != b && fs[j] == es[a] && fs[k] == es[b];
      if a < b {
        assert Disjoint(Target(op, peer, es[a]), Target(op, peer, es[b]));
      } else {
        assert Disjoint(Target(op, peer, es[b]), Target(op, peer, es[a]));
        DisjointSwaps(Target(op, peer, es[b]), Target(op, peer, es[a]));
      }
    }
  }

  lemma DisjointSwaps(g: Sge, h: Sge)
    requires Disjoint(g, h)
    ensures Disjoint(h, g)
  {
  }

  /** Every entry of the batch has a place in the other order ... */
  lemma PlaceOf(es: seq<Entry>, fs: seq<Entry>, perm: seq<nat>, i: nat) returns (k: nat)
    requires Reordering(es, fs, perm) && i < |es|
    ensures k < |fs| && fs[k] == es[i]
  {
    assert i in perm;
    k :| k < |perm| && perm[k] == i;
  }

  /** ... and every entry of the other order came from the batch. */
  lemma CameFrom(es: seq<Entry>, fs: seq<Entry>, perm: seq<nat>, k: nat) returns (i: nat)
    requires Reordering(es, fs, perm) && k < |fs|
    ensures i < |es| && es[i] == fs[k]
  {
    i := perm[k];
  }

  /** In whatever order the device performs a batch of READs or of WRITEs, memory ends up the same. */
  lemma BatchOrderIsIrrelevant(
    mem: Memory, op: Op, peer: Peer, es: seq<Entry>, fs: seq<Entry>, perm: seq<nat>, l: Loc)
    requires LandsApart(op, peer, es) && Reordering(es, fs, perm)
    ensures PerformAll(mem, op, peer, fs)(l) == PerformAll(mem, op, peer, es)(l)
  {
    hide LandsApart, PerformAll, Covers, Reordering, Target, Moved;
    ReorderedApart(op, peer, es, fs, perm);
    BatchLands(mem, op, peer, es, l);
    BatchLands(mem, op, peer, fs, l);
    if k: nat :| k < |fs| && Covers(Target(op, peer, fs[k]), l) {
      var i := CameFrom(es, fs, perm, k);
    } else {
      forall i: nat | i < |es|
        ensures !Covers(Target(op, peer, es[i]), l)
      {
        var k := PlaceOf(es, fs, perm, i);
      }
    }
  }
}
