/**
 * What a constructor that does not err gives its caller: a live handle over new C objects,
 * created from the objects it was asked to use, which dropping the handle takes away again.
 * And what a program can always do in the end: leave nothing behind.
 */
module Lifecycles {
  import opened Wrappers
  import opened ResourceTree

  /** The constructor of event `e` runs, on live handles, and does not err. */
  predicate Builds(w: World, e: Event)
  {
    match e
    case InitLib(ok) => !w.exited && (w.slot.Some? || ok)
    case CreateContext(guard, ok) => Holds(w, guard, Guard) && ok
    case CloneHandle(h) => Holds(w, h, ContextHandle) || Holds(w, h, QueueHandle)
    case CreateQueue(ctx, okJfce, okJfc) => Holds(w, ctx, ContextHandle) && okJfce && okJfc
    case CreateJetty(ctx, cq, priority, okJfr, okJetty) =>
      && Holds(w, ctx, ContextHandle) && Holds(w, cq, QueueHandle)
      && priority <= 15 && okJfr && okJetty
    case RegisterSeg(ctx, ok) => Holds(w, ctx, ContextHandle) && ok
    case ImportPeer(ctx, okSeg, okJetty) => Holds(w, ctx, ContextHandle) && okSeg && okJetty
    case DropHandle(_) => false
    case ThreadExit => false
  }

  /** The value it returns. */
  function NewHandle(w: World, e: Event): (h: Id)
  {
    match e
    case InitLib(_) => if w.slot.Some? then w.next else w.next + 3
    case CreateContext(_, _) => w.next + 2
    case CreateQueue(_, _, _) => w.next + 3
    case _ => w.next
  }

  function HandleKind(w: World, e: Event): (k: Kind)
    requires Builds(w, e)
  {
    match e
    case InitLib(_) => Guard
    case CreateContext(_, _) => ContextHandle
    case CloneHandle(h) => w.nodes[h].kind
    case CreateQueue(_, _, _) => QueueHandle
    case CreateJetty(_, _, _, _, _) => Jetty
    case RegisterSeg(_, _) => Segment
    case ImportPeer(_, _, _) => Peer
  }

  // ---------------------------------------------------------------- adopting and dropping again

  /** Ids from `next` on are unused, and no object has a parent that is gone. */
  ghost predicate Unused(w: World)
  {
    && (forall v :: v in w.nodes ==> v < w.next)
    && (forall c :: c in w.objs ==> c < w.next)
    && ParentsLive(w.objs)
  }

  lemma InvUnused(w: World)
    requires Inv(w)
    ensures Unused(w)
  {
    InvParentsLive(w);
    assert forall v :: v in w.nodes ==> NodeOk(w, v, None);
    assert forall c :: c in w.objs ==> ObjOk(w, c);
  }

  ghost predicate GoodParents(w: World, parents: seq<set<Id>>)
  {
    && |parents| <= 2
    && forall i, p :: 0 <= i < |parents| && p in parents[i] ==>
         p in w.objs || (i == 0 && |parents| == 2 && p == w.next + 1)
  }

  /** `w1` is `w` with one more value, which owns the new objects and holds `up`. */
  ghost predicate Grown(w: World, kind: Kind, up: Option<Id>, parents: seq<set<Id>>, w1: World)
  {
    && |parents| <= 2
    && w1.next == w.next + 1 + |parents| && w1.faulted == w.faulted && w1.slot == w.slot && w1.exited == w.exited
    && GrownNodes(w, kind, up, NewRaws(w.next, |parents|), w1)
    && GrownObjs(w, parents, NewRaws(w.next, |parents|), w1)
  }

  ghost predicate GrownNodes(w: World, kind: Kind, up: Option<Id>, raws: seq<Id>, w1: World)
  {
    && w1.nodes.Keys == w.nodes.Keys + {w.next} && w1.nodes[w.next] == Node(kind, raws, up, 0)
    && (forall u :: u in w.nodes ==>
          w1.nodes[u] == w.nodes[u].(strong := w.nodes[u].strong + if up == Some(u) then 1 else 0))
  }

  ghost predicate GrownObjs(w: World, parents: seq<set<Id>>, raws: seq<Id>, w1: World)
  {
    && |raws| == |parents|
    && w1.objs.Keys == w.objs.Keys + (set c | c in raws)
    && (forall c :: c in w.objs ==> w1.objs[c] == w.objs[c])
    && (forall i :: 0 <= i < |parents| ==> raws[i] in w1.objs && w1.objs[raws[i]] == Obj(parents[i], w.next))
  }

  lemma AdoptGrows(w: World, kind: Kind, up: Option<Id>, parents: seq<set<Id>>)
    requires Unused(w) && GoodParents(w, parents) && (up.Some? ==> up.value in w.nodes)
    ensures Grown(w, kind, up, parents, Adopt(w, kind, up, parents))
    ensures Unused(Adopt(w, kind, up, parents))
  {
    AdoptGrowsNodes(w, kind, up, parents);
    AdoptGrowsObjs(w, kind, up, parents);
    GrownIsUnused(w, kind, up, parents, Adopt(w, kind, up, parents));
  }

  lemma AdoptGrowsNodes(w: World, kind: Kind, up: Option<Id>, parents: seq<set<Id>>)
    requires w.next !in w.nodes && |parents| <= 2 && (up.Some? ==> up.value in w.nodes)
    ensures GrownNodes(w, kind, up, NewRaws(w.next, |parents|), Adopt(w, kind, up, parents))
  {
    hide NewObjs, NewRaws;
    assert Adopt(w, kind, up, parents).nodes.Keys == w.nodes.Keys + {w.next};
  }

  lemma NewObjsAt(id: Id, parents: seq<set<Id>>, i: nat)
    requires i < |parents| <= 2
    ensures var raws := NewRaws(id, |parents|);
      raws[i] in NewObjs(id, parents) && NewObjs(id, parents)[raws[i]] == Obj(parents[i], id)
  {
    assert NewRaws(id, |parents|)[i] == id + |parents| - i;
  }

  lemma AdoptObjs(w: World, kind: Kind, up: Option<Id>, parents: seq<set<Id>>)
    requires |parents| <= 2
    ensures Adopt(w, kind, up, parents).objs == w.objs + NewObjs(w.next, parents)
  {
    hide NewObjs, NewRaws;
  }

  lemma AdoptGrowsObjs(w: World, kind: Kind, up: Option<Id>, parents: seq<set<Id>>)
    requires |parents| <= 2 && forall c :: c in w.objs ==> c < w.next
    ensures GrownObjs(w, parents, NewRaws(w.next, |parents|), Adopt(w, kind, up, parents))
  {
    hide NewObjs, NewRaws, Adopt;
    var raws, made := NewRaws(w.next, |parents|), NewObjs(w.next, parents);
    AdoptObjs(w, kind, up, parents);
    forall i: nat | i < |parents| ensures raws[i] in made && made[raws[i]] == Obj(parents[i], w.next) {
      NewObjsAt(w.next, parents, i);
    }
    NewObjsAbove(w.next, parents);
    ObjsGrow(w.objs, made, parents, raws, w.next, w.next, Adopt(w, kind, up, parents).objs);
  }

  lemma NewObjsAbove(id: Id, parents: seq<set<Id>>)
    requires |parents| <= 2
    ensures forall c :: c in NewObjs(id, parents) ==> c > id
    ensures NewObjs(id, parents).Keys == (set c | c in NewRaws(id, |parents|))
  {
  }

  lemma ObjsGrow(objs: map<Id, Obj>, made: map<Id, Obj>, parents: seq<set<Id>>, raws: seq<Id>, owner: Id, next: Id, objs': map<Id, Obj>)
    requires |raws| == |parents| && made.Keys == (set c | c in raws) && objs' == objs + made
    requires (forall c :: c in objs ==> c < next) && (forall c :: c in made ==> c > next)
    requires forall i: nat :: i < |parents| ==> raws[i] in made && made[raws[i]] == Obj(parents[i], owner)
    ensures objs'.Keys == objs.Keys + (set c | c in raws) && forall c :: c in objs ==> objs'[c] == objs[c]
    ensures forall i :: 0 <= i < |parents| ==> raws[i] in objs' && objs'[raws[i]] == Obj(parents[i], owner)
  {
  }

  lemma GrownIsUnused(w: World, kind: Kind, up: Option<Id>, parents: seq<set<Id>>, w1: World)
    requires Unused(w) && GoodParents(w, parents) && Grown(w, kind, up, parents, w1)
    ensures Unused(w1)
  {
    var raws := NewRaws(w.next, |parents|);
    forall c, p | c in w1.objs && p in w1.objs[c].parents ensures p in w1.objs {
      if c !in w.objs {
        var i :| 0 <= i < |raws| && raws[i] == c;
        assert p in parents[i];
        if p !in w.objs {
          assert raws[1] == p;
        }
      }
    }
  }

  /** No object was created from the new ones, but the first from the second. */
  lemma NewHasNoChild(w: World, parents: seq<set<Id>>, raws: seq<Id>, w1: World, c: Id, x: Id)
    requires Unused(w) && GoodParents(w, parents) && raws == NewRaws(w.next, |parents|) && GrownObjs(w, parents, raws, w1)
    requires c in raws && x in w1.objs && c in w1.objs[x].parents
    ensures |raws| == 2 && x == raws[0] && c == raws[1]
  {
    assert c > w.next;
    if x in w.objs {
      assert false;
    } else {
      var i :| 0 <= i < |raws| && raws[i] == x;
      assert c in parents[i];
    }
  }

  /** Taking the new value away at once takes the world back, but for the ids used up. */
  lemma DetachUndoes(w: World, kind: Kind, up: Option<Id>, parents: seq<set<Id>>, w1: World)
    requires Unused(w) && GoodParents(w, parents) && (up.Some? ==> up.value in w.nodes) && !w.faulted
    requires Grown(w, kind, up, parents, w1.(next := w.next + 1 + |parents|))
    ensures w.next in w1.nodes && Detach(w1, w.next) == w.(next := w1.next)
  {
    var raws := NewRaws(w.next, |parents|);
    hide NewRaws, GrownNodes, CDeleteAll;
    RawsGoNow(w, parents, raws, w1);
    hide Unused, GoodParents, GrownObjs;
    CDeleteAllNodes(w1, raws);
    DetachNodes(w, kind, up, raws, w1);
  }

  lemma RawsGoNow(w: World, parents: seq<set<Id>>, raws: seq<Id>, w1: World)
    requires Unused(w) && GoodParents(w, parents) && raws == NewRaws(w.next, |parents|) && GrownObjs(w, parents, raws, w1)
    requires !w1.faulted
    ensures !CDeleteAll(w1, raws).faulted && w1.objs - (set c | c in raws) == w.objs && w.next !in w.nodes
  {
    forall c, x | c in raws && x in w1.objs && c in w1.objs[x].parents
      ensures |raws| == 2 && x == raws[0] && c == raws[1]
    {
      NewHasNoChild(w, parents, raws, w1, c, x);
    }
    assert forall c :: c in w.objs ==> c !in raws;
    hide GoodParents, NewRaws, CDeleteAll;
    DeleteAllNoFault(w1, raws);
  }

  lemma DetachNodes(w: World, kind: Kind, up: Option<Id>, raws: seq<Id>, w1: World)
    requires w.next !in w.nodes && (up.Some? ==> up.value in w.nodes) && GrownNodes(w, kind, up, raws, w1)
    ensures w.next in w1.nodes && w1.nodes[w.next].raws == raws && Detach(w1, w.next).nodes == w.nodes
  {
    CDeleteAllNodes(w1, raws);
    hide CDeleteAll;
    assert Detach(w1, w.next).nodes.Keys == w.nodes.Keys;
  }

  /** The same, with the parent still held by others. */
  lemma ReleaseUndoes(w: World, kind: Kind, up: Option<Id>, parents: seq<set<Id>>, w1: World)
    requires Unused(w) && GoodParents(w, parents) && !w.faulted
    requires up.Some? ==> up.value in w.nodes && w.nodes[up.value].strong > 0
    requires Grown(w, kind, up, parents, w1.(next := w.next + 1 + |parents|))
    ensures Release(w1, w.next) == w.(next := w1.next)
  {
    DetachUndoes(w, kind, up, parents, w1);
    hide Unused, GoodParents, Detach, GrownObjs, NewRaws;
  }

  /** A shared value and the first handle on it: dropping the handle takes both away. */
  lemma ReleasePairUndoes(w: World, inner: Kind, up: Option<Id>, parents: seq<set<Id>>, handle: Kind, w1: World, w2: World)
    requires Unused(w) && GoodParents(w, parents) && !w.faulted
    requires up.Some? ==> up.value in w.nodes && w.nodes[up.value].strong > 0
    requires Grown(w, inner, up, parents, w1) && Unused(w1) && Grown(w1, handle, Some(w.next), [], w2)
    ensures Release(w2, w1.next) == w.(next := w2.next)
  {
    assert w2.(next := w1.next + 1 + 0) == w2;
    DetachUndoes(w1, handle, Some(w.next), [], w2);
    var w3 := w1.(next := w2.next);
    assert w3.(next := w.next + 1 + |parents|) == w1;
    ReleaseUndoes(w, inner, up, parents, w3);
    hide Unused, GoodParents, Detach, GrownObjs, NewRaws;
  }

  // ---------------------------------------------------------------- constructors

  /** The shared value behind a live handle is held. */
  lemma InnerIsHeld(w: World, h: Id, k: Kind)
    requires Inv(w) && Holds(w, h, k) && k.Above().Some?
    ensures Inner(w, h) in w.nodes && w.nodes[Inner(w, h)].strong > 0 && |w.nodes[Inner(w, h)].raws| > 0
    ensures w.nodes[Inner(w, h)].kind == k.Above().value && Raw(w, h) in w.objs && !w.faulted
  {
    hide ObjOk;
    HandleFacts(w, h, k);
    assert NodeOk(w, Inner(w, h), None);
  }

  lemma SlotHolds(w: World)
    requires Inv(w) && w.slot.Some?
    ensures Holds(w, w.slot.value, Slot)
  {
    SlotIsUnshared(w);
    HandleFacts(w, w.slot.value, Slot);
  }

  lemma SlotIsOld(w: World)
    requires Inv(w)
    ensures w.slot.Some? ==> w.slot.value < w.next
  {
    InvUnused(w);
    SlotIsUnshared(w);
  }

  lemma NoParents(w: World)
    ensures GoodParents(w, [])
  {
  }

  lemma OneParent(w: World, first: set<Id>)
    requires first <= w.objs.Keys
    ensures GoodParents(w, [first])
  {
  }

  lemma TwoParents(w: World, second: set<Id>, first: set<Id>)
    requires first <= w.objs.Keys && second <= w.objs.Keys + {w.next + 1}
    ensures GoodParents(w, [second, first])
  {
  }

  /** The objects `made` are new, with these parents, and nothing else changed. */
  ghost predicate Grew(objs: map<Id, Obj>, made: map<Id, set<Id>>, objs': map<Id, Obj>)
  {
    && made.Keys !! objs.Keys && objs'.Keys == objs.Keys + made.Keys
    && (forall c :: c in objs ==> objs'[c] == objs[c])
    && (forall c :: c in made ==> objs'[c].parents == made[c])
  }

  /** What is said of one constructor: handle, objects, and that dropping undoes it. */
  ghost predicate Yields(w: World, kind: Kind, made: map<Id, set<Id>>, w': World, h: Id)
  {
    && h !in w.nodes && Droppable(w', h) && w'.nodes[h].kind == kind && Holds(w', h, kind)
    && Grew(w.objs, made, w'.objs)
    && Release(w', h) == w.(next := w'.next)
  }

  lemma GrownHandle(w: World, kind: Kind, up: Id, parents: seq<set<Id>>, w1: World)
    requires Unused(w) && up in w.nodes && |w.nodes[up].raws| > 0 && Grown(w, kind, Some(up), parents, w1)
    requires !kind.Shared() && kind != Leaked && (w.slot.Some? ==> w.slot.value < w.next)
    ensures w.next !in w.nodes && Droppable(w1, w.next) && w1.nodes[w.next].kind == kind && Holds(w1, w.next, kind)
  {
    hide GrownObjs, NewRaws;
  }

  /** Objects by creation: the second last in `raws`. */
  function Made(w: World, parents: seq<set<Id>>): (made: map<Id, set<Id>>)
    requires |parents| <= 2
  {
    if |parents| == 0 then map[]
    else if |parents| == 1 then map[w.next + 1 := parents[0]]
    else map[w.next + 1 := parents[1], w.next + 2 := parents[0]]
  }

  lemma GrownMade(w: World, kind: Kind, up: Option<Id>, parents: seq<set<Id>>, w1: World)
    requires Unused(w) && Grown(w, kind, up, parents, w1)
    ensures Grew(w.objs, Made(w, parents), w1.objs)
  {
    hide GrownNodes;
    var raws := NewRaws(w.next, |parents|);
    assert Made(w, parents).Keys == (set c | c in raws);
    forall c | c in Made(w, parents) ensures w1.objs[c].parents == Made(w, parents)[c] {
      var i :| 0 <= i < |raws| && raws[i] == c;
    }
  }

  lemma GrewNothing(objs: map<Id, Obj>, made: map<Id, set<Id>>, objs': map<Id, Obj>, objs'': map<Id, Obj>)
    requires Grew(objs, made, objs') && Grew(objs', map[], objs'')
    ensures Grew(objs, made, objs'')
  {
  }

  /** A value of its own, under a shared value that is held. */
  lemma SingleYields(w: World, kind: Kind, up: Id, parents: seq<set<Id>>)
    requires Inv(w) && up in w.nodes && w.nodes[up].strong > 0 && |w.nodes[up].raws| > 0 && GoodParents(w, parents)
    requires !kind.Shared() && kind != Leaked
    ensures Yields(w, kind, Made(w, parents), Adopt(w, kind, Some(up), parents), w.next)
  {
    InvUnused(w);
    SlotIsOld(w);
    var w1 := Adopt(w, kind, Some(up), parents);
    AdoptGrows(w, kind, Some(up), parents);
    assert !w.faulted;
    hide Inv, Adopt, Release, Grew;
    GrownHandle(w, kind, up, parents, w1);
    GrownMade(w, kind, Some(up), parents, w1);
    assert w1.(next := w.next + 1 + |parents|) == w1;
    ReleaseUndoes(w, kind, Some(up), parents, w1);
  }

  /** A shared value with the handle on it. */
  lemma PairYields(w: World, inner: Kind, up: Id, parents: seq<set<Id>>, handle: Kind)
    requires Inv(w) && up in w.nodes && w.nodes[up].strong > 0 && GoodParents(w, parents) && |parents| > 0
    requires inner.Shared() && !handle.Shared() && handle != Leaked
    ensures var w1 := Adopt(w, inner, Some(up), parents);
      Yields(w, handle, Made(w, parents), Adopt(w1, handle, Some(w.next), []), w1.next)
  {
    InvUnused(w);
    SlotIsOld(w);
    assert !w.faulted;
    var w1 := Adopt(w, inner, Some(up), parents);
    AdoptGrows(w, inner, Some(up), parents);
    NoParents(w1);
    InnerIsThere(w, inner, up, parents, w1);
    AdoptGrows(w1, handle, Some(w.next), []);
    var w2 := Adopt(w1, handle, Some(w.next), []);
    hide Inv, Adopt, Release, Grew, Grown, GoodParents;
    PairGrown(w, inner, up, parents, handle, w1, w2);
  }

  lemma InnerIsThere(w: World, inner: Kind, up: Id, parents: seq<set<Id>>, w1: World)
    requires Unused(w) && Grown(w, inner, Some(up), parents, w1) && |parents| > 0
    ensures w.next in w1.nodes && |w1.nodes[w.next].raws| > 0 && w1.slot == w.slot && w1.faulted == w.faulted
    ensures w1.next > w.next && w1.next !in w.nodes
  {
  }

  lemma PairGrown(w: World, inner: Kind, up: Id, parents: seq<set<Id>>, handle: Kind, w1: World, w2: World)
    requires Unused(w) && Unused(w1) && GoodParents(w, parents) && |parents| > 0 && !w.faulted
    requires up in w.nodes && w.nodes[up].strong > 0 && (w.slot.Some? ==> w.slot.value < w.next)
    requires Grown(w, inner, Some(up), parents, w1) && Grown(w1, handle, Some(w.next), [], w2)
    requires !handle.Shared() && handle != Leaked
    ensures Yields(w, handle, Made(w, parents), w2, w1.next)
  {
    InnerIsThere(w, inner, up, parents, w1);
    GrownMade(w, inner, Some(up), parents, w1);
    GrownMade(w1, handle, Some(w.next), [], w2);
    GrewNothing(w.objs, Made(w, parents), w1.objs, w2.objs);
    ReleasePairUndoes(w, inner, Some(up), parents, handle, w1, w2);
    hide Grown, Release, Grew, Unused, GoodParents;
    GrownHandle(w1, handle, w.next, [], w2);
  }

  /** Two objects created from `ps`, the second from the first as well. */
  function Stacked(w: World, ps: set<Id>): (s: seq<set<Id>>)
    ensures |s| == 2
  {
    [ps + {w.next + 1}, ps]
  }

  /** The C objects a constructor adds, each with the objects it is created from; a second one first. */
  function Created(w: World, e: Event): (made: map<Id, set<Id>>)
    requires Builds(w, e)
  {
    match e
    case InitLib(_) => if w.slot.Some? then Made(w, []) else Made(w, [{}])
    case CreateContext(guard, _) => Made(w, [{Raw(w, guard)}])
    case CloneHandle(_) => Made(w, [])
    case CreateQueue(ctx, _, _) => Made(w, Stacked(w, {Raw(w, ctx)}))
    case CreateJetty(ctx, cq, _, _, _) => Made(w, Stacked(w, {Raw(w, ctx), Raw(w, cq)}))
    case RegisterSeg(ctx, _) => Made(w, [{Raw(w, ctx)}])
    case ImportPeer(ctx, _, _) => Made(w, [{Raw(w, ctx)}, {Raw(w, ctx)}])
  }

  lemma RawLive(w: World, h: Id, k: Kind)
    requires Inv(w) && Holds(w, h, k) && k.Above().Some?
    ensures {Raw(w, h)} <= w.objs.Keys
  {
    InnerIsHeld(w, h, k);
  }

  lemma ContextYields(w: World, guard: Id)
    requires Holds(w, guard, Guard)
    requires Inv(w)
    ensures Yields(w, ContextHandle, Made(w, [{Raw(w, guard)}]), ContextCreated(w, guard, true), w.next + 2)
  {
    hide Inv, Yields, GoodParents, Adopt;
    InnerIsHeld(w, guard, Guard);
    OneParent(w, {Raw(w, guard)});
    PairYields(w, ContextInner, Inner(w, guard), [{Raw(w, guard)}], ContextHandle);
    AdoptNext(w, ContextInner, Some(Inner(w, guard)), [{Raw(w, guard)}]);
  }

  lemma AdoptNext(w: World, kind: Kind, up: Option<Id>, parents: seq<set<Id>>)
    requires |parents| <= 2
    ensures Adopt(w, kind, up, parents).next == w.next + 1 + |parents|
  {
  }

  lemma StackedParents(w: World, ps: set<Id>)
    requires ps <= w.objs.Keys
    ensures GoodParents(w, Stacked(w, ps))
  {
  }

  lemma QueueIs(w: World, ctx: Id)
    requires Holds(w, ctx, ContextHandle)
    ensures QueueCreated(w, ctx, true, true)
      == Adopt(Adopt(w, QueueInner, Some(Inner(w, ctx)), Stacked(w, {Raw(w, ctx)})), QueueHandle, Some(w.next), [])
  {
    hide Adopt;
    var raw := Raw(w, ctx);
    assert {raw} + {w.next + 1} == {raw, w.next + 1};
  }

  lemma QueueYields(w: World, ctx: Id)
    requires Holds(w, ctx, ContextHandle)
    requires Inv(w)
    ensures Yields(w, QueueHandle, Made(w, Stacked(w, {Raw(w, ctx)})), QueueCreated(w, ctx, true, true), w.next + 3)
  {
    hide Inv, Yields, GoodParents, Adopt, QueueCreated, Stacked, Made;
    InnerIsHeld(w, ctx, ContextHandle);
    QueueIs(w, ctx);
    var raw, inner := Raw(w, ctx), Inner(w, ctx);
    hide Holds, Raw, Inner;
    StackedParents(w, {raw});
    PairYields(w, QueueInner, inner, Stacked(w, {raw}), QueueHandle);
    AdoptNext(w, QueueInner, Some(inner), Stacked(w, {raw}));
  }

  lemma JettyYields(w: World, ctx: Id, cq: Id)
    requires Holds(w, ctx, ContextHandle) && Holds(w, cq, QueueHandle)
    requires Inv(w)
    ensures var ps := {Raw(w, ctx), Raw(w, cq)};
      Yields(w, Jetty, Made(w, Stacked(w, ps)), BuiltJetty(w, Inner(w, cq), ps), w.next)
  {
    hide Inv, Yields, GoodParents, Adopt, BuiltJetty, Stacked, Made;
    InnerIsHeld(w, ctx, ContextHandle);
    InnerIsHeld(w, cq, QueueHandle);
    var ps, queue := {Raw(w, ctx), Raw(w, cq)}, Inner(w, cq);
    hide Holds, Raw, Inner;
    BuiltYields(w, queue, ps);
  }

  lemma BuiltYields(w: World, queue: Id, ps: set<Id>)
    requires queue in w.nodes && w.nodes[queue].strong > 0 && |w.nodes[queue].raws| > 0 && ps <= w.objs.Keys
    requires Inv(w)
    ensures Yields(w, Jetty, Made(w, Stacked(w, ps)), BuiltJetty(w, queue, ps), w.next)
  {
    hide Inv, Yields, GoodParents, Adopt, Made;
    StackedParents(w, ps);
    SingleYields(w, Jetty, queue, Stacked(w, ps));
  }

  lemma UnderContext(w: World, ctx: Id)
    requires Holds(w, ctx, ContextHandle)
    requires Inv(w)
    ensures Yields(w, Segment, Made(w, [{Raw(w, ctx)}]), SegRegistered(w, ctx, true), w.next)
    ensures Yields(w, Peer, Made(w, [{Raw(w, ctx)}, {Raw(w, ctx)}]),
                   PeerImported(w, ctx, true, true), w.next)
  {
    hide Inv, Yields, GoodParents, Adopt;
    InnerIsHeld(w, ctx, ContextHandle);
    OneParent(w, {Raw(w, ctx)});
    TwoParents(w, {Raw(w, ctx)}, {Raw(w, ctx)});
    SingleYields(w, Segment, Inner(w, ctx), [{Raw(w, ctx)}]);
    SingleYields(w, Peer, Inner(w, ctx), [{Raw(w, ctx)}, {Raw(w, ctx)}]);
    hide Inv, Yields, GoodParents;
  }

  lemma CloneYields(w: World, h: Id)
    requires (Holds(w, h, ContextHandle) || Holds(w, h, QueueHandle))
    requires Inv(w)
    ensures Yields(w, w.nodes[h].kind, Made(w, []), HandleCloned(w, h), w.next)
  {
    hide Inv, Yields, GoodParents, Adopt;
    InnerIsHeld(w, h, w.nodes[h].kind);
    NoParents(w);
    SingleYields(w, w.nodes[h].kind, Inner(w, h), []);
    hide Inv, Yields, GoodParents;
  }

  lemma LaterInitYields(w: World, ok: bool)
    requires Inv(w) && !w.exited && w.slot.Some?
    ensures Yields(w, Guard, Made(w, []), LibInited(w, ok), w.next)
  {
    SlotHolds(w);
    InnerIsHeld(w, w.slot.value, Slot);
    NoParents(w);
    SingleYields(w, Guard, Inner(w, w.slot.value), []);
    hide Inv, Yields, GoodParents;
  }

  /** The first init: a guard too, over one new object, which the thread's slot keeps. */
  lemma FirstInitYields(w: World)
    requires Inv(w) && !w.exited && w.slot.None?
    ensures var w' := LibInited(w, true); var h := w.next + 3;
      && h !in w.nodes && Droppable(w', h) && Holds(w', h, Guard) && w'.slot.Some?
      && Grew(w.objs, Made(w, [{}]), w'.objs)
      && Release(w', h).objs == w'.objs && !Release(w', h).faulted && Release(w', h).slot == w'.slot
  {
    InvUnused(w);
    assert !w.faulted;
    hide Inv, Adopt, Release, Unused, GoodParents, Grown, Grew, Made, Holds, Droppable;
    var w1 := Adopt(w, InitInner, None, [{}]);
    var w2 := Adopt(w1, Slot, Some(w.next), []);
    var w3 := Adopt(w2.(slot := Some(w1.next)), Guard, Some(w.next), []);
    GuardAdopted(w, w1, w2, w3);
    GuardGrown(w, w1, w2, w3);
  }

  lemma GuardAdopted(w: World, w1: World, w2: World, w3: World)
    requires Unused(w) && w1 == Adopt(w, InitInner, None, [{}]) && w2 == Adopt(w1, Slot, Some(w.next), [])
    requires w3 == Adopt(w2.(slot := Some(w1.next)), Guard, Some(w.next), [])
    ensures Unused(w1) && Unused(w2) && Grown(w, InitInner, None, [{}], w1) && Grown(w1, Slot, Some(w.next), [], w2)
    ensures Grown(w2.(slot := Some(w1.next)), Guard, Some(w.next), [], w3)
  {
    hide Adopt, GrownObjs;
    OneParent(w, {});
    AdoptGrows(w, InitInner, None, [{}]);
    NoParents(w1);
    AdoptGrows(w1, Slot, Some(w.next), []);
    var w2' := w2.(slot := Some(w1.next));
    NoParents(w2');
    assert Unused(w2');
    hide Unused, GoodParents;
    AdoptGrows(w2', Guard, Some(w.next), []);
  }

  lemma GuardGrown(w: World, w1: World, w2: World, w3: World)
    requires Unused(w) && Unused(w1) && Unused(w2) && !w.faulted && w.slot.None?
    requires Grown(w, InitInner, None, [{}], w1) && Grown(w1, Slot, Some(w.next), [], w2)
    requires Grown(w2.(slot := Some(w1.next)), Guard, Some(w.next), [], w3)
    ensures w.next + 3 !in w.nodes && Droppable(w3, w.next + 3) && Holds(w3, w.next + 3, Guard) && w3.slot.Some?
    ensures Grew(w.objs, Made(w, [{}]), w3.objs)
    ensures var d := Release(w3, w.next + 3); d.objs == w3.objs && !d.faulted && d.slot == w3.slot
  {
    hide Release, Unused, Grew;
    GuardObjects(w, w1, w2, w3);
    GuardNodes(w, w1, w2, w3);
    hide Grown;
    GuardRelease(w1, w2, w.next, w3);
    SameObjs(w2.objs, w3.objs);
  }

  lemma GuardObjects(w: World, w1: World, w2: World, w3: World)
    requires Unused(w) && Unused(w1) && Unused(w2)
    requires Grown(w, InitInner, None, [{}], w1) && Grown(w1, Slot, Some(w.next), [], w2)
    requires Grown(w2.(slot := Some(w1.next)), Guard, Some(w.next), [], w3)
    ensures Grew(w.objs, Made(w, [{}]), w3.objs) && Grew(w2.objs, map[], w3.objs)
  {
    var w2' := w2.(slot := Some(w1.next));
    assert Unused(w2');
    hide Unused, Grown, Grew;
    GrownMade(w, InitInner, None, [{}], w1);
    GrownMade(w1, Slot, Some(w.next), [], w2);
    GrownMade(w2', Guard, Some(w.next), [], w3);
    GrewNothing(w.objs, Made(w, [{}]), w1.objs, w2.objs);
    GrewNothing(w.objs, Made(w, [{}]), w2.objs, w3.objs);
  }

  lemma GuardNodes(w: World, w1: World, w2: World, w3: World)
    requires Unused(w) && w.slot.None? && !w.faulted
    requires Grown(w, InitInner, None, [{}], w1) && Grown(w1, Slot, Some(w.next), [], w2)
    requires Grown(w2.(slot := Some(w1.next)), Guard, Some(w.next), [], w3)
    ensures w2.next == w.next + 3 && w1.next == w.next + 2 && w.next + 3 !in w.nodes && !w2.faulted
    ensures Droppable(w3, w.next + 3) && Holds(w3, w.next + 3, Guard) && w3.slot == Some(w.next + 2)
    ensures w.next in w2.nodes && w2.nodes[w.next].strong > 0
  {
    hide GrownObjs;
  }

  lemma GuardRelease(w1: World, w2: World, inner: Id, w3: World)
    requires Unused(w2) && !w2.faulted && inner in w2.nodes && w2.nodes[inner].strong > 0
    requires Grown(w2.(slot := Some(w1.next)), Guard, Some(inner), [], w3)
    ensures Release(w3, w2.next) == w2.(slot := Some(w1.next), next := w3.next)
  {
    var w2' := w2.(slot := Some(w1.next));
    NoParents(w2');
    assert Unused(w2');
    assert w3.(next := w2'.next + 1 + 0) == w3;
    hide Release, Unused, GoodParents;
    ReleaseUndoes(w2', Guard, Some(inner), [], w3);
  }

  lemma SameObjs(objs: map<Id, Obj>, objs': map<Id, Obj>)
    requires Grew(objs, map[], objs')
    ensures objs' == objs
  {
    assert objs'.Keys == objs.Keys;
  }

  /**
   * A constructor that does not err returns a live handle that its caller can drop; it adds
   * exactly its own C objects, created from the objects of the handles it was given; and
   * dropping the handle at once gives back the same values, counts and C objects, without a
   * fault. Only the first init stays, in its thread's slot.
   */
  lemma ConstructorYields(w: World, e: Event)
    requires Inv(w) && Builds(w, e)
    ensures var h, w' := NewHandle(w, e), Apply(w, e);
      && h !in w.nodes && Droppable(w', h) && w'.nodes[h].kind == HandleKind(w, e) && Holds(w', h, HandleKind(w, e))
      && Grew(w.objs, Created(w, e), w'.objs)
      && var d := Apply(w', DropHandle(h));
         if e.InitLib? && w.slot.None? then d.objs == w'.objs && !d.faulted else d == w.(next := w'.next)
  {
    hide Inv, Release, Grew, ContextCreated, QueueCreated, BuiltJetty, SegRegistered, PeerImported, LibInited, HandleCloned, Raw;
    match e
    case InitLib(ok) =>
      if w.slot.Some? {
        LaterInitYields(w, ok);
      } else {
        FirstInitYields(w);
      }
    case CreateContext(guard, _) => ContextYields(w, guard);
    case CloneHandle(h) => CloneYields(w, h);
    case CreateQueue(ctx, _, _) => QueueYields(w, ctx);
    case CreateJetty(ctx, cq, _, _, _) => JettyYields(w, ctx, cq);
    case RegisterSeg(ctx, _) => UnderContext(w, ctx);
    case ImportPeer(ctx, _, _) => UnderContext(w, ctx);
  }

  // ---------------------------------------------------------------- leaving nothing behind

  ghost predicate NothingLeaked(w: World)
  {
    forall v :: v in w.nodes ==> w.nodes[v].kind != Leaked
  }

  /** A program may drop everything it holds. */
  lemma {:induction false} DropAll(w: World) returns (es: seq<Event>)
    requires Inv(w) && NothingLeaked(w)
    ensures DisciplinedRun(w, es)
    ensures Inv(Exec(w, es)) && NothingLeaked(Exec(w, es)) && forall h :: !Droppable(Exec(w, es), h)
    decreases w.nodes.Keys
  {
    hide Shape, Safe, Release, Exec, DisciplinedRun, ParentsLive;
    if h :| Droppable(w, h) {
      DropShape(w, h);
      StepInv(w, DropHandle(h));
      var w1 := Apply(w, DropHandle(h));
      var rest := DropAll(w1);
      es := [DropHandle(h)] + rest;
      ExecCons(w, DropHandle(h), rest);
    } else {
      es := [];
      ExecNil(w);
    }
  }

  lemma ExitDrops(w: World)
    requires Inv(w)
    ensures var w' := Apply(w, ThreadExit);
      && Inv(w') && w'.slot.None?
      && (forall v :: v in w'.nodes ==> v in w.nodes && w'.nodes[v].kind == w.nodes[v].kind && w.slot != Some(v))
  {
    hide Release, Shape, Safe;
    StepInv(w, ThreadExit);
    SlotIsUnshared(w);
    if w.slot.Some? {
      ExitInv(w);
      var w1 := w.(slot := None, exited := true);
      assert Droppable(w1, w.slot.value);
      DropShape(w1, w.slot.value);
      ReleaseGone(w1, w.slot.value);
    }
  }

  lemma ReleaseGone(w: World, h: Id)
    requires Shape(w, None) && Droppable(w, h)
    ensures h !in Release(w, h).nodes
  {
    UnsharedHasNoHolders(w, h, None);
    assert Shape(w, Some(h)) by {
      forall u | u in w.nodes ensures NodeOk(w, u, Some(h)) {
        assert NodeOk(w, u, None);
      }
    }
    ReleaseShape(w, h);
  }

  /** The exit of a thread that holds nothing takes its init slot, and with it everything, away. */
  lemma ExitEmpties(w: World)
    requires Inv(w) && NothingLeaked(w) && forall h :: !Droppable(w, h)
    ensures Apply(w, ThreadExit).nodes == map[] && Apply(w, ThreadExit).objs == map[]
  {
    hide Inv, Apply;
    ExitDrops(w);
    var w' := Apply(w, ThreadExit);
    forall v | v in w'.nodes ensures w'.nodes[v].kind.Shared() {
      assert !Droppable(w, v);
    }
    NothingIsLeftBehind(w');
  }

  /** From every state without a leak a program can drop what it holds and exit: then no C object is left. */
  lemma CanLeaveNothing(w: World) returns (es: seq<Event>)
    requires Inv(w) && NothingLeaked(w)
    ensures DisciplinedRun(w, es) && Exec(w, es).nodes == map[] && Exec(w, es).objs == map[] && !Exec(w, es).faulted
  {
    hide Inv, NothingLeaked, Apply, Droppable;
    var drops := DropAll(w);
    ExitEmpties(Exec(w, drops));
    es := drops + [ThreadExit];
    ExecThen(w, drops, ThreadExit);
    InvNotFaulted(w, es);
  }

  lemma InvNotFaulted(w: World, es: seq<Event>)
    requires Inv(w) && DisciplinedRun(w, es)
    ensures !Exec(w, es).faulted
  {
    ExecInv(w, es);
  }

  lemma {:induction false} ExecThen(w: World, es: seq<Event>, e: Event)
    requires DisciplinedRun(w, es) && !e.CreateJetty?
    ensures Exec(w, es + [e]) == Apply(Exec(w, es), e) && DisciplinedRun(w, es + [e])
    decreases |es|
  {
    hide Apply;
    if es == [] {
      assert [e][1..] == [];
    } else {
      ExecThen(Apply(w, es[0]), es[1..], e);
      assert (es + [e])[1..] == es[1..] + [e] && (es + [e])[0] == es[0];
    }
  }

  /** Only a jetty with an out-of-range priority leaks. */
  lemma NothingElseLeaks(w: World, e: Event)
    requires NothingLeaked(w) && Disciplined(w, e) && Inv(w)
    ensures NothingLeaked(Apply(w, e))
  {
    if e.DropHandle? || e.ThreadExit? {
      DropsLeakNothing(w, e);
    } else {
      BuildsLeakNothing(w, e);
    }
  }

  lemma AdoptLeaksNothing(w: World, kind: Kind, up: Option<Id>, parents: seq<set<Id>>)
    requires NothingLeaked(w) && kind != Leaked && |parents| <= 2
    ensures NothingLeaked(Adopt(w, kind, up, parents))
  {
    hide NewObjs, NewRaws;
  }

  lemma BuildsLeakNothing(w: World, e: Event)
    requires NothingLeaked(w) && Disciplined(w, e) && !e.DropHandle? && !e.ThreadExit?
    ensures NothingLeaked(Apply(w, e))
  {
    hide Adopt, NothingLeaked, Raw;
    forall w0: World, kind, up, parents | NothingLeaked(w0) && kind != Leaked && |parents| <= 2
      ensures NothingLeaked(Adopt(w0, kind, up, parents))
    {
      AdoptLeaksNothing(w0, kind, up, parents);
    }
    forall w0: World, slot, next
      ensures NothingLeaked(w0.(slot := slot)) == NothingLeaked(w0)
      ensures NothingLeaked(w0.(next := next)) == NothingLeaked(w0)
    {
      SameNodes(w0, w0.(slot := slot));
      SameNodes(w0, w0.(next := next));
    }
    forall w0: World, parents
      ensures NothingLeaked(RolledBack(w0, parents)) == NothingLeaked(w0)
    {
      SameNodes(w0, RolledBack(w0, parents));
    }
  }

  lemma SameNodes(w: World, w': World)
    requires w'.nodes == w.nodes
    ensures NothingLeaked(w') == NothingLeaked(w)
  {
  }

  lemma DropsLeakNothing(w: World, e: Event)
    requires NothingLeaked(w) && Inv(w) && (e.DropHandle? || e.ThreadExit?)
    ensures NothingLeaked(Apply(w, e))
  {
    hide Shape, Safe, Release;
    if e.DropHandle? && Droppable(w, e.handle) {
      DropShape(w, e.handle);
    } else if e.ThreadExit? && w.slot.Some? {
      SlotIsUnshared(w);
      ExitInv(w);
      DropShape(w.(slot := None, exited := true), w.slot.value);
    }
  }
}
