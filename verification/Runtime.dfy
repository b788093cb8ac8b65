/**
 * The wrapper's constructors and destructors as they run: C calls in source order, counts
 * raised and lowered in place, rollbacks on the error paths. Each method does exactly what
 * the corresponding step of `ResourceTree` says, so everything proved there about whole
 * programs holds for it.
 */
module Runtime {
  import opened Wrappers
  import opened ResourceTree
  import opened Lifecycles

  class Tree {
    var nodes: map<Id, Node>
    var objs: map<Id, Obj>
    var next: Id
    var slot: Option<Id>
    var exited: bool
    var faulted: bool

    ghost function View(): (w: World)
      reads this
    {
      World(nodes, objs, next, slot, exited, faulted)
    }

    constructor ()
      ensures View() == FRESH && Inv(View())
    {
      nodes, objs, next, slot, exited, faulted := map[], map[], 0, None, false, false;
    }

    /** A `urma_delete_*` call. */
    method DeleteObj(c: Id)
      modifies this`objs, this`faulted
      ensures View() == CDelete(old(View()), c)
    {
      if c !in objs || HasChild(objs, c) {
        faulted := true;
      }
      objs := objs - {c};
    }

    /** Register a new Rust value that takes a share of `up`. */
    method AddNode(id: Id, kind: Kind, raws: seq<Id>, up: Option<Id>)
      modifies this`nodes
      ensures View() == Attach(old(View()), kind, raws, up, id)
    {
      if up.Some? && up.value in nodes {
        nodes := nodes[up.value := nodes[up.value].(strong := nodes[up.value].strong + 1)];
      }
      nodes := nodes[id := Node(kind, raws, up, 0)];
    }

    /** The two C objects of one new value, in creation order, and the value that owns them. */
    method AddPair(kind: Kind, up: Id, first: set<Id>, second: set<Id>)
      modifies this`nodes, this`objs, this`next
      ensures View() == Adopt(old(View()), kind, Some(up), [second, first])
    {
      var id := next;
      objs := objs[id + 1 := Obj(first, id)];
      objs := objs[id + 2 := Obj(second, id)];
      next := id + 3;
      PairObjs(old(objs), id, first, second);
      hide NewObjs;
      AddNode(id, kind, [id + 2, id + 1], Some(up));
    }

    /** Create the first C object of a pair, fail on the second, delete the first again. */
    method CreateAndUndo(from: set<Id>)
      modifies this`objs, this`next, this`faulted
      ensures View() == RolledBack(old(View()), from)
    {
      var id := next;
      objs := objs[id + 1 := Obj(from, id)];
      next := id + 2;
      DeleteObj(id + 1);
    }

    method AddHandle(kind: Kind, up: Id) returns (h: Id)
      modifies this`nodes, this`next
      ensures h == old(next) && View() == Adopt(old(View()), kind, Some(up), [])
    {
      h := next;
      next := next + 1;
      AddNode(h, kind, [], Some(up));
      assert old(objs) + NewObjs(h, []) == old(objs);
    }

    /** `CompletionQueue::new`: jfce, then jfc; a failed jfc deletes the jfce again. */
    method NewQueue(ctx: Id, okJfce: bool, okJfc: bool) returns (h: Option<Id>)
      requires Holds(View(), ctx, ContextHandle)
      modifies this
      ensures View() == QueueCreated(old(View()), ctx, okJfce, okJfc)
      ensures h.Some? <==> okJfce && okJfc
      ensures h.Some? ==> h.value == NewHandle(old(View()), CreateQueue(ctx, okJfce, okJfc))
      ensures old(Inv(View())) ==> Inv(View()) && !faulted
    {
      KeepsInv(View(), CreateQueue(ctx, okJfce, okJfc));
      hide Inv, Adopt, RolledBack;
      if !okJfce {
        return None;
      }
      var inner := nodes[ctx].up.value;
      var raw := nodes[inner].raws[0];
      if !okJfc {
        CreateAndUndo({raw});
        return None;
      }
      var id := next;
      AddPair(QueueInner, inner, {raw}, {raw, id + 1});
      AdoptNext(old(View()), QueueInner, Some(inner), [{raw, id + 1}, {raw}]);
      var handle := AddHandle(QueueHandle, id);
      h := Some(handle);
    }

    /** `Jetty::new`: the priority is checked only after the jfr exists. */
    method NewJetty(ctx: Id, cq: Id, priority: nat, okJfr: bool, okJetty: bool) returns (h: Option<Id>)
      requires Holds(View(), ctx, ContextHandle) && Holds(View(), cq, QueueHandle)
      modifies this
      ensures View() == JettyCreated(old(View()), ctx, cq, priority, okJfr, okJetty)
      ensures h.Some? <==> okJfr && okJetty && priority <= MAX_PRIORITY
      ensures h.Some? ==> h.value == NewHandle(old(View()), CreateJetty(ctx, cq, priority, okJfr, okJetty))
      ensures old(Inv(View()) && Disciplined(View(), CreateJetty(ctx, cq, priority, okJfr, okJetty))) ==>
                Inv(View()) && !faulted
    {
      KeepsInv(View(), CreateJetty(ctx, cq, priority, okJfr, okJetty));
      hide Inv, Adopt, RolledBack;
      if !okJfr {
        return None;
      }
      var queue := nodes[cq].up.value;
      var from := {nodes[nodes[ctx].up.value].raws[0], nodes[queue].raws[0]};
      if priority > MAX_PRIORITY {
        Forget(from);
        return None;
      }
      if !okJetty {
        CreateAndUndo(from);
        return None;
      }
      h := Some(next);
      AddPair(Jetty, queue, from, from + {next + 1});
    }

    /** A C object that no Rust value will ever delete. */
    method Forget(from: set<Id>)
      modifies this`nodes, this`objs, this`next
      ensures View() == Adopt(old(View()), Leaked, None, [from])
    {
      var id := next;
      objs := objs[id + 1 := Obj(from, id)];
      next := id + 2;
      AddNode(id, Leaked, [id + 1], None);
      assert objs == old(objs) + NewObjs(id, [from]);
    }

    /** `Peer::import_ctx`: segment, then jetty; a failed jetty unimports the segment again. */
    method ImportPeerBlobs(ctx: Id, okSeg: bool, okJetty: bool) returns (h: Option<Id>)
      requires Holds(View(), ctx, ContextHandle)
      modifies this
      ensures View() == PeerImported(old(View()), ctx, okSeg, okJetty)
      ensures h.Some? <==> okSeg && okJetty
      ensures h.Some? ==> h.value == NewHandle(old(View()), ImportPeer(ctx, okSeg, okJetty))
      ensures old(Inv(View())) ==> Inv(View()) && !faulted
    {
      KeepsInv(View(), ImportPeer(ctx, okSeg, okJetty));
      hide Inv, Adopt, RolledBack;
      if !okSeg {
        return None;
      }
      var inner := nodes[ctx].up.value;
      var raw := nodes[inner].raws[0];
      if !okJetty {
        CreateAndUndo({raw});
        return None;
      }
      h := Some(next);
      AddPair(Peer, inner, {raw}, {raw});
    }

    /** The C deletions of one destructor, in field order. */
    method DeleteAll(cs: seq<Id>)
      modifies this`objs, this`faulted
      ensures View() == CDeleteAll(old(View()), cs)
    {
      for i := 0 to |cs|
        invariant nodes == old(nodes) && next == old(next) && slot == old(slot) && exited == old(exited)
        invariant CDeleteAll(View(), cs[i..]) == CDeleteAll(old(View()), cs)
      {
        assert cs[i..][0] == cs[i] && cs[i..][1..] == cs[i + 1..];
        DeleteObj(cs[i]);
      }
    }

    /** One destructor: delete what the value owns, then let go of its parent's share. */
    method DropOne(v: Id) returns (up: Option<Id>)
      requires v in nodes
      modifies this`nodes, this`objs, this`faulted
      ensures up == old(nodes)[v].up && View() == Detach(old(View()), v)
    {
      var n := nodes[v];
      up := n.up;
      CDeleteAllNodes(View(), n.raws);
      DeleteAll(n.raws);
      nodes := nodes - {v};
      if up.Some? && up.value in nodes && nodes[up.value].strong > 0 {
        nodes := nodes[up.value := nodes[up.value].(strong := nodes[up.value].strong - 1)];
      }
    }

    /** Dropping a value, and every shared parent whose last holder it was. */
    method DropChain(h: Id)
      requires h in nodes
      modifies this`nodes, this`objs, this`faulted
      ensures View() == Release(old(View()), h)
    {
      hide Detach, CDeleteAll;
      var v, more := h, true;
      while more
        invariant more ==> v in nodes && Release(View(), v) == Release(old(View()), h)
        invariant !more ==> View() == Release(old(View()), h)
        decreases more, nodes.Keys
      {
        DetachKeys(View(), v);
        var up := DropOne(v);
        if up.Some? && up.value in nodes && nodes[up.value].strong == 0 {
          v := up.value;
        } else {
          more := false;
        }
      }
    }

    method Drop(h: Id)
      requires Droppable(View(), h)
      modifies this
      ensures View() == HandleDropped(old(View()), h)
      ensures old(Inv(View())) ==> Inv(View()) && !faulted
    {
      KeepsInv(View(), DropHandle(h));
      hide Inv, Release;
      DropChain(h);
    }
  }

  lemma DetachKeys(w: World, v: Id)
    requires v in w.nodes
    ensures Detach(w, v).nodes.Keys == w.nodes.Keys - {v}
  {
    CDeleteAllNodes(w, w.nodes[v].raws);
  }

  lemma PairObjs(objs: map<Id, Obj>, id: Id, first: set<Id>, second: set<Id>)
    ensures objs[id + 1 := Obj(first, id)][id + 2 := Obj(second, id)] == objs + NewObjs(id, [second, first])
  {
  }

  lemma KeepsInv(w: World, e: Event)
    ensures Inv(w) && Disciplined(w, e) ==> Inv(Apply(w, e)) && !Apply(w, e).faulted
  {
    if Inv(w) && Disciplined(w, e) {
      StepInv(w, e);
    }
  }
}
