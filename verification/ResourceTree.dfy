/**
 * The wrapper's resource tree: C objects created and deleted by the library, and the Rust
 * values that own them. Shared inner values (the init guard, a context, a completion queue)
 * are reference counted; every value that owns C objects deletes them when it is dropped
 * and then lets go of its one parent.
 */
module ResourceTree {
  import opened Wrappers

  type Id = nat

  const MAX_PRIORITY: nat := 15

  /** Values a program holds, and the shared inner values (`...Inner`) behind them. */
  datatype Kind =
    | Slot | Guard | InitInner
    | ContextHandle | ContextInner
    | QueueHandle | QueueInner
    | Jetty | Segment | Peer
    | Leaked  // a C object whose owner was forgotten: nothing ever deletes it
  {
    /** Shared inner values live behind a reference count. */
    predicate Shared() { InitInner? || ContextInner? || QueueInner? }

    /** The kind of shared value this kind keeps alive. */
    function Above(): (k: Option<Kind>)
      ensures k.Some? ==> k.value.Shared()
    {
      match this
      case InitInner | Leaked => None
      case Slot | Guard | ContextInner => Some(InitInner)
      case ContextHandle | QueueInner | Segment | Peer => Some(ContextInner)
      case QueueHandle | Jetty => Some(QueueInner)
    }
  }

  /** How many C objects a value of this kind owns. */
  function RawCount(k: Kind): (c: nat)
    ensures c <= 2
  {
    match k
    case InitInner | ContextInner | Segment | Leaked => 1
    case QueueInner | Jetty | Peer => 2
    case _ => 0
  }

  /** A Rust value: the C objects it owns, in deletion order, and the shared value it holds. */
  datatype Node = Node(kind: Kind, raws: seq<Id>, up: Option<Id>, strong: nat)

  /** A live C object: the C objects it was created from, and the value that owns it. */
  datatype Obj = Obj(parents: set<Id>, owner: Id)

  /** `faulted`: the library was asked to delete a dead object, or one that still has children. */
  datatype World = World(nodes: map<Id, Node>, objs: map<Id, Obj>, next: Id, slot: Option<Id>, exited: bool, faulted: bool)

  const FRESH: World := World(map[], map[], 0, None, false, false)

  // ---------------------------------------------------------------- C library

  function CCreate(w: World, parents: set<Id>, owner: Id): (w': World)
  {
    w.(objs := w.objs[w.next := Obj(parents, owner)], next := w.next + 1)
  }

  predicate HasChild(objs: map<Id, Obj>, c: Id)
  {
    exists x :: x in objs && c in objs[x].parents
  }

  function CDelete(w: World, c: Id): (w': World)
  {
    w.(objs := w.objs - {c}, faulted := w.faulted || c !in w.objs || HasChild(w.objs, c))
  }

  function CDeleteAll(w: World, cs: seq<Id>): (w': World)
    decreases |cs|
  {
    if cs == [] then w else CDeleteAll(CDelete(w, cs[0]), cs[1..])
  }

  // ---------------------------------------------------------------- reference counts

  /** The values that hold shared value `v`. */
  function Holders(nodes: map<Id, Node>, v: Id): (hs: set<Id>)
  {
    set x | x in nodes && nodes[x].up == Some(v)
  }

  /** Add a value that owns `raws` and holds `up`. */
  function Attach(w: World, kind: Kind, raws: seq<Id>, up: Option<Id>, id: Id): (w': World)
  {
    var held := if up.Some? && up.value in w.nodes
                then w.nodes[up.value := w.nodes[up.value].(strong := w.nodes[up.value].strong + 1)]
                else w.nodes;
    w.(nodes := held[id := Node(kind, raws, up, 0)])
  }

  /** Take value `v` away: delete what it owns, then drop its share of its parent. */
  function Detach(w: World, v: Id): (w': World)
    requires v in w.nodes
  {
    var n := w.nodes[v];
    var w1 := CDeleteAll(w, n.raws);
    var rest := w1.nodes - {v};
    if n.up.Some? && n.up.value in rest && rest[n.up.value].strong > 0
    then w1.(nodes := rest[n.up.value := rest[n.up.value].(strong := rest[n.up.value].strong - 1)])
    else w1.(nodes := rest)
  }

  lemma CDeleteAllNodes(w: World, cs: seq<Id>)
    ensures CDeleteAll(w, cs).nodes == w.nodes
    ensures CDeleteAll(w, cs).next == w.next && CDeleteAll(w, cs).slot == w.slot
    ensures CDeleteAll(w, cs).exited == w.exited
    ensures w.faulted ==> CDeleteAll(w, cs).faulted
    ensures CDeleteAll(w, cs).objs == w.objs - (set c | c in cs)
    decreases |cs|
  {
    if cs == [] {
      assert w.objs - {} == w.objs;
    } else {
      CDeleteAllNodes(CDelete(w, cs[0]), cs[1..]);
      assert (set c | c in cs) == {cs[0]} + (set c | c in cs[1..]);
    }
  }

  /** Drop value `v`; a shared parent goes with its last holder. */
  function Release(w: World, v: Id): (w': World)
    decreases |w.nodes|
  {
    if v !in w.nodes then w else
      var up := w.nodes[v].up;
      CDeleteAllNodes(w, w.nodes[v].raws);
      var w1 := Detach(w, v);
      assert w1.nodes.Keys == w.nodes.Keys - {v};
      if up.Some? && up.value in w1.nodes && w1.nodes[up.value].strong == 0
      then Release(w1, up.value)
      else w1
  }

  // ---------------------------------------------------------------- the invariant

  /** Counts match holders, parents exist, and what a value owns is alive and its own. */
  ghost predicate NodeOk(w: World, v: Id, loose: Option<Id>)
    requires v in w.nodes
  {
    var n := w.nodes[v];
    && v < w.next
    && n.up.Some? == n.kind.Above().Some?
    && (n.up.Some? ==> n.up.value in w.nodes && w.nodes[n.up.value].kind == n.kind.Above().value)
    && n.strong == |Holders(w.nodes, v)|
    && (n.kind.Shared() && loose != Some(v) ==> n.strong > 0)
    && |n.raws| == RawCount(n.kind)
    && (|n.raws| == 2 ==> n.raws[0] != n.raws[1])
    && (forall i :: 0 <= i < |n.raws| ==> n.raws[i] in w.objs && w.objs[n.raws[i]].owner == v)
  }

  ghost predicate ObjOk(w: World, c: Id)
    requires c in w.objs
  {
    c < w.next && w.objs[c].owner in w.nodes && c in w.nodes[w.objs[c].owner].raws
  }

  /** The counting and ownership part; `loose` may be a shared value that is about to go. */
  ghost predicate Shape(w: World, loose: Option<Id>)
  {
    && (forall v :: v in w.nodes ==> NodeOk(w, v, loose))
    && (forall c :: c in w.objs ==> ObjOk(w, c))
    && (w.slot.Some? ==> w.slot.value in w.nodes && w.nodes[w.slot.value].kind == Slot)
  }

  /** Parent `p` of `c` is deleted later by `c`'s own owner, or kept alive by what that owner holds. */
  ghost predicate ParentOk(w: World, c: Id, p: Id)
    requires c in w.objs
  {
    && p in w.objs
    && var v, o := w.objs[c].owner, w.objs[p].owner;
       && v in w.nodes
       && var n := w.nodes[v];
          || (v == o && |n.raws| == 2 && c == n.raws[0] && p == n.raws[1])
          || n.up == Some(o)
          || (n.up.Some? && n.up.value in w.nodes && w.nodes[n.up.value].up == Some(o))
  }

  ghost predicate Safe(w: World)
  {
    forall c, p :: c in w.objs && p in w.objs[c].parents ==> ParentOk(w, c, p)
  }

  ghost predicate Inv(w: World)
  {
    Shape(w, None) && Safe(w) && !w.faulted
  }

  // ---------------------------------------------------------------- dropping

  /** `w'` is `w` without value `v` and the objects it owned, its parent's count one lower. */
  ghost predicate Removed(w: World, v: Id, w': World)
  {
    && v in w.nodes
    && w'.nodes.Keys == w.nodes.Keys - {v}
    && (forall u :: u in w'.nodes ==> w'.nodes[u] == w.nodes[u].(strong := w'.nodes[u].strong))
    && (forall u :: u in w'.nodes ==>
          w'.nodes[u].strong == w.nodes[u].strong - (if w.nodes[v].up == Some(u) then 1 else 0))
    && w'.objs == w.objs - (set c | c in w.nodes[v].raws)
    && w'.next == w.next && w'.slot == w.slot
  }

  /** The parent of a value nobody holds is another value, and counts it as a holder. */
  lemma UpCounts(w: World, v: Id)
    requires v in w.nodes && Shape(w, Some(v)) && Holders(w.nodes, v) == {}
    ensures var up := w.nodes[v].up; up.Some? ==> up.value in w.nodes && up.value != v && w.nodes[up.value].strong > 0
  {
    hide ObjOk;
    assert NodeOk(w, v, Some(v));
    var up := w.nodes[v].up;
    if up.Some? {
      assert v in Holders(w.nodes, up.value);
      assert NodeOk(w, up.value, Some(v));
      assert v !in Holders(w.nodes, v);
    }
  }

  lemma DetachRemoved(w: World, v: Id)
    requires v in w.nodes && Shape(w, Some(v)) && Holders(w.nodes, v) == {}
    ensures Removed(w, v, Detach(w, v))
  {
    hide Shape, Holders, CDeleteAll;
    CDeleteAllNodes(w, w.nodes[v].raws);
    UpCounts(w, v);
  }

  lemma RemovedHolders(w: World, v: Id, w': World, u: Id)
    requires Removed(w, v, w') && u in w'.nodes
    ensures Holders(w'.nodes, u) == Holders(w.nodes, u) - {v}
    ensures |Holders(w'.nodes, u)| == |Holders(w.nodes, u)| - (if w.nodes[v].up == Some(u) then 1 else 0)
  {
    assert Holders(w'.nodes, u) == Holders(w.nodes, u) - {v};
    assert v in Holders(w.nodes, u) <==> w.nodes[v].up == Some(u);
  }

  lemma NotHeldBy(w: World, v: Id, u: Id)
    requires Holders(w.nodes, v) == {} && u in w.nodes
    ensures w.nodes[u].up != Some(v)
  {
    assert u !in Holders(w.nodes, v);
  }

  lemma RemovedNodeOk(w: World, v: Id, w': World, u: Id)
    requires Removed(w, v, w') && Shape(w, Some(v)) && Holders(w.nodes, v) == {} && u in w'.nodes
    ensures NodeOk(w', u, w.nodes[v].up)
  {
    hide ObjOk, Holders;
    assert NodeOk(w, u, Some(v)) && NodeOk(w, v, Some(v));
    RemovedHolders(w, v, w', u);
    NotHeldBy(w, v, u);
  }

  lemma RemovedShape(w: World, v: Id, w': World)
    requires Removed(w, v, w') && Shape(w, Some(v)) && Holders(w.nodes, v) == {} && w.slot != Some(v)
    ensures Shape(w', w.nodes[v].up)
  {
    hide NodeOk;
    forall u | u in w'.nodes ensures NodeOk(w', u, w.nodes[v].up) {
      RemovedNodeOk(w, v, w', u);
    }
    forall c | c in w'.objs ensures ObjOk(w', c) {
      assert ObjOk(w, c);
    }
  }

  /** No live object outside `v` was created from what `v` owns. */
  lemma NoOutsideChild(w: World, v: Id, c: Id, x: Id)
    requires v in w.nodes && Shape(w, Some(v)) && Safe(w) && Holders(w.nodes, v) == {}
    requires c in w.nodes[v].raws && x in w.objs && c in w.objs[x].parents
    ensures |w.nodes[v].raws| == 2 && x == w.nodes[v].raws[0] && c == w.nodes[v].raws[1]
  {
    assert NodeOk(w, v, Some(v)) && ObjOk(w, x) && ParentOk(w, x, c);
    var o := w.objs[x].owner;
    assert NodeOk(w, o, Some(v));
    assert o !in Holders(w.nodes, v);
    if w.nodes[o].up.Some? {
      assert w.nodes[o].up.value !in Holders(w.nodes, v);
    }
  }

  lemma RemovedSafe(w: World, v: Id, w': World)
    requires Removed(w, v, w') && Shape(w, Some(v)) && Safe(w) && Holders(w.nodes, v) == {}
    ensures Safe(w')
  {
    forall c, p | c in w'.objs && p in w'.objs[c].parents ensures ParentOk(w', c, p) {
      assert ParentOk(w, c, p) && ObjOk(w, c);
      var o := w.objs[c].owner;
      assert NodeOk(w, o, Some(v));
      assert o !in Holders(w.nodes, v);
      if p in w.nodes[v].raws {
        NoOutsideChild(w, v, p, c);
      }
    }
  }

  lemma DeleteAllNoFault(w: World, raws: seq<Id>)
    requires !w.faulted && |raws| <= 2 && (|raws| == 2 ==> raws[0] != raws[1])
    requires forall i :: 0 <= i < |raws| ==> raws[i] in w.objs
    requires forall c, x :: c in raws && x in w.objs && c in w.objs[x].parents ==>
               |raws| == 2 && x == raws[0] && c == raws[1]
    ensures !CDeleteAll(w, raws).faulted
  {
    if |raws| > 0 {
      assert raws[0] in raws;
      assert !HasChild(w.objs, raws[0]);
      var w1 := CDelete(w, raws[0]);
      if |raws| == 2 {
        assert raws[1] in raws && raws[1..] == [raws[1]];
        assert !HasChild(w1.objs, raws[1]);
        assert CDeleteAll(w1, [raws[1]]) == CDelete(w1, raws[1]);
      } else {
        assert raws[1..] == [];
      }
    }
  }

  /** The library never sees `v`'s objects deleted in a wrong order. */
  lemma DetachNoFault(w: World, v: Id)
    requires v in w.nodes && Shape(w, Some(v)) && Safe(w) && !w.faulted && Holders(w.nodes, v) == {}
    ensures !Detach(w, v).faulted
  {
    var raws := w.nodes[v].raws;
    assert NodeOk(w, v, Some(v));
    forall c, x | c in raws && x in w.objs && c in w.objs[x].parents
      ensures |raws| == 2 && x == raws[0] && c == raws[1]
    {
      NoOutsideChild(w, v, c, x);
    }
    hide ParentOk, Safe, Shape, Holders, CDeleteAll;
    DeleteAllNoFault(w, raws);
  }

  lemma UpExists(w: World, v: Id, loose: Option<Id>)
    requires Shape(w, loose) && v in w.nodes && w.nodes[v].up.Some?
    ensures var up := w.nodes[v].up; up.value in w.nodes && up.value != v && w.slot != up
    ensures w.nodes[w.nodes[v].up.value].kind.Shared()
  {
    assert NodeOk(w, v, loose);
  }

  lemma {:induction false} ReleaseShape(w: World, v: Id)
    requires v in w.nodes && Shape(w, Some(v)) && Holders(w.nodes, v) == {} && w.slot != Some(v)
    ensures Shape(Release(w, v), None)
    ensures Safe(w) && !w.faulted ==> Inv(Release(w, v))
    ensures Release(w, v).nodes.Keys <= w.nodes.Keys - {v}
    decreases |w.nodes|
  {
    hide NodeOk, ObjOk, ParentOk, Holders;
    var w1, up := Detach(w, v), w.nodes[v].up;
    DetachRemoved(w, v);
    RemovedShape(w, v, w1);
    if Safe(w) && !w.faulted {
      RemovedSafe(w, v, w1);
      DetachNoFault(w, v);
    }
    if up.Some? {
      UpExists(w, v, Some(v));
    }
    hide Detach, Safe;
    SettleOrRelease(w1, up);
    if up.Some? && w1.nodes[up.value].strong == 0 {
      assert |w1.nodes.Keys| == |w.nodes.Keys - {v}|;
      ReleaseShape(w1, up.value);
    }
  }

  /** After a drop the parent is either still held, or has no holder left at all. */
  lemma SettleOrRelease(w: World, up: Option<Id>)
    requires Shape(w, up) && (up.Some? ==> up.value in w.nodes && w.slot != up)
    ensures up.None? || w.nodes[up.value].strong > 0 ==> Shape(w, None)
    ensures up.Some? && w.nodes[up.value].strong == 0 ==> Holders(w.nodes, up.value) == {}
  {
    if up.Some? {
      assert NodeOk(w, up.value, up);
      if w.nodes[up.value].strong > 0 {
        forall u | u in w.nodes ensures NodeOk(w, u, None) {
          assert NodeOk(w, u, up);
        }
      }
    }
  }

  // ---------------------------------------------------------------- creating

  /** Add value `id` holding `up` ... */
  ghost predicate AddedNode(w: World, id: Id, n: Node, w': World)
  {
    && id !in w.nodes && id == w.next && w'.next > w.next
    && w'.nodes.Keys == w.nodes.Keys + {id} && w'.nodes[id] == n
    && (forall u :: u in w.nodes ==> w'.nodes[u] == w.nodes[u].(strong := w'.nodes[u].strong))
    && (forall u :: u in w.nodes ==>
          w'.nodes[u].strong == w.nodes[u].strong + (if n.up == Some(u) then 1 else 0))
    && w'.faulted == w.faulted && w'.slot == w.slot
  }

  /** ... together with the new C objects it owns. */
  ghost predicate AddedObjs(w: World, id: Id, n: Node, made: map<Id, Obj>, w': World)
  {
    && made.Keys !! w.objs.Keys && w'.objs == w.objs + made
    && made.Keys == (set c | c in n.raws)
    && (forall c :: c in made ==> w.next <= c < w'.next && made[c].owner == id)
  }

  ghost predicate Added(w: World, id: Id, n: Node, made: map<Id, Obj>, w': World)
  {
    AddedNode(w, id, n, w') && AddedObjs(w, id, n, made, w')
  }

  lemma AddedHolders(w: World, id: Id, n: Node, made: map<Id, Obj>, w': World, u: Id)
    requires Added(w, id, n, made, w') && u in w.nodes
    ensures |Holders(w'.nodes, u)| == |Holders(w.nodes, u)| + (if n.up == Some(u) then 1 else 0)
  {
    if n.up == Some(u) {
      assert Holders(w'.nodes, u) == Holders(w.nodes, u) + {id};
    } else {
      assert Holders(w'.nodes, u) == Holders(w.nodes, u);
    }
  }

  ghost predicate FitsIn(w: World, n: Node)
  {
    && n.up.Some? == n.kind.Above().Some?
    && (n.up.Some? ==> n.up.value in w.nodes && w.nodes[n.up.value].kind == n.kind.Above().value)
    && n.strong == 0 && |n.raws| == RawCount(n.kind) && (|n.raws| == 2 ==> n.raws[0] != n.raws[1])
  }

  lemma AddedOldNode(w: World, id: Id, n: Node, made: map<Id, Obj>, w': World, loose: Option<Id>, loose': Option<Id>, u: Id)
    requires Shape(w, loose) && Added(w, id, n, made, w') && FitsIn(w, n) && u in w.nodes
    requires loose.None? || n.up == loose || loose' == loose
    ensures NodeOk(w', u, loose')
  {
    assert NodeOk(w, u, loose);
    AddedHolders(w, id, n, made, w', u);
  }

  lemma AddedNewNode(w: World, id: Id, n: Node, made: map<Id, Obj>, w': World, loose: Option<Id>, loose': Option<Id>)
    requires Shape(w, loose) && Added(w, id, n, made, w') && FitsIn(w, n)
    requires n.kind.Shared() ==> loose' == Some(id)
    ensures NodeOk(w', id, loose')
  {
    forall x | x in w.nodes ensures w.nodes[x].up != Some(id) {
      assert NodeOk(w, x, loose);
    }
    assert Holders(w'.nodes, id) == {};
    assert forall i :: 0 <= i < |n.raws| ==> n.raws[i] in made;
  }

  lemma AddedShape(w: World, id: Id, n: Node, made: map<Id, Obj>, w': World, loose: Option<Id>, loose': Option<Id>)
    requires Shape(w, loose) && Added(w, id, n, made, w') && FitsIn(w, n)
    requires loose.None? || n.up == loose || loose' == loose
    requires n.kind.Shared() ==> loose' == Some(id)
    ensures Shape(w', loose')
  {
    hide NodeOk, FitsIn;
    forall u | u in w'.nodes ensures NodeOk(w', u, loose') {
      if u == id {
        AddedNewNode(w, id, n, made, w', loose, loose');
      } else {
        AddedOldNode(w, id, n, made, w', loose, loose', u);
      }
    }
    forall c | c in w'.objs ensures ObjOk(w', c) {
      if c in w.objs {
        assert ObjOk(w, c);
      }
    }
  }

  /** New objects created from what the new value keeps alive, or from each other in order. */
  lemma AddedSafe(w: World, id: Id, n: Node, made: map<Id, Obj>, w': World, loose: Option<Id>)
    requires Shape(w, loose) && Safe(w) && Added(w, id, n, made, w')
    requires forall c, p :: c in made && p in made[c].parents ==>
               || (|n.raws| == 2 && c == n.raws[0] && p == n.raws[1])
               || (p in w.objs && (n.up == Some(w.objs[p].owner)
                   || (n.up.Some? && n.up.value in w.nodes && w.nodes[n.up.value].up == Some(w.objs[p].owner))))
    ensures Safe(w')
  {
    forall c, p | c in w'.objs && p in w'.objs[c].parents ensures ParentOk(w', c, p) {
      if c in w.objs {
        assert ParentOk(w, c, p) && ObjOk(w, c);
      }
    }
  }

  /** The ids and objects a new value `id` owns, in deletion order: last created first. */
  function NewRaws(id: Id, count: nat): (raws: seq<Id>)
    requires count <= 2
    ensures |raws| == count && forall i :: 0 <= i < count ==> raws[i] == id + count - i
  {
    if count == 0 then [] else if count == 1 then [id + 1] else [id + 2, id + 1]
  }

  function NewObjs(id: Id, parents: seq<set<Id>>): (made: map<Id, Obj>)
    requires |parents| <= 2
    ensures made.Keys == (set c | c in NewRaws(id, |parents|))
    ensures forall c :: c in made ==> id < c <= id + |parents| && made[c] == Obj(parents[id + |parents| - c], id)
  {
    if |parents| == 0 then map[]
    else if |parents| == 1 then map[id + 1 := Obj(parents[0], id)]
    else map[id + 2 := Obj(parents[0], id), id + 1 := Obj(parents[1], id)]
  }

  /** A new value of the given kind, owning one new C object per entry of `parents`, in deletion order. */
  function Adopt(w: World, kind: Kind, up: Option<Id>, parents: seq<set<Id>>): (w': World)
    requires |parents| <= 2
  {
    var id := w.next;
    Attach(w.(objs := w.objs + NewObjs(id, parents), next := id + 1 + |parents|),
           kind, NewRaws(id, |parents|), up, id)
  }

  function NewNode(w: World, kind: Kind, up: Option<Id>, parents: seq<set<Id>>): (n: Node)
    requires |parents| <= 2
  {
    Node(kind, NewRaws(w.next, |parents|), up, 0)
  }

  ghost predicate CanAdopt(w: World, kind: Kind, up: Option<Id>, parents: seq<set<Id>>)
  {
    && |parents| == RawCount(kind)
    && up.Some? == kind.Above().Some?
    && (up.Some? ==> up.value in w.nodes && w.nodes[up.value].kind == kind.Above().value)
  }

  lemma NextIsUnused(w: World, loose: Option<Id>, c: Id)
    requires Shape(w, loose) && c >= w.next
    ensures c !in w.nodes && c !in w.objs
  {
  }

  lemma AdoptAddedNode(w: World, kind: Kind, up: Option<Id>, parents: seq<set<Id>>)
    requires w.next !in w.nodes && |parents| <= 2 && (up.Some? ==> up.value in w.nodes)
    ensures AddedNode(w, w.next, NewNode(w, kind, up, parents), Adopt(w, kind, up, parents))
  {
    hide NewObjs, NewRaws;
    assert Adopt(w, kind, up, parents).nodes.Keys == w.nodes.Keys + {w.next};
  }

  lemma AdoptAdded(w: World, kind: Kind, up: Option<Id>, parents: seq<set<Id>>, loose: Option<Id>)
    requires Shape(w, loose) && CanAdopt(w, kind, up, parents)
    ensures FitsIn(w, NewNode(w, kind, up, parents))
    ensures Added(w, w.next, NewNode(w, kind, up, parents), NewObjs(w.next, parents), Adopt(w, kind, up, parents))
  {
    hide Shape, NewObjs, NewRaws, AddedNode;
    NextIsUnused(w, loose, w.next);
    NextIsUnused(w, loose, w.next + 1);
    NextIsUnused(w, loose, w.next + 2);
    AdoptAddedNode(w, kind, up, parents);
    assert NewObjs(w.next, parents).Keys !! w.objs.Keys;
  }

  // ---------------------------------------------------------------- programs

  /** What a program can do on its thread; booleans are the C library's answers. */
  datatype Event =
    | InitLib(ok: bool)
    | CreateContext(guard: Id, ok: bool)
    | CloneHandle(handle: Id)
    | CreateQueue(ctx: Id, okJfce: bool, okJfc: bool)
    | CreateJetty(ctx: Id, cq: Id, priority: nat, okJfr: bool, okJetty: bool)
    | RegisterSeg(ctx: Id, ok: bool)
    | ImportPeer(ctx: Id, okSeg: bool, okJetty: bool)
    | DropHandle(handle: Id)
    | ThreadExit

  /** `h` is a live handle of kind `k` whose shared value is alive. */
  predicate Holds(w: World, h: Id, k: Kind)
  {
    h in w.nodes && w.nodes[h].kind == k && w.nodes[h].up.Some? && w.nodes[h].up.value in w.nodes
    && |w.nodes[w.nodes[h].up.value].raws| > 0
  }

  /** The shared value behind handle `h`, and the C object it stands for. */
  function Inner(w: World, h: Id): (v: Id)
    requires h in w.nodes && w.nodes[h].up.Some?
  {
    w.nodes[h].up.value
  }

  function Raw(w: World, h: Id): (c: Id)
    requires h in w.nodes && w.nodes[h].up.Some? && w.nodes[h].up.value in w.nodes
    requires |w.nodes[w.nodes[h].up.value].raws| > 0
  {
    w.nodes[Inner(w, h)].raws[0]
  }

  /** A value the program itself holds and can drop. */
  predicate Droppable(w: World, h: Id)
  {
    h in w.nodes && !w.nodes[h].kind.Shared() && w.nodes[h].kind != Leaked && w.slot != Some(h)
  }

  /** Create a C object and delete it again: the rollback of a constructor that fails half-way. */
  function RolledBack(w: World, parents: set<Id>): (w': World)
  {
    CDelete(CCreate(w.(next := w.next + 1), parents, w.next), w.next + 1)
  }

  /** `Urma::init`: once per thread; later calls clone the cached guard. */
  function LibInited(w: World, ok: bool): (w': World)
  {
    if w.exited then w
    else if w.slot.Some? then
      if Holds(w, w.slot.value, Slot) then Adopt(w, Guard, Some(Inner(w, w.slot.value)), []) else w
    else if !ok then w
    else
      var inner := Some(w.next);
      var w1 := Adopt(w, InitInner, None, [{}]);
      var w2 := Adopt(w1, Slot, inner, []).(slot := Some(w1.next));
      Adopt(w2, Guard, inner, [])
  }

  /** `Context::create`. */
  function ContextCreated(w: World, guard: Id, ok: bool): (w': World)
  {
    if !Holds(w, guard, Guard) || !ok then w
    else Adopt(Adopt(w, ContextInner, Some(Inner(w, guard)), [{Raw(w, guard)}]), ContextHandle, Some(w.next), [])
  }

  /** Cloning a context or queue handle. */
  function HandleCloned(w: World, h: Id): (w': World)
  {
    if Holds(w, h, ContextHandle) || Holds(w, h, QueueHandle)
    then Adopt(w, w.nodes[h].kind, w.nodes[h].up, [])
    else w
  }

  /** `CompletionQueue::new`: jfce, then jfc. */
  function QueueCreated(w: World, ctx: Id, okJfce: bool, okJfc: bool): (w': World)
  {
    if !Holds(w, ctx, ContextHandle) || !okJfce then w
    else if !okJfc then RolledBack(w, {Raw(w, ctx)})
    else
      var jfce := w.next + 1;
      Adopt(Adopt(w, QueueInner, Some(Inner(w, ctx)), [{Raw(w, ctx), jfce}, {Raw(w, ctx)}]),
            QueueHandle, Some(w.next), [])
  }

  /** `Jetty::new`: jfr, then the priority check, then the jetty. */
  function JettyCreated(w: World, ctx: Id, cq: Id, priority: nat, okJfr: bool, okJetty: bool): (w': World)
  {
    if !Holds(w, ctx, ContextHandle) || !Holds(w, cq, QueueHandle) || !okJfr then w
    else
      var parents := {Raw(w, ctx), Raw(w, cq)};
      if priority > MAX_PRIORITY then Adopt(w, Leaked, None, [parents])
      else if !okJetty then RolledBack(w, parents)
      else BuiltJetty(w, Inner(w, cq), parents)
  }

  /** A jetty and its jfr, created from `parents`, held up by a queue. */
  function BuiltJetty(w: World, queue: Id, parents: set<Id>): (w': World)
  {
    Adopt(w, Jetty, Some(queue), [parents + {w.next + 1}, parents])
  }

  /** `RegisteredSeg::register_in`. */
  function SegRegistered(w: World, ctx: Id, ok: bool): (w': World)
  {
    if !Holds(w, ctx, ContextHandle) || !ok then w
    else Adopt(w, Segment, Some(Inner(w, ctx)), [{Raw(w, ctx)}])
  }

  /** `Peer::import` and `Peer::import_ctx`: segment, then jetty. */
  function PeerImported(w: World, ctx: Id, okSeg: bool, okJetty: bool): (w': World)
  {
    if !Holds(w, ctx, ContextHandle) || !okSeg then w
    else if !okJetty then RolledBack(w, {Raw(w, ctx)})
    else Adopt(w, Peer, Some(Inner(w, ctx)), [{Raw(w, ctx)}, {Raw(w, ctx)}])
  }

  function HandleDropped(w: World, h: Id): (w': World)
  {
    if Droppable(w, h) then Release(w, h) else w
  }

  /** The thread-local init slot goes away with its thread. */
  function ThreadExited(w: World): (w': World)
  {
    if w.slot.Some? then Release(w.(slot := None, exited := true), w.slot.value) else w.(exited := true)
  }

  function Apply(w: World, e: Event): (w': World)
  {
    match e
    case InitLib(ok) => LibInited(w, ok)
    case CreateContext(guard, ok) => ContextCreated(w, guard, ok)
    case CloneHandle(h) => HandleCloned(w, h)
    case CreateQueue(ctx, okJfce, okJfc) => QueueCreated(w, ctx, okJfce, okJfc)
    case CreateJetty(ctx, cq, priority, okJfr, okJetty) => JettyCreated(w, ctx, cq, priority, okJfr, okJetty)
    case RegisterSeg(ctx, ok) => SegRegistered(w, ctx, ok)
    case ImportPeer(ctx, okSeg, okJetty) => PeerImported(w, ctx, okSeg, okJetty)
    case DropHandle(h) => HandleDropped(w, h)
    case ThreadExit => ThreadExited(w)
  }

  /** A jetty that is really built uses the context its queue was built on. */
  predicate SameContext(w: World, ctx: Id, cq: Id)
  {
    && Holds(w, ctx, ContextHandle) && Holds(w, cq, QueueHandle)
    && w.nodes[Inner(w, cq)].up == Some(Inner(w, ctx))
  }

  /** The two things the wrapper leaves to its caller. */
  predicate Disciplined(w: World, e: Event)
  {
    e.CreateJetty? && Holds(w, e.ctx, ContextHandle) && Holds(w, e.cq, QueueHandle) && e.okJfr ==>
      e.priority <= MAX_PRIORITY && (e.okJetty ==> SameContext(w, e.ctx, e.cq))
  }

  // ---------------------------------------------------------------- each operation keeps the invariant

  lemma AdoptInv(w: World, kind: Kind, up: Option<Id>, parents: seq<set<Id>>, loose: Option<Id>, loose': Option<Id>)
    requires Shape(w, loose) && Safe(w) && !w.faulted && CanAdopt(w, kind, up, parents)
    requires loose.None? || up == loose || loose' == loose
    requires kind.Shared() ==> loose' == Some(w.next)
    requires forall i, p :: 0 <= i < |parents| && p in parents[i] ==>
               || (i == 0 && |parents| == 2 && p == w.next + 1)
               || (p in w.objs && (up == Some(w.objs[p].owner)
                   || (up.Some? && w.nodes[up.value].up == Some(w.objs[p].owner))))
    ensures var w' := Adopt(w, kind, up, parents);
            && Shape(w', loose') && Safe(w') && !w'.faulted && w'.slot == w.slot
            && w.next in w'.nodes && w'.nodes[w.next].kind == kind && w.next < w'.next
  {
    hide Shape, NodeOk, ObjOk, Safe, RawCount;
    AdoptAdded(w, kind, up, parents, loose);
    var n, made, w' := NewNode(w, kind, up, parents), NewObjs(w.next, parents), Adopt(w, kind, up, parents);
    AddedShape(w, w.next, n, made, w', loose, loose');
    AddedSafe(w, w.next, n, made, w', loose);
  }

  /** A live handle's shared value is of the right kind, and its C object is its own. */
  lemma HandleFacts(w: World, h: Id, k: Kind)
    requires Shape(w, None) && h in w.nodes && w.nodes[h].kind == k && k.Above().Some?
    ensures Holds(w, h, k)
    ensures w.nodes[Inner(w, h)].kind == k.Above().value
    ensures Raw(w, h) in w.objs && w.objs[Raw(w, h)].owner == Inner(w, h)
  {
    hide Holders, ObjOk;
    assert NodeOk(w, h, None);
    assert NodeOk(w, Inner(w, h), None);
  }

  lemma UnsharedHasNoHolders(w: World, h: Id, loose: Option<Id>)
    requires Shape(w, loose) && h in w.nodes && !w.nodes[h].kind.Shared()
    ensures Holders(w.nodes, h) == {}
  {
    forall x | x in w.nodes ensures w.nodes[x].up != Some(h) {
      assert NodeOk(w, x, loose);
    }
  }

  lemma ReleaseInv(w: World, h: Id)
    requires Inv(w) && h in w.nodes && !w.nodes[h].kind.Shared() && w.slot != Some(h)
    ensures Inv(Release(w, h))
  {
    UnsharedHasNoHolders(w, h, None);
    assert Shape(w, Some(h)) by {
      forall u | u in w.nodes ensures NodeOk(w, u, Some(h)) {
        assert NodeOk(w, u, None);
      }
    }
    ReleaseShape(w, h);
  }

  lemma CreateInitInv(w: World)
    requires Inv(w) && w.slot.None? && !w.exited
    ensures Inv(Apply(w, InitLib(true)))
  {
    hide Shape, Safe, Adopt;
    var inner := Some(w.next);
    AdoptInv(w, InitInner, None, [{}], None, inner);
    var w1 := Adopt(w, InitInner, None, [{}]);
    AdoptInv(w1, Slot, inner, [], inner, None);
    var w2 := Adopt(w1, Slot, inner, []);
    SlotInv(w2, w1.next);
    StaysPut(w1, Slot, inner, [], w.next);
    AdoptInv(w2.(slot := Some(w1.next)), Guard, inner, [], None, None);
  }

  /** Adding a value leaves the other values' kinds alone. */
  lemma StaysPut(w: World, kind: Kind, up: Option<Id>, parents: seq<set<Id>>, v: Id)
    requires |parents| <= 2 && v in w.nodes && v < w.next
    ensures v in Adopt(w, kind, up, parents).nodes
    ensures Adopt(w, kind, up, parents).nodes[v].kind == w.nodes[v].kind
  {
  }

  lemma SlotInv(w: World, v: Id)
    requires Inv(w) && v in w.nodes && w.nodes[v].kind == Slot
    ensures Inv(w.(slot := Some(v)))
  {
    var w' := w.(slot := Some(v));
    forall u | u in w'.nodes ensures NodeOk(w', u, None) {
      assert NodeOk(w, u, None);
    }
    forall c | c in w'.objs ensures ObjOk(w', c) {
      assert ObjOk(w, c);
    }
    forall c, p | c in w'.objs && p in w'.objs[c].parents ensures ParentOk(w', c, p) {
      assert ParentOk(w, c, p);
    }
  }

  lemma ExitInv(w: World)
    requires Inv(w)
    ensures Inv(w.(slot := None, exited := true)) && Inv(w.(exited := true))
  {
    forall w' | w' == w.(slot := None, exited := true) || w' == w.(exited := true) ensures Inv(w') {
      forall u | u in w'.nodes ensures NodeOk(w', u, None) {
        assert NodeOk(w, u, None);
      }
      forall c | c in w'.objs ensures ObjOk(w', c) {
        assert ObjOk(w, c);
      }
      forall c, p | c in w'.objs && p in w'.objs[c].parents ensures ParentOk(w', c, p) {
        assert ParentOk(w, c, p);
      }
    }
  }

  /** A rolled back creation leaves no trace but a used-up id. */
  lemma RollbackIsClean(w: World, parents: set<Id>)
    requires Inv(w) && w.next + 1 !in parents
    ensures RolledBack(w, parents) == w.(next := w.next + 2)
    ensures Inv(RolledBack(w, parents))
  {
    hide Shape, Safe;
    NextIsUnused(w, None, w.next + 1);
    InvParentsLive(w);
    var w1 := CCreate(w.(next := w.next + 1), parents, w.next);
    assert !HasChild(w1.objs, w.next + 1);
    assert w1.objs - {w.next + 1} == w.objs;
    NextMayGrow(w, w.next + 2);
  }

  lemma NextMayGrow(w: World, next: Id)
    requires Inv(w) && w.next <= next
    ensures Inv(w.(next := next))
  {
    var w' := w.(next := next);
    forall u | u in w'.nodes ensures NodeOk(w', u, None) {
      assert NodeOk(w, u, None);
    }
    forall c, p | c in w'.objs && p in w'.objs[c].parents ensures ParentOk(w', c, p) {
      assert ParentOk(w, c, p);
    }
  }

  lemma CreateContextInv(w: World, guard: Id)
    requires Inv(w) && Holds(w, guard, Guard)
    ensures Inv(Apply(w, CreateContext(guard, true)))
  {
    hide Shape, Safe, Adopt;
    HandleFacts(w, guard, Guard);
    var up, parents := Some(Inner(w, guard)), [{Raw(w, guard)}];
    AdoptInv(w, ContextInner, up, parents, None, Some(w.next));
    AdoptInv(Adopt(w, ContextInner, up, parents), ContextHandle, Some(w.next), [], Some(w.next), None);
  }

  lemma CreateQueueInv(w: World, ctx: Id)
    requires Inv(w) && Holds(w, ctx, ContextHandle)
    ensures Inv(Apply(w, CreateQueue(ctx, true, true)))
  {
    hide Shape, Safe, Adopt;
    HandleFacts(w, ctx, ContextHandle);
    var up, parents := Some(Inner(w, ctx)), [{Raw(w, ctx), w.next + 1}, {Raw(w, ctx)}];
    AdoptInv(w, QueueInner, up, parents, None, Some(w.next));
    AdoptInv(Adopt(w, QueueInner, up, parents), QueueHandle, Some(w.next), [], Some(w.next), None);
  }

  lemma CreateJettyInv(w: World, ctx: Id, cq: Id, priority: nat)
    requires Inv(w) && SameContext(w, ctx, cq) && priority <= MAX_PRIORITY
    ensures Inv(Apply(w, CreateJetty(ctx, cq, priority, true, true)))
  {
    hide Shape, Safe, Adopt;
    HandleFacts(w, ctx, ContextHandle);
    HandleFacts(w, cq, QueueHandle);
    var parents := {Raw(w, ctx), Raw(w, cq)};
    AdoptInv(w, Jetty, Some(Inner(w, cq)), [parents + {w.next + 1}, parents], None, None);
  }

  lemma PlainAdoptInv(w: World, h: Id, kind: Kind, parents: seq<set<Id>>)
    requires Inv(w) && h in w.nodes && w.nodes[h].kind.Above().Some?
    requires !kind.Shared() && kind.Above() == w.nodes[h].kind.Above()
    requires |parents| == RawCount(kind)
    requires Holds(w, h, w.nodes[h].kind) ==> forall i :: 0 <= i < |parents| ==> parents[i] == {Raw(w, h)}
    ensures w.nodes[h].up.Some? && Inv(Adopt(w, kind, w.nodes[h].up, parents))
  {
    HandleFacts(w, h, w.nodes[h].kind);
    hide Shape, Safe, Adopt;
    AdoptInv(w, kind, w.nodes[h].up, parents, None, None);
  }

  lemma RollbacksInv(w: World, ctx: Id, cq: Id)
    requires Inv(w) && Holds(w, ctx, ContextHandle)
    ensures Inv(RolledBack(w, {Raw(w, ctx)}))
    ensures Holds(w, cq, QueueHandle) ==> Inv(RolledBack(w, {Raw(w, ctx), Raw(w, cq)}))
  {
    hide Shape, Safe, RolledBack;
    HandleFacts(w, ctx, ContextHandle);
    NextIsUnused(w, None, w.next + 1);
    RollbackIsClean(w, {Raw(w, ctx)});
    if Holds(w, cq, QueueHandle) {
      HandleFacts(w, cq, QueueHandle);
      RollbackIsClean(w, {Raw(w, ctx), Raw(w, cq)});
    }
  }

  /** Every operation of a disciplined program keeps the tree sound and the library happy. */
  lemma StepInv(w: World, e: Event)
    requires Inv(w) && Disciplined(w, e)
    ensures Inv(Apply(w, e))
  {
    hide Shape, Safe, Adopt, Release, RolledBack;
    match e
    case InitLib(ok) =>
      if !w.exited && w.slot.Some? && Holds(w, w.slot.value, Slot) {
        PlainAdoptInv(w, w.slot.value, Guard, []);
      } else if !w.exited && w.slot.None? && ok {
        CreateInitInv(w);
      }
    case CreateContext(guard, ok) =>
      if Holds(w, guard, Guard) && ok {
        CreateContextInv(w, guard);
      }
    case CloneHandle(h) =>
      if Holds(w, h, ContextHandle) || Holds(w, h, QueueHandle) {
        PlainAdoptInv(w, h, w.nodes[h].kind, []);
      }
    case CreateQueue(ctx, okJfce, okJfc) =>
      if Holds(w, ctx, ContextHandle) && okJfce {
        RollbacksInv(w, ctx, 0);
        if okJfc {
          CreateQueueInv(w, ctx);
        }
      }
    case CreateJetty(ctx, cq, priority, okJfr, okJetty) =>
      if Holds(w, ctx, ContextHandle) && Holds(w, cq, QueueHandle) && okJfr {
        RollbacksInv(w, ctx, cq);
        if okJetty {
          CreateJettyInv(w, ctx, cq, priority);
        }
      }
    case RegisterSeg(ctx, ok) =>
      if Holds(w, ctx, ContextHandle) && ok {
        PlainAdoptInv(w, ctx, Segment, [{Raw(w, ctx)}]);
      }
    case ImportPeer(ctx, okSeg, okJetty) =>
      if Holds(w, ctx, ContextHandle) && okSeg {
        RollbacksInv(w, ctx, 0);
        PlainAdoptInv(w, ctx, Peer, [{Raw(w, ctx)}, {Raw(w, ctx)}]);
      }
    case DropHandle(h) =>
      if Droppable(w, h) {
        ReleaseInv(w, h);
      }
    case ThreadExit =>
      ExitInv(w);
      SlotIsUnshared(w);
      if w.slot.Some? {
        ReleaseInv(w.(slot := None, exited := true), w.slot.value);
      }
  }

  lemma SlotIsUnshared(w: World)
    requires Shape(w, None)
    ensures w.slot.Some? ==> w.slot.value in w.nodes && w.nodes[w.slot.value].kind == Slot
  {
  }

  // ---------------------------------------------------------------- whole programs

  function Exec(w: World, es: seq<Event>): (w': World)
    decreases |es|
  {
    if es == [] then w else Exec(Apply(w, es[0]), es[1..])
  }

  predicate DisciplinedRun(w: World, es: seq<Event>)
    decreases |es|
  {
    es == [] || (Disciplined(w, es[0]) && DisciplinedRun(Apply(w, es[0]), es[1..]))
  }

  lemma {:induction false} ExecInv(w: World, es: seq<Event>)
    requires Inv(w) && DisciplinedRun(w, es)
    ensures Inv(Exec(w, es))
    decreases |es|
  {
    if es != [] {
      StepInv(w, es[0]);
      ExecInv(Apply(w, es[0]), es[1..]);
    }
  }

  /**
   * Over every interleaving of create, clone and drop on one thread, no C parent is deleted
   * before its children and nothing is deleted twice.
   */
  lemma NoProgramFaults(es: seq<Event>)
    requires DisciplinedRun(FRESH, es)
    ensures !Exec(FRESH, es).faulted && Inv(Exec(FRESH, es))
  {
    ExecInv(FRESH, es);
  }

  /** Once a program holds nothing any more, nothing is left on the C side either. */
  lemma NothingIsLeftBehind(w: World)
    requires Inv(w) && forall v :: v in w.nodes ==> w.nodes[v].kind.Shared()
    ensures w.nodes == map[] && w.objs == map[]
  {
    hide Shape, Safe;
    OwnersExist(w);
    forall v | v in w.nodes ensures w.nodes[v].kind != QueueInner {
      SharedHasHolder(w, v);
    }
    forall v | v in w.nodes ensures w.nodes[v].kind != ContextInner {
      SharedHasHolder(w, v);
    }
    forall v | v in w.nodes ensures false {
      SharedHasHolder(w, v);
    }
    assert w.nodes == map[];
  }

  lemma OwnersExist(w: World)
    requires Shape(w, None)
    ensures forall c :: c in w.objs ==> w.objs[c].owner in w.nodes
  {
    assert forall c :: c in w.objs ==> ObjOk(w, c);
  }

  /** A shared value is alive because some value of the right kind holds it. */
  lemma SharedHasHolder(w: World, v: Id)
    requires Shape(w, None) && v in w.nodes
    ensures w.nodes[v].kind.Shared() ==>
              exists x :: x in w.nodes && w.nodes[x].up == Some(v) && w.nodes[x].kind.Above() == Some(w.nodes[v].kind)
  {
    assert NodeOk(w, v, None);
    if w.nodes[v].kind.Shared() {
      assert Holders(w.nodes, v) != {};
      var x :| x in Holders(w.nodes, v);
      assert NodeOk(w, x, None);
    }
  }

  /** The constructor of event `e` runs and returns an error. */
  predicate Errs(w: World, e: Event)
  {
    match e
    case InitLib(ok) => !w.exited && w.slot.None? && !ok
    case CreateContext(guard, ok) => Holds(w, guard, Guard) && !ok
    case CreateQueue(ctx, okJfce, okJfc) => Holds(w, ctx, ContextHandle) && !(okJfce && okJfc)
    case CreateJetty(ctx, cq, priority, okJfr, okJetty) =>
      && Holds(w, ctx, ContextHandle) && Holds(w, cq, QueueHandle)
      && !(okJfr && priority <= 15 && okJetty)
    case RegisterSeg(ctx, ok) => Holds(w, ctx, ContextHandle) && !ok
    case ImportPeer(ctx, okSeg, okJetty) => Holds(w, ctx, ContextHandle) && !(okSeg && okJetty)
    case _ => false
  }

  /**
   * A failed constructor leaves the C object set as it was, except in one case: a jetty
   * with an out-of-range priority, whose jfr was created before the check.
   */
  lemma FailedConstructorIsClean(w: World, e: Event)
    requires Inv(w) && Errs(w, e)
    ensures Apply(w, e).objs == w.objs <==> !(e.CreateJetty? && e.okJfr && e.priority > 15)
    ensures Apply(w, e).nodes == w.nodes <==> !(e.CreateJetty? && e.okJfr && e.priority > 15)
  {
    hide Shape;
    NextIsUnused(w, None, w.next);
    NextIsUnused(w, None, w.next + 1);
    if e.CreateQueue? && e.okJfce {
      HandleFacts(w, e.ctx, ContextHandle);
      RollbackIsClean(w, {Raw(w, e.ctx)});
    } else if e.ImportPeer? && e.okSeg {
      HandleFacts(w, e.ctx, ContextHandle);
      RollbackIsClean(w, {Raw(w, e.ctx)});
    } else if e.CreateJetty? && e.okJfr {
      HandleFacts(w, e.ctx, ContextHandle);
      HandleFacts(w, e.cq, QueueHandle);
      var parents := {Raw(w, e.ctx), Raw(w, e.cq)};
      RollbackIsClean(w, parents);
      if e.priority > MAX_PRIORITY {
        assert w.next in Apply(w, e).nodes;
        assert w.next + 1 in Apply(w, e).objs;
      }
    }
  }

  // ---------------------------------------------------------------- the discipline is exact

  ghost predicate ParentsLive(objs: map<Id, Obj>)
  {
    forall c, p :: c in objs && p in objs[c].parents ==> p in objs
  }

  lemma {:induction false} DeleteAllLive(w: World, cs: seq<Id>)
    requires ParentsLive(w.objs)
    ensures CDeleteAll(w, cs).faulted || ParentsLive(CDeleteAll(w, cs).objs)
    decreases |cs|
  {
    if cs != [] {
      var w1 := CDelete(w, cs[0]);
      CDeleteAllNodes(w1, cs[1..]);
      if !w1.faulted {
        assert !HasChild(w.objs, cs[0]);
        DeleteAllLive(w1, cs[1..]);
      }
    }
  }

  /** `w'` is left of `w` after dropping things. */
  ghost predicate Within(w': World, w: World)
  {
    && (forall u :: u in w'.nodes ==> u in w.nodes && w'.nodes[u] == w.nodes[u].(strong := w'.nodes[u].strong))
    && (forall c :: c in w'.objs ==> c in w.objs && w'.objs[c] == w.objs[c])
    && w'.slot == w.slot && (w.faulted ==> w'.faulted)
    && (ParentsLive(w.objs) ==> w'.faulted || ParentsLive(w'.objs))
  }

  lemma DetachWithin(w: World, v: Id)
    requires v in w.nodes && Shape(w, Some(v)) && Holders(w.nodes, v) == {}
    ensures Within(Detach(w, v), w)
  {
    DetachRemoved(w, v);
    CDeleteAllNodes(w, w.nodes[v].raws);
    hide Shape, CDeleteAll;
    if ParentsLive(w.objs) {
      DeleteAllLive(w, w.nodes[v].raws);
    }
  }

  lemma {:induction false} ReleaseWithin(w: World, v: Id)
    requires v in w.nodes && Shape(w, Some(v)) && Holders(w.nodes, v) == {} && w.slot != Some(v)
    ensures Within(Release(w, v), w)
    ensures forall u :: u in w.nodes && u != v && !w.nodes[u].kind.Shared() ==> u in Release(w, v).nodes
    decreases |w.nodes|
  {
    hide NodeOk, ObjOk, Holders, ParentsLive, Shape;
    var w1, up := Detach(w, v), w.nodes[v].up;
    DetachRemoved(w, v);
    DetachWithin(w, v);
    RemovedShape(w, v, w1);
    if up.Some? {
      UpExists(w, v, Some(v));
    }
    hide Detach;
    SettleOrRelease(w1, up);
    if up.Some? && w1.nodes[up.value].strong == 0 {
      assert |w1.nodes.Keys| == |w.nodes.Keys - {v}|;
      ReleaseWithin(w1, up.value);
      WithinTransitive(Release(w1, up.value), w1, w);
    }
  }

  lemma DropShape(w: World, h: Id)
    requires Shape(w, None) && Droppable(w, h)
    ensures Shape(Release(w, h), None) && Within(Release(w, h), w)
    ensures forall u :: u in w.nodes && u != h && !w.nodes[u].kind.Shared() ==> u in Release(w, h).nodes
    ensures Release(w, h).nodes.Keys < w.nodes.Keys
  {
    UnsharedHasNoHolders(w, h, None);
    assert Shape(w, Some(h)) by {
      forall u | u in w.nodes ensures NodeOk(w, u, Some(h)) {
        assert NodeOk(w, u, None);
      }
    }
    ReleaseShape(w, h);
    ReleaseWithin(w, h);
  }

  lemma WithinTransitive(a: World, b: World, c: World)
    requires Within(a, b) && Within(b, c)
    ensures Within(a, c)
  {
  }

  lemma ExecCons(w: World, e: Event, es: seq<Event>)
    ensures Exec(w, [e] + es) == Exec(Apply(w, e), es)
    ensures DisciplinedRun(w, [e] + es) <==> Disciplined(w, e) && DisciplinedRun(Apply(w, e), es)
  {
    assert ([e] + es)[1..] == es;
  }

  /** A program may drop everything it holds except `keep`. */
  lemma {:induction false} DropOthers(w: World, keep: Id) returns (es: seq<Event>)
    requires Shape(w, None)
    requires keep in w.nodes && !w.nodes[keep].kind.Shared()
    ensures DisciplinedRun(w, es)
    ensures Shape(Exec(w, es), None) && Within(Exec(w, es), w) && keep in Exec(w, es).nodes
    ensures forall h :: Droppable(Exec(w, es), h) ==> h == keep
    decreases w.nodes.Keys
  {
    hide Shape, Release, Exec, DisciplinedRun, ParentsLive;
    if h :| h != keep && Droppable(w, h) {
      DropShape(w, h);
      var w1 := Apply(w, DropHandle(h));
      var rest := DropOthers(w1, keep);
      es := [DropHandle(h)] + rest;
      ExecCons(w, DropHandle(h), rest);
      WithinTransitive(Exec(w1, rest), w1, w);
    } else {
      es := [];
      ExecNil(w);
    }
  }

  lemma ExecNil(w: World)
    ensures Exec(w, []) == w && DisciplinedRun(w, []) && Within(w, w)
  {
  }

  /** What is still alive when only `keep` is held: its own chain, and the init guard. */
  lemma OnlyChainSurvives(w: World, keep: Id, v: Id)
    requires Shape(w, None) && keep in w.nodes && w.nodes[keep].kind != Slot
    requires forall h :: Droppable(w, h) ==> h == keep
    requires v in w.nodes && (w.nodes[v].kind == QueueInner || w.nodes[v].kind == ContextInner)
    ensures || w.nodes[keep].up == Some(v)
            || (w.nodes[keep].up.Some? && w.nodes[keep].up.value in w.nodes
                && w.nodes[w.nodes[keep].up.value].up == Some(v))
  {
    hide Shape;
    SlotIsUnshared(w);
    SharedHasHolder(w, v);
    var x :| x in w.nodes && w.nodes[x].up == Some(v) && w.nodes[x].kind.Above() == Some(w.nodes[v].kind);
    if w.nodes[x].kind == QueueInner {
      SharedHasHolder(w, x);
      var y :| y in w.nodes && w.nodes[y].up == Some(x) && w.nodes[y].kind.Above() == Some(QueueInner);
      assert Droppable(w, y);
    } else {
      assert Droppable(w, x);
    }
  }

  /** `keep` owns `c`, which was created from an object that nothing in the chain of `keep` keeps alive. */
  ghost predicate UnkeptParent(w: World, keep: Id, c: Id, p: Id)
  {
    && keep in w.nodes && !w.nodes[keep].kind.Shared() && w.nodes[keep].kind != Slot
    && c in w.nodes[keep].raws && c in w.objs && p in w.objs[c].parents
    && p in w.objs && w.objs[p].owner in w.nodes
    && var o := w.objs[p].owner;
       && (w.nodes[o].kind == QueueInner || w.nodes[o].kind == ContextInner)
       && w.nodes[keep].up != Some(o)
       && (w.nodes[keep].up.Some? && w.nodes[keep].up.value in w.nodes ==>
             w.nodes[w.nodes[keep].up.value].up != Some(o))
  }

  /** Then dropping everything else faults. */
  lemma UnkeptParentFaults(w: World, keep: Id, c: Id, p: Id) returns (es: seq<Event>)
    requires Shape(w, None) && ParentsLive(w.objs) && UnkeptParent(w, keep, c, p)
    ensures DisciplinedRun(w, es) && Exec(w, es).faulted
  {
    es := DropOthers(w, keep);
    var w' := Exec(w, es);
    var o := w.objs[p].owner;
    assert NodeOk(w', keep, None);
    if !w'.faulted {
      assert c in w'.objs && p in w'.objs;
      assert ObjOk(w', p);
      OnlyChainSurvives(w', keep, o);
    }
  }

  lemma InvParentsLive(w: World)
    requires Inv(w)
    ensures ParentsLive(w.objs)
  {
    forall c, p | c in w.objs && p in w.objs[c].parents ensures p in w.objs {
      assert ParentOk(w, c, p);
    }
  }

  lemma GrownLive(objs: map<Id, Obj>, made: map<Id, Obj>)
    requires ParentsLive(objs) && made.Keys !! objs.Keys
    requires forall c, p :: c in made && p in made[c].parents ==> p in objs || p in made
    ensures ParentsLive(objs + made)
  {
  }

  /** Adopting a value from live parents keeps counts and ownership right, whatever the parents are. */
  lemma AdoptShape(w: World, kind: Kind, up: Option<Id>, parents: seq<set<Id>>)
    requires Shape(w, None) && ParentsLive(w.objs) && CanAdopt(w, kind, up, parents) && !kind.Shared()
    requires forall i, p :: 0 <= i < |parents| && p in parents[i] ==>
               p in w.objs || (|parents| == 2 && p == w.next + 1)
    ensures Shape(Adopt(w, kind, up, parents), None) && ParentsLive(Adopt(w, kind, up, parents).objs)
    ensures Adopted(w, kind, up, parents, Adopt(w, kind, up, parents))
  {
    hide Shape, ParentsLive, FitsIn, Adopted;
    var n, made, w' := NewNode(w, kind, up, parents), NewObjs(w.next, parents), Adopt(w, kind, up, parents);
    AdoptAdded(w, kind, up, parents, None);
    AddedShape(w, w.next, n, made, w', None, None);
    hide Adopt;
    if |parents| == 2 {
      assert NewRaws(w.next, 2)[1] in made;
    }
    GrownLive(w.objs, made);
    AddedAdopted(w, kind, up, parents, w');
  }

  lemma AddedAdopted(w: World, kind: Kind, up: Option<Id>, parents: seq<set<Id>>, w': World)
    requires |parents| <= 2 && Added(w, w.next, NewNode(w, kind, up, parents), NewObjs(w.next, parents), w')
    ensures Adopted(w, kind, up, parents, w')
  {
    forall i | 0 <= i < |parents|
      ensures var r := NewRaws(w.next, |parents|)[i]; r in w'.objs && w'.objs[r].parents == parents[i]
    {
      assert NewRaws(w.next, |parents|)[i] in NewObjs(w.next, parents);
    }
  }

  /** The new value owns what it was given; everything else is as it was. */
  ghost predicate Adopted(w: World, kind: Kind, up: Option<Id>, parents: seq<set<Id>>, w': World)
  {
    && |parents| <= 2 && w.next in w'.nodes && w'.nodes[w.next] == NewNode(w, kind, up, parents)
    && (forall c :: c in w.objs ==> c in w'.objs && w'.objs[c] == w.objs[c])
    && (forall u :: u in w.nodes ==> u in w'.nodes && w'.nodes[u] == w.nodes[u].(strong := w'.nodes[u].strong))
    && (forall i :: 0 <= i < |parents| ==>
          var r := NewRaws(w.next, |parents|)[i]; r in w'.objs && w'.objs[r].parents == parents[i])
  }

  /** The two ways to break the discipline both make a program that faults. */
  lemma UndisciplinedFaults(w: World, ctx: Id, cq: Id, priority: nat, okJetty: bool) returns (es: seq<Event>)
    requires Inv(w) && Holds(w, ctx, ContextHandle) && Holds(w, cq, QueueHandle)
    requires !Disciplined(w, CreateJetty(ctx, cq, priority, true, okJetty))
    ensures var w1 := Apply(w, CreateJetty(ctx, cq, priority, true, okJetty));
            DisciplinedRun(w1, es) && Exec(w1, es).faulted
  {
    hide Shape, Safe, ParentsLive, Adopt, Exec, DisciplinedRun;
    HandleFacts(w, ctx, ContextHandle);
    HandleFacts(w, cq, QueueHandle);
    InvParentsLive(w);
    var parents := {Raw(w, ctx), Raw(w, cq)};
    if priority > MAX_PRIORITY {
      es := LeakFaults(w, parents, Raw(w, cq));
    } else {
      es := WrongContextFaults(w, Inner(w, cq), parents, Raw(w, ctx));
    }
  }

  /** A forgotten jfr makes deleting its completion queue's jfc a fault. */
  lemma LeakFaults(w: World, parents: set<Id>, p: Id) returns (es: seq<Event>)
    requires Shape(w, None) && ParentsLive(w.objs) && parents <= w.objs.Keys && p in parents
    requires w.objs[p].owner in w.nodes && w.nodes[w.objs[p].owner].kind == QueueInner
    ensures DisciplinedRun(Adopt(w, Leaked, None, [parents]), es)
    ensures Exec(Adopt(w, Leaked, None, [parents]), es).faulted
  {
    hide Shape, ParentsLive, Exec, DisciplinedRun;
    AdoptShape(w, Leaked, None, [parents]);
    hide Adopt;
    var w1 := Adopt(w, Leaked, None, [parents]);
    assert NewRaws(w.next, 1)[0] in w1.nodes[w.next].raws;
    es := UnkeptParentFaults(w1, w.next, NewRaws(w.next, 1)[0], p);
  }

  /** A jetty built on another context lets that context go while the jetty still needs it. */
  lemma WrongContextFaults(w: World, queue: Id, parents: set<Id>, p: Id) returns (es: seq<Event>)
    requires parents <= w.objs.Keys && p in parents
    requires queue in w.nodes && w.nodes[queue].kind == QueueInner
    requires var o := w.objs[p].owner; o in w.nodes && w.nodes[o].kind == ContextInner && w.nodes[queue].up != Some(o)
    requires Shape(w, None) && ParentsLive(w.objs)
    ensures DisciplinedRun(BuiltJetty(w, queue, parents), es)
    ensures Exec(BuiltJetty(w, queue, parents), es).faulted
  {
    hide Shape, ParentsLive, Exec, DisciplinedRun, Adopt, Adopted, UnkeptParent;
    AdoptShape(w, Jetty, Some(queue), [parents + {w.next + 1}, parents]);
    JettyIsUnkept(w, queue, parents, p, BuiltJetty(w, queue, parents));
    es := UnkeptParentFaults(BuiltJetty(w, queue, parents), w.next, w.next + 1, p);
  }

  lemma JettyIsUnkept(w: World, queue: Id, parents: set<Id>, p: Id, w1: World)
    requires parents <= w.objs.Keys && p in parents
    requires queue in w.nodes && w.nodes[queue].kind == QueueInner
    requires var o := w.objs[p].owner; o in w.nodes && w.nodes[o].kind == ContextInner && w.nodes[queue].up != Some(o)
    requires Adopted(w, Jetty, Some(queue), [parents + {w.next + 1}, parents], w1)
    ensures UnkeptParent(w1, w.next, w.next + 1, p)
  {
    assert NewRaws(w.next, 2)[1] in w1.nodes[w.next].raws;
  }

  /**
   * Exactly when a jetty is safe to build: every later program is fault-free if and only if
   * the priority was in range and the jetty's context is the one its queue was built on.
   */
  lemma DisciplineIsExact(w: World, ctx: Id, cq: Id, priority: nat, okJetty: bool)
    requires Inv(w) && Holds(w, ctx, ContextHandle) && Holds(w, cq, QueueHandle)
    ensures var e := CreateJetty(ctx, cq, priority, true, okJetty);
            Disciplined(w, e) <==>
            (forall es :: DisciplinedRun(Apply(w, e), es) ==> !Exec(Apply(w, e), es).faulted)
  {
    var e := CreateJetty(ctx, cq, priority, true, okJetty);
    hide Exec, DisciplinedRun, Apply;
    if Disciplined(w, e) {
      StepInv(w, e);
      forall es | DisciplinedRun(Apply(w, e), es) ensures !Exec(Apply(w, e), es).faulted {
        ExecInv(Apply(w, e), es);
      }
    } else {
      var es := UndisciplinedFaults(w, ctx, cq, priority, okJetty);
    }
  }
}
