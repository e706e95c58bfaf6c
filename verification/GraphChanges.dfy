/**
 Operations that change the edges of a node: bdrv_attach_child, bdrv_detach_child and
 bdrv_replace_node_common.  Each keeps what GraphOperations calls sound, and with monotone drivers the
 invariant.
 */
module GraphChanges {
  import opened BlockGraph
  import opened BlockPermissions
  import opened PermissionUpdate
  import opened PermissionTheorems
  import opened PermissionSettling
  import opened PermissionLoosening
  import opened GraphOperations

  // ---------------------------------------------------------------- bdrv_attach_child

  /** QLIST_INSERT_HEAD(&parent_bs->children, child, next) */
  function OwnEdge(sys: System, e: EdgeId, p: NodeId): System
    requires p in sys.g.children
  {
    sys.(g := sys.g.(children := sys.g.children[p := [e] + sys.g.children[p]], owner := sys.g.owner[e := p]))
  }

  /** bdrv_attach_child: a child edge e of node p to node n; the flag says whether it was attached. */
  ghost function AttachChild(w: World, p: NodeId, e: EdgeId, n: NodeId, ctxOk: bool): (World, bool)
    requires Ready(w.sys, w.st) && n in w.sys.info && p in w.sys.info && w.sys.info[p].driver.Derives?
             && FreshEdge(w.sys.g, e)
  {
    var g := DerivedTo(w.sys, p, e, n, Cumulative(w.sys.g, w.st, p, {}));
    var r := RootAttach(w, e, n, g, ctxOk);
    if r.1 then (World(OwnEdge(r.0.sys, e, p), r.0.st), true) else r
  }

  /** An edge held by no node becomes a child edge of p; p is not below the edge. */
  ghost predicate CanOwn(g: Graph, e: EdgeId, p: NodeId) {
    WellFormed(g) && e in g.target && e !in g.owner && p in g.children
  }

  lemma {:induction false} LinkOrOwned(sys: System, e: EdgeId, p: NodeId, a: NodeId, b: NodeId)
    requires CanOwn(sys.g, e, p)
    ensures Linked(OwnEdge(sys, e, p).g, a, b) <==> Linked(sys.g, a, b) || (a == p && b == sys.g.target[e])
  {
    var g' := OwnEdge(sys, e, p).g;
    if Linked(g', a, b) {
      var f :| ChildOf(g', a, f) && g'.target[f] == b;
      assert ChildOf(sys.g, a, f) || (a == p && f == e);
    }
    if Linked(sys.g, a, b) {
      var f :| ChildOf(sys.g, a, f) && sys.g.target[f] == b;
      assert ChildOf(g', a, f);
    }
    if a == p && b == sys.g.target[e] {
      assert ChildOf(g', p, e);
    }
  }

  /** A path of the new graph that starts at the new child is a path of the old one, unless it comes by p. */
  lemma {:induction false} OwnedPathStays(sys: System, e: EdgeId, p: NodeId, q: seq<NodeId>)
    requires CanOwn(sys.g, e, p) && p !in Cone(sys.g, sys.g.target[e])
    requires IsPath(OwnEdge(sys, e, p).g, q) && q[0] == sys.g.target[e]
    ensures q[|q| - 1] in Cone(sys.g, sys.g.target[e])
  {
    var g' := OwnEdge(sys, e, p).g;
    var found := Cone(sys.g, sys.g.target[e]);
    forall v, f | v in found && ChildOf(g', v, f)
      ensures g'.target[f] in found
    {
      assert ChildOf(sys.g, v, f);
      ConeClosed(sys.g, sys.g.target[e], v, f);
    }
    PathStays(g', q, found, |q| - 1);
  }

  /** The new child edge keeps the graph acyclic exactly when p cannot be reached from the child. */
  lemma {:induction false} OwnEdgeAcyclicIff(sys: System, e: EdgeId, p: NodeId)
    requires CanOwn(sys.g, e, p) && Acyclic(sys.g)
    ensures Acyclic(OwnEdge(sys, e, p).g) <==> p !in Cone(sys.g, sys.g.target[e])
  {
    var g' := OwnEdge(sys, e, p).g;
    var t := sys.g.target[e];
    if p in Cone(sys.g, t) {
      ReachesIffCone(sys.g, t, p);
      var q :| Joins(sys.g, q, t, p);
      forall i | 0 <= i < |q| - 1
        ensures Linked(g', q[i], q[i + 1])
      {
        LinkOrOwned(sys, e, p, q[i], q[i + 1]);
      }
      LinkOrOwned(sys, e, p, p, t);
      assert IsPath(g', q) && IsPath(g', [p, t]);
      JoinPaths(g', q, [p, t]);
    } else {
      forall n, q | n in g'.children && Joins(g', q, n, n) && |q| >= 2
        ensures false
      {
        OwnedNoCycle(sys, e, p, n, q);
      }
    }
  }

  lemma {:induction false} OwnedNoCycle(sys: System, e: EdgeId, p: NodeId, n: NodeId, q: seq<NodeId>)
    requires CanOwn(sys.g, e, p) && Acyclic(sys.g) && p !in Cone(sys.g, sys.g.target[e])
    requires n in sys.g.children && |q| >= 2
    ensures !Joins(OwnEdge(sys, e, p).g, q, n, n)
  {
    var g' := OwnEdge(sys, e, p).g;
    assert !ReachesProperly(sys.g, n, n) && !Joins(sys.g, q, n, n);
    if i :| Joins(g', q, n, n) && 0 <= i < |q| - 1 && !Linked(sys.g, q[i], q[i + 1]) {
      LinkOrOwned(sys, e, p, q[i], q[i + 1]);
      Rotate(g', q, i);
      OwnedPathStays(sys, e, p, q[i + 1..] + q[1..i + 1]);
    }
  }

  lemma {:induction false} OwnEdgeValid(sys: System, e: EdgeId, p: NodeId)
    requires Valid(sys) && CanOwn(sys.g, e, p) && p !in Cone(sys.g, sys.g.target[e]) && sys.info[p].driver.Derives?
    ensures Valid(OwnEdge(sys, e, p))
  {
    OwnEdgeAcyclicIff(sys, e, p);
  }

  /** Every node stays covered if the new child edge carries what its owner derives. */
  lemma {:induction false} OwnEdgeCovers(sys: System, st: Grants, e: EdgeId, p: NodeId, m: NodeId)
    requires Ready(sys, st) && CanOwn(sys.g, e, p) && p !in Cone(sys.g, sys.g.target[e]) && sys.info[p].driver.Derives?
    requires m in sys.info && Covered(sys, st, m)
    requires st[e].grant == Derived(sys, p, e, Cumulative(sys.g, st, p, {}))
    ensures Ready(OwnEdge(sys, e, p), st) && Covered(OwnEdge(sys, e, p), st, m)
  {
    var sys' := OwnEdge(sys, e, p);
    OwnEdgeValid(sys, e, p);
    CumulativeTransfer(sys.g, st, {}, sys'.g, st, {}, m);
    forall i | 0 <= i < |sys'.g.children[m]|
      ensures Looser(Derived(sys', m, sys'.g.children[m][i], Cumulative(sys'.g, st, m, {})),
                     st[sys'.g.children[m][i]].grant)
    {
      if m == p && i > 0 {
        assert sys'.g.children[m][i] == sys.g.children[m][i - 1];
      }
    }
  }

  /**
   bdrv_attach_child keeps the graph acyclic and users compatible, for any driver, when the parent is
   not in the subtree of the child; a failure changes nothing.
   */
  lemma {:induction false} AttachChildSound(w: World, p: NodeId, e: EdgeId, n: NodeId, ctxOk: bool)
    requires Sound(w) && n in w.sys.info && p in w.sys.info && w.sys.info[p].driver.Derives? && FreshEdge(w.sys.g, e)
    requires p !in Cone(w.sys.g, n)
    ensures Sound(AttachChild(w, p, e, n, ctxOk).0)
    ensures !AttachChild(w, p, e, n, ctxOk).1 ==> AttachChild(w, p, e, n, ctxOk).0 == w
    ensures AttachChild(w, p, e, n, ctxOk).1 ==>
              ChildOf(AttachChild(w, p, e, n, ctxOk).0.sys.g, p, e)
              && AttachChild(w, p, e, n, ctxOk).0.sys.g.target[e] == n
  {
    var g := DerivedTo(w.sys, p, e, n, Cumulative(w.sys.g, w.st, p, {}));
    var r := RootAttach(w, e, n, g, ctxOk);
    RootAttachSound(w, e, n, g, ctxOk);
    if r.1 {
      AttachReady(w, e, n, g);
      OwnEdgeSound(r.0, e, p);
    }
  }

  /** If the edge is attached, that condition is exact. */
  lemma {:induction false} AttachChildSoundIff(w: World, p: NodeId, e: EdgeId, n: NodeId, ctxOk: bool)
    requires Sound(w) && n in w.sys.info && p in w.sys.info && w.sys.info[p].driver.Derives? && FreshEdge(w.sys.g, e)
    requires AttachChild(w, p, e, n, ctxOk).1
    ensures Sound(AttachChild(w, p, e, n, ctxOk).0) <==> p !in Cone(w.sys.g, n)
  {
    if p in Cone(w.sys.g, n) {
      var g := DerivedTo(w.sys, p, e, n, Cumulative(w.sys.g, w.st, p, {}));
      RootAttachSound(w, e, n, g, ctxOk);
      AttachReady(w, e, n, g);
      OwnEdgeAcyclicIff(RootAttach(w, e, n, g, ctxOk).0.sys, e, p);
    } else {
      AttachChildSound(w, p, e, n, ctxOk);
    }
  }

  lemma {:induction false} OwnEdgeSound(w: World, e: EdgeId, p: NodeId)
    requires Sound(w) && CanOwn(w.sys.g, e, p) && p !in Cone(w.sys.g, w.sys.g.target[e])
             && w.sys.info[p].driver.Derives?
    ensures Sound(World(OwnEdge(w.sys, e, p), w.st))
  {
    OwnEdgeValid(w.sys, e, p);
  }

  /** It keeps coverage as well: the new edge carries what its parent derives. */
  lemma {:induction false} AttachChildKeepsInv(w: World, p: NodeId, e: EdgeId, n: NodeId, ctxOk: bool)
    requires Inv(w) && n in w.sys.info && p in w.sys.info && w.sys.info[p].driver.Derives? && FreshEdge(w.sys.g, e)
    requires p !in Cone(w.sys.g, n)
    ensures Inv(AttachChild(w, p, e, n, ctxOk).0)
  {
    var g := DerivedTo(w.sys, p, e, n, Cumulative(w.sys.g, w.st, p, {}));
    var r := RootAttach(w, e, n, g, ctxOk);
    RootAttachSound(w, e, n, g, ctxOk);
    RootAttachKeepsInv(w, e, n, g, ctxOk);
    if r.1 {
      assert CanAttach(w, e, n, g);
      AttachOutside(w, e, n, g, p);
      CumulativeSame(r.0.sys.g, AttachedState(w, e, n, g), r.0.st, p, {}, {});
      AttachReady(w, e, n, g);
      OwnEdgeKeepsInv(r.0, e, p);
    }
  }

  lemma {:induction false} OwnEdgeKeepsInv(w: World, e: EdgeId, p: NodeId)
    requires Inv(w) && CanOwn(w.sys.g, e, p) && p !in Cone(w.sys.g, w.sys.g.target[e]) && w.sys.info[p].driver.Derives?
    requires w.st[e].grant == Derived(w.sys, p, e, Cumulative(w.sys.g, w.st, p, {}))
    ensures Inv(World(OwnEdge(w.sys, e, p), w.st))
  {
    OwnEdgeValid(w.sys, e, p);
    forall m | m in w.sys.info
      ensures Covered(OwnEdge(w.sys, e, p), w.st, m)
    {
      OwnEdgeCovers(w.sys, w.st, e, p, m);
    }
    assert Monotone(OwnEdge(w.sys, e, p));
  }

  // ---------------------------------------------------------------- loosening a node that lost a user

  /** The second half of bdrv_replace_child: check the old node for its remaining users, then set or abort. */
  ghost function Recheck(w: World, t: NodeId): World
    requires Ready(w.sys, w.st) && t in w.sys.info
  {
    var g := Cumulative(w.sys.g, w.st, t, {});
    var r := CheckNode(w.sys, w.st, t, g, {});
    if r.ok then World(w.sys, SetNode(w.sys, r.st, t, g)) else World(w.sys, AbortNode(w.sys, r.st, t))
  }

  lemma {:induction false} RecheckCovers(sys: System, st: Grants, s: Grants, t: NodeId, m: NodeId)
    requires Ready(sys, st) && Ready(sys, s) && t in sys.info && m in sys.info && Covered(sys, st, m)
    requires AllSettled(sys, s, Cone(sys.g, t), {})
    requires forall f :: f in st && f !in SubEdges(sys.g, t) ==> s[f] == st[f]
    ensures Covered(sys, s, m)
  {
    if m in Cone(sys.g, t) {
      SettledIsCovered(sys, s, m, {});
    } else {
      OutsideCovered(sys, st, s, t, m);
    }
  }

  /** A node re-checked for the permissions it has already is settled with everything below it. */
  lemma {:induction false} RecheckSettles(sys: System, st: Grants, t: NodeId)
    requires Ready(sys, st) && t in sys.info
    requires CheckNode(sys, st, t, Cumulative(sys.g, st, t, {}), {}).ok
    ensures AllSettled(sys, CheckNode(sys, st, t, Cumulative(sys.g, st, t, {}), {}).st, Cone(sys.g, t), {})
  {
    var g := Cumulative(sys.g, st, t, {});
    var r := CheckNode(sys, st, t, g, {}).st;
    CheckNodeSettles(sys, st, t, g, {});
    assert Cumulative(sys.g, r, t, {}) == g by {
      CheckNodeRemembers(sys, st, t, g, {});
      UsersUntouched(sys, st, r, t);
      CumulativeSame(sys.g, st, r, t, {}, {});
    }
  }

  /** Whatever the check of the old node reports, users stay compatible and no update is left half done. */
  lemma {:induction false} RecheckSound(w: World, t: NodeId)
    requires Sound(w) && t in w.sys.info
    ensures Sound(Recheck(w, t)) && Recheck(w, t).sys == w.sys
  {
    var g := Cumulative(w.sys.g, w.st, t, {});
    var r := CheckNode(w.sys, w.st, t, g, {});
    if r.ok {
      var s := SetNode(w.sys, r.st, t, g);
      CheckNodePeaceful(w.sys, w.st, t, g, {});
      CheckNodeSettles(w.sys, w.st, t, g, {});
      SetNodeKeeps(w.sys, r.st, t, g);
      CheckNodeRemembers(w.sys, w.st, t, g, {});
      ClearedCommits(w.st, r.st, s, SubEdges(w.sys.g, t));
      SameGrantsPeaceful(w.sys.g, r.st, s, {});
    } else {
      CheckNodeThenAbortRestores(w.sys, w.st, t, g, {});
    }
  }

  /**
   With coverage the check of the old node never tightens anything, which is what bdrv_replace_child
   asserts, so a failure can be ignored; either way the invariant holds again and no edge takes more
   or shares less.
   */
  lemma {:induction false} RecheckKeepsInv(w: World, t: NodeId)
    requires Inv(w) && t in w.sys.info
    ensures !CheckNode(w.sys, w.st, t, Cumulative(w.sys.g, w.st, t, {}), {}).tighten
    ensures Inv(Recheck(w, t)) && Recheck(w, t).sys == w.sys && Loosened(w.st, Recheck(w, t).st)
  {
    var g := Cumulative(w.sys.g, w.st, t, {});
    var r := CheckNode(w.sys, w.st, t, g, {});
    RecheckSound(w, t);
    CheckNodeLoosens(w.sys, w.st, t, g, {});
    if r.ok {
      var s := SetNode(w.sys, r.st, t, g);
      RecheckSettles(w.sys, w.st, t);
      CheckNodeSettles(w.sys, w.st, t, g, {});
      SetNodeKeeps(w.sys, r.st, t, g);
      CheckNodeRemembers(w.sys, w.st, t, g, {});
      ClearedCommits(w.st, r.st, s, SubEdges(w.sys.g, t));
      SameGrantsSettled(w.sys, r.st, s, Cone(w.sys.g, t), {});
      forall m | m in w.sys.info
        ensures Covered(w.sys, s, m)
      {
        RecheckCovers(w.sys, w.st, s, t, m);
      }
    } else {
      CheckNodeThenAbortRestores(w.sys, w.st, t, g, {});
    }
  }

  // ---------------------------------------------------------------- bdrv_detach_child

  function Without(s: seq<EdgeId>, e: EdgeId): (r: seq<EdgeId>)
    ensures forall f :: f in r <==> f in s && f != e
  {
    if s == [] then [] else (if s[0] == e then [] else [s[0]]) + Without(s[1..], e)
  }

  /** Edge e is taken out of its owner's list and of the users of its node. */
  function RemoveEdge(sys: System, e: EdgeId): System {
    sys.(g := Graph(map n | n in sys.g.children :: Without(sys.g.children[n], e), sys.g.target - {e},
                    sys.g.owner - {e}))
  }

  /** bdrv_detach_child */
  ghost function Detach(w: World, e: EdgeId): World
    requires Ready(w.sys, w.st) && e in w.sys.g.target
  {
    RemoveEdgeValid(w.sys, e);
    Recheck(World(RemoveEdge(w.sys, e), w.st - {e}), w.sys.g.target[e])
  }

  lemma {:induction false} RemoveEdgeValid(sys: System, e: EdgeId)
    requires Valid(sys)
    ensures Valid(RemoveEdge(sys, e))
  {
    var g' := RemoveEdge(sys, e).g;
    forall n, i | n in g'.children && 0 <= i < |g'.children[n]|
      ensures Owns(g', n, g'.children[n][i])
    {
      assert g'.children[n][i] in sys.g.children[n];
    }
    forall n, p | n in g'.children && Joins(g', p, n, n) && |p| >= 2
      ensures false
    {
      forall i | 0 <= i < |p| - 1
        ensures Linked(sys.g, p[i], p[i + 1])
      {
        assert Linked(g', p[i], p[i + 1]);
        var f :| ChildOf(g', p[i], f) && g'.target[f] == p[i + 1];
        assert ChildOf(sys.g, p[i], f);
      }
      assert Joins(sys.g, p, n, n);
    }
  }

  lemma {:induction false} RemovedCumulative(sys: System, st: Grants, e: EdgeId, m: NodeId)
    requires Ready(sys, st)
    ensures Looser(Cumulative(RemoveEdge(sys, e).g, st - {e}, m, {}), Cumulative(sys.g, st, m, {}))
  {
    CumulativeTransfer(sys.g, st, {e}, RemoveEdge(sys, e).g, st - {e}, {}, m);
    CumulativeLoosens(sys.g, st, st, m, {}, {e});
  }

  /** A remaining child edge of m covers what m derives once e is gone. */
  lemma {:induction false} RemovedChild(sys: System, st: Grants, e: EdgeId, m: NodeId, f: EdgeId, c: Grant)
    requires Ready(sys, st) && Monotone(sys) && m in sys.info && Covered(sys, st, m) && f in sys.g.children[m] && f != e
    requires Looser(c, Cumulative(sys.g, st, m, {}))
    ensures f in RemoveEdge(sys, e).g.target && Looser(Derived(RemoveEdge(sys, e), m, f, c), st[f].grant)
  {
    var j :| 0 <= j < |sys.g.children[m]| && sys.g.children[m][j] == f;
    DerivedLoosens(sys, m, f, sys.g.target[f], c, Cumulative(sys.g, st, m, {}));
  }

  lemma {:induction false} RemovedCovers(sys: System, st: Grants, e: EdgeId, m: NodeId)
    requires Ready(sys, st) && Monotone(sys) && m in sys.info && Covered(sys, st, m)
    ensures Ready(RemoveEdge(sys, e), st - {e}) && Covered(RemoveEdge(sys, e), st - {e}, m)
  {
    var sys', st' := RemoveEdge(sys, e), st - {e};
    RemoveEdgeValid(sys, e);
    RemovedCumulative(sys, st, e, m);
    var c := Cumulative(sys'.g, st', m, {});
    forall i | 0 <= i < |sys'.g.children[m]|
      ensures Looser(Derived(sys', m, sys'.g.children[m][i], c), st'[sys'.g.children[m][i]].grant)
    {
      RemovedChild(sys, st, e, m, sys'.g.children[m][i], c);
    }
  }

  lemma {:induction false} RemoveEdgeKeepsInv(w: World, e: EdgeId)
    requires Inv(w)
    ensures Inv(World(RemoveEdge(w.sys, e), w.st - {e}))
  {
    RemoveEdgeValid(w.sys, e);
    forall m | m in w.sys.info
      ensures Covered(RemoveEdge(w.sys, e), w.st - {e}, m)
    {
      RemovedCovers(w.sys, w.st, e, m);
    }
    assert Monotone(RemoveEdge(w.sys, e));
  }

  /** Detaching keeps users compatible, for any driver, even where the assertion of bdrv_replace_child fails. */
  lemma {:induction false} DetachSound(w: World, e: EdgeId)
    requires Sound(w) && e in w.sys.g.target
    ensures Sound(Detach(w, e)) && Detach(w, e).sys == RemoveEdge(w.sys, e) && Detach(w, e).st.Keys == w.st.Keys - {e}
  {
    hide Acyclic, Peaceful;
    RemoveEdgeSound(w, e);
    RecheckSound(World(RemoveEdge(w.sys, e), w.st - {e}), w.sys.g.target[e]);
  }

  lemma {:induction false} RemoveEdgeSound(w: World, e: EdgeId)
    requires Sound(w)
    ensures Sound(World(RemoveEdge(w.sys, e), w.st - {e}))
  {
    RemoveEdgeValid(w.sys, e);
  }

  /** Detaching always works: the edge is gone, the invariant holds and every other edge only loosens. */
  lemma {:induction false} DetachKeepsInv(w: World, e: EdgeId)
    requires Inv(w) && e in w.sys.g.target
    ensures Inv(Detach(w, e)) && Detach(w, e).sys == RemoveEdge(w.sys, e) && Detach(w, e).st.Keys == w.st.Keys - {e}
    ensures forall f :: f in w.st && f != e ==> Looser(Detach(w, e).st[f].grant, w.st[f].grant)
  {
    RemoveEdgeKeepsInv(w, e);
    RecheckKeepsInv(World(RemoveEdge(w.sys, e), w.st - {e}), w.sys.g.target[e]);
  }
}
