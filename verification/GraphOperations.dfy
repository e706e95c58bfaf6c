/**
 The operations that change permissions or edges of the block graph, built from check, set and abort:
 bdrv_child_try_set_perm, bdrv_root_attach_child, bdrv_attach_child, bdrv_detach_child (through
 bdrv_replace_child) and bdrv_replace_node_common.
 */
module GraphOperations {
  import opened Optional
  import opened BlockGraph
  import opened BlockPermissions
  import opened PermissionUpdate
  import opened PermissionTheorems
  import opened PermissionSettling
  import opened PermissionLoosening

  datatype World = World(sys: System, st: Grants)

  /** What every operation keeps, whatever drivers derive and whatever is asked for. */
  ghost predicate Sound(w: World) {
    Ready(w.sys, w.st) && NoBackups(w.st) && Peaceful(w.sys.g, w.st, {})
  }

  /** With monotone drivers, moreover, edges cover what their parents derive: taking a user away tightens nothing. */
  ghost predicate Inv(w: World) {
    Sound(w) && Monotone(w.sys) && AllCovered(w.sys, w.st, w.sys.info.Keys)
  }

  // ---------------------------------------------------------------- operations

  /** bdrv_child_try_set_perm; the flag says whether the caller sees an error. */
  ghost function TrySetPerm(w: World, e: EdgeId, g: Grant): (World, bool)
    requires Ready(w.sys, w.st) && e in w.sys.g.target
  {
    var r := CheckEdge(w.sys, w.st, e, g, {});
    if r.ok then (World(w.sys, SetEdge(w.sys, r.st, e, g)), false)
    else (World(w.sys, AbortEdge(w.sys, r.st, e)), r.tighten)
  }

  function AddEdge(sys: System, e: EdgeId, n: NodeId): System {
    sys.(g := sys.g.(target := sys.g.target[e := n]))
  }

  /**
   bdrv_root_attach_child: edge e, held by no node, to node n; the flag says whether it was attached.
   `ctxOk` says whether the AioContexts of the node and its new parent can be made to match.
   */
  ghost function RootAttach(w: World, e: EdgeId, n: NodeId, g: Grant, ctxOk: bool): (World, bool)
    requires Ready(w.sys, w.st) && n in w.sys.info && FreshEdge(w.sys.g, e)
  {
    var r := CheckUpdate(w.sys, w.st, n, g, {});
    if r.ok && ctxOk then
      var sys := AddEdge(w.sys, e, n);
      var st := r.st[e := EdgeState(g, None)];
      AddEdgeReady(w.sys, e, n);
      (World(sys, SetNode(sys, st, n, Cumulative(sys.g, st, n, {}))), true)
    else (World(w.sys, AbortNode(w.sys, r.st, n)), false)
  }

  ghost predicate FreshEdge(g: Graph, e: EdgeId) {
    e !in g.target && e !in g.owner
  }

  // ---------------------------------------------------------------- graphs of the same shape

  /** The two graphs have the same child edges, pointing to the same nodes. */
  ghost predicate SameShape(g: Graph, g': Graph) {
    && g'.children.Keys == g.children.Keys
    && (forall n, f :: ChildOf(g', n, f) <==> ChildOf(g, n, f))
    && (forall n, f :: ChildOf(g, n, f) ==> g'.target[f] == g.target[f])
  }

  lemma {:induction false} SameShapeSameBelow(g: Graph, g': Graph)
    requires SameShape(g, g')
    ensures forall n :: Below(g', n) == Below(g, n)
    ensures forall n :: Cone(g', n) == Cone(g, n)
    ensures Acyclic(g') <==> Acyclic(g)
  {
    forall n, m
      ensures Linked(g', n, m) <==> Linked(g, n, m)
    {
      if Linked(g', n, m) {
        var e :| ChildOf(g', n, e) && g'.target[e] == m;
        assert ChildOf(g, n, e);
      }
      if Linked(g, n, m) {
        var e :| ChildOf(g, n, e) && g.target[e] == m;
        assert ChildOf(g', n, e);
      }
    }
    forall p
      ensures IsPath(g', p) <==> IsPath(g, p)
    {
    }
    forall n, m
      ensures ReachesProperly(g', n, m) <==> ReachesProperly(g, n, m)
    {
      if ReachesProperly(g', n, m) {
        var p :| Joins(g', p, n, m) && |p| >= 2;
        assert Joins(g, p, n, m);
      }
      if ReachesProperly(g, n, m) {
        var p :| Joins(g, p, n, m) && |p| >= 2;
        assert Joins(g', p, n, m);
      }
    }
    forall n
      ensures Below(g', n) == Below(g, n)
    {
    }
  }

  lemma {:induction false} SameShapeSameSubEdges(g: Graph, g': Graph, n: NodeId)
    requires SameShape(g, g')
    ensures SubEdges(g', n) == SubEdges(g, n)
  {
    SameShapeSameBelow(g, g');
    forall f
      ensures f in SubEdges(g', n) <==> f in SubEdges(g, n)
    {
      if f in SubEdges(g', n) {
        var v :| v in Cone(g', n) && ChildOf(g', v, f);
        assert v in Cone(g, n) && ChildOf(g, v, f);
      }
      if f in SubEdges(g, n) {
        var v :| v in Cone(g, n) && ChildOf(g, v, f);
        assert v in Cone(g', n) && ChildOf(g', v, f);
      }
    }
  }

  lemma {:induction false} AddEdgeReady(sys: System, e: EdgeId, n: NodeId)
    requires Valid(sys) && n in sys.info && FreshEdge(sys.g, e)
    ensures Valid(AddEdge(sys, e, n)) && SameShape(sys.g, AddEdge(sys, e, n).g)
    ensures forall m :: Users(AddEdge(sys, e, n).g, m) == if m == n then Users(sys.g, m) + {e} else Users(sys.g, m)
  {
    var g' := AddEdge(sys, e, n).g;
    assert forall m, f :: ChildOf(g', m, f) ==> f in g'.owner;
    assert forall m, f :: ChildOf(sys.g, m, f) ==> f in sys.g.owner;
    SameShapeSameBelow(sys.g, g');
  }

  /** The cumulative permissions depend on the counted users only, whatever node they are counted at. */
  lemma {:induction false} CumulativeTransferFrom(g: Graph, st: Grants, n: NodeId, ign: set<EdgeId>, g': Graph,
                                                  st': Grants, n': NodeId, ign': set<EdgeId>)
    requires g.target.Keys <= st.Keys && g'.target.Keys <= st'.Keys
    requires forall f :: (f in Users(g', n') && f !in ign') <==> (f in Users(g, n) && f !in ign)
    requires forall f :: f in Users(g, n) && f !in ign ==> st'[f].grant == st[f].grant
    ensures Cumulative(g', st', n', ign') == Cumulative(g, st, n, ign)
  {
    forall p: Perm
      ensures Taken(g', st', n', ign', p) <==> Taken(g, st, n, ign, p)
      ensures SharedByAll(g', st', n', ign', p) <==> SharedByAll(g, st, n, ign, p)
    {
      if Taken(g', st', n', ign', p) {
        var f :| f in Users(g', n') && f !in ign' && p in st'[f].grant.perm;
        assert f in Users(g, n) && f !in ign;
      }
      if Taken(g, st, n, ign, p) {
        var f :| f in Users(g, n) && f !in ign && p in st[f].grant.perm;
        assert f in Users(g', n') && f !in ign';
      }
    }
  }

  lemma {:induction false} CumulativeTransfer(g: Graph, st: Grants, ign: set<EdgeId>, g': Graph, st': Grants,
                                              ign': set<EdgeId>, n: NodeId)
    requires g.target.Keys <= st.Keys && g'.target.Keys <= st'.Keys
    requires forall f :: (f in Users(g', n) && f !in ign') <==> (f in Users(g, n) && f !in ign)
    requires forall f :: f in Users(g, n) && f !in ign ==> st'[f].grant == st[f].grant
    ensures Cumulative(g', st', n, ign') == Cumulative(g, st, n, ign)
  {
    CumulativeTransferFrom(g, st, n, ign, g', st', n, ign');
  }

  /** The child edges of m and their grants are the same in both worlds. */
  ghost predicate SameChildren(sys: System, st: Grants, sys': System, st': Grants, m: NodeId)
    requires Ready(sys, st) && Ready(sys', st') && m in sys.info && m in sys'.info
  {
    && sys'.info == sys.info && sys'.g.children[m] == sys.g.children[m]
    && (forall i :: 0 <= i < |sys.g.children[m]| ==>
          var f := sys.g.children[m][i]; sys'.g.target[f] == sys.g.target[f] && st'[f].grant == st[f].grant)
  }

  lemma {:induction false} SettledTransfer(sys: System, st: Grants, sys': System, st': Grants, m: NodeId, g: Grant)
    requires Ready(sys, st) && Ready(sys', st') && m in sys.info && m in sys'.info
    requires SameChildren(sys, st, sys', st', m) && SettledFor(sys, st, m, g)
    ensures SettledFor(sys', st', m, g)
  {
    forall i | 0 <= i < |sys'.g.children[m]|
      ensures st'[sys'.g.children[m][i]].grant == Derived(sys', m, sys'.g.children[m][i], g)
    {
      assert st[sys.g.children[m][i]].grant == Derived(sys, m, sys.g.children[m][i], g);
    }
  }

  /** A node with the same children and no more users' demands stays covered. */
  lemma {:induction false} CoveredTransfer(sys: System, st: Grants, sys': System, st': Grants, m: NodeId)
    requires Ready(sys, st) && Ready(sys', st') && m in sys.info && m in sys'.info && Monotone(sys)
    requires SameChildren(sys, st, sys', st', m) && Covered(sys, st, m)
    requires Looser(Cumulative(sys'.g, st', m, {}), Cumulative(sys.g, st, m, {}))
    ensures Covered(sys', st', m)
  {
    forall i | 0 <= i < |sys'.g.children[m]|
      ensures Looser(Derived(sys', m, sys'.g.children[m][i], Cumulative(sys'.g, st', m, {})),
                     st'[sys'.g.children[m][i]].grant)
    {
      var f := sys.g.children[m][i];
      DerivedLoosens(sys, m, f, sys.g.target[f], Cumulative(sys'.g, st', m, {}), Cumulative(sys.g, st, m, {}));
    }
  }

  lemma {:induction false} SameGrantsPeaceful(g: Graph, st: Grants, r: Grants, ign: set<EdgeId>)
    requires g.target.Keys <= st.Keys && Peaceful(g, st, ign) && SameGrants(st, r)
    ensures Peaceful(g, r, ign)
  {
  }

  /** A node outside the cone of n sees no change when only edges below n change. */
  lemma {:induction false} OutsideUnchanged(sys: System, st: Grants, r: Grants, n: NodeId, m: NodeId)
    requires Ready(sys, st) && Ready(sys, r) && n in sys.info && m in sys.info && m !in Cone(sys.g, n)
    requires forall f :: f in st && f !in SubEdges(sys.g, n) ==> r[f].grant == st[f].grant
    ensures SameChildren(sys, st, sys, r, m)
    ensures Cumulative(sys.g, r, m, {}) == Cumulative(sys.g, st, m, {})
  {
    forall f | f in Users(sys.g, m)
      ensures r[f].grant == st[f].grant
    {
      if f in SubEdges(sys.g, n) {
        SubEdgeEnds(sys.g, n, f);
      }
    }
    CumulativeSame(sys.g, st, r, m, {}, {});
    forall i | 0 <= i < |sys.g.children[m]|
      ensures r[sys.g.children[m][i]].grant == st[sys.g.children[m][i]].grant
    {
      assert ChildOf(sys.g, m, sys.g.children[m][i]);
      if sys.g.children[m][i] in SubEdges(sys.g, n) {
        SubEdgeEnds(sys.g, n, sys.g.children[m][i]);
      }
    }
  }

  // ---------------------------------------------------------------- bdrv_child_try_set_perm

  /** The new grant of e still covers what its owner, if a node, derives. */
  ghost predicate OwnerServed(sys: System, st: Grants, e: EdgeId, g: Grant)
    requires Ready(sys, st) && e in sys.g.target
  {
    forall m :: m in sys.info && ChildOf(sys.g, m, e) ==> Looser(Derived(sys, m, e, Cumulative(sys.g, st, m, {})), g)
  }

  /** Edges held by no node may ask for anything. */
  lemma {:induction false} RootServed(sys: System, st: Grants, e: EdgeId, g: Grant)
    requires Ready(sys, st) && e in sys.g.target && e !in sys.g.owner
    ensures OwnerServed(sys, st, e, g)
  {
    assert forall m :: m in sys.info ==> !ChildOf(sys.g, m, e);
  }

  /** bdrv_child_refresh_perms: the edge is set to what its owner derives. */
  lemma {:induction false} RefreshServed(sys: System, st: Grants, n: NodeId, e: EdgeId)
    requires Ready(sys, st) && n in sys.info && ChildOf(sys.g, n, e)
    ensures sys.info[n].driver.Derives? && OwnerServed(sys, st, e, Derived(sys, n, e, Cumulative(sys.g, st, n, {})))
  {
    assert forall m :: m in sys.info && ChildOf(sys.g, m, e) ==> m == n;
  }

  /** Changing e alone keeps m covered: m is not the node below e, and if it is the owner it is served. */
  lemma {:induction false} EdgeChangeCovers(sys: System, st: Grants, e: EdgeId, es: EdgeState, m: NodeId)
    requires Ready(sys, st) && e in sys.g.target && OwnerServed(sys, st, e, es.grant)
    requires m in sys.info && m != sys.g.target[e] && Covered(sys, st, m)
    ensures Covered(sys, st[e := es], m)
  {
    var mid := st[e := es];
    CumulativeSame(sys.g, st, mid, m, {}, {});
    forall i | 0 <= i < |sys.g.children[m]|
      ensures Looser(Derived(sys, m, sys.g.children[m][i], Cumulative(sys.g, mid, m, {})),
                     mid[sys.g.children[m][i]].grant)
    {
      assert sys.g.children[m][i] == e ==> ChildOf(sys.g, m, e);
    }
  }

  lemma {:induction false} OutsideCovered(sys: System, st: Grants, r: Grants, n: NodeId, m: NodeId)
    requires Ready(sys, st) && Ready(sys, r) && n in sys.info && m in sys.info && m !in Cone(sys.g, n)
    requires forall f :: f in st && f !in SubEdges(sys.g, n) ==> r[f].grant == st[f].grant
    requires Covered(sys, st, m)
    ensures Covered(sys, r, m)
  {
    OutsideUnchanged(sys, st, r, n, m);
  }

  lemma {:induction false} TrySetCovers(sys: System, st: Grants, s: Grants, e: EdgeId, g: Grant, m: NodeId)
    requires Ready(sys, st) && Ready(sys, s) && e in sys.g.target && OwnerServed(sys, st, e, g) && s[e].grant == g
    requires AllSettled(sys, s, Cone(sys.g, sys.g.target[e]), {})
    requires forall f :: f in st && f != e && f !in SubEdges(sys.g, sys.g.target[e]) ==> s[f] == st[f]
    requires m in sys.info && Covered(sys, st, m)
    ensures Covered(sys, s, m)
  {
    hide Acyclic, Covered, OwnerServed, Settled;
    var t := sys.g.target[e];
    if m in Cone(sys.g, t) {
      SettledIsCovered(sys, s, m, {});
    } else {
      var mid := st[e := s[e]];
      assert Covered(sys, mid, m) by {
        EdgeChangeCovers(sys, st, e, s[e], m);
      }
      OutsideCovered(sys, mid, s, t, m);
    }
  }

  /**
   bdrv_child_try_set_perm keeps users compatible, for any driver and any request.  A failed check
   changes nothing at all; a successful one gives the edge its new permissions and touches no edge
   outside the subtree.
   */
  lemma {:induction false} TrySetPermSound(w: World, e: EdgeId, g: Grant)
    requires Sound(w) && e in w.sys.g.target
    ensures Sound(TrySetPerm(w, e, g).0) && TrySetPerm(w, e, g).0.sys == w.sys
    ensures !CheckEdge(w.sys, w.st, e, g, {}).ok ==> TrySetPerm(w, e, g).0 == w
    ensures CheckEdge(w.sys, w.st, e, g, {}).ok ==> !TrySetPerm(w, e, g).1 && TrySetPerm(w, e, g).0.st[e].grant == g
    ensures forall f ::
              f in w.st && f != e && f !in SubEdges(w.sys.g, w.sys.g.target[e]) ==>
                TrySetPerm(w, e, g).0.st[f] == w.st[f]
  {
    var r := CheckEdge(w.sys, w.st, e, g, {});
    if r.ok {
      var s := SetEdge(w.sys, r.st, e, g);
      CheckThenSetCommits(w.sys, w.st, e, g);
      CheckEdgePeaceful(w.sys, w.st, e, g, {});
      SameGrantsPeaceful(w.sys.g, r.st, s, {});
    } else {
      CheckThenAbortRestores(w.sys, w.st, e, g, {});
    }
  }

  /** The owner of e has the same users and they have the same grants, so it derives the same. */
  lemma {:induction false} OwnerUnchanged(sys: System, st: Grants, s: Grants, e: EdgeId, m: NodeId)
    requires Ready(sys, st) && Ready(sys, s) && e in sys.g.target && m in sys.info && ChildOf(sys.g, m, e)
    requires forall f :: f in st && f != e && f !in SubEdges(sys.g, sys.g.target[e]) ==> s[f] == st[f]
    ensures Cumulative(sys.g, s, m, {}) == Cumulative(sys.g, st, m, {})
  {
    var t := sys.g.target[e];
    ChildBelow(sys.g, m, e);
    assert m !in Cone(sys.g, t);
    forall f | f in Users(sys.g, m)
      ensures s[f].grant == st[f].grant
    {
      if f in SubEdges(sys.g, t) {
        SubEdgeEnds(sys.g, t, f);
      }
    }
    CumulativeSame(sys.g, st, s, m, {}, {});
  }

  lemma {:induction false} CoverageServes(sys: System, st: Grants, s: Grants, e: EdgeId, g: Grant)
    requires Ready(sys, st) && Ready(sys, s) && e in sys.g.target && s[e].grant == g
             && AllCovered(sys, s, sys.info.Keys)
    requires forall f :: f in st && f != e && f !in SubEdges(sys.g, sys.g.target[e]) ==> s[f] == st[f]
    ensures OwnerServed(sys, st, e, g)
  {
    forall m | m in sys.info && ChildOf(sys.g, m, e)
      ensures Looser(Derived(sys, m, e, Cumulative(sys.g, st, m, {})), g)
    {
      OwnerUnchanged(sys, st, s, e, m);
      assert Covered(sys, s, m);
      var i :| 0 <= i < |sys.g.children[m]| && sys.g.children[m][i] == e;
    }
  }

  /** If the request is granted, coverage is kept exactly when the owner of the edge gets what it derives. */
  lemma {:induction false} TrySetPermInvIff(w: World, e: EdgeId, g: Grant)
    requires Inv(w) && e in w.sys.g.target && CheckEdge(w.sys, w.st, e, g, {}).ok
    ensures Inv(TrySetPerm(w, e, g).0) <==> OwnerServed(w.sys, w.st, e, g)
  {
    hide CheckEdge;
    var s := TrySetPerm(w, e, g).0.st;
    TrySetPermSound(w, e, g);
    if OwnerServed(w.sys, w.st, e, g) {
      TrySetPermKeepsInv(w, e, g);
    }
    if Inv(World(w.sys, s)) {
      CoverageServes(w.sys, w.st, s, e, g);
    }
  }

  lemma {:induction false} TrySetPermKeepsInv(w: World, e: EdgeId, g: Grant)
    requires Inv(w) && e in w.sys.g.target && OwnerServed(w.sys, w.st, e, g)
    ensures Inv(TrySetPerm(w, e, g).0)
  {
    TrySetPermSound(w, e, g);
    var r := CheckEdge(w.sys, w.st, e, g, {});
    if r.ok {
      var s := SetEdge(w.sys, r.st, e, g);
      CheckThenSetCommits(w.sys, w.st, e, g);
      forall m | m in w.sys.info
        ensures Covered(w.sys, s, m)
      {
        TrySetCovers(w.sys, w.st, s, e, g, m);
      }
    }
  }

  // ---------------------------------------------------------------- bdrv_root_attach_child

  lemma {:induction false} CheckUpdateUsers(sys: System, st: Grants, n: NodeId, g: Grant, ign: set<EdgeId>)
    requires Ready(sys, st) && n in sys.info
    ensures forall f :: f in Users(sys.g, n) ==> CheckUpdate(sys, st, n, g, ign).st[f] == st[f]
  {
    CheckUpdateRemembers(sys, st, n, g, ign);
    UsersUntouched(sys, st, CheckUpdate(sys, st, n, g, ign).st, n);
  }

  lemma {:induction false} CheckUpdateOutside(sys: System, st: Grants, n: NodeId, g: Grant, ign: set<EdgeId>, m: NodeId)
    requires Ready(sys, st) && n in sys.info && m in sys.info && m !in Cone(sys.g, n)
    ensures Ready(sys, CheckUpdate(sys, st, n, g, ign).st)
    ensures SameChildren(sys, st, sys, CheckUpdate(sys, st, n, g, ign).st, m)
    ensures Cumulative(sys.g, CheckUpdate(sys, st, n, g, ign).st, m, {}) == Cumulative(sys.g, st, m, {})
  {
    CheckUpdateRemembers(sys, st, n, g, ign);
    OutsideUnchanged(sys, st, CheckUpdate(sys, st, n, g, ign).st, n, m);
  }

  /** What bdrv_root_attach_child has after its check of n for g succeeded: the new edge e in place. */
  ghost function AttachedState(w: World, e: EdgeId, n: NodeId, g: Grant): Grants
    requires Ready(w.sys, w.st) && n in w.sys.info
  {
    CheckUpdate(w.sys, w.st, n, g, {}).st[e := EdgeState(g, None)]
  }

  ghost predicate CanAttach(w: World, e: EdgeId, n: NodeId, g: Grant) {
    && Ready(w.sys, w.st) && n in w.sys.info && FreshEdge(w.sys.g, e)
    && CheckUpdate(w.sys, w.st, n, g, {}).ok
  }

  lemma {:induction false} AttachReady(w: World, e: EdgeId, n: NodeId, g: Grant)
    requires CanAttach(w, e, n, g)
    ensures Ready(AddEdge(w.sys, e, n), AttachedState(w, e, n, g))
    ensures forall m ::
              Cone(AddEdge(w.sys, e, n).g, m) == Cone(w.sys.g, m)
              && Below(AddEdge(w.sys, e, n).g, m) == Below(w.sys.g, m)
  {
    AddEdgeReady(w.sys, e, n);
    SameShapeSameBelow(w.sys.g, AddEdge(w.sys, e, n).g);
  }

  /** The cumulative permissions of n with the new edge are what the check was made for. */
  lemma {:induction false} AttachedCumulative(w: World, e: EdgeId, n: NodeId, g: Grant)
    requires CanAttach(w, e, n, g)
    ensures Cumulative(AddEdge(w.sys, e, n).g, AttachedState(w, e, n, g), n, {})
            == Join(g, Cumulative(w.sys.g, w.st, n, {}))
  {
    var sys := AddEdge(w.sys, e, n);
    var r := CheckUpdate(w.sys, w.st, n, g, {}).st;
    var st := AttachedState(w, e, n, g);
    AddEdgeReady(w.sys, e, n);
    CheckUpdateUsers(w.sys, w.st, n, g, {});
    CumulativeTransfer(w.sys.g, w.st, {}, sys.g, st, {e}, n);
    CumulativeSplit(sys.g, st, n, {}, e);
    assert {} + {e} == {e};
  }

  lemma {:induction false} AttachSettlesBelow(w: World, e: EdgeId, n: NodeId, g: Grant, m: NodeId)
    requires CanAttach(w, e, n, g) && m in w.sys.info && m != n
             && Settled(w.sys, CheckUpdate(w.sys, w.st, n, g, {}).st, m, {})
    ensures Ready(AddEdge(w.sys, e, n), AttachedState(w, e, n, g))
    ensures Settled(AddEdge(w.sys, e, n), AttachedState(w, e, n, g), m, {})
  {
    var sys := AddEdge(w.sys, e, n);
    var r := CheckUpdate(w.sys, w.st, n, g, {}).st;
    AddEdgeSameChildren(w.sys, r, e, n, g, m);
    AddEdgeReady(w.sys, e, n);
    CumulativeTransfer(w.sys.g, r, {}, sys.g, AttachedState(w, e, n, g), {}, m);
    SettledTransfer(w.sys, r, sys, AttachedState(w, e, n, g), m, Cumulative(w.sys.g, r, m, {}));
  }

  /** The new edge leaves n and everything below it settled. */
  lemma {:induction false} AttachSettles(w: World, e: EdgeId, n: NodeId, g: Grant)
    requires CanAttach(w, e, n, g)
    ensures var sys := AddEdge(w.sys, e, n); var st := AttachedState(w, e, n, g);
            && Ready(sys, st) && SettledFor(sys, st, n, Cumulative(sys.g, st, n, {}))
            && AllSettled(sys, st, Below(sys.g, n), {})
  {
    var sys := AddEdge(w.sys, e, n);
    var joint := Join(g, Cumulative(w.sys.g, w.st, n, {}));
    var r := CheckUpdate(w.sys, w.st, n, g, {}).st;
    AttachReady(w, e, n, g);
    AttachedCumulative(w, e, n, g);
    CheckNodeSettles(w.sys, w.st, n, joint, {});
    AddEdgeSameChildren(w.sys, r, e, n, g, n);
    SettledTransfer(w.sys, r, sys, AttachedState(w, e, n, g), n, joint);
    forall m | m in Below(sys.g, n) && m in sys.info
      ensures Settled(sys, AttachedState(w, e, n, g), m, {})
    {
      AttachSettlesBelow(w, e, n, g, m);
    }
  }

  /** Users of n are not below n. */
  lemma {:induction false} UsersUntouched(sys: System, st: Grants, r: Grants, n: NodeId)
    requires Ready(sys, st) && n in sys.info && Remembers(st, r, SubEdges(sys.g, n))
    ensures forall f :: f in Users(sys.g, n) ==> r[f] == st[f]
  {
    forall f | f in Users(sys.g, n)
      ensures r[f] == st[f]
    {
      if f in SubEdges(sys.g, n) {
        SubEdgeEnds(sys.g, n, f);
      }
    }
  }

  lemma {:induction false} AddEdgeSameChildren(sys: System, st: Grants, e: EdgeId, n: NodeId, g: Grant, m: NodeId)
    requires Ready(sys, st) && n in sys.info && m in sys.info && FreshEdge(sys.g, e)
    ensures Ready(AddEdge(sys, e, n), st[e := EdgeState(g, None)])
    ensures SameChildren(sys, st, AddEdge(sys, e, n), st[e := EdgeState(g, None)], m)
  {
    AddEdgeReady(sys, e, n);
    assert forall i :: 0 <= i < |sys.g.children[m]| ==> Owns(sys.g, m, sys.g.children[m][i]);
  }

  lemma {:induction false} AttachPeaceful(w: World, e: EdgeId, n: NodeId, g: Grant)
    requires CanAttach(w, e, n, g) && Peaceful(w.sys.g, w.st, {})
    ensures Peaceful(AddEdge(w.sys, e, n).g, AttachedState(w, e, n, g), {})
  {
    var r := CheckUpdate(w.sys, w.st, n, g, {}).st;
    CheckNodePeaceful(w.sys, w.st, n, Join(g, Cumulative(w.sys.g, w.st, n, {})), {});
    assert NoConflict(w.sys.g, r, n, g, {}) by {
      CheckUpdateUsers(w.sys, w.st, n, g, {});
    }
    NewUserPeaceful(w.sys, r, e, n, g);
  }

  lemma {:induction false} NewUserPeaceful(sys: System, r: Grants, e: EdgeId, n: NodeId, g: Grant)
    requires Ready(sys, r) && n in sys.info && FreshEdge(sys.g, e) && Peaceful(sys.g, r, {})
             && NoConflict(sys.g, r, n, g, {})
    ensures Peaceful(AddEdge(sys, e, n).g, r[e := EdgeState(g, None)], {})
  {
  }

  lemma {:induction false} AttachOutside(w: World, e: EdgeId, n: NodeId, g: Grant, m: NodeId)
    requires CanAttach(w, e, n, g) && m in w.sys.info && m !in Cone(w.sys.g, n)
    ensures Ready(AddEdge(w.sys, e, n), AttachedState(w, e, n, g))
    ensures SameChildren(w.sys, w.st, AddEdge(w.sys, e, n), AttachedState(w, e, n, g), m)
    ensures Cumulative(AddEdge(w.sys, e, n).g, AttachedState(w, e, n, g), m, {}) == Cumulative(w.sys.g, w.st, m, {})
  {
    var r := CheckUpdate(w.sys, w.st, n, g, {}).st;
    CheckUpdateOutside(w.sys, w.st, n, g, {}, m);
    AddEdgeSameChildren(w.sys, r, e, n, g, m);
    AddEdgeReady(w.sys, e, n);
    CumulativeTransfer(w.sys.g, r, {}, AddEdge(w.sys, e, n).g, AttachedState(w, e, n, g), {}, m);
  }

  lemma {:induction false} AttachCovers(w: World, e: EdgeId, n: NodeId, g: Grant, m: NodeId)
    requires CanAttach(w, e, n, g) && m in w.sys.info && Covered(w.sys, w.st, m) && Monotone(w.sys)
    ensures Ready(AddEdge(w.sys, e, n), AttachedState(w, e, n, g))
    ensures Covered(AddEdge(w.sys, e, n), AttachedState(w, e, n, g), m)
  {
    AttachReady(w, e, n, g);
    if m in Cone(w.sys.g, n) {
      AttachSettles(w, e, n, g);
      SettledIsCovered(AddEdge(w.sys, e, n), AttachedState(w, e, n, g), m, {});
    } else {
      AttachOutside(w, e, n, g, m);
      CoveredTransfer(w.sys, w.st, AddEdge(w.sys, e, n), AttachedState(w, e, n, g), m);
    }
  }

  /** bdrv_root_attach_child keeps users compatible, for any driver and any request; if it fails nothing has changed. */
  lemma {:induction false} RootAttachSound(w: World, e: EdgeId, n: NodeId, g: Grant, ctxOk: bool)
    requires Sound(w) && n in w.sys.info && FreshEdge(w.sys.g, e)
    ensures Sound(RootAttach(w, e, n, g, ctxOk).0)
    ensures RootAttach(w, e, n, g, ctxOk).1 <==> ctxOk && CheckUpdate(w.sys, w.st, n, g, {}).ok
    ensures !RootAttach(w, e, n, g, ctxOk).1 ==> RootAttach(w, e, n, g, ctxOk).0 == w
    ensures RootAttach(w, e, n, g, ctxOk).1 ==>
            && RootAttach(w, e, n, g, ctxOk).0.sys == AddEdge(w.sys, e, n)
            && RootAttach(w, e, n, g, ctxOk).0.st[e].grant == g
            && SameGrants(AttachedState(w, e, n, g), RootAttach(w, e, n, g, ctxOk).0.st)
  {
    var r := CheckUpdate(w.sys, w.st, n, g, {});
    if r.ok && ctxOk {
      var sys := AddEdge(w.sys, e, n);
      var st := AttachedState(w, e, n, g);
      AddEdgeReady(w.sys, e, n);
      AttachSettles(w, e, n, g);
      SetNodeKeeps(sys, st, n, Cumulative(sys.g, st, n, {}));
      var s := SetNode(sys, st, n, Cumulative(sys.g, st, n, {}));
      SameShapeSameSubEdges(w.sys.g, sys.g, n);
      CheckUpdateRemembers(w.sys, w.st, n, g, {});
      AttachNoBackups(w.st, r.st, e, g, s, SubEdges(w.sys.g, n));
      AttachPeaceful(w, e, n, g);
      SameGrantsPeaceful(sys.g, st, s, {});
    } else {
      CheckUpdateThenAbortRestores(w.sys, w.st, n, g, {});
    }
  }

  /** It always keeps coverage as well. */
  lemma {:induction false} RootAttachKeepsInv(w: World, e: EdgeId, n: NodeId, g: Grant, ctxOk: bool)
    requires Inv(w) && n in w.sys.info && FreshEdge(w.sys.g, e)
    ensures Inv(RootAttach(w, e, n, g, ctxOk).0)
  {
    RootAttachSound(w, e, n, g, ctxOk);
    if RootAttach(w, e, n, g, ctxOk).1 {
      var sys, st, s := AddEdge(w.sys, e, n), AttachedState(w, e, n, g), RootAttach(w, e, n, g, ctxOk).0.st;
      forall m | m in sys.info
        ensures Covered(sys, s, m)
      {
        AttachCovers(w, e, n, g, m);
        CumulativeSame(sys.g, st, s, m, {}, {});
      }
      assert Monotone(sys);
    }
  }

  lemma {:induction false} AttachNoBackups(st0: Grants, r: Grants, e: EdgeId, g: Grant, s: Grants, touched: set<EdgeId>)
    requires NoBackups(st0) && Remembers(st0, r, touched) && e !in st0
             && ClearedOn(r[e := EdgeState(g, None)], s, touched)
    ensures NoBackups(s) && SameGrants(r[e := EdgeState(g, None)], s)
  {
  }
}
