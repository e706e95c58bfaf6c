/**
 A successful check leaves the graph settled: below the checked edge every edge carries exactly what
 its parent's driver derives from the permissions its parent now has.  On a settled graph the set
 phase changes no permission, and users that could coexist still can.
 */
module PermissionSettling {
  import opened Optional
  import opened BlockGraph
  import opened BlockPermissions
  import opened PermissionUpdate
  import opened PermissionTheorems

  // ---------------------------------------------------------------- cumulative permissions

  lemma {:induction false} CumulativeSame(g: Graph, st: Grants, r: Grants, n: NodeId, ign: set<EdgeId>,
                                          ign': set<EdgeId>)
    requires g.target.Keys <= st.Keys && g.target.Keys <= r.Keys
    requires forall f :: f in Users(g, n) ==> (f in ign <==> f in ign')
    requires forall f :: f in Users(g, n) && f !in ign ==> r[f].grant == st[f].grant
    ensures Cumulative(g, r, n, ign') == Cumulative(g, st, n, ign)
  {
    forall p: Perm
      ensures Taken(g, r, n, ign', p) <==> Taken(g, st, n, ign, p)
      ensures SharedByAll(g, r, n, ign', p) <==> SharedByAll(g, st, n, ign, p)
    {
    }
  }

  /** One user can be split off. */
  lemma {:induction false} CumulativeSplit(g: Graph, st: Grants, n: NodeId, ign: set<EdgeId>, e: EdgeId)
    requires g.target.Keys <= st.Keys && e in Users(g, n) && e !in ign
    ensures Cumulative(g, st, n, ign) == Join(st[e].grant, Cumulative(g, st, n, ign + {e}))
  {
    var a, b := Cumulative(g, st, n, ign), Join(st[e].grant, Cumulative(g, st, n, ign + {e}));
    forall p: Perm
      ensures p in a.perm <==> p in b.perm
      ensures p in a.shared <==> p in b.shared
    {
      if Taken(g, st, n, ign, p) && p !in st[e].grant.perm {
        assert Taken(g, st, n, ign + {e}, p);
      }
    }
  }

  /** Without users a node has no needs. */
  lemma {:induction false} NoUsers(g: Graph, st: Grants, n: NodeId, ign: set<EdgeId>)
    requires g.target.Keys <= st.Keys && Users(g, n) <= ign
    ensures Cumulative(g, st, n, ign) == Grant({}, ALL)
  {
    var c := Cumulative(g, st, n, ign);
    assert forall p: Perm :: !Taken(g, st, n, ign, p) && SharedByAll(g, st, n, ign, p);
    AllIsAll(c.shared);
    assert forall p: Perm :: p in ALL ==> p in c.shared;
  }

  // ---------------------------------------------------------------- settled nodes

  /** The child edges of n carry what n derives from g. */
  ghost predicate SettledFor(sys: System, st: Grants, n: NodeId, g: Grant)
    requires Ready(sys, st) && n in sys.info
  {
    forall i ::
      0 <= i < |sys.g.children[n]| ==> st[sys.g.children[n][i]].grant == Derived(sys, n, sys.g.children[n][i], g)
  }

  ghost predicate Settled(sys: System, st: Grants, n: NodeId, ign: set<EdgeId>)
    requires Ready(sys, st) && n in sys.info
  {
    SettledFor(sys, st, n, Cumulative(sys.g, st, n, ign))
  }

  ghost predicate AllSettled(sys: System, st: Grants, nodes: set<NodeId>, ign: set<EdgeId>)
    requires Ready(sys, st)
  {
    forall m :: m in nodes && m in sys.info ==> Settled(sys, st, m, ign)
  }

  /** Edges below n point strictly below n, and belong to nodes of its cone. */
  lemma {:induction false} SubEdgeEnds(g: Graph, n: NodeId, f: EdgeId)
    requires WellFormed(g) && n in g.children && f in SubEdges(g, n)
    ensures g.target[f] in Below(g, n)
    ensures forall m :: ChildOf(g, m, f) ==> m in Cone(g, n)
  {
    var v :| v in Cone(g, n) && ChildOf(g, v, f);
    ConeClosed(g, n, v, f);
    assert forall m :: ChildOf(g, m, f) ==> m == v;
  }

  /** An edge is not below its own target. */
  lemma {:induction false} EdgeNotBelowItself(g: Graph, e: EdgeId)
    requires WellFormed(g) && Acyclic(g) && e in g.target
    ensures e !in SubEdges(g, g.target[e])
  {
    if e in SubEdges(g, g.target[e]) {
      SubEdgeEnds(g, g.target[e], e);
    }
  }

  /** A change below edge e does not disturb a node outside the cone that does not own e. */
  lemma {:induction false} SettledElsewhere(sys: System, st: Grants, r: Grants, e: EdgeId, m: NodeId, ign: set<EdgeId>)
    requires Ready(sys, st) && Ready(sys, r) && e in sys.g.target && m in sys.info
    requires Remembers(st, r, SubEdges(sys.g, sys.g.target[e]) + {e})
    requires m !in Cone(sys.g, sys.g.target[e]) && !ChildOf(sys.g, m, e)
    requires Settled(sys, st, m, ign)
    ensures Settled(sys, r, m, ign)
  {
    var t := sys.g.target[e];
    forall f | f in Users(sys.g, m)
      ensures r[f] == st[f]
    {
      if f in SubEdges(sys.g, t) {
        SubEdgeEnds(sys.g, t, f);
      }
    }
    CumulativeSame(sys.g, st, r, m, ign, ign);
    forall i | 0 <= i < |sys.g.children[m]|
      ensures r[sys.g.children[m][i]] == st[sys.g.children[m][i]]
    {
      var f := sys.g.children[m][i];
      assert ChildOf(sys.g, m, f);
      if f in SubEdges(sys.g, t) {
        SubEdgeEnds(sys.g, t, f);
      }
    }
  }

  lemma {:induction false} CheckNodeSettles(sys: System, st: Grants, n: NodeId, g: Grant, ign: set<EdgeId>)
    requires Ready(sys, st) && n in sys.info && CheckNode(sys, st, n, g, ign).ok && ign !! SubEdges(sys.g, n)
    ensures var r := CheckNode(sys, st, n, g, ign).st;
            SettledFor(sys, r, n, g) && AllSettled(sys, r, Below(sys.g, n), ign)
    decreases Below(sys.g, n), 1, 0
  {
    CheckChildrenSettle(sys, st, n, 0, g, ign, Tightens(g, Cumulative(sys.g, st, n, {})));
    AllDoneSettles(sys, CheckNode(sys, st, n, g, ign).st, n, g, ign);
  }

  lemma {:induction false} AllDoneSettles(sys: System, r: Grants, n: NodeId, g: Grant, ign: set<EdgeId>)
    requires Ready(sys, r) && n in sys.info && DoneBefore(sys, r, n, |sys.g.children[n]|, g, ign)
    ensures SettledFor(sys, r, n, g) && AllSettled(sys, r, Below(sys.g, n), ign)
  {
    forall i | 0 <= i < |sys.g.children[n]|
      ensures r[sys.g.children[n][i]].grant == Derived(sys, n, sys.g.children[n][i], g)
    {
      assert ChildDone(sys, r, n, i, g, ign);
    }
    forall m | m in Below(sys.g, n) && m in sys.info
      ensures Settled(sys, r, m, ign)
    {
      var e := BelowVia(sys.g, n, m);
      var i :| 0 <= i < |sys.g.children[n]| && sys.g.children[n][i] == e;
      assert ChildDone(sys, r, n, i, g, ign);
    }
  }

  /** The i-th child of n has been dealt with. */
  ghost predicate ChildDone(sys: System, st: Grants, n: NodeId, i: nat, g: Grant, ign: set<EdgeId>)
    requires Ready(sys, st) && n in sys.info && i < |sys.g.children[n]|
  {
    var e := sys.g.children[n][i];
    st[e].grant == Derived(sys, n, e, g) && AllSettled(sys, st, Cone(sys.g, sys.g.target[e]), ign)
  }

  ghost predicate DoneBefore(sys: System, st: Grants, n: NodeId, i: nat, g: Grant, ign: set<EdgeId>)
    requires Ready(sys, st) && n in sys.info && i <= |sys.g.children[n]|
  {
    forall j :: 0 <= j < i ==> ChildDone(sys, st, n, j, g, ign)
  }

  lemma {:induction false} CheckChildrenSettle(sys: System, st: Grants, n: NodeId, i: nat, g: Grant, ign: set<EdgeId>,
                                               tighten: bool)
    requires Ready(sys, st) && n in sys.info && i <= |sys.g.children[n]| && ign !! SubEdges(sys.g, n)
    requires CheckChildren(sys, st, n, i, g, ign, tighten).ok
    requires DoneBefore(sys, st, n, i, g, ign)
    ensures DoneBefore(sys, CheckChildren(sys, st, n, i, g, ign, tighten).st, n, |sys.g.children[n]|, g, ign)
    decreases Below(sys.g, n), 0, |sys.g.children[n]| - i
  {
    hide Acyclic, Derived, CheckEdge, ChildDone;
    if i < |sys.g.children[n]| {
      var e := sys.g.children[n][i];
      var d := Derived(sys, n, e, g);
      var r := CheckEdge(sys, st, e, d, ign);
      assert r.ok
             && CheckChildren(sys, st, n, i, g, ign, tighten)
                == CheckChildren(sys, r.st, n, i + 1, g, ign, tighten || r.tighten);
      ChildBelow(sys.g, n, e);
      assert DoneBefore(sys, r.st, n, i + 1, g, ign) by {
        SubEdgesOfChild(sys.g, n, e);
        CheckEdgeSettles(sys, st, e, d, ign);
        CheckEdgeRemembers(sys, st, e, d, ign);
        ChildIsDone(sys, r.st, n, i, g, ign);
        OneMoreDone(sys, st, r.st, n, i, g, ign);
      }
      CheckChildrenSettle(sys, r.st, n, i + 1, g, ign, tighten || r.tighten);
    }
  }

  lemma {:induction false} ChildIsDone(sys: System, r: Grants, n: NodeId, i: nat, g: Grant, ign: set<EdgeId>)
    requires Ready(sys, r) && n in sys.info && i < |sys.g.children[n]|
    requires var e := sys.g.children[n][i];
             r[e].grant == Derived(sys, n, e, g) && AllSettled(sys, r, Cone(sys.g, sys.g.target[e]), ign)
    ensures ChildDone(sys, r, n, i, g, ign)
  {
  }

  lemma {:induction false} OneMoreDone(sys: System, st: Grants, r: Grants, n: NodeId, i: nat, g: Grant,
                                       ign: set<EdgeId>)
    requires Ready(sys, st) && Ready(sys, r) && n in sys.info && i < |sys.g.children[n]|
    requires Remembers(st, r, SubEdges(sys.g, sys.g.target[sys.g.children[n][i]]) + {sys.g.children[n][i]})
    requires DoneBefore(sys, st, n, i, g, ign) && ChildDone(sys, r, n, i, g, ign)
    ensures DoneBefore(sys, r, n, i + 1, g, ign)
  {
    hide ChildDone, Remembers, Acyclic;
    forall j | 0 <= j < i
      ensures ChildDone(sys, r, n, j, g, ign)
    {
      ChildStaysDone(sys, st, r, n, j, i, g, ign);
    }
  }

  lemma {:induction false} ChildStaysDone(sys: System, st: Grants, r: Grants, n: NodeId, j: nat, i: nat, g: Grant,
                                          ign: set<EdgeId>)
    requires Ready(sys, st) && Ready(sys, r) && n in sys.info && j < i < |sys.g.children[n]|
    requires var e := sys.g.children[n][i];
             Remembers(st, r, SubEdges(sys.g, sys.g.target[e]) + {e})
    requires ChildDone(sys, st, n, j, g, ign) && ChildDone(sys, r, n, i, g, ign)
    ensures ChildDone(sys, r, n, j, g, ign)
  {
    var e, f := sys.g.children[n][i], sys.g.children[n][j];
    assert ChildOf(sys.g, n, e) && ChildOf(sys.g, n, f);
    ChildBelow(sys.g, n, e);
    ChildBelow(sys.g, n, f);
    assert forall m :: ChildOf(sys.g, m, e) ==> m == n;
    assert f !in SubEdges(sys.g, sys.g.target[e]) by {
      if f in SubEdges(sys.g, sys.g.target[e]) {
        SubEdgeEnds(sys.g, sys.g.target[e], f);
      }
    }
    forall m | m in Cone(sys.g, sys.g.target[f]) && m in sys.info
      ensures Settled(sys, r, m, ign)
    {
      if m !in Cone(sys.g, sys.g.target[e]) {
        SettledElsewhere(sys, st, r, e, m, ign);
      }
    }
  }

  lemma {:induction false} CheckEdgeSettles(sys: System, st: Grants, e: EdgeId, g: Grant, ign: set<EdgeId>)
    requires Ready(sys, st) && e in sys.g.target && CheckEdge(sys, st, e, g, ign).ok
    requires e !in ign && ign !! SubEdges(sys.g, sys.g.target[e])
    ensures var r := CheckEdge(sys, st, e, g, ign).st;
            r[e].grant == g && AllSettled(sys, r, Cone(sys.g, sys.g.target[e]), ign)
    decreases Below(sys.g, sys.g.target[e]), 3, 0
  {
    var t := sys.g.target[e];
    var joint := Join(g, Cumulative(sys.g, st, t, ign + {e}));
    var r0 := CheckNode(sys, st, t, joint, ign + {e}).st;
    EdgeNotBelowItself(sys.g, e);
    CheckNodeSettles(sys, st, t, joint, ign + {e});
    CheckNodeRemembers(sys, st, t, joint, ign + {e});
    InstallSettles(sys, st, r0, e, g, ign);
  }

  lemma {:induction false} OtherUsersUntouched(sys: System, st: Grants, r0: Grants, e: EdgeId)
    requires Ready(sys, st) && Ready(sys, r0) && e in sys.g.target
             && Remembers(st, r0, SubEdges(sys.g, sys.g.target[e]))
    ensures forall f :: f in Users(sys.g, sys.g.target[e]) ==> r0[f] == st[f]
  {
    var t := sys.g.target[e];
    forall f | f in Users(sys.g, t)
      ensures r0[f] == st[f]
    {
      if f in SubEdges(sys.g, t) {
        SubEdgeEnds(sys.g, t, f);
      }
    }
  }

  /** Once the edge carries its new grant, its target is settled for the permissions it was checked with. */
  lemma {:induction false} InstallSettles(sys: System, st: Grants, r0: Grants, e: EdgeId, g: Grant, ign: set<EdgeId>)
    requires Ready(sys, st) && Ready(sys, r0) && e in sys.g.target && e !in ign
    requires var t := sys.g.target[e];
             && Remembers(st, r0, SubEdges(sys.g, t))
             && SettledFor(sys, r0, t, Join(g, Cumulative(sys.g, st, t, ign + {e})))
             && AllSettled(sys, r0, Below(sys.g, t), ign + {e})
    ensures AllSettled(sys, r0[e := Install(r0[e], g)], Cone(sys.g, sys.g.target[e]), ign)
  {
    hide Derived, Cumulative, Join, Acyclic;
    var t := sys.g.target[e];
    var r := r0[e := Install(r0[e], g)];
    EdgeNotBelowItself(sys.g, e);
    OtherUsersUntouched(sys, st, r0, e);
    CumulativeSame(sys.g, st, r, t, ign + {e}, ign + {e});
    CumulativeSplit(sys.g, r, t, ign, e);
    forall m | m in Cone(sys.g, t) && m in sys.info
      ensures Settled(sys, r, m, ign)
    {
      if m != t {
        assert Settled(sys, r0, m, ign + {e});
        CumulativeSame(sys.g, r0, r, m, ign + {e}, ign);
      }
      ChildrenUntouched(sys, t, m, e);
    }
  }

  lemma {:induction false} ChildrenUntouched(sys: System, t: NodeId, m: NodeId, e: EdgeId)
    requires Valid(sys) && t in sys.info && m in Cone(sys.g, t) && m in sys.info && e !in SubEdges(sys.g, t)
    ensures e !in sys.g.children[m]
  {
    if e in sys.g.children[m] {
      assert ChildOf(sys.g, m, e);
    }
  }

  // ---------------------------------------------------------------- the set phase

  ghost predicate SameGrants(st: Grants, r: Grants) {
    st.Keys == r.Keys && forall f :: f in st ==> r[f].grant == st[f].grant
  }

  /** r is st with the backups of `touched` dropped. */
  ghost predicate ClearedOn(st: Grants, r: Grants, touched: set<EdgeId>) {
    && st.Keys == r.Keys
    && (forall f :: f in st ==> r[f] == if f in touched then EdgeState(st[f].grant, None) else st[f])
  }

  lemma {:induction false} SameGrantsSettled(sys: System, st: Grants, r: Grants, nodes: set<NodeId>, ign: set<EdgeId>)
    requires Ready(sys, st) && SameGrants(st, r) && AllSettled(sys, st, nodes, ign)
    ensures AllSettled(sys, r, nodes, ign)
  {
    forall m | m in nodes && m in sys.info
      ensures Settled(sys, r, m, ign)
    {
      assert Settled(sys, st, m, ign);
      CumulativeSame(sys.g, st, r, m, ign, ign);
    }
  }

  /** On a settled node bdrv_set_perm changes no permission and drops the backups below it. */
  lemma {:induction false} SetNodeKeeps(sys: System, st: Grants, n: NodeId, g: Grant)
    requires Ready(sys, st) && n in sys.info && SettledFor(sys, st, n, g) && AllSettled(sys, st, Below(sys.g, n), {})
    ensures ClearedOn(st, SetNode(sys, st, n, g), SubEdges(sys.g, n))
    decreases Below(sys.g, n), 1, 0
  {
    SetChildrenKeep(sys, st, n, 0, g);
    EdgesFromAll(sys.g, n);
  }

  lemma {:induction false} SetChildrenKeep(sys: System, st: Grants, n: NodeId, i: nat, g: Grant)
    requires Ready(sys, st) && n in sys.info && i <= |sys.g.children[n]|
    requires SettledFor(sys, st, n, g) && AllSettled(sys, st, Below(sys.g, n), {})
    ensures ClearedOn(st, SetChildren(sys, st, n, i, g), EdgesFrom(sys.g, n, i))
    decreases Below(sys.g, n), 0, |sys.g.children[n]| - i
  {
    if i < |sys.g.children[n]| {
      var e := sys.g.children[n][i];
      ChildBelow(sys.g, n, e);
      SetEdgeKeeps(sys, st, e);
      var r := SetEdge(sys, st, e, Derived(sys, n, e, g));
      assert r == SetEdge(sys, st, e, st[e].grant);
      assert SameGrants(st, r);
      SameGrantsSettled(sys, st, r, Below(sys.g, n), {});
      SetChildrenKeep(sys, r, n, i + 1, g);
    }
  }

  lemma {:induction false} SetEdgeKeeps(sys: System, st: Grants, e: EdgeId)
    requires Ready(sys, st) && e in sys.g.target && AllSettled(sys, st, Cone(sys.g, sys.g.target[e]), {})
    ensures ClearedOn(st, SetEdge(sys, st, e, st[e].grant), SubEdges(sys.g, sys.g.target[e]) + {e})
    decreases Below(sys.g, sys.g.target[e]), 2, 0
  {
    var t := sys.g.target[e];
    var st1 := st[e := EdgeState(st[e].grant, None)];
    assert SameGrants(st, st1);
    SameGrantsSettled(sys, st, st1, Cone(sys.g, t), {});
    assert Settled(sys, st1, t, {});
    SetNodeKeeps(sys, st1, t, Cumulative(sys.g, st1, t, {}));
  }

  /**
   Commit: a successful check followed by set leaves exactly the permissions the check installed, on
   every edge, with all backups cleared.
   */
  lemma {:induction false} CheckThenSetCommits(sys: System, st: Grants, e: EdgeId, g: Grant)
    requires Ready(sys, st) && NoBackups(st) && e in sys.g.target
    requires CheckEdge(sys, st, e, g, {}).ok
    ensures var r := CheckEdge(sys, st, e, g, {}).st; var s := SetEdge(sys, r, e, g);
            && SameGrants(r, s) && NoBackups(s)
            && s[e].grant == g && AllSettled(sys, s, Cone(sys.g, sys.g.target[e]), {})
            && forall f :: f in st && f != e && f !in SubEdges(sys.g, sys.g.target[e]) ==> s[f] == st[f]
  {
    var r := CheckEdge(sys, st, e, g, {}).st;
    var s := SetEdge(sys, r, e, g);
    var touched := SubEdges(sys.g, sys.g.target[e]) + {e};
    CheckEdgeSettles(sys, st, e, g, {});
    SetEdgeKeeps(sys, r, e);
    CheckEdgeRemembers(sys, st, e, g, {});
    ClearedCommits(st, r, s, touched);
    SameGrantsSettled(sys, r, s, Cone(sys.g, sys.g.target[e]), {});
  }

  /** Clearing the backups of all edges an update touched leaves none. */
  lemma {:induction false} ClearedCommits(st: Grants, r: Grants, s: Grants, touched: set<EdgeId>)
    requires NoBackups(st) && Remembers(st, r, touched) && ClearedOn(r, s, touched)
    ensures SameGrants(r, s) && NoBackups(s)
    ensures forall f :: f in st && f !in touched ==> s[f] == st[f]
  {
  }

  // ---------------------------------------------------------------- compatibility

  /** Any two users of one node, neither of them ignored, can coexist. */
  ghost predicate Peaceful(g: Graph, st: Grants, ign: set<EdgeId>)
    requires g.target.Keys <= st.Keys
  {
    forall e, f :: (e in g.target && f in g.target && e != f && g.target[e] == g.target[f] && e !in ign && f !in ign)
      ==> Compatible(st[e].grant, st[f].grant)
  }

  lemma {:induction false} CheckNodePeaceful(sys: System, st: Grants, n: NodeId, g: Grant, ign: set<EdgeId>)
    requires Ready(sys, st) && n in sys.info && CheckNode(sys, st, n, g, ign).ok
    requires Peaceful(sys.g, st, ign) && ign !! SubEdges(sys.g, n)
    ensures Peaceful(sys.g, CheckNode(sys, st, n, g, ign).st, ign)
    decreases Below(sys.g, n), 1, 0
  {
    CheckChildrenPeaceful(sys, st, n, 0, g, ign, Tightens(g, Cumulative(sys.g, st, n, {})));
  }

  lemma {:induction false} CheckChildrenPeaceful(sys: System, st: Grants, n: NodeId, i: nat, g: Grant, ign: set<EdgeId>,
                                                 tighten: bool)
    requires Ready(sys, st) && n in sys.info && i <= |sys.g.children[n]|
    requires CheckChildren(sys, st, n, i, g, ign, tighten).ok
    requires Peaceful(sys.g, st, ign) && ign !! SubEdges(sys.g, n)
    ensures Peaceful(sys.g, CheckChildren(sys, st, n, i, g, ign, tighten).st, ign)
    decreases Below(sys.g, n), 0, |sys.g.children[n]| - i
  {
    if i < |sys.g.children[n]| {
      var e := sys.g.children[n][i];
      ChildBelow(sys.g, n, e);
      SubEdgesOfChild(sys.g, n, e);
      var r := CheckEdge(sys, st, e, Derived(sys, n, e, g), ign);
      CheckEdgePeaceful(sys, st, e, Derived(sys, n, e, g), ign);
      CheckChildrenPeaceful(sys, r.st, n, i + 1, g, ign, tighten || r.tighten);
    }
  }

  /** A successful check of an edge keeps all users of all nodes compatible. */
  lemma {:induction false} CheckEdgePeaceful(sys: System, st: Grants, e: EdgeId, g: Grant, ign: set<EdgeId>)
    requires Ready(sys, st) && e in sys.g.target && CheckEdge(sys, st, e, g, ign).ok
    requires Peaceful(sys.g, st, ign) && e !in ign && ign !! SubEdges(sys.g, sys.g.target[e])
    ensures Peaceful(sys.g, CheckEdge(sys, st, e, g, ign).st, ign)
    decreases Below(sys.g, sys.g.target[e]), 3, 0
  {
    var t := sys.g.target[e];
    var joint := Join(g, Cumulative(sys.g, st, t, ign + {e}));
    var r0 := CheckNode(sys, st, t, joint, ign + {e}).st;
    EdgeNotBelowItself(sys.g, e);
    CheckNodePeaceful(sys, st, t, joint, ign + {e});
    CheckNodeRemembers(sys, st, t, joint, ign + {e});
    InstallPeaceful(sys, st, r0, e, g, ign);
  }

  lemma {:induction false} InstallPeaceful(sys: System, st: Grants, r0: Grants, e: EdgeId, g: Grant, ign: set<EdgeId>)
    requires Ready(sys, st) && Ready(sys, r0) && e in sys.g.target && e !in ign
    requires Remembers(st, r0, SubEdges(sys.g, sys.g.target[e]))
    requires NoConflict(sys.g, st, sys.g.target[e], g, ign + {e}) && Peaceful(sys.g, r0, ign + {e})
    ensures Peaceful(sys.g, r0[e := Install(r0[e], g)], ign)
  {
    var t := sys.g.target[e];
    forall f | f in Users(sys.g, t) && f != e && f !in ign
      ensures Compatible(g, r0[f].grant)
    {
      if f in SubEdges(sys.g, t) {
        SubEdgeEnds(sys.g, t, f);
      }
    }
  }
}
