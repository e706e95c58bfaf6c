/**
 Giving up permissions never tightens: when every edge covers what its parent derives, a check that
 asks for no more than before, and shares no less, reports no tightening anywhere in the recursion.
 */
module PermissionLoosening {
  import opened BlockGraph
  import opened BlockPermissions
  import opened PermissionUpdate
  import opened PermissionTheorems
  import opened PermissionSettling

  /** Every driver asks for less of its children when less is asked of it, as the default derivations do. */
  ghost predicate Monotone(sys: System) {
    forall n, e, a: Grant, b: Grant ::
      (n in sys.info && sys.info[n].driver.Derives? && Looser(a, b))
      ==> Looser(sys.info[n].driver.derive(e, a), sys.info[n].driver.derive(e, b))
  }

  /** The child edges of m grant at least what m derives from its cumulative permissions. */
  ghost predicate Covered(sys: System, st: Grants, m: NodeId)
    requires Ready(sys, st) && m in sys.info
  {
    forall i :: 0 <= i < |sys.g.children[m]| ==>
      Looser(Derived(sys, m, sys.g.children[m][i], Cumulative(sys.g, st, m, {})), st[sys.g.children[m][i]].grant)
  }

  ghost predicate AllCovered(sys: System, st: Grants, nodes: set<NodeId>)
    requires Ready(sys, st)
  {
    forall m :: m in nodes && m in sys.info ==> Covered(sys, st, m)
  }

  /** No edge of r takes more or shares less than in st. */
  ghost predicate Loosened(st: Grants, r: Grants) {
    st.Keys == r.Keys && forall f :: f in st ==> Looser(r[f].grant, st[f].grant)
  }

  /** The check reports no tightening, and if it succeeds every edge is at least as loose as before. */
  ghost predicate OnlyLoosens(st: Grants, r: Check) {
    !r.tighten && (r.ok ==> Loosened(st, r.st))
  }

  lemma {:induction false} CumulativeLoosens(g: Graph, st: Grants, r: Grants, n: NodeId, ign: set<EdgeId>,
                                             ign': set<EdgeId>)
    requires g.target.Keys <= st.Keys && g.target.Keys <= r.Keys
    requires forall f :: f in Users(g, n) && f !in ign' ==> f !in ign && Looser(r[f].grant, st[f].grant)
    ensures Looser(Cumulative(g, r, n, ign'), Cumulative(g, st, n, ign))
  {
    var a, b := Cumulative(g, r, n, ign'), Cumulative(g, st, n, ign);
    forall p: Perm
      ensures p in a.perm ==> p in b.perm
      ensures p in b.shared ==> p in a.shared
    {
      if p in a.perm {
        assert Taken(g, r, n, ign', p);
        assert Taken(g, st, n, ign, p);
      }
      if p in b.shared {
        assert SharedByAll(g, st, n, ign, p);
        assert SharedByAll(g, r, n, ign', p);
      }
    }
  }

  lemma {:induction false} DerivedLoosens(sys: System, n: NodeId, e: EdgeId, t: NodeId, a: Grant, b: Grant)
    requires Monotone(sys) && n in sys.info && sys.info[n].driver.Derives? && Looser(a, b)
    ensures Looser(DerivedTo(sys, n, e, t, a), DerivedTo(sys, n, e, t, b))
  {
    assert Looser(sys.info[n].driver.derive(e, a), sys.info[n].driver.derive(e, b));
  }

  /** What a user asks for, together with the other users, is no more than what the node grants already. */
  lemma {:induction false} JointLoosens(g: Graph, st: Grants, e: EdgeId, grant: Grant, ign: set<EdgeId>)
    requires g.target.Keys <= st.Keys && e in g.target && Looser(grant, st[e].grant)
    ensures Looser(Join(grant, Cumulative(g, st, g.target[e], ign + {e})), Cumulative(g, st, g.target[e], {}))
  {
    CumulativeSplit(g, st, g.target[e], {}, e);
    CumulativeLoosens(g, st, st, g.target[e], {e}, ign + {e});
    assert {} + {e} == {e};
  }

  /** Covered nodes stay covered when users loosen and their own child edges stay put. */
  lemma {:induction false} StaysCovered(sys: System, st: Grants, r: Grants, m: NodeId)
    requires Ready(sys, st) && Monotone(sys) && Loosened(st, r) && m in sys.info && Covered(sys, st, m)
    requires forall i ::
               0 <= i < |sys.g.children[m]| ==> r[sys.g.children[m][i]].grant == st[sys.g.children[m][i]].grant
    ensures Covered(sys, r, m)
  {
    CumulativeLoosens(sys.g, st, r, m, {}, {});
    forall i | 0 <= i < |sys.g.children[m]|
      ensures Looser(Derived(sys, m, sys.g.children[m][i], Cumulative(sys.g, r, m, {})), r[sys.g.children[m][i]].grant)
    {
      DerivedLoosens(sys, m, sys.g.children[m][i], sys.g.target[sys.g.children[m][i]],
                     Cumulative(sys.g, r, m, {}), Cumulative(sys.g, st, m, {}));
    }
  }

  /** No ignored edge points into the given nodes. */
  ghost predicate IgnoresNone(g: Graph, ign: set<EdgeId>, nodes: set<NodeId>) {
    forall f :: f in ign && f in g.target ==> g.target[f] !in nodes
  }

  lemma {:induction false} SettledIsCovered(sys: System, st: Grants, m: NodeId, ign: set<EdgeId>)
    requires Ready(sys, st) && m in sys.info && Settled(sys, st, m, ign) && IgnoresNone(sys.g, ign, {m})
    ensures Covered(sys, st, m)
  {
    CumulativeSame(sys.g, st, st, m, ign, {});
  }

  /** After a loosening check of edge e, the nodes that were covered still are. */
  lemma {:induction false} CoveredAfterCheck(sys: System, st: Grants, e: EdgeId, g: Grant, ign: set<EdgeId>, m: NodeId)
    requires Ready(sys, st) && Monotone(sys) && e in sys.g.target && m in sys.info && Covered(sys, st, m)
    requires e !in ign && ign !! SubEdges(sys.g, sys.g.target[e])
             && IgnoresNone(sys.g, ign, Cone(sys.g, sys.g.target[e]))
    requires CheckEdge(sys, st, e, g, ign).ok && Loosened(st, CheckEdge(sys, st, e, g, ign).st) && !ChildOf(sys.g, m, e)
    ensures Covered(sys, CheckEdge(sys, st, e, g, ign).st, m)
  {
    var r := CheckEdge(sys, st, e, g, ign).st;
    var t := sys.g.target[e];
    if m in Cone(sys.g, t) {
      CheckEdgeSettles(sys, st, e, g, ign);
      SettledIsCovered(sys, r, m, ign);
    } else {
      CheckEdgeRemembers(sys, st, e, g, ign);
      ChildrenOutside(sys, t, m, e);
      StaysCovered(sys, st, r, m);
    }
  }

  lemma {:induction false} ChildrenOutside(sys: System, t: NodeId, m: NodeId, e: EdgeId)
    requires Valid(sys) && t in sys.info && m in sys.info && m !in Cone(sys.g, t) && !ChildOf(sys.g, m, e)
    ensures forall i :: 0 <= i < |sys.g.children[m]| ==>
              sys.g.children[m][i] !in SubEdges(sys.g, t) && sys.g.children[m][i] != e
  {
    forall i | 0 <= i < |sys.g.children[m]|
      ensures sys.g.children[m][i] !in SubEdges(sys.g, t) && sys.g.children[m][i] != e
    {
      var f := sys.g.children[m][i];
      assert ChildOf(sys.g, m, f);
      if f in SubEdges(sys.g, t) {
        SubEdgeEnds(sys.g, t, f);
      }
    }
  }

  /** The situation in which node n is re-checked for grant g by giving up permissions only. */
  ghost predicate LooseCheck(sys: System, st: Grants, n: NodeId, g: Grant, ign: set<EdgeId>)
    requires Ready(sys, st) && n in sys.info
  {
    && Monotone(sys) && Peaceful(sys.g, st, {})
    && Looser(g, Cumulative(sys.g, st, n, {}))
    && Covered(sys, st, n) && AllCovered(sys, st, Below(sys.g, n))
    && ign !! SubEdges(sys.g, n) && IgnoresNone(sys.g, ign, Below(sys.g, n))
  }

  lemma {:induction false} CheckNodeLoosens(sys: System, st: Grants, n: NodeId, g: Grant, ign: set<EdgeId>)
    requires Ready(sys, st) && n in sys.info && LooseCheck(sys, st, n, g, ign)
    ensures OnlyLoosens(st, CheckNode(sys, st, n, g, ign))
    decreases Below(sys.g, n), 1, 0, 0
  {
    if NodeAccepts(sys.info[n], g) {
      forall i | 0 <= i < |sys.g.children[n]|
        ensures Looser(Derived(sys, n, sys.g.children[n][i], g), st[sys.g.children[n][i]].grant)
      {
        DerivedLoosens(sys, n, sys.g.children[n][i], sys.g.target[sys.g.children[n][i]], g,
                       Cumulative(sys.g, st, n, {}));
      }
      assert SuppliedFrom(sys, st, n, 0, g);
      CheckChildrenLoosen(sys, st, n, 0, g, ign);
    }
  }

  /** The i-th and later child edges of n carry at least what n derives from g. */
  ghost predicate SuppliedFrom(sys: System, st: Grants, n: NodeId, i: nat, g: Grant)
    requires Ready(sys, st) && n in sys.info
  {
    forall j ::
      i <= j < |sys.g.children[n]| ==> Looser(Derived(sys, n, sys.g.children[n][j], g), st[sys.g.children[n][j]].grant)
  }

  /** The same situation inside the loop over the children of n. */
  ghost predicate LooseFrom(sys: System, st: Grants, n: NodeId, i: nat, g: Grant, ign: set<EdgeId>) {
    && Ready(sys, st) && n in sys.info && i <= |sys.g.children[n]|
    && Monotone(sys) && Peaceful(sys.g, st, {})
    && SuppliedFrom(sys, st, n, i, g) && AllCovered(sys, st, Below(sys.g, n))
    && ign !! SubEdges(sys.g, n) && IgnoresNone(sys.g, ign, Below(sys.g, n))
  }

  /** And for one edge. */
  ghost predicate LooseEdge(sys: System, st: Grants, e: EdgeId, g: Grant, ign: set<EdgeId>) {
    && Ready(sys, st) && e in sys.g.target
    && Monotone(sys) && Peaceful(sys.g, st, {})
    && Looser(g, st[e].grant) && AllCovered(sys, st, Cone(sys.g, sys.g.target[e]))
    && e !in ign && ign !! SubEdges(sys.g, sys.g.target[e]) && IgnoresNone(sys.g, ign, Cone(sys.g, sys.g.target[e]))
  }

  lemma {:induction false} FirstChildLoose(sys: System, st: Grants, n: NodeId, i: nat, g: Grant, ign: set<EdgeId>)
    requires LooseFrom(sys, st, n, i, g, ign) && i < |sys.g.children[n]|
    ensures LooseEdge(sys, st, sys.g.children[n][i], Derived(sys, n, sys.g.children[n][i], g), ign)
  {
    ChildBelow(sys.g, n, sys.g.children[n][i]);
    SubEdgesOfChild(sys.g, n, sys.g.children[n][i]);
  }

  /** One iteration of the loop. */
  lemma {:induction false} ChildLoosens(sys: System, st: Grants, n: NodeId, i: nat, g: Grant, ign: set<EdgeId>)
    requires LooseFrom(sys, st, n, i, g, ign) && i < |sys.g.children[n]|
    ensures var e := sys.g.children[n][i]; var r := CheckEdge(sys, st, e, Derived(sys, n, e, g), ign);
            OnlyLoosens(st, r) && (r.ok ==> LooseFrom(sys, r.st, n, i + 1, g, ign))
    decreases Below(sys.g, n), 0, |sys.g.children[n]| - i, 0
  {
    var e := sys.g.children[n][i];
    var d := Derived(sys, n, e, g);
    var r := CheckEdge(sys, st, e, d, ign);
    ChildBelow(sys.g, n, e);
    FirstChildLoose(sys, st, n, i, g, ign);
    CheckEdgeLoosens(sys, st, e, d, ign);
    if r.ok {
      SiblingsReady(sys, st, r.st, n, i, g, ign);
    }
  }

  lemma {:induction false} CheckChildrenLoosen(sys: System, st: Grants, n: NodeId, i: nat, g: Grant, ign: set<EdgeId>)
    requires LooseFrom(sys, st, n, i, g, ign)
    ensures OnlyLoosens(st, CheckChildren(sys, st, n, i, g, ign, false))
    decreases Below(sys.g, n), 0, |sys.g.children[n]| - i, 1
  {
    hide CheckEdge, AllCovered, SuppliedFrom, Peaceful, Monotone;
    var all := CheckChildren(sys, st, n, i, g, ign, false);
    if i < |sys.g.children[n]| {
      var e := sys.g.children[n][i];
      var r := CheckEdge(sys, st, e, Derived(sys, n, e, g), ign);
      ChildLoosens(sys, st, n, i, g, ign);
      assert !r.ok ==> !all.ok && !all.tighten;
      if r.ok {
        var rest := CheckChildren(sys, r.st, n, i + 1, g, ign, false);
        assert all == rest;
        CheckChildrenLoosen(sys, r.st, n, i + 1, g, ign);
        OnlyLoosensTransitive(st, r, rest);
      }
    } else {
      assert Loosened(st, all.st);
    }
  }

  lemma {:induction false} OnlyLoosensTransitive(st: Grants, r: Check, rest: Check)
    requires OnlyLoosens(st, r) && r.ok && OnlyLoosens(r.st, rest)
    ensures OnlyLoosens(st, rest)
  {
    if rest.ok {
      forall f | f in st
        ensures Looser(rest.st[f].grant, st[f].grant)
      {
        assert Looser(r.st[f].grant, st[f].grant) && Looser(rest.st[f].grant, r.st[f].grant);
      }
    }
  }

  /** After one child has been checked, the others are in the same situation as before. */
  lemma {:induction false} SiblingsReady(sys: System, st: Grants, r: Grants, n: NodeId, i: nat, g: Grant,
                                         ign: set<EdgeId>)
    requires LooseFrom(sys, st, n, i, g, ign) && i < |sys.g.children[n]|
    requires var e := sys.g.children[n][i]; CheckEdge(sys, st, e, Derived(sys, n, e, g), ign).ok
    requires var e := sys.g.children[n][i]; r == CheckEdge(sys, st, e, Derived(sys, n, e, g), ign).st && Loosened(st, r)
    ensures LooseFrom(sys, r, n, i + 1, g, ign)
  {
    assert AllCovered(sys, r, Below(sys.g, n)) by {
      SiblingsCovered(sys, st, n, i, g, ign);
    }
    assert SuppliedFrom(sys, r, n, i + 1, g) by {
      StillSupplied(sys, st, n, i, g, ign);
    }
    LoosenedPeaceful(sys.g, st, r);
  }

  lemma {:induction false} LoosenedPeaceful(g: Graph, st: Grants, r: Grants)
    requires g.target.Keys <= st.Keys && Peaceful(g, st, {}) && Loosened(st, r)
    ensures Peaceful(g, r, {})
  {
    forall e, f | e in g.target && f in g.target && e != f && g.target[e] == g.target[f]
      ensures Compatible(r[e].grant, r[f].grant)
    {
      assert Compatible(st[e].grant, st[f].grant);
    }
  }

  lemma {:induction false} SiblingsCovered(sys: System, st: Grants, n: NodeId, i: nat, g: Grant, ign: set<EdgeId>)
    requires LooseFrom(sys, st, n, i, g, ign) && i < |sys.g.children[n]|
    requires var e := sys.g.children[n][i];
             var r := CheckEdge(sys, st, e, Derived(sys, n, e, g), ign); r.ok && Loosened(st, r.st)
    ensures AllCovered(sys, CheckEdge(sys, st, sys.g.children[n][i], Derived(sys, n, sys.g.children[n][i], g), ign).st,
                       Below(sys.g, n))
  {
    var e := sys.g.children[n][i];
    var d := Derived(sys, n, e, g);
    var r := CheckEdge(sys, st, e, d, ign).st;
    FirstChildLoose(sys, st, n, i, g, ign);
    forall m | m in Below(sys.g, n) && m in sys.info
      ensures Covered(sys, r, m)
    {
      assert m != n && !ChildOf(sys.g, m, e);
      CoveredAfterCheck(sys, st, e, d, ign, m);
    }
  }

  lemma {:induction false} StillSupplied(sys: System, st: Grants, n: NodeId, i: nat, g: Grant, ign: set<EdgeId>)
    requires Ready(sys, st) && n in sys.info && i < |sys.g.children[n]| && SuppliedFrom(sys, st, n, i, g)
    requires CheckEdge(sys, st, sys.g.children[n][i], Derived(sys, n, sys.g.children[n][i], g), ign).ok
    ensures SuppliedFrom(sys, CheckEdge(sys, st, sys.g.children[n][i], Derived(sys, n, sys.g.children[n][i], g),
                                        ign).st, n, i + 1, g)
  {
    var e := sys.g.children[n][i];
    var d := Derived(sys, n, e, g);
    var r := CheckEdge(sys, st, e, d, ign).st;
    ChildBelow(sys.g, n, e);
    CheckEdgeRemembers(sys, st, e, d, ign);
    forall j | i + 1 <= j < |sys.g.children[n]|
      ensures Looser(Derived(sys, n, sys.g.children[n][j], g), r[sys.g.children[n][j]].grant)
    {
      var f := sys.g.children[n][j];
      assert ChildOf(sys.g, n, f);
      if f in SubEdges(sys.g, sys.g.target[e]) {
        SubEdgeEnds(sys.g, sys.g.target[e], f);
      }
    }
  }

  /** The node below a loose edge is checked for no more than it has. */
  lemma {:induction false} EdgeLooseBelow(sys: System, st: Grants, e: EdgeId, g: Grant, ign: set<EdgeId>)
    requires LooseEdge(sys, st, e, g, ign)
    ensures NoConflict(sys.g, st, sys.g.target[e], g, ign + {e})
    ensures LooseCheck(sys, st, sys.g.target[e], Join(g, Cumulative(sys.g, st, sys.g.target[e], ign + {e})), ign + {e})
  {
    hide Covered, Cumulative, Monotone;
    EdgeNotBelowItself(sys.g, e);
    JointLoosens(sys.g, st, e, g, ign);
  }

  lemma {:induction false} CheckEdgeLoosens(sys: System, st: Grants, e: EdgeId, g: Grant, ign: set<EdgeId>)
    requires LooseEdge(sys, st, e, g, ign)
    ensures OnlyLoosens(st, CheckEdge(sys, st, e, g, ign))
    decreases Below(sys.g, sys.g.target[e]), 3, 0, 0
  {
    hide CheckNode, LooseCheck, Acyclic, Cumulative, Peaceful, Monotone, AllCovered, IgnoresNone;
    var t := sys.g.target[e];
    var joint := Join(g, Cumulative(sys.g, st, t, ign + {e}));
    EdgeLooseBelow(sys, st, e, g, ign);
    CheckNodeLoosens(sys, st, t, joint, ign + {e});
    CheckNodeRemembers(sys, st, t, joint, ign + {e});
    EdgeNotBelowItself(sys.g, e);
  }
}
