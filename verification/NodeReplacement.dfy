/**
 bdrv_replace_node_common: all parents of one node that may be moved are moved to another node
 together, or nothing changes.
 */
module NodeReplacement {
  import opened BlockGraph
  import opened BlockPermissions
  import opened PermissionUpdate
  import opened PermissionTheorems
  import opened PermissionSettling
  import opened PermissionLoosening
  import opened GraphOperations

  /** should_update_child: c does not stay at its node, and moving it to `to` closes no loop. */
  ghost predicate Movable(g: Graph, stay: set<EdgeId>, c: EdgeId, to: NodeId) {
    c !in stay && !InSubtree(g, to, c)
  }

  ghost function Moved(g: Graph, from: NodeId, to: NodeId, stay: set<EdgeId>): set<EdgeId> {
    set c | c in Users(g, from) && Movable(g, stay, c, to)
  }

  /** One of the two errors of the loop over from's parents. */
  ghost predicate Refused(g: Graph, from: NodeId, to: NodeId, stay: set<EdgeId>, frozen: set<EdgeId>, autoSkip: bool) {
    exists c :: c in Users(g, from) && if Movable(g, stay, c, to) then c in frozen else !autoSkip
  }

  /** The permissions the moved users need together. */
  ghost function MovedGrant(g: Graph, st: Grants, from: NodeId, moved: set<EdgeId>): Grant
    requires g.target.Keys <= st.Keys
  {
    Cumulative(g, st, from, Users(g, from) - moved)
  }

  function Redirected(sys: System, moved: set<EdgeId>, to: NodeId): System {
    sys.(g := Redirect(sys.g, moved, to))
  }

  ghost function ReplaceNode(w: World, from: NodeId, to: NodeId, stay: set<EdgeId>, frozen: set<EdgeId>,
                             autoSkip: bool): (World, bool)
    requires Ready(w.sys, w.st) && from in w.sys.info && to in w.sys.info
  {
    var moved := Moved(w.sys.g, from, to, stay);
    if Refused(w.sys.g, from, to, stay, frozen, autoSkip) then (w, false)
    else
      var r := CheckUpdate(w.sys, w.st, to, MovedGrant(w.sys.g, w.st, from, moved), moved);
      if r.ok then
        var sys := Redirected(w.sys, moved, to);
        RedirectedReady(w.sys, moved, to);
        (World(sys, SetNode(sys, r.st, to, Cumulative(sys.g, r.st, to, {}))), true)
      else (World(w.sys, AbortNode(w.sys, r.st, to)), false)
  }

  /** The edges to be moved to `to` are all outside its subtree. */
  ghost predicate Outside(g: Graph, moved: set<EdgeId>, to: NodeId) {
    forall c :: c in moved ==> !InSubtree(g, to, c)
  }

  lemma {:induction false} RedirectedReady(sys: System, moved: set<EdgeId>, to: NodeId)
    requires Valid(sys) && to in sys.info && Outside(sys.g, moved, to)
    ensures Valid(Redirected(sys, moved, to))
  {
    RedirectKeepsAcyclic(sys.g, moved, to);
  }

  // ---------------------------------------------------------------- the subtree of `to` is not touched

  lemma {:induction false} ConeLinks(g: Graph, moved: set<EdgeId>, to: NodeId, v: NodeId, f: EdgeId)
    requires Outside(g, moved, to) && v in Cone(g, to) && ChildOf(g, v, f)
    ensures f !in moved && ChildOf(Redirect(g, moved, to), v, f) && Redirect(g, moved, to).target[f] == g.target[f]
  {
    assert InSubtree(g, to, f);
  }

  lemma {:induction false} PathFromTo(g: Graph, moved: set<EdgeId>, to: NodeId, p: seq<NodeId>)
    requires WellFormed(g) && to in g.children && Outside(g, moved, to) && |p| > 0 && p[0] == to
    ensures IsPath(Redirect(g, moved, to), p) <==> IsPath(g, p)
  {
    var g' := Redirect(g, moved, to);
    var found := Cone(g, to);
    forall v, f | v in found && ChildOf(g', v, f)
      ensures ChildOf(g, v, f) && g'.target[f] == g.target[f] && g.target[f] in found
    {
      ConeLinks(g, moved, to, v, f);
      ConeClosed(g, to, v, f);
    }
    forall v, f | v in found && ChildOf(g, v, f)
      ensures ChildOf(g', v, f) && g'.target[f] == g.target[f] && g.target[f] in found
    {
      ConeLinks(g, moved, to, v, f);
      ConeClosed(g, to, v, f);
    }
    if IsPath(g', p) {
      StaysAndLinks(g', g, p, found);
    }
    if IsPath(g, p) {
      StaysAndLinks(g, g', p, found);
    }
  }

  /** A path inside a closed set whose links are the same in both graphs. */
  lemma {:induction false} StaysAndLinks(g: Graph, g': Graph, p: seq<NodeId>, found: set<NodeId>)
    requires IsPath(g, p) && p[0] in found && g'.children == g.children
    requires forall v, f ::
               v in found && ChildOf(g, v, f) ==>
                 ChildOf(g', v, f) && g'.target[f] == g.target[f] && g.target[f] in found
    ensures IsPath(g', p)
  {
    forall i | 0 <= i < |p| - 1
      ensures Linked(g', p[i], p[i + 1])
    {
      PathStays(g, p, found, i);
      assert Linked(g, p[i], p[i + 1]);
      var f :| ChildOf(g, p[i], f) && g.target[f] == p[i + 1];
      assert ChildOf(g', p[i], f);
    }
  }

  lemma {:induction false} SameSubtree(g: Graph, moved: set<EdgeId>, to: NodeId)
    requires WellFormed(g) && to in g.children && Outside(g, moved, to)
    ensures Below(Redirect(g, moved, to), to) == Below(g, to) && Cone(Redirect(g, moved, to), to) == Cone(g, to)
    ensures SubEdges(Redirect(g, moved, to), to) == SubEdges(g, to)
  {
    var g' := Redirect(g, moved, to);
    forall m
      ensures ReachesProperly(g', to, m) <==> ReachesProperly(g, to, m)
    {
      if ReachesProperly(g', to, m) {
        var p :| Joins(g', p, to, m) && |p| >= 2;
        PathFromTo(g, moved, to, p);
        assert Joins(g, p, to, m);
      }
      if ReachesProperly(g, to, m) {
        var p :| Joins(g, p, to, m) && |p| >= 2;
        PathFromTo(g, moved, to, p);
        assert Joins(g', p, to, m);
      }
    }
    assert Below(g', to) == Below(g, to);
    assert forall v, f :: ChildOf(g', v, f) <==> ChildOf(g, v, f);
    forall f
      ensures InSubtree(g', to, f) <==> InSubtree(g, to, f)
    {
    }
  }

  // ---------------------------------------------------------------- what the check established

  /** The situation after a successful check of `to` for the moved users. */
  ghost predicate Passed(w: World, from: NodeId, to: NodeId, moved: set<EdgeId>, r: Grants) {
    && Ready(w.sys, w.st) && from in w.sys.info && to in w.sys.info
    && moved <= Users(w.sys.g, from) && Outside(w.sys.g, moved, to)
    && CheckUpdate(w.sys, w.st, to, MovedGrant(w.sys.g, w.st, from, moved), moved).ok
    && r == CheckUpdate(w.sys, w.st, to, MovedGrant(w.sys.g, w.st, from, moved), moved).st
  }

  lemma {:induction false} PassedReady(w: World, from: NodeId, to: NodeId, moved: set<EdgeId>, r: Grants)
    requires Passed(w, from, to, moved, r)
    ensures Ready(Redirected(w.sys, moved, to), r) && Ready(w.sys, r) && moved !! SubEdges(w.sys.g, to)
  {
    RedirectedReady(w.sys, moved, to);
  }

  /** The moved edges and the users of `to` keep their grants during the check. */
  lemma {:induction false} MovedUntouched(w: World, from: NodeId, to: NodeId, moved: set<EdgeId>, r: Grants)
    requires Passed(w, from, to, moved, r)
    ensures r.Keys == w.st.Keys
    ensures forall f :: f in moved ==> r[f] == w.st[f]
    ensures forall f :: f in Users(w.sys.g, to) ==> r[f] == w.st[f]
  {
    PassedReady(w, from, to, moved, r);
    CheckUpdateRemembers(w.sys, w.st, to, MovedGrant(w.sys.g, w.st, from, moved), moved);
    UsersUntouched(w.sys, w.st, r, to);
  }

  /** The cumulative permissions of two groups of users. */
  lemma {:induction false} CumulativeJoins(g: Graph, st: Grants, n: NodeId, a: set<EdgeId>)
    requires g.target.Keys <= st.Keys && a <= Users(g, n)
    ensures Cumulative(g, st, n, {}) == Join(Cumulative(g, st, n, Users(g, n) - a), Cumulative(g, st, n, a))
  {
    var x, y := Cumulative(g, st, n, {}), Join(Cumulative(g, st, n, Users(g, n) - a), Cumulative(g, st, n, a));
    forall p: Perm
      ensures p in x.perm <==> p in y.perm
      ensures p in x.shared <==> p in y.shared
    {
      if Taken(g, st, n, {}, p) {
        var f :| f in Users(g, n) && f !in {} && p in st[f].grant.perm;
        assert Taken(g, st, n, Users(g, n) - a, p) || Taken(g, st, n, a, p);
      }
      if SharedByAll(g, st, n, Users(g, n) - a, p) && SharedByAll(g, st, n, a, p) {
        assert SharedByAll(g, st, n, {}, p);
      }
    }
  }

  /** After the move `to` has the permissions it was checked for. */
  lemma {:induction false} RedirectedCumulative(w: World, from: NodeId, to: NodeId, moved: set<EdgeId>, r: Grants)
    requires Passed(w, from, to, moved, r)
    ensures r.Keys == w.st.Keys
    ensures Cumulative(Redirect(w.sys.g, moved, to), r, to, {})
            == Join(MovedGrant(w.sys.g, w.st, from, moved), Cumulative(w.sys.g, w.st, to, moved))
  {
    var g' := Redirect(w.sys.g, moved, to);
    MovedUntouched(w, from, to, moved, r);
    CumulativeJoins(g', r, to, moved);
    CumulativeTransferFrom(w.sys.g, w.st, from, Users(w.sys.g, from) - moved, g', r, to, Users(g', to) - moved);
    CumulativeTransfer(w.sys.g, w.st, moved, g', r, moved, to);
  }

  /** Other nodes lose the moved users and nothing else. */
  lemma {:induction false} LostUsers(sys: System, r: Grants, moved: set<EdgeId>, to: NodeId, m: NodeId)
    requires Ready(sys, r) && m != to
    ensures Cumulative(Redirect(sys.g, moved, to), r, m, {}) == Cumulative(sys.g, r, m, moved)
  {
    CumulativeTransfer(sys.g, r, moved, Redirect(sys.g, moved, to), r, {}, m);
  }

  /** Nodes in the subtree of `to` keep their children. */
  lemma {:induction false} ConeSameChildren(sys: System, r: Grants, moved: set<EdgeId>, to: NodeId, m: NodeId)
    requires Ready(sys, r) && to in sys.info && Outside(sys.g, moved, to) && m in Cone(sys.g, to) && m in sys.info
    ensures Ready(Redirected(sys, moved, to), r)
    ensures SameChildren(sys, r, Redirected(sys, moved, to), r, m)
  {
    RedirectedReady(sys, moved, to);
    forall i | 0 <= i < |sys.g.children[m]|
      ensures Redirect(sys.g, moved, to).target[sys.g.children[m][i]] == sys.g.target[sys.g.children[m][i]]
    {
      ConeLinks(sys.g, moved, to, m, sys.g.children[m][i]);
    }
  }

  lemma {:induction false} SettledBelow(sys: System, r: Grants, moved: set<EdgeId>, to: NodeId, m: NodeId)
    requires Ready(sys, r) && to in sys.info && Outside(sys.g, moved, to) && m in Cone(sys.g, to) && m in sys.info
             && m != to
    requires Settled(sys, r, m, moved)
    ensures Ready(Redirected(sys, moved, to), r)
    ensures Settled(Redirected(sys, moved, to), r, m, {})
  {
    ConeSameChildren(sys, r, moved, to, m);
    LostUsers(sys, r, moved, to, m);
    SettledTransfer(sys, r, Redirected(sys, moved, to), r, m, Cumulative(sys.g, r, m, moved));
  }

  /** In the new graph `to` and everything below it is settled. */
  lemma {:induction false} ReplaceSettles(w: World, from: NodeId, to: NodeId, moved: set<EdgeId>, r: Grants)
    requires Passed(w, from, to, moved, r)
    ensures var sys := Redirected(w.sys, moved, to);
            && Ready(sys, r) && SettledFor(sys, r, to, Cumulative(sys.g, r, to, {}))
            && AllSettled(sys, r, Below(sys.g, to), {})
  {
    var sys := Redirected(w.sys, moved, to);
    var joint := Join(MovedGrant(w.sys.g, w.st, from, moved), Cumulative(w.sys.g, w.st, to, moved));
    PassedReady(w, from, to, moved, r);
    CheckNodeSettles(w.sys, w.st, to, joint, moved);
    RedirectedCumulative(w, from, to, moved, r);
    ConeSameChildren(w.sys, r, moved, to, to);
    SettledTransfer(w.sys, r, sys, r, to, joint);
    SameSubtree(w.sys.g, moved, to);
    forall m | m in Below(sys.g, to) && m in sys.info
      ensures Settled(sys, r, m, {})
    {
      assert m != to;
      SettledBelow(w.sys, r, moved, to, m);
    }
  }

  // ---------------------------------------------------------------- compatibility

  /** A moved user can coexist with the users `to` had. */
  lemma {:induction false} MovedCompatible(w: World, from: NodeId, to: NodeId, moved: set<EdgeId>, e: EdgeId, f: EdgeId)
    requires Ready(w.sys, w.st) && moved <= Users(w.sys.g, from) && e in moved && f in Users(w.sys.g, to) && f !in moved
    requires NoConflict(w.sys.g, w.st, to, MovedGrant(w.sys.g, w.st, from, moved), moved)
    ensures Compatible(w.st[e].grant, w.st[f].grant)
  {
    var ign := Users(w.sys.g, from) - moved;
    var need := MovedGrant(w.sys.g, w.st, from, moved);
    assert e in Users(w.sys.g, from) && e !in ign;
    assert Compatible(need, w.st[f].grant);
    forall p | p in w.st[e].grant.perm
      ensures p in need.perm
    {
      assert Taken(w.sys.g, w.st, from, ign, p);
    }
    forall p | p in need.shared
      ensures p in w.st[e].grant.shared
    {
      assert SharedByAll(w.sys.g, w.st, from, ign, p);
    }
  }

  lemma {:induction false} PassedPeaceful(w: World, from: NodeId, to: NodeId, moved: set<EdgeId>, r: Grants)
    requires Passed(w, from, to, moved, r) && Peaceful(w.sys.g, w.st, {})
    ensures r.Keys == w.st.Keys && Peaceful(w.sys.g, r, moved)
  {
    hide CheckNode, Acyclic, WellFormed;
    PassedReady(w, from, to, moved, r);
    assert Peaceful(w.sys.g, w.st, moved);
    CheckNodePeaceful(w.sys, w.st, to, Join(MovedGrant(w.sys.g, w.st, from, moved),
                                            Cumulative(w.sys.g, w.st, to, moved)), moved);
  }

  lemma {:induction false} ReplacePeaceful(w: World, from: NodeId, to: NodeId, moved: set<EdgeId>, r: Grants)
    requires Passed(w, from, to, moved, r) && Peaceful(w.sys.g, w.st, {})
    ensures r.Keys == w.st.Keys && Peaceful(Redirect(w.sys.g, moved, to), r, {})
  {
    var g' := Redirect(w.sys.g, moved, to);
    PassedPeaceful(w, from, to, moved, r);
    forall e, f | e in g'.target && f in g'.target && e != f && g'.target[e] == g'.target[f]
      ensures Compatible(r[e].grant, r[f].grant)
    {
      PairPeaceful(w, from, to, moved, r, e, f);
    }
  }

  lemma {:induction false} PairPeaceful(w: World, from: NodeId, to: NodeId, moved: set<EdgeId>, r: Grants, e: EdgeId,
                                        f: EdgeId)
    requires Passed(w, from, to, moved, r) && r.Keys == w.st.Keys
    requires Peaceful(w.sys.g, w.st, {}) && Peaceful(w.sys.g, r, moved)
    requires e in w.sys.g.target && f in w.sys.g.target && e != f
    requires Redirect(w.sys.g, moved, to).target[e] == Redirect(w.sys.g, moved, to).target[f]
    ensures Compatible(r[e].grant, r[f].grant)
  {
    if e in moved || f in moved {
      MovedUntouched(w, from, to, moved, r);
      if f !in moved {
        MovedCompatible(w, from, to, moved, e, f);
      } else if e !in moved {
        MovedCompatible(w, from, to, moved, f, e);
      }
    }
  }

  // ---------------------------------------------------------------- coverage

  /**
   Every moved child edge shares no more than its parent lets it share at `to`.  The grants of moved
   edges are not derived anew, so this has to hold beforehand.
   */
  ghost predicate SharesCarryOver(w: World, moved: set<EdgeId>, to: NodeId)
    requires Ready(w.sys, w.st)
  {
    forall m, f :: f in moved && m in w.sys.info && ChildOf(w.sys.g, m, f) ==> SharesAt(w, moved, to, m, f)
  }

  ghost predicate SharesAt(w: World, moved: set<EdgeId>, to: NodeId, m: NodeId, f: EdgeId)
    requires Ready(w.sys, w.st) && m in w.sys.info && ChildOf(w.sys.g, m, f)
  {
    w.st[f].grant.shared <= DerivedTo(w.sys, m, f, to, Cumulative(w.sys.g, w.st, m, moved)).shared
  }

  /** The share mask is forced at `to` if it was at `from`. */
  predicate KeepsForceShare(sys: System, from: NodeId, to: NodeId) {
    from in sys.info && to in sys.info && (sys.info[from].forceShare ==> sys.info[to].forceShare)
  }

  lemma {:induction false} ForceShareCarriesOver(w: World, from: NodeId, to: NodeId, moved: set<EdgeId>)
    requires Inv(w) && KeepsForceShare(w.sys, from, to) && moved <= Users(w.sys.g, from)
    ensures SharesCarryOver(w, moved, to)
  {
    forall m, f | f in moved && m in w.sys.info && ChildOf(w.sys.g, m, f)
      ensures SharesAt(w, moved, to, m, f)
    {
      CoveredChild(w.sys, w.st, m, f);
      CumulativeLoosens(w.sys.g, w.st, w.st, m, {}, moved);
      DerivedLoosens(w.sys, m, f, to, Cumulative(w.sys.g, w.st, m, moved), Cumulative(w.sys.g, w.st, m, {}));
      AllIsAll(w.st[f].grant.shared);
    }
  }

  lemma {:induction false} CoveredChild(sys: System, st: Grants, m: NodeId, f: EdgeId)
    requires Ready(sys, st) && m in sys.info && ChildOf(sys.g, m, f) && Covered(sys, st, m)
    ensures Looser(Derived(sys, m, f, Cumulative(sys.g, st, m, {})), st[f].grant)
  {
    var i :| 0 <= i < |sys.g.children[m]| && sys.g.children[m][i] == f;
  }

  /** What a node outside the subtree of `to` has after the move. */
  lemma {:induction false} OutsideCumulative(w: World, from: NodeId, to: NodeId, moved: set<EdgeId>, r: Grants,
                                             m: NodeId)
    requires Passed(w, from, to, moved, r) && m in w.sys.info && m !in Cone(w.sys.g, to)
    ensures Ready(w.sys, r) && SameChildren(w.sys, w.st, w.sys, r, m)
    ensures Cumulative(Redirect(w.sys.g, moved, to), r, m, {}) == Cumulative(w.sys.g, w.st, m, moved)
    ensures Looser(Cumulative(w.sys.g, w.st, m, moved), Cumulative(w.sys.g, w.st, m, {}))
  {
    hide Acyclic;
    PassedReady(w, from, to, moved, r);
    var grant := MovedGrant(w.sys.g, w.st, from, moved);
    CheckUpdateOutside(w.sys, w.st, to, grant, moved, m);
    LostUsers(w.sys, r, moved, to, m);
    assert Cumulative(w.sys.g, r, m, moved) == Cumulative(w.sys.g, w.st, m, moved) by {
      CheckUpdateRemembers(w.sys, w.st, to, grant, moved);
      OutsideUsers(w.sys, w.st, r, to, m);
      CumulativeSame(w.sys.g, w.st, r, m, moved, moved);
    }
    CumulativeLoosens(w.sys.g, w.st, w.st, m, {}, moved);
  }

  lemma {:induction false} OutsideUsers(sys: System, st: Grants, r: Grants, n: NodeId, m: NodeId)
    requires Ready(sys, st) && n in sys.info && m in sys.info && m !in Cone(sys.g, n)
             && Remembers(st, r, SubEdges(sys.g, n))
    ensures forall f :: f in Users(sys.g, m) ==> r[f] == st[f]
  {
    forall f | f in Users(sys.g, m)
      ensures r[f] == st[f]
    {
      if f in SubEdges(sys.g, n) {
        SubEdgeEnds(sys.g, n, f);
      }
    }
  }

  /** A child edge of a node outside the subtree covers what is derived for it after the move, if shares carry over. */
  lemma {:induction false} MovedDerived(w: World, to: NodeId, moved: set<EdgeId>, m: NodeId, f: EdgeId)
    requires Ready(w.sys, w.st) && Monotone(w.sys) && m in w.sys.info && ChildOf(w.sys.g, m, f)
    requires Looser(Derived(w.sys, m, f, Cumulative(w.sys.g, w.st, m, {})), w.st[f].grant)
    requires Looser(Cumulative(w.sys.g, w.st, m, moved), Cumulative(w.sys.g, w.st, m, {}))
    requires f in moved ==> SharesAt(w, moved, to, m, f)
    ensures Looser(Derived(Redirected(w.sys, moved, to), m, f, Cumulative(w.sys.g, w.st, m, moved)), w.st[f].grant)
  {
    DerivedLoosens(w.sys, m, f, w.sys.g.target[f], Cumulative(w.sys.g, w.st, m, moved),
                   Cumulative(w.sys.g, w.st, m, {}));
  }

  lemma {:induction false} ReplaceCoversOutside(w: World, from: NodeId, to: NodeId, moved: set<EdgeId>, r: Grants,
                                                m: NodeId)
    requires Passed(w, from, to, moved, r) && Monotone(w.sys) && SharesCarryOver(w, moved, to)
    requires m in w.sys.info && m !in Cone(w.sys.g, to) && Covered(w.sys, w.st, m)
    ensures Ready(Redirected(w.sys, moved, to), r) && Covered(Redirected(w.sys, moved, to), r, m)
  {
    var sys := Redirected(w.sys, moved, to);
    PassedReady(w, from, to, moved, r);
    OutsideCumulative(w, from, to, moved, r, m);
    forall i | 0 <= i < |sys.g.children[m]|
      ensures Looser(Derived(sys, m, sys.g.children[m][i], Cumulative(sys.g, r, m, {})), r[sys.g.children[m][i]].grant)
    {
      var f := w.sys.g.children[m][i];
      assert ChildOf(w.sys.g, m, f);
      MovedDerived(w, to, moved, m, f);
    }
  }

  lemma {:induction false} ReplaceCovers(w: World, from: NodeId, to: NodeId, moved: set<EdgeId>, r: Grants, m: NodeId)
    requires Passed(w, from, to, moved, r) && Monotone(w.sys) && SharesCarryOver(w, moved, to)
    requires m in w.sys.info && Covered(w.sys, w.st, m)
    ensures Ready(Redirected(w.sys, moved, to), r) && Covered(Redirected(w.sys, moved, to), r, m)
  {
    hide Acyclic, WellFormed;
    if m in Cone(w.sys.g, to) {
      ReplaceSettles(w, from, to, moved, r);
      SameSubtree(w.sys.g, moved, to);
      SettledIsCovered(Redirected(w.sys, moved, to), r, m, {});
    } else {
      ReplaceCoversOutside(w, from, to, moved, r, m);
    }
  }

  // ---------------------------------------------------------------- the theorem

  lemma {:induction false} ReplaceNodeCovers(w: World, from: NodeId, to: NodeId, moved: set<EdgeId>, r: Grants,
                                             s: Grants)
    requires Passed(w, from, to, moved, r) && Inv(w) && SameGrants(r, s) && Ready(Redirected(w.sys, moved, to), s)
    requires SharesCarryOver(w, moved, to)
    ensures AllCovered(Redirected(w.sys, moved, to), s, w.sys.info.Keys)
  {
    var sys := Redirected(w.sys, moved, to);
    forall m | m in w.sys.info
      ensures Covered(sys, s, m)
    {
      ReplaceCovers(w, from, to, moved, r, m);
      CumulativeSame(sys.g, r, s, m, {}, {});
    }
  }

  lemma {:induction false} CoverageNeedsShares(w: World, from: NodeId, to: NodeId, moved: set<EdgeId>, r: Grants,
                                               s: Grants)
    requires Passed(w, from, to, moved, r) && SameGrants(r, s) && Ready(Redirected(w.sys, moved, to), s)
    requires AllCovered(Redirected(w.sys, moved, to), s, w.sys.info.Keys)
    ensures SharesCarryOver(w, moved, to)
  {
    var sys := Redirected(w.sys, moved, to);
    forall m, f | f in moved && m in w.sys.info && ChildOf(w.sys.g, m, f)
      ensures SharesAt(w, moved, to, m, f)
    {
      assert Covered(sys, s, m) && ChildOf(sys.g, m, f);
      assert m !in Cone(w.sys.g, to);
      CoveredChild(sys, s, m, f);
      OutsideCumulative(w, from, to, moved, r, m);
      CumulativeSame(sys.g, r, s, m, {}, {});
      MovedUntouched(w, from, to, moved, r);
    }
  }

  /**
   A successful bdrv_replace_node_common keeps the invariant exactly when the shares of the moved
   child edges carry over.
   */
  lemma {:induction false} ReplaceNodeInvIff(w: World, from: NodeId, to: NodeId, stay: set<EdgeId>, frozen: set<EdgeId>,
                                             autoSkip: bool)
    requires Inv(w) && from in w.sys.info && to in w.sys.info
    ensures var res := ReplaceNode(w, from, to, stay, frozen, autoSkip);
            res.1 ==> (Inv(res.0) <==> SharesCarryOver(w, Moved(w.sys.g, from, to, stay), to))
  {
    var moved := Moved(w.sys.g, from, to, stay);
    var r := CheckUpdate(w.sys, w.st, to, MovedGrant(w.sys.g, w.st, from, moved), moved);
    ReplaceNodeEffect(w, from, to, stay, frozen, autoSkip);
    var res := ReplaceNode(w, from, to, stay, frozen, autoSkip);
    if res.1 {
      assert Passed(w, from, to, moved, r.st);
      assert Monotone(res.0.sys);
      if SharesCarryOver(w, moved, to) {
        ReplaceNodeCovers(w, from, to, moved, r.st, res.0.st);
      }
      if Inv(res.0) {
        CoverageNeedsShares(w, from, to, moved, r.st, res.0.st);
      }
    }
  }

  /** So replacing a node keeps the invariant unless a force-shared node gives way to one that is not. */
  lemma {:induction false} ReplaceNodeKeepsInv(w: World, from: NodeId, to: NodeId, stay: set<EdgeId>,
                                               frozen: set<EdgeId>, autoSkip: bool)
    requires Inv(w) && KeepsForceShare(w.sys, from, to)
    ensures Inv(ReplaceNode(w, from, to, stay, frozen, autoSkip).0)
  {
    ForceShareCarriesOver(w, from, to, Moved(w.sys.g, from, to, stay));
    ReplaceNodeInvIff(w, from, to, stay, frozen, autoSkip);
    ReplaceNodeEffect(w, from, to, stay, frozen, autoSkip);
  }

  /**
   bdrv_replace_node_common either changes nothing, or moves exactly the movable parents of `from`,
   with the grants they had, and leaves an acyclic graph whose users are all compatible.
   */
  lemma {:induction false} ReplaceNodeEffect(w: World, from: NodeId, to: NodeId, stay: set<EdgeId>, frozen: set<EdgeId>,
                                             autoSkip: bool)
    requires Sound(w) && from in w.sys.info && to in w.sys.info
    ensures var moved := Moved(w.sys.g, from, to, stay); var res := ReplaceNode(w, from, to, stay, frozen, autoSkip);
            var r := CheckUpdate(w.sys, w.st, to, MovedGrant(w.sys.g, w.st, from, moved), moved);
            && (res.1 <==> !Refused(w.sys.g, from, to, stay, frozen, autoSkip) && r.ok)
            && (!res.1 ==> res.0 == w)
            && (res.1 ==> && res.0.sys == Redirected(w.sys, moved, to) && Sound(res.0)
                          && SameGrants(r.st, res.0.st) && (forall f :: f in moved ==> res.0.st[f] == w.st[f]))
  {
    var moved := Moved(w.sys.g, from, to, stay);
    var grant := MovedGrant(w.sys.g, w.st, from, moved);
    var r := CheckUpdate(w.sys, w.st, to, grant, moved);
    if !Refused(w.sys.g, from, to, stay, frozen, autoSkip) {
      if r.ok {
        ReplaceCommits(w, from, to, moved, r.st);
      } else {
        CheckUpdateThenAbortRestores(w.sys, w.st, to, grant, moved);
      }
    }
  }

  lemma {:induction false} ReplaceCommits(w: World, from: NodeId, to: NodeId, moved: set<EdgeId>, r: Grants)
    requires Passed(w, from, to, moved, r) && NoBackups(w.st) && Peaceful(w.sys.g, w.st, {})
    ensures var sys := Redirected(w.sys, moved, to);
            && Ready(sys, r)
            && var s := SetNode(sys, r, to, Cumulative(sys.g, r, to, {}));
            && NoBackups(s) && Peaceful(sys.g, s, {}) && SameGrants(r, s)
            && (forall f :: f in moved ==> s[f] == w.st[f])
  {
    var sys := Redirected(w.sys, moved, to);
    PassedReady(w, from, to, moved, r);
    var cum := Cumulative(sys.g, r, to, {});
    var s := SetNode(sys, r, to, cum);
    assert ClearedOn(r, s, SubEdges(w.sys.g, to)) by {
      ReplaceSettles(w, from, to, moved, r);
      SetNodeKeeps(sys, r, to, cum);
      SameSubtree(w.sys.g, moved, to);
    }
    CheckUpdateRemembers(w.sys, w.st, to, MovedGrant(w.sys.g, w.st, from, moved), moved);
    ClearedCommits(w.st, r, s, SubEdges(w.sys.g, to));
    assert Peaceful(sys.g, s, {}) by {
      ReplacePeaceful(w, from, to, moved, r);
      SameGrantsPeaceful(sys.g, r, s, {});
    }
  }
}
