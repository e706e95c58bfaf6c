/**
 What the two-phase permission update guarantees on every acyclic graph.
 */
module PermissionTheorems {
  import opened Optional
  import opened BlockGraph
  import opened BlockPermissions
  import opened PermissionUpdate

  /** The edges below node n. */
  ghost function SubEdges(g: Graph, n: NodeId): set<EdgeId> {
    set e | e in g.target && InSubtree(g, n, e)
  }

  lemma {:induction false} SubEdgesOfChild(g: Graph, n: NodeId, e: EdgeId)
    requires WellFormed(g) && Acyclic(g) && ChildOf(g, n, e)
    ensures e in SubEdges(g, n) && SubEdges(g, g.target[e]) <= SubEdges(g, n)
    ensures e !in SubEdges(g, g.target[e])
  {
    ChildBelow(g, n, e);
    assert forall v :: ChildOf(g, v, e) ==> v == n;
  }

  lemma {:induction false} SubEdgesVia(g: Graph, n: NodeId, f: EdgeId) returns (i: nat)
    requires WellFormed(g) && n in g.children && f in SubEdges(g, n)
    ensures i < |g.children[n]| && (f == g.children[n][i] || f in SubEdges(g, g.target[g.children[n][i]]))
  {
    var v :| v in Cone(g, n) && ChildOf(g, v, f);
    var e := f;
    if v != n {
      e := BelowVia(g, n, v);
    }
    i :| 0 <= i < |g.children[n]| && g.children[n][i] == e;
  }

  // ---------------------------------------------------------------- rollback

  /** r differs from st only on `touched`, and no edge forgets the values it had before the update. */
  ghost predicate Remembers(st: Grants, r: Grants, touched: set<EdgeId>) {
    && st.Keys == r.Keys
    && (forall f :: f in st && f !in touched ==> r[f] == st[f])
    && (forall f :: f in st ==> Original(r[f]) == Original(st[f]))
  }

  lemma {:induction false} CheckNodeRemembers(sys: System, st: Grants, n: NodeId, g: Grant, ignore: set<EdgeId>)
    requires Ready(sys, st) && n in sys.info
    ensures Remembers(st, CheckNode(sys, st, n, g, ignore).st, SubEdges(sys.g, n))
    decreases Below(sys.g, n), 1, 0
  {
    CheckChildrenRemembers(sys, st, n, 0, g, ignore, Tightens(g, Cumulative(sys.g, st, n, {})));
  }

  lemma {:induction false} CheckChildrenRemembers(sys: System, st: Grants, n: NodeId, i: nat, g: Grant,
                                                  ignore: set<EdgeId>, tighten: bool)
    requires Ready(sys, st) && n in sys.info && i <= |sys.g.children[n]|
    ensures Remembers(st, CheckChildren(sys, st, n, i, g, ignore, tighten).st, SubEdges(sys.g, n))
    decreases Below(sys.g, n), 0, |sys.g.children[n]| - i
  {
    if i < |sys.g.children[n]| {
      var e := sys.g.children[n][i];
      ChildBelow(sys.g, n, e);
      SubEdgesOfChild(sys.g, n, e);
      var r := CheckEdge(sys, st, e, Derived(sys, n, e, g), ignore);
      CheckEdgeRemembers(sys, st, e, Derived(sys, n, e, g), ignore);
      if r.ok {
        CheckChildrenRemembers(sys, r.st, n, i + 1, g, ignore, tighten || r.tighten);
      }
    }
  }

  lemma {:induction false} CheckUpdateRemembers(sys: System, st: Grants, n: NodeId, g: Grant, ignore: set<EdgeId>)
    requires Ready(sys, st) && n in sys.info
    ensures Remembers(st, CheckUpdate(sys, st, n, g, ignore).st, SubEdges(sys.g, n))
    decreases Below(sys.g, n), 2, 0
  {
    CheckNodeRemembers(sys, st, n, Join(g, Cumulative(sys.g, st, n, ignore)), ignore);
  }

  lemma {:induction false} CheckEdgeRemembers(sys: System, st: Grants, e: EdgeId, g: Grant, ignore: set<EdgeId>)
    requires Ready(sys, st) && e in sys.g.target
    ensures Remembers(st, CheckEdge(sys, st, e, g, ignore).st, SubEdges(sys.g, sys.g.target[e]) + {e})
    decreases Below(sys.g, sys.g.target[e]), 3, 0
  {
    CheckUpdateRemembers(sys, st, sys.g.target[e], g, ignore + {e});
  }

  /** r is st with exactly the edges of `touched` reset. */
  ghost predicate ResetOn(st: Grants, r: Grants, touched: set<EdgeId>) {
    && st.Keys == r.Keys
    && (forall f :: f in st ==> r[f] == if f in touched then Reset(st[f]) else st[f])
  }

  /** The i-th and later child edges of n with everything below them. */
  ghost function EdgesFrom(g: Graph, n: NodeId, i: nat): set<EdgeId>
    requires WellFormed(g) && n in g.children && i <= |g.children[n]|
    decreases |g.children[n]| - i
  {
    if i == |g.children[n]| then {}
    else var e := g.children[n][i]; {e} + SubEdges(g, g.target[e]) + EdgesFrom(g, n, i + 1)
  }

  lemma {:induction false} EdgesFromContains(g: Graph, n: NodeId, i: nat, j: nat)
    requires WellFormed(g) && Acyclic(g) && n in g.children && i <= j < |g.children[n]|
    ensures {g.children[n][j]} + SubEdges(g, g.target[g.children[n][j]]) <= EdgesFrom(g, n, i)
    decreases j - i
  {
    if i < j {
      EdgesFromContains(g, n, i + 1, j);
    }
  }

  lemma {:induction false} EdgesFromWithin(g: Graph, n: NodeId, i: nat)
    requires WellFormed(g) && Acyclic(g) && n in g.children && i <= |g.children[n]|
    ensures EdgesFrom(g, n, i) <= SubEdges(g, n)
    decreases |g.children[n]| - i
  {
    if i < |g.children[n]| {
      SubEdgesOfChild(g, n, g.children[n][i]);
      EdgesFromWithin(g, n, i + 1);
    }
  }

  lemma {:induction false} EdgesFromAll(g: Graph, n: NodeId)
    requires WellFormed(g) && Acyclic(g) && n in g.children
    ensures EdgesFrom(g, n, 0) == SubEdges(g, n)
  {
    EdgesFromWithin(g, n, 0);
    forall f | f in SubEdges(g, n)
      ensures f in EdgesFrom(g, n, 0)
    {
      var i := SubEdgesVia(g, n, f);
      EdgesFromContains(g, n, 0, i);
    }
  }

  lemma {:induction false} AbortNodeResets(sys: System, st: Grants, n: NodeId)
    requires Ready(sys, st) && n in sys.info
    ensures ResetOn(st, AbortNode(sys, st, n), SubEdges(sys.g, n))
    decreases Below(sys.g, n), 1, 0
  {
    AbortChildrenReset(sys, st, n, 0);
    EdgesFromAll(sys.g, n);
  }

  lemma {:induction false} AbortChildrenReset(sys: System, st: Grants, n: NodeId, i: nat)
    requires Ready(sys, st) && n in sys.info && i <= |sys.g.children[n]|
    ensures ResetOn(st, AbortChildren(sys, st, n, i), EdgesFrom(sys.g, n, i))
    decreases Below(sys.g, n), 0, |sys.g.children[n]| - i
  {
    if i < |sys.g.children[n]| {
      var e := sys.g.children[n][i];
      ChildBelow(sys.g, n, e);
      AbortEdgeResets(sys, st, e);
      AbortChildrenReset(sys, AbortEdge(sys, st, e), n, i + 1);
    }
  }

  lemma {:induction false} AbortEdgeResets(sys: System, st: Grants, e: EdgeId)
    requires Ready(sys, st) && e in sys.g.target
    ensures ResetOn(st, AbortEdge(sys, st, e), SubEdges(sys.g, sys.g.target[e]) + {e})
    decreases Below(sys.g, sys.g.target[e]), 2, 0
  {
    AbortNodeResets(sys, st[e := Reset(st[e])], sys.g.target[e]);
  }

  ghost predicate NoBackups(st: Grants) {
    forall f :: f in st ==> st[f].backup == None
  }

  /**
   Rollback: a check, failed or not, followed by an abort restores the permissions of every edge
   exactly, with no backup left, however often an edge was visited on the way.
   */
  lemma {:induction false} CheckThenAbortRestores(sys: System, st: Grants, e: EdgeId, g: Grant, ignore: set<EdgeId>)
    requires Ready(sys, st) && NoBackups(st) && e in sys.g.target
    ensures AbortEdge(sys, CheckEdge(sys, st, e, g, ignore).st, e) == st
  {
    var r := CheckEdge(sys, st, e, g, ignore).st;
    CheckEdgeRemembers(sys, st, e, g, ignore);
    AbortEdgeResets(sys, r, e);
  }

  /** The same for the check of a node, as used when a reference is added or moved. */
  lemma {:induction false} CheckUpdateThenAbortRestores(sys: System, st: Grants, n: NodeId, g: Grant,
                                                        ignore: set<EdgeId>)
    requires Ready(sys, st) && NoBackups(st) && n in sys.info
    ensures AbortNode(sys, CheckUpdate(sys, st, n, g, ignore).st, n) == st
  {
    var r := CheckUpdate(sys, st, n, g, ignore).st;
    CheckUpdateRemembers(sys, st, n, g, ignore);
    AbortNodeResets(sys, r, n);
  }

  lemma {:induction false} CheckNodeThenAbortRestores(sys: System, st: Grants, n: NodeId, g: Grant, ignore: set<EdgeId>)
    requires Ready(sys, st) && NoBackups(st) && n in sys.info
    ensures AbortNode(sys, CheckNode(sys, st, n, g, ignore).st, n) == st
  {
    var r := CheckNode(sys, st, n, g, ignore).st;
    CheckNodeRemembers(sys, st, n, g, ignore);
    AbortNodeResets(sys, r, n);
  }
}
