/**
 The block graph of femu-ocssd/block.c: nodes (BlockDriverState), edges (BdrvChild), the search of
 should_update_child, and what moving edges does to acyclicity.
 */
module BlockGraph {

  type NodeId = nat
  type EdgeId = nat

  /**
   `children[n]` is the list of child edges of node n, `target[e]` the node edge e points to
   (BdrvChild.bs) and `owner[e]` the node that holds it (BdrvChild.opaque).  An edge without owner
   belongs to a parent that is not a node: a block backend, a job, an export.
   */
  datatype Graph = Graph(children: map<NodeId, seq<EdgeId>>, target: map<EdgeId, NodeId>, owner: map<EdgeId, NodeId>)

  predicate Owns(g: Graph, n: NodeId, e: EdgeId) {
    e in g.target && e in g.owner && g.owner[e] == n
  }

  ghost predicate WellFormed(g: Graph) {
    && (forall n, i :: n in g.children && 0 <= i < |g.children[n]| ==> Owns(g, n, g.children[n][i]))
    && (forall e :: e in g.target ==> g.target[e] in g.children)
  }

  /** Edge e is a child edge of node n. */
  predicate ChildOf(g: Graph, n: NodeId, e: EdgeId) {
    n in g.children && e in g.children[n] && e in g.target
  }

  ghost predicate Linked(g: Graph, n: NodeId, m: NodeId) {
    exists e :: ChildOf(g, n, e) && g.target[e] == m
  }

  ghost predicate IsPath(g: Graph, p: seq<NodeId>) {
    && |p| > 0
    && (forall i :: 0 <= i < |p| ==> p[i] in g.children)
    && (forall i :: 0 <= i < |p| - 1 ==> Linked(g, p[i], p[i + 1]))
  }

  ghost predicate Joins(g: Graph, p: seq<NodeId>, n: NodeId, m: NodeId) {
    IsPath(g, p) && p[0] == n && p[|p| - 1] == m
  }

  /** m can be reached from n by following zero or more child edges. */
  ghost predicate Reaches(g: Graph, n: NodeId, m: NodeId) {
    exists p :: Joins(g, p, n, m)
  }

  ghost predicate ReachesProperly(g: Graph, n: NodeId, m: NodeId) {
    exists p :: Joins(g, p, n, m) && |p| >= 2
  }

  ghost predicate Acyclic(g: Graph) {
    forall n :: n in g.children ==> !ReachesProperly(g, n, n)
  }

  /** The nodes strictly below n. */
  ghost function Below(g: Graph, n: NodeId): set<NodeId> {
    set m | m in g.children && ReachesProperly(g, n, m)
  }

  /** n and the nodes below it. */
  ghost function Cone(g: Graph, n: NodeId): set<NodeId> {
    {n} + Below(g, n)
  }

  lemma {:induction false} JoinPaths(g: Graph, p: seq<NodeId>, q: seq<NodeId>)
    requires IsPath(g, p) && IsPath(g, q) && p[|p| - 1] == q[0]
    ensures Joins(g, p + q[1..], p[0], q[|q| - 1])
  {
    var r := p + q[1..];
    forall i | 0 <= i < |r| - 1
      ensures Linked(g, r[i], r[i + 1])
    {
      if i >= |p| - 1 {
        assert r[i] == q[i - (|p| - 1)] && r[i + 1] == q[i - (|p| - 1) + 1];
      }
    }
  }

  /** A child lies strictly below its parent, and so does everything below the child. */
  lemma {:induction false} ChildBelow(g: Graph, n: NodeId, e: EdgeId)
    requires WellFormed(g) && ChildOf(g, n, e)
    ensures g.target[e] in g.children && g.target[e] in Below(g, n)
    ensures Below(g, g.target[e]) <= Below(g, n)
    ensures Cone(g, g.target[e]) <= Below(g, n)
    ensures Acyclic(g) ==> Below(g, g.target[e]) < Below(g, n) && n !in Cone(g, g.target[e])
  {
    var t := g.target[e];
    assert Linked(g, n, t);
    assert Joins(g, [n, t], n, t);
    forall m | m in Below(g, t)
      ensures m in Below(g, n)
    {
      var q :| Joins(g, q, t, m) && |q| >= 2;
      JoinPaths(g, [n, t], q);
    }
    if Acyclic(g) {
      assert t !in Below(g, t);
      assert n !in Below(g, n);
    }
  }

  /** The step that leaves n on the way to a node below it. */
  lemma {:induction false} BelowVia(g: Graph, n: NodeId, m: NodeId) returns (e: EdgeId)
    requires WellFormed(g) && m in Below(g, n)
    ensures ChildOf(g, n, e) && m in Cone(g, g.target[e])
  {
    var p :| Joins(g, p, n, m) && |p| >= 2;
    assert Linked(g, p[0], p[0 + 1]);
    e :| ChildOf(g, n, e) && g.target[e] == p[1];
    if |p| > 2 {
      var q := p[1..];
      forall i | 0 <= i < |q| - 1
        ensures Linked(g, q[i], q[i + 1])
      {
        assert Linked(g, p[i + 1], p[i + 1 + 1]);
      }
      assert Joins(g, q, p[1], m) && |q| >= 2;
    }
  }

  /** Whatever hangs below a node of a cone is in the cone. */
  lemma {:induction false} ConeClosed(g: Graph, n: NodeId, m: NodeId, e: EdgeId)
    requires WellFormed(g) && n in g.children && m in Cone(g, n) && ChildOf(g, m, e)
    ensures g.target[e] in Below(g, n)
  {
    var t := g.target[e];
    assert Linked(g, m, t);
    assert Joins(g, [m, t], m, t);
    if m != n {
      var p :| Joins(g, p, n, m) && |p| >= 2;
      JoinPaths(g, p, [m, t]);
    }
  }

  lemma {:induction false} ReachesIffCone(g: Graph, n: NodeId, m: NodeId)
    requires n in g.children
    ensures Reaches(g, n, m) <==> m in Cone(g, n)
  {
    if Reaches(g, n, m) {
      var p :| Joins(g, p, n, m);
      assert |p| == 1 ==> m == n;
      assert |p| >= 2 ==> ReachesProperly(g, n, m);
    }
    if m == n {
      assert Joins(g, [n], n, m);
    }
  }

  // ---------------------------------------------------------------- should_update_child

  /** Edge c hangs somewhere in the subtree of `to`. */
  ghost predicate InSubtree(g: Graph, to: NodeId, c: EdgeId) {
    exists v :: v in Cone(g, to) && ChildOf(g, v, c)
  }

  /** What the search has established: every node found is in the subtree, and those popped are explored. */
  ghost predicate SearchInv(g: Graph, to: NodeId, c: EdgeId, queue: seq<NodeId>, found: set<NodeId>, ret: bool) {
    && to in found && found <= Cone(g, to) && found <= g.children.Keys
    && (forall i :: 0 <= i < |queue| ==> queue[i] in found)
    && (!ret ==> InSubtree(g, to, c))
    && (ret ==> forall v, e :: v in found && v !in queue && ChildOf(g, v, e) ==> e != c && g.target[e] in found)
  }

  /**
   should_update_child: the breadth-first search terminates on any graph, cyclic or not, and says
   exactly whether edge c may be redirected to `to`.
   */
  method ShouldUpdateChild(g: Graph, stayAtNode: bool, c: EdgeId, to: NodeId) returns (ret: bool)
    requires WellFormed(g) && to in g.children
    ensures ret <==> !stayAtNode && !InSubtree(g, to, c)
  {
    if stayAtNode {
      return false;
    }
    ret := true;
    var found := {to};
    var queue := [to];
    while queue != []
      invariant SearchInv(g, to, c, queue, found, ret)
      decreases g.children.Keys - found, |queue|
    {
      var v := queue[0];
      queue := queue[1..];
      var i := 0;
      ghost var queue0, found0 := queue, found;
      while i < |g.children[v]|
        invariant 0 <= i <= |g.children[v]|
        invariant v in found && found <= Cone(g, to) && found <= g.children.Keys && to in found
        invariant forall k :: 0 <= k < |queue| ==> queue[k] in found
        invariant !ret ==> InSubtree(g, to, c)
        invariant ret ==>
                    forall u, e ::
                      u in found && u !in queue && u != v && ChildOf(g, u, e) ==> e != c && g.target[e] in found
        invariant ret ==> forall k :: 0 <= k < i ==> g.children[v][k] != c && g.target[g.children[v][k]] in found
        invariant found0 <= found && (found == found0 ==> queue == queue0)
      {
        var c2 := g.children[v][i];
        assert ChildOf(g, v, c2);
        if c2 == c {
          ret := false;
          break;
        }
        if g.target[c2] !in found {
          ConeClosed(g, to, v, c2);
          queue := queue + [g.target[c2]];
          found := found + {g.target[c2]};
        }
        i := i + 1;
      }
    }
    if ret {
      SearchComplete(g, to, c, found);
    }
  }

  /** A set of nodes that contains `to` and is closed under children contains the whole subtree. */
  lemma {:induction false} SearchComplete(g: Graph, to: NodeId, c: EdgeId, found: set<NodeId>)
    requires WellFormed(g) && to in g.children && to in found
    requires forall v, e :: v in found && ChildOf(g, v, e) ==> e != c && g.target[e] in found
    ensures !InSubtree(g, to, c)
  {
    forall v | v in Cone(g, to)
      ensures v in found
    {
      if v != to {
        var p :| Joins(g, p, to, v) && |p| >= 2;
        PathStays(g, p, found, |p| - 1);
      }
    }
  }

  lemma {:induction false} PathStays(g: Graph, p: seq<NodeId>, found: set<NodeId>, k: nat)
    requires IsPath(g, p) && p[0] in found && k < |p|
    requires forall v, e :: v in found && ChildOf(g, v, e) ==> g.target[e] in found
    ensures p[k] in found
  {
    if k > 0 {
      PathStays(g, p, found, k - 1);
      assert Linked(g, p[k - 1], p[k - 1 + 1]);
    }
  }

  // ---------------------------------------------------------------- moving edges

  /** bdrv_replace_child_noperm for every edge of `moved`. */
  function Redirect(g: Graph, moved: set<EdgeId>, to: NodeId): Graph {
    g.(target := map e | e in g.target :: if e in moved then to else g.target[e])
  }

  ghost predicate MovedAt(g: Graph, moved: set<EdgeId>, v: NodeId) {
    exists c :: c in moved && ChildOf(g, v, c)
  }

  /** A link of the new graph is a link of the old one or leads over a moved edge to `to`. */
  lemma {:induction false} LinkOrMoved(g: Graph, moved: set<EdgeId>, to: NodeId, n: NodeId, m: NodeId)
    requires WellFormed(g) && Linked(Redirect(g, moved, to), n, m)
    ensures Linked(g, n, m) || (MovedAt(g, moved, n) && m == to)
  {
    var g' := Redirect(g, moved, to);
    var e :| ChildOf(g', n, e) && g'.target[e] == m;
    assert ChildOf(g, n, e);
  }

  /** No path of the new graph leads from `to` to the owner of a moved edge. */
  lemma {:induction false} NoWayBack(g: Graph, moved: set<EdgeId>, to: NodeId, p: seq<NodeId>)
    requires WellFormed(g) && to in g.children
    requires forall c :: c in moved ==> !InSubtree(g, to, c)
    requires IsPath(Redirect(g, moved, to), p) && p[0] == to
    ensures !MovedAt(g, moved, p[|p| - 1])
    decreases |p|
  {
    var g' := Redirect(g, moved, to);
    forall i | 0 <= i < |p| - 1
      ensures Linked(g, p[i], p[i + 1])
    {
      assert IsPath(g', p[..i + 1]);
      NoWayBack(g, moved, to, p[..i + 1]);
      LinkOrMoved(g, moved, to, p[i], p[i + 1]);
    }
    assert Joins(g, p, to, p[|p| - 1]);
    ReachesIffCone(g, to, p[|p| - 1]);
  }

  /** Redirecting edges that pass should_update_child, all together, keeps an acyclic graph acyclic. */
  lemma {:induction false} RedirectKeepsAcyclic(g: Graph, moved: set<EdgeId>, to: NodeId)
    requires WellFormed(g) && Acyclic(g) && to in g.children
    requires forall c :: c in moved ==> !InSubtree(g, to, c)
    ensures WellFormed(Redirect(g, moved, to)) && Acyclic(Redirect(g, moved, to))
  {
    var g' := Redirect(g, moved, to);
    forall n, p | n in g'.children && |p| >= 2
      ensures !Joins(g', p, n, n)
    {
      NoNewCycle(g, moved, to, n, p);
    }
  }

  lemma {:induction false} NoNewCycle(g: Graph, moved: set<EdgeId>, to: NodeId, n: NodeId, p: seq<NodeId>)
    requires WellFormed(g) && Acyclic(g) && to in g.children && n in g.children && |p| >= 2
    requires forall c :: c in moved ==> !InSubtree(g, to, c)
    ensures !Joins(Redirect(g, moved, to), p, n, n)
  {
    var g' := Redirect(g, moved, to);
    assert !ReachesProperly(g, n, n) && !Joins(g, p, n, n);
    if i :| Joins(g', p, n, n) && 0 <= i < |p| - 1 && !Linked(g, p[i], p[i + 1]) {
      LinkOrMoved(g, moved, to, p[i], p[i + 1]);
      Rotate(g', p, i);
      NoWayBack(g, moved, to, p[i + 1..] + p[1..i + 1]);
    }
  }

  /** Redirecting an edge out of the subtree of `to` closes a loop, whatever else is redirected. */
  lemma {:induction false} RedirectInSubtreeMakesCycle(g: Graph, moved: set<EdgeId>, to: NodeId, p: seq<NodeId>)
    requires WellFormed(g) && to in g.children
    requires IsPath(g, p) && p[0] == to && MovedAt(g, moved, p[|p| - 1])
    ensures !Acyclic(Redirect(g, moved, to))
    decreases |p|
  {
    var g' := Redirect(g, moved, to);
    if i :| 0 <= i < |p| - 1 && MovedAt(g, moved, p[i]) {
      assert IsPath(g, p[..i + 1]);
      RedirectInSubtreeMakesCycle(g, moved, to, p[..i + 1]);
    } else {
      var q := p + [to];
      forall i | 0 <= i < |q| - 1
        ensures Linked(g', q[i], q[i + 1])
      {
        if i < |p| - 1 {
          assert Linked(g, p[i], p[i + 1]);
          var e :| ChildOf(g, p[i], e) && g.target[e] == p[i + 1];
          assert ChildOf(g', p[i], e) && g'.target[e] == p[i + 1];
        } else {
          var c :| c in moved && ChildOf(g, p[i], c);
          assert ChildOf(g', p[i], c) && g'.target[c] == to;
        }
      }
      assert Joins(g', q, to, to);
    }
  }

  /** The test of should_update_child is exact: the result is acyclic just when every moved edge passes it. */
  lemma {:induction false} RedirectAcyclicIff(g: Graph, moved: set<EdgeId>, to: NodeId)
    requires WellFormed(g) && Acyclic(g) && to in g.children
    ensures Acyclic(Redirect(g, moved, to)) <==> forall c :: c in moved ==> !InSubtree(g, to, c)
  {
    if c :| c in moved && InSubtree(g, to, c) {
      var v :| v in Cone(g, to) && ChildOf(g, v, c);
      ReachesIffCone(g, to, v);
      var p :| Joins(g, p, to, v);
      RedirectInSubtreeMakesCycle(g, moved, to, p);
    } else {
      RedirectKeepsAcyclic(g, moved, to);
    }
  }

  /** A closed path can be started after any of its links. */
  lemma {:induction false} Rotate(g: Graph, p: seq<NodeId>, i: nat)
    requires IsPath(g, p) && p[0] == p[|p| - 1] && i < |p| - 1
    ensures Joins(g, p[i + 1..] + p[1..i + 1], p[i + 1], p[i])
  {
    var a, b := p[i + 1..], p[..i + 1];
    forall k | 0 <= k < |a| - 1
      ensures Linked(g, a[k], a[k + 1])
    {
      assert Linked(g, p[i + 1 + k], p[i + 1 + k + 1]);
    }
    assert IsPath(g, a) && IsPath(g, b);
    JoinPaths(g, a, b);
    assert b[1..] == p[1..i + 1];
  }
}
