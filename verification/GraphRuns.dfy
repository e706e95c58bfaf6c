/**
 Whole runs of graph operations, and the case in which replacing a node breaks what later operations
 rely on.
 */
module GraphRuns {
  import opened Optional
  import opened BlockGraph
  import opened BlockPermissions
  import opened PermissionUpdate
  import opened PermissionTheorems
  import opened PermissionSettling
  import opened PermissionLoosening
  import opened GraphOperations
  import opened GraphChanges
  import opened NodeReplacement

  datatype Op =
    | SetPerm(e: EdgeId, g: Grant)
    | AttachRoot(e: EdgeId, n: NodeId, g: Grant, ctxOk: bool)
    | AttachTo(p: NodeId, e: EdgeId, n: NodeId, ctxOk: bool)
    | DetachEdge(e: EdgeId)
    | Replace(from: NodeId, to: NodeId, stay: set<EdgeId>, frozen: set<EdgeId>, autoSkip: bool)

  /** What each operation expects of its caller: known nodes and edges, and no child above its parent. */
  ghost predicate Callable(w: World, op: Op) {
    match op
    case SetPerm(e, g) => e in w.sys.g.target
    case AttachRoot(e, n, g, ctxOk) => n in w.sys.info && FreshEdge(w.sys.g, e)
    case AttachTo(p, e, n, ctxOk) =>
      && n in w.sys.info && p in w.sys.info && w.sys.info[p].driver.Derives? && FreshEdge(w.sys.g, e)
      && p !in Cone(w.sys.g, n)
    case DetachEdge(e) => e in w.sys.g.target
    case Replace(from, to, stay, frozen, autoSkip) => from in w.sys.info && to in w.sys.info
  }

  /** Moreover, owners of edges get what they derive, and no force-shared node gives way to one that is not. */
  ghost predicate Served(w: World, op: Op)
    requires Ready(w.sys, w.st) && Callable(w, op)
  {
    match op
    case SetPerm(e, g) => OwnerServed(w.sys, w.st, e, g)
    case Replace(from, to, stay, frozen, autoSkip) => KeepsForceShare(w.sys, from, to)
    case _ => true
  }

  ghost function Apply(w: World, op: Op): World
    requires Ready(w.sys, w.st) && Callable(w, op)
  {
    match op
    case SetPerm(e, g) => TrySetPerm(w, e, g).0
    case AttachRoot(e, n, g, ctxOk) => RootAttach(w, e, n, g, ctxOk).0
    case AttachTo(p, e, n, ctxOk) => AttachChild(w, p, e, n, ctxOk).0
    case DetachEdge(e) => Detach(w, e)
    case Replace(from, to, stay, frozen, autoSkip) => ReplaceNode(w, from, to, stay, frozen, autoSkip).0
  }

  lemma {:induction false} ApplySound(w: World, op: Op)
    requires Sound(w) && Callable(w, op)
    ensures Sound(Apply(w, op))
  {
    match op
    case SetPerm(e, g) => TrySetPermSound(w, e, g);
    case AttachRoot(e, n, g, ctxOk) => RootAttachSound(w, e, n, g, ctxOk);
    case AttachTo(p, e, n, ctxOk) => AttachChildSound(w, p, e, n, ctxOk);
    case DetachEdge(e) => DetachSound(w, e);
    case Replace(from, to, stay, frozen, autoSkip) => ReplaceNodeEffect(w, from, to, stay, frozen, autoSkip);
  }

  lemma {:induction false} ApplyKeepsInv(w: World, op: Op)
    requires Inv(w) && Callable(w, op) && Served(w, op)
    ensures Inv(Apply(w, op))
  {
    match op
    case SetPerm(e, g) => TrySetPermKeepsInv(w, e, g);
    case AttachRoot(e, n, g, ctxOk) => RootAttachKeepsInv(w, e, n, g, ctxOk);
    case AttachTo(p, e, n, ctxOk) => AttachChildKeepsInv(w, p, e, n, ctxOk);
    case DetachEdge(e) => DetachKeepsInv(w, e);
    case Replace(from, to, stay, frozen, autoSkip) => ReplaceNodeKeepsInv(w, from, to, stay, frozen, autoSkip);
  }

  ghost predicate Follows(w: World, op: Op, w': World) {
    Ready(w.sys, w.st) && Callable(w, op) && w' == Apply(w, op)
  }

  ghost predicate IsRun(ws: seq<World>, ops: seq<Op>) {
    |ws| == |ops| + 1 && forall i :: 0 <= i < |ops| ==> Follows(ws[i], ops[i], ws[i + 1])
  }

  ghost predicate FollowsServed(w: World, op: Op, w': World) {
    Follows(w, op, w') && Served(w, op)
  }

  ghost predicate IsServedRun(ws: seq<World>, ops: seq<Op>) {
    |ws| == |ops| + 1 && forall i :: 0 <= i < |ops| ==> FollowsServed(ws[i], ops[i], ws[i + 1])
  }

  /** A graph without edges. */
  ghost predicate Unconnected(w: World) {
    && w.sys.g.target == map[] && w.sys.g.children.Keys == w.sys.info.Keys
    && (forall n :: n in w.sys.g.children ==> w.sys.g.children[n] == []) && w.st == map[]
  }

  lemma {:induction false} UnconnectedSound(w: World)
    requires Unconnected(w)
    ensures Sound(w) && (Monotone(w.sys) ==> Inv(w))
  {
    forall n, p | n in w.sys.g.children && |p| >= 2
      ensures !Joins(w.sys.g, p, n, n)
    {
      assert !Linked(w.sys.g, p[0], p[0 + 1]);
    }
  }

  lemma {:induction false} FollowsSound(w: World, op: Op, w': World)
    requires Sound(w) && Follows(w, op, w')
    ensures Sound(w')
  {
    hide Sound;
    ApplySound(w, op);
  }

  lemma {:induction false} FollowsKeepsInv(w: World, op: Op, w': World)
    requires Inv(w) && FollowsServed(w, op, w')
    ensures Inv(w')
  {
    hide Inv;
    ApplyKeepsInv(w, op);
  }

  lemma {:induction false} RunIsSound(ws: seq<World>, ops: seq<Op>, i: nat)
    requires IsRun(ws, ops) && Unconnected(ws[0]) && i < |ws|
    ensures Sound(ws[i])
  {
    hide Sound, Follows;
    if i == 0 {
      UnconnectedSound(ws[0]);
    } else {
      RunIsSound(ws, ops, i - 1);
      FollowsSound(ws[i - 1], ops[i - 1], ws[i - 1 + 1]);
    }
  }

  lemma {:induction false} ServedRunKeepsInv(ws: seq<World>, ops: seq<Op>, i: nat)
    requires IsServedRun(ws, ops) && Unconnected(ws[0]) && Monotone(ws[0].sys) && i < |ws|
    ensures Inv(ws[i])
  {
    hide Inv, FollowsServed;
    if i == 0 {
      UnconnectedSound(ws[0]);
    } else {
      ServedRunKeepsInv(ws, ops, i - 1);
      FollowsKeepsInv(ws[i - 1], ops[i - 1], ws[i - 1 + 1]);
    }
  }

  /**
   Along every run from an unconnected graph, whatever the drivers derive and whatever is asked for:
   the graph is acyclic, any two users of a node can coexist, and no update is left half done.
   */
  lemma {:induction false} EveryRunIsSafe(ws: seq<World>, ops: seq<Op>, i: nat)
    requires IsRun(ws, ops) && Unconnected(ws[0]) && i < |ws|
    ensures Ready(ws[i].sys, ws[i].st) && Acyclic(ws[i].sys.g)
    ensures Peaceful(ws[i].sys.g, ws[i].st, {}) && NoBackups(ws[i].st)
  {
    RunIsSound(ws, ops, i);
  }

  /** With monotone drivers and owners that get what they derive, moreover, taking any user away tightens nothing. */
  lemma {:induction false} ServedRunNeverTightens(ws: seq<World>, ops: seq<Op>, i: nat, e: EdgeId)
    requires IsServedRun(ws, ops) && Unconnected(ws[0]) && Monotone(ws[0].sys) && i < |ws| && e in ws[i].sys.g.target
    ensures Inv(ws[i]) && DetachIsLoose(ws[i], e)
  {
    ServedRunKeepsInv(ws, ops, i);
    InvDetachIsLoose(ws[i], e);
  }

  /** The assertion of bdrv_replace_child when edge e is detached. */
  ghost predicate DetachIsLoose(w: World, e: EdgeId)
    requires Ready(w.sys, w.st) && e in w.sys.g.target
  {
    var sys := RemoveEdge(w.sys, e);
    var t := w.sys.g.target[e];
    RemoveEdgeValid(w.sys, e);
    !CheckNode(sys, w.st - {e}, t, Cumulative(sys.g, w.st - {e}, t, {}), {}).tighten
  }

  lemma {:induction false} InvDetachIsLoose(w: World, e: EdgeId)
    requires Inv(w) && e in w.sys.g.target
    ensures DetachIsLoose(w, e)
  {
    RemoveEdgeKeepsInv(w, e);
    RecheckKeepsInv(World(RemoveEdge(w.sys, e), w.st - {e}), w.sys.g.target[e]);
  }

  // ---------------------------------------------------------------- the default derivations

  /** Every deriving driver uses bdrv_default_perms with the flags of its node and the role of the edge. */
  ghost predicate UsesDefaults(sys: System, flags: map<NodeId, Flags>, role: EdgeId -> Role) {
    && (forall n :: n in sys.info && sys.info[n].driver.Derives? ==> n in flags)
    && (forall e :: ValidRole(role(e)))
    && (forall n, e, g: Grant :: n in sys.info && sys.info[n].driver.Derives? ==>
          sys.info[n].driver.derive(e, g) == DefaultPerms(flags[n], role(e), g))
  }

  lemma {:induction false} DefaultsAreMonotone(sys: System, flags: map<NodeId, Flags>, role: EdgeId -> Role)
    requires UsesDefaults(sys, flags, role)
    ensures Monotone(sys)
  {
    forall n, e, a: Grant, b: Grant | n in sys.info && sys.info[n].driver.Derives? && Looser(a, b)
      ensures Looser(sys.info[n].driver.derive(e, a), sys.info[n].driver.derive(e, b))
    {
      assert sys.info[n].driver.derive(e, a) == DefaultPerms(flags[n], role(e), a);
      assert sys.info[n].driver.derive(e, b) == DefaultPerms(flags[n], role(e), b);
      DefaultPermsMonotone(flags[n], role(e), a, b);
    }
  }

  // ---------------------------------------------------------------- a force-shared node is replaced

  /**
   Node 0 is a filter over node 1, which is force-shared and so read-only; node 2 is not.  Edges 10 and 11 are users
   of node 0, edge 12 leads from node 0 to node 1.
   */
  const READER: Grant := Grant({ConsistentRead}, {ConsistentRead, WriteUnchanged})
  const IDLE: Grant := Grant({}, ALL)
  const FORCED: Grant := Grant({ConsistentRead}, ALL)
  const FILTERED: Grant := Grant({ConsistentRead}, {ConsistentRead, WriteUnchanged, GraphMod})

  function ExampleSystem(): System {
    System(Graph(map[0 := [12], 1 := [], 2 := []], map[10 := 0, 11 := 0, 12 := 1], map[12 := 0]),
           map[0 := NodeInfo(Derives((e, g) => FilterDefaultPerms(g)), true, true, false),
               1 := NodeInfo(Leaf, false, false, true),
               2 := NodeInfo(Leaf, true, true, false)])
  }

  function ExampleGrants(): Grants {
    map[10 := EdgeState(READER, None), 11 := EdgeState(IDLE, None), 12 := EdgeState(FORCED, None)]
  }

  lemma {:induction false} LevelsAcyclic(g: Graph, level: map<NodeId, nat>)
    requires level.Keys == g.children.Keys
    requires forall n, e :: ChildOf(g, n, e) && g.target[e] in level ==> level[g.target[e]] < level[n]
    ensures Acyclic(g)
  {
    forall n, p | n in g.children && Joins(g, p, n, n) && |p| >= 2
      ensures false
    {
      PathDescends(g, level, p, |p| - 1);
    }
  }

  lemma {:induction false} PathDescends(g: Graph, level: map<NodeId, nat>, p: seq<NodeId>, k: nat)
    requires level.Keys == g.children.Keys && IsPath(g, p) && 0 < k < |p|
    requires forall n, e :: ChildOf(g, n, e) && g.target[e] in level ==> level[g.target[e]] < level[n]
    ensures level[p[k]] < level[p[0]]
  {
    assert Linked(g, p[k - 1], p[k - 1 + 1]);
    if k > 1 {
      PathDescends(g, level, p, k - 1);
    }
  }

  lemma {:induction false} ExampleReady()
    ensures Ready(ExampleSystem(), ExampleGrants())
  {
    LevelsAcyclic(ExampleSystem().g, map[0 := 1, 1 := 0, 2 := 0]);
  }

  lemma {:induction false} ExampleCumulative()
    ensures Ready(ExampleSystem(), ExampleGrants())
    ensures Cumulative(ExampleSystem().g, ExampleGrants(), 0, {}) == READER
  {
    ExampleReady();
    var g, st := ExampleSystem().g, ExampleGrants();
    assert 10 in Users(g, 0) && 11 in Users(g, 0);
    var c := Cumulative(g, st, 0, {});
    assert Taken(g, st, 0, {}, ConsistentRead);
    AllIsAll(c.shared);
    AllIsAll(c.perm);
    assert forall p: Perm :: SharedByAll(g, st, 0, {}, p) <==> p in READER.shared;
    assert forall p: Perm :: Taken(g, st, 0, {}, p) <==> p in READER.perm;
  }

  lemma {:induction false} ExampleInv()
    ensures Inv(World(ExampleSystem(), ExampleGrants()))
  {
    ExampleCovered();
    ExampleMonotone();
    ExamplePeaceful();
  }

  lemma {:induction false} ExampleMonotone()
    ensures Monotone(ExampleSystem())
  {
  }

  lemma {:induction false} ExampleCompatible()
    ensures Compatible(READER, IDLE) && Compatible(IDLE, READER)
  {
  }

  lemma {:induction false} ExamplePeaceful()
    ensures Peaceful(ExampleSystem().g, ExampleGrants(), {}) && NoBackups(ExampleGrants())
  {
    hide Compatible;
    ExampleCompatible();
    var target := ExampleSystem().g.target;
    forall e, f | e in target && f in target && e != f && target[e] == target[f]
      ensures Compatible(ExampleGrants()[e].grant, ExampleGrants()[f].grant)
    {
      assert e == 10 || e == 11;
      assert f == 10 || f == 11;
    }
  }

  lemma {:induction false} ExampleCovered()
    ensures Ready(ExampleSystem(), ExampleGrants())
    ensures AllCovered(ExampleSystem(), ExampleGrants(), ExampleSystem().info.Keys)
  {
    ExampleCumulative();
    var sys, st := ExampleSystem(), ExampleGrants();
    assert sys.g.children[0] == [12] && sys.g.children[1] == [] && sys.g.children[2] == [];
    assert Derived(sys, 0, 12, READER) == Grant({ConsistentRead}, ALL);
  }

  /** With one user a node needs what that user does. */
  lemma {:induction false} OneUser(g: Graph, st: Grants, n: NodeId, ign: set<EdgeId>, e: EdgeId)
    requires g.target.Keys <= st.Keys && e in Users(g, n) && e !in ign
             && (forall f :: f in Users(g, n) && f !in ign ==> f == e)
    ensures Cumulative(g, st, n, ign) == st[e].grant
  {
    NoUsers(g, st, n, ign + {e});
    CumulativeSplit(g, st, n, ign, e);
    AllIsAll(st[e].grant.shared);
    assert st[e].grant.shared * ALL == st[e].grant.shared;
    assert st[e].grant.perm + {} == st[e].grant.perm;
  }

  /** A leaf without users accepts anything, and the check changes nothing. */
  lemma {:induction false} LeafAccepts(sys: System, st: Grants, n: NodeId, g: Grant, ign: set<EdgeId>)
    requires Ready(sys, st) && n in sys.info && sys.info[n] == NodeInfo(Leaf, true, true, sys.info[n].forceShare)
    requires Users(sys.g, n) <= ign
    ensures var r := CheckUpdate(sys, st, n, g, ign);
            r == Check(true, st, Tightens(g, Cumulative(sys.g, st, n, {})))
  {
    NoUsers(sys.g, st, n, ign);
    AllIsAll(g.shared);
    assert Join(g, Grant({}, ALL)) == g;
    assert NodeAccepts(sys.info[n], g);
    assert sys.g.children[n] == [];
    assert CheckNode(sys, st, n, g, ign)
           == CheckChildren(sys, st, n, 0, g, ign, Tightens(g, Cumulative(sys.g, st, n, {})));
  }

  /** After node 1 has been replaced by node 2, edge 12 leads to node 2 with the grant it had. */
  lemma {:induction false} ExampleReplaced()
    ensures Inv(World(ExampleSystem(), ExampleGrants()))
    ensures var res := ReplaceNode(World(ExampleSystem(), ExampleGrants()), 1, 2, {}, {}, false);
            res.1 && res.0.sys == Redirected(ExampleSystem(), {12}, 2) && SameGrants(ExampleGrants(), res.0.st)
  {
    var sys, st := ExampleSystem(), ExampleGrants();
    var w := World(sys, st);
    ExampleInv();
    assert !InSubtree(sys.g, 2, 12) by {
      assert forall v :: ChildOf(sys.g, v, 12) ==> v == 0;
      if 0 in Below(sys.g, 2) {
        var e := BelowVia(sys.g, 2, 0);
      }
    }
    var moved := Moved(sys.g, 1, 2, {});
    assert Users(sys.g, 1) == {12} && moved == {12};
    assert !Refused(sys.g, 1, 2, {}, {}, false);
    assert Users(sys.g, 2) == {};
    LeafAccepts(sys, st, 2, MovedGrant(sys.g, st, 1, moved), moved);
    ReplaceNodeEffect(w, 1, 2, {}, {}, false);
  }

  /**
   Detaching edge 11 afterwards tightens: node 0 now derives a smaller share mask for edge 12, so the
   assertion of bdrv_replace_child fails although a user was only taken away.
   */
  lemma {:induction false} ForceShareLossTightens()
    ensures Inv(World(ExampleSystem(), ExampleGrants()))
    ensures var res := ReplaceNode(World(ExampleSystem(), ExampleGrants()), 1, 2, {}, {}, false);
            && res.1 && Ready(res.0.sys, res.0.st) && 11 in res.0.sys.g.target
            && !DetachIsLoose(res.0, 11)
  {
    ExampleReplaced();
    var w := World(ExampleSystem(), ExampleGrants());
    ReplaceNodeEffect(w, 1, 2, {}, {}, false);
    var v := ReplaceNode(w, 1, 2, {}, {}, false).0;
    ExampleDetached(v);
  }

  lemma {:induction false} ExampleShape()
    ensures var g := RemoveEdge(Redirected(ExampleSystem(), {12}, 2), 11).g;
            g.children == map[0 := [12], 1 := [], 2 := []] && g.target == map[10 := 0, 12 := 2]
  {
    var before := Redirected(ExampleSystem(), {12}, 2).g;
    assert before.target == map[10 := 0, 11 := 0, 12 := 2];
    assert Without([12], 11) == [12] by {
      assert [12][1..] == [] && Without([], 11) == [];
    }
    var after := RemoveEdge(Redirected(ExampleSystem(), {12}, 2), 11).g.children;
    assert after[0] == [12] && after[1] == [] && after[2] == [];
  }

  lemma {:induction false} ExampleDetached(v: World)
    requires Ready(v.sys, v.st) && v.sys == Redirected(ExampleSystem(), {12}, 2) && SameGrants(ExampleGrants(), v.st)
    ensures 11 in v.sys.g.target && !DetachIsLoose(v, 11)
  {
    hide Acyclic, CheckNode, WellFormed;
    RemoveEdgeValid(v.sys, 11);
    ExampleShape();
    ExampleTightens(RemoveEdge(v.sys, 11), v.st - {11});
    assert v.sys.g.target[11] == 0;
  }

  lemma {:induction false} ExampleTightens(sys: System, st: Grants)
    requires Ready(sys, st) && sys.g.children == map[0 := [12], 1 := [], 2 := []]
             && sys.g.target == map[10 := 0, 12 := 2]
    requires sys.info == ExampleSystem().info && st[10].grant == READER && st[12].grant == FORCED
    ensures CheckNode(sys, st, 0, Cumulative(sys.g, st, 0, {}), {}).tighten
  {
    OneUser(sys.g, st, 0, {}, 10);
    OneUser(sys.g, st, 2, {}, 12);
    assert Derived(sys, 0, 12, READER) == FILTERED;
    LeafAccepts(sys, st, 2, FILTERED, {12});
    assert Tightens(FILTERED, FORCED) by {
      assert Write in FORCED.shared && Write !in FILTERED.shared;
    }
    assert {} + {12} == {12};
    var r := CheckEdge(sys, st, 12, FILTERED, {});
    assert r.ok && r.tighten;
    assert NodeAccepts(sys.info[0], READER) && sys.g.children[0] == [12];
    var tighten := Tightens(READER, READER);
    assert CheckChildren(sys, st, 0, 0, READER, {}, tighten) == CheckChildren(sys, r.st, 0, 1, READER, {}, true);
  }
}
