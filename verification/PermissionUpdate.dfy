/**
 The two-phase permission update of femu-ocssd/block.c as functions on the permissions of all edges:
 check (bdrv_check_perm, bdrv_check_update_perm, bdrv_child_check_perm), then set (bdrv_set_perm,
 bdrv_child_set_perm) or abort (bdrv_abort_perm_update, bdrv_child_abort_perm_update).
 */
module PermissionUpdate {
  import opened Optional
  import opened BlockGraph
  import opened BlockPermissions

  /**
   The driver of a node: none (bs->drv == NULL), one with its own bdrv_check_perm callback, one that
   never has children, or one that derives the grants of its child edges by bdrv_child_perm.
   */
  datatype Driver =
    | NoDriver
    | OwnCheck(accepts: Grant -> bool)
    | Leaf
    | Derives(derive: (EdgeId, Grant) -> Grant)

  datatype NodeInfo = NodeInfo(driver: Driver, writable: bool, aligned: bool, forceShare: bool)

  datatype System = System(g: Graph, info: map<NodeId, NodeInfo>)

  ghost predicate Valid(sys: System) {
    && WellFormed(sys.g) && Acyclic(sys.g)
    && sys.info.Keys == sys.g.children.Keys
    && (forall n :: n in sys.info && !sys.info[n].driver.Derives? ==> sys.g.children[n] == [])
  }

  /** BdrvChild.perm and shared_perm; `backup` is has_backup_perm with the saved values. */
  datatype EdgeState = EdgeState(grant: Grant, backup: Option<Grant>)

  type Grants = map<EdgeId, EdgeState>

  /** The edges that point to node n: bs->parents. */
  function Users(g: Graph, n: NodeId): set<EdgeId> {
    set e | e in g.target && g.target[e] == n
  }

  ghost predicate Taken(g: Graph, st: Grants, n: NodeId, ignore: set<EdgeId>, p: Perm)
    requires g.target.Keys <= st.Keys
  {
    exists e :: e in Users(g, n) && e !in ignore && p in st[e].grant.perm
  }

  ghost predicate SharedByAll(g: Graph, st: Grants, n: NodeId, ignore: set<EdgeId>, p: Perm)
    requires g.target.Keys <= st.Keys
  {
    forall e :: e in Users(g, n) && e !in ignore ==> p in st[e].grant.shared
  }

  /** bdrv_get_cumulative_perm, leaving out the users in `ignore`. */
  ghost function Cumulative(g: Graph, st: Grants, n: NodeId, ignore: set<EdgeId>): Grant
    requires g.target.Keys <= st.Keys
  {
    Grant(set p: Perm | Taken(g, st, n, ignore, p), set p: Perm | SharedByAll(g, st, n, ignore, p))
  }

  /** bdrv_child_perm: what node n needs on its child edge e to node t when its own cumulative permissions are g. */
  function DerivedTo(sys: System, n: NodeId, e: EdgeId, t: NodeId, g: Grant): Grant
    requires n in sys.info && sys.info[n].driver.Derives?
  {
    var d := sys.info[n].driver.derive(e, g);
    if t in sys.info && sys.info[t].forceShare then Grant(d.perm, ALL) else d
  }

  function Derived(sys: System, n: NodeId, e: EdgeId, g: Grant): Grant
    requires n in sys.info && sys.info[n].driver.Derives? && e in sys.g.target
  {
    DerivedTo(sys, n, e, sys.g.target[e], g)
  }

  /** The outcome of a check: success, the permissions it leaves behind, and *tighten_restrictions. */
  datatype Check = Check(ok: bool, st: Grants, tighten: bool)

  ghost predicate Ready(sys: System, st: Grants) {
    Valid(sys) && st.Keys == sys.g.target.Keys
  }

  predicate Writes(g: Grant) {
    Write in g.perm || WriteUnchanged in g.perm
  }

  /** The checks a node makes by itself, before its children. */
  predicate NodeAccepts(info: NodeInfo, g: Grant) {
    && (Writes(g) ==> info.writable)
    && (Writes(g) && Resize !in g.perm ==> info.aligned)
    && (info.driver.OwnCheck? ==> info.driver.accepts(g))
  }

  /** New permissions have to be taken, or shared ones unshared. */
  predicate Tightens(g: Grant, current: Grant) {
    !Looser(g, current)
  }

  /** bdrv_check_perm */
  ghost function CheckNode(sys: System, st: Grants, n: NodeId, g: Grant, ignore: set<EdgeId>): (r: Check)
    requires Ready(sys, st) && n in sys.info
    ensures r.st.Keys == st.Keys
    decreases Below(sys.g, n), 1, 0
  {
    var tighten := Tightens(g, Cumulative(sys.g, st, n, {}));
    if NodeAccepts(sys.info[n], g) then CheckChildren(sys, st, n, 0, g, ignore, tighten)
    else Check(false, st, tighten)
  }

  /** Its loop over the children, from the i-th on. */
  ghost function CheckChildren(sys: System, st: Grants, n: NodeId, i: nat, g: Grant, ignore: set<EdgeId>,
                               tighten: bool): (r: Check)
    requires Ready(sys, st) && n in sys.info && i <= |sys.g.children[n]|
    ensures r.st.Keys == st.Keys
    decreases Below(sys.g, n), 0, |sys.g.children[n]| - i
  {
    if i == |sys.g.children[n]| then Check(true, st, tighten)
    else
      var e := sys.g.children[n][i];
      ChildBelow(sys.g, n, e);
      var r := CheckEdge(sys, st, e, Derived(sys, n, e, g), ignore);
      if r.ok then CheckChildren(sys, r.st, n, i + 1, g, ignore, tighten || r.tighten)
      else r.(tighten := tighten || r.tighten)
  }

  /** No user of n outside `ignore` conflicts with g. */
  ghost predicate NoConflict(g: Graph, st: Grants, n: NodeId, grant: Grant, ignore: set<EdgeId>)
    requires g.target.Keys <= st.Keys
  {
    forall e :: e in Users(g, n) && e !in ignore ==> Compatible(grant, st[e].grant)
  }

  /** bdrv_check_update_perm */
  ghost function CheckUpdate(sys: System, st: Grants, n: NodeId, g: Grant, ignore: set<EdgeId>): (r: Check)
    requires Ready(sys, st) && n in sys.info
    ensures r.st.Keys == st.Keys
    decreases Below(sys.g, n), 2, 0
  {
    if NoConflict(sys.g, st, n, g, ignore) then
      CheckNode(sys, st, n, Join(g, Cumulative(sys.g, st, n, ignore)), ignore)
    else Check(false, st, true)
  }

  /** The new values of an edge; the first change saves the old ones. */
  function Install(es: EdgeState, g: Grant): EdgeState {
    EdgeState(g, if es.backup.None? then Some(es.grant) else es.backup)
  }

  /** bdrv_child_check_perm */
  ghost function CheckEdge(sys: System, st: Grants, e: EdgeId, g: Grant, ignore: set<EdgeId>): (r: Check)
    requires Ready(sys, st) && e in sys.g.target
    ensures r.st.Keys == st.Keys
    decreases Below(sys.g, sys.g.target[e]), 3, 0
  {
    var r := CheckUpdate(sys, st, sys.g.target[e], g, ignore + {e});
    if r.ok then r.(st := r.st[e := Install(r.st[e], g)]) else r
  }

  /** bdrv_set_perm */
  ghost function SetNode(sys: System, st: Grants, n: NodeId, g: Grant): (r: Grants)
    requires Ready(sys, st) && n in sys.info
    ensures r.Keys == st.Keys
    decreases Below(sys.g, n), 1, 0
  {
    SetChildren(sys, st, n, 0, g)
  }

  ghost function SetChildren(sys: System, st: Grants, n: NodeId, i: nat, g: Grant): (r: Grants)
    requires Ready(sys, st) && n in sys.info && i <= |sys.g.children[n]|
    ensures r.Keys == st.Keys
    decreases Below(sys.g, n), 0, |sys.g.children[n]| - i
  {
    if i == |sys.g.children[n]| then st
    else
      var e := sys.g.children[n][i];
      ChildBelow(sys.g, n, e);
      SetChildren(sys, SetEdge(sys, st, e, Derived(sys, n, e, g)), n, i + 1, g)
  }

  /** bdrv_child_set_perm */
  ghost function SetEdge(sys: System, st: Grants, e: EdgeId, g: Grant): (r: Grants)
    requires Ready(sys, st) && e in sys.g.target
    ensures r.Keys == st.Keys
    decreases Below(sys.g, sys.g.target[e]), 2, 0
  {
    var st1 := st[e := EdgeState(g, None)];
    SetNode(sys, st1, sys.g.target[e], Cumulative(sys.g, st1, sys.g.target[e], {}))
  }

  /** An edge put back to its saved values, if it has any. */
  function Reset(es: EdgeState): EdgeState {
    EdgeState(Original(es), None)
  }

  function Original(es: EdgeState): Grant {
    if es.backup.Some? then es.backup.value else es.grant
  }

  /** bdrv_abort_perm_update */
  ghost function AbortNode(sys: System, st: Grants, n: NodeId): (r: Grants)
    requires Ready(sys, st) && n in sys.info
    ensures r.Keys == st.Keys
    decreases Below(sys.g, n), 1, 0
  {
    AbortChildren(sys, st, n, 0)
  }

  ghost function AbortChildren(sys: System, st: Grants, n: NodeId, i: nat): (r: Grants)
    requires Ready(sys, st) && n in sys.info && i <= |sys.g.children[n]|
    ensures r.Keys == st.Keys
    decreases Below(sys.g, n), 0, |sys.g.children[n]| - i
  {
    if i == |sys.g.children[n]| then st
    else
      ChildBelow(sys.g, n, sys.g.children[n][i]);
      AbortChildren(sys, AbortEdge(sys, st, sys.g.children[n][i]), n, i + 1)
  }

  /** bdrv_child_abort_perm_update */
  ghost function AbortEdge(sys: System, st: Grants, e: EdgeId): (r: Grants)
    requires Ready(sys, st) && e in sys.g.target
    ensures r.Keys == st.Keys
    decreases Below(sys.g, sys.g.target[e]), 2, 0
  {
    AbortNode(sys, st[e := Reset(st[e])], sys.g.target[e])
  }
}
