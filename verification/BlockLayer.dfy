/**
 The block layer's permission system as femu-ocssd/block.c runs it: methods that update the
 permissions and edges of one mutable graph in place, proved against the functions of
 PermissionUpdate, GraphOperations, GraphChanges and NodeReplacement.
 */
module BlockLayer {
  import opened Optional
  import opened BlockGraph
  import opened BlockPermissions
  import opened PermissionUpdate
  import opened PermissionTheorems
  import opened PermissionSettling
  import opened GraphOperations
  import opened GraphChanges
  import opened NodeReplacement

  // ---------------------------------------------------------------- the loops over the children, step by step

  lemma {:induction false} CheckStarts(sys: System, st: Grants, n: NodeId, g: Grant, ignore: set<EdgeId>)
    requires Ready(sys, st) && n in sys.info
    ensures var tighten := Tightens(g, Cumulative(sys.g, st, n, {}));
            CheckNode(sys, st, n, g, ignore)
            == if NodeAccepts(sys.info[n], g) then CheckChildren(sys, st, n, 0, g, ignore, tighten) else Check(false,
                st, tighten)
  {
  }

  lemma {:induction false} CheckSteps(sys: System, st: Grants, n: NodeId, i: nat, g: Grant, ignore: set<EdgeId>,
                                      tighten: bool)
    requires Ready(sys, st) && n in sys.info && i <= |sys.g.children[n]|
    ensures i == |sys.g.children[n]| ==> CheckChildren(sys, st, n, i, g, ignore, tighten) == Check(true, st, tighten)
    ensures i < |sys.g.children[n]| ==>
              var e := sys.g.children[n][i]; var r := CheckEdge(sys, st, e, Derived(sys, n, e, g), ignore);
              CheckChildren(sys, st, n, i, g, ignore, tighten)
              == if r.ok then CheckChildren(sys, r.st, n, i + 1, g, ignore,
                                            tighten || r.tighten) else r.(tighten := tighten || r.tighten)
  {
    hide CheckEdge, Acyclic;
  }

  lemma {:induction false} SetSteps(sys: System, st: Grants, n: NodeId, i: nat, g: Grant)
    requires Ready(sys, st) && n in sys.info && i <= |sys.g.children[n]|
    ensures i == 0 ==> SetNode(sys, st, n, g) == SetChildren(sys, st, n, 0, g)
    ensures i == |sys.g.children[n]| ==> SetChildren(sys, st, n, i, g) == st
    ensures i < |sys.g.children[n]| ==>
              var e := sys.g.children[n][i];
              SetChildren(sys, st, n, i, g) == SetChildren(sys, SetEdge(sys, st, e, Derived(sys, n, e, g)), n, i + 1, g)
  {
    hide SetEdge, Acyclic;
  }

  lemma {:induction false} AbortSteps(sys: System, st: Grants, n: NodeId, i: nat)
    requires Ready(sys, st) && n in sys.info && i <= |sys.g.children[n]|
    ensures i == 0 ==> AbortNode(sys, st, n) == AbortChildren(sys, st, n, 0)
    ensures i == |sys.g.children[n]| ==> AbortChildren(sys, st, n, i) == st
    ensures i < |sys.g.children[n]| ==>
              AbortChildren(sys, st, n, i) == AbortChildren(sys, AbortEdge(sys, st, sys.g.children[n][i]), n, i + 1)
  {
    hide AbortEdge, Acyclic;
  }

  class Layer {
    var sys: System
    var st: Grants

    ghost predicate Valid()
      reads this
    {
      Ready(sys, st)
    }

    ghost function Contents(): World
      reads this
    {
      World(sys, st)
    }

    /** bdrv_get_cumulative_perm, leaving out the parents in `ignore`. */
    method GetCumulativePerm(n: NodeId, ignore: set<EdgeId>) returns (g: Grant)
      requires Valid()
      ensures g == Cumulative(sys.g, st, n, ignore)
    {
      g := Grant({}, ALL);
      var todo := Users(sys.g, n);
      NoUsers(sys.g, st, n, ignore + todo);
      while todo != {}
        invariant todo <= Users(sys.g, n) && g == Cumulative(sys.g, st, n, ignore + todo)
        decreases todo
      {
        var c :| c in todo;
        var rest := todo - {c};
        if c !in ignore {
          assert ignore + rest + {c} == ignore + todo;
          CumulativeSplit(sys.g, st, n, ignore + rest, c);
          g := Join(st[c].grant, g);
        } else {
          assert ignore + rest == ignore + todo;
        }
        todo := rest;
      }
      assert ignore + todo == ignore;
    }

    // -------------------------------------------------------------- check

    /** bdrv_check_perm */
    method CheckPerm(n: NodeId, g: Grant, ignore: set<EdgeId>) returns (ok: bool, tighten: bool)
      requires Valid() && n in sys.info
      modifies this`st
      ensures Check(ok, st, tighten) == CheckNode(sys, old(st), n, g, ignore)
      decreases Below(sys.g, n), 1
    {
      hide CheckNode, CheckChildren, CheckEdge, Acyclic, NodeAccepts, Tightens, Derived, Cumulative;
      CheckStarts(sys, st, n, g, ignore);
      var current := GetCumulativePerm(n, {});
      tighten := Tightens(g, current);
      if !NodeAccepts(sys.info[n], g) {
        return false, tighten;
      }
      var i := 0;
      while i < |sys.g.children[n]|
        invariant Valid() && i <= |sys.g.children[n]|
        invariant CheckNode(sys, old(st), n, g, ignore) == CheckChildren(sys, st, n, i, g, ignore, tighten)
      {
        var c := sys.g.children[n][i];
        ChildBelow(sys.g, n, c);
        CheckSteps(sys, st, n, i, g, ignore, tighten);
        var childOk, childTighten := ChildCheckPerm(c, Derived(sys, n, c, g), ignore);
        tighten := tighten || childTighten;
        if !childOk {
          return false, tighten;
        }
        i := i + 1;
      }
      CheckSteps(sys, st, n, i, g, ignore, tighten);
      ok := true;
    }

    /** bdrv_check_update_perm */
    method CheckUpdatePerm(n: NodeId, g: Grant, ignore: set<EdgeId>) returns (ok: bool, tighten: bool)
      requires Valid() && n in sys.info
      modifies this`st
      ensures Check(ok, st, tighten) == CheckUpdate(sys, old(st), n, g, ignore)
      decreases Below(sys.g, n), 2
    {
      var joint := g;
      var todo := Users(sys.g, n);
      NoUsers(sys.g, st, n, ignore + todo);
      AllIsAll(g.shared);
      while todo != {}
        invariant todo <= Users(sys.g, n) && st == old(st)
        invariant NoConflict(sys.g, st, n, g, ignore + todo)
        invariant joint == Join(g, Cumulative(sys.g, st, n, ignore + todo))
        decreases todo
      {
        var c :| c in todo;
        var rest := todo - {c};
        if c !in ignore {
          if !(g.perm <= st[c].grant.shared) || !(st[c].grant.perm <= g.shared) {
            assert !NoConflict(sys.g, st, n, g, ignore);
            return false, true;
          }
          assert ignore + rest + {c} == ignore + todo;
          CumulativeSplit(sys.g, st, n, ignore + rest, c);
          joint := Grant(joint.perm + st[c].grant.perm, joint.shared * st[c].grant.shared);
        } else {
          assert ignore + rest == ignore + todo;
        }
        todo := rest;
      }
      assert ignore + todo == ignore;
      ok, tighten := CheckPerm(n, joint, ignore);
    }

    /** bdrv_child_check_perm */
    method ChildCheckPerm(e: EdgeId, g: Grant, ignore: set<EdgeId>) returns (ok: bool, tighten: bool)
      requires Valid() && e in sys.g.target
      modifies this`st
      ensures Check(ok, st, tighten) == CheckEdge(sys, old(st), e, g, ignore)
      decreases Below(sys.g, sys.g.target[e]), 3
    {
      hide CheckUpdate, CheckNode, Acyclic;
      ok, tighten := CheckUpdatePerm(sys.g.target[e], g, ignore + {e});
      if ok {
        if st[e].backup.None? {
          st := st[e := EdgeState(st[e].grant, Some(st[e].grant))];
        }
        st := st[e := EdgeState(g, st[e].backup)];
      }
    }

    // -------------------------------------------------------------- set

    /** bdrv_set_perm */
    method SetPerm(n: NodeId, g: Grant)
      requires Valid() && n in sys.info
      modifies this`st
      ensures st == SetNode(sys, old(st), n, g)
      decreases Below(sys.g, n), 1
    {
      hide SetNode, SetChildren, SetEdge, Acyclic, Derived;
      SetSteps(sys, st, n, 0, g);
      var i := 0;
      while i < |sys.g.children[n]|
        invariant Valid() && i <= |sys.g.children[n]|
        invariant SetNode(sys, old(st), n, g) == SetChildren(sys, st, n, i, g)
      {
        var c := sys.g.children[n][i];
        ChildBelow(sys.g, n, c);
        SetSteps(sys, st, n, i, g);
        ChildSetPerm(c, Derived(sys, n, c, g));
        i := i + 1;
      }
      SetSteps(sys, st, n, i, g);
    }

    /** bdrv_child_set_perm */
    method ChildSetPerm(e: EdgeId, g: Grant)
      requires Valid() && e in sys.g.target
      modifies this`st
      ensures st == SetEdge(sys, old(st), e, g)
      decreases Below(sys.g, sys.g.target[e]), 2
    {
      st := st[e := EdgeState(g, None)];
      var joint := GetCumulativePerm(sys.g.target[e], {});
      SetPerm(sys.g.target[e], joint);
    }

    // -------------------------------------------------------------- abort

    /** bdrv_abort_perm_update */
    method AbortPermUpdate(n: NodeId)
      requires Valid() && n in sys.info
      modifies this`st
      ensures st == AbortNode(sys, old(st), n)
      decreases Below(sys.g, n), 1
    {
      hide AbortNode, AbortChildren, AbortEdge, Acyclic;
      AbortSteps(sys, st, n, 0);
      var i := 0;
      while i < |sys.g.children[n]|
        invariant Valid() && i <= |sys.g.children[n]|
        invariant AbortNode(sys, old(st), n) == AbortChildren(sys, st, n, i)
      {
        ChildBelow(sys.g, n, sys.g.children[n][i]);
        AbortSteps(sys, st, n, i);
        ChildAbortPermUpdate(sys.g.children[n][i]);
        i := i + 1;
      }
      AbortSteps(sys, st, n, i);
    }

    /** bdrv_child_abort_perm_update */
    method ChildAbortPermUpdate(e: EdgeId)
      requires Valid() && e in sys.g.target
      modifies this`st
      ensures st == AbortEdge(sys, old(st), e)
      decreases Below(sys.g, sys.g.target[e]), 2
    {
      if st[e].backup.Some? {
        st := st[e := EdgeState(st[e].backup.value, None)];
      }
      assert st == old(st)[e := Reset(old(st)[e])];
      AbortPermUpdate(sys.g.target[e]);
    }

    // -------------------------------------------------------------- operations

    /** bdrv_child_try_set_perm; `error` is what the caller sees. */
    method ChildTrySetPerm(e: EdgeId, g: Grant) returns (error: bool)
      requires Valid() && e in sys.g.target
      modifies this`st
      ensures (Contents(), error) == TrySetPerm(old(Contents()), e, g)
    {
      var ok, tighten := ChildCheckPerm(e, g, {});
      if !ok {
        ChildAbortPermUpdate(e);
        return tighten;
      }
      ChildSetPerm(e, g);
      error := false;
    }

    /** bdrv_root_attach_child for the new edge e. */
    method RootAttachChild(e: EdgeId, n: NodeId, g: Grant, ctxOk: bool) returns (attached: bool)
      requires Valid() && n in sys.info && FreshEdge(sys.g, e)
      modifies this
      ensures (Contents(), attached) == RootAttach(old(Contents()), e, n, g, ctxOk)
    {
      var ok, _ := CheckUpdatePerm(n, g, {});
      if !ok {
        AbortPermUpdate(n);
        return false;
      }
      if !ctxOk {
        AbortPermUpdate(n);
        return false;
      }
      AddEdgeReady(sys, e, n);
      sys := AddEdge(sys, e, n);
      st := st[e := EdgeState(g, None)];
      var joint := GetCumulativePerm(n, {});
      SetPerm(n, joint);
      attached := true;
    }

    /** bdrv_attach_child for the new edge e from node p. */
    method AttachChildEdge(p: NodeId, e: EdgeId, n: NodeId, ctxOk: bool) returns (attached: bool)
      requires Valid() && n in sys.info && p in sys.info && sys.info[p].driver.Derives? && FreshEdge(sys.g, e)
      modifies this
      ensures (Contents(), attached) == AttachChild(old(Contents()), p, e, n, ctxOk)
    {
      var joint := GetCumulativePerm(p, {});
      attached := RootAttachChild(e, n, DerivedTo(sys, p, e, n, joint), ctxOk);
      if attached {
        sys := OwnEdge(sys, e, p);
      }
    }

    /** bdrv_detach_child; its assertion that nothing was tightened holds whenever the invariant does. */
    method DetachChild(e: EdgeId)
      requires Inv(Contents()) && e in sys.g.target
      modifies this
      ensures Contents() == Detach(old(Contents()), e) && Inv(Contents())
    {
      var n := sys.g.target[e];
      DetachKeepsInv(Contents(), e);
      RemoveEdgeKeepsInv(Contents(), e);
      sys := RemoveEdge(sys, e);
      st := st - {e};
      RecheckKeepsInv(Contents(), n);
      var joint := GetCumulativePerm(n, {});
      var ok, tighten := CheckPerm(n, joint, {});
      assert !tighten;
      if !ok {
        AbortPermUpdate(n);
      } else {
        SetPerm(n, joint);
      }
    }

    /**
     bdrv_replace_node_common: collect the parents of `from` that may move, check `to` for all of them
     at once, then move them one by one.
     */
    method ReplaceNodeCommon(from: NodeId, to: NodeId, stay: set<EdgeId>, frozen: set<EdgeId>, autoSkip: bool)
      returns (replaced: bool)
      requires Valid() && from in sys.info && to in sys.info
      modifies this
      ensures (Contents(), replaced) == ReplaceNode(old(Contents()), from, to, stay, frozen, autoSkip)
    {
      var refused, list, g := CollectParents(from, to, stay, frozen, autoSkip);
      if refused {
        return false;
      }
      var ok, _ := CheckUpdatePerm(to, g, list);
      if !ok {
        AbortPermUpdate(to);
        return false;
      }
      RedirectedReady(sys, list, to);
      MoveParents(list, to);
      var joint := GetCumulativePerm(to, {});
      SetPerm(to, joint);
      replaced := true;
    }

    /** Its first loop. */
    method CollectParents(from: NodeId, to: NodeId, stay: set<EdgeId>, frozen: set<EdgeId>, autoSkip: bool)
      returns (refused: bool, list: set<EdgeId>, g: Grant)
      requires Valid() && from in sys.info && to in sys.info
      ensures refused <==> Refused(sys.g, from, to, stay, frozen, autoSkip)
      ensures !refused ==> list == Moved(sys.g, from, to, stay) && g == MovedGrant(sys.g, st, from, list)
    {
      list, g := {}, Grant({}, ALL);
      var todo := Users(sys.g, from);
      NoUsers(sys.g, st, from, Users(sys.g, from) - list);
      while todo != {}
        invariant todo <= Users(sys.g, from)
        invariant forall c :: c in list <==> c in Moved(sys.g, from, to, stay) && c !in todo
        invariant forall c ::
                    c in Users(sys.g, from) && c !in todo ==>
                      if Movable(sys.g, stay, c, to) then c !in frozen else autoSkip
        invariant g == MovedGrant(sys.g, st, from, list)
        decreases todo
      {
        var c :| c in todo;
        todo := todo - {c};
        var update := ShouldUpdateChild(sys.g, c in stay, c, to);
        if !update {
          if !autoSkip {
            assert Refused(sys.g, from, to, stay, frozen, autoSkip);
            return true, list, g;
          }
        } else {
          if c in frozen {
            assert Refused(sys.g, from, to, stay, frozen, autoSkip);
            return true, list, g;
          }
          ghost var others := Users(sys.g, from) - (list + {c});
          assert others + {c} == Users(sys.g, from) - list;
          CumulativeSplit(sys.g, st, from, others, c);
          g := Join(st[c].grant, g);
          list := list + {c};
        }
      }
      assert list == Moved(sys.g, from, to, stay);
      refused := false;
    }

    /** Its second loop: bdrv_replace_child_noperm for every edge of the list. */
    method MoveParents(list: set<EdgeId>, to: NodeId)
      requires list <= sys.g.target.Keys
      modifies this`sys
      ensures sys == Redirected(old(sys), list, to)
    {
      var todo := list;
      assert sys.g.target == Redirect(sys.g, {}, to).target;
      while todo != {}
        invariant todo <= list && sys == Redirected(old(sys), list - todo, to)
        decreases todo
      {
        var c :| c in todo;
        sys := sys.(g := sys.g.(target := sys.g.target[c := to]));
        todo := todo - {c};
        assert sys.g.target == Redirect(old(sys).g, list - todo, to).target;
      }
      assert list - todo == list;
    }
  }
}
