/**
 Moving a part of the block graph to another AioContext (femu-ocssd/block.c, with the parent callbacks
 of blockjob.c and block/block-backend.c).  The recursion runs up and down the graph; the list of
 edges already visited makes it end and must not make it miss a node.
 */
module AioContexts {
  import opened BlockGraph

  type Context = nat
  type JobId = nat

  /**
   The parent behind an edge: a node, a block job that owns several edges, a block backend that may
   or may not change its context, or a parent without can_set_aio_ctx.
   */
  datatype Holder = NodeHolder(p: NodeId) | JobHolder(j: JobId) | BackendHolder(allow: bool) | FixedHolder

  datatype Net = Net(
    parents: map<NodeId, seq<EdgeId>>,
    children: map<NodeId, seq<EdgeId>>,
    nodes: map<JobId, seq<EdgeId>>,
    target: map<EdgeId, NodeId>,
    holder: map<EdgeId, Holder>)

  ghost predicate WellFormedNet(net: Net) {
    && net.children.Keys == net.parents.Keys && net.holder.Keys == net.target.Keys
    && (forall e :: e in net.target ==> KnownEdge(net, e))
    && (forall n, i :: n in net.parents && 0 <= i < |net.parents[n]| ==> PointsTo(net, net.parents[n][i], n))
    && (forall n, i ::
          n in net.children && 0 <= i < |net.children[n]| ==> HeldBy(net, net.children[n][i], NodeHolder(n)))
    && (forall j, i :: j in net.nodes && 0 <= i < |net.nodes[j]| ==> HeldBy(net, net.nodes[j][i], JobHolder(j)))
  }

  /** Every edge is listed by its node and by its holder. */
  predicate KnownEdge(net: Net, e: EdgeId)
    requires e in net.target && net.holder.Keys == net.target.Keys
  {
    && net.target[e] in net.parents && e in net.parents[net.target[e]]
    && match net.holder[e] {
         case NodeHolder(p) => p in net.children && e in net.children[p]
         case JobHolder(j) => j in net.nodes && e in net.nodes[j]
         case _ => true
       }
  }

  predicate PointsTo(net: Net, e: EdgeId, n: NodeId) {
    e in net.target && net.target[e] == n
  }

  predicate HeldBy(net: Net, e: EdgeId, h: Holder) {
    e in net.target && e in net.holder && net.holder[e] == h
  }

  /** Whether the parent behind an edge tolerates a change of context by itself. */
  predicate Permits(h: Holder) {
    match h
    case BackendHolder(allow) => allow
    case FixedHolder => false
    case _ => true
  }

  // ---------------------------------------------------------------- connected nodes

  /** Edge e is one of the edges of node n, as a child or as a parent edge. */
  predicate Touches(net: Net, n: NodeId, e: EdgeId) {
    PointsTo(net, e, n) || HeldBy(net, e, NodeHolder(n))
  }

  /** Edge e leads to node m: at its own end, at its holder, or through a job that holds it. */
  ghost predicate LeadsTo(net: Net, ignored: set<EdgeId>, e: EdgeId, m: NodeId) {
    || Touches(net, m, e)
    || (exists s :: s !in ignored && SameJob(net, e, s) && net.target[s] == m)
  }

  predicate SameJob(net: Net, e: EdgeId, s: EdgeId) {
    e in net.holder && s in net.holder && s in net.target && net.holder[e].JobHolder? && net.holder[s] == net.holder[e]
  }

  ghost predicate Adjacent(net: Net, ignored: set<EdgeId>, n: NodeId, m: NodeId) {
    exists e :: e !in ignored && Touches(net, n, e) && LeadsTo(net, ignored, e, m)
  }

  ghost predicate Walk(net: Net, ignored: set<EdgeId>, p: seq<NodeId>, n: NodeId, m: NodeId) {
    && |p| > 0 && p[0] == n && p[|p| - 1] == m
    && (forall i :: 0 <= i < |p| - 1 ==> Adjacent(net, ignored, p[i], p[i + 1]))
  }

  /** m is connected to n without the ignored edges. */
  ghost predicate Connected(net: Net, ignored: set<EdgeId>, n: NodeId, m: NodeId) {
    exists p :: Walk(net, ignored, p, n, m)
  }

  ghost function Component(net: Net, ignored: set<EdgeId>, n: NodeId): set<NodeId> {
    set m | m in net.parents && Connected(net, ignored, n, m)
  }

  ghost predicate Closed(net: Net, ignored: set<EdgeId>, c: set<NodeId>) {
    forall n, m :: n in c && m in net.parents && Adjacent(net, ignored, n, m) ==> m in c
  }

  lemma {:induction false} ComponentClosed(net: Net, ignored: set<EdgeId>, n: NodeId)
    requires n in net.parents
    ensures n in Component(net, ignored, n) && Closed(net, ignored, Component(net, ignored, n))
  {
    assert Walk(net, ignored, [n], n, n);
    forall x, m | x in Component(net, ignored, n) && m in net.parents && Adjacent(net, ignored, x, m)
      ensures m in Component(net, ignored, n)
    {
      var p :| Walk(net, ignored, p, n, x);
      var q := p + [m];
      forall i | 0 <= i < |q| - 1
        ensures Adjacent(net, ignored, q[i], q[i + 1])
      {
        if i < |p| - 1 {
          assert Adjacent(net, ignored, p[i], p[i + 1]);
        }
      }
      assert Walk(net, ignored, q, n, m);
    }
  }

  lemma {:induction false} WalkStays(net: Net, ignored: set<EdgeId>, done: set<NodeId>, p: seq<NodeId>, k: nat)
    requires k < |p| && p[0] in done
    requires forall i :: 0 <= i < |p| - 1 ==> Adjacent(net, ignored, p[i], p[i + 1])
    requires forall n, m :: n in done && Adjacent(net, ignored, n, m) ==> m in done
    ensures p[k] in done
  {
    if k > 0 {
      WalkStays(net, ignored, done, p, k - 1);
      assert Adjacent(net, ignored, p[k - 1], p[k - 1 + 1]);
    }
  }

  // ---------------------------------------------------------------- what the visited edges guarantee

  /**
   Visited edge e is dealt with: the nodes at its ends are in `known`, and if a job holds it then all
   edges of the job have been visited, unless the job is being worked on.
   */
  ghost predicate Handled(net: Net, ignore: set<EdgeId>, known: set<NodeId>, busy: set<JobId>, e: EdgeId)
    requires e in net.target && e in net.holder
  {
    && net.target[e] in known
    && match net.holder[e] {
         case NodeHolder(p) => p in known
         case JobHolder(j) => j in busy || forall s :: SameJob(net, e, s) ==> s in ignore
         case _ => true
       }
  }

  /** The state of a traversal: finished nodes, nodes being worked on, jobs being worked on. */
  ghost predicate Frontier(net: Net, ignored: set<EdgeId>, c: set<NodeId>, ignore: set<EdgeId>,
                           done: set<NodeId>, open: set<NodeId>, busy: set<JobId>) {
    && WellFormedNet(net) && Closed(net, ignored, c) && c <= net.parents.Keys
    && ignored <= ignore && done <= c && open <= c
    && (forall e :: e in ignore && e !in ignored && e in net.target ==> Handled(net, ignore, done + open, busy, e))
    && (forall n, e :: n in done && Touches(net, n, e) ==> e in ignore)
  }

  ghost predicate VisitedUpTo(s: seq<EdgeId>, i: nat, ignore: set<EdgeId>)
    requires i <= |s|
  {
    forall k :: 0 <= k < i ==> s[k] in ignore
  }

  lemma {:induction false} VisitedMore(s: seq<EdgeId>, i: nat, ignore: set<EdgeId>, later: set<EdgeId>)
    requires i <= |s| && VisitedUpTo(s, i, ignore) && ignore <= later
    ensures VisitedUpTo(s, i, later)
    ensures i < |s| && s[i] in later ==> VisitedUpTo(s, i + 1, later)
  {
  }

  /** When nothing is open any more, everything connected to a finished node is finished. */
  lemma {:induction false} FrontierCloses(net: Net, ignored: set<EdgeId>, c: set<NodeId>, ignore: set<EdgeId>,
                                          done: set<NodeId>, n: NodeId)
    requires Frontier(net, ignored, c, ignore, done, {}, {}) && n in done
    ensures Component(net, ignored, n) <= done
  {
    forall x, m | x in done && Adjacent(net, ignored, x, m)
      ensures m in done
    {
      var e :| e !in ignored && Touches(net, x, e) && LeadsTo(net, ignored, e, m);
      assert Handled(net, ignore, done + {}, {}, e);
      if !Touches(net, m, e) {
        var s :| s !in ignored && SameJob(net, e, s) && net.target[s] == m;
        assert Handled(net, ignore, done + {}, {}, s);
      }
    }
    forall m | m in Component(net, ignored, n)
      ensures m in done
    {
      var p :| Walk(net, ignored, p, n, m);
      WalkStays(net, ignored, done, p, |p| - 1);
    }
  }

  /** Visiting an edge of an open node whose other end is then opened. */
  lemma {:induction false} Visit(net: Net, ignored: set<EdgeId>, c: set<NodeId>, ignore: set<EdgeId>, done: set<NodeId>,
                                 open: set<NodeId>, busy: set<JobId>, n: NodeId, e: EdgeId, m: NodeId)
    requires Frontier(net, ignored, c, ignore, done, open, busy) && n in open && e !in ignored && Touches(net, n, e)
    requires Touches(net, m, e) && m in net.parents
    requires !net.holder[e].JobHolder? && (net.holder[e].NodeHolder? ==> net.holder[e].p in {n, m})
             && net.target[e] in {n, m}
    ensures Frontier(net, ignored, c, ignore + {e}, done, open + {m}, busy)
  {
    assert LeadsTo(net, ignored, e, m) && Adjacent(net, ignored, n, m);
    forall f | f in ignore + {e} && f !in ignored && f in net.target
      ensures Handled(net, ignore + {e}, done + (open + {m}), busy, f)
    {
      if f != e {
        assert Handled(net, ignore, done + open, busy, f);
      }
    }
  }

  /** Visiting an edge that a job holds: the job becomes busy. */
  lemma {:induction false} VisitJob(net: Net, ignored: set<EdgeId>, c: set<NodeId>, ignore: set<EdgeId>,
                                    done: set<NodeId>, open: set<NodeId>, busy: set<JobId>, n: NodeId, e: EdgeId)
    requires Frontier(net, ignored, c, ignore, done, open, busy) && n in open && e !in ignored && PointsTo(net, e, n)
    requires net.holder[e].JobHolder?
    ensures Frontier(net, ignored, c, ignore + {e}, done, open, busy + {net.holder[e].j})
  {
    forall f | f in ignore + {e} && f !in ignored && f in net.target
      ensures Handled(net, ignore + {e}, done + open, busy + {net.holder[e].j}, f)
    {
      if f != e {
        assert Handled(net, ignore, done + open, busy, f);
      }
    }
  }

  /** A busy job visits another of its edges. */
  lemma {:induction false} VisitSibling(net: Net, ignored: set<EdgeId>, c: set<NodeId>, ignore: set<EdgeId>,
                                        done: set<NodeId>, open: set<NodeId>, busy: set<JobId>, n: NodeId, e: EdgeId,
                                        s: EdgeId)
    requires Frontier(net, ignored, c, ignore, done, open, busy) && n in c && e !in ignored && PointsTo(net, e, n)
    requires SameJob(net, e, s) && s !in ignored && net.holder[s].j in busy
    ensures net.target[s] in c && Frontier(net, ignored, c, ignore + {s}, done, open + {net.target[s]}, busy)
  {
    var m := net.target[s];
    assert KnownEdge(net, s);
    assert LeadsTo(net, ignored, e, m) && Adjacent(net, ignored, n, m);
    forall f | f in ignore + {s} && f !in ignored && f in net.target
      ensures Handled(net, ignore + {s}, done + (open + {m}), busy, f)
    {
      if f != s {
        assert Handled(net, ignore, done + open, busy, f);
      }
    }
  }

  /** A job all of whose edges have been visited is no longer busy. */
  lemma {:induction false} JobDone(net: Net, ignored: set<EdgeId>, c: set<NodeId>, ignore: set<EdgeId>,
                                   done: set<NodeId>, open: set<NodeId>, busy: set<JobId>, j: JobId)
    requires Frontier(net, ignored, c, ignore, done, open, busy + {j}) && j in net.nodes
    requires VisitedUpTo(net.nodes[j], |net.nodes[j]|, ignore)
    ensures Frontier(net, ignored, c, ignore, done, open, busy)
  {
    forall f | f in ignore && f !in ignored && f in net.target
      ensures Handled(net, ignore, done + open, busy, f)
    {
      assert Handled(net, ignore, done + open, busy + {j}, f);
      if net.holder[f] == JobHolder(j) {
        forall s | SameJob(net, f, s)
          ensures s in ignore
        {
          assert KnownEdge(net, s);
        }
      }
    }
  }

  /** An open node all of whose edges have been visited is finished. */
  lemma {:induction false} NodeDone(net: Net, ignored: set<EdgeId>, c: set<NodeId>, ignore: set<EdgeId>,
                                    done: set<NodeId>, open: set<NodeId>, busy: set<JobId>, n: NodeId)
    requires Frontier(net, ignored, c, ignore, done, open + {n}, busy) && n in net.parents
    requires VisitedUpTo(net.parents[n], |net.parents[n]|, ignore)
             && VisitedUpTo(net.children[n], |net.children[n]|, ignore)
    ensures Frontier(net, ignored, c, ignore, done + {n}, open, busy)
  {
    assert done + (open + {n}) == (done + {n}) + open;
    forall e | Touches(net, n, e)
      ensures e in ignore
    {
      assert KnownEdge(net, e);
    }
  }

  /** Visiting an edge whose parent is neither a node nor a job. */
  lemma {:induction false} VisitUser(net: Net, ignored: set<EdgeId>, c: set<NodeId>, ignore: set<EdgeId>,
                                     done: set<NodeId>, open: set<NodeId>, busy: set<JobId>, n: NodeId, e: EdgeId)
    requires Frontier(net, ignored, c, ignore, done, open, busy) && n in open && e !in ignored && PointsTo(net, e, n)
    requires !net.holder[e].JobHolder? && !net.holder[e].NodeHolder?
    ensures Frontier(net, ignored, c, ignore + {e}, done, open, busy)
  {
    Visit(net, ignored, c, ignore, done, open, busy, n, e, n);
    assert open + {n} == open;
  }

  // ---------------------------------------------------------------- permissions of the parents

  /** Every visited edge has a parent that tolerates the change. */
  ghost predicate AllPermit(net: Net, ignored: set<EdgeId>, ignore: set<EdgeId>) {
    forall e :: e in ignore && e !in ignored && e in net.holder ==> Permits(net.holder[e])
  }

  /** Some parent of a node in c does not. */
  ghost predicate Forbidden(net: Net, ignored: set<EdgeId>, c: set<NodeId>) {
    exists e :: e !in ignored && RefusesAt(net, c, e)
  }

  predicate RefusesAt(net: Net, c: set<NodeId>, e: EdgeId) {
    e in net.target && net.target[e] in c && e in net.holder && !Permits(net.holder[e])
  }

  // ---------------------------------------------------------------- parents that are not nodes

  /** The contexts of block backends, by their edge, and of jobs. */
  datatype Users = Users(backend: map<EdgeId, Context>, job: map<JobId, Context>)

  ghost predicate KnownUsers(net: Net, u: Users) {
    && (forall e :: e in net.holder && net.holder[e].BackendHolder? ==> e in u.backend)
    && (forall j :: j in net.nodes ==> j in u.job)
  }

  predicate IsVisited(ignored: set<EdgeId>, ignore: set<EdgeId>, e: EdgeId) {
    e in ignore && e !in ignored
  }

  /** Some edge of job j has been visited. */
  ghost predicate JobVisited(net: Net, ignored: set<EdgeId>, ignore: set<EdgeId>, j: JobId) {
    exists e :: IsVisited(ignored, ignore, e) && HeldBy(net, e, JobHolder(j))
  }

  /**
   Backends whose edge has been visited have moved, and so have jobs of which an edge has, unless they are being worked
   on.
   */
  ghost predicate UsersMoved(net: Net, ignored: set<EdgeId>, ignore: set<EdgeId>, busy: set<JobId>, to: Context,
                             u: Users, was: Users) {
    && KnownUsers(net, u) && u.backend.Keys == was.backend.Keys && u.job.Keys == was.job.Keys
    && (forall e :: e in u.backend ==>
          u.backend[e] ==
            if IsVisited(ignored, ignore, e) && e in net.holder && net.holder[e].BackendHolder? then
              to
            else was.backend[e])
    && (forall j :: j in u.job && j !in busy ==>
          u.job[j] == if JobVisited(net, ignored, ignore, j) then to else was.job[j])
  }

  /** Edges of nodes have no bearing on the other parents. */
  lemma {:induction false} NodeEdgeVisited(net: Net, ignored: set<EdgeId>, ignore: set<EdgeId>, busy: set<JobId>,
                                           to: Context, u: Users, was: Users, e: EdgeId)
    requires UsersMoved(net, ignored, ignore, busy, to, u, was) && e in net.holder && net.holder[e].NodeHolder?
    ensures UsersMoved(net, ignored, ignore + {e}, busy, to, u, was)
  {
    forall j | j in u.job
      ensures JobVisited(net, ignored, ignore + {e}, j) <==> JobVisited(net, ignored, ignore, j)
    {
      JobVisitedMore(net, ignored, ignore, e, j);
    }
  }

  lemma {:induction false} JobVisitedMore(net: Net, ignored: set<EdgeId>, ignore: set<EdgeId>, e: EdgeId, j: JobId)
    requires e in net.holder && net.holder[e] != JobHolder(j)
    ensures JobVisited(net, ignored, ignore + {e}, j) <==> JobVisited(net, ignored, ignore, j)
  {
    if JobVisited(net, ignored, ignore + {e}, j) {
      var f :| IsVisited(ignored, ignore + {e}, f) && HeldBy(net, f, JobHolder(j));
      assert IsVisited(ignored, ignore, f);
    }
    if JobVisited(net, ignored, ignore, j) {
      var f :| IsVisited(ignored, ignore, f) && HeldBy(net, f, JobHolder(j));
      assert IsVisited(ignored, ignore + {e}, f);
    }
  }

  /** blk_root_set_aio_ctx */
  lemma {:induction false} BackendMoved(net: Net, ignored: set<EdgeId>, ignore: set<EdgeId>, busy: set<JobId>,
                                        to: Context, u: Users, was: Users, e: EdgeId)
    requires UsersMoved(net, ignored, ignore, busy, to, u, was) && e in net.holder && net.holder[e].BackendHolder?
             && e !in ignored
    ensures UsersMoved(net, ignored, ignore + {e}, busy, to, u.(backend := u.backend[e := to]), was)
  {
    forall j | j in u.job
      ensures JobVisited(net, ignored, ignore + {e}, j) <==> JobVisited(net, ignored, ignore, j)
    {
      JobVisitedMore(net, ignored, ignore, e, j);
    }
  }

  /** An edge of a job that is being worked on. */
  lemma {:induction false} JobEdgeVisited(net: Net, ignored: set<EdgeId>, ignore: set<EdgeId>, busy: set<JobId>,
                                          to: Context, u: Users, was: Users, e: EdgeId, j: JobId)
    requires UsersMoved(net, ignored, ignore, busy, to, u, was) && e in net.holder && net.holder[e] == JobHolder(j)
    ensures UsersMoved(net, ignored, ignore + {e}, busy + {j}, to, u, was)
  {
    forall k | k in u.job && k != j
      ensures JobVisited(net, ignored, ignore + {e}, k) <==> JobVisited(net, ignored, ignore, k)
    {
      JobVisitedMore(net, ignored, ignore, e, k);
    }
  }

  /** The end of child_job_set_aio_ctx. */
  lemma {:induction false} JobMoved(net: Net, ignored: set<EdgeId>, ignore: set<EdgeId>, busy: set<JobId>, to: Context,
                                    u: Users, was: Users, e: EdgeId, j: JobId)
    requires UsersMoved(net, ignored, ignore, busy + {j}, to, u, was) && j in u.job && IsVisited(ignored, ignore, e)
             && HeldBy(net, e, JobHolder(j))
    ensures UsersMoved(net, ignored, ignore, busy, to, u.(job := u.job[j := to]), was)
  {
    assert JobVisited(net, ignored, ignore, j);
  }

  /** Edge e is one of those that the move of the component covers. */
  predicate Covers(net: Net, ignored: set<EdgeId>, c: set<NodeId>, e: EdgeId) {
    e !in ignored && e in net.target && net.target[e] in c
  }

  /** At the end the edges of the component, and no others, have been visited. */
  lemma {:induction false} VisitedIsCovered(net: Net, ignored: set<EdgeId>, c: set<NodeId>, ignore: set<EdgeId>,
                                            done: set<NodeId>, e: EdgeId)
    requires Frontier(net, ignored, c, ignore, done, {}, {}) && c <= done && e in net.target
    ensures IsVisited(ignored, ignore, e) <==> Covers(net, ignored, c, e)
  {
    assert Touches(net, net.target[e], e);
    if IsVisited(ignored, ignore, e) {
      assert Handled(net, ignore, done + {}, {}, e);
    }
  }

  /** Where the other parents are after the move. */
  ghost predicate UsersEnd(net: Net, ignored: set<EdgeId>, c: set<NodeId>, to: Context, u: Users, was: Users) {
    && u.backend.Keys == was.backend.Keys && u.job.Keys == was.job.Keys
    && (forall e :: e in u.backend ==>
          u.backend[e] ==
            if Covers(net, ignored, c, e) && e in net.holder && net.holder[e].BackendHolder? then
              to
            else was.backend[e])
    && (forall j :: j in u.job ==> u.job[j] == if JobCovered(net, ignored, c, j) then to else was.job[j])
  }

  ghost predicate JobCovered(net: Net, ignored: set<EdgeId>, c: set<NodeId>, j: JobId) {
    exists e :: Covers(net, ignored, c, e) && HeldBy(net, e, JobHolder(j))
  }

  lemma {:induction false} UsersAtEnd(net: Net, ignored: set<EdgeId>, c: set<NodeId>, ignore: set<EdgeId>,
                                      done: set<NodeId>, to: Context, u: Users, was: Users)
    requires Frontier(net, ignored, c, ignore, done, {}, {}) && c <= done
             && UsersMoved(net, ignored, ignore, {}, to, u, was)
    ensures UsersEnd(net, ignored, c, to, u, was)
  {
    forall e | e in net.target
      ensures IsVisited(ignored, ignore, e) <==> Covers(net, ignored, c, e)
    {
      VisitedIsCovered(net, ignored, c, ignore, done, e);
    }
    forall j | j in u.job
      ensures JobVisited(net, ignored, ignore, j) <==> JobCovered(net, ignored, c, j)
    {
      if JobVisited(net, ignored, ignore, j) {
        var e :| IsVisited(ignored, ignore, e) && HeldBy(net, e, JobHolder(j));
        assert Covers(net, ignored, c, e);
      }
      if JobCovered(net, ignored, c, j) {
        var e :| Covers(net, ignored, c, e) && HeldBy(net, e, JobHolder(j));
        assert IsVisited(ignored, ignore, e);
      }
    }
    assert net.holder.Keys == net.target.Keys;
  }

  class AioLayer {
    const net: Net
    var ctx: map<NodeId, Context>
    var users: Users
    var ignore: set<EdgeId>

    constructor (net: Net, ctx: map<NodeId, Context>, users: Users)
      ensures this.net == net && this.ctx == ctx && this.users == users
    {
      this.net := net;
      this.ctx := ctx;
      this.users := users;
      this.ignore := {};
    }

    // -------------------------------------------------------------- asking

    ghost predicate Asking(to: Context, ignored: set<EdgeId>, c: set<NodeId>, done: set<NodeId>, open: set<NodeId>,
                           busy: set<JobId>)
      reads this
    {
      && Frontier(net, ignored, c, ignore, done, open, busy) && AllPermit(net, ignored, ignore)
      && ctx.Keys == net.parents.Keys && forall m :: m in c ==> ctx[m] != to
    }

    /** bdrv_can_set_aio_context */
    method CanSet(n: NodeId, to: Context, ghost ignored: set<EdgeId>, ghost c: set<NodeId>, ghost done: set<NodeId>,
                  ghost open: set<NodeId>, ghost busy: set<JobId>) returns (ok: bool, ghost finished: set<NodeId>)
      requires n in c && Asking(to, ignored, c, done, open + {n}, busy)
      modifies this`ignore
      ensures old(ignore) <= ignore
      ensures ok ==> Asking(to, ignored, c, finished, open, busy) && done + {n} <= finished
      ensures !ok ==> Forbidden(net, ignored, c)
      decreases net.target.Keys - ignore, 1
    {
      finished := done;
      if ctx[n] == to {
        return true, done;
      }
      var i := 0;
      while i < |net.parents[n]|
        invariant i <= |net.parents[n]| && old(ignore) <= ignore && done <= finished
        invariant Asking(to, ignored, c, finished, open + {n}, busy)
        invariant VisitedUpTo(net.parents[n], i, ignore)
      {
        ghost var before := ignore;
        ok, finished := ParentCanSet(n, net.parents[n][i], to, ignored, c, finished, open + {n}, busy);
        if !ok {
          return;
        }
        VisitedMore(net.parents[n], i, before, ignore);
        i := i + 1;
      }
      i := 0;
      while i < |net.children[n]|
        invariant i <= |net.children[n]| && old(ignore) <= ignore && done <= finished
        invariant Asking(to, ignored, c, finished, open + {n}, busy)
        invariant VisitedUpTo(net.parents[n], |net.parents[n]|, ignore)
        invariant VisitedUpTo(net.children[n], i, ignore)
      {
        var e := net.children[n][i];
        assert HeldBy(net, e, NodeHolder(n)) && KnownEdge(net, e);
        if e !in ignore {
          Visit(net, ignored, c, ignore, finished, open + {n}, busy, n, e, net.target[e]);
        }
        ghost var before := ignore;
        ok, finished := ChildCanSet(e, to, ignored, c, finished, open + {n}, busy);
        if !ok {
          return;
        }
        VisitedMore(net.parents[n], |net.parents[n]|, before, ignore);
        VisitedMore(net.children[n], i, before, ignore);
        i := i + 1;
      }
      NodeDone(net, ignored, c, ignore, finished, open, busy, n);
      ok, finished := true, finished + {n};
    }

    /** bdrv_child_can_set_aio_context */
    method ChildCanSet(e: EdgeId, to: Context, ghost ignored: set<EdgeId>, ghost c: set<NodeId>,
                       ghost done: set<NodeId>, ghost open: set<NodeId>, ghost busy: set<JobId>)
      returns (ok: bool, ghost finished: set<NodeId>)
      requires Asking(to, ignored, c, done, open, busy) && e in net.target
      requires e !in ignore ==>
                 Permits(net.holder[e]) && Frontier(net, ignored, c, ignore + {e}, done, open + {net.target[e]}, busy)
      modifies this`ignore
      ensures old(ignore) + {e} <= ignore
      ensures ok ==> Asking(to, ignored, c, finished, open, busy) && done <= finished
      ensures !ok ==> Forbidden(net, ignored, c)
      decreases net.target.Keys - ignore, 0
    {
      if e in ignore {
        return true, done;
      }
      ignore := ignore + {e};
      ok, finished := CanSet(net.target[e], to, ignored, c, done, open, busy);
    }

    /** bdrv_parent_can_set_aio_context, with the callbacks of the possible parents. */
    method ParentCanSet(n: NodeId, e: EdgeId, to: Context, ghost ignored: set<EdgeId>, ghost c: set<NodeId>,
                        ghost done: set<NodeId>, ghost open: set<NodeId>, ghost busy: set<JobId>)
      returns (ok: bool, ghost finished: set<NodeId>)
      requires n in open && n in c && PointsTo(net, e, n) && Asking(to, ignored, c, done, open, busy)
      modifies this`ignore
      ensures old(ignore) + {e} <= ignore
      ensures ok ==> Asking(to, ignored, c, finished, open, busy) && done <= finished
      ensures !ok ==> Forbidden(net, ignored, c)
      decreases net.target.Keys - ignore, 0
    {
      if e in ignore {
        return true, done;
      }
      match net.holder[e]
      case NodeHolder(p) =>
        assert KnownEdge(net, e);
        Visit(net, ignored, c, ignore, done, open, busy, n, e, p);
        ignore := ignore + {e};
        ok, finished := CanSet(p, to, ignored, c, done, open, busy);
      case JobHolder(j) =>
        assert KnownEdge(net, e);
        VisitJob(net, ignored, c, ignore, done, open, busy, n, e);
        ignore := ignore + {e};
        ok, finished := JobCanSet(n, e, j, to, ignored, c, done, open, busy);
      case BackendHolder(allow) =>
        VisitUser(net, ignored, c, ignore, done, open, busy, n, e);
        ignore := ignore + {e};
        assert !allow ==> RefusesAt(net, c, e);
        ok, finished := allow, done;
      case FixedHolder =>
        ignore := ignore + {e};
        assert RefusesAt(net, c, e);
        ok, finished := false, done;
    }

    /** child_job_can_set_aio_ctx */
    method JobCanSet(n: NodeId, e: EdgeId, j: JobId, to: Context, ghost ignored: set<EdgeId>, ghost c: set<NodeId>,
                     ghost done: set<NodeId>, ghost open: set<NodeId>, ghost busy: set<JobId>)
      returns (ok: bool, ghost finished: set<NodeId>)
      requires n in c && PointsTo(net, e, n) && e !in ignored && HeldBy(net, e, JobHolder(j)) && j in net.nodes
      requires Asking(to, ignored, c, done, open, busy + {j})
      modifies this`ignore
      ensures old(ignore) <= ignore
      ensures ok ==> Asking(to, ignored, c, finished, open, busy) && done <= finished
      ensures !ok ==> Forbidden(net, ignored, c)
      decreases net.target.Keys - ignore, 1
    {
      finished := done;
      var i := 0;
      while i < |net.nodes[j]|
        invariant i <= |net.nodes[j]| && old(ignore) <= ignore && done <= finished
        invariant Asking(to, ignored, c, finished, open, busy + {j})
        invariant VisitedUpTo(net.nodes[j], i, ignore)
      {
        var s := net.nodes[j][i];
        assert HeldBy(net, s, JobHolder(j));
        if s !in ignore {
          VisitSibling(net, ignored, c, ignore, finished, open, busy + {j}, n, e, s);
        }
        ghost var before := ignore;
        ok, finished := ChildCanSet(s, to, ignored, c, finished, open, busy + {j});
        if !ok {
          return;
        }
        VisitedMore(net.nodes[j], i, before, ignore);
        i := i + 1;
      }
      JobDone(net, ignored, c, ignore, finished, open, busy, j);
      ok := true;
    }

    // -------------------------------------------------------------- moving

    /** The nodes of c that have been moved are exactly the finished ones; others are as in `was`. */
    ghost predicate Moving(to: Context, ignored: set<EdgeId>, c: set<NodeId>, done: set<NodeId>, open: set<NodeId>,
                           busy: set<JobId>, was: map<NodeId, Context>)
      reads this
    {
      && Frontier(net, ignored, c, ignore, done, open, busy) && !Forbidden(net, ignored, c)
      && ctx.Keys == net.parents.Keys && was.Keys == ctx.Keys
      && (forall m :: m in c ==> (ctx[m] == to <==> m in done))
      && (forall m :: m in ctx && m !in done ==> ctx[m] == was[m])
    }

    /** bdrv_set_aio_context_ignore */
    method SetIgnore(n: NodeId, to: Context, ghost ignored: set<EdgeId>, ghost c: set<NodeId>, ghost done: set<NodeId>,
                     ghost open: set<NodeId>, ghost busy: set<JobId>, ghost was: map<NodeId, Context>,
                     ghost wasUsers: Users)
      returns (ghost finished: set<NodeId>)
      requires n in c && Moving(to, ignored, c, done, open + {n}, busy, was)
               && UsersMoved(net, ignored, ignore, busy, to, users, wasUsers)
      modifies this`ignore, this`ctx, this`users
      ensures old(ignore) <= ignore
      ensures UsersMoved(net, ignored, ignore, busy, to, users, wasUsers)
      ensures Moving(to, ignored, c, finished, open, busy, was) && done + {n} <= finished
      decreases net.target.Keys - ignore, 1
    {
      hide UsersMoved, Moving, VisitedUpTo;
      MovingNode(n, to, ignored, c, done, open, busy, was);
      finished := done;
      if ctx[n] == to {
        return;
      }
      finished := SetChildren(n, to, ignored, c, done, open + {n}, busy, was, wasUsers);
      ghost var before := ignore;
      finished := SetParents(n, to, ignored, c, finished, open + {n}, busy, was, wasUsers);
      VisitedMore(net.children[n], |net.children[n]|, before, ignore);
      finished := Switch(n, to, ignored, c, finished, open, busy, was);
    }

    lemma {:induction false} MovingNode(n: NodeId, to: Context, ignored: set<EdgeId>, c: set<NodeId>, done: set<NodeId>,
                                        open: set<NodeId>, busy: set<JobId>, was: map<NodeId, Context>)
      requires n in c && Moving(to, ignored, c, done, open + {n}, busy, was)
      ensures n in ctx && n in net.parents && n in net.children
      ensures ctx[n] == to ==> n in done && Moving(to, ignored, c, done, open, busy, was)
    {
      if ctx[n] == to {
        assert done + (open + {n}) == done + open;
      }
    }

    /** bdrv_detach_aio_context and bdrv_attach_aio_context */
    method Switch(n: NodeId, to: Context, ghost ignored: set<EdgeId>, ghost c: set<NodeId>, ghost done: set<NodeId>,
                  ghost open: set<NodeId>, ghost busy: set<JobId>, ghost was: map<NodeId, Context>)
      returns (ghost finished: set<NodeId>)
      requires n in c && n in net.parents && n in net.children && Moving(to, ignored, c, done, open + {n}, busy, was)
      requires VisitedUpTo(net.parents[n], |net.parents[n]|, ignore)
               && VisitedUpTo(net.children[n], |net.children[n]|, ignore)
      modifies this`ctx
      ensures Moving(to, ignored, c, finished, open, busy, was) && finished == done + {n}
    {
      hide Frontier, VisitedUpTo;
      NodeDone(net, ignored, c, ignore, done, open, busy, n);
      ctx := ctx[n := to];
      finished := done + {n};
    }

    /** Its loop over the children. */
    method SetChildren(n: NodeId, to: Context, ghost ignored: set<EdgeId>, ghost c: set<NodeId>,
                       ghost done: set<NodeId>, ghost open: set<NodeId>, ghost busy: set<JobId>,
                       ghost was: map<NodeId, Context>, ghost wasUsers: Users)
      returns (ghost finished: set<NodeId>)
      requires n in c && n in open && Moving(to, ignored, c, done, open, busy, was)
               && UsersMoved(net, ignored, ignore, busy, to, users, wasUsers)
      modifies this`ignore, this`ctx, this`users
      ensures old(ignore) <= ignore && VisitedUpTo(net.children[n], |net.children[n]|, ignore)
      ensures UsersMoved(net, ignored, ignore, busy, to, users, wasUsers)
      ensures Moving(to, ignored, c, finished, open, busy, was) && done <= finished
      decreases net.target.Keys - ignore, 0, 1
    {
      hide UsersMoved;
      finished := done;
      var i := 0;
      while i < |net.children[n]|
        invariant i <= |net.children[n]| && old(ignore) <= ignore && done <= finished
        invariant Moving(to, ignored, c, finished, open, busy, was)
                  && UsersMoved(net, ignored, ignore, busy, to, users, wasUsers)
        invariant VisitedUpTo(net.children[n], i, ignore)
      {
        var e := net.children[n][i];
        ghost var before := ignore;
        if e !in ignore {
          finished := ChildSet(n, e, to, ignored, c, finished, open, busy, was, wasUsers);
        }
        VisitedMore(net.children[n], i, before, ignore);
        i := i + 1;
      }
    }

    /** Its loop over the parents. */
    method SetParents(n: NodeId, to: Context, ghost ignored: set<EdgeId>, ghost c: set<NodeId>, ghost done: set<NodeId>,
                      ghost open: set<NodeId>, ghost busy: set<JobId>, ghost was: map<NodeId, Context>,
                      ghost wasUsers: Users)
      returns (ghost finished: set<NodeId>)
      requires n in c && n in open && Moving(to, ignored, c, done, open, busy, was)
               && UsersMoved(net, ignored, ignore, busy, to, users, wasUsers)
      modifies this`ignore, this`ctx, this`users
      ensures old(ignore) <= ignore && VisitedUpTo(net.parents[n], |net.parents[n]|, ignore)
      ensures UsersMoved(net, ignored, ignore, busy, to, users, wasUsers)
      ensures Moving(to, ignored, c, finished, open, busy, was) && done <= finished
      decreases net.target.Keys - ignore, 0, 1
    {
      hide UsersMoved;
      finished := done;
      var i := 0;
      while i < |net.parents[n]|
        invariant i <= |net.parents[n]| && old(ignore) <= ignore && done <= finished
        invariant Moving(to, ignored, c, finished, open, busy, was)
                  && UsersMoved(net, ignored, ignore, busy, to, users, wasUsers)
        invariant VisitedUpTo(net.parents[n], i, ignore)
      {
        var e := net.parents[n][i];
        ghost var before := ignore;
        if e !in ignore {
          finished := ParentSet(n, e, to, ignored, c, finished, open, busy, was, wasUsers);
        }
        VisitedMore(net.parents[n], i, before, ignore);
        i := i + 1;
      }
    }

    /** One round of its loop over the children. */
    method ChildSet(n: NodeId, e: EdgeId, to: Context, ghost ignored: set<EdgeId>, ghost c: set<NodeId>,
                    ghost done: set<NodeId>, ghost open: set<NodeId>, ghost busy: set<JobId>,
                    ghost was: map<NodeId, Context>, ghost wasUsers: Users)
      returns (ghost finished: set<NodeId>)
      requires n in open && HeldBy(net, e, NodeHolder(n)) && e !in ignore
               && Moving(to, ignored, c, done, open, busy, was)
      requires UsersMoved(net, ignored, ignore, busy, to, users, wasUsers)
      modifies this`ignore, this`ctx, this`users
      ensures old(ignore) + {e} <= ignore
      ensures UsersMoved(net, ignored, ignore, busy, to, users, wasUsers)
      ensures Moving(to, ignored, c, finished, open, busy, was) && done <= finished
      decreases net.target.Keys - ignore, 0, 0
    {
      hide UsersMoved;
      assert KnownEdge(net, e);
      Visit(net, ignored, c, ignore, done, open, busy, n, e, net.target[e]);
      NodeEdgeVisited(net, ignored, ignore, busy, to, users, wasUsers, e);
      ignore := ignore + {e};
      finished := SetIgnore(net.target[e], to, ignored, c, done, open, busy, was, wasUsers);
    }

    /** The set_aio_ctx callback of the parent behind edge e, which exists. */
    method ParentSet(n: NodeId, e: EdgeId, to: Context, ghost ignored: set<EdgeId>, ghost c: set<NodeId>,
                     ghost done: set<NodeId>, ghost open: set<NodeId>, ghost busy: set<JobId>,
                     ghost was: map<NodeId, Context>, ghost wasUsers: Users)
      returns (ghost finished: set<NodeId>)
      requires n in open && n in c && PointsTo(net, e, n) && e !in ignore
               && Moving(to, ignored, c, done, open, busy, was)
      requires UsersMoved(net, ignored, ignore, busy, to, users, wasUsers)
      modifies this`ignore, this`ctx, this`users
      ensures old(ignore) + {e} <= ignore
      ensures UsersMoved(net, ignored, ignore, busy, to, users, wasUsers)
      ensures Moving(to, ignored, c, finished, open, busy, was) && done <= finished
      decreases net.target.Keys - ignore, 0, 0
    {
      hide UsersMoved;
      assert !net.holder[e].FixedHolder? by {
        assert !RefusesAt(net, c, e);
      }
      match net.holder[e]
      case NodeHolder(p) =>
        assert KnownEdge(net, e);
        Visit(net, ignored, c, ignore, done, open, busy, n, e, p);
        NodeEdgeVisited(net, ignored, ignore, busy, to, users, wasUsers, e);
        ignore := ignore + {e};
        finished := SetIgnore(p, to, ignored, c, done, open, busy, was, wasUsers);
      case JobHolder(j) =>
        assert KnownEdge(net, e);
        VisitJob(net, ignored, c, ignore, done, open, busy, n, e);
        JobEdgeVisited(net, ignored, ignore, busy, to, users, wasUsers, e, j);
        ignore := ignore + {e};
        finished := JobSet(n, e, j, to, ignored, c, done, open, busy, was, wasUsers);
      case BackendHolder(_) =>
        VisitUser(net, ignored, c, ignore, done, open, busy, n, e);
        BackendMoved(net, ignored, ignore, busy, to, users, wasUsers, e);
        ignore := ignore + {e};
        users := users.(backend := users.backend[e := to]);
        finished := done;
    }

    /** child_job_set_aio_ctx */
    method JobSet(n: NodeId, e: EdgeId, j: JobId, to: Context, ghost ignored: set<EdgeId>, ghost c: set<NodeId>,
                  ghost done: set<NodeId>, ghost open: set<NodeId>, ghost busy: set<JobId>,
                  ghost was: map<NodeId, Context>, ghost wasUsers: Users)
      returns (ghost finished: set<NodeId>)
      requires n in c && PointsTo(net, e, n) && e !in ignored && HeldBy(net, e, JobHolder(j)) && j in net.nodes
      requires Moving(to, ignored, c, done, open, busy + {j}, was) && e in ignore
      requires UsersMoved(net, ignored, ignore, busy + {j}, to, users, wasUsers)
      modifies this`ignore, this`ctx, this`users
      ensures old(ignore) <= ignore
      ensures UsersMoved(net, ignored, ignore, busy, to, users, wasUsers)
      ensures Moving(to, ignored, c, finished, open, busy, was) && done <= finished
      decreases net.target.Keys - ignore, 1
    {
      hide UsersMoved;
      finished := done;
      var i := 0;
      while i < |net.nodes[j]|
        invariant i <= |net.nodes[j]| && old(ignore) <= ignore && done <= finished
        invariant Moving(to, ignored, c, finished, open, busy + {j}, was)
                  && UsersMoved(net, ignored, ignore, busy + {j}, to, users, wasUsers)
        invariant VisitedUpTo(net.nodes[j], i, ignore)
      {
        var s := net.nodes[j][i];
        ghost var before := ignore;
        if s !in ignore {
          assert HeldBy(net, s, JobHolder(j));
          VisitSibling(net, ignored, c, ignore, finished, open, busy + {j}, n, e, s);
          JobEdgeVisited(net, ignored, ignore, busy + {j}, to, users, wasUsers, s, j);
          assert busy + {j} + {j} == busy + {j};
          ignore := ignore + {s};
          finished := SetIgnore(net.target[s], to, ignored, c, finished, open, busy + {j}, was, wasUsers);
        }
        VisitedMore(net.nodes[j], i, before, ignore);
        i := i + 1;
      }
      JobDone(net, ignored, c, ignore, finished, open, busy, j);
      JobKnown(net, ignored, ignore, busy + {j}, to, users, wasUsers, j);
      JobMoved(net, ignored, ignore, busy, to, users, wasUsers, e, j);
      users := users.(job := users.job[j := to]);
    }

    // -------------------------------------------------------------- bdrv_child_try_set_aio_context

    /**
     Nodes that are connected share one context.  Then either a parent somewhere in the component
     refuses and no context changes, or the whole component moves, with the backends and jobs that use
     it, and nothing else does.
     */
    method TrySet(n: NodeId, to: Context, ignoreChild: set<EdgeId>) returns (ok: bool)
      requires WellFormedNet(net) && ctx.Keys == net.parents.Keys && n in net.parents
      requires forall m :: m in Component(net, ignoreChild, n) ==> ctx[m] == ctx[n]
      requires KnownUsers(net, users)
      modifies this`ignore, this`ctx, this`users
      ensures ok <==> old(ctx)[n] == to || !Forbidden(net, ignoreChild, Component(net, ignoreChild, n))
      ensures !ok || old(ctx)[n] == to ==> ctx == old(ctx) && users == old(users)
      ensures ok && old(ctx)[n] != to ==>
                UsersEnd(net, ignoreChild, Component(net, ignoreChild, n), to, users, old(users))
      ensures ok ==> ctx.Keys == old(ctx).Keys
                     && forall m ::
                          m in ctx ==> ctx[m] == if m in Component(net, ignoreChild, n) then to else old(ctx)[m]
    {
      ghost var c := Component(net, ignoreChild, n);
      ComponentClosed(net, ignoreChild, n);
      if ctx[n] == to {
        return true;
      }
      ignore := ignoreChild;
      ghost var finished;
      assert {} + {n} == {n};
      StartFrontier(net, ignoreChild, c, n);
      ok, finished := CanSet(n, to, ignoreChild, c, {}, {}, {});
      if !ok {
        return;
      }
      FrontierCloses(net, ignoreChild, c, ignore, finished, n);
      AllAsked(net, ignoreChild, c, ignore, finished);
      ignore := ignoreChild;
      NoUsersMoved(net, ignoreChild, to, users);
      finished := SetIgnore(n, to, ignoreChild, c, {}, {}, {}, old(ctx), old(users));
      FrontierCloses(net, ignoreChild, c, ignore, finished, n);
      UsersAtEnd(net, ignoreChild, c, ignore, finished, to, users, old(users));
    }

    /** The same in a graph where connected nodes share one context; afterwards they still do. */
    method TrySetUniform(n: NodeId, to: Context, ignoreChild: set<EdgeId>) returns (ok: bool)
      requires WellFormedNet(net) && Uniform(net, ignoreChild, ctx) && n in net.parents && KnownUsers(net, users)
      modifies this`ignore, this`ctx, this`users
      ensures ok <==> old(ctx)[n] == to || !Forbidden(net, ignoreChild, Component(net, ignoreChild, n))
      ensures Uniform(net, ignoreChild, ctx) && (ok ==> ctx[n] == to)
              && (!ok ==> ctx == old(ctx) && users == old(users))
    {
      UniformComponent(net, ignoreChild, ctx, n);
      ok := TrySet(n, to, ignoreChild);
      if ok {
        ComponentClosed(net, ignoreChild, n);
        MoveKeepsUniform(net, ignoreChild, old(ctx), ctx, n, to);
      }
    }
  }

  lemma {:induction false} JobKnown(net: Net, ignored: set<EdgeId>, ignore: set<EdgeId>, busy: set<JobId>, to: Context,
                                    u: Users, was: Users, j: JobId)
    requires UsersMoved(net, ignored, ignore, busy, to, u, was) && j in net.nodes
    ensures j in u.job
  {
  }

  lemma {:induction false} NoUsersMoved(net: Net, ignored: set<EdgeId>, to: Context, u: Users)
    requires KnownUsers(net, u)
    ensures UsersMoved(net, ignored, ignored, {}, to, u, u)
  {
  }

  lemma {:induction false} StartFrontier(net: Net, ignored: set<EdgeId>, c: set<NodeId>, n: NodeId)
    requires WellFormedNet(net) && Closed(net, ignored, c) && c <= net.parents.Keys && n in c
    ensures Frontier(net, ignored, c, ignored, {}, {n}, {}) && AllPermit(net, ignored, ignored)
  {
  }

  /** If every edge of the component has been visited and permits the change, no parent refuses. */
  lemma {:induction false} AllAsked(net: Net, ignored: set<EdgeId>, c: set<NodeId>, ignore: set<EdgeId>,
                                    done: set<NodeId>)
    requires Frontier(net, ignored, c, ignore, done, {}, {}) && c <= done && AllPermit(net, ignored, ignore)
    ensures !Forbidden(net, ignored, c)
  {
    if e :| e !in ignored && RefusesAt(net, c, e) {
      assert Touches(net, net.target[e], e);
    }
  }

  // ---------------------------------------------------------------- one context per component

  /**
   Nodes that are adjacent without the ignored edges share one context: the state in which the block layer leaves every
   graph.
   */
  ghost predicate Uniform(net: Net, ignored: set<EdgeId>, ctx: map<NodeId, Context>) {
    ctx.Keys == net.parents.Keys
    && forall n, m :: n in ctx && m in ctx && Adjacent(net, ignored, n, m) ==> ctx[n] == ctx[m]
  }

  lemma {:induction false} AdjacentSymmetric(net: Net, ignored: set<EdgeId>, n: NodeId, m: NodeId)
    requires WellFormedNet(net) && Adjacent(net, ignored, n, m)
    ensures Adjacent(net, ignored, m, n) && m in net.parents
  {
    var e :| e !in ignored && Touches(net, n, e) && LeadsTo(net, ignored, e, m);
    assert KnownEdge(net, e);
    if Touches(net, m, e) {
      assert LeadsTo(net, ignored, e, n);
    } else {
      var s :| s !in ignored && SameJob(net, e, s) && net.target[s] == m;
      assert KnownEdge(net, s) && SameJob(net, s, e) && net.target[e] == n;
      assert Touches(net, m, s) && LeadsTo(net, ignored, s, n);
    }
  }

  /** What TrySet asks of the contexts follows from uniformity. */
  lemma {:induction false} UniformComponent(net: Net, ignored: set<EdgeId>, ctx: map<NodeId, Context>, n: NodeId)
    requires WellFormedNet(net) && Uniform(net, ignored, ctx) && n in ctx
    ensures forall m :: m in Component(net, ignored, n) ==> ctx[m] == ctx[n]
  {
    forall m | m in Component(net, ignored, n)
      ensures ctx[m] == ctx[n]
    {
      var p :| Walk(net, ignored, p, n, m);
      UniformWalk(net, ignored, ctx, p, |p| - 1);
    }
  }

  lemma {:induction false} UniformWalk(net: Net, ignored: set<EdgeId>, ctx: map<NodeId, Context>, p: seq<NodeId>,
                                       k: nat)
    requires WellFormedNet(net) && Uniform(net, ignored, ctx) && k < |p| && p[0] in ctx
    requires forall i :: 0 <= i < |p| - 1 ==> Adjacent(net, ignored, p[i], p[i + 1])
    ensures p[k] in ctx && ctx[p[k]] == ctx[p[0]]
  {
    if k > 0 {
      UniformWalk(net, ignored, ctx, p, k - 1);
      assert Adjacent(net, ignored, p[k - 1], p[k - 1 + 1]);
      AdjacentSymmetric(net, ignored, p[k - 1], p[k]);
    }
  }

  /** Moving a whole component keeps the graph uniform. */
  lemma {:induction false} MoveKeepsUniform(net: Net, ignored: set<EdgeId>, ctx: map<NodeId, Context>,
                                            moved: map<NodeId, Context>, n: NodeId, to: Context)
    requires WellFormedNet(net) && Uniform(net, ignored, ctx) && n in ctx && moved.Keys == ctx.Keys
    requires forall m :: m in ctx ==> moved[m] == if m in Component(net, ignored, n) then to else ctx[m]
    ensures Uniform(net, ignored, moved)
  {
    ComponentClosed(net, ignored, n);
    forall x, y | x in moved && y in moved && Adjacent(net, ignored, x, y)
      ensures moved[x] == moved[y]
    {
      AdjacentSymmetric(net, ignored, x, y);
      assert x in Component(net, ignored, n) <==> y in Component(net, ignored, n);
    }
  }
}
