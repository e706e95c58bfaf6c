/**
 The driver of QMP transactions (qmp_transaction in femu-ocssd/blockdev.c): a list of actions is
 prepared one by one; then all are committed, or those attempted are aborted in reverse order; then
 they are cleaned up.
 */
module QmpTransaction {
  import opened Optional

  /** What a prepare callback leaves: the world, the action's own state, and whether it succeeded. */
  datatype Prepared<W, S> = Prepared(world: W, state: S, ok: bool)

  /** BlkActionOps; only prepare must be present, and only prepare can fail. */
  datatype Action<!W, !S> = Action(
    prepare: W -> Prepared<W, S>,
    commit: Option<(S, W) -> W>,
    abort: Option<(S, W) -> W>,
    clean: Option<(S, W) -> W>)

  datatype Call = PrepareCall(i: nat) | CommitCall(i: nat) | AbortCall(i: nat) | CleanCall(i: nat)

  function Apply<W, S>(f: Option<(S, W) -> W>, s: S, w: W): W {
    if f.Some? then f.value(s, w) else w
  }

  // ---------------------------------------------------------------- what should happen

  /** The world and the action states after the first k prepares. */
  function After<W, S>(actions: seq<Action<W, S>>, w: W, k: nat): (r: (W, seq<S>))
    requires k <= |actions|
    ensures |r.1| == k
  {
    if k == 0 then (w, [])
    else
      var before := After(actions, w, k - 1);
      var p := actions[k - 1].prepare(before.0);
      (p.world, before.1 + [p.state])
  }

  /** The i-th prepare succeeds, if it is reached. */
  predicate Succeeds<W, S>(actions: seq<Action<W, S>>, w: W, i: nat)
    requires i < |actions|
  {
    actions[i].prepare(After(actions, w, i).0).ok
  }

  ghost predicate AllSucceed<W, S>(actions: seq<Action<W, S>>, w: W, k: nat)
    requires k <= |actions|
  {
    forall i :: 0 <= i < k ==> Succeeds(actions, w, i)
  }

  function CommitUpTo<W, S>(actions: seq<Action<W, S>>, states: seq<S>, w: W, k: nat): W
    requires k <= |actions| && k <= |states|
  {
    if k == 0 then w else Apply(actions[k - 1].commit, states[k - 1], CommitUpTo(actions, states, w, k - 1))
  }

  /** Aborting the actions before k, the last one first. */
  function AbortFrom<W, S>(actions: seq<Action<W, S>>, states: seq<S>, w: W, k: nat): W
    requires k <= |actions| && k <= |states|
  {
    if k == 0 then w else AbortFrom(actions, states, Apply(actions[k - 1].abort, states[k - 1], w), k - 1)
  }

  function CleanUpTo<W, S>(actions: seq<Action<W, S>>, states: seq<S>, w: W, k: nat): W
    requires k <= |actions| && k <= |states|
  {
    if k == 0 then w else Apply(actions[k - 1].clean, states[k - 1], CleanUpTo(actions, states, w, k - 1))
  }

  function PrepareCalls(k: nat): seq<Call> {
    if k == 0 then [] else PrepareCalls(k - 1) + [PrepareCall(k - 1)]
  }

  function CommitCalls<W, S>(actions: seq<Action<W, S>>, k: nat): seq<Call>
    requires k <= |actions|
  {
    if k == 0 then
      []
    else CommitCalls(actions, k - 1) + (if actions[k - 1].commit.Some? then [CommitCall(k - 1)] else [])
  }

  function AbortCalls<W, S>(actions: seq<Action<W, S>>, k: nat): seq<Call>
    requires k <= |actions|
  {
    if k == 0 then [] else (if actions[k - 1].abort.Some? then [AbortCall(k - 1)] else []) + AbortCalls(actions, k - 1)
  }

  function CleanCalls<W, S>(actions: seq<Action<W, S>>, k: nat): seq<Call>
    requires k <= |actions|
  {
    if k == 0 then [] else CleanCalls(actions, k - 1) + (if actions[k - 1].clean.Some? then [CleanCall(k - 1)] else [])
  }

  // ---------------------------------------------------------------- what the driver does

  /** The first loop: prepare until all are done or one fails. */
  method PrepareAll<W, S>(actions: seq<Action<W, S>>, w0: W) returns (w: W, states: seq<S>, ok: bool, log: seq<Call>)
    ensures |states| <= |actions| && (w, states) == After(actions, w0, |states|) && log == PrepareCalls(|states|)
    ensures ok ==> |states| == |actions| && AllSucceed(actions, w0, |actions|)
    ensures !ok ==> states != [] && AllSucceed(actions, w0, |states| - 1) && !Succeeds(actions, w0, |states| - 1)
  {
    w, states, ok, log := w0, [], true, [];
    var n := 0;
    while n < |actions|
      invariant 0 <= n <= |actions| && |states| == n
      invariant (w, states) == After(actions, w0, n) && log == PrepareCalls(n) && AllSucceed(actions, w0, n)
    {
      var p := actions[n].prepare(w);
      w, states, log := p.world, states + [p.state], log + [PrepareCall(n)];
      if !p.ok {
        return w, states, false, log;
      }
      n := n + 1;
    }
  }

  /** The commits, in order. */
  method CommitAll<W, S>(actions: seq<Action<W, S>>, states: seq<S>, w0: W) returns (w: W, log: seq<Call>)
    requires |states| == |actions|
    ensures w == CommitUpTo(actions, states, w0, |actions|) && log == CommitCalls(actions, |actions|)
  {
    w, log := w0, [];
    var i := 0;
    while i < |actions|
      invariant 0 <= i <= |actions| && w == CommitUpTo(actions, states, w0, i) && log == CommitCalls(actions, i)
    {
      if actions[i].commit.Some? {
        w, log := actions[i].commit.value(states[i], w), log + [CommitCall(i)];
      }
      i := i + 1;
    }
  }

  /** The aborts of all attempted actions, in reverse order. */
  method AbortAll<W, S>(actions: seq<Action<W, S>>, states: seq<S>, w0: W) returns (w: W, log: seq<Call>)
    requires |states| <= |actions|
    ensures w == AbortFrom(actions, states, w0, |states|) && log == AbortCalls(actions, |states|)
  {
    w, log := w0, [];
    var i := |states|;
    while i > 0
      invariant 0 <= i <= |states| && AbortFrom(actions, states, w0, |states|) == AbortFrom(actions, states, w, i)
      invariant AbortCalls(actions, |states|) == log + AbortCalls(actions, i)
    {
      i := i - 1;
      if actions[i].abort.Some? {
        assert log + ([AbortCall(i)] + AbortCalls(actions, i)) == log + [AbortCall(i)] + AbortCalls(actions, i);
        w, log := actions[i].abort.value(states[i], w), log + [AbortCall(i)];
      } else {
        assert [] + AbortCalls(actions, i) == AbortCalls(actions, i);
      }
    }
  }

  /** The clean-up of all attempted actions. */
  method CleanAll<W, S>(actions: seq<Action<W, S>>, states: seq<S>, w0: W) returns (w: W, log: seq<Call>)
    requires |states| <= |actions|
    ensures w == CleanUpTo(actions, states, w0, |states|) && log == CleanCalls(actions, |states|)
  {
    w, log := w0, [];
    var i := 0;
    while i < |states|
      invariant 0 <= i <= |states| && w == CleanUpTo(actions, states, w0, i) && log == CleanCalls(actions, i)
    {
      if actions[i].clean.Some? {
        w, log := actions[i].clean.value(states[i], w), log + [CleanCall(i)];
      }
      i := i + 1;
    }
  }

  /**
   qmp_transaction.  All prepares succeed and all commits run in order, or the first failing prepare is
   followed by the aborts of all attempted actions, the failed one included, in reverse order; clean
   runs once for each attempted action.
   */
  method Run<W, S>(actions: seq<Action<W, S>>, w0: W) returns (w: W, ok: bool, log: seq<Call>)
    ensures ok <==> AllSucceed(actions, w0, |actions|)
    ensures ok ==> var a := After(actions, w0, |actions|);
              && w == CleanUpTo(actions, a.1, CommitUpTo(actions, a.1, a.0, |actions|), |actions|)
              && log == PrepareCalls(|actions|) + CommitCalls(actions, |actions|) + CleanCalls(actions, |actions|)
    ensures !ok ==> exists f :: 0 <= f < |actions| && FailedAt(actions, w0, f, w, log)
  {
    var states, more;
    w, states, ok, log := PrepareAll(actions, w0);
    if ok {
      w, more := CommitAll(actions, states, w);
    } else {
      w, more := AbortAll(actions, states, w);
    }
    log := log + more;
    w, more := CleanAll(actions, states, w);
    log := log + more;
    if !ok {
      assert FailedAt(actions, w0, |states| - 1, w, log);
    }
  }

  /** The transaction failed when action f was prepared, and was rolled back. */
  ghost predicate FailedAt<W, S>(actions: seq<Action<W, S>>, w0: W, f: nat, w: W, log: seq<Call>)
    requires f < |actions|
  {
    var a := After(actions, w0, f + 1);
    && AllSucceed(actions, w0, f) && !Succeeds(actions, w0, f)
    && w == CleanUpTo(actions, a.1, AbortFrom(actions, a.1, a.0, f + 1), f + 1)
    && log == PrepareCalls(f + 1) + AbortCalls(actions, f + 1) + CleanCalls(actions, f + 1)
  }

  // ---------------------------------------------------------------- all or nothing

  /** Whatever prepare did, successful or not, abort undoes; clean changes nothing. */
  ghost predicate Undoes<W(!new), S(!new)>(a: Action<W, S>) {
    && (forall w :: Apply(a.abort, a.prepare(w).state, a.prepare(w).world) == w)
    && (forall s, w :: Apply(a.clean, s, w) == w)
  }

  lemma {:induction false} AbortUndoes<W(!new), S(!new)>(actions: seq<Action<W, S>>, w0: W, k: nat, n: nat)
    requires k <= n <= |actions| && forall i :: 0 <= i < |actions| ==> Undoes(actions[i])
    ensures AbortFrom(actions, After(actions, w0, n).1, After(actions, w0, k).0, k) == w0
    decreases k
  {
    if k > 0 {
      var before := After(actions, w0, k - 1);
      var p := actions[k - 1].prepare(before.0);
      StatePrefix(actions, w0, k - 1, n);
      assert Undoes(actions[k - 1]);
      AbortUndoes(actions, w0, k - 1, n);
    }
  }

  /** The state of action i is the one its own prepare left. */
  lemma {:induction false} StatePrefix<W, S>(actions: seq<Action<W, S>>, w0: W, i: nat, n: nat)
    requires i < n <= |actions|
    ensures After(actions, w0, n).1[i] == actions[i].prepare(After(actions, w0, i).0).state
    decreases n
  {
    if i < n - 1 {
      StatePrefix(actions, w0, i, n - 1);
    }
  }

  lemma {:induction false} CleanChangesNothing<W(!new), S(!new)>(actions: seq<Action<W, S>>, states: seq<S>, w: W,
                                                                 k: nat)
    requires k <= |actions| && k <= |states| && forall i :: 0 <= i < |actions| ==> Undoes(actions[i])
    ensures CleanUpTo(actions, states, w, k) == w
    decreases k
  {
    if k > 0 {
      CleanChangesNothing(actions, states, w, k - 1);
      assert Undoes(actions[k - 1]);
    }
  }

  /** A failed transaction of such actions leaves the world as it was. */
  lemma {:induction false} FailureRestores<W(!new), S(!new)>(actions: seq<Action<W, S>>, w0: W, f: nat, w: W,
                                                             log: seq<Call>)
    requires f < |actions| && FailedAt(actions, w0, f, w, log) && forall i :: 0 <= i < |actions| ==> Undoes(actions[i])
    ensures w == w0
  {
    var a := After(actions, w0, f + 1);
    AbortUndoes(actions, w0, f + 1, f + 1);
    CleanChangesNothing(actions, a.1, AbortFrom(actions, a.1, a.0, f + 1), f + 1);
  }

  // ---------------------------------------------------------------- the order of the calls

  /** Aborts run in the reverse order of the prepares: earlier in the log means later in the list. */
  lemma {:induction false} AbortsReversed<W, S>(actions: seq<Action<W, S>>, k: nat, i: nat, j: nat)
    requires k <= |actions| && i < j < |AbortCalls(actions, k)|
    ensures AbortCalls(actions, k)[i].AbortCall? && AbortCalls(actions, k)[j].AbortCall?
    ensures AbortCalls(actions, k)[i].i > AbortCalls(actions, k)[j].i
    decreases k
  {
    AbortsBelow(actions, k, i);
    AbortsBelow(actions, k, j);
    if actions[k - 1].abort.Some? {
      if i > 0 {
        AbortsReversed(actions, k - 1, i - 1, j - 1);
      } else {
        AbortsBelow(actions, k - 1, j - 1);
      }
    } else {
      AbortsReversed(actions, k - 1, i, j);
    }
  }

  lemma {:induction false} AbortsBelow<W, S>(actions: seq<Action<W, S>>, k: nat, i: nat)
    requires k <= |actions| && i < |AbortCalls(actions, k)|
    ensures AbortCalls(actions, k)[i].AbortCall? && AbortCalls(actions, k)[i].i < k
    decreases k
  {
    if actions[k - 1].abort.Some? {
      if i > 0 {
        AbortsBelow(actions, k - 1, i - 1);
      }
    } else {
      AbortsBelow(actions, k - 1, i);
    }
  }

  /** Exactly the attempted actions with an abort callback are aborted; by the order, each once. */
  lemma {:induction false} AbortsAre<W, S>(actions: seq<Action<W, S>>, k: nat, x: nat)
    requires k <= |actions|
    ensures AbortCall(x) in AbortCalls(actions, k) <==> x < k && actions[x].abort.Some?
    decreases k
  {
    if k > 0 {
      AbortsAre(actions, k - 1, x);
    }
  }

  /** Commits run in the order of the actions, each at most once. */
  lemma {:induction false} CommitsAscend<W, S>(actions: seq<Action<W, S>>, k: nat, i: nat, j: nat)
    requires k <= |actions| && i < j < |CommitCalls(actions, k)|
    ensures CommitCalls(actions, k)[i].CommitCall? && CommitCalls(actions, k)[j].CommitCall?
    ensures CommitCalls(actions, k)[i].i < CommitCalls(actions, k)[j].i
    decreases k
  {
    CommitsBelow(actions, k, i);
    CommitsBelow(actions, k, j);
    if j < |CommitCalls(actions, k - 1)| {
      CommitsAscend(actions, k - 1, i, j);
    } else {
      CommitsBelow(actions, k - 1, i);
    }
  }

  lemma {:induction false} CommitsBelow<W, S>(actions: seq<Action<W, S>>, k: nat, i: nat)
    requires k <= |actions| && i < |CommitCalls(actions, k)|
    ensures CommitCalls(actions, k)[i].CommitCall? && CommitCalls(actions, k)[i].i < k
    decreases k
  {
    if i < |CommitCalls(actions, k - 1)| {
      CommitsBelow(actions, k - 1, i);
    }
  }

  /** Exactly the actions with a commit callback are committed. */
  lemma {:induction false} CommitsAre<W, S>(actions: seq<Action<W, S>>, k: nat, x: nat)
    requires k <= |actions|
    ensures CommitCall(x) in CommitCalls(actions, k) <==> x < k && actions[x].commit.Some?
    decreases k
  {
    if k > 0 {
      CommitsAre(actions, k - 1, x);
    }
  }

  /** Each attempted action is cleaned at most once, in order. */
  lemma {:induction false} CleansAscend<W, S>(actions: seq<Action<W, S>>, k: nat, i: nat, j: nat)
    requires k <= |actions| && i < j < |CleanCalls(actions, k)|
    ensures CleanCalls(actions, k)[i].CleanCall? && CleanCalls(actions, k)[j].CleanCall?
    ensures CleanCalls(actions, k)[i].i < CleanCalls(actions, k)[j].i
    decreases k
  {
    CleansBelow(actions, k, i);
    CleansBelow(actions, k, j);
    if j < |CleanCalls(actions, k - 1)| {
      CleansAscend(actions, k - 1, i, j);
    } else {
      CleansBelow(actions, k - 1, i);
    }
  }

  lemma {:induction false} CleansBelow<W, S>(actions: seq<Action<W, S>>, k: nat, i: nat)
    requires k <= |actions| && i < |CleanCalls(actions, k)|
    ensures CleanCalls(actions, k)[i].CleanCall? && CleanCalls(actions, k)[i].i < k
    decreases k
  {
    if i < |CleanCalls(actions, k - 1)| {
      CleansBelow(actions, k - 1, i);
    }
  }

  /** Exactly the attempted actions with a clean callback are cleaned. */
  lemma {:induction false} CleansAre<W, S>(actions: seq<Action<W, S>>, k: nat, x: nat)
    requires k <= |actions|
    ensures CleanCall(x) in CleanCalls(actions, k) <==> x < k && actions[x].clean.Some?
    decreases k
  {
    if k > 0 {
      CleansAre(actions, k - 1, x);
    }
  }
}
