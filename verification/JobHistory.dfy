/**
 What a transaction of femu-ocssd/job.c has gone through: who joined it, how its jobs ended, and which
 callbacks of their drivers were called.  The group outcome is stated about this history alone.
 */
module JobHistory {
  import opened JobRecords

  datatype Event =
    | Joined(id: JobId)                       // job_txn_add_job
    | Left(id: JobId)                         // job_early_fail
    | Ended(id: JobId, ret: int)              // job_completed, with the return value after job_update_rc
    | CancelledLate(id: JobId)                // job_cancel of a job whose coroutine has ended
    | Finalising(id: JobId)                   // job_do_finalize
    | PrepareCall(id: JobId, answer: int)
    | CommitCall(id: JobId)
    | AbortCall(id: JobId)

  type History = seq<Event>

  function Times(h: History, e: Event): nat {
    multiset(h)[e]
  }

  /** The job has joined the transaction and has not left it before it was started. */
  ghost predicate Belongs(h: History, m: JobId) {
    Times(h, Joined(m)) > Times(h, Left(m))
  }

  /** A job ended with an error or cancelled, or was cancelled afterwards. */
  predicate Failing(e: Event) {
    (e.Ended? && e.ret != 0) || e.CancelledLate?
  }

  ghost predicate Spoiled(h: History) {
    exists e :: e in h && Failing(e)
  }

  ghost predicate BadPrepare(h: History, f: JobId) {
    exists answer :: answer != 0 && PrepareCall(f, answer) in h
  }

  /** Before any decision: exactly the members belong to it, and no job has failed so far. */
  ghost predicate Quiet(h: History, members: set<JobId>) {
    && (forall e :: e in h ==> e.Joined? || e.Left? || (e.Ended? && e.ret == 0))
    && (forall m :: Times(h, Joined(m)) == Times(h, Left(m)) + if m in members then 1 else 0)
  }

  // ---------------------------------------------------------------- the group outcome

  /** Every job that belongs to the transaction is decided once, and nobody else is. */
  ghost predicate DecidedOnce(h: History) {
    forall m :: Times(h, CommitCall(m)) + Times(h, AbortCall(m)) == if Belongs(h, m) then 1 else 0
  }

  ghost predicate AllAbort(h: History) {
    && (forall m :: Belongs(h, m) ==> AbortCall(m) in h)
    && (forall e :: e in h ==> !e.CommitCall? && !e.PrepareCall?)
  }

  ghost predicate AllCommit(h: History) {
    && (forall m :: Belongs(h, m) ==> CommitCall(m) in h && PrepareCall(m, 0) in h)
    && (forall e :: e in h ==> !e.AbortCall?)
  }

  /** The job through which the transaction was finalised commits unless its own prepare failed; all others abort. */
  ghost predicate OnlyLeaderCommits(h: History, leader: JobId) {
    && Belongs(h, leader) && (forall id :: Finalising(id) in h <==> id == leader)
    && (forall m :: CommitCall(m) in h <==> m == leader && !BadPrepare(h, leader))
  }

  /** Only jobs of the transaction are prepared, and all of that comes before the first decision. */
  ghost predicate PreparesFirst(h: History) {
    && (forall e :: e in h && e.PrepareCall? ==> Belongs(h, e.id))
    && (forall i, j :: 0 <= i < j < |h| && h[j].PrepareCall? ==> !h[i].CommitCall? && !h[i].AbortCall?)
  }

  ghost predicate Outcome(h: History) {
    && DecidedOnce(h) && PreparesFirst(h)
    && (Spoiled(h) ==> AllAbort(h))
    && (!Spoiled(h) && (forall f :: !BadPrepare(h, f)) ==> AllCommit(h))
    && (!Spoiled(h) && (exists f :: BadPrepare(h, f)) ==> exists leader :: OnlyLeaderCommits(h, leader))
  }

  /**
   A transaction is split between commit and abort exactly when no job failed and the prepare of a job
   other than the one that was being finalised did, but not its own.
   */
  lemma {:induction false} SplitIff(h: History)
    requires Outcome(h)
    ensures (exists m, k :: CommitCall(m) in h && AbortCall(k) in h) <==>
            !Spoiled(h) && exists leader, f :: Finalising(leader) in h && BadPrepare(h, f) && !BadPrepare(h, leader)
  {
    if m, k :| CommitCall(m) in h && AbortCall(k) in h {
      assert !Spoiled(h);
      var f :| BadPrepare(h, f);
      var leader :| OnlyLeaderCommits(h, leader);
      assert Finalising(leader) in h && BadPrepare(h, f) && !BadPrepare(h, leader);
    }
    if leader, f :| !Spoiled(h) && Finalising(leader) in h && BadPrepare(h, f) && !BadPrepare(h, leader) {
      var l :| OnlyLeaderCommits(h, l);
      assert l == leader && CommitCall(leader) in h;
      assert f != leader;
    }
  }

  // ---------------------------------------------------------------- how histories grow

  lemma {:induction false} TimesOfConcat(a: History, b: History, e: Event)
    ensures Times(a + b, e) == Times(a, e) + Times(b, e)
    ensures e in a + b <==> e in a || e in b
    ensures e in a <==> Times(a, e) > 0
  {
    assert multiset(a + b) == multiset(a) + multiset(b);
    assert e in a <==> e in multiset(a);
  }

  /** What the loops that finalise members leave behind; members still running are awaited first. */
  ghost predicate Decides(h: History, aborted: set<JobId>, committed: set<JobId>, awaited: set<JobId>) {
    && (forall e :: e in h ==> e.AbortCall? || e.CommitCall? || (e.Ended? && e.ret != 0 && e.id in awaited))
    && (forall m :: Times(h, AbortCall(m)) == if m in aborted then 1 else 0)
    && (forall m :: Times(h, CommitCall(m)) == if m in committed then 1 else 0)
  }

  /** Who was committed and who was aborted. */
  ghost predicate Told(h: History, aborted: set<JobId>, committed: set<JobId>) {
    && (forall m :: CommitCall(m) in h <==> m in committed)
    && (forall m :: AbortCall(m) in h <==> m in aborted)
  }

  function Verdict(id: JobId, fails: bool): Event {
    if fails then AbortCall(id) else CommitCall(id)
  }

  /** Jobs that ended while they were awaited. */
  ghost predicate Awaited(h: History, awaited: set<JobId>) {
    forall e :: e in h ==> e.Ended? && e.ret != 0 && e.id in awaited
  }

  lemma {:induction false} NothingDecided(awaited: set<JobId>)
    ensures Decides([], {}, {}, awaited)
  {
  }

  lemma {:induction false} DecidesOneMore(h: History, aborted: set<JobId>, committed: set<JobId>, awaited: set<JobId>,
                                          r: History, id: JobId, fails: bool)
    requires Decides(h, aborted, committed, awaited) && Awaited(r, awaited) && id !in aborted && id !in committed
    ensures Decides(h + r + [Verdict(id, fails)], if fails then aborted + {id} else aborted,
                    if fails then committed else committed + {id}, awaited)
  {
    var v := [Verdict(id, fails)];
    forall e
      ensures Times(h + r + v, e) == Times(h, e) + Times(r, e) + if e == v[0] then 1 else 0
      ensures e in h + r + v <==> e in h || e in r || e in v
      ensures e in r <==> Times(r, e) > 0
    {
      TimesOfConcat(h + r, v, e);
      TimesOfConcat(h, r, e);
      TimesOfConcat(r, v, e);
    }
  }

  /** The answers of the prepare callbacks; `failed` is the job, if any, whose answer ended the loop. */
  ghost predicate Prepares(h: History, members: set<JobId>, failed: set<JobId>) {
    && (forall e :: e in h ==> e.PrepareCall? && e.id in members && (e.answer != 0 <==> e.id in failed))
    && (failed == {} ==> forall m :: m in members ==> PrepareCall(m, 0) in h)
    && (forall f :: f in failed ==> BadPrepare(h, f))
  }

  // ---------------------------------------------------------------- from quiet to decided

  /** Events that decide nothing about who belongs to a transaction. */
  ghost predicate NoMoves(h: History) {
    forall e :: e in h ==> !e.Joined? && !e.Left?
  }

  lemma {:induction false} SameMembers(a: History, s: History, members: set<JobId>)
    requires Quiet(a, members) && NoMoves(s)
    ensures forall m :: Belongs(a + s, m) <==> m in members
  {
    forall m
      ensures Belongs(a + s, m) <==> m in members
    {
      TimesOfConcat(a, s, Joined(m));
      TimesOfConcat(a, s, Left(m));
      TimesOfConcat(s, a, Joined(m));
      TimesOfConcat(s, a, Left(m));
    }
  }

  lemma {:induction false} JoinedQuiet(a: History, members: set<JobId>, id: JobId)
    requires Quiet(a, members) && id !in members
    ensures Quiet(a + [Joined(id)], members + {id})
  {
    forall e
      ensures Times(a + [Joined(id)], e) == Times(a, e) + if e == Joined(id) then 1 else 0
    {
      TimesOfConcat(a, [Joined(id)], e);
    }
  }

  lemma {:induction false} LeftQuiet(a: History, members: set<JobId>, id: JobId)
    requires Quiet(a, members) && id in members
    ensures Quiet(a + [Left(id)], members - {id})
  {
    forall e
      ensures Times(a + [Left(id)], e) == Times(a, e) + if e == Left(id) then 1 else 0
    {
      TimesOfConcat(a, [Left(id)], e);
    }
  }

  lemma {:induction false} EndedQuiet(a: History, members: set<JobId>, id: JobId)
    requires Quiet(a, members)
    ensures Quiet(a + [Ended(id, 0)], members)
  {
    forall e
      ensures Times(a + [Ended(id, 0)], e) == Times(a, e) + if e == Ended(id, 0) then 1 else 0
    {
      TimesOfConcat(a, [Ended(id, 0)], e);
    }
  }

  /** The decisions that follow a quiet history and events that are none. */
  lemma {:induction false} DecidedAfter(a: History, p: History, d: History, aborted: set<JobId>, committed: set<JobId>,
                                        awaited: set<JobId>)
    requires Quiet(a, aborted + committed) && aborted !! committed && Decides(d, aborted, committed, awaited)
    requires forall e :: e in p ==> e.PrepareCall? || e.Finalising? || Failing(e)
    ensures DecidedOnce(a + (p + d)) && forall m :: Belongs(a + (p + d), m) <==> m in aborted + committed
    ensures forall m :: CommitCall(m) in a + (p + d) <==> m in committed
    ensures forall m :: AbortCall(m) in a + (p + d) <==> m in aborted
  {
    SameMembers(a, p + d, aborted + committed);
    forall e: Event | e.CommitCall? || e.AbortCall?
      ensures Times(a + (p + d), e) == Times(d, e)
      ensures e in a + (p + d) <==> Times(d, e) > 0
    {
      TimesOfConcat(a, p + d, e);
      TimesOfConcat(p, d, e);
      TimesOfConcat(d, a, e);
    }
  }

  lemma {:induction false} PreparedBefore(a: History, p: History, d: History, members: set<JobId>)
    requires (forall e :: e in a + p ==> !e.CommitCall? && !e.AbortCall?) && (forall e :: e in d ==> !e.PrepareCall?)
    requires (forall e :: e in a ==> !e.PrepareCall?) && (forall e :: e in p && e.PrepareCall? ==> e.id in members)
    requires forall m :: m in members ==> Belongs(a + (p + d), m)
    ensures PreparesFirst(a + (p + d))
  {
    var h := a + (p + d);
    forall i, j | 0 <= i < j < |h| && h[j].PrepareCall?
      ensures !h[i].CommitCall? && !h[i].AbortCall?
    {
      assert h[j] !in d;
      assert h[i] == (a + p)[i];
    }
    forall e | e in h && e.PrepareCall?
      ensures Belongs(h, e.id)
    {
      assert e in p;
    }
  }

  /** A job failed: everybody aborts. */
  lemma {:induction false} FailureOutcome(a: History, start: Event, d: History, members: set<JobId>,
                                          awaited: set<JobId>)
    requires Quiet(a, members) && Failing(start) && Decides(d, members, {}, awaited)
    ensures Outcome(a + ([start] + d)) && Told(a + ([start] + d), members, {})
  {
    var h := a + ([start] + d);
    assert members + {} == members;
    DecidedAfter(a, [start], d, members, {}, awaited);
    PreparedBefore(a, [start], d, {});
    assert start in h;
  }

  lemma {:induction false} PartsOf(a: History, q: History, p: History, d: History)
    ensures forall e :: e in a + (q + p + d) <==> e in a || e in q || e in p || e in d
  {
  }

  /** The common part of both ways in which a transaction can be finalised. */
  lemma {:induction false} Finalised(a: History, leader: JobId, p: History, d: History, members: set<JobId>,
                                     failed: set<JobId>, aborted: set<JobId>, committed: set<JobId>)
    requires Quiet(a, members) && Prepares(p, members, failed) && Decides(d, aborted, committed, {})
    requires members == aborted + committed && aborted !! committed
    ensures var h := a + ([Finalising(leader)] + p + d);
            && DecidedOnce(h) && PreparesFirst(h) && !Spoiled(h)
            && (forall k :: Finalising(k) in h <==> k == leader)
            && (forall k :: BadPrepare(h, k) <==> k in failed)
            && (forall e :: e in p ==> e in h)
            && (forall m :: Belongs(h, m) <==> m in members)
            && Told(h, aborted, committed)
  {
    hide Times, Belongs;
    var q := [Finalising(leader)];
    PartsOf(a, q, p, d);
    DecidedAfter(a, q + p, d, aborted, committed, {});
    PreparedBefore(a, q + p, d, members);
    assert Finalising(leader) in q;
  }

  /** Every prepare succeeded: everybody commits. */
  lemma {:induction false} CommitOutcome(a: History, leader: JobId, p: History, d: History, members: set<JobId>)
    requires Quiet(a, members) && leader in members && Prepares(p, members, {}) && Decides(d, {}, members, {})
    ensures Outcome(a + ([Finalising(leader)] + p + d)) && Told(a + ([Finalising(leader)] + p + d), {}, members)
  {
    hide Times, Belongs, Quiet, Decides, DecidedOnce, PreparesFirst, Spoiled, BadPrepare;
    Finalised(a, leader, p, d, members, {}, {}, members);
  }

  /** The prepare of f failed: everybody aborts but for the leader, if it is another job. */
  lemma {:induction false} PrepareOutcome(a: History, leader: JobId, p: History, d: History, members: set<JobId>,
                                          f: JobId)
    requires Quiet(a, members) && leader in members && f in members && Prepares(p, members, {f})
    requires Decides(d, if f == leader then members else members - {leader}, if f == leader then {} else {leader}, {})
    ensures Outcome(a + ([Finalising(leader)] + p + d))
    ensures Told(a + ([Finalising(leader)] + p + d), if f == leader then members else members - {leader},
                 if f == leader then {} else {leader})
  {
    hide Times, Belongs, Quiet, Decides, DecidedOnce, PreparesFirst, Spoiled, BadPrepare, Prepares;
    Finalised(a, leader, p, d, members, {f},
              if f == leader then members else members - {leader}, if f == leader then {} else {leader});
    assert OnlyLeaderCommits(a + ([Finalising(leader)] + p + d), leader);
  }
}
