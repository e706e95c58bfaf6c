/**
 The job layer of femu-ocssd/job.c: all jobs and their transactions, with the operations of the job
 API as methods.  The assertions of the C code are preconditions or assertions here, so that every
 call shows them to hold.
 */
module JobLayer {
  import opened Optional
  import opened JobRecords
  import opened JobHistory

  /** Why a transaction was aborted: a member failed or was cancelled, or a prepare callback failed. */
  datatype Cause = NoAbort | MemberFailed | PrepareFailed(leader: JobId)

  /** JobTxn, with the members that have left it by commit and by abort. */
  datatype Txn = Txn(aborting: bool, members: set<JobId>, committed: set<JobId>, aborted: set<JobId>, cause: Cause)

  type Jobs = map<JobId, Job>
  type Txns = map<TxnId, Txn>

  // ---------------------------------------------------------------- invariants

  /** The group outcome: all commit, all abort, or only the job that was being finalised commits. */
  predicate OutcomeOk(x: Txn) {
    && (x.aborting <==> x.cause != NoAbort)
    && match x.cause {
         case NoAbort => x.aborted == {}
         case MemberFailed => x.committed == {}
         case PrepareFailed(leader) => x.committed <= {leader}
       }
  }

  ghost predicate Consistent(jobs: Jobs, txns: Txns) {
    && (forall j :: j in jobs ==> JobOk(jobs[j]))
    && (forall j ::
          j in jobs && jobs[j].txn.Some? ==> jobs[j].txn.value in txns && j in txns[jobs[j].txn.value].members)
    && (forall t, j :: t in txns && j in txns[t].members ==> j in jobs && jobs[j].txn == Some(t))
    && (forall t :: t in txns ==> OutcomeOk(txns[t]))
  }

  /** Between two calls no member is half way through an abort, and members become PENDING together. */
  ghost predicate Stable(jobs: Jobs, x: Txn) {
    && (x.members != {} ==> !x.aborting && x.committed == {} && x.aborted == {})
    && (forall m ::
          m in x.members ==> m in jobs && jobs[m].status != Aborting && (Completed(jobs[m]) ==> !jobs[m].cancelled))
    && (AllPending(jobs, x) || NonePending(jobs, x))
  }

  ghost predicate AllPending(jobs: Jobs, x: Txn) {
    forall m :: m in x.members ==> m in jobs && jobs[m].status == Pending
  }

  ghost predicate NonePending(jobs: Jobs, x: Txn) {
    forall m :: m in x.members ==> m in jobs && jobs[m].status != Pending
  }

  ghost predicate AllStable(jobs: Jobs, txns: Txns) {
    forall t :: t in txns ==> Stable(jobs, txns[t])
  }

  ghost predicate StableExcept(jobs: Jobs, txns: Txns, t: TxnId) {
    forall u :: u in txns && u != t ==> Stable(jobs, txns[u])
  }

  /** Jobs outside s are untouched. */
  ghost predicate OthersSame(jobs: Jobs, jobs': Jobs, s: set<JobId>) {
    forall j :: j !in s ==> (j in jobs' <==> j in jobs) && (j in jobs ==> jobs'[j] == jobs[j])
  }

  /** A job to which somebody holds a reference is not freed, and the holders stay the same. */
  ghost predicate HeldStay(jobs: Jobs, jobs': Jobs) {
    forall j :: j in jobs && jobs[j].refs.holds > 0 ==> j in jobs' && jobs'[j].refs.holds == jobs[j].refs.holds
  }

  function At(jobs: Jobs, m: JobId): Option<Job> {
    if m in jobs then Some(jobs[m]) else None
  }

  /** The record of job m is replaced, or removed if the job was freed. */
  function Put(jobs: Jobs, m: JobId, j: Option<Job>): Jobs {
    if j.Some? then jobs[m := j.value] else jobs - {m}
  }

  lemma {:induction false} HeldStayReflexive(jobs: Jobs)
    ensures HeldStay(jobs, jobs)
  {
  }

  lemma {:induction false} HeldStayTransitive(a: Jobs, b: Jobs, c: Jobs)
    requires HeldStay(a, b) && HeldStay(b, c)
    ensures HeldStay(a, c)
  {
  }

  lemma {:induction false} StableFrame(jobs: Jobs, jobs': Jobs, x: Txn)
    requires Stable(jobs, x) && forall m :: m in x.members ==> m in jobs && m in jobs' && jobs'[m] == jobs[m]
    ensures Stable(jobs', x)
  {
  }

  lemma {:induction false} MembersApart(jobs: Jobs, txns: Txns, t: TxnId, u: TxnId)
    requires Consistent(jobs, txns) && t in txns && u in txns && t != u
    ensures forall m :: m in txns[u].members ==> m in jobs && m !in txns[t].members
  {
    forall m | m in txns[u].members
      ensures m in jobs && m !in txns[t].members
    {
      assert jobs[m].txn == Some(u);
    }
  }

  /** Transactions other than t do not notice what happens to the members of t. */
  lemma {:induction false} OthersStable(jobs: Jobs, txns: Txns, t: TxnId, jobs': Jobs, x: Txn)
    requires Consistent(jobs, txns) && t in txns && StableExcept(jobs, txns, t)
    requires OthersSame(jobs, jobs', txns[t].members)
    ensures StableExcept(jobs', txns[t := x], t)
  {
    hide Consistent, Stable;
    forall u | u in txns && u != t
      ensures Stable(jobs', txns[u])
    {
      MembersApart(jobs, txns, t, u);
      StableFrame(jobs, jobs', txns[u]);
    }
  }

  lemma {:induction false} MemberOk(jobs: Jobs, txns: Txns, t: TxnId, m: JobId)
    requires Consistent(jobs, txns) && t in txns && m in txns[t].members
    ensures m in jobs && JobOk(jobs[m]) && jobs[m].txn == Some(t)
  {
  }

  /** One job changes but stays in its transaction. */
  lemma {:induction false} UpdateConsistent(jobs: Jobs, txns: Txns, id: JobId, j: Job)
    requires Consistent(jobs, txns) && id in jobs && JobOk(j) && j.txn == jobs[id].txn
    ensures Consistent(jobs[id := j], txns)
  {
  }

  /** What job_finalize_single does to the transaction. */
  function Retired(x: Txn, id: JobId, fails: bool): Txn {
    x.(members := x.members - {id},
       aborted := if fails then x.aborted + {id} else x.aborted,
       committed := if fails then x.committed else x.committed + {id})
  }

  predicate MayRetire(x: Txn, id: JobId, fails: bool) {
    if fails then !x.cause.NoAbort? else x.cause == NoAbort || x.cause == PrepareFailed(id)
  }

  lemma {:induction false} RetireConsistent(jobs: Jobs, txns: Txns, id: JobId, j: Job, fails: bool)
    requires Consistent(jobs, txns) && id in jobs && jobs[id].txn.Some? && JobOk(j) && j.txn == None
    requires MayRetire(txns[jobs[id].txn.value], id, fails)
    ensures var t := jobs[id].txn.value; Consistent(jobs[id := j], txns[t := Retired(txns[t], id, fails)])
  {
  }

  /** What job_update_rc and the callbacks make of a job. */
  function Judged(j: Job): Job
    requires JobOk(j) && Decided(j)
  {
    var k := if Fails(j) then ToAborting(j) else j;
    k.(calls := FinalCalls(k.ret))
  }

  lemma {:induction false} JudgedSteps(j: Job)
    requires JobOk(j) && Decided(j)
    ensures PartsOk(j) && j.status !in {Concluded, Null} && j.txn.Some?
            && (Fails(j) ==> Aborting in Successors(j.status))
    ensures var k := if Fails(j) then ToAborting(j) else j;
            k.calls == NO_CALLS && k.txn == j.txn && (k.ret != 0 <==> Fails(j))
  {
  }

  lemma {:induction false} ConcludingSteps(j: Job)
    requires JobOk(j) && Decided(j)
    ensures j.txn.Some? && (Judged(j).ret != 0 <==> Fails(j)) && Concluded in Successors(Judged(j).status)
    ensures Concluding(j) == Judged(j).(txn := None, status := Concluded)
  {
  }

  lemma {:induction false} DismissedConsistent(jobs: Jobs, txns: Txns, id: JobId)
    requires Consistent(jobs, txns) && id in jobs && jobs[id].status == Concluded
    ensures var jobs' := Put(jobs, id, Dismissed(jobs[id]));
            Consistent(jobs', txns) && OthersSame(jobs, jobs', {id}) && HeldStay(jobs, jobs')
  {
    ConcludedOk(jobs, txns, id);
    DismissedOk(jobs[id]);
    if Dismissed(jobs[id]).None? {
      FreedConsistent(jobs, txns, id);
    } else {
      UpdateConsistent(jobs, txns, id, Dismissed(jobs[id]).value);
    }
  }

  lemma {:induction false} FinalSteps(j: Job)
    requires JobOk(j) && Decided(j)
    ensures var c := Concluding(j);
            && FinalRecord(j) == (if c.auto.dismiss || !c.started then Dismissed(c) else Some(c))
            && j.status !in {Concluded, Null} && c.txn == None && c.refs == j.refs && c.status == Concluded
  {
  }

  lemma {:induction false} FreedConsistent(jobs: Jobs, txns: Txns, id: JobId)
    requires Consistent(jobs, txns) && id in jobs && jobs[id].txn == None
    ensures Consistent(jobs - {id}, txns)
  {
  }

  // ---------------------------------------------------------------- aborting a transaction

  /**
   A member of a transaction that is being aborted: it fails and is completed or cancelled.  The
   leader may be spared when all members were PENDING and another one's prepare callback failed.
   */
  predicate Doomed(j: Job, spared: bool) {
    if spared then j.status == Pending && !Fails(j) else Fails(j) && (Completed(j) || j.cancelled)
  }

  ghost predicate AllDoomed(jobs: Jobs, x: Txn, leader: JobId, spared: bool) {
    forall m :: m in x.members ==> m in jobs && Doomed(jobs[m], spared && m == leader)
  }

  /** How the members of an aborted transaction end. */
  function AbortedTxn(members: set<JobId>, leader: JobId, spared: bool, cause: Cause, left: set<JobId>): Txn {
    var saved := if spared then {leader} - left else {};
    Txn(true, left, saved, members - left - saved, cause)
  }

  lemma {:induction false} AbortedTxnIs(members: set<JobId>, leader: JobId, spared: bool, cause: Cause,
                                        left: set<JobId>)
    requires left <= members
    ensures var x := AbortedTxn(members, leader, spared, cause, left);
            && x.cause == cause && x.members == left
            && (left == members && leader in members ==> x.aborted == {} && x.committed == {})
            && (forall m :: m in left ==> m !in x.aborted && m !in x.committed)
  {
  }

  lemma {:induction false} NoneAborted(members: set<JobId>, leader: JobId, spared: bool, cause: Cause)
    requires leader in members
    ensures AbortedTxn(members, leader, spared, cause, members) == Txn(true, members, {}, {}, cause)
  {
  }

  lemma {:induction false} RetiredAborted(members: set<JobId>, leader: JobId, spared: bool, cause: Cause,
                                          left: set<JobId>, other: JobId)
    requires other in left && left <= members && leader in members
    ensures Retired(AbortedTxn(members, leader, spared, cause, left), other, !(spared && other == leader))
            == AbortedTxn(members, leader, spared, cause, left - {other})
  {
    var r := Retired(AbortedTxn(members, leader, spared, cause, left), other, !(spared && other == leader));
    var x := AbortedTxn(members, leader, spared, cause, left - {other});
    assert r.committed == x.committed;
    assert r.aborted == x.aborted;
  }

  /**
   Every other member has been started.  Waiting for a job that was not never ends: job_enter does
   nothing for it.
   */
  predicate OthersStarted(jobs: Jobs, s: set<JobId>, id: JobId) {
    forall m :: m in s && m != id ==> m in jobs && jobs[m].started
  }

  lemma {:induction false} OthersStartedUpdate(jobs: Jobs, id: JobId, j: Job, s: set<JobId>)
    ensures OthersStarted(jobs[id := j], s, id) <==> OthersStarted(jobs, s, id)
  {
  }

  /** Whether a job was started does not change, and only started jobs complete. */
  predicate Continues(j: Job, r: Job) {
    r.started == j.started && (Completed(j) ==> Completed(r)) && (Completed(r) && !r.started ==> Completed(j))
  }

  ghost predicate AllContinue(jobs: Jobs, jobs': Jobs, s: set<JobId>) {
    forall m :: m in s ==> m in jobs && m in jobs' && Continues(jobs[m], jobs'[m])
  }

  /** A job that has to be awaited but was never started. */
  lemma {:induction false} NeverEnds(jobs: Jobs, jobs': Jobs, left: set<JobId>, all: set<JobId>, leader: JobId,
                                     m: JobId)
    requires AllContinue(jobs, jobs', left) && Awaitable(jobs, all, leader) && m in left && left <= all && m in jobs'
    requires !Completed(jobs'[m]) && !jobs'[m].started
    ensures !OthersStarted(jobs, all, leader)
  {
    assert m != leader && !jobs[m].started;
  }

  lemma {:induction false} OneMoreStarted(jobs: Jobs, jobs': Jobs, left: set<JobId>, all: set<JobId>, leader: JobId,
                                          m: JobId)
    requires AllContinue(jobs, jobs', left) && Awaitable(jobs, all, leader) && m in left && left <= all && m in jobs'
    requires OthersStarted(jobs, all - left, leader) && (Completed(jobs'[m]) || jobs'[m].started)
    ensures OthersStarted(jobs, all - (left - {m}), leader)
  {
    assert m == leader || jobs[m].started;
  }

  /** Members other than the one that aborts the transaction are completed only if they were started. */
  ghost predicate Awaitable(jobs: Jobs, s: set<JobId>, leader: JobId) {
    forall m :: m in s && m in jobs && !jobs[m].started ==> (m == leader <==> Completed(jobs[m]))
  }

  predicate CanRun(jobs: Jobs, s: set<JobId>) {
    forall m :: m in s ==> m in jobs && (Completed(jobs[m]) || jobs[m].started)
  }

  /** The members that have not completed. */
  ghost function Unfinished(jobs: Jobs, s: set<JobId>): set<JobId> {
    set m | m in s && m in jobs && !Completed(jobs[m])
  }

  /** The jobs of s ran to their end, if they had to, and were finalised. */
  ghost predicate RanAndEnded(jobs: Jobs, jobs': Jobs, s: set<JobId>, run: JobId -> int) {
    forall m :: m in s ==> m in jobs && At(jobs', m) == FinalRecord(RunRecord(jobs[m], run(m)))
  }

  /** Those of s may have run to their end while others were awaited. */
  ghost predicate MayHaveRun(jobs: Jobs, jobs': Jobs, s: set<JobId>, run: JobId -> int) {
    forall m :: m in s ==> m in jobs && m in jobs' && (jobs'[m] == jobs[m] || jobs'[m] == RunRecord(jobs[m], run(m)))
  }

  lemma {:induction false} MayHaveRunTransitive(a: Jobs, b: Jobs, c: Jobs, s: set<JobId>, s': set<JobId>,
                                                run: JobId -> int)
    requires MayHaveRun(a, b, s, run) && MayHaveRun(b, c, s', run) && s' <= s
    ensures MayHaveRun(a, c, s', run)
  {
    forall m | m in s'
      ensures m in a && m in c && (c[m] == a[m] || c[m] == RunRecord(a[m], run(m)))
    {
      RunRecordIs(a[m], run(m));
    }
  }

  lemma {:induction false} EndedOneMore(jobs: Jobs, jobs': Jobs, jobs'': Jobs, left: set<JobId>, all: set<JobId>,
                                        m: JobId, run: JobId -> int)
    requires RanAndEnded(jobs, jobs', all - left, run) && MayHaveRun(jobs, jobs', left, run)
             && OthersSame(jobs', jobs'', left)
    requires m in left && m in jobs' && At(jobs'', m) == FinalRecord(RunRecord(jobs'[m], run(m)))
    ensures RanAndEnded(jobs, jobs'', all - (left - {m}), run)
  {
    RunRecordIs(jobs[m], run(m));
  }

  /** How the members end when job `leader` aborts the transaction; other jobs are untouched. */
  ghost predicate AbortsTo(jobs: Jobs, jobs': Jobs, all: set<JobId>, leader: JobId, run: JobId -> int) {
    && OthersSame(jobs, jobs', all)
    && (forall m :: m in all ==> m in jobs && At(jobs', m) == AbortRecord(jobs[m], m == leader, run(m)))
  }

  /** How the members end when all commit. */
  ghost predicate CommitsTo(jobs: Jobs, jobs': Jobs, all: set<JobId>) {
    OthersSame(jobs, jobs', all) && forall m :: m in all ==> m in jobs && At(jobs', m) == FinalRecord(jobs[m])
  }

  lemma {:induction false} OthersSameReflexive(jobs: Jobs, s: set<JobId>)
    ensures OthersSame(jobs, jobs, s)
  {
  }

  lemma {:induction false} NoneStarted(jobs: Jobs, all: set<JobId>, leader: JobId)
    ensures OthersStarted(jobs, all - all, leader)
  {
  }

  /** The members of `all` have been aborted down to those in `left`. */
  ghost predicate AbortedSome(jobs: Jobs, jobs': Jobs, left: set<JobId>, all: set<JobId>, leader: JobId,
                              run: JobId -> int) {
    && MayHaveRun(jobs, jobs', left, run) && OthersStarted(jobs, all - left, leader)
    && OthersSame(jobs, jobs', all) && HeldStay(jobs, jobs') && RanAndEnded(jobs, jobs', all - left, run)
  }

  lemma {:induction false} AbortedNone(jobs: Jobs, x: Txn, leader: JobId, spared: bool, run: JobId -> int)
    requires AllDoomed(jobs, x, leader, spared)
    ensures AbortedSome(jobs, jobs, x.members, x.members, leader, run)
  {
    NoneStarted(jobs, x.members, leader);
  }

  lemma {:induction false} AbortedOneMore(jobs: Jobs, jobs': Jobs, jobs'': Jobs, left: set<JobId>, all: set<JobId>,
                                          leader: JobId, m: JobId, run: JobId -> int)
    requires AbortedSome(jobs, jobs', left, all, leader, run) && Awaitable(jobs, all, leader) && m in left
             && left <= all && m in jobs'
    requires Completed(jobs'[m]) || jobs'[m].started
    requires MayHaveRun(jobs', jobs'', left - {m}, run) && OthersSame(jobs', jobs'', left) && HeldStay(jobs', jobs'')
    requires At(jobs'', m) == FinalRecord(RunRecord(jobs'[m], run(m)))
    ensures AbortedSome(jobs, jobs'', left - {m}, all, leader, run)
  {
    hide MayHaveRun, OthersStarted, Awaitable, OthersSame, HeldStay, RanAndEnded, FinalRecord;
    AllContinueFrom(jobs, jobs', left, run);
    OneMoreStarted(jobs, jobs', left, all, leader, m);
    EndedOneMore(jobs, jobs', jobs'', left, all, m, run);
    MayHaveRunTransitive(jobs, jobs', jobs'', left, left - {m}, run);
    OthersSameTransitive(jobs, jobs', jobs'', all, left);
    HeldStayTransitive(jobs, jobs', jobs'');
  }

  lemma {:induction false} AbortedContinue(jobs: Jobs, jobs': Jobs, left: set<JobId>, all: set<JobId>, leader: JobId,
                                           run: JobId -> int)
    requires AbortedSome(jobs, jobs', left, all, leader, run)
    ensures AllContinue(jobs, jobs', left)
  {
    AllContinueFrom(jobs, jobs', left, run);
  }

  lemma {:induction false} AllContinueFrom(jobs: Jobs, jobs': Jobs, s: set<JobId>, run: JobId -> int)
    requires MayHaveRun(jobs, jobs', s, run)
    ensures AllContinue(jobs, jobs', s)
  {
    forall m | m in s
      ensures m in jobs && m in jobs' && Continues(jobs[m], jobs'[m])
    {
      RunRecordIs(jobs[m], run(m));
    }
  }

  lemma {:induction false} NoneLeft(jobs: Jobs, jobs': Jobs, all: set<JobId>, leader: JobId, run: JobId -> int)
    requires AbortedSome(jobs, jobs', {}, all, leader, run)
    ensures OthersStarted(jobs, all, leader) && OthersSame(jobs, jobs', all) && HeldStay(jobs, jobs')
            && RanAndEnded(jobs, jobs', all, run)
  {
    assert all - {} == all;
  }

  /** The jobs of s have been run to their end. */
  ghost predicate RanToExit(jobs: Jobs, jobs': Jobs, s: set<JobId>, run: JobId -> int) {
    jobs'.Keys == jobs.Keys
    && forall j :: j in jobs ==> jobs'[j] == if j in s then RunRecord(jobs[j], run(j)) else jobs[j]
  }

  lemma {:induction false} DoomedAfterRun(jobs: Jobs, jobs': Jobs, x: Txn, s: set<JobId>, leader: JobId, spared: bool,
                                          run: JobId -> int)
    requires AllDoomed(jobs, x, leader, spared) && RanToExit(jobs, jobs', s, run) && s <= x.members
    ensures AllDoomed(jobs', x, leader, spared) && MayHaveRun(jobs, jobs', x.members, run)
    ensures OthersSame(jobs, jobs', x.members) && HeldStay(jobs, jobs')
  {
    forall m | m in jobs
      ensures Doomed(jobs[m], spared && m == leader) ==> Doomed(jobs'[m], spared && m == leader)
      ensures jobs'[m].refs == jobs[m].refs
    {
      RunRecordIs(jobs[m], run(m));
    }
  }

  lemma {:induction false} DoomedAt(jobs: Jobs, x: Txn, leader: JobId, spared: bool, m: JobId)
    requires AllDoomed(jobs, x, leader, spared) && m in x.members
    ensures m in jobs && Doomed(jobs[m], spared && m == leader)
  {
  }

  lemma {:induction false} DoomedContinue(jobs: Jobs, x: Txn, leader: JobId, spared: bool)
    requires AllDoomed(jobs, x, leader, spared)
    ensures forall run :: MayHaveRun(jobs, jobs, x.members, run)
  {
  }

  lemma {:induction false} DoomedCanFinish(jobs: Jobs, x: Txn, leader: JobId, spared: bool, s: set<JobId>)
    requires AllDoomed(jobs, x, leader, spared) && s <= x.members && CanRun(jobs, s)
    ensures forall m :: m in s ==> m in jobs && (Completed(jobs[m]) || (jobs[m].started && jobs[m].cancelled))
  {
  }

  lemma {:induction false} RanOneMore(jobs0: Jobs, jobs: Jobs, jobs': Jobs, s: set<JobId>, m: JobId, run: JobId -> int)
    requires RanToExit(jobs0, jobs, s, run) && m in jobs && m !in s && jobs' == jobs[m := RunRecord(jobs[m], run(m))]
    ensures RanToExit(jobs0, jobs', s + {m}, run)
  {
  }

  lemma {:induction false} CancelledOneMore(jobs0: Jobs, jobs: Jobs, s: set<JobId>, m: JobId)
    requires CancelledOn(jobs0, jobs, s) && m in jobs && m !in s
    ensures CancelledOn(jobs0, jobs[m := CancelRecord(jobs[m])], s + {m})
  {
  }

  /** Cancelling the other members dooms them all. */
  lemma {:induction false} CancelDooms(jobs: Jobs, jobs': Jobs, x: Txn, leader: JobId, spared: bool)
    requires (forall m :: m in x.members ==> m in jobs && JobOk(jobs[m]) && jobs[m].status !in {Concluded, Null})
    requires leader in x.members && Doomed(jobs[leader], spared)
    requires CancelledOn(jobs, jobs', x.members - {leader})
    ensures AllDoomed(jobs', x, leader, spared) && AllContinue(jobs, jobs', x.members)
    ensures OthersSame(jobs, jobs', x.members) && HeldStay(jobs, jobs')
            && Unfinished(jobs', x.members) == Unfinished(jobs, x.members)
    ensures OthersStarted(jobs', x.members, leader) <==> OthersStarted(jobs, x.members, leader)
    ensures Awaitable(jobs, x.members, leader) ==> Awaitable(jobs', x.members, leader)
  {
    hide CancelRecord, JobOk;
    forall m | m in x.members && m != leader
      ensures jobs'[m].cancelled && SameProgress(jobs[m], jobs'[m])
    {
      CancelRecordIs(jobs[m]);
    }
  }

  /** A transaction whose members are to be aborted, seen from the job that starts it. */
  ghost predicate AbortStart(jobs: Jobs, txns: Txns, id: JobId, cause: Cause) {
    && id in jobs && jobs[id].txn.Some? && jobs[id].txn.value in txns
    && var x := txns[jobs[id].txn.value];
    && !x.aborting && x.committed == {} && x.aborted == {}
    && Awaitable(jobs, x.members, id) && cause != NoAbort
    && Doomed(jobs[id], !Fails(jobs[id])) && (!Fails(jobs[id]) ==> cause == PrepareFailed(id))
  }

  /** What job_finalize_single expects, for a member of a doomed transaction. */
  lemma {:induction false} DoomedRetires(j: Job, x: Txn, leader: JobId, id: JobId, spared: bool)
    requires Doomed(j, spared && id == leader) && Completed(j) && j.status !in {Concluded, Null}
    requires x.cause != NoAbort && (spared ==> x.cause == PrepareFailed(leader))
    ensures Decided(j) && MayRetire(x, id, Fails(j)) && (Fails(j) <==> !(spared && id == leader))
  {
  }

  /** The remaining members are not touched when one of them leaves. */
  lemma {:induction false} DoomedFrame(jobs: Jobs, jobs': Jobs, x: Txn, x': Txn, leader: JobId, spared: bool, id: JobId)
    requires AllDoomed(jobs, x, leader, spared) && OthersSame(jobs, jobs', {id}) && x'.members == x.members - {id}
    ensures AllDoomed(jobs', x', leader, spared) && forall run :: MayHaveRun(jobs, jobs', x'.members, run)
  {
  }

  lemma {:induction false} OthersSameTransitive(a: Jobs, b: Jobs, c: Jobs, s: set<JobId>, s': set<JobId>)
    requires OthersSame(a, b, s) && OthersSame(b, c, s') && s' <= s
    ensures OthersSame(a, c, s)
  {
  }

  /** job_cancel_async for the members of s. */
  ghost predicate CancelledOn(jobs: Jobs, jobs': Jobs, s: set<JobId>) {
    && jobs'.Keys == jobs.Keys
    && (forall j :: j in jobs ==> jobs'[j] == if j in s then CancelRecord(jobs[j]) else jobs[j])
  }

  /** The cancelled members end as the loop leaves them. */
  lemma {:induction false} CancelThenEnd(jobs: Jobs, cancelled: Jobs, jobs': Jobs, all: set<JobId>, leader: JobId,
                                         run: JobId -> int)
    requires CancelledOn(jobs, cancelled, all - {leader}) && RanAndEnded(cancelled, jobs', all, run)
             && OthersSame(jobs, jobs', all)
    ensures AbortsTo(jobs, jobs', all, leader, run)
  {
    hide FinalRecord, RunRecord, CancelRecord;
  }

  // ---------------------------------------------------------------- finalising a transaction

  /** All members wait for the decision. */
  ghost predicate Undecided(jobs: Jobs, txns: Txns, t: TxnId) {
    && t in txns && AllPending(jobs, txns[t]) && (forall m :: m in txns[t].members ==> !jobs[m].cancelled)
    && !txns[t].aborting && txns[t].committed == {} && txns[t].aborted == {}
  }

  /** The outcome of preparing a job. */
  function Prepared(j: Job, answer: int): (r: Job)
    requires JobOk(j) && j.status == Pending
    ensures JobOk(r) && r.txn == j.txn && r.refs == j.refs && (answer != 0 ==> r.status == Aborting && Fails(r))
  {
    if answer == 0 then j else ToAborting(j.(ret := answer))
  }

  /** The failed prepare of one member starts the abort. */
  lemma {:induction false} PrepareStartsAbort(jobs: Jobs, txns: Txns, t: TxnId, id: JobId, failed: JobId, answer: int)
    requires Consistent(jobs, txns) && Undecided(jobs, txns, t) && answer != 0
    requires id in txns[t].members && failed in txns[t].members
    ensures JobOk(jobs[failed]) && var jobs' := jobs[failed := Prepared(jobs[failed], answer)];
            && AbortStart(jobs', txns, id, PrepareFailed(id)) && (Fails(jobs'[id]) <==> failed == id)
            && OthersStarted(jobs', txns[t].members, id)
            && (forall m :: m in txns[t].members && m in jobs' ==> Completed(jobs'[m]))
  {
    MembersUnfinished(jobs, txns, t);
    assert jobs[id].status == Pending && jobs[failed].status == Pending;
  }

  /** The PENDING members have been committed one by one, down to those in `left`. */
  function CommittedTxn(members: set<JobId>, left: set<JobId>): Txn {
    Txn(false, left, members - left, {}, NoAbort)
  }

  lemma {:induction false} RetiredCommitted(members: set<JobId>, left: set<JobId>, other: JobId)
    requires other in left && left <= members
    ensures Retired(CommittedTxn(members, left), other, false) == CommittedTxn(members, left - {other})
  {
    assert Retired(CommittedTxn(members, left), other, false).committed
           == CommittedTxn(members, left - {other}).committed;
  }

  ghost predicate Committable(jobs: Jobs, s: set<JobId>) {
    forall m :: m in s ==> m in jobs && jobs[m].status == Pending && !Fails(jobs[m])
  }

  /** The members of `all` have been committed down to those in `left`, which are as they were. */
  ghost predicate CommittedSome(jobs: Jobs, jobs': Jobs, left: set<JobId>, all: set<JobId>) {
    && OthersSame(jobs, jobs', all - left)
    && (forall m :: m in all - left ==> m in jobs && At(jobs', m) == FinalRecord(jobs[m]))
  }

  lemma {:induction false} CommittedNone(jobs: Jobs, all: set<JobId>)
    ensures CommittedSome(jobs, jobs, all, all)
  {
  }

  lemma {:induction false} CommittedOneMore(jobs: Jobs, jobs': Jobs, jobs'': Jobs, left: set<JobId>, all: set<JobId>,
                                            m: JobId)
    requires CommittedSome(jobs, jobs', left, all) && m in left && left <= all && m in jobs'
             && OthersSame(jobs', jobs'', {m})
    requires At(jobs'', m) == FinalRecord(jobs'[m])
    ensures CommittedSome(jobs, jobs'', left - {m}, all)
  {
    hide FinalRecord;
  }

  lemma {:induction false} CommittedAll(jobs: Jobs, jobs': Jobs, all: set<JobId>)
    requires CommittedSome(jobs, jobs', {}, all)
    ensures CommitsTo(jobs, jobs', all)
  {
    assert all - {} == all;
  }

  lemma {:induction false} UndecidedPending(jobs: Jobs, txns: Txns, t: TxnId)
    requires Consistent(jobs, txns) && Undecided(jobs, txns, t)
    ensures Committable(jobs, txns[t].members)
  {
    MembersUnfinished(jobs, txns, t);
  }

  lemma {:induction false} PendingFrame(jobs: Jobs, jobs': Jobs, left: set<JobId>, id: JobId)
    requires OthersSame(jobs, jobs', {id}) && Committable(jobs, left)
    ensures Committable(jobs', left - {id})
  {
  }

  // ---------------------------------------------------------------- completion

  ghost predicate AllWaiting(jobs: Jobs, x: Txn) {
    forall m :: m in x.members ==> m in jobs && jobs[m].status == Waiting && !jobs[m].cancelled
  }

  ghost predicate PendingOn(jobs: Jobs, jobs': Jobs, s: set<JobId>) {
    && jobs'.Keys == jobs.Keys
    && (forall j :: j in jobs && j !in s ==> jobs'[j] == jobs[j])
    && (forall j :: j in jobs && j in s ==> jobs'[j] == jobs[j].(status := Pending))
  }

  lemma {:induction false} PendingOneMore(jobs0: Jobs, jobs: Jobs, s: set<JobId>, m: JobId)
    requires PendingOn(jobs0, jobs, s) && m in jobs && m !in s
    ensures PendingOn(jobs0, jobs[m := jobs[m].(status := Pending)], s + {m})
  {
  }

  /** A job whose coroutine has ended without failure. */
  predicate Succeeds(j: Job) {
    j.status in {Running, Ready} && j.deferred && !Fails(j)
  }

  /** One more member waits: its transaction stays stable. */
  lemma {:induction false} WaitingStable(jobs: Jobs, txns: Txns, id: JobId)
    requires Consistent(jobs, txns) && AllStable(jobs, txns) && id in jobs && Succeeds(jobs[id])
    ensures Consistent(jobs[id := jobs[id].(status := Waiting)], txns)
            && AllStable(jobs[id := jobs[id].(status := Waiting)], txns)
    ensures NonePending(jobs[id := jobs[id].(status := Waiting)], txns[jobs[id].txn.value])
  {
    var t := jobs[id].txn.value;
    var jobs' := jobs[id := jobs[id].(status := Waiting)];
    UpdateConsistent(jobs, txns, id, jobs[id].(status := Waiting));
    assert Stable(jobs, txns[t]) && id in txns[t].members;
    OthersStable(jobs, txns, t, jobs', txns[t]);
    assert txns[t := txns[t]] == txns;
  }

  /** When no member of a stable transaction runs any more and none is PENDING, all wait. */
  lemma {:induction false} AllWait(jobs: Jobs, txns: Txns, t: TxnId)
    requires Consistent(jobs, txns) && t in txns && Stable(jobs, txns[t]) && NonePending(jobs, txns[t])
    requires forall m :: m in txns[t].members && m in jobs ==> Completed(jobs[m])
    ensures AllWaiting(jobs, txns[t]) && forall m :: m in txns[t].members ==> jobs[m].ret == 0
  {
  }

  lemma {:induction false} PendingStable(jobs: Jobs, jobs': Jobs, txns: Txns, t: TxnId)
    requires Consistent(jobs, txns) && AllStable(jobs, txns) && t in txns && txns[t].members != {}
    requires AllWaiting(jobs, txns[t]) && PendingOn(jobs, jobs', txns[t].members)
    ensures AllStable(jobs', txns) && Undecided(jobs', txns, t) && OthersSame(jobs, jobs', txns[t].members)
            && HeldStay(jobs, jobs')
  {
    assert Stable(jobs, txns[t]);
    MembersUnfinished(jobs, txns, t);
    assert OthersSame(jobs, jobs', txns[t].members);
    OthersStable(jobs, txns, t, jobs', txns[t]);
    assert txns[t := txns[t]] == txns;
  }

  /** The transaction of job id was aborted, from the state in which that began. */
  ghost predicate AbortedBy(jobs: Jobs, txns: Txns, jobs': Jobs, txns': Txns, id: JobId, run: JobId -> int) {
    && id in jobs && jobs[id].txn.Some? && jobs[id].txn.value in txns
    && var t := jobs[id].txn.value; var all := txns[t].members;
    && txns' == txns[t := AbortedTxn(all, id, false, MemberFailed, {})] && AbortsTo(jobs, jobs', all, id, run)
  }

  lemma {:induction false} AbortedAll(members: set<JobId>, id: JobId, cause: Cause)
    ensures AbortedTxn(members, id, false, cause, {}).aborted == members
            && AbortedTxn(members, id, false, cause, {}).committed == {}
  {
  }

  ghost predicate OthersRunning(jobs: Jobs, s: set<JobId>, id: JobId) {
    exists m :: m in s && m != id && m in jobs && !Completed(jobs[m])
  }

  ghost predicate NeedsFinalize(jobs: Jobs, s: set<JobId>) {
    exists m :: m in s && m in jobs && !jobs[m].auto.finalize
  }

  function MadePending(jobs: Jobs, s: set<JobId>): Jobs {
    map m | m in jobs :: if m in s then jobs[m].(status := Pending) else jobs[m]
  }

  /**
   What the success of job id leads to: it waits as long as other members run; the last one makes all
   PENDING, and finalises them unless one of them is to be finalised by the user.
   */
  ghost predicate SuccessOf(jobs: Jobs, txns: Txns, jobs': Jobs, txns': Txns, id: JobId, prepare: JobId -> int,
                            run: JobId -> int) {
    && id in jobs && jobs[id].txn.Some? && jobs[id].txn.value in txns
    && var t := jobs[id].txn.value; var all := txns[t].members;
    && if OthersRunning(jobs, all, id) then txns' == txns && jobs' == jobs[id := jobs[id].(status := Waiting)]
       else if NeedsFinalize(jobs, all) then txns' == txns && jobs' == MadePending(jobs, all)
       else FinalisedBy(MadePending(jobs, all), txns, jobs', txns', t, id, prepare, run)
  }

  ghost predicate InTxn(jobs: Jobs, txns: Txns, id: JobId, t: TxnId) {
    id in jobs && jobs[id].txn == Some(t) && t in txns && id in txns[t].members && !Completed(jobs[id])
  }

  lemma {:induction false} SuccessWaits(jobs: Jobs, txns: Txns, t: TxnId, id: JobId, jobs': Jobs, prepare: JobId -> int,
                                        run: JobId -> int)
    requires InTxn(jobs, txns, id, t) && jobs' == jobs[id := jobs[id].(status := Waiting)]
    requires exists m :: m in txns[t].members && m in jobs' && !Completed(jobs'[m])
    ensures SuccessOf(jobs, txns, jobs', txns, id, prepare, run)
  {
  }

  lemma {:induction false} NoneRunning(jobs: Jobs, txns: Txns, t: TxnId, id: JobId, waiting: Jobs, pending: Jobs)
    requires InTxn(jobs, txns, id, t) && waiting == jobs[id := jobs[id].(status := Waiting)]
    requires (forall m :: m in txns[t].members && m in waiting ==> Completed(waiting[m]))
             && PendingOn(waiting, pending, txns[t].members)
    ensures !OthersRunning(jobs, txns[t].members, id)
            && (NeedsFinalize(jobs, txns[t].members) <==> NeedsFinalize(pending, txns[t].members))
  {
    hide Completed;
    assert forall m :: m in jobs && m != id ==> m in waiting && waiting[m] == jobs[m];
    assert forall m :: m in txns[t].members && m in jobs ==> m in pending && pending[m].auto == jobs[m].auto;
  }

  lemma {:induction false} PendingIs(jobs: Jobs, id: JobId, pending: Jobs, s: set<JobId>)
    requires id in jobs && id in s && PendingOn(jobs[id := jobs[id].(status := Waiting)], pending, s)
    ensures pending == MadePending(jobs, s)
  {
  }

  lemma {:induction false} SuccessPends(jobs: Jobs, txns: Txns, t: TxnId, id: JobId, prepare: JobId -> int,
                                        run: JobId -> int)
    requires InTxn(jobs, txns, id, t) && !OthersRunning(jobs, txns[t].members, id)
             && NeedsFinalize(jobs, txns[t].members)
    ensures SuccessOf(jobs, txns, MadePending(jobs, txns[t].members), txns, id, prepare, run)
  {
  }

  lemma {:induction false} SuccessFinal(jobs: Jobs, txns: Txns, t: TxnId, id: JobId, jobs': Jobs, txns': Txns,
                                        prepare: JobId -> int, run: JobId -> int)
    requires InTxn(jobs, txns, id, t) && !OthersRunning(jobs, txns[t].members, id)
             && !NeedsFinalize(jobs, txns[t].members)
    requires FinalisedBy(MadePending(jobs, txns[t].members), txns, jobs', txns', t, id, prepare, run)
    ensures SuccessOf(jobs, txns, jobs', txns', id, prepare, run)
  {
  }

  /** What completing job id does: a failure aborts its transaction. */
  ghost predicate Completion(jobs: Jobs, txns: Txns, jobs': Jobs, txns': Txns, id: JobId, prepare: JobId -> int,
                             run: JobId -> int) {
    && id in jobs
    && if Fails(jobs[id]) then AbortedBy(jobs[id := FailRecord(jobs[id])], txns, jobs', txns', id, run)
       else SuccessOf(jobs, txns, jobs', txns', id, prepare, run)
  }

  /** Whether completing job id ends: if it fails the other members are awaited. */
  predicate CompletionEnds(jobs: Jobs, txns: Txns, id: JobId) {
    id in jobs && jobs[id].txn.Some? && jobs[id].txn.value in txns && Fails(jobs[id]) ==>
      OthersStarted(jobs, txns[jobs[id].txn.value].members, id)
  }

  /** How a transaction may end when it is finalised through job id. */
  ghost predicate FinalisedBy(jobs: Jobs, txns: Txns, jobs': Jobs, txns': Txns, t: TxnId, id: JobId,
                              prepare: JobId -> int, run: JobId -> int)
    requires t in txns
  {
    var all := txns[t].members;
    || ((forall m :: m in all ==> prepare(m) == 0) && txns' == txns[t := CommittedTxn(all, {})]
        && CommitsTo(jobs, jobs', all))
    || (exists f :: PrepareFails(jobs, txns, jobs', txns', t, id, f, prepare, run))
  }

  /** The prepare of f ended the loop, and the transaction was aborted on behalf of job id. */
  ghost predicate PrepareFails(jobs: Jobs, txns: Txns, jobs': Jobs, txns': Txns, t: TxnId, id: JobId, f: JobId,
                               prepare: JobId -> int, run: JobId -> int)
    requires t in txns
  {
    && f in txns[t].members && f in jobs && prepare(f) != 0
    && txns' == txns[t := AbortedTxn(txns[t].members, id, f != id, PrepareFailed(id), {})]
    && AbortsTo(jobs[f := PrepareRecord(jobs[f], prepare(f))], jobs', txns[t].members, id, run)
  }

  lemma {:induction false} PrepareRecordIs(j: Job, answer: int)
    requires JobOk(j) && j.status == Pending
    ensures PrepareRecord(j, answer) == Prepared(j, answer)
  {
  }

  lemma {:induction false} CommitsToFrame(jobs: Jobs, jobs': Jobs, all: set<JobId>)
    requires CommitsTo(jobs, jobs', all)
    ensures OthersSame(jobs, jobs', all)
  {
  }

  function PrepareRecord(j: Job, answer: int): Job {
    if JobOk(j) && j.status == Pending then Prepared(j, answer) else j
  }

  /** A job that fails: its coroutine has ended, or it was cancelled before it was started. */
  predicate CompletesFailing(j: Job) {
    Fails(j) && ((j.status in {Running, Ready} && j.deferred) || j.status == Created)
  }

  lemma {:induction false} FailStartsAbort(jobs: Jobs, txns: Txns, id: JobId)
    requires Consistent(jobs, txns) && AllStable(jobs, txns) && id in jobs && CompletesFailing(jobs[id])
    requires jobs[id].txn.Some? && jobs[id].txn.value in txns
    ensures PartsOk(jobs[id]) && var jobs' := jobs[id := ToAborting(jobs[id])];
            AbortStart(jobs', txns, id, MemberFailed) && Consistent(jobs', txns)
            && StableExcept(jobs', txns, jobs[id].txn.value)
  {
    var t := jobs[id].txn.value;
    JobIsMember(jobs, txns, id);
    UpdateConsistent(jobs, txns, id, ToAborting(jobs[id]));
    assert Stable(jobs, txns[t]);
    AllStableExcept(jobs, txns, t);
    OthersStable(jobs, txns, t, jobs[id := ToAborting(jobs[id])], txns[t]);
    assert txns[t := txns[t]] == txns;
  }

  /** A change of one member is a change within its transaction. */
  lemma {:induction false} OneJobFrame(jobs: Jobs, id: JobId, j: Job, s: set<JobId>)
    requires id in jobs && id in s && j.refs == jobs[id].refs
    ensures OthersSame(jobs, jobs[id := j], s) && HeldStay(jobs, jobs[id := j])
  {
  }

  lemma {:induction false} StableAt(jobs: Jobs, txns: Txns, t: TxnId)
    requires AllStable(jobs, txns) && t in txns
    ensures Stable(jobs, txns[t])
  {
  }

  // ---------------------------------------------------------------- single jobs

  /** A change of one job that its transaction need not notice. */
  predicate KeepsStable(j: Job, r: Job) {
    && r.txn == j.txn && r.status != Aborting && (r.status == Pending <==> j.status == Pending)
    && (Completed(r) && r.txn.Some? ==> !r.cancelled)
  }

  lemma {:induction false} UpdateValid(jobs: Jobs, txns: Txns, id: JobId, r: Job)
    requires Consistent(jobs, txns) && AllStable(jobs, txns) && id in jobs && JobOk(r) && KeepsStable(jobs[id], r)
    ensures Consistent(jobs[id := r], txns) && AllStable(jobs[id := r], txns)
  {
    UpdateConsistent(jobs, txns, id, r);
    forall t | t in txns
      ensures Stable(jobs[id := r], txns[t])
    {
      assert Stable(jobs, txns[t]);
      assert id in txns[t].members ==> jobs[id].txn == Some(t);
    }
  }

  lemma {:induction false} OutsiderNotMember(jobs: Jobs, txns: Txns, t: TxnId, id: JobId)
    requires Consistent(jobs, txns) && t in txns && (id in jobs ==> jobs[id].txn == None)
    ensures forall m :: m in txns[t].members ==> m in jobs && m != id
  {
  }

  /** Transactions do not notice what happens to a job that is in none. */
  lemma {:induction false} OutsiderStable(jobs: Jobs, jobs': Jobs, txns: Txns, id: JobId)
    requires Consistent(jobs, txns) && AllStable(jobs, txns) && id in jobs && jobs[id].txn == None
             && OthersSame(jobs, jobs', {id})
    ensures AllStable(jobs', txns)
  {
    hide Consistent, Stable;
    forall t | t in txns
      ensures Stable(jobs', txns[t])
    {
      OutsiderNotMember(jobs, txns, t, id);
      StableFrame(jobs, jobs', txns[t]);
    }
  }

  /** A transaction that new jobs may still join: none of its members has got as far as PENDING. */
  ghost predicate Joinable(jobs: Jobs, x: Txn) {
    !x.aborting && x.committed == {} && x.aborted == {} && NonePending(jobs, x)
  }

  lemma {:induction false} JoinConsistent(jobs: Jobs, txns: Txns, t: TxnId, id: JobId, j: Job)
    requires Consistent(jobs, txns) && id !in jobs && t in txns && JobOk(j) && j.txn == Some(t)
    ensures Consistent(jobs[id := j], txns[t := txns[t].(members := txns[t].members + {id})])
    ensures forall u :: u in txns ==> id !in txns[u].members
  {
  }

  lemma {:induction false} JoinStable(jobs: Jobs, x: Txn, id: JobId, j: Job)
    requires Stable(jobs, x) && id !in jobs && id !in x.members && Joinable(jobs, x) && j.status == Created
    ensures Stable(jobs[id := j], x.(members := x.members + {id}))
  {
  }

  lemma {:induction false} JoinValid(jobs: Jobs, txns: Txns, t: TxnId, id: JobId, j: Job)
    requires Consistent(jobs, txns) && AllStable(jobs, txns) && id !in jobs && t in txns && Joinable(jobs, txns[t])
    requires JobOk(j) && j.status == Created && j.txn == Some(t)
    ensures var txns' := txns[t := txns[t].(members := txns[t].members + {id})];
            Consistent(jobs[id := j], txns') && AllStable(jobs[id := j], txns')
  {
    hide Consistent, Stable;
    var txns' := txns[t := txns[t].(members := txns[t].members + {id})];
    JoinConsistent(jobs, txns, t, id, j);
    forall u | u in txns'
      ensures Stable(jobs[id := j], txns'[u])
    {
      if u == t {
        JoinStable(jobs, txns[t], id, j);
      } else {
        MembersUnfinished(jobs, txns, u);
        StableFrame(jobs, jobs[id := j], txns[u]);
      }
    }
  }

  lemma {:induction false} NotAMember(jobs: Jobs, txns: Txns, t: TxnId, id: JobId)
    requires Consistent(jobs, txns) && t in txns && id !in jobs
    ensures id !in txns[t].members
  {
  }

  lemma {:induction false} NewTxnValid(jobs: Jobs, txns: Txns, t: TxnId)
    requires Consistent(jobs, txns) && AllStable(jobs, txns) && t !in txns
    ensures Consistent(jobs, txns[t := CommittedTxn({}, {})]) && AllStable(jobs, txns[t := CommittedTxn({}, {})])
    ensures Joinable(jobs, CommittedTxn({}, {}))
  {
    var x := CommittedTxn({}, {});
    assert x.members == {} && x.committed == {} && OutcomeOk(x) && Stable(jobs, x);
    NewTxnConsistent(jobs, txns, t, x);
    forall u | u in txns
      ensures Stable(jobs, txns[u])
    {
    }
  }

  lemma {:induction false} NewTxnConsistent(jobs: Jobs, txns: Txns, t: TxnId, x: Txn)
    requires Consistent(jobs, txns) && t !in txns && x.members == {} && OutcomeOk(x)
    ensures Consistent(jobs, txns[t := x])
  {
    hide JobOk, OutcomeOk;
  }

  lemma {:induction false} LeaveUpdated(jobs: Jobs, txns: Txns, t: TxnId, id: JobId, j: Job)
    requires Consistent(jobs, txns) && id in jobs && jobs[id].txn == Some(t) && t in txns && JobOk(j) && j.txn == None
    ensures Consistent(jobs[id := j], txns[t := txns[t].(members := txns[t].members - {id})])
  {
  }

  lemma {:induction false} LeaveFreed(jobs: Jobs, txns: Txns, t: TxnId, id: JobId)
    requires Consistent(jobs, txns) && id in jobs && jobs[id].txn == Some(t) && t in txns
    ensures Consistent(jobs - {id}, txns[t := txns[t].(members := txns[t].members - {id})])
    ensures forall u :: u in txns && u != t ==> id !in txns[u].members
  {
  }

  lemma {:induction false} LeaveConsistent(jobs: Jobs, jobs': Jobs, txns: Txns, t: TxnId, id: JobId)
    requires Consistent(jobs, txns) && id in jobs && jobs[id].txn == Some(t) && t in txns
    requires OthersSame(jobs, jobs', {id}) && (id in jobs' ==> JobOk(jobs'[id]) && jobs'[id].txn == None)
    ensures Consistent(jobs', txns[t := txns[t].(members := txns[t].members - {id})])
    ensures forall u :: u in txns && u != t ==> id !in txns[u].members
  {
    hide Consistent;
    LeaveFreed(jobs, txns, t, id);
    if id in jobs' {
      LeaveUpdated(jobs, txns, t, id, jobs'[id]);
      assert jobs' == jobs[id := jobs'[id]];
    } else {
      assert jobs' == jobs - {id};
    }
  }

  lemma {:induction false} LeaveStable(jobs: Jobs, jobs': Jobs, x: Txn, id: JobId)
    requires Stable(jobs, x) && OthersSame(jobs, jobs', {id})
    ensures Stable(jobs', x.(members := x.members - {id}))
  {
  }

  /** job_early_fail takes a job that was never started out of its transaction. */
  lemma {:induction false} LeaveValid(jobs: Jobs, jobs': Jobs, txns: Txns, t: TxnId, id: JobId)
    requires Consistent(jobs, txns) && AllStable(jobs, txns) && id in jobs && jobs[id].txn == Some(t) && t in txns
    requires OthersSame(jobs, jobs', {id}) && (id in jobs' ==> JobOk(jobs'[id]) && jobs'[id].txn == None)
    ensures var txns' := txns[t := txns[t].(members := txns[t].members - {id})];
            Consistent(jobs', txns') && AllStable(jobs', txns')
  {
    hide Consistent, Stable;
    var txns' := txns[t := txns[t].(members := txns[t].members - {id})];
    LeaveConsistent(jobs, jobs', txns, t, id);
    forall u | u in txns'
      ensures Stable(jobs', txns'[u])
    {
      LeaveStable(jobs, jobs', txns[u], id);
      assert u != t ==>
               txns[u].members - {id} == txns[u].members && txns'[u] == txns[u].(members := txns[u].members - {id});
    }
  }

  /** A PENDING job's transaction is undecided. */
  lemma {:induction false} PendingUndecided(jobs: Jobs, txns: Txns, id: JobId)
    requires Consistent(jobs, txns) && AllStable(jobs, txns) && id in jobs && jobs[id].status == Pending
    ensures jobs[id].txn.Some? && Undecided(jobs, txns, jobs[id].txn.value)
  {
    var t := jobs[id].txn.value;
    assert id in txns[t].members && Stable(jobs, txns[t]);
  }

  /** Cancelling a job whose coroutine has ended starts the abort of its transaction. */
  lemma {:induction false} CancelStartsAbort(jobs: Jobs, txns: Txns, id: JobId, force: bool)
    requires Consistent(jobs, txns) && AllStable(jobs, txns) && id in jobs && jobs[id].deferred
             && jobs[id].status !in {Concluded, Null}
    requires jobs[id].txn.Some? && jobs[id].txn.value in txns
    ensures JobOk(jobs[id]) && var jobs' := jobs[id := CancelAsync(jobs[id], force)];
            AbortStart(jobs', txns, id, MemberFailed) && Consistent(jobs', txns)
            && StableExcept(jobs', txns, jobs[id].txn.value)
  {
    var t := jobs[id].txn.value;
    JobIsMember(jobs, txns, id);
    UpdateConsistent(jobs, txns, id, CancelAsync(jobs[id], force));
    assert Stable(jobs, txns[t]);
    AllStableExcept(jobs, txns, t);
    OthersStable(jobs, txns, t, jobs[id := CancelAsync(jobs[id], force)], txns[t]);
    assert txns[t := txns[t]] == txns;
  }

  // ---------------------------------------------------------------- histories

  type Histories = map<TxnId, History>

  /**
   The history of a transaction: nothing is decided, or all its members have left it and the outcome is as it should be.
   */
  ghost predicate Explained(x: Txn, h: History) {
    if x.committed == {} && x.aborted == {} then Quiet(h, x.members)
    else x.members == {} && Outcome(h) && Told(h, x.aborted, x.committed)
  }

  ghost predicate Recorded(txns: Txns, histories: Histories) {
    histories.Keys == txns.Keys && forall t :: t in txns ==> Explained(txns[t], histories[t])
  }

  function Extended(histories: Histories, t: TxnId, h: History): Histories
    requires t in histories
  {
    histories[t := histories[t] + h]
  }

  lemma {:induction false} ExtendTwice(histories: Histories, t: TxnId, h: History, h': History)
    requires t in histories
    ensures Extended(Extended(histories, t, h), t, h') == Extended(histories, t, h + h')
  {
    assert histories[t] + h + h' == histories[t] + (h + h');
  }

  lemma {:induction false} ExtendNothing(histories: Histories, t: TxnId)
    requires t in histories
    ensures Extended(histories, t, []) == histories
  {
    assert histories[t] + [] == histories[t];
  }

  /** New events start with `first`, and all answers of prepare callbacks among them are those given. */
  ghost predicate Extends(histories: Histories, histories': Histories, t: TxnId, first: History,
                          prepare: JobId -> int) {
    && t in histories && t in histories' && histories' == histories[t := histories'[t]]
    && histories[t] + first <= histories'[t]
    && (forall i :: |histories[t]| <= i < |histories'[t]| ==> Answered(histories'[t][i], prepare))
  }

  predicate Answered(e: Event, prepare: JobId -> int) {
    e.PrepareCall? ==> e.answer == prepare(e.id)
  }

  lemma {:induction false} ExtendsBy(histories: Histories, t: TxnId, first: History, h: History, prepare: JobId -> int)
    requires t in histories && (forall e :: e in first ==> Answered(e, prepare))
             && (forall e :: e in h ==> Answered(e, prepare))
    ensures Extends(histories, Extended(histories, t, first + h), t, first, prepare)
  {
    var b := histories[t] + (first + h);
    assert histories[t] + first + h == b;
    forall i | |histories[t]| <= i < |b|
      ensures Answered(b[i], prepare)
    {
      assert b[i] == (first + h)[i - |histories[t]|];
    }
  }

  /** One event, and then more. */
  lemma {:induction false} ExtendsOn(histories: Histories, t: TxnId, e: Event, histories': Histories, first: History,
                                     prepare: JobId -> int)
    requires t in histories && Answered(e, prepare)
             && Extends(Extended(histories, t, [e]), histories', t, first, prepare)
    ensures Extends(histories, histories', t, [e], prepare)
  {
    var a, b := histories[t], histories'[t];
    assert a + [e] <= b;
    forall i | |a| <= i < |b|
      ensures Answered(b[i], prepare)
    {
      assert b[|a|] == (a + [e])[|a|];
    }
  }

  lemma {:induction false} NothingNew(histories: Histories, t: TxnId, prepare: JobId -> int)
    requires t in histories
    ensures Extends(histories, histories, t, [], prepare)
  {
  }

  lemma {:induction false} ExtendsWeaker(histories: Histories, histories': Histories, t: TxnId, first: History,
                                         prepare: JobId -> int)
    requires Extends(histories, histories', t, first, prepare)
    ensures Extends(histories, histories', t, [], prepare)
  {
    assert histories[t] + [] <= histories[t] + first;
  }

  lemma {:induction false} DecisionsAnswer(d: History, aborted: set<JobId>, committed: set<JobId>, awaited: set<JobId>,
                                           prepare: JobId -> int)
    requires Decides(d, aborted, committed, awaited)
    ensures forall e :: e in d ==> Answered(e, prepare)
  {
  }

  lemma {:induction false} FinalisedExtends(histories: Histories, t: TxnId, id: JobId, p: History, d: History,
                                            aborted: set<JobId>, committed: set<JobId>, prepare: JobId -> int)
    requires t in histories && (forall e :: e in p ==> Answered(e, prepare)) && Decides(d, aborted, committed, {})
    ensures Extends(histories, Extended(histories, t, [Finalising(id)] + p + d), t, [Finalising(id)], prepare)
  {
    DecisionsAnswer(d, aborted, committed, {}, prepare);
    ExtendsBy(histories, t, [Finalising(id)], p + d, prepare);
    assert [Finalising(id)] + p + d == [Finalising(id)] + (p + d);
  }

  /** The members of t end: the other histories are as they were. */
  lemma {:induction false} RecordedOne(txns: Txns, histories: Histories, t: TxnId, x: Txn, h: History)
    requires Recorded(txns, histories) && t in txns && Explained(x, histories[t] + h)
    ensures Recorded(txns[t := x], Extended(histories, t, h))
  {
  }

  lemma {:induction false} RecordedKeys(txns: Txns, histories: Histories)
    requires Recorded(txns, histories)
    ensures histories.Keys == txns.Keys
  {
  }

  lemma {:induction false} ExtendedHas(histories: Histories, t: TxnId, h: History)
    requires t in histories
    ensures t in Extended(histories, t, h)
  {
  }

  lemma {:induction false} RunToExitSteps(j: Job, ret: int)
    requires JobOk(j) && j.started && !Completed(j) && j.cancelled
    ensures var awake := Awake(j);
            var k := if j.deferred then awake else awake.(ret := ret, deferred := true);
            && PartsOk(k) && k.status !in {Concluded, Null} && Fails(k) && Aborting in Successors(k.status)
            && k.txn == j.txn && j.txn.Some? && RunToExit(j, ret) == ToAborting(k) && awake.deferred == j.deferred
  {
  }

  lemma {:induction false} RunRecordOf(j: Job, ret: int)
    requires JobOk(j)
    ensures Completed(j) ==> RunRecord(j, ret) == j
    ensures !Completed(j) && j.started && j.cancelled ==> RunRecord(j, ret) == RunToExit(j, ret)
  {
  }

  lemma {:induction false} RanToExitFails(j: Job, ret: int)
    requires JobOk(j) && j.started && !Completed(j) && j.cancelled
    ensures var r := RunToExit(j, ret); Fails(r) && r.ret != 0 && r.started
  {
  }

  lemma {:induction false} NothingAwaited(awaited: set<JobId>)
    ensures Awaited([], awaited)
  {
  }

  lemma {:induction false} AwaitedOneMore(jobs: Jobs, s: set<JobId>, h: History, m: JobId, ret: int)
    requires Awaited(h, Unfinished(jobs, s)) && m in s && m in jobs && !Completed(jobs[m]) && ret != 0
    ensures Awaited(h + [Ended(m, ret)], Unfinished(jobs, s))
  {
  }

  lemma {:induction false} UnfinishedMore(jobs: Jobs, h: History, s: set<JobId>, all: set<JobId>)
    requires Awaited(h, Unfinished(jobs, s)) && s <= all
    ensures Awaited(h, Unfinished(jobs, all))
  {
  }

  lemma {:induction false} CommitsOneMore(h: History, all: set<JobId>, left: set<JobId>, m: JobId)
    requires Decides(h, {}, CommittedTxn(all, left).committed, {}) && m in left && left <= all
    ensures Decides(h + [CommitCall(m)], {}, CommittedTxn(all, left - {m}).committed, {})
  {
    NothingAwaited({});
    DecidesOneMore(h, {}, all - left, {}, [], m, false);
    assert h + [] + [CommitCall(m)] == h + [CommitCall(m)];
    assert all - left + {m} == all - (left - {m});
  }

  lemma {:induction false} AbortsOneMore(h: History, x: Txn, awaited: set<JobId>, r: History, m: JobId, fails: bool)
    requires Decides(h, x.aborted, x.committed, awaited) && Awaited(r, awaited) && m !in x.aborted && m !in x.committed
    ensures Decides(h + (r + [Verdict(m, fails)]), Retired(x, m, fails).aborted, Retired(x, m, fails).committed,
                    awaited)
  {
    DecidesOneMore(h, x.aborted, x.committed, awaited, r, m, fails);
    assert h + r + [Verdict(m, fails)] == h + (r + [Verdict(m, fails)]);
  }

  /** A job awaited later was unfinished from the start. */
  lemma {:induction false} AwaitedMore(jobs: Jobs, jobs': Jobs, h: History, s: set<JobId>, all: set<JobId>)
    requires Awaited(h, Unfinished(jobs', s)) && AllContinue(jobs, jobs', s) && s <= all
    ensures Awaited(h, Unfinished(jobs, all))
  {
  }

  lemma {:induction false} NoneUnfinished(jobs: Jobs, x: Txn)
    requires forall m :: m in x.members && m in jobs ==> Completed(jobs[m])
    ensures Unfinished(jobs, x.members) == {}
  {
  }

  lemma {:induction false} UndecidedQuiet(txns: Txns, histories: Histories, t: TxnId)
    requires Recorded(txns, histories) && t in txns && txns[t].committed == {} && txns[t].aborted == {}
    ensures t in histories && Quiet(histories[t], txns[t].members)
  {
  }

  /** A member failed and all were aborted. */
  lemma {:induction false} RecordFailure(txns: Txns, histories: Histories, t: TxnId, id: JobId, cause: Cause,
                                         start: Event, d: History, awaited: set<JobId>)
    requires Recorded(txns, histories) && t in txns && txns[t].committed == {} && txns[t].aborted == {}
             && id in txns[t].members
    requires Failing(start) && Decides(d, txns[t].members, {}, awaited)
    ensures Recorded(txns[t := AbortedTxn(txns[t].members, id, false, cause, {})], Extended(histories, t, [start] + d))
  {
    hide Quiet, Outcome, Decides, Told;
    UndecidedQuiet(txns, histories, t);
    FailureOutcome(histories[t], start, d, txns[t].members, awaited);
    AbortedAll(txns[t].members, id, cause);
    RecordedOne(txns, histories, t, AbortedTxn(txns[t].members, id, false, cause, {}), [start] + d);
  }

  lemma {:induction false} RecordEnded(txns: Txns, histories: Histories, t: TxnId, id: JobId)
    requires Recorded(txns, histories) && t in txns && txns[t].committed == {} && txns[t].aborted == {}
    ensures Recorded(txns, Extended(histories, t, [Ended(id, 0)]))
  {
    hide Quiet, Outcome, Told;
    UndecidedQuiet(txns, histories, t);
    EndedQuiet(histories[t], txns[t].members, id);
    RecordedOne(txns, histories, t, txns[t], [Ended(id, 0)]);
    assert txns[t := txns[t]] == txns;
  }

  lemma {:induction false} RecordJoined(txns: Txns, histories: Histories, t: TxnId, id: JobId)
    requires Recorded(txns, histories) && t in txns && txns[t].committed == {} && txns[t].aborted == {}
             && id !in txns[t].members
    ensures Recorded(txns[t := txns[t].(members := txns[t].members + {id})], Extended(histories, t, [Joined(id)]))
  {
    hide Quiet, Outcome, Told;
    UndecidedQuiet(txns, histories, t);
    JoinedQuiet(histories[t], txns[t].members, id);
    RecordedOne(txns, histories, t, txns[t].(members := txns[t].members + {id}), [Joined(id)]);
  }

  lemma {:induction false} RecordLeft(txns: Txns, histories: Histories, t: TxnId, id: JobId)
    requires Recorded(txns, histories) && t in txns && txns[t].committed == {} && txns[t].aborted == {}
             && id in txns[t].members
    ensures Recorded(txns[t := txns[t].(members := txns[t].members - {id})], Extended(histories, t, [Left(id)]))
  {
    hide Quiet, Outcome, Told;
    UndecidedQuiet(txns, histories, t);
    LeftQuiet(histories[t], txns[t].members, id);
    RecordedOne(txns, histories, t, txns[t].(members := txns[t].members - {id}), [Left(id)]);
  }

  lemma {:induction false} RecordNew(txns: Txns, histories: Histories, t: TxnId)
    requires Recorded(txns, histories) && t !in txns
    ensures Recorded(txns[t := CommittedTxn({}, {})], histories[t := []])
  {
  }

  /** The transaction was finalised through id; f is the member, if any, whose prepare failed. */
  lemma {:induction false} RecordFinalised(txns: Txns, histories: Histories, t: TxnId, id: JobId, f: Option<JobId>,
                                           p: History, d: History)
    requires Recorded(txns, histories) && t in txns && txns[t].committed == {} && txns[t].aborted == {}
             && id in txns[t].members
    requires f.Some? ==> f.value in txns[t].members
    requires Prepares(p, txns[t].members, if f.None? then {} else {f.value})
    requires var x := FinalTxn(txns[t].members, id, f); Decides(d, x.aborted, x.committed, {})
    ensures Recorded(txns[t := FinalTxn(txns[t].members, id, f)], Extended(histories, t, [Finalising(id)] + p + d))
  {
    hide Quiet, Outcome, Decides, Prepares, Told;
    var all := txns[t].members;
    UndecidedQuiet(txns, histories, t);
    if f.None? {
      assert all - {} == all;
      CommitOutcome(histories[t], id, p, d, all);
    } else {
      assert all - {} - {} == all && all - {} - {id} == all - {id} && {id} - {} == {id};
      PrepareOutcome(histories[t], id, p, d, all, f.value);
    }
    RecordedOne(txns, histories, t, FinalTxn(all, id, f), [Finalising(id)] + p + d);
  }

  /** How a transaction ends that is finalised through id when the prepare of f fails, or none does. */
  function FinalTxn(members: set<JobId>, id: JobId, f: Option<JobId>): Txn {
    if f.None? then CommittedTxn(members, {}) else AbortedTxn(members, id, f.value != id, PrepareFailed(id), {})
  }

  // ---------------------------------------------------------------- references and pause requests

  /** Holding a reference makes no difference to how a job completes. */
  lemma {:induction false} HeldCompletes(jobs: Jobs, txns: Txns, id: JobId)
    requires id in jobs
    ensures CompletionEnds(jobs[id := Held(jobs[id])], txns, id) <==> CompletionEnds(jobs, txns, id)
  {
    if jobs[id].txn.Some? && jobs[id].txn.value in txns {
      OthersStartedUpdate(jobs, id, Held(jobs[id]), txns[jobs[id].txn.value].members);
    }
  }

  lemma {:induction false} HeldIs(jobs: Jobs, jobs': Jobs, id: JobId)
    requires HeldStay(jobs, jobs') && id in jobs && jobs[id].refs.holds > 0
    ensures id in jobs' && jobs'[id].refs.holds > 0
  {
  }

  /** Job id ends as it would have ended without the reference, and the others do anyway. */
  lemma {:induction false} HeldAborts(jobs: Jobs, jobs': Jobs, all: set<JobId>, id: JobId, j: Job, run: JobId -> int)
    requires AbortsTo(jobs[id := Held(j)], jobs', all, id, run) && id in all && id in jobs' && j.refs.count > 0
    ensures AbortsTo(jobs[id := j], Put(jobs', id, Released(jobs'[id])), all, id, run)
  {
    hide FinalRecord, RunRecord, CancelRecord, Released;
    HeldRun(j, run(id));
    HeldFinal(RunRecord(j, run(id)));
  }

  lemma {:induction false} HeldCommits(jobs: Jobs, jobs': Jobs, all: set<JobId>, id: JobId, j: Job)
    requires CommitsTo(jobs[id := Held(j)], jobs', all) && id in all && id in jobs' && j.refs.count > 0
    ensures CommitsTo(jobs[id := j], Put(jobs', id, Released(jobs'[id])), all)
  {
    hide FinalRecord, Released;
    HeldFinal(j);
  }

  lemma {:induction false} HeldPrepare(j: Job, answer: int)
    requires j.refs.count > 0
    ensures PrepareRecord(Held(j), answer) == Held(PrepareRecord(j, answer)) && PrepareRecord(j, answer).refs == j.refs
  {
  }

  lemma {:induction false} HeldPrepareFails(jobs: Jobs, txns: Txns, jobs': Jobs, txns': Txns, t: TxnId, id: JobId,
                                            f: JobId, j: Job, prepare: JobId -> int, run: JobId -> int)
    requires t in txns && id in txns[t].members && id in jobs' && j.refs.count > 0
    requires PrepareFails(jobs[id := Held(j)], txns, jobs', txns', t, id, f, prepare, run)
    ensures PrepareFails(jobs[id := j], txns, Put(jobs', id, Released(jobs'[id])), txns', t, id, f, prepare, run)
  {
    hide AbortsTo, PrepareRecord, Released;
    var all := txns[t].members;
    if f == id {
      HeldPrepare(j, prepare(f));
      assert jobs[id := Held(j)][f := PrepareRecord(Held(j), prepare(f))]
             == jobs[id := Held(PrepareRecord(j, prepare(f)))];
      assert jobs[id := j][f := PrepareRecord(j, prepare(f))] == jobs[id := PrepareRecord(j, prepare(f))];
      HeldAborts(jobs, jobs', all, id, PrepareRecord(j, prepare(f)), run);
    } else {
      var other := jobs[f := PrepareRecord(jobs[f], prepare(f))];
      assert jobs[id := Held(j)][f := PrepareRecord(jobs[f], prepare(f))] == other[id := Held(j)];
      assert jobs[id := j][f := PrepareRecord(jobs[f], prepare(f))] == other[id := j];
      HeldAborts(other, jobs', all, id, j, run);
    }
  }

  lemma {:induction false} HeldFinalised(jobs: Jobs, txns: Txns, jobs': Jobs, txns': Txns, t: TxnId, id: JobId, j: Job,
                                         prepare: JobId -> int, run: JobId -> int)
    requires t in txns && id in txns[t].members && id in jobs' && j.refs.count > 0
    requires FinalisedBy(jobs[id := Held(j)], txns, jobs', txns', t, id, prepare, run)
    ensures FinalisedBy(jobs[id := j], txns, Put(jobs', id, Released(jobs'[id])), txns', t, id, prepare, run)
  {
    hide CommitsTo, PrepareFails, Released;
    var all, held := txns[t].members, jobs[id := Held(j)];
    if CommitsTo(held, jobs', all) {
      HeldCommits(jobs, jobs', all, id, j);
    }
    if f :| PrepareFails(held, txns, jobs', txns', t, id, f, prepare, run) {
      HeldPrepareFails(jobs, txns, jobs', txns', t, id, f, j, prepare, run);
    }
  }

  /** A job that waits, or became PENDING with the others, only loses the reference. */
  lemma {:induction false} HeldWaits(j: Job)
    requires j.refs.count > 0
    ensures Released(Held(j)) == Some(j)
  {
  }

  /** A reference was held while a job completed, and is dropped. */
  lemma {:induction false} HeldCompletion(jobs: Jobs, txns: Txns, jobs': Jobs, txns': Txns, id: JobId,
                                          prepare: JobId -> int, run: JobId -> int)
    requires id in jobs && jobs[id].refs.count > 0
             && Completion(jobs[id := Held(jobs[id])], txns, jobs', txns', id, prepare, run)
    requires jobs[id].txn.Some? && jobs[id].txn.value in txns && id in txns[jobs[id].txn.value].members && id in jobs'
    ensures Completion(jobs, txns, Put(jobs', id, Released(jobs'[id])), txns', id, prepare, run)
  {
    hide AbortsTo, SuccessOf, Released, FailRecord;
    var j := jobs[id];
    var t := j.txn.value;
    var all, held := txns[t].members, jobs[id := Held(j)];
    if Fails(j) {
      HeldFail(j);
      FailKeepsTxn(Held(j));
      FailKeepsTxn(j);
      assert held[id := FailRecord(held[id])] == jobs[id := Held(FailRecord(j))];
      HeldAborts(jobs, jobs', all, id, FailRecord(j), run);
    } else {
      HeldSuccess(jobs, txns, jobs', txns', id, prepare, run);
    }
  }

  lemma {:induction false} HeldPending(jobs: Jobs, s: set<JobId>, id: JobId)
    requires id in jobs && id in s
    ensures MadePending(jobs[id := Held(jobs[id])], s) == MadePending(jobs, s)[id := Held(MadePending(jobs, s)[id])]
    ensures MadePending(jobs, s)[id].refs == jobs[id].refs && id in MadePending(jobs, s)
  {
  }

  lemma {:induction false} HeldSuccess(jobs: Jobs, txns: Txns, jobs': Jobs, txns': Txns, id: JobId,
                                       prepare: JobId -> int, run: JobId -> int)
    requires id in jobs && jobs[id].refs.count > 0
             && SuccessOf(jobs[id := Held(jobs[id])], txns, jobs', txns', id, prepare, run)
    requires jobs[id].txn.Some? && jobs[id].txn.value in txns && id in txns[jobs[id].txn.value].members && id in jobs'
    ensures SuccessOf(jobs, txns, Put(jobs', id, Released(jobs'[id])), txns', id, prepare, run)
  {
    hide FinalisedBy, Released, OthersRunning, NeedsFinalize, MadePending;
    var j := jobs[id];
    var t := j.txn.value;
    var all, held := txns[t].members, jobs[id := Held(j)];
    HeldRunning(jobs, all, id);
    if OthersRunning(jobs, all, id) {
      HeldWaits(j.(status := Waiting));
      assert jobs'[id] == Held(j.(status := Waiting));
      assert Put(jobs', id, Released(jobs'[id])) == jobs[id := j.(status := Waiting)];
    } else {
      var pending := MadePending(jobs, all);
      HeldPending(jobs, all, id);
      if NeedsFinalize(jobs, all) {
        HeldWaits(pending[id]);
        assert Put(jobs', id, Released(jobs'[id])) == pending;
      } else {
        HeldFinalised(pending, txns, jobs', txns', t, id, pending[id], prepare, run);
        assert pending[id := pending[id]] == pending;
      }
    }
  }

  lemma {:induction false} FailKeepsTxn(j: Job)
    ensures FailRecord(j).txn == j.txn
  {
  }

  lemma {:induction false} HeldRunning(jobs: Jobs, s: set<JobId>, id: JobId)
    requires id in jobs
    ensures OthersRunning(jobs[id := Held(jobs[id])], s, id) <==> OthersRunning(jobs, s, id)
    ensures NeedsFinalize(jobs[id := Held(jobs[id])], s) <==> NeedsFinalize(jobs, s)
  {
    var held := jobs[id := Held(jobs[id])];
    assert forall m :: m in jobs ==> Completed(held[m]) == Completed(jobs[m]) && held[m].auto == jobs[m].auto;
  }

  lemma {:induction false} HeldValid(jobs: Jobs, txns: Txns, id: JobId)
    requires Consistent(jobs, txns) && AllStable(jobs, txns) && id in jobs
    ensures Consistent(jobs[id := Held(jobs[id])], txns) && AllStable(jobs[id := Held(jobs[id])], txns)
  {
    RecordStable(jobs, txns, id);
    UpdateValid(jobs, txns, id, Held(jobs[id]));
  }

  lemma {:induction false} ReleasedValid(jobs: Jobs, txns: Txns, id: JobId)
    requires Consistent(jobs, txns) && AllStable(jobs, txns) && id in jobs && jobs[id].refs.holds > 0
    ensures Released(jobs[id]).None? ==> jobs[id].status == Null && jobs[id].txn == None
    ensures Consistent(Put(jobs, id, Released(jobs[id])), txns) && AllStable(Put(jobs, id, Released(jobs[id])), txns)
  {
    RecordStable(jobs, txns, id);
    if Released(jobs[id]).None? {
      FreedConsistent(jobs, txns, id);
      OutsiderStable(jobs, jobs - {id}, txns, id);
    } else {
      UpdateValid(jobs, txns, id, Released(jobs[id]).value);
    }
  }

  lemma {:induction false} RecordOk(jobs: Jobs, txns: Txns, id: JobId)
    requires Consistent(jobs, txns) && id in jobs
    ensures JobOk(jobs[id])
  {
  }

  /** A job in a stable world: not aborting, and not cancelled once completed. */
  lemma {:induction false} RecordStable(jobs: Jobs, txns: Txns, id: JobId)
    requires Consistent(jobs, txns) && AllStable(jobs, txns) && id in jobs
    ensures JobOk(jobs[id]) && KeepsStable(jobs[id], jobs[id])
  {
    if jobs[id].txn.Some? {
      assert Stable(jobs, txns[jobs[id].txn.value]);
    }
  }

  lemma {:induction false} ConcludedOk(jobs: Jobs, txns: Txns, id: JobId)
    requires Consistent(jobs, txns) && id in jobs && jobs[id].status == Concluded
    ensures JobOk(jobs[id]) && jobs[id].txn == None
  {
  }

  lemma {:induction false} CancelledRecord(j: Job, force: bool)
    requires JobOk(j) && j.txn.Some?
    ensures !j.started && j.status != Aborting ==>
              CompletesFailing(CancelAsync(j, force)) && UpdatedRet(CancelAsync(j, force)) == -ECANCELED
    ensures var r := CancelAsync(j, force);
            && Fails(r) && r.txn == j.txn && (!j.started ==> r.status == j.status)
            && (!j.deferred && j.status !in {Aborting, Concluded, Null} ==> KeepsStable(j, r))
  {
  }

  function Returned(j: Job, ret: int, clears: bool): Job {
    j.(ret := ret, deferred := true, cancelled := j.cancelled && !clears)
  }

  function WithPausing(j: Job, p: Pausing): Job {
    j.(pausing := p)
  }

  function UserPaused(p: Pausing): Pausing {
    p.(user := true, count := p.count + 1)
  }

  function Resumed(p: Pausing): Pausing {
    p.(ioOk := true, user := false, count := p.count - 1)
  }

  function Drained(p: Pausing): Pausing {
    p.(count := p.count + 1, drains := p.drains + 1)
  }

  function Undrained(p: Pausing): Pausing
    requires p.drains > 0
  {
    p.(count := p.count - 1, drains := p.drains - 1)
  }

  function Stopped(p: Pausing): Pausing {
    (if p.user then p else UserPaused(p)).(ioOk := false)
  }

  /** job_start */
  function Started(j: Job): Job {
    j.(started := true, pausing := j.pausing.(count := j.pausing.count - 1), paused := false, status := Running)
  }

  /** job_pause_point, up to the yield. */
  function Yielded(j: Job): Job {
    if j.pausing.count > 0 && !j.cancelled then
      j.(paused := true, status := if j.status == Ready then Standby else Paused)
    else j
  }

  lemma {:induction false} PausingValid(jobs: Jobs, txns: Txns, id: JobId, p: Pausing)
    requires Consistent(jobs, txns) && AllStable(jobs, txns) && id in jobs && PauseOk(jobs[id].started, p)
    ensures Consistent(jobs[id := WithPausing(jobs[id], p)], txns)
            && AllStable(jobs[id := WithPausing(jobs[id], p)], txns)
  {
    RecordStable(jobs, txns, id);
    UpdateValid(jobs, txns, id, WithPausing(jobs[id], p));
  }

  lemma {:induction false} JobIsMember(jobs: Jobs, txns: Txns, id: JobId)
    requires Consistent(jobs, txns) && id in jobs && (jobs[id].txn.Some? || jobs[id].status !in {Concluded, Null})
    ensures JobOk(jobs[id]) && jobs[id].txn.Some? && jobs[id].txn.value in txns
            && id in txns[jobs[id].txn.value].members
  {
  }

  lemma {:induction false} MembersUnfinished(jobs: Jobs, txns: Txns, t: TxnId)
    requires Consistent(jobs, txns) && t in txns
    ensures forall m :: m in txns[t].members ==> m in jobs && JobOk(jobs[m]) && jobs[m].status !in {Concluded, Null}
  {
  }

  lemma {:induction false} AbortingConsistent(jobs: Jobs, txns: Txns, t: TxnId, cause: Cause)
    requires Consistent(jobs, txns) && t in txns && txns[t].committed == {} && cause != NoAbort
    ensures Consistent(jobs, txns[t := txns[t].(aborting := true, cause := cause)])
  {
  }

  lemma {:induction false} AllStableExcept(jobs: Jobs, txns: Txns, t: TxnId)
    requires AllStable(jobs, txns)
    ensures StableExcept(jobs, txns, t)
  {
  }

  lemma {:induction false} NoAbortCause(jobs: Jobs, txns: Txns, t: TxnId)
    requires Consistent(jobs, txns) && t in txns && !txns[t].aborting
    ensures txns[t].cause == NoAbort
  {
  }

  lemma {:induction false} EmptyStable(jobs: Jobs, txns: Txns, t: TxnId)
    requires t in txns && StableExcept(jobs, txns, t) && txns[t].members == {}
    ensures AllStable(jobs, txns)
  {
  }

  /**
   Whether job_cancel ends: a job whose coroutine does not run takes its transaction with it, so the other members are
   awaited.
   */
  predicate CancelEnds(jobs: Jobs, txns: Txns, id: JobId)
    requires id in jobs
  {
    var j := jobs[id];
    j.txn.Some? && j.txn.value in txns && (!j.started || j.deferred) ==>
      OthersStarted(jobs, txns[j.txn.value].members, id)
  }

  /**
   What job_cancel does: a concluded job is dismissed, one that runs is only marked, and otherwise the
   transaction is aborted.
   */
  ghost predicate Cancelled(jobs: Jobs, txns: Txns, histories: Histories, jobs': Jobs, txns': Txns,
                            histories': Histories, id: JobId, force: bool, prepare: JobId -> int, run: JobId -> int) {
    && id in jobs && JobOk(jobs[id])
    && var j := jobs[id];
    if j.status == Concluded then
      jobs' == Put(jobs, id, Dismissed(j)) && txns' == txns && histories' == histories
    else if j.started && !j.deferred then
      jobs' == jobs[id := CancelAsync(j, force)] && txns' == txns && histories' == histories
    else
      && j.txn.Some? && AbortedBy(jobs[id := CancelledIdle(j, force)], txns, jobs', txns', id, run)
      && Extends(histories, histories', j.txn.value, [if j.started then CancelledLate(id) else Ended(id, -ECANCELED)],
                 prepare)
  }

  /** The job whose cancellation aborts the transaction: if it was never started it completes as failed first. */
  function CancelledIdle(j: Job, force: bool): Job
    requires JobOk(j)
  {
    if j.started then CancelAsync(j, force) else FailRecord(CancelAsync(j, force))
  }

  class Layer {
    var jobs: Jobs
    var txns: Txns

    /** What each transaction has gone through, in the order in which it happened. */
    ghost var history: Histories

    ghost predicate Valid()
      reads this
    {
      Consistent(jobs, txns) && AllStable(jobs, txns) && Recorded(txns, history)
    }

    constructor ()
      ensures Valid() && jobs == map[] && txns == map[] && history == map[]
    {
      jobs, txns, history := map[], map[], map[];
    }

    // -------------------------------------------------------------- one job

    /** job_state_transition: the assertion on JobSTT is the precondition. */
    method Transition(id: JobId, s1: Status)
      requires id in jobs && s1 in Successors(jobs[id].status)
      modifies this`jobs
      ensures jobs == old(jobs)[id := old(jobs)[id].(status := s1)]
    {
      jobs := jobs[id := jobs[id].(status := s1)];
    }

    /** job_update_rc */
    method UpdateRc(id: JobId)
      requires id in jobs && PartsOk(jobs[id]) && jobs[id].status !in {Concluded, Null}
      requires Fails(jobs[id]) ==> Aborting in Successors(jobs[id].status)
      modifies this`jobs
      ensures jobs == old(jobs)[id := if Fails(old(jobs)[id]) then ToAborting(old(jobs)[id]) else old(jobs)[id]]
    {
      var j := jobs[id];
      if j.ret == 0 && j.cancelled {
        jobs := jobs[id := j.(ret := -ECANCELED)];
      }
      if jobs[id].ret != 0 {
        Transition(id, Aborting);
      }
    }

    /** job_do_dismiss, out of any transaction already. */
    method DoDismiss(id: JobId)
      requires Consistent(jobs, txns) && id in jobs && jobs[id].status == Concluded
      modifies this`jobs
      ensures Consistent(jobs, txns) && OthersSame(old(jobs), jobs, {id}) && HeldStay(old(jobs), jobs)
      ensures jobs == Put(old(jobs), id, Dismissed(old(jobs)[id]))
    {
      hide Consistent, OthersSame, HeldStay, JobOk;
      DismissedConsistent(jobs, txns, id);
      RemoveJob(id);
    }

    /** job_do_dismiss up to the reference. */
    method RemoveJob(id: JobId)
      requires id in jobs && jobs[id].status in {Concluded, Created}
      modifies this`jobs
      ensures jobs == Put(old(jobs), id, Dismissed(old(jobs)[id]))
    {
      jobs := jobs[id := jobs[id].(paused := false, deferred := true, txn := None)];
      Transition(id, Null);
      assert jobs == old(jobs)[id := Dismissing(old(jobs)[id])];
      var j := jobs[id].(refs := jobs[id].refs.(count := jobs[id].refs.count - 1));
      if j.refs.count == 0 {
        jobs := jobs - {id};
      } else {
        jobs := jobs[id := j];
      }
    }

    /** job_commit or job_abort, job_clean and the completion callback. */
    method Callbacks(id: JobId)
      requires id in jobs && jobs[id].calls == NO_CALLS && jobs[id].txn.Some? && jobs[id].txn.value in history
      modifies this`jobs, this`history
      ensures jobs == old(jobs)[id := old(jobs)[id].(calls := FinalCalls(old(jobs)[id].ret))]
      ensures history == Extended(old(history), old(jobs)[id].txn.value, [Verdict(id, old(jobs)[id].ret != 0)])
    {
      var c := jobs[id].calls;
      if jobs[id].ret == 0 {
        c := c.(commits := c.commits + 1);
        history := Extended(history, jobs[id].txn.value, [CommitCall(id)]);
      } else {
        c := c.(aborts := c.aborts + 1);
        history := Extended(history, jobs[id].txn.value, [AbortCall(id)]);
      }
      c := c.(cleans := c.cleans + 1);
      c := c.(completions := c.completions + 1);
      jobs := jobs[id := jobs[id].(calls := c)];
    }

    /** The first part of job_finalize_single: the decision and the callbacks. */
    method Judge(id: JobId)
      requires id in jobs && JobOk(jobs[id]) && Decided(jobs[id]) && jobs[id].txn.value in history
      modifies this`jobs, this`history
      ensures history == Extended(old(history), old(jobs)[id].txn.value, [Verdict(id, Fails(old(jobs)[id]))])
      ensures jobs == old(jobs)[id := Judged(old(jobs)[id])]
    {
      hide JobOk, PartsOk, Decided, Fails, ToAborting, Extended, FinalCalls;
      JudgedSteps(jobs[id]);
      UpdateRc(id);
      Callbacks(id);
    }

    /** Then the job leaves the transaction and is CONCLUDED. */
    method Settle(id: JobId)
      requires id in jobs && JobOk(jobs[id]) && Decided(jobs[id]) && jobs[id].txn.value in txns
               && jobs[id].txn.value in history
      modifies this
      ensures history == Extended(old(history), old(jobs)[id].txn.value, [Verdict(id, Fails(old(jobs)[id]))])
      ensures jobs == old(jobs)[id := Concluding(old(jobs)[id])]
      ensures var t := old(jobs)[id].txn.value; txns == old(txns)[t := Retired(old(txns)[t], id, Fails(old(jobs)[id]))]
    {
      hide JobOk, Decided, Fails, Concluding, Judged, Extended, Retired;
      ConcludingSteps(jobs[id]);
      var t := jobs[id].txn.value;
      Judge(id);
      var j := jobs[id];
      jobs := jobs[id := j.(txn := None)];
      txns := txns[t := Retired(txns[t], id, j.ret != 0)];
      Transition(id, Concluded);
    }

    /** job_finalize_single, with job_txn_del_job and job_conclude. */
    method FinalizeSingle(id: JobId)
      requires Consistent(jobs, txns) && id in jobs && Decided(jobs[id])
      requires MayRetire(txns[jobs[id].txn.value], id, Fails(jobs[id])) && jobs[id].txn.value in history
      modifies this
      ensures history == Extended(old(history), old(jobs)[id].txn.value, [Verdict(id, Fails(old(jobs)[id]))])
      ensures Consistent(jobs, txns) && OthersSame(old(jobs), jobs, {id}) && HeldStay(old(jobs), jobs)
      ensures var t := old(jobs)[id].txn.value; txns == old(txns)[t := Retired(old(txns)[t], id, Fails(old(jobs)[id]))]
      ensures JobOk(old(jobs)[id]) && jobs == Put(old(jobs), id, FinalRecord(old(jobs)[id]))
    {
      hide Consistent, OthersSame, HeldStay, JobOk, Decided, Concluding, Dismissed, FinalRecord, Fails, MayRetire,
        Retired, Extended;
      RecordOk(jobs, txns, id);
      FinalSteps(jobs[id]);
      JobIsMember(jobs, txns, id);
      RetireConsistent(jobs, txns, id, Concluding(jobs[id]), Fails(jobs[id]));
      OneJobFrame(jobs, id, Concluding(jobs[id]), {id});
      Settle(id);
      ghost var settled := jobs;
      if jobs[id].auto.dismiss || !jobs[id].started {
        DoDismiss(id);
        OthersSameTransitive(old(jobs), settled, jobs, {id}, {id});
        HeldStayTransitive(old(jobs), settled, jobs);
      }
    }

    // -------------------------------------------------------------- aborting a transaction

    /** A job is entered: a pause ends. */
    method Enter(id: JobId)
      requires id in jobs
      modifies this`jobs
      ensures jobs == old(jobs)[id := Awake(old(jobs)[id])]
    {
      if jobs[id].status in {Paused, Standby} {
        Transition(id, if jobs[id].status == Paused then Running else Ready);
        jobs := jobs[id := jobs[id].(paused := false)];
      }
    }

    /** The rest of the life of a cancelled job's coroutine, up to job_completed. */
    method RunJobToExit(id: JobId, ret: int)
      requires id in jobs && JobOk(jobs[id]) && jobs[id].started && !Completed(jobs[id]) && jobs[id].cancelled
      requires jobs[id].txn.value in history
      modifies this`jobs, this`history
      ensures jobs == old(jobs)[id := RunToExit(old(jobs)[id], ret)]
      ensures history == Extended(old(history), old(jobs)[id].txn.value, [Ended(id, RunToExit(old(jobs)[id], ret).ret)])
    {
      hide JobOk, PartsOk, Fails, ToAborting, Completed, Extended, RunToExit, Awake;
      RunToExitSteps(jobs[id], ret);
      Enter(id);
      if !jobs[id].deferred {
        jobs := jobs[id := jobs[id].(ret := ret, deferred := true)];
      }
      assert jobs == old(jobs)[id := jobs[id]];
      UpdateRc(id);
      history := Extended(history, jobs[id].txn.value, [Ended(id, jobs[id].ret)]);
    }

    /** job_finish_sync while the transaction is aborting: the jobs of s, among them the awaited one, finish. */
    method FinishSync(t: TxnId, s: set<JobId>, run: JobId -> int) returns (ghost h: History)
      requires Consistent(jobs, txns) && t in txns && t in history && s <= txns[t].members
      requires forall m :: m in s ==> m in jobs && (Completed(jobs[m]) || (jobs[m].started && jobs[m].cancelled))
      modifies this`jobs, this`history
      ensures Consistent(jobs, txns) && RanToExit(old(jobs), jobs, s, run)
      ensures history == Extended(old(history), t, h) && Awaited(h, Unfinished(old(jobs), s))
    {
      hide Consistent, Extended, JobOk, RunToExit, Awaited, Unfinished, Fails;
      var todo := s;
      h := [];
      ExtendNothing(history, t);
      NothingAwaited(Unfinished(jobs, s));
      while todo != {}
        invariant todo <= s && Consistent(jobs, txns) && RanToExit(old(jobs), jobs, s - todo, run)
        invariant history == Extended(old(history), t, h) && t in history && Awaited(h, Unfinished(old(jobs), s))
        decreases todo
      {
        var m :| m in todo;
        MemberOk(jobs, txns, t, m);
        ghost var before := jobs;
        RunRecordOf(jobs[m], run(m));
        if !Completed(jobs[m]) {
          UpdateConsistent(jobs, txns, m, RunToExit(jobs[m], run(m)));
          RanToExitFails(jobs[m], run(m));
          RunJobToExit(m, run(m));
          ExtendTwice(old(history), t, h, [Ended(m, jobs[m].ret)]);
          ExtendedHas(old(history), t, h + [Ended(m, jobs[m].ret)]);
          AwaitedOneMore(old(jobs), s, h, m, jobs[m].ret);
          h := h + [Ended(m, jobs[m].ret)];
        }
        RanOneMore(old(jobs), before, jobs, s - todo, m, run);
        assert s - todo + {m} == s - (todo - {m});
        todo := todo - {m};
      }
    }

    /** job_cancel_async for every other member of the transaction. */
    method CancelMembers(t: TxnId, s: set<JobId>)
      requires Consistent(jobs, txns) && t in txns && s <= txns[t].members
      modifies this`jobs
      ensures Consistent(jobs, txns) && CancelledOn(old(jobs), jobs, s)
    {
      hide Consistent;
      var todo := s;
      while todo != {}
        invariant todo <= s && Consistent(jobs, txns) && CancelledOn(old(jobs), jobs, s - todo)
        decreases todo
      {
        var m :| m in todo;
        MemberOk(jobs, txns, t, m);
        UpdateConsistent(jobs, txns, m, CancelAsync(jobs[m], false));
        CancelledOneMore(old(jobs), jobs, s - todo, m);
        jobs := jobs[m := CancelAsync(jobs[m], false)];
        assert s - todo + {m} == s - (todo - {m});
        todo := todo - {m};
      }
    }

    /**
     One round of the second loop of job_completed_txn_abort; it does not end if the member has to be
     awaited but was never started.
     */
    method AbortMember(t: TxnId, id: JobId, run: JobId -> int, ghost leader: JobId, ghost spared: bool)
      returns (ends: bool, ghost h: History)
      requires Consistent(jobs, txns) && t in txns && t in history && id in txns[t].members
               && AllDoomed(jobs, txns[t], leader, spared)
      requires txns[t].cause != NoAbort && (spared ==> txns[t].cause == PrepareFailed(leader))
      modifies this
      ensures id in old(jobs) && (ends <==> Completed(old(jobs)[id]) || old(jobs)[id].started)
      ensures ends ==>
                && txns == old(txns)[t := Retired(old(txns)[t], id, !(spared && id == leader))]
                && Consistent(jobs, txns) && AllDoomed(jobs, txns[t], leader, spared)
                && OthersSame(old(jobs), jobs, old(txns)[t].members) && HeldStay(old(jobs), jobs)
                && At(jobs, id) == FinalRecord(RunRecord(old(jobs)[id], run(id)))
                && MayHaveRun(old(jobs), jobs, txns[t].members, run)
                && history == Extended(old(history), t, h + [Verdict(id, !(spared && id == leader))])
                && Awaited(h, Unfinished(old(jobs), old(txns)[t].members))
    {
      hide Consistent, Extended, Awaited, Unfinished, JobOk, AllDoomed, MayHaveRun, FinalRecord, RunRecord, HeldStay,
        OthersSame;
      OthersSameReflexive(jobs, txns[t].members);
      HeldStayReflexive(jobs);
      MemberOk(jobs, txns, t, id);
      DoomedAt(jobs, txns[t], leader, spared, id);
      h := [];
      ExtendNothing(history, t);
      NothingAwaited(Unfinished(jobs, txns[t].members));
      DoomedContinue(jobs, txns[t], leader, spared);
      RunRecordIs(jobs[id], run(id));
      if !Completed(jobs[id]) {
        assert jobs[id].cancelled;
        if !jobs[id].started {
          return false, [];
        }
        // others may happen to finish while this one is awaited
        var s :| {id} <= s <= txns[t].members && CanRun(jobs, s);
        DoomedCanFinish(jobs, txns[t], leader, spared, s);
        RunRecordOf(jobs[id], run(id));
        h := FinishSync(t, s, run);
        ExtendedHas(old(history), t, h);
        UnfinishedMore(old(jobs), h, s, txns[t].members);
        DoomedAfterRun(old(jobs), jobs, txns[t], s, leader, spared, run);
      }
      MemberOk(jobs, txns, t, id);
      DoomedAt(jobs, txns[t], leader, spared, id);
      MembersUnfinished(jobs, txns, t);
      ends := true;
      DoomedRetires(jobs[id], txns[t], leader, id, spared);
      ghost var mid := jobs;
      FinalizeSingle(id);
      ExtendTwice(old(history), t, h, [Verdict(id, !(spared && id == leader))]);
      OthersSameTransitive(old(jobs), mid, jobs, old(txns)[t].members, {id});
      HeldStayTransitive(old(jobs), mid, jobs);
      DoomedFrame(mid, jobs, old(txns)[t], txns[t], leader, spared, id);
      MayHaveRunTransitive(old(jobs), mid, jobs, old(txns)[t].members, txns[t].members, run);
    }

    /** The second loop of job_completed_txn_abort, which ends exactly if all other members were started. */
    method AbortMembers(t: TxnId, run: JobId -> int, leader: JobId, ghost spared: bool, ghost all: set<JobId>)
      returns (ends: bool, ghost h: History)
      requires Consistent(jobs, txns) && t in txns && t in history && AllDoomed(jobs, txns[t], leader, spared)
      requires txns[t].cause != NoAbort && (spared ==> txns[t].cause == PrepareFailed(leader))
      requires txns[t] == AbortedTxn(all, leader, spared, txns[t].cause, all) && leader in all
               && Awaitable(jobs, all, leader)
      modifies this
      ensures ends <==> OthersStarted(old(jobs), all, leader)
      ensures ends ==>
                && Consistent(jobs, txns)
                && txns == old(txns)[t := AbortedTxn(all, leader, spared, old(txns)[t].cause, {})]
                && HeldStay(old(jobs), jobs) && OthersSame(old(jobs), jobs, all)
                && RanAndEnded(old(jobs), jobs, all, run)
                && history == Extended(old(history), t, h)
                && Decides(h, txns[t].aborted, txns[t].committed, Unfinished(old(jobs), all))
    {
      hide Consistent, HeldStay, AllDoomed, Extended, Decides, Awaited, AllContinue, OthersStarted, Awaitable,
        Unfinished, OthersSame,
        AbortedTxn, Retired, RanAndEnded, AbortedSome, MayHaveRun, FinalRecord, RunRecord;
      ghost var cause := txns[t].cause;
      assert txns == old(txns)[t := txns[t]];
      AbortedTxnIs(all, leader, spared, cause, all);
      h := [];
      ExtendNothing(history, t);
      NothingDecided(Unfinished(jobs, all));
      AbortedNone(jobs, txns[t], leader, spared, run);
      while txns[t].members != {}
        invariant t in txns && t in history && AbortedSome(old(jobs), jobs, txns[t].members, all, leader, run)
        invariant history == Extended(old(history), t, h)
                  && Decides(h, txns[t].aborted, txns[t].committed, Unfinished(old(jobs), all))
        invariant Consistent(jobs, txns) && AllDoomed(jobs, txns[t], leader, spared)
        invariant txns == old(txns)[t := AbortedTxn(all, leader, spared, cause, txns[t].members)]
                  && txns[t].members <= all
        decreases txns[t].members
      {
        var other :| other in txns[t].members;
        ghost var before, left := jobs, txns[t].members;
        ghost var x := txns[t];
        AbortedTxnIs(all, leader, spared, cause, left);
        AbortedContinue(old(jobs), jobs, left, all, leader, run);
        ghost var r;
        ends, r := AbortMember(t, other, run, leader, spared);
        if !ends {
          NeverEnds(old(jobs), before, left, all, leader, other);
          return false, [];
        }
        RetiredAborted(all, leader, spared, cause, left, other);
        AbortedTxnIs(all, leader, spared, cause, left - {other});
        AbortedOneMore(old(jobs), before, jobs, left, all, leader, other, run);
        AwaitedMore(old(jobs), before, r, left, all);
        AbortsOneMore(h, x, Unfinished(old(jobs), all), r, other, !(spared && other == leader));
        r := r + [Verdict(other, !(spared && other == leader))];
        ExtendTwice(old(history), t, h, r);
        h := h + r;
        ExtendedHas(old(history), t, h);
      }
      NoneLeft(old(jobs), jobs, all, leader, run);
      ends := true;
    }

    /**
     job_completed_txn_abort, called when the transaction is not yet aborting; a job that completes
     while it is, as in RunJobToExit, leaves everything to the caller of this method.  It ends exactly
     if all other members were started.
     */
    method CompletedTxnAbort(id: JobId, run: JobId -> int, cause: Cause) returns (ends: bool, ghost h: History)
      requires AbortStart(jobs, txns, id, cause) && Consistent(jobs, txns)
               && StableExcept(jobs, txns, jobs[id].txn.value)
      requires jobs[id].txn.value in history
      modifies this
      ensures ends <==> OthersStarted(old(jobs), old(txns)[old(jobs)[id].txn.value].members, id)
      ensures ends ==> var t := old(jobs)[id].txn.value; var all := old(txns)[t].members;
              && Consistent(jobs, txns) && AllStable(jobs, txns) && HeldStay(old(jobs), jobs)
              && txns == old(txns)[t := AbortedTxn(all, id, !Fails(old(jobs)[id]), cause, {})]
              && AbortsTo(old(jobs), jobs, all, id, run)
              && history == Extended(old(history), t, h)
              && Decides(h, txns[t].aborted, txns[t].committed, Unfinished(old(jobs), all))
    {
      hide Consistent, StableExcept, Extended, Decides, OthersSame, HeldStay, AllDoomed, Unfinished, OthersStarted,
        Awaitable, CancelledOn,
        RanAndEnded, AbortsTo, JobOk;
      var t := jobs[id].txn.value;
      ghost var all, spared := txns[t].members, !Fails(jobs[id]);
      JobIsMember(jobs, txns, id);
      MembersUnfinished(jobs, txns, t);
      AbortingConsistent(jobs, txns, t, cause);
      txns := txns[t := txns[t].(aborting := true, cause := cause)];
      CancelMembers(t, txns[t].members - {id});
      CancelDooms(old(jobs), jobs, txns[t], id, spared);
      ghost var cancelled := jobs;
      NoneAborted(all, id, spared, cause);
      ends, h := AbortMembers(t, run, id, spared, all);
      if !ends {
        return;
      }
      HeldStayTransitive(old(jobs), cancelled, jobs);
      OthersSameTransitive(old(jobs), cancelled, jobs, all, all);
      CancelThenEnd(old(jobs), cancelled, jobs, all, id, run);
      OthersStable(old(jobs), old(txns), t, jobs, txns[t]);
      assert txns == old(txns)[t := txns[t]];
      EmptyStable(jobs, txns, t);
    }

    // -------------------------------------------------------------- finalising a transaction

    /** job_prepare with the driver's answer. */
    method PrepareJob(id: JobId, answer: int)
      requires id in jobs && JobOk(jobs[id]) && jobs[id].status == Pending && !jobs[id].cancelled
               && jobs[id].txn.value in history
      modifies this`jobs, this`history
      ensures jobs == old(jobs)[id := Prepared(old(jobs)[id], answer)]
      ensures history == Extended(old(history), old(jobs)[id].txn.value, [PrepareCall(id, answer)])
    {
      history := Extended(history, jobs[id].txn.value, [PrepareCall(id, answer)]);
      jobs := jobs[id := jobs[id].(ret := answer)];
      UpdateRc(id);
    }

    /** job_txn_apply(job, job_prepare): stops at the first failure. */
    method PrepareMembers(t: TxnId, prepare: JobId -> int) returns (failed: Option<JobId>, ghost h: History)
      requires Consistent(jobs, txns) && Undecided(jobs, txns, t) && t in history
      modifies this`jobs, this`history
      ensures history == Extended(old(history), t, h)
              && Prepares(h, txns[t].members, if failed.None? then {} else {failed.value})
      ensures forall e :: e in h ==> Answered(e, prepare)
      ensures failed.None? ==> jobs == old(jobs) && forall m :: m in txns[t].members ==> prepare(m) == 0
      ensures failed.Some? ==> var f := failed.value;
                && f in txns[t].members && prepare(f) != 0 && f in old(jobs) && JobOk(old(jobs)[f])
                && old(jobs)[f].status == Pending
                && jobs == old(jobs)[f := Prepared(old(jobs)[f], prepare(f))]
    {
      hide Consistent, Extended;
      var todo := txns[t].members;
      h := [];
      ExtendNothing(history, t);
      while todo != {}
        invariant todo <= txns[t].members && jobs == old(jobs)
        invariant forall m :: m in txns[t].members - todo ==> prepare(m) == 0 && PrepareCall(m, 0) in h
        invariant t in history && history == Extended(old(history), t, h)
        invariant forall e ::
                    e in h ==> e.PrepareCall? && e.id in txns[t].members - todo && e.answer == 0 == prepare(e.id)
        decreases todo
      {
        var m :| m in todo;
        MemberOk(jobs, txns, t, m);
        PrepareJob(m, prepare(m));
        ExtendTwice(old(history), t, h, [PrepareCall(m, prepare(m))]);
        ghost var before := h;
        h := h + [PrepareCall(m, prepare(m))];
        ExtendedHas(old(history), t, h);
        if jobs[m].ret != 0 {
          assert h[|before|] == PrepareCall(m, prepare(m));
          return Some(m), h;
        }
        todo := todo - {m};
      }
      failed := None;
    }

    /** One round of that: a prepared member commits. */
    method CommitMember(t: TxnId, id: JobId, ghost all: set<JobId>)
      requires Consistent(jobs, txns) && t in txns && t in history && txns[t] == CommittedTxn(all, txns[t].members)
      requires id in txns[t].members && txns[t].members <= all && Committable(jobs, txns[t].members)
      modifies this
      ensures Consistent(jobs, txns) && txns == old(txns)[t := CommittedTxn(all, old(txns)[t].members - {id})]
      ensures history == Extended(old(history), t, [CommitCall(id)])
      ensures OthersSame(old(jobs), jobs, {id}) && HeldStay(old(jobs), jobs)
      ensures id in old(jobs) && At(jobs, id) == FinalRecord(old(jobs)[id])
      ensures Committable(jobs, txns[t].members)
    {
      hide Consistent, HeldStay, Extended, OthersSame, JobOk, Fails, FinalRecord;
      ghost var before, left := jobs, txns[t].members;
      MemberOk(jobs, txns, t, id);
      FinalizeSingle(id);
      RetiredCommitted(all, left, id);
      PendingFrame(before, jobs, left, id);
    }

    /** job_txn_apply(job, job_finalize_single) when every member has been prepared. */
    method FinalizeMembers(t: TxnId) returns (ghost h: History)
      requires Consistent(jobs, txns) && Undecided(jobs, txns, t) && t in history
      modifies this
      ensures history == Extended(old(history), t, h) && Decides(h, {}, old(txns)[t].members, {})
      ensures Consistent(jobs, txns) && txns == old(txns)[t := CommittedTxn(old(txns)[t].members, {})]
      ensures HeldStay(old(jobs), jobs) && CommitsTo(old(jobs), jobs, old(txns)[t].members)
    {
      hide Consistent, HeldStay, Extended, Decides, OthersSame, CommittedSome, Committable, FinalRecord, CommitsTo;
      HeldStayReflexive(jobs);
      h := [];
      ExtendNothing(history, t);
      NothingDecided({});
      ghost var all := txns[t].members;
      UndecidedPending(jobs, txns, t);
      CommittedNone(jobs, all);
      NoAbortCause(jobs, txns, t);
      assert txns[t] == CommittedTxn(all, all) by {
        assert all - all == {};
      }
      while txns[t].members != {}
        invariant t in txns && Consistent(jobs, txns) && txns[t].members <= all
        invariant txns == old(txns)[t := CommittedTxn(all, txns[t].members)]
        invariant t in history && history == Extended(old(history), t, h) && Decides(h, {}, txns[t].committed, {})
        invariant Committable(jobs, txns[t].members) && CommittedSome(old(jobs), jobs, txns[t].members, all)
        invariant HeldStay(old(jobs), jobs)
        decreases txns[t].members
      {
        var other :| other in txns[t].members;
        ghost var before, left := jobs, txns[t].members;
        CommitMember(t, other, all);
        CommitsOneMore(h, all, left, other);
        ExtendTwice(old(history), t, h, [CommitCall(other)]);
        h := h + [CommitCall(other)];
        ExtendedHas(old(history), t, h);
        CommittedOneMore(old(jobs), before, jobs, left, all, other);
        HeldStayTransitive(old(jobs), before, jobs);
      }
      CommittedAll(old(jobs), jobs, all);
      assert all - {} == all;
    }

    /**
     job_do_finalize: if every member can be prepared all commit; otherwise all abort, except that the
     job itself still commits when it was another member's prepare that failed.
     */
    method DoFinalize(id: JobId, prepare: JobId -> int, run: JobId -> int) returns (failed: Option<JobId>)
      requires Valid() && id in jobs && jobs[id].txn.Some? && Undecided(jobs, txns, jobs[id].txn.value)
      modifies this
      ensures Valid() && HeldStay(old(jobs), jobs)
      ensures Extends(old(history), history, old(jobs)[id].txn.value, [Finalising(id)], prepare)
      ensures FinalisedBy(old(jobs), old(txns), jobs, txns, old(jobs)[id].txn.value, id, prepare, run)
      ensures failed.Some? ==>
                PrepareFails(old(jobs), old(txns), jobs, txns, old(jobs)[id].txn.value, id, failed.value, prepare, run)
    {
      hide AbortsTo, CommitsTo, FinalRecord, OthersSame, JobOk, Prepared, PrepareRecord, Consistent, AllStable,
        Extended, Extends, Recorded, Decides, Prepares, HeldStay, StableExcept, Answered;
      var t := jobs[id].txn.value;
      JobIsMember(jobs, txns, id);
      AllStableExcept(jobs, txns, t);
      RecordedKeys(txns, history);
      ghost var p, d;
      history := Extended(history, t, [Finalising(id)]);
      ExtendedHas(old(history), t, [Finalising(id)]);
      failed, p := PrepareMembers(t, prepare);
      ExtendTwice(old(history), t, [Finalising(id)], p);
      ExtendedHas(old(history), t, [Finalising(id)] + p);
      if failed.Some? {
        PrepareStartsAbort(old(jobs), txns, t, id, failed.value, prepare(failed.value));
        UpdateConsistent(old(jobs), txns, failed.value, Prepared(old(jobs)[failed.value], prepare(failed.value)));
        ghost var mid := jobs;
        OneJobFrame(old(jobs), failed.value, mid[failed.value], txns[t].members);
        OthersStable(old(jobs), txns, t, mid, txns[t]);
        assert txns[t := txns[t]] == txns;
        var ends;
        ends, d := CompletedTxnAbort(id, run, PrepareFailed(id));
        assert ends;
        NoneUnfinished(mid, old(txns)[t]);
        HeldStayTransitive(old(jobs), mid, jobs);
        PrepareRecordIs(old(jobs)[failed.value], prepare(failed.value));
        assert PrepareFails(old(jobs), old(txns), jobs, txns, t, id, failed.value, prepare, run);
      } else {
        d := FinalizeMembers(t);
        CommitsToFrame(old(jobs), jobs, old(txns)[t].members);
        OthersStable(old(jobs), old(txns), t, jobs, txns[t]);
        assert txns == old(txns)[t := txns[t]];
        EmptyStable(jobs, txns, t);
      }
      ExtendTwice(old(history), t, [Finalising(id)] + p, d);
      assert old(txns)[t].members - {} == old(txns)[t].members;
      RecordFinalised(old(txns), old(history), t, id, failed, p, d);
      FinalisedExtends(old(history), t, id, p, d, txns[t].aborted, txns[t].committed, prepare);
    }

    // -------------------------------------------------------------- completion

    /** job_txn_apply(job, job_transition_to_pending) */
    method MakePending(t: TxnId)
      requires Consistent(jobs, txns) && t in txns && AllWaiting(jobs, txns[t])
      modifies this`jobs
      ensures Consistent(jobs, txns) && PendingOn(old(jobs), jobs, txns[t].members)
    {
      hide Consistent;
      var s := txns[t].members;
      var todo := s;
      while todo != {}
        invariant todo <= s && Consistent(jobs, txns) && PendingOn(old(jobs), jobs, s - todo)
        decreases todo
      {
        var m :| m in todo;
        MemberOk(jobs, txns, t, m);
        UpdateConsistent(jobs, txns, m, jobs[m].(status := Pending));
        PendingOneMore(old(jobs), jobs, s - todo, m);
        Transition(m, Pending);
        assert s - todo + {m} == s - (todo - {m});
        todo := todo - {m};
      }
    }

    /** Whether some member has not completed, or needs manual finalisation: the loops over txn->jobs. */
    method ScanMembers(t: TxnId) returns (running: bool, manual: bool)
      requires Consistent(jobs, txns) && t in txns
      ensures running <==> exists m :: m in txns[t].members && m in jobs && !Completed(jobs[m])
      ensures manual <==> NeedsFinalize(jobs, txns[t].members)
    {
      running, manual := false, false;
      var todo := txns[t].members;
      while todo != {}
        invariant todo <= txns[t].members
        invariant running <==> exists m :: m in txns[t].members && m !in todo && m in jobs && !Completed(jobs[m])
        invariant manual <==> exists m :: m in txns[t].members && m !in todo && m in jobs && !jobs[m].auto.finalize
        decreases todo
      {
        var m :| m in todo;
        running := running || !Completed(jobs[m]);
        manual := manual || !jobs[m].auto.finalize;
        todo := todo - {m};
      }
    }

    /** job_completed_txn_success */
    method CompletedTxnSuccess(id: JobId, prepare: JobId -> int, run: JobId -> int)
      requires Valid() && id in jobs && Succeeds(jobs[id])
      modifies this
      ensures Valid() && HeldStay(old(jobs), jobs)
      ensures SuccessOf(old(jobs), old(txns), jobs, txns, id, prepare, run)
      ensures Extends(old(history), history, old(jobs)[id].txn.value, [], prepare)
    {
      hide Consistent, AllStable, HeldStay, Stable, OthersSame, Recorded, Extends, SuccessOf, OthersRunning,
        NeedsFinalize,
        FinalisedBy, PrepareFails, MadePending;
      JobIsMember(jobs, txns, id);
      var t := jobs[id].txn.value;
      ghost var all := txns[t].members;
      RecordedKeys(txns, history);
      NothingNew(history, t, prepare);
      WaitingStable(jobs, txns, id);
      Transition(id, Waiting);
      ghost var waiting := jobs;
      OneJobFrame(old(jobs), id, waiting[id], all);
      var running, _ := ScanMembers(t);
      if running {
        SuccessWaits(old(jobs), txns, t, id, jobs, prepare, run);
        return;
      }
      StableAt(jobs, txns, t);
      AllWait(jobs, txns, t);
      MakePending(t);
      ghost var pending := jobs;
      PendingStable(waiting, pending, txns, t);
      HeldStayTransitive(old(jobs), waiting, pending);
      var _, manual := ScanMembers(t);
      NoneRunning(old(jobs), txns, t, id, waiting, pending);
      PendingIs(old(jobs), id, pending, all);
      if manual {
        SuccessPends(old(jobs), txns, t, id, prepare, run);
      } else {
        var failed := DoFinalize(id, prepare, run);
        ExtendsWeaker(old(history), history, t, [Finalising(id)], prepare);
        HeldStayTransitive(old(jobs), pending, jobs);
        SuccessFinal(old(jobs), old(txns), t, id, jobs, txns, prepare, run);
      }
    }

    /** job_completed_txn_abort for a job that fails or was cancelled; `start` is what happened to it. */
    method AbortFor(id: JobId, run: JobId -> int, ghost start: Event) returns (ends: bool)
      requires AbortStart(jobs, txns, id, MemberFailed) && Consistent(jobs, txns)
               && StableExcept(jobs, txns, jobs[id].txn.value)
      requires Recorded(txns, history) && Fails(jobs[id]) && Failing(start)
      modifies this
      ensures ends <==> OthersStarted(old(jobs), old(txns)[old(jobs)[id].txn.value].members, id)
      ensures ends ==> Valid() && HeldStay(old(jobs), jobs) && AbortedBy(old(jobs), old(txns), jobs, txns, id, run)
                       && forall prepare :: Extends(old(history), history, old(jobs)[id].txn.value, [start], prepare)
    {
      hide Consistent, AllStable, HeldStay, AbortsTo, Recorded, Extended, Extends, Decides, Unfinished, StableExcept;
      var t := jobs[id].txn.value;
      JobIsMember(jobs, txns, id);
      RecordedKeys(txns, history);
      history := Extended(history, t, [start]);
      ExtendedHas(old(history), t, [start]);
      ghost var h;
      ends, h := CompletedTxnAbort(id, run, MemberFailed);
      if ends {
        ExtendTwice(old(history), t, [start], h);
        AbortedAll(old(txns)[t].members, id, MemberFailed);
        RecordFailure(old(txns), old(history), t, id, MemberFailed, start, h,
                      Unfinished(old(jobs), old(txns)[t].members));
        forall prepare
          ensures Extends(old(history), history, t, [start], prepare)
        {
          DecisionsAnswer(h, old(txns)[t].members, {}, Unfinished(old(jobs), old(txns)[t].members), prepare);
          ExtendsBy(old(history), t, [start], h, prepare);
        }
      }
    }

    /** job_completed; it does not end if the job fails and another member was never started. */
    method JobCompleted(id: JobId, prepare: JobId -> int, run: JobId -> int) returns (ends: bool)
      requires Valid() && id in jobs && (Succeeds(jobs[id]) || CompletesFailing(jobs[id]))
      modifies this
      ensures ends <==> CompletionEnds(old(jobs), old(txns), id)
      ensures ends ==>
                Valid() && HeldStay(old(jobs), jobs) && Completion(old(jobs), old(txns), jobs, txns, id, prepare, run)
                       && Extends(old(history), history, old(jobs)[id].txn.value,
                                  [Ended(id, UpdatedRet(old(jobs)[id]))], prepare)
    {
      hide Consistent, AllStable, HeldStay, OthersSame, Recorded, Extended, Extends, SuccessOf, AbortedBy;
      JobIsMember(jobs, txns, id);
      var t := jobs[id].txn.value;
      ghost var all := txns[t].members;
      StableAt(jobs, txns, t);
      RecordedKeys(txns, history);
      UpdateRc(id);
      if jobs[id].ret != 0 {
        ghost var failing := jobs;
        FailStartsAbort(old(jobs), txns, id);
        OneJobFrame(old(jobs), id, failing[id], all);
        OthersStartedUpdate(old(jobs), id, failing[id], all);
        ends := AbortFor(id, run, Ended(id, jobs[id].ret));
        if !ends {
          return;
        }
        HeldStayTransitive(old(jobs), failing, jobs);
      } else {
        assert jobs == old(jobs);
        RecordEnded(txns, history, t, id);
        history := Extended(history, t, [Ended(id, 0)]);
        CompletedTxnSuccess(id, prepare, run);
        ExtendsOn(old(history), t, Ended(id, 0), history, [], prepare);
        ends := true;
      }
    }

    // -------------------------------------------------------------- the job API

    /** job_create: a job in transaction t, or in one of its own. */
    method Create(id: JobId, group: Option<TxnId>, own: TxnId, autoFinalize: bool, autoDismiss: bool)
      requires Valid() && id !in jobs
      requires if group.Some? then group.value in txns && Joinable(jobs, txns[group.value]) else own !in txns
      modifies this
      ensures Valid() && (group.Some? ==> group.value in old(history))
      ensures var t := if group.Some? then group.value else own;
              && jobs == old(jobs)[id := NewJob(t, autoFinalize, autoDismiss)]
              && txns == old(txns)[t := Txn(false, (if group.Some? then old(txns)[t].members else {}) + {id}, {}, {},
                                            NoAbort)]
              && history == old(history)[t := (if group.Some? then old(history)[t] else []) + [Joined(id)]]
    {
      hide Consistent, AllStable, Recorded;
      var t := own;
      if group.Some? {
        t := group.value;
      } else {
        NewTxnValid(jobs, txns, t);
        RecordNew(txns, history, t);
        txns := txns[t := CommittedTxn({}, {})];
        history := history[t := []];
      }
      NoAbortCause(jobs, txns, t);
      assert txns[t] == Txn(false, if group.Some? then old(txns)[t].members else {}, {}, {}, NoAbort);
      assert Created in Successors(Undefined);
      JoinValid(jobs, txns, t, id, NewJob(t, autoFinalize, autoDismiss));
      NotAMember(jobs, txns, t, id);
      RecordedKeys(txns, history);
      RecordJoined(txns, history, t, id);
      history := Extended(history, t, [Joined(id)]);
      jobs := jobs[id := NewJob(t, autoFinalize, autoDismiss)];
      txns := txns[t := txns[t].(members := txns[t].members + {id})];
    }

    /** job_early_fail: a job that was never started is dismissed without any callback. */
    method EarlyFail(id: JobId)
      requires Valid() && id in jobs && jobs[id].status == Created
      modifies this
      ensures Valid() && jobs == Put(old(jobs), id, Dismissed(old(jobs)[id]))
      ensures id in jobs ==> jobs[id].status == Null && jobs[id].calls == NO_CALLS
      ensures var t := old(jobs)[id].txn.value;
              && t in old(history) && history == Extended(old(history), t, [Left(id)])
              && t in old(txns) && txns == old(txns)[t := old(txns)[t].(members := old(txns)[t].members - {id})]
    {
      hide Consistent, AllStable, Recorded, Extended;
      JobIsMember(jobs, txns, id);
      DismissedOk(jobs[id]);
      var t := jobs[id].txn.value;
      StableAt(jobs, txns, t);
      RecordedKeys(txns, history);
      RecordLeft(txns, history, t, id);
      history := Extended(history, t, [Left(id)]);
      RemoveJob(id);
      LeaveValid(old(jobs), jobs, txns, t, id);
      txns := txns[t := txns[t].(members := txns[t].members - {id})];
    }

    /** job_start */
    method Start(id: JobId)
      requires Valid() && id in jobs && jobs[id].status == Created
      modifies this`jobs
      ensures Valid() && jobs == old(jobs)[id := Started(old(jobs)[id])]
    {
      hide Consistent, AllStable, Recorded;
      JobIsMember(jobs, txns, id);
      assert !jobs[id].started && jobs[id].paused;
      var j := jobs[id];
      jobs := jobs[id := j.(started := true, pausing := j.pausing.(count := j.pausing.count - 1), paused := false)];
      Transition(id, Running);
      UpdateValid(old(jobs), txns, id, jobs[id]);
      assert jobs == old(jobs)[id := jobs[id]];
    }

    /** job_pause_point up to the yield, in the coroutine of the job. */
    method PausePoint(id: JobId) returns (pausing: bool)
      requires Valid() && id in jobs && jobs[id].status in {Running, Ready} && !jobs[id].deferred
      modifies this`jobs
      ensures Valid() && jobs == old(jobs)[id := Yielded(old(jobs)[id])]
      ensures pausing <==> old(jobs)[id].pausing.count > 0 && !old(jobs)[id].cancelled
    {
      hide Consistent, AllStable, Recorded;
      JobIsMember(jobs, txns, id);
      pausing := jobs[id].pausing.count > 0 && !jobs[id].cancelled;
      if pausing {
        Transition(id, if jobs[id].status == Ready then Standby else Paused);
        jobs := jobs[id := jobs[id].(paused := true)];
        UpdateValid(old(jobs), txns, id, jobs[id]);
        assert jobs == old(jobs)[id := jobs[id]];
      }
    }

    /** The rest of job_pause_point, after job_enter: back to the status before. */
    method Wake(id: JobId)
      requires Valid() && id in jobs && jobs[id].status in {Paused, Standby}
      modifies this`jobs
      ensures Valid() && jobs == old(jobs)[id := Awake(old(jobs)[id])]
    {
      hide Consistent, AllStable, Recorded;
      JobIsMember(jobs, txns, id);
      UpdateValid(jobs, txns, id, Awake(jobs[id]));
      Enter(id);
    }

    /** job_transition_to_ready, called once by a driver that has such a state. */
    method BecomeReady(id: JobId)
      requires Valid() && id in jobs && jobs[id].status == Running && !jobs[id].deferred
      modifies this`jobs
      ensures Valid() && jobs == old(jobs)[id := old(jobs)[id].(status := Ready)]
    {
      hide Consistent, AllStable, Recorded;
      JobIsMember(jobs, txns, id);
      UpdateValid(jobs, txns, id, jobs[id].(status := Ready));
      Transition(id, Ready);
    }

    /**
     The end of job_co_entry: the driver's run callback has returned.  A mirror job that was cancelled
     after it had become READY completes normally: it clears the flag before it returns.
     */
    method RunReturns(id: JobId, ret: int, clears: bool)
      requires Valid() && id in jobs && jobs[id].status in {Running, Ready} && !jobs[id].deferred
      modifies this`jobs
      ensures Valid() && jobs == old(jobs)[id := Returned(old(jobs)[id], ret, clears)]
    {
      hide Consistent, AllStable, Recorded;
      JobIsMember(jobs, txns, id);
      UpdateValid(jobs, txns, id, Returned(jobs[id], ret, clears));
      jobs := jobs[id := jobs[id].(ret := ret, deferred := true, cancelled := jobs[id].cancelled && !clears)];
    }

    /** job_ref */
    method Ref(id: JobId)
      requires Valid() && id in jobs
      modifies this`jobs
      ensures Valid() && jobs == old(jobs)[id := Held(old(jobs)[id])]
    {
      hide Consistent, AllStable, Recorded;
      HeldValid(jobs, txns, id);
      jobs := jobs[id := Held(jobs[id])];
    }

    /** job_unref by a holder: a job is freed only in NULL and out of any transaction. */
    method Unref(id: JobId)
      requires Valid() && id in jobs && jobs[id].refs.holds > 0
      modifies this`jobs
      ensures Valid() && jobs == Put(old(jobs), id, Released(old(jobs)[id]))
      ensures id !in jobs ==> old(jobs)[id].status == Null && old(jobs)[id].txn == None
    {
      hide Consistent, AllStable, Recorded;
      ReleasedValid(jobs, txns, id);
      var j := jobs[id].(refs := Refs(jobs[id].refs.count - 1, jobs[id].refs.holds - 1));
      if j.refs.count == 0 {
        assert j.status == Null;
        assert j.txn == None;
        jobs := jobs - {id};
      } else {
        jobs := jobs[id := j];
      }
    }

    /** job_exit, the bottom half that completes the job. */
    method Exit(id: JobId, prepare: JobId -> int, run: JobId -> int) returns (ends: bool)
      requires Valid() && id in jobs && jobs[id].status in {Running, Ready} && jobs[id].deferred
      modifies this
      ensures ends <==> CompletionEnds(old(jobs), old(txns), id)
      ensures ends ==> Valid() && Completion(old(jobs), old(txns), jobs, txns, id, prepare, run)
                       && Extends(old(history), history, old(jobs)[id].txn.value,
                                  [Ended(id, UpdatedRet(old(jobs)[id]))], prepare)
    {
      hide Consistent, AllStable, Recorded, HeldStay, Completion, CompletionEnds, Extends, Put, Released;
      JobIsMember(jobs, txns, id);
      Ref(id);
      ghost var held := jobs;
      HeldCompletes(old(jobs), txns, id);
      ends := JobCompleted(id, prepare, run);
      if !ends {
        return;
      }
      ghost var completed := jobs;
      HeldIs(held, completed, id);
      Unref(id);
      HeldCompletion(old(jobs), old(txns), completed, txns, id, prepare, run);
    }

    /** job_cancel */
    method Cancel(id: JobId, force: bool, prepare: JobId -> int, run: JobId -> int) returns (ends: bool)
      requires Valid() && id in jobs && jobs[id].status != Null
      modifies this
      ensures ends <==> CancelEnds(old(jobs), old(txns), id)
      ensures ends ==>
                Valid() && Cancelled(old(jobs), old(txns), old(history), jobs, txns, history, id, force, prepare, run)
    {
      hide Consistent, AllStable, Recorded, OthersStarted, OthersSame, AbortedBy, JobOk, CancelAsync, CompletesFailing,
        Fails,
        Extends, FailRecord, Dismissed;
      ends := true;
      if jobs[id].status == Concluded {
        ConcludedOk(jobs, txns, id);
        DoDismiss(id);
        OutsiderStable(old(jobs), jobs, txns, id);
        return;
      }
      JobIsMember(jobs, txns, id);
      StableAt(jobs, txns, jobs[id].txn.value);
      CancelledRecord(jobs[id], force);
      if !jobs[id].started || jobs[id].deferred {
        ends := CancelIdle(id, force, prepare, run);
      } else {
        UpdateValid(jobs, txns, id, CancelAsync(jobs[id], force));
        jobs := jobs[id := CancelAsync(jobs[id], force)];
      }
    }

    /** job_cancel of a job whose coroutine has not begun or has ended. */
    method CancelIdle(id: JobId, force: bool, prepare: JobId -> int, run: JobId -> int) returns (ends: bool)
      requires Valid() && id in jobs && jobs[id].status !in {Concluded, Null}
               && (!jobs[id].started || jobs[id].deferred)
      modifies this
      ensures ends <==> CancelEnds(old(jobs), old(txns), id)
      ensures ends ==>
                Valid() && Cancelled(old(jobs), old(txns), old(history), jobs, txns, history, id, force, prepare, run)
    {
      hide Consistent, AllStable, Recorded, OthersStarted, OthersSame, AbortedBy, JobOk, CancelAsync, CompletesFailing,
        Fails,
        Extends, FailRecord, Dismissed, HeldStay;
      JobIsMember(jobs, txns, id);
      var t := jobs[id].txn.value;
      StableAt(jobs, txns, t);
      MembersUnfinished(jobs, txns, t);
      CancelledRecord(jobs[id], force);
      OthersStartedUpdate(jobs, id, CancelAsync(jobs[id], force), txns[t].members);
      if !jobs[id].started {
        UpdateValid(jobs, txns, id, CancelAsync(jobs[id], force));
        jobs := jobs[id := CancelAsync(jobs[id], force)];
        ghost var failing := jobs;
        ends := JobCompleted(id, prepare, run);
        assert failing[id := FailRecord(failing[id])] == old(jobs)[id := CancelledIdle(old(jobs)[id], force)];
      } else {
        CancelStartsAbort(jobs, txns, id, force);
        jobs := jobs[id := CancelAsync(jobs[id], force)];
        ends := AbortFor(id, run, CancelledLate(id));
      }
    }

    /** job_apply_verb */
    method ApplyVerb(id: JobId, verb: Verb) returns (ok: bool)
      requires id in jobs
      ensures ok <==> jobs[id].status in Accepting(verb)
    {
      ok := jobs[id].status in Accepting(verb);
    }

    /** job_user_cancel */
    method UserCancel(id: JobId, force: bool, prepare: JobId -> int, run: JobId -> int) returns (ok: bool, ends: bool)
      requires Valid() && id in jobs
      modifies this
      ensures ok <==> old(jobs)[id].status in Accepting(CancelVerb)
      ensures ends <==> !ok || CancelEnds(old(jobs), old(txns), id)
      ensures ends ==> Valid() && (!ok ==> jobs == old(jobs) && txns == old(txns) && history == old(history))
      ensures ok && ends ==> Cancelled(old(jobs), old(txns), old(history), jobs, txns, history, id, force, prepare, run)
    {
      hide Consistent, AllStable, Recorded;
      ends := true;
      ok := ApplyVerb(id, CancelVerb);
      if ok {
        ends := Cancel(id, force, prepare, run);
      }
    }

    /** job_finalize */
    method Finalize(id: JobId, prepare: JobId -> int, run: JobId -> int) returns (ok: bool)
      requires Valid() && id in jobs
      modifies this
      ensures Valid() && (ok <==> old(jobs)[id].status == Pending)
      ensures !ok ==> jobs == old(jobs) && txns == old(txns) && history == old(history)
      ensures ok ==> var t := old(jobs)[id].txn.value;
                && t in old(txns) && FinalisedBy(old(jobs), old(txns), jobs, txns, t, id, prepare, run)
                && Extends(old(history), history, t, [Finalising(id)], prepare)
    {
      hide Consistent, AllStable, Recorded;
      ok := ApplyVerb(id, FinalizeVerb);
      if !ok {
        return;
      }
      PendingUndecided(jobs, txns, id);
      var failed := DoFinalize(id, prepare, run);
    }

    /** job_dismiss */
    method Dismiss(id: JobId) returns (ok: bool)
      requires Valid() && id in jobs
      modifies this`jobs
      ensures Valid() && (ok <==> old(jobs)[id].status == Concluded)
      ensures jobs == if ok then Put(old(jobs), id, Dismissed(old(jobs)[id])) else old(jobs)
    {
      hide Consistent, AllStable, Recorded;
      ok := ApplyVerb(id, DismissVerb);
      if !ok {
        return;
      }
      ConcludedOk(jobs, txns, id);
      DoDismiss(id);
      OutsiderStable(old(jobs), jobs, txns, id);
    }

    // -------------------------------------------------------------- pausing

    /** job_user_pause */
    method UserPause(id: JobId) returns (ok: bool)
      requires Valid() && id in jobs
      modifies this`jobs
      ensures Valid() && (ok <==> old(jobs)[id].status in Accepting(PauseVerb) && !old(jobs)[id].pausing.user)
      ensures jobs ==
                if ok then old(jobs)[id := WithPausing(old(jobs)[id], UserPaused(old(jobs)[id].pausing))] else old(jobs)
    {
      hide Consistent, AllStable, Recorded;
      RecordOk(jobs, txns, id);
      ok := ApplyVerb(id, PauseVerb);
      if !ok || jobs[id].pausing.user {
        return false;
      }
      PausingValid(jobs, txns, id, UserPaused(jobs[id].pausing));
      jobs := jobs[id := WithPausing(jobs[id], UserPaused(jobs[id].pausing))];
    }

    /** job_user_resume, with block_job_user_resume; its assertions follow from the invariant. */
    method UserResume(id: JobId) returns (ok: bool)
      requires Valid() && id in jobs
      modifies this`jobs
      ensures Valid() && (ok <==> old(jobs)[id].status in Accepting(ResumeVerb) && old(jobs)[id].pausing.user)
      ensures jobs ==
                if ok then old(jobs)[id := WithPausing(old(jobs)[id], Resumed(old(jobs)[id].pausing))] else old(jobs)
    {
      hide Consistent, AllStable, Recorded;
      RecordOk(jobs, txns, id);
      if !jobs[id].pausing.user || jobs[id].pausing.count <= 0 {
        return false;
      }
      ok := ApplyVerb(id, ResumeVerb);
      if !ok {
        return;
      }
      PausingValid(jobs, txns, id, UserResumed(jobs[id].pausing));
      jobs := jobs[id := WithPausing(jobs[id], UserResumed(jobs[id].pausing))];
    }

    /** child_job_drained_begin: job_pause */
    method DrainedBegin(id: JobId)
      requires Valid() && id in jobs
      modifies this`jobs
      ensures Valid() && jobs == old(jobs)[id := WithPausing(old(jobs)[id], Drained(old(jobs)[id].pausing))]
    {
      hide Consistent, AllStable, Recorded;
      RecordOk(jobs, txns, id);
      var p := jobs[id].pausing;
      PausingValid(jobs, txns, id, p.(count := p.count + 1, drains := p.drains + 1));
      jobs := jobs[id := WithPausing(jobs[id], p.(count := p.count + 1, drains := p.drains + 1))];
    }

    /** child_job_drained_end: job_resume, whose assertion holds because the section is still counted. */
    method DrainedEnd(id: JobId)
      requires Valid() && id in jobs && jobs[id].pausing.drains > 0
      modifies this`jobs
      ensures Valid() && jobs == old(jobs)[id := WithPausing(old(jobs)[id], Undrained(old(jobs)[id].pausing))]
    {
      hide Consistent, AllStable, Recorded;
      RecordOk(jobs, txns, id);
      var p := jobs[id].pausing;
      assert p.count > 0;
      PausingValid(jobs, txns, id, p.(count := p.count - 1, drains := p.drains - 1));
      jobs := jobs[id := WithPausing(jobs[id], p.(count := p.count - 1, drains := p.drains - 1))];
    }

    /** block_job_error_action when the action is to stop. */
    method StopOnError(id: JobId)
      requires Valid() && id in jobs
      modifies this`jobs
      ensures Valid() && jobs == old(jobs)[id := WithPausing(old(jobs)[id], Stopped(old(jobs)[id].pausing))]
    {
      hide Consistent, AllStable, Recorded;
      RecordOk(jobs, txns, id);
      var p := jobs[id].pausing;
      if !p.user {
        p := UserPaused(p);
      }
      PausingValid(jobs, txns, id, p.(ioOk := false));
      jobs := jobs[id := WithPausing(jobs[id], p.(ioOk := false))];
    }
  }
}
