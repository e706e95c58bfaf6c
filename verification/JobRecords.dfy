/**
 One job of femu-ocssd/job.c: its states, the transition and verb tables, and what each step does to
 its record.  blockjob.c adds the I/O status and the drained sections.
 */
module JobRecords {
  import opened Optional

  type JobId = nat
  type TxnId = nat

  datatype Status =
    Undefined | Created | Running | Paused | Ready | Standby | Waiting | Pending | Aborting | Concluded | Null

  datatype Verb = CancelVerb | PauseVerb | ResumeVerb | SetSpeedVerb | CompleteVerb | FinalizeVerb | DismissVerb

  /** JobSTT, row by row. */
  function Successors(s: Status): set<Status> {
    match s
    case Undefined => {Created}
    case Created => {Running, Aborting, Null}
    case Running => {Paused, Ready, Waiting, Aborting}
    case Paused => {Running}
    case Ready => {Standby, Waiting, Aborting}
    case Standby => {Ready}
    case Waiting => {Pending, Aborting}
    case Pending => {Aborting, Concluded}
    case Aborting => {Aborting, Concluded}
    case Concluded => {Null}
    case Null => {}
  }

  /** JobVerbTable, row by row. */
  function Accepting(v: Verb): set<Status> {
    match v
    case CancelVerb => {Created, Running, Paused, Ready, Standby, Waiting, Pending}
    case PauseVerb => {Created, Running, Paused, Ready, Standby}
    case ResumeVerb => {Created, Running, Paused, Ready, Standby}
    case SetSpeedVerb => {Created, Running, Paused, Ready, Standby}
    case CompleteVerb => {Ready}
    case FinalizeVerb => {Pending}
    case DismissVerb => {Concluded}
  }

  const ECANCELED: int := 125

  /** How often each of the driver's and the creator's callbacks has been called. */
  datatype Calls = Calls(commits: nat, aborts: nat, cleans: nat, completions: nat)

  const NO_CALLS: Calls := Calls(0, 0, 0, 0)

  /** Pause requests; `drains` counts the drained sections that are open on the job's nodes. */
  datatype Pausing = Pausing(count: int, user: bool, ioOk: bool, drains: nat)

  /** References: `holds` counts those that others hold. */
  datatype Refs = Refs(count: int, holds: nat)

  datatype Auto = Auto(finalize: bool, dismiss: bool)

  /** The fields of Job and BlockJob. */
  datatype Job = Job(
    status: Status, started: bool, paused: bool, deferred: bool, ret: int, cancelled: bool, forceCancel: bool,
    txn: Option<TxnId>, pausing: Pausing, refs: Refs, calls: Calls, auto: Auto)

  predicate Completed(j: Job) {
    j.status in {Waiting, Pending, Aborting, Concluded, Null}
  }

  /** A job finalised once: committed or aborted, cleaned, and its creator told. */
  function FinalCalls(ret: int): Calls {
    if ret == 0 then Calls(1, 0, 1, 1) else Calls(0, 1, 1, 1)
  }

  function Count(b: bool): int {
    if b then 1 else 0
  }

  // ---------------------------------------------------------------- what holds of every job

  predicate PauseOk(started: bool, p: Pausing) {
    && p.count == Count(!started) + Count(p.user) + p.drains
    && (!p.ioOk ==> p.user)
  }

  predicate StatusOk(j: Job) {
    match j.status
    case Undefined => false
    case Created => !j.started && j.paused && !j.deferred && j.ret == 0
    case Running => j.started && (j.deferred || j.ret == 0)
    case Ready => j.started && (j.deferred || j.ret == 0)
    case Paused => j.started && !j.deferred && j.ret == 0
    case Standby => j.started && !j.deferred && j.ret == 0
    case Waiting => j.started && j.deferred && j.ret == 0
    case Pending => j.started && j.deferred && j.ret == 0
    case Aborting => j.ret != 0
    case Concluded => true
    case Null => true
  }

  predicate CallsOk(j: Job) {
    match j.status
    case Concluded => j.calls == FinalCalls(j.ret)
    case Null => j.calls == FinalCalls(j.ret) || j.calls == NO_CALLS
    case _ => j.calls == NO_CALLS
  }

  predicate LinksOk(j: Job) {
    && (j.txn.Some? <==> j.status != Concluded && j.status != Null)
    && j.refs.count == j.refs.holds + Count(j.status != Null) && j.refs.count > 0
  }

  predicate PartsOk(j: Job) {
    PauseOk(j.started, j.pausing) && CallsOk(j) && LinksOk(j)
  }

  predicate JobOk(j: Job) {
    PartsOk(j) && StatusOk(j)
  }

  // ---------------------------------------------------------------- steps of one job

  /** job_create, for a job that is already in transaction t. */
  function NewJob(t: TxnId, autoFinalize: bool, autoDismiss: bool): (j: Job)
    ensures JobOk(j) && j.status == Created && j.txn == Some(t) && !j.cancelled
  {
    Job(Created, false, true, false, 0, false, false, Some(t), Pausing(1, false, true, 0), Refs(1, 0), NO_CALLS,
        Auto(autoFinalize, autoDismiss))
  }

  /** block_job_iostatus_reset; its assertion is the precondition. */
  function IoReset(p: Pausing): Pausing
    requires !p.ioOk ==> p.user && p.count > 0
  {
    p.(ioOk := true)
  }

  /** The end of a pause by the user, with the driver's user_resume callback. */
  function UserResumed(p: Pausing): Pausing
    requires !p.ioOk ==> p.user && p.count > 0
  {
    IoReset(p).(user := false, count := p.count - 1)
  }

  /** job_cancel_async */
  function CancelAsync(j: Job, force: bool): (r: Job)
    requires JobOk(j)
    ensures JobOk(r) && r.cancelled && !r.pausing.user && r.pausing.ioOk && SameProgress(j, r)
  {
    j.(pausing := if j.pausing.user then UserResumed(j.pausing) else j.pausing, cancelled := true,
       forceCancel := j.forceCancel || force)
  }

  /** Everything but the pause requests and the cancel flags is the same. */
  predicate SameProgress(j: Job, r: Job) {
    && r.status == j.status && r.started == j.started && r.deferred == j.deferred && r.ret == j.ret && r.txn == j.txn
    && r.calls == j.calls && r.refs == j.refs && r.auto == j.auto && r.pausing.drains == j.pausing.drains
  }

  /** What job_update_rc makes of the return value. */
  function UpdatedRet(j: Job): int {
    if j.ret == 0 && j.cancelled then -ECANCELED else j.ret
  }

  /** The job fails or was cancelled: it will be aborted. */
  predicate Fails(j: Job) {
    UpdatedRet(j) != 0
  }

  /** job_update_rc for a job that fails. */
  function ToAborting(j: Job): (r: Job)
    requires PartsOk(j) && Fails(j) && j.status !in {Concluded, Null}
    ensures JobOk(r) && r.status == Aborting && r.txn == j.txn && Fails(r) && r.refs == j.refs
  {
    j.(ret := UpdatedRet(j), status := Aborting)
  }

  /**
   The coroutine of a started job runs to its end and job_exit completes the job, which is cancelled:
   what job_finish_sync waits for.
   */
  function RunToExit(j: Job, ret: int): (r: Job)
    requires JobOk(j) && j.started && !Completed(j) && j.cancelled
    ensures JobOk(r) && r.status == Aborting && r.txn == j.txn && r.cancelled && r.refs == j.refs
  {
    var awake := Awake(j);
    ToAborting(if j.deferred then awake else awake.(ret := ret, deferred := true))
  }

  /** The job after it has been entered: job_pause_point returns to the status the job had. */
  function Awake(j: Job): Job {
    if j.status == Paused then j.(status := Running, paused := false)
    else if j.status == Standby then j.(status := Ready, paused := false)
    else j
  }

  /** A job all of whose steps up to the decision are done. */
  predicate Decided(j: Job) {
    Completed(j) && j.status !in {Concluded, Null} && (Fails(j) || j.status == Pending)
  }

  /** job_finalize_single up to and including the transition to CONCLUDED. */
  function Concluding(j: Job): (r: Job)
    requires JobOk(j) && Decided(j)
    ensures JobOk(r) && r.status == Concluded && (r.ret == 0 <==> !Fails(j)) && r.refs == j.refs
  {
    var ret := UpdatedRet(j);
    j.(ret := ret, calls := FinalCalls(ret), txn := None, status := Concluded)
  }

  /** job_do_dismiss before the reference is dropped. */
  function Dismissing(j: Job): Job {
    j.(paused := false, deferred := true, txn := None, status := Null)
  }

  /** job_do_dismiss: what is left of the job once its own reference is dropped. */
  function Dismissed(j: Job): Option<Job> {
    var d := Dismissing(j).(refs := j.refs.(count := j.refs.count - 1));
    if d.refs.count == 0 then None else Some(d)
  }

  /** job_unref by a holder: what is left of the job. */
  function Released(j: Job): Option<Job> {
    if j.refs.count == 1 then None
    else Some(j.(refs := Refs(j.refs.count - 1, if j.refs.holds == 0 then 0 else j.refs.holds - 1)))
  }

  // The following describe what becomes of a job whose transaction ends; they say something for every
  // record, so that they can be used without conditions.

  /** job_finalize_single. */
  function FinalRecord(j: Job): Option<Job> {
    if JobOk(j) && Decided(j) then
      var c := Concluding(j);
      if c.auto.dismiss || !c.started then Dismissed(c) else Some(c)
    else None
  }

  /** A cancelled job that is awaited runs to its end. */
  function RunRecord(j: Job, ret: int): Job {
    if JobOk(j) && j.started && !Completed(j) && j.cancelled then RunToExit(j, ret) else j
  }

  function CancelRecord(j: Job): Job {
    if JobOk(j) then CancelAsync(j, false) else j
  }

  /** job_update_rc when a job completes. */
  function FailRecord(j: Job): Job {
    if PartsOk(j) && Fails(j) && j.status !in {Concluded, Null} then ToAborting(j) else j
  }

  /** A member of an aborted transaction: all but the one that started it are cancelled and awaited. */
  function AbortRecord(j: Job, leads: bool, ret: int): Option<Job> {
    FinalRecord(RunRecord(if leads then j else CancelRecord(j), ret))
  }

  lemma {:induction false} RunRecordIs(j: Job, ret: int)
    ensures var r := RunRecord(j, ret);
            && (r == j
                || (r.status == Aborting && Fails(r) && r.refs == j.refs && r.started && j.started && !Completed(j)))
            && RunRecord(r, ret) == r && (Completed(j) ==> r == j)
  {
  }

  lemma {:induction false} CancelRecordIs(j: Job)
    requires JobOk(j)
    ensures CancelRecord(j).cancelled && SameProgress(j, CancelRecord(j))
  {
  }

  // ---------------------------------------------------------------- references do not matter to the rest

  function Held(j: Job): Job {
    j.(refs := Refs(j.refs.count + 1, j.refs.holds + 1))
  }

  /** A reference that is held while a job ends, and then dropped, makes no difference. */
  lemma {:induction false} HeldFinal(j: Job)
    requires j.refs.count > 0 && FinalRecord(Held(j)).Some?
    ensures Released(FinalRecord(Held(j)).value) == FinalRecord(j)
  {
    assert JobOk(j) && Decided(j);
    var c, k := Concluding(j), Concluding(Held(j));
    assert k == Held(c);
    assert Dismissing(k) == Held(Dismissing(c));
  }

  lemma {:induction false} HeldRun(j: Job, ret: int)
    requires j.refs.count > 0
    ensures RunRecord(Held(j), ret) == Held(RunRecord(j, ret)) && RunRecord(j, ret).refs == j.refs
  {
  }

  lemma {:induction false} HeldFail(j: Job)
    requires j.refs.count > 0
    ensures FailRecord(Held(j)) == Held(FailRecord(j)) && FailRecord(j).refs == j.refs
  {
  }

  /** The job's own reference is dropped; if others hold some, the record lives on. */
  lemma {:induction false} DismissedOk(j: Job)
    requires JobOk(j) && j.status in {Concluded, Created}
    ensures Dismissed(j).Some? ==> JobOk(Dismissed(j).value) && Dismissed(j).value.refs.holds == j.refs.holds
    ensures Dismissed(j).None? <==> j.refs.holds == 0
  {
  }

  // ---------------------------------------------------------------- facts about the tables

  /**
   Every step a job can take leads away from CREATED and ends in NULL: no status is entered twice except by pausing.
   */
  function Stage(s: Status): nat {
    match s
    case Undefined => 0
    case Created => 1
    case Running => 2
    case Paused => 2
    case Ready => 3
    case Standby => 3
    case Waiting => 4
    case Pending => 5
    case Aborting => 6
    case Concluded => 7
    case Null => 8
  }

  ghost predicate IsHistory(h: seq<Status>) {
    |h| > 0 && forall i :: 0 <= i < |h| - 1 ==> h[i + 1] in Successors(h[i])
  }

  /** The stage never goes back along any history of transitions. */
  lemma {:induction false} StagesAdvance(h: seq<Status>, i: nat, k: nat)
    requires IsHistory(h) && i <= k < |h|
    ensures Stage(h[i]) <= Stage(h[k])
    decreases k
  {
    if i < k {
      StagesAdvance(h, i, k - 1);
      assert h[k - 1 + 1] in Successors(h[k - 1]);
    }
  }

  /** Once ABORTING, a job can only be concluded or stay: it is never committed through PENDING again. */
  lemma {:induction false} AbortingIsFinal(h: seq<Status>, i: nat, k: nat)
    requires IsHistory(h) && i <= k < |h| && h[i] == Aborting
    ensures h[k] in {Aborting, Concluded, Null}
    decreases k
  {
    if i < k {
      AbortingIsFinal(h, i, k - 1);
      assert h[k - 1 + 1] in Successors(h[k - 1]);
    }
  }

  /** A job leaves the table only through NULL, and only from CREATED or CONCLUDED. */
  lemma {:induction false} OnlyDismissedReachNull(h: seq<Status>, k: nat)
    requires IsHistory(h) && 0 < k < |h| && h[k] == Null
    ensures h[k - 1] in {Created, Concluded} && k == |h| - 1
  {
    assert h[k - 1 + 1] in Successors(h[k - 1]);
    assert k < |h| - 1 ==> h[k + 1] in Successors(h[k]);
  }
}
