/**
 Whole runs of the job API: whatever calls are made, by the monitor or by the coroutines of the jobs,
 in whatever order, and whatever the drivers answer, every transaction ends as a group.
 */
module JobRuns {
  import opened Optional
  import opened JobRecords
  import opened JobHistory
  import opened JobLayer

  /** A call; `prepare` and `run` give the answers of the drivers during it. */
  datatype Call =
    | Create(id: JobId, group: Option<TxnId>, own: TxnId, autoFinalize: bool, autoDismiss: bool)
    | EarlyFail(id: JobId)
    | Start(id: JobId)
    | PausePoint(id: JobId)
    | Wake(id: JobId)
    | BecomeReady(id: JobId)
    | RunReturns(id: JobId, ret: int, clears: bool)
    | Exit(id: JobId, prepare: JobId -> int, run: JobId -> int)
    | Cancel(id: JobId, force: bool, prepare: JobId -> int, run: JobId -> int)
    | UserCancel(id: JobId, force: bool, prepare: JobId -> int, run: JobId -> int)
    | Finalize(id: JobId, prepare: JobId -> int, run: JobId -> int)
    | Dismiss(id: JobId)
    | Ref(id: JobId)
    | Unref(id: JobId)
    | UserPause(id: JobId)
    | UserResume(id: JobId)
    | DrainedBegin(id: JobId)
    | DrainedEnd(id: JobId)
    | StopOnError(id: JobId)

  /** A transaction can be joined as long as nothing about it is decided. */
  predicate CanJoin(jobs: Jobs, txns: Txns, t: TxnId) {
    && t in txns && !txns[t].aborting && txns[t].committed == {} && txns[t].aborted == {}
    && forall m :: m in txns[t].members ==> m in jobs && jobs[m].status != Pending
  }

  /** What the caller has to see to, or the place in the life of a job at which the call is made. */
  predicate MayCall(jobs: Jobs, txns: Txns, c: Call) {
    if c.Create? then
      c.id !in jobs && if c.group.Some? then CanJoin(jobs, txns, c.group.value) else c.own !in txns
    else
      && c.id in jobs
      && var j := jobs[c.id];
      match c {
        case EarlyFail(_) => j.status == Created
        case Start(_) => j.status == Created
        case PausePoint(_) => j.status in {Running, Ready} && !j.deferred
        case Wake(_) => j.status in {Paused, Standby}
        case BecomeReady(_) => j.status == Running && !j.deferred
        case RunReturns(_, _, _) => j.status in {Running, Ready} && !j.deferred
        case Exit(_, _, _) => j.status in {Running, Ready} && j.deferred
        case Cancel(_, _, _, _) => j.status != Null
        case Unref(_) => j.refs.holds > 0
        case DrainedEnd(_) => j.pausing.drains > 0
        case _ => true
      }
  }

  /** A call ends unless it has to wait for a member of an aborted transaction that was never started. */
  predicate Ends(jobs: Jobs, txns: Txns, c: Call) {
    c.id in jobs ==>
      && (c.Exit? ==> CompletionEnds(jobs, txns, c.id))
      && (c.Cancel? || (c.UserCancel? && jobs[c.id].status in Accepting(CancelVerb)) ==> CancelEnds(jobs, txns, c.id))
  }

  /** The calls that may decide a transaction. */
  predicate Decisive(c: Call) {
    c.Exit? || c.Cancel? || c.UserCancel? || c.Finalize?
  }

  datatype State = State(jobs: Jobs, txns: Txns, history: Histories)

  ghost function Snapshot(layer: Layer): State
    reads layer
  {
    State(layer.jobs, layer.txns, layer.history)
  }

  /** The calls that change the record of one job and nothing else. */
  function Changed(jobs: Jobs, c: Call): Jobs
    requires c.id in jobs
  {
    var j := jobs[c.id];
    match c
    case Start(id) => jobs[id := Started(j)]
    case PausePoint(id) => jobs[id := Yielded(j)]
    case Wake(id) => jobs[id := Awake(j)]
    case BecomeReady(id) => jobs[id := j.(status := Ready)]
    case RunReturns(id, ret, clears) => jobs[id := Returned(j, ret, clears)]
    case Dismiss(id) => if j.status == Concluded then Put(jobs, id, Dismissed(j)) else jobs
    case Ref(id) => jobs[id := Held(j)]
    case Unref(id) => Put(jobs, id, Released(j))
    case UserPause(id) =>
      if j.status in Accepting(PauseVerb) && !j.pausing.user then
        jobs[id := WithPausing(j, UserPaused(j.pausing))]
      else jobs
    case UserResume(id) =>
      if j.status in Accepting(ResumeVerb) && j.pausing.user then
        jobs[id := WithPausing(j, Resumed(j.pausing))]
      else jobs
    case DrainedBegin(id) => jobs[id := WithPausing(j, Drained(j.pausing))]
    case DrainedEnd(id) => if j.pausing.drains > 0 then jobs[id := WithPausing(j, Undrained(j.pausing))] else jobs
    case StopOnError(id) => jobs[id := WithPausing(j, Stopped(j.pausing))]
    case _ => jobs
  }

  /** The state after a call: all jobs and transactions, and how the history of the transaction goes on. */
  ghost predicate Effect(s: State, c: Call, s': State) {
    match c
    case Create(id, group, own, autoFinalize, autoDismiss) =>
      var t := if group.Some? then group.value else own;
      && (group.Some? ==> t in s.history && t in s.txns)
      && s'.jobs == s.jobs[id := NewJob(t, autoFinalize, autoDismiss)]
      && s'.txns == s.txns[t := Txn(false, (if group.Some? then s.txns[t].members else {}) + {id}, {}, {}, NoAbort)]
      && s'.history == s.history[t := (if group.Some? then s.history[t] else []) + [Joined(id)]]
    case EarlyFail(id) =>
      && id in s.jobs && s.jobs[id].txn.Some?
      && var t := s.jobs[id].txn.value;
      && t in s.history && t in s.txns && s'.jobs == Put(s.jobs, id, Dismissed(s.jobs[id]))
      && s'.txns == s.txns[t := s.txns[t].(members := s.txns[t].members - {id})]
      && s'.history == Extended(s.history, t, [Left(id)])
    case Exit(id, prepare, run) =>
      && Completion(s.jobs, s.txns, s'.jobs, s'.txns, id, prepare, run) && s.jobs[id].txn.Some?
      && Extends(s.history, s'.history, s.jobs[id].txn.value, [Ended(id, UpdatedRet(s.jobs[id]))], prepare)
    case Cancel(id, force, prepare, run) =>
      Cancelled(s.jobs, s.txns, s.history, s'.jobs, s'.txns, s'.history, id, force, prepare, run)
    case UserCancel(id, force, prepare, run) =>
      if id in s.jobs && s.jobs[id].status in Accepting(CancelVerb) then
        Cancelled(s.jobs, s.txns, s.history, s'.jobs, s'.txns, s'.history, id, force, prepare, run)
      else s' == s
    case Finalize(id, prepare, run) =>
      if id in s.jobs && s.jobs[id].status == Pending then
        && s.jobs[id].txn.Some? && s.jobs[id].txn.value in s.txns
        && FinalisedBy(s.jobs, s.txns, s'.jobs, s'.txns, s.jobs[id].txn.value, id, prepare, run)
        && Extends(s.history, s'.history, s.jobs[id].txn.value, [Finalising(id)], prepare)
      else s' == s
    case _ => c.id in s.jobs && s' == s.(jobs := Changed(s.jobs, c))
  }

  lemma {:induction false} JobHasTxn(layer: Layer, id: JobId)
    requires layer.Valid() && id in layer.jobs && layer.jobs[id].status !in {Concluded, Null}
    ensures layer.jobs[id].txn.Some? && layer.jobs[id].txn.value in layer.txns
  {
    JobIsMember(layer.jobs, layer.txns, id);
  }

  method Decide(layer: Layer, c: Call) returns (ends: bool)
    requires layer.Valid() && MayCall(layer.jobs, layer.txns, c) && Decisive(c)
    modifies layer
    ensures ends <==> Ends(old(layer.jobs), old(layer.txns), c)
    ensures ends ==> layer.Valid() && Effect(old(Snapshot(layer)), c, Snapshot(layer))
  {
    hide Consistent, AllStable, Recorded, CompletionEnds, CancelEnds, Completion, Extends, Cancelled, FinalisedBy;
    ends := true;
    match c {
      case Exit(id, prepare, run) =>
        JobHasTxn(layer, id);
        ends := layer.Exit(id, prepare, run);
      case Cancel(id, force, prepare, run) =>
        ends := layer.Cancel(id, force, prepare, run);
      case UserCancel(id, force, prepare, run) =>
        var _, e := layer.UserCancel(id, force, prepare, run);
        ends := e;
      case Finalize(id, prepare, run) =>
        if layer.jobs[id].status == Pending {
          JobHasTxn(layer, id);
        }
        var _ := layer.Finalize(id, prepare, run);
    }
  }

  method Proceed(layer: Layer, c: Call)
    requires layer.Valid() && MayCall(layer.jobs, layer.txns, c) && !Decisive(c)
    modifies layer
    ensures layer.Valid() && Effect(old(Snapshot(layer)), c, Snapshot(layer))
  {
    hide Consistent, AllStable, Recorded, Extended, Put, Dismissed;
    if c.Create? {
      layer.Create(c.id, c.group, c.own, c.autoFinalize, c.autoDismiss);
    } else if c.EarlyFail? {
      JobHasTxn(layer, c.id);
      layer.EarlyFail(c.id);
    } else {
      Change(layer, c);
    }
  }

  method Change(layer: Layer, c: Call)
    requires layer.Valid() && MayCall(layer.jobs, layer.txns, c) && !Decisive(c) && !c.Create? && !c.EarlyFail?
    modifies layer`jobs
    ensures layer.Valid() && c.id in old(layer.jobs) && layer.jobs == Changed(old(layer.jobs), c)
  {
    hide Consistent, AllStable, Recorded, Put, Dismissed, Released, Stopped, Yielded;
    match c {
      case Start(id) => layer.Start(id);
      case PausePoint(id) => var _ := layer.PausePoint(id);
      case Wake(id) => layer.Wake(id);
      case BecomeReady(id) => layer.BecomeReady(id);
      case RunReturns(id, ret, clears) => layer.RunReturns(id, ret, clears);
      case Dismiss(id) => var _ := layer.Dismiss(id);
      case Ref(id) => layer.Ref(id);
      case Unref(id) => layer.Unref(id);
      case UserPause(id) => var _ := layer.UserPause(id);
      case UserResume(id) => var _ := layer.UserResume(id);
      case DrainedBegin(id) => layer.DrainedBegin(id);
      case DrainedEnd(id) => layer.DrainedEnd(id);
      case StopOnError(id) => layer.StopOnError(id);
    }
  }

  /** A permitted call that ends has its effect; calls that may not be made where the run has got to are left out. */
  ghost predicate Follows(s: State, c: Call, s': State) {
    if MayCall(s.jobs, s.txns, c) then Ends(s.jobs, s.txns, c) && Effect(s, c, s') else s' == s
  }

  /** The states of a run of the first calls, from a start without jobs. */
  ghost predicate IsRun(states: seq<State>, calls: seq<Call>) {
    && 0 < |states| <= |calls| + 1 && states[0] == State(map[], map[], map[])
    && (forall i :: 0 <= i < |states| - 1 ==> Follows(states[i], calls[i], states[i + 1]))
  }

  /** While a transaction has members nothing is decided; afterwards all that belong to it are decided as a group. */
  ghost predicate GroupOutcomes(s: State) {
    && s.history.Keys == s.txns.Keys
    && forall t :: t in s.txns ==>
         if s.txns[t].members != {} then Quiet(s.history[t], s.txns[t].members)
         else Quiet(s.history[t], {}) || Outcome(s.history[t])
  }

  /** What holds between two calls: the invariants of all jobs and transactions, and the group outcomes. */
  ghost predicate Sound(s: State) {
    Consistent(s.jobs, s.txns) && AllStable(s.jobs, s.txns) && Recorded(s.txns, s.history) && GroupOutcomes(s)
  }

  lemma {:induction false} Grouped(s: State)
    requires Recorded(s.txns, s.history)
    ensures GroupOutcomes(s)
  {
  }

  lemma {:induction false} ValidIsSound(layer: Layer)
    requires layer.Valid()
    ensures Sound(Snapshot(layer))
  {
    hide Consistent, AllStable, Recorded, GroupOutcomes;
    Grouped(Snapshot(layer));
  }

  /**
   Every run: in each state between two calls every job and transaction meets its invariant, and every
   transaction is undecided or has the outcome of a group.  The run stops early exactly at a call that
   waits for a member that was never started.
   */
  method Run(calls: seq<Call>) returns (ends: bool, ghost states: seq<State>)
    ensures IsRun(states, calls) && forall i :: 0 <= i < |states| ==> Sound(states[i])
    ensures ends ==> |states| == |calls| + 1
    ensures !ends ==> |states| <= |calls| && var s := states[|states| - 1]; var c := calls[|states| - 1];
                      MayCall(s.jobs, s.txns, c) && !Ends(s.jobs, s.txns, c)
  {
    hide Effect, Sound, Recorded, MayCall, Ends;
    var layer := new Layer();
    ends, states := true, [Snapshot(layer)];
    ValidIsSound(layer);
    for i := 0 to |calls|
      invariant fresh(layer) && layer.Valid() && ends && |states| == i + 1 && states[i] == Snapshot(layer)
      invariant IsRun(states, calls) && forall k :: 0 <= k <= i ==> Sound(states[k])
    {
      var c := calls[i];
      if MayCall(layer.jobs, layer.txns, c) {
        if Decisive(c) {
          ends := Decide(layer, c);
          if !ends {
            return;
          }
        } else {
          OthersEnd(layer.jobs, layer.txns, c);
          Proceed(layer, c);
        }
      }
      ValidIsSound(layer);
      states := states + [Snapshot(layer)];
    }
  }

  lemma {:induction false} OthersEnd(jobs: Jobs, txns: Txns, c: Call)
    requires !Decisive(c)
    ensures Ends(jobs, txns, c)
  {
  }

  // ---------------------------------------------------------------- two runs

  function Zero(m: JobId): int {
    0
  }

  /** Two jobs in one transaction, to be finalised and dismissed automatically. */
  function TwoJobs(): seq<Call> {
    [Create(0, None, 0, true, true), Create(1, Some(0), 0, true, true)]
  }

  function Pair(): Txn {
    Txn(false, {0, 1}, {}, {}, NoAbort)
  }

  function Fresh(): Job {
    NewJob(0, true, true)
  }

  function Single(): Txn {
    Txn(false, {0}, {}, {}, NoAbort)
  }

  lemma {:induction false} TwoCreated(s0: State, s1: State, s2: State)
    requires s0 == State(map[], map[], map[]) && Follows(s0, TwoJobs()[0], s1) && Follows(s1, TwoJobs()[1], s2)
    ensures s1.jobs == map[0 := Fresh()] && s1.txns == map[0 := Single()]
    ensures s2.jobs == map[0 := Fresh(), 1 := Fresh()] && s2.txns == map[0 := Pair()]
  {
    var none: set<JobId> := {};
    assert none + {0} == {0};
    assert s1.txns == map[0 := Single()];
    assert {0} + {1} == {0, 1};
  }

  function HangingCalls(): seq<Call> {
    TwoJobs() + [UserCancel(0, false, Zero, Zero)]
  }

  lemma {:induction false} CancelWaits(s: State, s': State)
    requires s.jobs == map[0 := Fresh(), 1 := Fresh()] && s.txns == map[0 := Pair()]
    ensures !Follows(s, HangingCalls()[2], s')
  {
    hide Effect;
    assert 1 in Pair().members && !s.jobs[1].started;
  }

  lemma {:induction false} HangingRun(states: seq<State>)
    requires IsRun(states, HangingCalls())
    ensures |states| <= 3
  {
    hide Follows;
    if |states| > 3 {
      assert Follows(states[0], HangingCalls()[0], states[0 + 1])
             && Follows(states[1], HangingCalls()[1], states[1 + 1]);
      assert Follows(states[2], HangingCalls()[2], states[2 + 1]);
      TwoCreated(states[0], states[1], states[2]);
      CancelWaits(states[2], states[3]);
    }
  }

  /** A job is cancelled while the other member of its transaction has not been started: the call never ends. */
  method NeverStartedHangs() returns (ends: bool)
    ensures !ends
  {
    hide IsRun;
    ghost var states;
    ends, states := Run(HangingCalls());
    HangingRun(states);
  }

  /** Job 0 cannot be prepared. */
  function ZeroFails(m: JobId): int {
    if m == 0 then -5 else 0
  }

  function SplitCalls(): seq<Call> {
    TwoJobs() + [Start(0), Start(1), RunReturns(0, 0, false), RunReturns(1, 0, false), Exit(0, ZeroFails, Zero),
                 Exit(1, ZeroFails, Zero)]
  }

  function Ran(): Job {
    Returned(Started(Fresh()), 0, false)
  }

  /** The jobs before each of these calls. */
  function SplitJobs(): seq<Jobs> {
    [map[], map[0 := Fresh()], map[0 := Fresh(), 1 := Fresh()],
     map[0 := Started(Fresh()), 1 := Fresh()], map[0 := Started(Fresh()), 1 := Started(Fresh())],
     map[0 := Ran(), 1 := Started(Fresh())], map[0 := Ran(), 1 := Ran()],
       map[0 := Ran().(status := Waiting), 1 := Ran()]]
  }

  function SplitTxns(k: nat): Txns {
    if k == 0 then map[] else if k == 1 then map[0 := Single()] else map[0 := Pair()]
  }

  ghost predicate AsExpected(s: State, k: nat)
    requires k < 8
  {
    s.jobs == SplitJobs()[k] && s.txns == SplitTxns(k)
  }

  lemma {:induction false} BothRun(s: State, k: nat, s': State)
    requires 2 <= k < 6 && AsExpected(s, k) && Follows(s, SplitCalls()[k], s')
    ensures AsExpected(s', k + 1)
  {
  }

  /** The first job to exit waits for the other. */
  lemma {:induction false} FirstWaits(s: State, s': State)
    requires AsExpected(s, 6) && Follows(s, SplitCalls()[6], s')
    ensures AsExpected(s', 7)
  {
    assert 1 in Pair().members && !Completed(s.jobs[1]);
    assert OthersRunning(s.jobs, Pair().members, 0);
  }

  /** The second finalises both; the prepare of the first fails, and the second commits alone. */
  lemma {:induction false} SecondCommits(s: State, s': State)
    requires AsExpected(s, 7) && Follows(s, SplitCalls()[7], s')
    ensures 0 in s'.txns && s'.txns[0].committed == {1} && s'.txns[0].aborted == {0}
  {
    hide AbortsTo, CommitsTo, Extends;
    assert !OthersRunning(s.jobs, Pair().members, 1) && !NeedsFinalize(s.jobs, Pair().members);
    var pending := MadePending(s.jobs, Pair().members);
    assert FinalisedBy(pending, s.txns, s'.jobs, s'.txns, 0, 1, ZeroFails, Zero);
    assert 0 in Pair().members && ZeroFails(0) != 0;
    var f :| PrepareFails(pending, s.txns, s'.jobs, s'.txns, 0, 1, f, ZeroFails, Zero);
    assert AbortedTxn({0, 1}, 1, true, PrepareFailed(1), {}).aborted == {0};
  }

  lemma {:induction false} SplitReaches(states: seq<State>, k: nat)
    requires IsRun(states, SplitCalls()) && k < |states| && k < 8
    ensures AsExpected(states[k], k)
  {
    hide Follows, AsExpected;
    if k <= 2 {
      SplitStarts(states, k);
    } else {
      SplitReaches(states, k - 1);
      assert Follows(states[k - 1], SplitCalls()[k - 1], states[k - 1 + 1]);
      if k < 7 {
        BothRun(states[k - 1], k - 1, states[k]);
      } else {
        FirstWaits(states[k - 1], states[k]);
      }
    }
  }

  lemma {:induction false} SplitStarts(states: seq<State>, k: nat)
    requires IsRun(states, SplitCalls()) && k < |states| && k <= 2
    ensures AsExpected(states[k], k)
  {
    hide Follows;
    assert k >= 1 ==> Follows(states[0], TwoJobs()[0], states[0 + 1]);
    assert k >= 2 ==> Follows(states[1], TwoJobs()[1], states[1 + 1]);
    if k == 1 {
      FirstCreated(states[0], states[1]);
    } else if k == 2 {
      TwoCreated(states[0], states[1], states[2]);
    }
  }

  lemma {:induction false} FirstCreated(s0: State, s1: State)
    requires s0 == State(map[], map[], map[]) && Follows(s0, TwoJobs()[0], s1)
    ensures s1.jobs == map[0 := Fresh()] && s1.txns == map[0 := Single()]
  {
    var none: set<JobId> := {};
    assert none + {0} == {0};
  }

  lemma {:induction false} SplitNeverWaits(s: State, k: nat)
    requires k < 8 && AsExpected(s, k)
    ensures Ends(s.jobs, s.txns, SplitCalls()[k])
  {
    assert !Fails(Ran());
  }

  lemma {:induction false} HistoryTells(s: State, t: TxnId, m: JobId)
    requires Recorded(s.txns, s.history) && t in s.txns && s.txns[t].committed != {}
    ensures t in s.history && (m in s.txns[t].committed <==> CommitCall(m) in s.history[t])
    ensures m in s.txns[t].aborted <==> AbortCall(m) in s.history[t]
  {
  }

  lemma {:induction false} SplitEnds(states: seq<State>)
    requires IsRun(states, SplitCalls()) && |states| == 9
    ensures 0 in states[8].txns && states[8].txns[0].committed == {1} && states[8].txns[0].aborted == {0}
  {
    hide Follows, AsExpected;
    SplitReaches(states, 7);
    assert Follows(states[7], SplitCalls()[7], states[7 + 1]);
    SecondCommits(states[7], states[8]);
  }

  /** Two jobs succeed, but the first cannot be prepared: it is aborted and the other is committed. */
  method SplitExample() returns (ends: bool, ghost last: State)
    ensures ends && 0 in last.history
    ensures forall m :: (CommitCall(m) in last.history[0] <==> m == 1) && (AbortCall(m) in last.history[0] <==> m == 0)
  {
    hide Follows, AsExpected, Ends, MayCall, Recorded, Consistent, AllStable, GroupOutcomes;
    ghost var states;
    ends, states := Run(SplitCalls());
    if !ends {
      SplitReaches(states, |states| - 1);
      SplitNeverWaits(states[|states| - 1], |states| - 1);
      assert false;
    }
    SplitEnds(states);
    last := states[8];
    assert Sound(last);
    HistoryTells(last, 0, 0);
    forall m
      ensures 0 in last.history && (CommitCall(m) in last.history[0] <==> m == 1)
              && (AbortCall(m) in last.history[0] <==> m == 0)
    {
      HistoryTells(last, 0, m);
    }
  }
}
