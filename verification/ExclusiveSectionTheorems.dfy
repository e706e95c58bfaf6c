/**
 What the exclusive-section protocol promises, over every run and for any number of CPUs.
 */
module ExclusiveSectionTheorems {
  import opened Optional
  import opened ExclusiveSection

  /**
   While a thread is between the end of the wait loop of start_exclusive and the write in
   end_exclusive, no CPU is in guest code and no other thread is anywhere in a section.
   */
  lemma {:induction false} MutualExclusion(n: nat, run: seq<State>, i: nat, t: Cpu, u: Cpu)
    requires IsRun(n, run) && i < |run| && t < |run[i].pc| && u < |run[i].pc|
    requires InExclusive(run[i].pc[t])
    ensures !InGuest(run[i].pc[u])
    ensures InSection(run[i].pc[u]) ==> u == t
    ensures run[i].inExclusive <= {t}
  {
    RunKeepsInv(n, run, i);
    var x :| InvFor(run[i], x);
    assert InSection(run[i].pc[t]) && x == Some(t);
    assert CountInv(run[i], t) && Scanned(run[i], |run[i].pc|);
  }

  /**
   The flag `running` alone does not tell: inside a section it is set exactly for the CPUs that
   have announced themselves in cpu_exec_start and will still back off.
   */
  lemma {:induction false} RunningFlagMeansBackingOff(n: nat, run: seq<State>, i: nat, t: Cpu, u: Cpu)
    requires IsRun(n, run) && i < |run| && t < |run[i].pc| && u < |run[i].pc|
    requires InExclusive(run[i].pc[t])
    ensures u in run[i].running <==>
            run[i].pc[u] == Start(StartReadPending) || run[i].pc[u] == Start(StartLock)
            || run[i].pc[u] == StartLocked(StartCheckWaiter)
  {
    MutualExclusion(n, run, i, t, u);
    RunKeepsInv(n, run, i);
    var x :| InvFor(run[i], x);
  }

  const SOLO: seq<Pc> := [
    Outside, Excl(ExclLock), ExclLocked(ExclIdle), ExclLocked(ExclClaim),
    SectionLocked(ExclScan(0, 0)), SectionLocked(ExclScan(1, 0)), SectionLocked(ExclScan(2, 0)),
    SectionLocked(ExclPublish(0)),
    SectionLocked(ExclWait), SectionLocked(ExclUnlock), Section(ExclEnter), Section(Exclusive)]

  /** Thread 0 after i steps of start_exclusive, while CPU 1 stays outside. */
  function Solo(i: nat): State
    requires i < 12
  {
    State(if i < 4 then 0 else 1, if 2 <= i < 10 then Some(0) else None, {}, {}, if i == 11 then {0} else {},
          [SOLO[i], Outside])
  }

  lemma {:induction false} SoloStep(i: nat)
    requires i < 11
    ensures Step(Solo(i), 0, Solo(i + 1))
  {
    assert Solo(i).pc[0 := SOLO[i + 1]] == Solo(i + 1).pc;
  }

  /** So "exclusive implies that no `running` flag is set" is false: a run of two CPUs that breaks it. */
  lemma {:induction false} NaiveInvariantFails() returns (run: seq<State>)
    ensures IsRun(2, run)
    ensures var s := run[|run| - 1]; s.inExclusive == {0} && s.running == {1}
  {
    run := seq(12, i requires 0 <= i < 12 => Solo(i)) + [ExecNext(Solo(11), 1)];
    forall i | 0 <= i < |run| - 1
      ensures SomeStep(run[i], run[i + 1])
    {
      if i < 11 {
        SoloStep(i);
      } else {
        assert Step(run[i], 1, run[i + 1]);
      }
    }
    assert Init(2).pc == Solo(0).pc;
  }

  /**
   Outside the counting loop pending_cpus is 0 with nobody counted, or one plus the counted CPUs
   (a CPU that has dropped has_waiter and not yet decremented is still counted).  It is never
   negative and a decrement never takes it below 1.
   */
  lemma {:induction false} PendingCountsWaiters(n: nat, run: seq<State>, i: nat)
    requires IsRun(n, run) && i < |run|
    requires forall t ::
               0 <= t < |run[i].pc| ==>
                 !(run[i].pc[t].SectionLocked? && run[i].pc[t].xl.ExclScan?)
                 && !(run[i].pc[t].SectionLocked? && run[i].pc[t].xl.ExclPublish?)
    ensures var s := run[i];
            || (s.pending == 0 && s.hasWaiter == {} && forall t :: 0 <= t < |s.pc| ==> !InSection(s.pc[t]))
            || (s.pending == 1 + |s.hasWaiter| + InFlight(s) && exists t :: 0 <= t < |s.pc| && InSection(s.pc[t]))
    ensures run[i].pending >= 0
    ensures HolderAt(run[i], EndLocked(EndDecrement)) ==> run[i].pending >= 2
  {
    RunKeepsInv(n, run, i);
    var s := run[i];
    var x :| InvFor(s, x);
    if x.Some? {
      assert InSection(s.pc[x.value]) && CountInv(s, x.value);
    }
  }

  /**
   A thread asleep on exclusive_cond still has CPUs to wait for, or the CPU that took the count
   to 1 is about to signal; a thread asleep on exclusive_resume has a section to wait for, or its
   owner is about to broadcast.
   */
  lemma {:induction false} NoLostWakeup(n: nat, run: seq<State>, i: nat, t: Cpu)
    requires IsRun(n, run) && i < |run| && t < |run[i].pc|
    ensures run[i].pc[t] == Section(ExclSleep) ==>
              run[i].hasWaiter != {} || HolderAt(run[i], EndLocked(EndDecrement))
              || HolderAt(run[i], EndLocked(EndSignal))
    ensures run[i].pc[t] == Start(StartIdleSleep) || run[i].pc[t] == Excl(ExclIdleSleep) ==>
            (exists u :: 0 <= u < |run[i].pc| && InSection(run[i].pc[u]))
            || HolderAt(run[i], LeaveLocked(LeaveBroadcast))
  {
    RunKeepsInv(n, run, i);
    var s := run[i];
    var x :| InvFor(s, x);
    if s.pc[t] == Section(ExclSleep) {
      assert InSection(s.pc[t]) && x == Some(t) && CountInv(s, t);
    } else if s.pending > 0 {
      assert InSection(s.pc[x.value]);
    }
  }

  /** The signal of the step that finds the count at 1 reaches the waiting thread. */
  lemma {:induction false} SignalWakesWaiter(n: nat, run: seq<State>, i: nat, t: Cpu, w: Cpu)
    requires IsRun(n, run) && i + 1 < |run| && t < |run[i].pc| && w < |run[i].pc|
    requires run[i].pc[t] == EndLocked(EndSignal) && Step(run[i], t, run[i + 1])
    requires run[i].pending == 1 && run[i].pc[w] == Section(ExclSleep)
    ensures run[i + 1].pc[w] == Section(ExclWake)
  {
    RunKeepsInv(n, run, i);
    var x :| InvFor(run[i], x);
    assert InSection(run[i].pc[w]) && x == Some(w);
    SignalEffect(run[i], t, run[i + 1], x);
  }

  // ---------------------------------------------------------------- progress

  predicate Asleep(p: Pc) {
    p == Start(StartIdleSleep) || p == Excl(ExclIdleSleep) || p == Section(ExclSleep)
  }

  /** Thread t is in the middle of an operation and can take its next step without being woken. */
  ghost predicate CanMove(s: State, t: Cpu) {
    t < |s.pc| && s.pc[t] != Outside && !Asleep(s.pc[t]) && exists s' :: Step(s, t, s')
  }

  /** A thread in an operation that is neither asleep nor kept out by the lock can move. */
  lemma {:induction false} AwakeCanMove(s: State, t: Cpu)
    requires t < |s.pc| && s.pc[t] != Outside && !Asleep(s.pc[t]) && (WantsLock(s.pc[t]) ==> s.lock == None)
    ensures CanMove(s, t)
  {
    if s.pc[t] == EndLocked(EndSignal) {
      if s.pending == 1 && exists w :: 0 <= w < |s.pc| && s.pc[w] == Section(ExclSleep) {
        var w :| 0 <= w < |s.pc| && s.pc[w] == Section(ExclSleep);
        assert Step(s, t, s.At(w, Section(ExclWake)).At(t, EndLocked(EndUnlock)));
      } else {
        assert Step(s, t, s.At(t, EndLocked(EndUnlock)));
      }
    } else if ExecPc(s.pc[t]) {
      assert Step(s, t, ExecNext(s, t));
    } else {
      assert Step(s, t, ExclNext(s, t));
    }
  }

  /** Some thread in an operation is awake, unless nobody is in an operation. */
  lemma {:induction false} SomeoneAwake(s: State, x: Option<Cpu>, t: Cpu) returns (u: Cpu)
    requires InvFor(s, x) && t < |s.pc| && s.pc[t] != Outside && s.lock == None
    ensures u < |s.pc| && s.pc[u] != Outside && !Asleep(s.pc[u])
  {
    u := t;
    if Asleep(s.pc[t]) {
      assert s.pending > 0 && x.Some?;
      u := x.value;
      assert InSection(s.pc[u]) && CountInv(s, u);
      if s.pc[u] == Section(ExclSleep) {
        assert s.hasWaiter != {};
        u :| u in s.hasWaiter;
        assert MayBeCounted(s.pc[u]);
      }
    }
  }

  /** No deadlock: whenever a thread is in the middle of an operation, some such thread can move. */
  lemma {:induction false} NoDeadlock(n: nat, run: seq<State>, i: nat, t: Cpu)
    requires IsRun(n, run) && i < |run| && t < |run[i].pc| && run[i].pc[t] != Outside
    ensures exists u :: CanMove(run[i], u)
  {
    RunKeepsInv(n, run, i);
    var s := run[i];
    var x :| InvFor(s, x);
    if s.lock.Some? {
      var u := s.lock.value;
      assert HoldsLock(s.pc[u]);
      AwakeCanMove(s, u);
    } else {
      var u := SomeoneAwake(s, x, t);
      AwakeCanMove(s, u);
    }
  }

  // ---------------------------------------------------------------- bounded waiting

  /** An upper bound on the steps a counted CPU takes before cpu_exec_end uncounts it. */
  function Distance(p: Pc): nat {
    match p
    case Start(StartReadPending) => 8
    case Start(StartLock) => 7
    case StartLocked(StartCheckWaiter) => 6
    case StartLocked(StartUnlock) => 5
    case Running => 4
    case End(EndReadPending) => 3
    case End(EndLock) => 2
    case EndLocked(EndCheckWaiter) => 1
    case _ => 0
  }

  /** The work left to the counted CPUs below k. */
  ghost function Work(s: State, k: nat): nat
    requires k <= |s.pc|
  {
    if k == 0 then 0
    else Work(s, k - 1) + if k - 1 in s.hasWaiter then Distance(s.pc[k - 1]) else 0
  }

  lemma {:induction false} WorkDecreases(s: State, t: Cpu, s': State, k: nat)
    requires |s.pc| == |s'.pc| && k <= |s.pc| && t < |s.pc|
    requires s'.hasWaiter <= s.hasWaiter
    requires forall c :: 0 <= c < |s.pc| && c in s'.hasWaiter && c != t ==> s'.pc[c] == s.pc[c]
    requires t in s.hasWaiter ==> Distance(s.pc[t]) > if t in s'.hasWaiter then Distance(s'.pc[t]) else 0
    ensures Work(s', k) <= Work(s, k)
    ensures t in s.hasWaiter && t < k ==> Work(s', k) < Work(s, k)
  {
    if k > 0 {
      WorkDecreases(s, t, s', k - 1);
    }
  }

  /** While t waits, no step adds a counted CPU and no step touches another counted CPU. */
  lemma {:induction false} ExecStepShrinksWork(s: State, x: Cpu, t: Cpu, s': State)
    requires InvFor(s, Some(x)) && x < |s.pc| && t < |s.pc| && ExecStep(s, t, s')
    ensures |s.pc| == |s'.pc| && s'.hasWaiter <= s.hasWaiter
    ensures forall c :: 0 <= c < |s.pc| && c in s'.hasWaiter && c != t ==> s'.pc[c] == s.pc[c]
    ensures t in s.hasWaiter ==> Distance(s.pc[t]) > if t in s'.hasWaiter then Distance(s'.pc[t]) else 0
  {
    assert s.pending != 0;
    if s.pc[t] == EndLocked(EndSignal) {
      SignalEffect(s, t, s', Some(x));
      assert x !in s.hasWaiter;
    } else {
      assert s'.pc == s.pc[t := s'.pc[t]];
    }
  }

  lemma {:induction false} ExclStepShrinksWork(s: State, x: Cpu, t: Cpu, s': State)
    requires InvFor(s, Some(x)) && x < |s.pc| && t < |s.pc| && Waiting(s.pc[x]) && ExclStep(s, t, s')
    requires s.pc[t] != LeaveLocked(LeaveBroadcast)
    ensures |s.pc| == |s'.pc| && s'.hasWaiter == s.hasWaiter && t !in s.hasWaiter
    ensures s'.pc == s.pc[t := s'.pc[t]]
  {
    InvIsLocal(s, t, Some(x));
    assert InSection(s.pc[t]) ==> t == x;
  }

  lemma {:induction false} BroadcastShrinksWork(s: State, x: Cpu, t: Cpu, s': State)
    requires InvFor(s, Some(x)) && x < |s.pc| && t < |s.pc| && s.pc[t] == LeaveLocked(LeaveBroadcast)
             && s' == BroadcastNext(s, t)
    ensures |s.pc| == |s'.pc| && s'.hasWaiter == s.hasWaiter && t !in s.hasWaiter
    ensures forall c :: 0 <= c < |s.pc| && c in s.hasWaiter ==> s'.pc[c] == s.pc[c]
  {
    BroadcastEffect(s, t, s');
    InvIsLocal(s, t, Some(x));
  }

  /**
   Bounded waiting: while a thread waits in start_exclusive, the set of counted CPUs never grows,
   and each step of a counted CPU consumes one unit of a finite amount of work, which no step adds to.
   */
  lemma {:induction false} WaitingIsBounded(n: nat, run: seq<State>, i: nat, t: Cpu, w: Cpu)
    requires IsRun(n, run) && i + 1 < |run| && w < |run[i].pc| && Waiting(run[i].pc[w])
    requires Step(run[i], t, run[i + 1])
    ensures |run[i + 1].pc| == |run[i].pc|
    ensures run[i + 1].hasWaiter <= run[i].hasWaiter
    ensures Work(run[i + 1], |run[i].pc|) <= Work(run[i], |run[i].pc|)
    ensures t in run[i].hasWaiter ==> Work(run[i + 1], |run[i].pc|) < Work(run[i], |run[i].pc|)
  {
    RunKeepsInv(n, run, i);
    var s, s' := run[i], run[i + 1];
    var x :| InvFor(s, x);
    assert InSection(s.pc[w]) && x == Some(w);
    if ExecStep(s, t, s') {
      ExecStepShrinksWork(s, w, t, s');
    } else if s.pc[t] == LeaveLocked(LeaveBroadcast) {
      BroadcastShrinksWork(s, w, t, s');
    } else {
      ExclStepShrinksWork(s, w, t, s');
    }
    WorkDecreases(s, t, s', |s.pc|);
  }
}
