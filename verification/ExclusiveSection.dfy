/**
 The exclusive-section protocol of femu-ocssd/cpus-common.c.

 Every vCPU has one thread.  Outside guest code a thread may enter guest code
 (cpu_exec_start ... cpu_exec_end) or run an exclusive section (start_exclusive ...
 end_exclusive).  A step is one access to shared memory, one lock operation or one
 condition-variable operation of one thread, and a run interleaves the steps of all
 threads arbitrarily.  The smp_mb() pairs of the source make this sequentially
 consistent reading the right one.
 */
module ExclusiveSection {
  import opened Optional

  type Cpu = nat

  // Positions inside the operations; each name says what the next step does.
  datatype StartAt = StartReadPending | StartLock | StartIdleSleep | StartIdleWake
  datatype StartLockedAt = StartCheckWaiter | StartIdle | StartSetRunning | StartUnlock
  datatype EndAt = EndReadPending | EndLock
  datatype EndLockedAt = EndCheckWaiter | EndDecrement | EndSignal | EndUnlock
  datatype ExclAt = ExclLock | ExclIdleSleep | ExclIdleWake
  datatype ExclLockedAt = ExclIdle | ExclClaim
  datatype SectionAt = ExclSleep | ExclWake | ExclEnter | Exclusive | LeaveLock
  datatype SectionLockedAt =
    ExclScan(next: nat, found: nat) | ExclPublish(found: nat) | ExclWait | ExclUnlock | LeaveClear
  datatype LeaveLockedAt = LeaveBroadcast | LeaveUnlock

  /**
   Where a thread stands, by operation and by whether it holds qemu_cpu_list_lock.  `Section` and
   `SectionLocked` are the part of start_exclusive and end_exclusive during which the thread's claim
   on pending_cpus stands.
   */
  datatype Pc =
    | Outside
    | Start(s: StartAt)
    | StartLocked(sl: StartLockedAt)
    | Running
    | End(e: EndAt)
    | EndLocked(el: EndLockedAt)
    | Excl(x: ExclAt)
    | ExclLocked(xp: ExclLockedAt)
    | Section(xs: SectionAt)
    | SectionLocked(xl: SectionLockedAt)
    | LeaveLocked(l: LeaveLockedAt)

  /**
   `pc[c]` is the position of the thread of the c-th CPU of the CPU list.  `pending` is
   pending_cpus, `lock` the holder of qemu_cpu_list_lock; `running`, `hasWaiter` and
   `inExclusive` hold the CPUs whose flag of that name is set.
   */
  datatype State = State(
    pending: int,
    lock: Option<Cpu>,
    running: set<Cpu>,
    hasWaiter: set<Cpu>,
    inExclusive: set<Cpu>,
    pc: seq<Pc>)
  {
    function At(t: Cpu, p: Pc): State
      requires t < |pc|
    {
      this.(pc := pc[t := p])
    }
  }

  function Init(n: nat): State {
    State(0, None, {}, {}, {}, seq(n, i => Outside))
  }

  /** What a broadcast on exclusive_resume does to one thread. */
  function Woken(p: Pc): Pc {
    match p
    case Start(StartIdleSleep) => Start(StartIdleWake)
    case Excl(ExclIdleSleep) => Excl(ExclIdleWake)
    case _ => p
  }

  function Acquire(s: State, t: Cpu, p: Pc): State
    requires t < |s.pc|
  {
    s.At(t, p).(lock := Some(t))
  }

  function Release(s: State, t: Cpu, p: Pc): State
    requires t < |s.pc|
  {
    s.At(t, p).(lock := None)
  }

  /** The next step takes qemu_cpu_list_lock. */
  predicate WantsLock(p: Pc) {
    || p == Start(StartLock) || p == Start(StartIdleWake) || p == End(EndLock)
    || p == Excl(ExclLock) || p == Excl(ExclIdleWake) || p == Section(ExclWake) || p == Section(LeaveLock)
  }

  /** The steps of cpu_exec_start and cpu_exec_end, except the signal; a sleeper wakes up spuriously. */
  function ExecNext(s: State, t: Cpu): State
    requires t < |s.pc|
  {
    match s.pc[t]
    case Outside => s.At(t, Start(StartReadPending)).(running := s.running + {t})
    case Start(StartReadPending) => s.At(t, if s.pending != 0 then Start(StartLock) else Running)
    case Start(StartLock) => Acquire(s, t, StartLocked(StartCheckWaiter))
    case StartLocked(StartCheckWaiter) =>
      if t in s.hasWaiter then
        s.At(t, StartLocked(StartUnlock))
      else s.At(t, StartLocked(StartIdle)).(running := s.running - {t})
    case StartLocked(StartIdle) =>
      if s.pending != 0 then Release(s, t, Start(StartIdleSleep)) else s.At(t, StartLocked(StartSetRunning))
    case Start(StartIdleSleep) => s.At(t, Start(StartIdleWake))
    case Start(StartIdleWake) => Acquire(s, t, StartLocked(StartIdle))
    case StartLocked(StartSetRunning) => s.At(t, StartLocked(StartUnlock)).(running := s.running + {t})
    case StartLocked(StartUnlock) => Release(s, t, Running)
    case Running => s.At(t, End(EndReadPending)).(running := s.running - {t})
    case End(EndReadPending) => s.At(t, if s.pending != 0 then End(EndLock) else Outside)
    case End(EndLock) => Acquire(s, t, EndLocked(EndCheckWaiter))
    case EndLocked(EndCheckWaiter) =>
      if t in s.hasWaiter then
        s.At(t, EndLocked(EndDecrement)).(hasWaiter := s.hasWaiter - {t})
      else s.At(t, EndLocked(EndUnlock))
    case EndLocked(EndDecrement) => s.At(t, EndLocked(EndSignal)).(pending := s.pending - 1)
    case EndLocked(EndUnlock) => Release(s, t, Outside)
    case _ => s
  }

  predicate ExecPc(p: Pc) {
    p.Outside? || p.Start? || p.StartLocked? || p.Running? || p.End? || p.EndLocked?
  }

  /** pthread_cond_signal wakes one sleeper, if there is one. */
  ghost predicate SignalStep(s: State, t: Cpu, s': State)
    requires t < |s.pc|
  {
    if s.pending == 1 && exists w :: 0 <= w < |s.pc| && s.pc[w] == Section(ExclSleep) then
      exists w ::
        0 <= w < |s.pc| && s.pc[w] == Section(ExclSleep) && s' == s.At(w, Section(ExclWake)).At(t, EndLocked(EndUnlock))
    else
      s' == s.At(t, EndLocked(EndUnlock))
  }

  ghost predicate ExecStep(s: State, t: Cpu, s': State)
    requires t < |s.pc|
  {
    && ExecPc(s.pc[t])
    && (WantsLock(s.pc[t]) ==> s.lock == None)
    && if s.pc[t] == EndLocked(EndSignal) then SignalStep(s, t, s') else s' == ExecNext(s, t)
  }

  /** One iteration of CPU_FOREACH in start_exclusive, or its end. */
  function ScanNext(s: State, t: Cpu, k: nat, found: nat): State
    requires t < |s.pc|
  {
    if k >= |s.pc| then s.At(t, SectionLocked(ExclPublish(found)))
    else if k in s.running then s.At(t, SectionLocked(ExclScan(k + 1, found + 1))).(hasWaiter := s.hasWaiter + {k})
    else s.At(t, SectionLocked(ExclScan(k + 1, found)))
  }

  function BroadcastNext(s: State, t: Cpu): State
    requires t < |s.pc|
  {
    s.(pc := seq(|s.pc|, i requires 0 <= i < |s.pc| => if i == t then LeaveLocked(LeaveUnlock) else Woken(s.pc[i])))
  }

  /** The steps of start_exclusive and end_exclusive; a sleeper wakes up spuriously. */
  function ExclNext(s: State, t: Cpu): State
    requires t < |s.pc|
  {
    match s.pc[t]
    case Outside => s.At(t, Excl(ExclLock))
    case Excl(ExclLock) => Acquire(s, t, ExclLocked(ExclIdle))
    case ExclLocked(ExclIdle) =>
      if s.pending != 0 then Release(s, t, Excl(ExclIdleSleep)) else s.At(t, ExclLocked(ExclClaim))
    case Excl(ExclIdleSleep) => s.At(t, Excl(ExclIdleWake))
    case Excl(ExclIdleWake) => Acquire(s, t, ExclLocked(ExclIdle))
    case ExclLocked(ExclClaim) => s.At(t, SectionLocked(ExclScan(0, 0))).(pending := 1)
    case SectionLocked(ExclScan(k, found)) => ScanNext(s, t, k, found)
    case SectionLocked(ExclPublish(found)) => s.At(t, SectionLocked(ExclWait)).(pending := found + 1)
    case SectionLocked(ExclWait) =>
      if s.pending > 1 then Release(s, t, Section(ExclSleep)) else s.At(t, SectionLocked(ExclUnlock))
    case Section(ExclSleep) => s.At(t, Section(ExclWake))
    case Section(ExclWake) => Acquire(s, t, SectionLocked(ExclWait))
    case SectionLocked(ExclUnlock) => Release(s, t, Section(ExclEnter))
    case Section(ExclEnter) => s.At(t, Section(Exclusive)).(inExclusive := s.inExclusive + {t})
    case Section(Exclusive) => s.At(t, Section(LeaveLock)).(inExclusive := s.inExclusive - {t})
    case Section(LeaveLock) => Acquire(s, t, SectionLocked(LeaveClear))
    case SectionLocked(LeaveClear) => s.At(t, LeaveLocked(LeaveBroadcast)).(pending := 0)
    case LeaveLocked(LeaveBroadcast) => BroadcastNext(s, t)
    case LeaveLocked(LeaveUnlock) => Release(s, t, Outside)
    case _ => s
  }

  ghost predicate ExclStep(s: State, t: Cpu, s': State)
    requires t < |s.pc|
  {
    && (s.pc[t].Outside? || !ExecPc(s.pc[t]))
    && (WantsLock(s.pc[t]) ==> s.lock == None)
    && s' == ExclNext(s, t)
  }

  ghost predicate Step(s: State, t: Cpu, s': State) {
    t < |s.pc| && (ExecStep(s, t, s') || ExclStep(s, t, s'))
  }

  ghost predicate SomeStep(s: State, s': State) {
    exists t :: Step(s, t, s')
  }

  /** A run of n vCPUs from the initial state, any thread moving at any time. */
  ghost predicate IsRun(n: nat, run: seq<State>) {
    && |run| > 0
    && run[0] == Init(n)
    && forall i :: 0 <= i < |run| - 1 ==> SomeStep(run[i], run[i + 1])
  }

  // ---------------------------------------------------------------- regions

  predicate HoldsLock(p: Pc) {
    p.StartLocked? || p.EndLocked? || p.ExclLocked? || p.SectionLocked? || p.LeaveLocked?
  }

  predicate FlagRunning(p: Pc) {
    p == Start(StartReadPending) || p == Start(StartLock) || p == StartLocked(StartCheckWaiter)
    || p == StartLocked(StartUnlock) || p.Running?
  }

  /** cpu_exec_start has decided to let the CPU run, and cpu_exec_end has not cleared `running` yet. */
  predicate InGuest(p: Pc) {
    p == StartLocked(StartUnlock) || p.Running?
  }

  /** start_exclusive has announced itself and end_exclusive has not cleared pending_cpus yet. */
  predicate InSection(p: Pc) {
    p.Section? || p.SectionLocked?
  }

  /** The wait loop of start_exclusive is over and end_exclusive has not cleared pending_cpus yet. */
  predicate InExclusive(p: Pc) {
    || p == Section(ExclEnter) || p == Section(Exclusive) || p == Section(LeaveLock)
    || p == SectionLocked(ExclUnlock) || p == SectionLocked(LeaveClear)
  }

  predicate Waiting(p: Pc) {
    p == SectionLocked(ExclWait) || p == Section(ExclSleep) || p == Section(ExclWake)
  }

  /** Positions at which a CPU counted by start_exclusive can be, until cpu_exec_end uncounts it. */
  predicate MayBeCounted(p: Pc) {
    FlagRunning(p) || p == End(EndReadPending) || p == End(EndLock) || p == EndLocked(EndCheckWaiter)
  }

  // ---------------------------------------------------------------- invariant

  ghost predicate LockInv(s: State) {
    && (s.lock.Some? ==> s.lock.value < |s.pc|)
    && (forall t :: 0 <= t < |s.pc| ==> (HoldsLock(s.pc[t]) <==> s.lock == Some(t)))
  }

  ghost predicate FlagInv(s: State) {
    && (forall t :: t in s.running <==> 0 <= t < |s.pc| && FlagRunning(s.pc[t]))
    && (forall t :: t in s.inExclusive <==> 0 <= t < |s.pc| && s.pc[t] == Section(Exclusive))
    && (forall t :: t in s.hasWaiter ==> 0 <= t < |s.pc| && MayBeCounted(s.pc[t]))
  }

  /** x is the only thread inside a section, and pending_cpus is non-zero exactly while there is one. */
  ghost predicate SectionInv(s: State, x: Option<Cpu>) {
    && (x.Some? ==> x.value < |s.pc|)
    && (forall t :: 0 <= t < |s.pc| ==> (InSection(s.pc[t]) <==> x == Some(t)))
    && (s.pending == 0 <==> x == None)
    && (x == None ==> s.hasWaiter == {})
    && s.pending >= 0
  }

  /** The CPUs below `k` have been scanned: those in guest code are counted. */
  ghost predicate Scanned(s: State, k: nat) {
    forall c :: 0 <= c < |s.pc| && c < k && InGuest(s.pc[c]) ==> c in s.hasWaiter
  }

  predicate HolderAt(s: State, p: Pc) {
    s.lock.Some? && s.lock.value < |s.pc| && s.pc[s.lock.value] == p
  }

  /** One while a CPU has given up its has_waiter flag and not yet decremented pending_cpus. */
  function InFlight(s: State): nat {
    if HolderAt(s, EndLocked(EndDecrement)) then 1 else 0
  }

  /** What the open section of thread x has established, by its progress. */
  ghost predicate CountInv(s: State, x: Cpu)
    requires x < |s.pc|
  {
    var p := s.pc[x];
    if p.SectionLocked? && p.xl.ExclScan? then
      && p.xl.next <= |s.pc| && s.pending == 1 && p.xl.found == |s.hasWaiter|
      && (forall c :: c in s.hasWaiter ==> c < p.xl.next) && Scanned(s, p.xl.next)
    else if p.SectionLocked? && p.xl.ExclPublish? then
      s.pending == 1 && p.xl.found == |s.hasWaiter| && Scanned(s, |s.pc|)
    else if Waiting(p) then
      s.pending == 1 + |s.hasWaiter| + InFlight(s) && Scanned(s, |s.pc|)
    else
      s.pending == 1 && s.hasWaiter == {} && InFlight(s) == 0 && Scanned(s, |s.pc|)
  }

  /** What the holder of the lock knows about pending_cpus. */
  ghost predicate HolderInv(s: State) {
    && (HolderAt(s, ExclLocked(ExclClaim)) || HolderAt(s, StartLocked(StartSetRunning)) ==> s.pending == 0)
    && (HolderAt(s, StartLocked(StartUnlock)) && s.lock.value !in s.hasWaiter ==> s.pending == 0)
    && (HolderAt(s, EndLocked(EndDecrement)) ==> s.pending >= 2)
  }

  /** A sleeper's condition still holds, or the thread that will wake it is about to. */
  ghost predicate WakeInv(s: State) {
    && (forall t ::
          0 <= t < |s.pc| && s.pc[t] == Section(ExclSleep) ==> s.pending > 1 || HolderAt(s, EndLocked(EndSignal)))
    && (forall t :: 0 <= t < |s.pc| && (s.pc[t] == Start(StartIdleSleep) || s.pc[t] == Excl(ExclIdleSleep))
          ==> s.pending > 0 || HolderAt(s, LeaveLocked(LeaveBroadcast)))
  }

  ghost predicate InvFor(s: State, x: Option<Cpu>) {
    && LockInv(s) && FlagInv(s) && SectionInv(s, x)
    && (x.Some? ==> CountInv(s, x.value))
    && HolderInv(s) && WakeInv(s)
  }

  ghost predicate Inv(s: State) {
    exists x :: InvFor(s, x)
  }

  // ---------------------------------------------------------------- preservation

  /** Thread t goes to p', taking or dropping the lock and its `running` flag as p' says. */
  function Move(s: State, t: Cpu, p': Pc): State
    requires t < |s.pc|
  {
    s.At(t, p').(lock := LockAfter(s, t, p'), running := if FlagRunning(p') then s.running + {t} else s.running - {t})
  }

  function LockAfter(s: State, t: Cpu, p': Pc): Option<Cpu>
    requires t < |s.pc|
  {
    if HoldsLock(p') then Some(t) else if HoldsLock(s.pc[t]) then None else s.lock
  }

  /** The conditions under which a move from p to p', both outside any section, is harmless. */
  ghost predicate QuietMove(s: State, t: Cpu, p: Pc, p': Pc) {
    && !InSection(p) && !InSection(p')
    && (HoldsLock(p') ==> s.lock == None || s.lock == Some(t))
    && p != EndLocked(EndDecrement) && p != EndLocked(EndSignal) && p != LeaveLocked(LeaveBroadcast)
    && p' != EndLocked(EndDecrement) && p' != EndLocked(EndSignal) && p' != LeaveLocked(LeaveBroadcast)
    && (InGuest(p') && !InGuest(p) ==> s.pending == 0 || t in s.hasWaiter)
    && (p' == Start(StartIdleSleep) || p' == Excl(ExclIdleSleep) ==> s.pending != 0)
    && (p' == ExclLocked(ExclClaim) || p' == StartLocked(StartSetRunning) ==> s.pending == 0)
    && (t in s.hasWaiter ==> MayBeCounted(p'))
  }

  lemma {:induction false} QuietMoveKeepsLock(s: State, t: Cpu, p': Pc, x: Option<Cpu>)
    requires InvFor(s, x) && t < |s.pc| && QuietMove(s, t, s.pc[t], p')
    ensures LockInv(Move(s, t, p'))
    ensures HolderAt(Move(s, t, p'), EndLocked(EndDecrement)) == HolderAt(s, EndLocked(EndDecrement))
    ensures HolderAt(Move(s, t, p'), EndLocked(EndSignal)) == HolderAt(s, EndLocked(EndSignal))
    ensures HolderAt(Move(s, t, p'), LeaveLocked(LeaveBroadcast)) == HolderAt(s, LeaveLocked(LeaveBroadcast))
  {
  }

  lemma {:induction false} QuietMoveKeepsFlags(s: State, t: Cpu, p': Pc, x: Option<Cpu>)
    requires InvFor(s, x) && t < |s.pc| && QuietMove(s, t, s.pc[t], p')
    ensures FlagInv(Move(s, t, p')) && SectionInv(Move(s, t, p'), x)
  {
  }

  lemma {:induction false} QuietMoveKeepsCounts(s: State, t: Cpu, p': Pc, x: Option<Cpu>)
    requires InvFor(s, x) && t < |s.pc| && QuietMove(s, t, s.pc[t], p') && x.Some?
    requires HolderAt(Move(s, t, p'), EndLocked(EndDecrement)) == HolderAt(s, EndLocked(EndDecrement))
    ensures CountInv(Move(s, t, p'), x.value)
  {
    var s' := Move(s, t, p');
    assert s'.pc[x.value] == s.pc[x.value];
    assert InFlight(s') == InFlight(s);
  }

  lemma {:induction false} QuietMoveKeepsInv(s: State, t: Cpu, p': Pc, x: Option<Cpu>)
    requires InvFor(s, x) && t < |s.pc| && QuietMove(s, t, s.pc[t], p')
    ensures InvFor(Move(s, t, p'), x)
  {
    QuietMoveKeepsLock(s, t, p', x);
    QuietMoveKeepsFlags(s, t, p', x);
    if x.Some? {
      QuietMoveKeepsCounts(s, t, p', x);
    }
    var s' := Move(s, t, p');
    assert HolderInv(s');
    assert WakeInv(s');
  }

  /** What the invariant says about one thread and the shared variables alone. */
  ghost predicate LocalInv(s: State, t: Cpu)
    requires t < |s.pc|
  {
    && (HoldsLock(s.pc[t]) <==> s.lock == Some(t))
    && (t in s.running <==> FlagRunning(s.pc[t]))
    && (t in s.hasWaiter ==> MayBeCounted(s.pc[t]) && s.pending != 0)
    && (s.pc[t] == StartLocked(StartSetRunning) ==> s.pending == 0)
    && (s.pc[t] == StartLocked(StartUnlock) && t !in s.hasWaiter ==> s.pending == 0)
  }

  lemma {:induction false} InvIsLocal(s: State, t: Cpu, x: Option<Cpu>)
    requires InvFor(s, x) && t < |s.pc|
    ensures LocalInv(s, t)
  {
  }

  lemma {:induction false} StartOutsideLock(s: State, t: Cpu, s': State)
    requires t < |s.pc| && LocalInv(s, t) && ExecStep(s, t, s') && (s.pc[t].Outside? || s.pc[t].Start?)
    ensures QuietMove(s, t, s.pc[t], s'.pc[t]) && s' == Move(s, t, s'.pc[t])
  {
    assert s'.running == Move(s, t, s'.pc[t]).running;
  }

  lemma {:induction false} StartUnderLock(s: State, t: Cpu, s': State)
    requires t < |s.pc| && LocalInv(s, t) && ExecStep(s, t, s') && s.pc[t].StartLocked?
    ensures QuietMove(s, t, s.pc[t], s'.pc[t]) && s' == Move(s, t, s'.pc[t])
  {
    assert s'.running == Move(s, t, s'.pc[t]).running;
  }

  /** All steps of cpu_exec_start are quiet. */
  lemma {:induction false} StartStepIsQuiet(s: State, t: Cpu, s': State)
    requires t < |s.pc| && LocalInv(s, t) && ExecStep(s, t, s')
    requires s.pc[t].Outside? || s.pc[t].Start? || s.pc[t].StartLocked?
    ensures QuietMove(s, t, s.pc[t], s'.pc[t]) && s' == Move(s, t, s'.pc[t])
  {
    hide QuietMove, Move, LocalInv, ExecStep;
    if s.pc[t].StartLocked? {
      StartUnderLock(s, t, s');
    } else {
      StartOutsideLock(s, t, s');
    }
  }

  /** So are those of cpu_exec_end that leave the count alone. */
  lemma {:induction false} EndStepIsQuiet(s: State, t: Cpu, s': State)
    requires t < |s.pc| && LocalInv(s, t) && ExecStep(s, t, s')
    requires s.pc[t].Running? || s.pc[t] == End(EndReadPending) || s.pc[t] == End(EndLock)
             || s.pc[t] == EndLocked(EndUnlock)
          || (s.pc[t] == EndLocked(EndCheckWaiter) && t !in s.hasWaiter)
    ensures QuietMove(s, t, s.pc[t], s'.pc[t]) && s' == Move(s, t, s'.pc[t])
  {
    assert s'.running == Move(s, t, s'.pc[t]).running;
  }

  lemma {:induction false} ExecStepIsQuiet(s: State, t: Cpu, s': State)
    requires t < |s.pc| && LocalInv(s, t) && ExecStep(s, t, s')
    requires s.pc[t] != EndLocked(EndDecrement) && s.pc[t] != EndLocked(EndSignal)
             && !(s.pc[t] == EndLocked(EndCheckWaiter) && t in s.hasWaiter)
    ensures QuietMove(s, t, s.pc[t], s'.pc[t]) && s' == Move(s, t, s'.pc[t])
  {
    if s.pc[t].Running? || s.pc[t] == End(EndReadPending) || s.pc[t] == End(EndLock) || s.pc[t] == EndLocked(EndUnlock)
       || s.pc[t] == EndLocked(EndCheckWaiter) {
      EndStepIsQuiet(s, t, s');
    } else {
      StartStepIsQuiet(s, t, s');
    }
  }

  /** And those of start_exclusive and end_exclusive outside the section proper. */
  lemma {:induction false} ExclStepIsQuiet(s: State, t: Cpu, s': State)
    requires t < |s.pc| && LocalInv(s, t) && ExclStep(s, t, s')
    requires s.pc[t].Outside? || s.pc[t] == Excl(ExclLock) || s.pc[t] == ExclLocked(ExclIdle)
             || s.pc[t] == Excl(ExclIdleSleep)
          || s.pc[t] == Excl(ExclIdleWake) || s.pc[t] == LeaveLocked(LeaveUnlock)
    ensures QuietMove(s, t, s.pc[t], s'.pc[t]) && s' == Move(s, t, s'.pc[t])
  {
    assert s'.running == Move(s, t, s'.pc[t]).running;
  }

  /** While another thread holds the lock, a section with a count is in its wait loop. */
  lemma {:induction false} CountedMeansWaiting(s: State, t: Cpu, x: Option<Cpu>)
    requires InvFor(s, x) && t < |s.pc| && s.lock == Some(t) && !InSection(s.pc[t])
    requires t in s.hasWaiter || s.pc[t] == EndLocked(EndDecrement)
    ensures x.Some? && x.value != t && Waiting(s.pc[x.value])
    ensures s.pending == 1 + |s.hasWaiter| + InFlight(s) && Scanned(s, |s.pc|)
  {
    assert x.Some?;
    assert !HoldsLock(s.pc[x.value]);
  }

  lemma {:induction false} UncountKeepsState(s: State, t: Cpu, s': State, x: Option<Cpu>)
    requires InvFor(s, x) && t < |s.pc| && s.pc[t] == EndLocked(EndCheckWaiter) && t in s.hasWaiter
    requires s' == s.At(t, EndLocked(EndDecrement)).(hasWaiter := s.hasWaiter - {t})
    ensures LockInv(s') && FlagInv(s') && SectionInv(s', x)
  {
  }

  lemma {:induction false} UncountKeepsInv(s: State, t: Cpu, s': State, x: Option<Cpu>)
    requires InvFor(s, x) && t < |s.pc| && s.pc[t] == EndLocked(EndCheckWaiter) && t in s.hasWaiter
    requires s' == s.At(t, EndLocked(EndDecrement)).(hasWaiter := s.hasWaiter - {t})
    ensures InvFor(s', x)
  {
    UncountKeepsState(s, t, s', x);
    CountedMeansWaiting(s, t, x);
    assert s.hasWaiter == s'.hasWaiter + {t};
    assert CountInv(s', x.value);
  }

  lemma {:induction false} DecrementKeepsInv(s: State, t: Cpu, s': State, x: Option<Cpu>)
    requires InvFor(s, x) && t < |s.pc| && s.pc[t] == EndLocked(EndDecrement)
    requires s' == s.At(t, EndLocked(EndSignal)).(pending := s.pending - 1)
    ensures InvFor(s', x)
  {
    CountedMeansWaiting(s, t, x);
    assert LockInv(s');
    assert FlagInv(s');
    assert CountInv(s', x.value);
  }

  /** A signal wakes the thread of the section, if it sleeps, and changes nothing else. */
  lemma {:induction false} SignalEffect(s: State, t: Cpu, s': State, x: Option<Cpu>)
    requires LockInv(s) && SectionInv(s, x) && t < |s.pc| && SignalStep(s, t, s') && s.pc[t] == EndLocked(EndSignal)
    ensures s' == s.(pc := s'.pc) && |s'.pc| == |s.pc| && s'.pc[t] == EndLocked(EndUnlock) && s.lock == Some(t)
            && x != Some(t)
    ensures forall u :: 0 <= u < |s.pc| && u != t && Some(u) != x ==> s'.pc[u] == s.pc[u]
    ensures x.Some? ==>
              s'.pc[x.value] ==
                if s.pending == 1 && s.pc[x.value] == Section(ExclSleep) then Section(ExclWake) else s.pc[x.value]
  {
    assert HoldsLock(s.pc[t]) && !InSection(s.pc[t]);
    assert forall u :: 0 <= u < |s.pc| && s.pc[u] == Section(ExclSleep) ==> InSection(s.pc[u]);
  }

  lemma {:induction false} SignalKeepsState(s: State, t: Cpu, s': State, x: Option<Cpu>)
    requires LockInv(s) && FlagInv(s) && SectionInv(s, x)
    requires t < |s.pc| && SignalStep(s, t, s') && s.pc[t] == EndLocked(EndSignal)
    ensures LockInv(s') && FlagInv(s') && SectionInv(s', x)
  {
    SignalEffect(s, t, s', x);
  }

  lemma {:induction false} SignalKeepsInv(s: State, t: Cpu, s': State, x: Option<Cpu>)
    requires InvFor(s, x) && t < |s.pc| && SignalStep(s, t, s') && s.pc[t] == EndLocked(EndSignal)
    ensures InvFor(s', x)
  {
    SignalKeepsState(s, t, s', x);
    SignalEffect(s, t, s', x);
    assert InFlight(s') == InFlight(s) == 0;
    assert x.Some? ==> CountInv(s', x.value);
    assert WakeInv(s');
  }

  lemma {:induction false} ExecStepKeepsInv(s: State, t: Cpu, s': State, x: Option<Cpu>)
    requires InvFor(s, x) && t < |s.pc| && ExecStep(s, t, s')
    ensures InvFor(s', x)
  {
    if s.pc[t] == EndLocked(EndDecrement) {
      DecrementKeepsInv(s, t, s', x);
    } else if s.pc[t] == EndLocked(EndSignal) {
      SignalKeepsInv(s, t, s', x);
    } else if s.pc[t] == EndLocked(EndCheckWaiter) && t in s.hasWaiter {
      UncountKeepsInv(s, t, s', x);
    } else {
      assert QuietMove(s, t, s.pc[t], s'.pc[t]) && s' == Move(s, t, s'.pc[t]) by {
        InvIsLocal(s, t, x);
        ExecStepIsQuiet(s, t, s');
      }
      QuietMoveKeepsInv(s, t, s'.pc[t], x);
    }
  }

  lemma {:induction false} ClaimKeepsInv(s: State, t: Cpu, s': State, x: Option<Cpu>)
    requires InvFor(s, x) && t < |s.pc| && s.pc[t] == ExclLocked(ExclClaim)
    requires s' == s.At(t, SectionLocked(ExclScan(0, 0))).(pending := 1)
    ensures InvFor(s', Some(t))
  {
    assert s.lock == Some(t) && HolderAt(s, ExclLocked(ExclClaim));
    assert s'.pc == s.pc[t := SectionLocked(ExclScan(0, 0))];
    assert CountInv(s', t);
  }

  /** The thread of the section moves on inside it. */
  ghost predicate SectionMove(s: State, t: Cpu, s': State)
    requires t < |s.pc|
  {
    && |s'.pc| == |s.pc| && s'.pc == s.pc[t := s'.pc[t]]
    && InSection(s.pc[t]) && InSection(s'.pc[t])
    && s'.lock == LockAfter(s, t, s'.pc[t]) && (HoldsLock(s'.pc[t]) ==> s.lock == None || s.lock == Some(t))
    && s'.running == s.running
    && s'.inExclusive == (if s'.pc[t] == Section(Exclusive) then s.inExclusive + {t} else s.inExclusive - {t})
    && (s'.pc[t] == Section(ExclSleep) ==> s'.pending > 1) && s'.pending > 0
  }

  lemma {:induction false} SectionMoveKeepsLock(s: State, t: Cpu, s': State)
    requires InvFor(s, Some(t)) && t < |s.pc| && SectionMove(s, t, s')
    ensures LockInv(s')
    ensures HolderAt(s', EndLocked(EndDecrement)) == HolderAt(s, EndLocked(EndDecrement))
    ensures HolderAt(s', EndLocked(EndSignal)) == HolderAt(s, EndLocked(EndSignal))
  {
  }

  lemma {:induction false} SectionMoveKeepsFlags(s: State, t: Cpu, s': State)
    requires FlagInv(s) && SectionInv(s, Some(t)) && t < |s.pc| && SectionMove(s, t, s')
    requires s'.hasWaiter <= s.hasWaiter + s.running
    ensures FlagInv(s') && SectionInv(s', Some(t))
  {
  }

  lemma {:induction false} SectionMoveKeepsInv(s: State, t: Cpu, s': State)
    requires InvFor(s, Some(t)) && t < |s.pc| && SectionMove(s, t, s')
    requires FlagInv(s') && SectionInv(s', Some(t)) && CountInv(s', t)
    requires s'.pending == s.pending || s.lock == s'.lock == Some(t)
    requires s.hasWaiter <= s'.hasWaiter
    ensures InvFor(s', Some(t))
  {
    SectionMoveKeepsLock(s, t, s');
  }

  /** What the scan relies on: it holds the lock, and CPUs in the guest have the flag set. */
  lemma {:induction false} ScanFacts(s: State, t: Cpu)
    requires LockInv(s) && FlagInv(s) && t < |s.pc| && CountInv(s, t) && s.pc[t].SectionLocked? && s.pc[t].xl.ExclScan?
    ensures s.lock == Some(t) && t !in s.inExclusive && s.pc[t].xl.next !in s.hasWaiter
    ensures forall k :: 0 <= k < |s.pc| && InGuest(s.pc[k]) ==> k in s.running
  {
    assert s.pc[t] != Section(Exclusive);
  }

  /** The scan moves on to p, having marked the CPUs of `marked`. */
  lemma {:induction false} ScanCounts(s: State, t: Cpu, p: Pc, marked: set<Cpu>)
    requires t < |s.pc| && CountInv(s, t) && s.pc[t].SectionLocked? && s.pc[t].xl.ExclScan?
    requires var k := s.pc[t].xl.next; k !in s.hasWaiter && marked == if k < |s.pc| && k in s.running then {k} else {}
    requires forall k :: 0 <= k < |s.pc| && InGuest(s.pc[k]) ==> k in s.running
    requires var k, found := s.pc[t].xl.next, s.pc[t].xl.found;
             p == SectionLocked(if k >= |s.pc| then ExclPublish(found) else ExclScan(k + 1, found + |marked|))
    ensures CountInv(s.At(t, p).(hasWaiter := s.hasWaiter + marked), t)
  {
    assert |s.hasWaiter + marked| == |s.hasWaiter| + |marked|;
  }

  lemma {:induction false} ScanIsMove(s: State, t: Cpu, s': State)
    requires t < |s.pc| && s.lock == Some(t) && t !in s.inExclusive && s.pending == 1
    requires s.pc[t].SectionLocked? && s.pc[t].xl.ExclScan? && s' == ScanNext(s, t, s.pc[t].xl.next, s.pc[t].xl.found)
    ensures SectionMove(s, t, s') && s'.lock == Some(t)
    ensures s.hasWaiter <= s'.hasWaiter <= s.hasWaiter + s.running
  {
  }

  lemma {:induction false} ScanKeepsCount(s: State, t: Cpu, s': State)
    requires t < |s.pc| && CountInv(s, t) && s.pc[t].SectionLocked? && s.pc[t].xl.ExclScan?
             && s.pc[t].xl.next !in s.hasWaiter
    requires forall k :: 0 <= k < |s.pc| && InGuest(s.pc[k]) ==> k in s.running
    requires s' == ScanNext(s, t, s.pc[t].xl.next, s.pc[t].xl.found)
    ensures CountInv(s', t) && s.pending == 1
  {
    var k := s.pc[t].xl.next;
    var none: set<Cpu> := {};
    if k < |s.pc| && k in s.running {
      ScanCounts(s, t, s'.pc[t], {k});
    } else {
      ScanCounts(s, t, s'.pc[t], none);
      assert s.hasWaiter + none == s.hasWaiter;
    }
  }

  lemma {:induction false} ScanKeepsInv(s: State, t: Cpu, s': State)
    requires InvFor(s, Some(t)) && t < |s.pc| && s.pc[t].SectionLocked? && s.pc[t].xl.ExclScan?
    requires s' == ScanNext(s, t, s.pc[t].xl.next, s.pc[t].xl.found)
    ensures InvFor(s', Some(t))
  {
    ScanFacts(s, t);
    ScanKeepsCount(s, t, s');
    ScanIsMove(s, t, s');
    SectionMoveKeepsFlags(s, t, s');
    SectionMoveKeepsInv(s, t, s');
  }

  lemma {:induction false} PublishKeepsInv(s: State, t: Cpu, s': State)
    requires InvFor(s, Some(t)) && t < |s.pc| && s.pc[t].SectionLocked? && s.pc[t].xl.ExclPublish?
    requires s' == s.At(t, SectionLocked(ExclWait)).(pending := s.pc[t].xl.found + 1)
    ensures InvFor(s', Some(t))
  {
    assert s.lock == s'.lock == Some(t);
    assert t !in s.inExclusive;
    SectionMoveKeepsFlags(s, t, s');
    assert CountInv(s', t);
    SectionMoveKeepsInv(s, t, s');
  }

  /** The steps of the wait loop and those inside the section change no count. */
  ghost predicate PlainMove(s: State, t: Cpu, s': State)
    requires t < |s.pc|
  {
    && SectionMove(s, t, s') && s'.pending == s.pending && s'.hasWaiter == s.hasWaiter
    && if Waiting(s.pc[t]) then
         Waiting(s'.pc[t]) || (s'.pc[t] == SectionLocked(ExclUnlock) && s.pending == 1 && s.lock == Some(t))
       else
         InExclusive(s.pc[t]) && InExclusive(s'.pc[t])
  }

  lemma {:induction false} StepIsPlain(s: State, t: Cpu, s': State)
    requires t < |s.pc| && LocalInv(s, t) && (t in s.inExclusive <==> s.pc[t] == Section(Exclusive))
    requires ExclStep(s, t, s') && s.pending > 0
    requires Waiting(s.pc[t]) || (InExclusive(s.pc[t]) && s.pc[t] != SectionLocked(LeaveClear))
    ensures PlainMove(s, t, s')
  {
  }

  lemma {:induction false} PlainMoveKeepsCount(s: State, t: Cpu, s': State)
    requires t < |s.pc| && CountInv(s, t) && PlainMove(s, t, s') && InFlight(s') == InFlight(s)
    ensures CountInv(s', t)
  {
    assert Scanned(s, |s.pc|);
    assert Scanned(s', |s'.pc|);
  }

  lemma {:induction false} PlainMoveKeepsInv(s: State, t: Cpu, s': State)
    requires InvFor(s, Some(t)) && t < |s.pc| && PlainMove(s, t, s')
    ensures InvFor(s', Some(t))
  {
    SectionMoveKeepsLock(s, t, s');
    SectionMoveKeepsFlags(s, t, s');
    PlainMoveKeepsCount(s, t, s');
    SectionMoveKeepsInv(s, t, s');
  }

  lemma {:induction false} ClearKeepsInv(s: State, t: Cpu, s': State)
    requires InvFor(s, Some(t)) && t < |s.pc| && s.pc[t] == SectionLocked(LeaveClear)
    requires s' == s.At(t, LeaveLocked(LeaveBroadcast)).(pending := 0)
    ensures InvFor(s', None)
  {
    assert s.lock == Some(t) && s'.lock == Some(t);
    assert s'.pc == s.pc[t := LeaveLocked(LeaveBroadcast)];
    assert LockInv(s');
    assert FlagInv(s');
  }

  lemma {:induction false} BroadcastEffect(s: State, t: Cpu, s': State)
    requires t < |s.pc| && s' == BroadcastNext(s, t) && s.pc[t] == LeaveLocked(LeaveBroadcast)
    ensures s' == s.(pc := s'.pc) && |s'.pc| == |s.pc| && s'.pc[t] == LeaveLocked(LeaveUnlock)
    ensures forall u :: 0 <= u < |s.pc| && u != t ==> s'.pc[u] == Woken(s.pc[u])
    ensures forall u :: 0 <= u < |s.pc| && u != t && (InSection(s.pc[u]) || InSection(s'.pc[u])) ==> s'.pc[u] == s.pc[u]
  {
  }

  lemma {:induction false} BroadcastKeepsState(s: State, t: Cpu, s': State, x: Option<Cpu>)
    requires LockInv(s) && FlagInv(s) && SectionInv(s, x) && t < |s.pc| && s' == BroadcastNext(s, t)
             && s.pc[t] == LeaveLocked(LeaveBroadcast)
    ensures LockInv(s') && FlagInv(s') && SectionInv(s', x) && s.lock == Some(t)
  {
    BroadcastEffect(s, t, s');
    assert HoldsLock(s.pc[t]);
  }

  lemma {:induction false} BroadcastWakesAll(s: State, t: Cpu, s': State)
    requires LockInv(s) && WakeInv(s) && t < |s.pc| && s' == BroadcastNext(s, t)
             && s.pc[t] == LeaveLocked(LeaveBroadcast)
    ensures WakeInv(s') && HolderInv(s') && !HolderAt(s', EndLocked(EndDecrement))
            && !HolderAt(s, EndLocked(EndDecrement))
  {
    BroadcastEffect(s, t, s');
    assert HoldsLock(s.pc[t]);
    assert forall u :: 0 <= u < |s.pc| ==> s'.pc[u] != Start(StartIdleSleep) && s'.pc[u] != Excl(ExclIdleSleep);
  }

  lemma {:induction false} BroadcastKeepsInv(s: State, t: Cpu, s': State, x: Option<Cpu>)
    requires InvFor(s, x) && t < |s.pc| && s' == BroadcastNext(s, t) && s.pc[t] == LeaveLocked(LeaveBroadcast)
    ensures InvFor(s', x)
  {
    BroadcastKeepsState(s, t, s', x);
    BroadcastWakesAll(s, t, s');
    BroadcastEffect(s, t, s');
    assert InFlight(s') == InFlight(s);
    assert x.Some? ==> s'.pc[x.value] == s.pc[x.value] && CountInv(s', x.value);
  }

  /** A thread in the section is the one the invariant speaks of, and has counted itself. */
  lemma {:induction false} SectionOwner(s: State, t: Cpu, x: Option<Cpu>)
    requires InvFor(s, x) && t < |s.pc| && InSection(s.pc[t])
    ensures x == Some(t) && LocalInv(s, t) && (t in s.inExclusive <==> s.pc[t] == Section(Exclusive)) && s.pending > 0
  {
    InvIsLocal(s, t, x);
  }

  /** Steps of the thread that is in the section. */
  lemma {:induction false} SectionStepKeepsInv(s: State, t: Cpu, s': State)
    requires InvFor(s, Some(t)) && t < |s.pc| && InSection(s.pc[t]) && ExclStep(s, t, s')
    ensures Inv(s')
  {
    hide InvFor;
    SectionOwner(s, t, Some(t));
    if s.pc[t].SectionLocked? && s.pc[t].xl.ExclScan? {
      ScanKeepsInv(s, t, s');
    } else if s.pc[t].SectionLocked? && s.pc[t].xl.ExclPublish? {
      PublishKeepsInv(s, t, s');
    } else if s.pc[t] == SectionLocked(LeaveClear) {
      ClearKeepsInv(s, t, s');
    } else {
      StepIsPlain(s, t, s');
      PlainMoveKeepsInv(s, t, s');
    }
  }

  /** Steps of the other threads in start_exclusive and end_exclusive. */
  lemma {:induction false} OutsideStepKeepsInv(s: State, t: Cpu, s': State, x: Option<Cpu>)
    requires InvFor(s, x) && t < |s.pc| && !InSection(s.pc[t]) && ExclStep(s, t, s')
    ensures Inv(s')
  {
    hide InvFor;
    if s.pc[t] == ExclLocked(ExclClaim) {
      ClaimKeepsInv(s, t, s', x);
    } else if s.pc[t] == LeaveLocked(LeaveBroadcast) {
      BroadcastKeepsInv(s, t, s', x);
    } else {
      InvIsLocal(s, t, x);
      ExclStepIsQuiet(s, t, s');
      QuietMoveKeepsInv(s, t, s'.pc[t], x);
    }
  }

  lemma {:induction false} ExclStepKeepsInv(s: State, t: Cpu, s': State, x: Option<Cpu>)
    requires InvFor(s, x) && t < |s.pc| && ExclStep(s, t, s')
    ensures Inv(s')
  {
    hide InvFor, ExclStep, Inv;
    if InSection(s.pc[t]) {
      SectionOwner(s, t, x);
      SectionStepKeepsInv(s, t, s');
    } else {
      OutsideStepKeepsInv(s, t, s', x);
    }
  }

  lemma {:induction false} InitInv(n: nat)
    ensures Inv(Init(n))
  {
    assert InvFor(Init(n), None);
  }

  /** The invariant holds in every state of every run. */
  lemma {:induction false} RunKeepsInv(n: nat, run: seq<State>, i: nat)
    requires IsRun(n, run) && i < |run|
    ensures Inv(run[i])
  {
    if i == 0 {
      InitInv(n);
    } else {
      RunKeepsInv(n, run, i - 1);
      assert SomeStep(run[i - 1], run[i - 1 + 1]);
      var t :| Step(run[i - 1], t, run[i]);
      var x :| InvFor(run[i - 1], x);
      if ExecStep(run[i - 1], t, run[i]) {
        ExecStepKeepsInv(run[i - 1], t, run[i], x);
      } else {
        ExclStepKeepsInv(run[i - 1], t, run[i], x);
      }
    }
  }
}
