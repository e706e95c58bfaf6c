/**
 The coroutines of qemu-img convert (convert_co_do_copy in femu-ocssd/qemu-img.c) as a state machine.
 A coroutine runs undisturbed between two points at which it may yield; each such stretch is a step.
 */
module ConvertCoroutines {
  import opened Optional

  type Sector = int
  type Co = nat

  /** The request of one round: sectors start to start + len. */
  datatype Claim = Claim(start: nat, len: nat)

  /** Reading the source, before the ordering loop, asleep in it, writing the target, about to wake others. */
  datatype Phase = Reading | Gate | Parked | Writing | Waking

  datatype Pc = NotStarted | Top | Locked | Exited | Busy(phase: Phase, claim: Claim)

  /** s->ret: -EINPROGRESS, an error, or 0. */
  datatype Ret = InProgress | Failed | Success

  /** The source, the target's contents beforehand, and wr_in_order. */
  datatype Config = Config(source: seq<Sector>, before: seq<Sector>, inOrder: bool)

  datatype State = State(sectorNum: nat, wrOffs: nat, ret: Ret, lock: Option<Co>, pc: seq<Pc>, target: seq<Sector>)

  function End(c: Claim): nat {
    c.start + c.len
  }

  predicate In(x: nat, c: Claim) {
    c.start <= x < End(c)
  }

  predicate ValidConfig(cfg: Config) {
    |cfg.before| == |cfg.source|
  }

  predicate Init(cfg: Config, s: State) {
    && s.sectorNum == 0 && s.wrOffs == 0 && s.ret == InProgress && s.lock == None && s.target == cfg.before
    && forall c :: 0 <= c < |s.pc| ==> s.pc[c] == NotStarted
  }

  // ---------------------------------------------------------------- steps

  /**
   What a coroutine does next; the outcomes of convert_iteration_sectors, of reading and of writing are
   left open.  A failed write leaves `junk` in the range it was writing.
   */
  datatype Action =
    | Start
    | Lock
    | Leave
    | ClaimFails
    | ClaimNext(n: nat)
    | Read(readOk: bool)
    | PassGate
    | Write(writeOk: bool, junk: seq<Sector>)
    | Wake

  predicate At(s: State, c: Co, phase: Phase) {
    c < |s.pc| && s.pc[c].Busy? && s.pc[c].phase == phase
  }

  predicate MoreToDo(cfg: Config, s: State) {
    s.ret == InProgress && s.sectorNum < |cfg.source|
  }

  predicate Enabled(cfg: Config, s: State, c: Co, a: Action) {
    c < |s.pc| && match a
    case Start => s.pc[c] == NotStarted
    case Lock => s.pc[c] == Top && s.lock == None
    case Leave => s.pc[c] == Locked && !MoreToDo(cfg, s)
    case ClaimFails => s.pc[c] == Locked && MoreToDo(cfg, s)
    case ClaimNext(n) => s.pc[c] == Locked && MoreToDo(cfg, s) && 1 <= n <= |cfg.source| - s.sectorNum
    case Read(_) => At(s, c, Reading)
    case PassGate => At(s, c, Gate)
    case Write(_, junk) => At(s, c, Writing) && |junk| == |cfg.source|
    case Wake => At(s, c, Waking)
  }

  function Move(s: State, c: Co, pc: Pc): State
    requires c < |s.pc|
  {
    s.(pc := s.pc[c := pc])
  }

  predicate Running(pc: Pc) {
    pc.Top? || pc.Locked? || pc.Busy?
  }

  /** No coroutine but c is running. */
  predicate LastOne(s: State, c: Co) {
    forall d :: 0 <= d < |s.pc| && d != c ==> !Running(s.pc[d])
  }

  /** The ordering loop: sleep unless it is this coroutine's turn, then write unless there was an error. */
  function GatePhase(cfg: Config, s: State, claim: Claim): Phase {
    if cfg.inOrder && s.wrOffs != claim.start && s.ret == InProgress then Parked
    else if s.ret == InProgress then Writing
    else Waking
  }

  /** The target after the sectors of the claim have been overwritten from `data`. */
  function Overwrite(target: seq<Sector>, claim: Claim, data: seq<Sector>): (r: seq<Sector>)
    requires End(claim) <= |target| == |data|
    ensures |r| == |target|
    ensures forall x :: 0 <= x < |r| ==> r[x] == if In(x, claim) then data[x] else target[x]
  {
    target[..claim.start] + data[claim.start..End(claim)] + target[End(claim)..]
  }

  /** The coroutine asleep until wr_offs becomes `at`, entered by the one that made it so. */
  function Woken(cfg: Config, s: State, at: nat): (pcs: seq<Pc>)
    ensures |pcs| == |s.pc|
    ensures forall d :: 0 <= d < |pcs| ==> pcs[d] == WokenPc(s.pc[d], s.ret, at)
  {
    seq(|s.pc|, d requires 0 <= d < |s.pc| => WokenPc(s.pc[d], s.ret, at))
  }

  function WokenPc(pc: Pc, ret: Ret, at: nat): Pc {
    if pc.Busy? && pc.phase == Parked && pc.claim.start == at
    then Busy(if ret == InProgress then Writing else Waking, pc.claim) else pc
  }

  /** Claims lie within the image. */
  predicate WithinImage(cfg: Config, s: State) {
    && ValidConfig(cfg) && |s.target| == |cfg.source| && s.sectorNum <= |cfg.source|
    && forall c :: 0 <= c < |s.pc| && s.pc[c].Busy? ==> 1 <= s.pc[c].claim.len && End(s.pc[c].claim) <= s.sectorNum
  }

  function Apply(cfg: Config, s: State, c: Co, a: Action): State
    requires WithinImage(cfg, s) && Enabled(cfg, s, c, a)
  {
    match a
    case Start => Move(s, c, Top)
    case Lock => Move(s, c, Locked).(lock := Some(c))
    case Leave =>
      Move(s, c, Exited).(lock := None, ret := if s.ret == InProgress && LastOne(s, c) then Success else s.ret)
    case ClaimFails => Move(s, c, Exited).(lock := None, ret := Failed)
    case ClaimNext(n) =>
      Move(s, c, Busy(Reading, Claim(s.sectorNum, n))).(lock := None, sectorNum := s.sectorNum + n)
    case Read(ok) => Move(s, c, Busy(Gate, s.pc[c].claim)).(ret := if ok then s.ret else Failed)
    case PassGate => Move(s, c, Busy(GatePhase(cfg, s, s.pc[c].claim), s.pc[c].claim))
    case Write(ok, junk) =>
      Move(s, c, Busy(Waking, s.pc[c].claim)).(
        ret := if ok then s.ret else Failed,
        target := Overwrite(s.target, s.pc[c].claim, if ok then cfg.source else junk))
    case Wake =>
      if cfg.inOrder then
        var at := End(s.pc[c].claim);
        s.(pc := Woken(cfg, Move(s, c, Top), at), wrOffs := at)
      else Move(s, c, Top)
  }

  // ---------------------------------------------------------------- the invariant

  ghost predicate Apart(s: State) {
    forall c, d :: 0 <= c < |s.pc| && 0 <= d < |s.pc| && c != d && s.pc[c].Busy? && s.pc[d].Busy? ==>
      End(s.pc[c].claim) <= s.pc[d].claim.start || End(s.pc[d].claim) <= s.pc[c].claim.start
  }

  /** Sector x is claimed by a coroutine that has not written it. */
  ghost predicate Unwritten(s: State, x: nat) {
    exists c :: 0 <= c < |s.pc| && s.pc[c].Busy? && s.pc[c].phase != Waking && In(x, s.pc[c].claim)
  }

  /** Unless there was an error, every sector claimed so far is in the target or about to be written. */
  ghost predicate NothingLost(cfg: Config, s: State)
    requires WithinImage(cfg, s)
  {
    s.ret != Failed ==> forall x :: 0 <= x < s.sectorNum ==> s.target[x] == cfg.source[x] || Unwritten(s, x)
  }

  ghost predicate Claimed(s: State, x: nat) {
    exists c :: 0 <= c < |s.pc| && s.pc[c].Busy? && In(x, s.pc[c].claim)
  }

  /** With ordered writes and no error, the open claims tile the image from wr_offs on. */
  ghost predicate Tiled(cfg: Config, s: State) {
    cfg.inOrder && s.ret == InProgress ==>
      && s.wrOffs <= s.sectorNum
      && (forall c :: 0 <= c < |s.pc| && s.pc[c].Busy? ==> s.wrOffs <= s.pc[c].claim.start)
      && (forall c ::
            0 <= c < |s.pc| && s.pc[c].Busy? && s.pc[c].phase in {Writing, Waking} ==> s.wrOffs == s.pc[c].claim.start)
      && (forall x :: s.wrOffs <= x < s.sectorNum ==> Claimed(s, x))
  }

  /** The write of sector x is complete but wr_offs has not moved yet. */
  ghost predicate JustWritten(s: State, x: nat) {
    exists c :: 0 <= c < |s.pc| && s.pc[c].Busy? && s.pc[c].phase == Waking && In(x, s.pc[c].claim)
  }

  /** With ordered writes and no error, what has been written is exactly a prefix. */
  ghost predicate PrefixOnly(cfg: Config, s: State)
    requires WithinImage(cfg, s)
  {
    cfg.inOrder && s.ret == InProgress ==>
      && (forall x :: 0 <= x < s.wrOffs && x < |s.target| ==> s.target[x] == cfg.source[x])
      && (forall x :: s.wrOffs <= x < |s.target| ==> JustWritten(s, x) || s.target[x] == cfg.before[x])
  }

  /** The claim that ends where c's begins is still open. */
  ghost predicate HasPredecessor(s: State, c: Co)
    requires c < |s.pc| && s.pc[c].Busy?
  {
    exists d :: 0 <= d < |s.pc| && s.pc[d].Busy? && End(s.pc[d].claim) == s.pc[c].claim.start
  }

  ghost predicate ParkedOk(cfg: Config, s: State) {
    forall c :: 0 <= c < |s.pc| && At(s, c, Parked) ==> cfg.inOrder && HasPredecessor(s, c)
  }

  predicate LockOk(s: State) {
    && (s.lock.Some? ==> s.lock.value < |s.pc|)
    && forall c :: 0 <= c < |s.pc| ==> (s.pc[c] == Locked <==> s.lock == Some(c))
  }

  ghost predicate Done(cfg: Config, s: State) {
    s.ret == Success ==> s.target == cfg.source && forall c :: 0 <= c < |s.pc| ==> !s.pc[c].Busy?
  }

  ghost predicate Inv(cfg: Config, s: State) {
    && WithinImage(cfg, s) && Apart(s) && NothingLost(cfg, s) && Tiled(cfg, s) && PrefixOnly(cfg, s)
    && ParkedOk(cfg, s) && LockOk(s) && Done(cfg, s)
  }

  lemma {:induction false} InitInv(cfg: Config, s: State)
    requires ValidConfig(cfg) && Init(cfg, s)
    ensures Inv(cfg, s)
  {
  }

  // ---------------------------------------------------------------- steps keep the invariant

  /** Nothing but the lock, an error, and coroutines without a claim change. */
  lemma {:induction false} UnclaimedStep(cfg: Config, s: State, s': State)
    requires Inv(cfg, s) && SameBusy(s, s') && LockOk(s') && (s'.ret == s.ret || s'.ret == Failed)
    requires s' == s.(pc := s'.pc, lock := s'.lock, ret := s'.ret)
    ensures Inv(cfg, s')
  {
    SameClaims(s, s');
    assert NothingLost(cfg, s') && Tiled(cfg, s') && PrefixOnly(cfg, s');
    ParkedSame(cfg, s, s');
  }

  /** A coroutine leaves the loop; the last one declares success if there was no error. */
  lemma {:induction false} LeaveStep(cfg: Config, s: State, c: Co)
    requires Inv(cfg, s) && Enabled(cfg, s, c, Leave)
    ensures Inv(cfg, Apply(cfg, s, c, Leave))
  {
    var s' := Apply(cfg, s, c, Leave);
    if s.ret == InProgress && LastOne(s, c) {
      assert forall d :: 0 <= d < |s'.pc| ==> !s'.pc[d].Busy?;
      assert forall x :: 0 <= x < |cfg.source| ==> !Unwritten(s, x) && s.target[x] == cfg.source[x];
      assert s'.target == cfg.source;
      assert ParkedOk(cfg, s');
    } else {
      UnclaimedStep(cfg, s, s');
    }
  }

  /** The same coroutines have the same claims, in the same phases. */
  ghost predicate SameBusy(s: State, s': State) {
    |s'.pc| == |s.pc| && forall d :: 0 <= d < |s.pc| ==> (s.pc[d].Busy? || s'.pc[d].Busy? ==> s'.pc[d] == s.pc[d])
  }

  lemma {:induction false} SameClaims(s: State, s': State)
    requires SameBusy(s, s')
    ensures forall x ::
              (Unwritten(s', x) <==> Unwritten(s, x)) && (Claimed(s', x) <==> Claimed(s, x))
              && (JustWritten(s', x) <==> JustWritten(s, x))
  {
    forall x: nat
      ensures Unwritten(s', x) <==> Unwritten(s, x)
      ensures Claimed(s', x) <==> Claimed(s, x)
      ensures JustWritten(s', x) <==> JustWritten(s, x)
    {
      ClaimsMonotone(s, s', x);
      ClaimsMonotone(s', s, x);
    }
  }

  lemma {:induction false} ClaimsMonotone(s: State, s': State, x: nat)
    requires |s'.pc| == |s.pc| && forall d :: 0 <= d < |s.pc| && s.pc[d].Busy? ==> s'.pc[d] == s.pc[d]
    ensures Unwritten(s, x) ==> Unwritten(s', x)
    ensures Claimed(s, x) ==> Claimed(s', x)
    ensures JustWritten(s, x) ==> JustWritten(s', x)
  {
    if Unwritten(s, x) {
      var c :| 0 <= c < |s.pc| && s.pc[c].Busy? && s.pc[c].phase != Waking && In(x, s.pc[c].claim);
      assert s'.pc[c].Busy?;
    }
    if Claimed(s, x) {
      var c :| 0 <= c < |s.pc| && s.pc[c].Busy? && In(x, s.pc[c].claim);
      assert s'.pc[c].Busy?;
    }
    if JustWritten(s, x) {
      var c :| 0 <= c < |s.pc| && s.pc[c].Busy? && s.pc[c].phase == Waking && In(x, s.pc[c].claim);
      assert s'.pc[c].Busy?;
    }
  }

  lemma {:induction false} ParkedSame(cfg: Config, s: State, s': State)
    requires ParkedOk(cfg, s) && SameBusy(s, s')
    ensures ParkedOk(cfg, s')
  {
    forall c | 0 <= c < |s'.pc| && At(s', c, Parked)
      ensures HasPredecessor(s', c) && cfg.inOrder
    {
      assert At(s, c, Parked) && HasPredecessor(s, c);
      var d :| 0 <= d < |s.pc| && s.pc[d].Busy? && End(s.pc[d].claim) == s.pc[c].claim.start;
      assert s'.pc[d].Busy?;
    }
  }

  // ---------------------------------------------------------------- claiming

  /** The new claim starts where the last one ended. */
  lemma {:induction false} ClaimStep(cfg: Config, s: State, c: Co, n: nat)
    requires Inv(cfg, s) && Enabled(cfg, s, c, ClaimNext(n))
    ensures Inv(cfg, Apply(cfg, s, c, ClaimNext(n)))
  {
    var s' := Apply(cfg, s, c, ClaimNext(n));
    assert s'.pc[c] == Busy(Reading, Claim(s.sectorNum, n));
    forall x | 0 <= x < s'.sectorNum
      ensures (s'.target[x] == cfg.source[x] || Unwritten(s', x))
              && (s'.wrOffs <= x && cfg.inOrder && s.ret == InProgress ==> Claimed(s', x))
    {
      ClaimsMonotone(s, s', x);
      if x >= s.sectorNum {
        assert In(x, s'.pc[c].claim);
      }
    }
    forall x: nat
      ensures JustWritten(s, x) ==> JustWritten(s', x)
    {
      ClaimsMonotone(s, s', x);
    }
    assert PrefixOnly(cfg, s');
    forall d | 0 <= d < |s'.pc| && At(s', d, Parked)
      ensures cfg.inOrder && HasPredecessor(s', d)
    {
      assert At(s, d, Parked) && HasPredecessor(s, d);
      var e :| 0 <= e < |s.pc| && s.pc[e].Busy? && End(s.pc[e].claim) == s.pc[d].claim.start;
      assert s'.pc[e].Busy?;
    }
  }

  // ---------------------------------------------------------------- reading and the ordering loop

  /** Only the phase of c changes. */
  ghost predicate Rephased(s: State, s': State, c: Co, phase: Phase) {
    c < |s.pc| && s.pc[c].Busy? && s'.pc == s.pc[c := Busy(phase, s.pc[c].claim)]
  }

  lemma {:induction false} RephasedClaims(s: State, s': State, c: Co, phase: Phase, x: nat)
    requires Rephased(s, s', c, phase)
    ensures Claimed(s', x) <==> Claimed(s, x)
    ensures phase != Waking && s.pc[c].phase != Waking ==>
              (Unwritten(s', x) <==> Unwritten(s, x)) && (JustWritten(s', x) <==> JustWritten(s, x))
  {
    if Claimed(s, x) {
      var d :| 0 <= d < |s.pc| && s.pc[d].Busy? && In(x, s.pc[d].claim);
      assert s'.pc[d].Busy?;
    }
    if Claimed(s', x) {
      var d :| 0 <= d < |s'.pc| && s'.pc[d].Busy? && In(x, s'.pc[d].claim);
      assert s.pc[d].Busy?;
    }
    if phase != Waking && s.pc[c].phase != Waking {
      if Unwritten(s, x) {
        var d :| 0 <= d < |s.pc| && s.pc[d].Busy? && s.pc[d].phase != Waking && In(x, s.pc[d].claim);
        assert s'.pc[d].Busy?;
      }
      if Unwritten(s', x) {
        var d :| 0 <= d < |s'.pc| && s'.pc[d].Busy? && s'.pc[d].phase != Waking && In(x, s'.pc[d].claim);
        assert s.pc[d].Busy?;
      }
      if JustWritten(s, x) {
        var d :| 0 <= d < |s.pc| && s.pc[d].Busy? && s.pc[d].phase == Waking && In(x, s.pc[d].claim);
        assert s'.pc[d].Busy?;
      }
      if JustWritten(s', x) {
        var d :| 0 <= d < |s'.pc| && s'.pc[d].Busy? && s'.pc[d].phase == Waking && In(x, s'.pc[d].claim);
        assert s.pc[d].Busy?;
      }
    }
  }

  lemma {:induction false} RephasedParked(cfg: Config, s: State, s': State, c: Co, phase: Phase)
    requires Rephased(s, s', c, phase) && ParkedOk(cfg, s) && (phase == Parked ==> cfg.inOrder && HasPredecessor(s, c))
    ensures ParkedOk(cfg, s')
  {
    forall d | 0 <= d < |s'.pc| && At(s', d, Parked)
      ensures cfg.inOrder && HasPredecessor(s', d)
    {
      assert d != c ==> At(s, d, Parked);
      assert cfg.inOrder && HasPredecessor(s, d);
      var e :| 0 <= e < |s.pc| && s.pc[e].Busy? && End(s.pc[e].claim) == s.pc[d].claim.start;
      assert s'.pc[e].Busy?;
    }
  }

  lemma {:induction false} RephasedShape(cfg: Config, s: State, s': State, c: Co, phase: Phase)
    requires WithinImage(cfg, s) && Apart(s) && LockOk(s) && Done(cfg, s) && Rephased(s, s', c, phase)
    requires s' == s.(pc := s'.pc, ret := s'.ret) && (s'.ret == s.ret || s'.ret == Failed)
    ensures WithinImage(cfg, s') && Apart(s') && LockOk(s') && Done(cfg, s')
  {
  }

  /** The source has been read, or reading failed. */
  lemma {:induction false} ReadStep(cfg: Config, s: State, c: Co, ok: bool)
    requires Inv(cfg, s) && Enabled(cfg, s, c, Read(ok))
    ensures Inv(cfg, Apply(cfg, s, c, Read(ok)))
  {
    var s' := Apply(cfg, s, c, Read(ok));
    RephasedShape(cfg, s, s', c, Gate);
    RephasedParked(cfg, s, s', c, Gate);
    forall x: nat
      ensures (Claimed(s', x) <==> Claimed(s, x)) && (Unwritten(s', x) <==> Unwritten(s, x))
              && (JustWritten(s', x) <==> JustWritten(s, x))
    {
      RephasedClaims(s, s', c, Gate, x);
    }
    assert NothingLost(cfg, s') && Tiled(cfg, s') && PrefixOnly(cfg, s');
  }

  /** A coroutine goes to sleep only while the claim before its own is open. */
  lemma {:induction false} ParkingHasPredecessor(cfg: Config, s: State, c: Co)
    requires WithinImage(cfg, s) && Apart(s) && Tiled(cfg, s) && At(s, c, Gate)
             && GatePhase(cfg, s, s.pc[c].claim) == Parked
    ensures HasPredecessor(s, c)
  {
    var x := s.pc[c].claim.start - 1;
    assert s.wrOffs <= x < s.sectorNum && Claimed(s, x);
    var d :| 0 <= d < |s.pc| && s.pc[d].Busy? && In(x, s.pc[d].claim);
    assert End(s.pc[d].claim) == s.pc[c].claim.start;
  }

  lemma {:induction false} GateStep(cfg: Config, s: State, c: Co)
    requires Inv(cfg, s) && Enabled(cfg, s, c, PassGate)
    ensures Inv(cfg, Apply(cfg, s, c, PassGate))
  {
    var s' := Apply(cfg, s, c, PassGate);
    var phase := GatePhase(cfg, s, s.pc[c].claim);
    RephasedShape(cfg, s, s', c, phase);
    if phase == Parked {
      ParkingHasPredecessor(cfg, s, c);
    }
    RephasedParked(cfg, s, s', c, phase);
    forall x: nat
      ensures (Claimed(s', x) <==> Claimed(s, x))
      ensures s.ret != Failed ==> (Unwritten(s', x) <==> Unwritten(s, x)) && (JustWritten(s', x) <==> JustWritten(s, x))
    {
      RephasedClaims(s, s', c, phase, x);
    }
    assert NothingLost(cfg, s') && Tiled(cfg, s') && PrefixOnly(cfg, s');
  }

  // ---------------------------------------------------------------- writing

  /** A complete write: its sectors are in the target, everything else is as before. */
  lemma {:induction false} WriteStep(cfg: Config, s: State, c: Co, ok: bool, junk: seq<Sector>)
    requires Inv(cfg, s) && Enabled(cfg, s, c, Write(ok, junk))
    ensures Inv(cfg, Apply(cfg, s, c, Write(ok, junk)))
  {
    var s' := Apply(cfg, s, c, Write(ok, junk));
    var mid := s.(pc := s'.pc, ret := s'.ret);
    RephasedShape(cfg, s, mid, c, Waking);
    RephasedParked(cfg, s, mid, c, Waking);
    ParkedSame(cfg, mid, s');
    if ok {
      WriteKeepsRest(cfg, s, c, s');
    }
  }

  lemma {:induction false} WriteKeepsRest(cfg: Config, s: State, c: Co, s': State)
    requires Inv(cfg, s) && At(s, c, Writing) && Rephased(s, s', c, Waking)
    requires s' == s.(pc := s'.pc, target := Overwrite(s.target, s.pc[c].claim, cfg.source))
    requires WithinImage(cfg, s')
    ensures NothingLost(cfg, s') && Tiled(cfg, s') && PrefixOnly(cfg, s')
  {
    forall x: nat
      ensures Claimed(s', x) <==> Claimed(s, x)
      ensures Unwritten(s, x) && !In(x, s.pc[c].claim) ==> Unwritten(s', x)
      ensures JustWritten(s, x) || In(x, s.pc[c].claim) ==> JustWritten(s', x)
    {
      RephasedClaims(s, s', c, Waking, x);
      WrittenClaims(s, s', c, x);
    }
  }

  lemma {:induction false} WrittenClaims(s: State, s': State, c: Co, x: nat)
    requires At(s, c, Writing) && Rephased(s, s', c, Waking)
    ensures Unwritten(s, x) && !In(x, s.pc[c].claim) ==> Unwritten(s', x)
    ensures JustWritten(s, x) || In(x, s.pc[c].claim) ==> JustWritten(s', x)
  {
    if Unwritten(s, x) && !In(x, s.pc[c].claim) {
      var d :| 0 <= d < |s.pc| && s.pc[d].Busy? && s.pc[d].phase != Waking && In(x, s.pc[d].claim);
      assert s'.pc[d].Busy?;
    }
    if JustWritten(s, x) {
      var d :| 0 <= d < |s.pc| && s.pc[d].Busy? && s.pc[d].phase == Waking && In(x, s.pc[d].claim);
      assert s'.pc[d].Busy?;
    }
    if In(x, s.pc[c].claim) {
      assert s'.pc[c].Busy?;
    }
  }

  // ---------------------------------------------------------------- waking

  /** In s' coroutine c has given up its claim, and the sleeper behind it, if any, is awake. */
  ghost predicate HandedOver(cfg: Config, s: State, s': State, c: Co) {
    && c < |s.pc| && |s'.pc| == |s.pc| && s.pc[c].Busy? && s'.pc[c] == Top
    && forall d :: 0 <= d < |s.pc| && d != c ==>
         s'.pc[d] == if cfg.inOrder then WokenPc(s.pc[d], s.ret, End(s.pc[c].claim)) else s.pc[d]
  }

  lemma {:induction false} WakeShape(cfg: Config, s: State, s': State, c: Co)
    requires Inv(cfg, s) && At(s, c, Waking) && HandedOver(cfg, s, s', c) && s' == s.(pc := s'.pc, wrOffs := s'.wrOffs)
    ensures WithinImage(cfg, s') && Apart(s') && LockOk(s') && Done(cfg, s') && ParkedOk(cfg, s')
  {
    forall d | 0 <= d < |s'.pc| && At(s', d, Parked)
      ensures cfg.inOrder && HasPredecessor(s', d)
    {
      assert At(s, d, Parked) && HasPredecessor(s, d);
      var e :| 0 <= e < |s.pc| && s.pc[e].Busy? && End(s.pc[e].claim) == s.pc[d].claim.start;
      assert e != c && s'.pc[e].Busy?;
    }
  }

  /** Claims other than c's stay open. */
  lemma {:induction false} WakeClaims(cfg: Config, s: State, s': State, c: Co, x: nat)
    requires Inv(cfg, s) && At(s, c, Waking) && HandedOver(cfg, s, s', c) && s.ret != Failed
    ensures Unwritten(s, x) ==> Unwritten(s', x)
    ensures Claimed(s, x) && !In(x, s.pc[c].claim) ==> Claimed(s', x)
    ensures JustWritten(s, x) && !In(x, s.pc[c].claim) ==> JustWritten(s', x)
  {
    if Unwritten(s, x) {
      var d :| 0 <= d < |s.pc| && s.pc[d].Busy? && s.pc[d].phase != Waking && In(x, s.pc[d].claim);
      assert s'.pc[d].Busy?;
    }
    if Claimed(s, x) && !In(x, s.pc[c].claim) {
      var d :| 0 <= d < |s.pc| && s.pc[d].Busy? && In(x, s.pc[d].claim);
      assert s'.pc[d].Busy?;
    }
    if JustWritten(s, x) && !In(x, s.pc[c].claim) {
      var d :| 0 <= d < |s.pc| && s.pc[d].Busy? && s.pc[d].phase == Waking && In(x, s.pc[d].claim);
      assert s'.pc[d].Busy?;
    }
  }

  /** The sectors of a claim whose write is complete are those of the source. */
  lemma {:induction false} WakingWritten(cfg: Config, s: State, c: Co, x: nat)
    requires WithinImage(cfg, s) && Apart(s) && NothingLost(cfg, s) && s.ret != Failed && At(s, c, Waking)
             && In(x, s.pc[c].claim)
    ensures s.target[x] == cfg.source[x]
  {
  }

  lemma {:induction false} WakeOrdered(cfg: Config, s: State, s': State, c: Co)
    requires Inv(cfg, s) && At(s, c, Waking) && HandedOver(cfg, s, s', c) && cfg.inOrder && s.ret == InProgress
    requires s' == s.(pc := s'.pc, wrOffs := End(s.pc[c].claim)) && WithinImage(cfg, s')
    ensures Tiled(cfg, s') && PrefixOnly(cfg, s')
  {
    assert s.pc[c].claim.start == s.wrOffs;
    forall d | 0 <= d < |s.pc| && d != c && s.pc[d].Busy?
      ensures End(s.pc[c].claim) <= s.pc[d].claim.start && s.pc[d].phase !in {Writing, Waking}
    {
    }
    forall x | s'.wrOffs <= x < s'.sectorNum
      ensures Claimed(s', x)
    {
      WakeClaims(cfg, s, s', c, x);
    }
    forall x | 0 <= x < s'.wrOffs && x < |s.target|
      ensures s'.target[x] == cfg.source[x]
    {
      if s.wrOffs <= x {
        WakingWritten(cfg, s, c, x);
      }
    }
    forall x | s'.wrOffs <= x < |s.target|
      ensures s'.target[x] == cfg.before[x]
    {
      assert !JustWritten(s, x);
    }
  }

  lemma {:induction false} WakeStep(cfg: Config, s: State, c: Co)
    requires Inv(cfg, s) && Enabled(cfg, s, c, Wake)
    ensures Inv(cfg, Apply(cfg, s, c, Wake))
  {
    var s' := Apply(cfg, s, c, Wake);
    assert HandedOver(cfg, s, s', c);
    WakeShape(cfg, s, s', c);
    if s.ret != Failed {
      forall x | 0 <= x < s'.sectorNum
        ensures s'.target[x] == cfg.source[x] || Unwritten(s', x)
      {
        WakeClaims(cfg, s, s', c, x);
      }
    }
    if cfg.inOrder && s.ret == InProgress {
      WakeOrdered(cfg, s, s', c);
    }
  }

  // ---------------------------------------------------------------- runs

  lemma {:induction false} StepKeepsInv(cfg: Config, s: State, c: Co, a: Action)
    requires Inv(cfg, s) && Enabled(cfg, s, c, a)
    ensures Inv(cfg, Apply(cfg, s, c, a))
  {
    match a
    case Start => UnclaimedStep(cfg, s, Apply(cfg, s, c, a));
    case Lock => UnclaimedStep(cfg, s, Apply(cfg, s, c, a));
    case Leave => LeaveStep(cfg, s, c);
    case ClaimFails => UnclaimedStep(cfg, s, Apply(cfg, s, c, a));
    case ClaimNext(n) => ClaimStep(cfg, s, c, n);
    case Read(ok) => ReadStep(cfg, s, c, ok);
    case PassGate => GateStep(cfg, s, c);
    case Write(ok, junk) => WriteStep(cfg, s, c, ok, junk);
    case Wake => WakeStep(cfg, s, c);
  }

  ghost predicate Follows(cfg: Config, s: State, c: Co, a: Action, s': State) {
    WithinImage(cfg, s) && Enabled(cfg, s, c, a) && s' == Apply(cfg, s, c, a)
  }

  ghost predicate Next(cfg: Config, s: State, s': State) {
    exists c, a :: Follows(cfg, s, c, a, s')
  }

  ghost predicate IsRun(cfg: Config, run: seq<State>) {
    |run| > 0 && Init(cfg, run[0]) && forall i :: 0 <= i < |run| - 1 ==> Next(cfg, run[i], run[i + 1])
  }

  lemma {:induction false} RunKeepsInv(cfg: Config, run: seq<State>, i: nat)
    requires ValidConfig(cfg) && IsRun(cfg, run) && i < |run|
    ensures Inv(cfg, run[i])
  {
    if i == 0 {
      InitInv(cfg, run[0]);
    } else {
      RunKeepsInv(cfg, run, i - 1);
      assert Next(cfg, run[i - 1], run[i - 1 + 1]);
      var c, a :| Follows(cfg, run[i - 1], c, a, run[i]);
      StepKeepsInv(cfg, run[i - 1], c, a);
    }
  }

  /** A conversion that reports success has copied every sector. */
  lemma {:induction false} SuccessMeansEqual(cfg: Config, run: seq<State>, i: nat)
    requires ValidConfig(cfg) && IsRun(cfg, run) && i < |run| && run[i].ret == Success
    ensures run[i].target == cfg.source
  {
    RunKeepsInv(cfg, run, i);
  }

  lemma {:induction false} ClaimsGrow(cfg: Config, run: seq<State>, i: nat, k: nat)
    requires ValidConfig(cfg) && IsRun(cfg, run) && i <= k < |run|
    ensures run[i].sectorNum <= run[k].sectorNum
    decreases k
  {
    if i < k {
      ClaimsGrow(cfg, run, i, k - 1);
      assert Next(cfg, run[k - 1], run[k - 1 + 1]);
    }
  }

  /** Every sector handed out so far was handed out in exactly one step: claims follow each other from sector 0 on. */
  lemma {:induction false} ClaimedOnce(cfg: Config, run: seq<State>, i: nat, x: nat) returns (j: nat)
    requires ValidConfig(cfg) && IsRun(cfg, run) && i < |run| && x < run[i].sectorNum
    ensures j < i && run[j].sectorNum <= x < run[j + 1].sectorNum
    ensures forall k :: 0 <= k < i && k != j ==> !(run[k].sectorNum <= x < run[k + 1].sectorNum)
  {
    if i > 0 && run[i - 1].sectorNum <= x {
      j := i - 1;
    } else {
      j := ClaimedOnce(cfg, run, i - 1, x);
    }
    forall k | 0 <= k < i && k != j
      ensures !(run[k].sectorNum <= x < run[k + 1].sectorNum)
    {
      if k < j {
        ClaimsGrow(cfg, run, k + 1, j);
      } else {
        ClaimsGrow(cfg, run, j + 1, k);
      }
    }
  }

  /** No two coroutines ever work on the same sector. */
  lemma {:induction false} ClaimsDisjoint(cfg: Config, run: seq<State>, i: nat, c: Co, d: Co, x: nat)
    requires ValidConfig(cfg) && IsRun(cfg, run) && i < |run|
    requires c < |run[i].pc| && d < |run[i].pc| && run[i].pc[c].Busy? && run[i].pc[d].Busy?
    requires In(x, run[i].pc[c].claim) && In(x, run[i].pc[d].claim)
    ensures c == d
  {
    RunKeepsInv(cfg, run, i);
  }

  /**
   With ordered writes and no error, the target is the source up to wr_offs and untouched after what is being written
   there.
   */
  lemma {:induction false} WritesArePrefix(cfg: Config, run: seq<State>, i: nat, x: nat)
    requires ValidConfig(cfg) && IsRun(cfg, run) && i < |run| && cfg.inOrder && run[i].ret == InProgress
             && x < |cfg.source|
    ensures |run[i].target| == |cfg.source|
    ensures x < run[i].wrOffs ==> run[i].target[x] == cfg.source[x]
    ensures x >= run[i].wrOffs ==>
              || run[i].target[x] == cfg.before[x]
              || exists c ::
                   0 <= c < |run[i].pc| && At(run[i], c, Waking) && run[i].pc[c].claim.start == run[i].wrOffs
                   && In(x, run[i].pc[c].claim)
  {
    RunKeepsInv(cfg, run, i);
    if x >= run[i].wrOffs && run[i].target[x] != cfg.before[x] {
      assert JustWritten(run[i], x);
      var c :| 0 <= c < |run[i].pc| && run[i].pc[c].Busy? && run[i].pc[c].phase == Waking && In(x, run[i].pc[c].claim);
      assert At(run[i], c, Waking);
    }
  }

  /** A sleeping coroutine's predecessor is still at work, in every run, with or without errors. */
  lemma {:induction false} SleeperHasPredecessor(cfg: Config, run: seq<State>, i: nat, c: Co)
    requires ValidConfig(cfg) && IsRun(cfg, run) && i < |run| && c < |run[i].pc| && At(run[i], c, Parked)
    ensures HasPredecessor(run[i], c)
  {
    RunKeepsInv(cfg, run, i);
  }

  /** When the predecessor is done, it wakes the sleeper. */
  lemma {:induction false} PredecessorWakes(cfg: Config, s: State, c: Co, d: Co)
    requires Inv(cfg, s) && c < |s.pc| && At(s, c, Parked) && Enabled(cfg, s, d, Wake)
             && End(s.pc[d].claim) == s.pc[c].claim.start
    ensures !At(Apply(cfg, s, d, Wake), c, Parked) && Apply(cfg, s, d, Wake).pc[c].Busy?
  {
    assert cfg.inOrder && c != d;
  }

  // ---------------------------------------------------------------- no run gets stuck

  /** Not all coroutines with claims can be asleep. */
  lemma {:induction false} SomeoneAwake(cfg: Config, s: State, c: Co)
    requires Inv(cfg, s) && c < |s.pc| && At(s, c, Parked)
    ensures exists d :: 0 <= d < |s.pc| && s.pc[d].Busy? && !At(s, d, Parked)
    decreases s.pc[c].claim.start
  {
    assert HasPredecessor(s, c);
    var d :| 0 <= d < |s.pc| && s.pc[d].Busy? && End(s.pc[d].claim) == s.pc[c].claim.start;
    if At(s, d, Parked) {
      SomeoneAwake(cfg, s, d);
    }
  }

  ghost predicate CanMove(cfg: Config, s: State) {
    exists c, a :: Enabled(cfg, s, c, a)
  }

  lemma {:induction false} AwakeCanMove(cfg: Config, s: State, c: Co)
    requires Inv(cfg, s) && c < |s.pc| && (s.pc[c].Busy? ==> !At(s, c, Parked)) && (s.pc[c] == Top ==> s.lock == None)
             && s.pc[c] != Exited
    ensures CanMove(cfg, s)
  {
    match s.pc[c]
    case NotStarted => assert Enabled(cfg, s, c, Start);
    case Top => assert Enabled(cfg, s, c, Lock);
    case Locked =>
      assert Enabled(cfg, s, c, if MoreToDo(cfg, s) then ClaimFails else Leave);
    case Busy(phase, _) =>
      match phase {
        case Reading => assert Enabled(cfg, s, c, Read(true));
        case Gate => assert Enabled(cfg, s, c, PassGate);
        case Writing => assert Enabled(cfg, s, c, Write(true, cfg.source));
        case Waking => assert Enabled(cfg, s, c, Wake);
      }
  }

  /** As long as one coroutine has not exited, some coroutine can take a step. */
  lemma {:induction false} NoDeadlock(cfg: Config, s: State, c: Co)
    requires Inv(cfg, s) && c < |s.pc| && s.pc[c] != Exited
    ensures CanMove(cfg, s)
  {
    if At(s, c, Parked) {
      SomeoneAwake(cfg, s, c);
      var d :| 0 <= d < |s.pc| && s.pc[d].Busy? && !At(s, d, Parked);
      AwakeCanMove(cfg, s, d);
    } else if s.pc[c] == Top && s.lock.Some? {
      AwakeCanMove(cfg, s, s.lock.value);
    } else {
      AwakeCanMove(cfg, s, c);
    }
  }

  // ---------------------------------------------------------------- every run ends

  function Rank(pc: Pc): nat {
    match pc
    case NotStarted => 3
    case Top => 2
    case Locked => 1
    case Exited => 0
    case Busy(phase, _) => PhaseRank(phase)
  }

  function PhaseRank(phase: Phase): nat {
    match phase
    case Reading => 7
    case Gate => 6
    case Parked => 5
    case Writing => 4
    case Waking => 3
  }

  function Ranks(pcs: seq<Pc>): nat {
    if pcs == [] then 0 else Rank(pcs[0]) + Ranks(pcs[1..])
  }

  /** Steps left at most. */
  function Work(cfg: Config, s: State): int {
    8 * (|cfg.source| - s.sectorNum) + Ranks(s.pc)
  }

  lemma {:induction false} RanksFall(p: seq<Pc>, q: seq<Pc>, c: nat, k: int)
    requires |p| == |q| && c < |p| && Rank(q[c]) + k <= Rank(p[c])
    requires forall d :: 0 <= d < |p| && d != c ==> Rank(q[d]) <= Rank(p[d])
    ensures Ranks(q) + k <= Ranks(p)
  {
    if c == 0 {
      RanksAtMost(p[1..], q[1..]);
    } else {
      RanksFall(p[1..], q[1..], c - 1, k);
    }
  }

  lemma {:induction false} RanksAtMost(p: seq<Pc>, q: seq<Pc>)
    requires |p| == |q| && forall d :: 0 <= d < |p| ==> Rank(q[d]) <= Rank(p[d])
    ensures Ranks(q) <= Ranks(p)
  {
    if p != [] {
      RanksAtMost(p[1..], q[1..]);
    }
  }

  lemma {:induction false} StepWorks(cfg: Config, s: State, c: Co, a: Action)
    requires WithinImage(cfg, s) && Enabled(cfg, s, c, a)
    ensures Work(cfg, Apply(cfg, s, c, a)) < Work(cfg, s)
  {
    var s' := Apply(cfg, s, c, a);
    if a.ClaimNext? {
      RanksFall(s.pc, s'.pc, c, -6);
    } else {
      RanksFall(s.pc, s'.pc, c, 1);
    }
  }

  lemma {:induction false} RankSum(pcs: seq<Pc>)
    requires forall c :: 0 <= c < |pcs| ==> pcs[c] == NotStarted
    ensures Ranks(pcs) == 3 * |pcs|
  {
    if pcs != [] {
      RankSum(pcs[1..]);
    }
  }

  /** After i steps at most 8 * sectors + 3 * coroutines - i are left, so every run ends. */
  lemma {:induction false} RunsAreBounded(cfg: Config, run: seq<State>, i: nat)
    requires ValidConfig(cfg) && IsRun(cfg, run) && i < |run|
    ensures i + Work(cfg, run[i]) <= 8 * |cfg.source| + 3 * |run[0].pc|
    ensures 0 <= Work(cfg, run[i])
  {
    RunKeepsInv(cfg, run, i);
    if i == 0 {
      RankSum(run[0].pc);
    } else {
      RunsAreBounded(cfg, run, i - 1);
      assert Next(cfg, run[i - 1], run[i - 1 + 1]);
      var c, a :| Follows(cfg, run[i - 1], c, a, run[i]);
      StepWorks(cfg, run[i - 1], c, a);
    }
  }
}
