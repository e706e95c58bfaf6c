/**
 How qemu-img convert writes one request (femu-ocssd/qemu-img.c): the detection of zero runs with
 alignment, the write itself, and the size of a request.  A sector is a number, 0 being all zeroes.
 */
module ConvertWrite {
  import opened Rounding

  type Sector = int

  const BDRV_SECTOR_SIZE: nat := 512

  /** INT_MAX rounded down to the sector size, in sectors. */
  const BDRV_REQUEST_MAX_SECTORS: nat := 4194303

  ghost predicate AllZero(s: seq<Sector>) {
    forall i :: 0 <= i < |s| ==> s[i] == 0
  }

  // ---------------------------------------------------------------- is_allocated_sectors

  /** The length of the run of sectors that are zero, or not zero, like the first one. */
  ghost function RunLength(buf: seq<Sector>): (n: nat)
    requires |buf| > 0
    ensures 1 <= n <= |buf| && (forall i :: 0 <= i < n ==> (buf[i] == 0 <==> buf[0] == 0))
    ensures n < |buf| ==> (buf[n] == 0 <==> buf[0] != 0)
  {
    if |buf| == 1 || (buf[1] == 0 <==> buf[0] != 0) then 1 else 1 + RunLength(buf[1..])
  }

  lemma {:induction false} RunLengthUnique(buf: seq<Sector>, n: nat)
    requires 1 <= n <= |buf| && (forall i :: 0 <= i < n ==> (buf[i] == 0 <==> buf[0] == 0))
    requires n < |buf| ==> (buf[n] == 0 <==> buf[0] != 0)
    ensures n == RunLength(buf)
  {
    var m := RunLength(buf);
  }

  /** The buffer starts with zeroes that reach beyond the last alignment boundary. */
  ghost predicate StartsHole(buf: seq<Sector>, sectorNum: nat, alignment: nat)
    requires alignment > 0
  {
    buf != [] && buf[0] == 0 && RunLength(buf) > (sectorNum + RunLength(buf)) % alignment
  }

  /** What is left of a run of zeroes after the hole is no hole. */
  lemma {:induction false} AfterHole(buf: seq<Sector>, sectorNum: nat, alignment: nat, n: nat)
    requires alignment > 0 && StartsHole(buf, sectorNum, alignment)
    requires n == RunLength(buf) - (sectorNum + RunLength(buf)) % alignment && n < |buf|
    ensures !StartsHole(buf[n..], sectorNum + n, alignment)
  {
    var run := RunLength(buf);
    var tail := (sectorNum + run) % alignment;
    if tail > 0 {
      RestOfRun(buf, n);
      AlignDown(sectorNum + run, alignment);
      TailOf(sectorNum + n, alignment, tail);
    }
  }

  lemma {:induction false} RestOfRun(buf: seq<Sector>, n: nat)
    requires buf != [] && n < RunLength(buf)
    ensures RunLength(buf[n..]) == RunLength(buf) - n
  {
    var rest, run := buf[n..], RunLength(buf);
    assert forall i :: 0 <= i < |rest| ==> rest[i] == buf[n + i];
    assert run < |buf| ==> rest[run - n] == buf[run];
    RunLengthUnique(rest, run - n);
  }

  lemma {:induction false} TailOf(x: nat, alignment: nat, tail: nat)
    requires alignment > 0 && x % alignment == 0 && tail < alignment
    ensures (x + tail) % alignment == tail
  {
    DivUnique(x + tail, alignment, x / alignment, tail);
  }

  predicate OnBoundary(x: int, alignment: nat)
    requires alignment > 0
  {
    x % alignment == 0
  }

  ghost predicate ZeroRange(buf: seq<Sector>, a: int, b: int) {
    0 <= a <= b <= |buf| && forall i :: a <= i < b ==> buf[i] == 0
  }

  /** Every run of zeroes between lo and hi is shorter than the alignment. */
  ghost predicate NoZeroWindow(buf: seq<Sector>, lo: nat, hi: nat, alignment: nat) {
    forall a, b :: ZeroRange(buf, a, b) && lo <= a && b <= hi ==> b - a < alignment
  }

  /** A used run is padded to the next boundary, or is a short run of zeroes: no window of zeroes fits. */
  lemma {:induction false} UsedWindow(buf: seq<Sector>, i: nat, tail: nat, pnum: nat, alignment: nat)
    requires 1 <= i <= |buf| && i == RunLength(buf) && tail < alignment && (buf[0] == 0 ==> i <= tail)
    requires pnum <= |buf| && pnum <= if tail == 0 then i else i + alignment - tail
    ensures NoZeroWindow(buf, 0, pnum, alignment)
  {
    forall a, b | ZeroRange(buf, a, b) && 0 <= a && b <= pnum
      ensures b - a < alignment
    {
      assert a < b ==> buf[a] == 0;
    }
  }

  lemma {:induction false} SliceWindow(buf: seq<Sector>, from: nat, n: nat, alignment: nat)
    requires from + n <= |buf| && NoZeroWindow(buf[from..], 0, n, alignment)
    ensures NoZeroWindow(buf, from, from + n, alignment)
  {
    forall a, b | ZeroRange(buf, a, b) && from <= a && b <= from + n
      ensures b - a < alignment
    {
      assert ZeroRange(buf[from..], a - from, b - from);
    }
  }

  /**
   is_allocated_sectors.  A run reported as a hole is all zeroes, and a hole is found exactly when the
   buffer starts with zeroes that reach beyond the last alignment boundary.  The end is aligned
   unless the run was taken to the end of the buffer, and there is always progress.
   */
  method IsAllocatedSectors(buf: seq<Sector>, sectorNum: nat, alignment: nat) returns (used: bool, pnum: nat)
    requires alignment > 0
    ensures buf == [] ==> !used && pnum == 0
    ensures buf != [] ==> 1 <= pnum <= |buf|
    ensures !used ==> AllZero(buf[..pnum])
    ensures buf != [] ==> (!used <==> StartsHole(buf, sectorNum, alignment))
    ensures buf != [] ==> OnBoundary(sectorNum + pnum, alignment) || (used && pnum == |buf|)
    ensures used && buf[0] != 0 ==> RunLength(buf) <= pnum < RunLength(buf) + alignment
    ensures used ==> NoZeroWindow(buf, 0, pnum, alignment)
    ensures !used && pnum < |buf| ==> !StartsHole(buf[pnum..], sectorNum + pnum, alignment)
  {
    if buf == [] {
      return false, 0;
    }
    var n := |buf|;
    var isZero := buf[0] == 0;
    var i := 1;
    while i < n && (buf[i] == 0 <==> isZero)
      invariant 1 <= i <= n && forall k :: 0 <= k < i ==> (buf[k] == 0 <==> isZero)
    {
      i := i + 1;
    }
    RunLengthUnique(buf, i);
    var tail := (sectorNum + i) % alignment;
    ghost var run := i;
    if tail != 0 {
      if isZero && i <= tail {
        isZero := false;
      }
      if !isZero {
        AlignUp(sectorNum + i, alignment);
        i := Min(i + alignment - tail, n);
      } else {
        AlignDown(sectorNum + i, alignment);
        i := i - tail;
      }
    }
    if !isZero {
      UsedWindow(buf, run, tail, i, alignment);
    } else if i < n {
      AfterHole(buf, sectorNum, alignment, i);
    }
    return !isZero, i;
  }

  /** A run of zeroes between two alignment boundaries. */
  ghost predicate AlignedHole(buf: seq<Sector>, sectorNum: nat, alignment: nat, a: int, b: int)
    requires alignment > 0
  {
    ZeroRange(buf, a, b) && a < b && OnBoundary(sectorNum + a, alignment) && OnBoundary(sectorNum + b, alignment)
  }

  ghost predicate HolesBelow(buf: seq<Sector>, sectorNum: nat, alignment: nat, end: nat, least: nat)
    requires alignment > 0
  {
    forall a, b :: AlignedHole(buf, sectorNum, alignment, a, b) && b <= end ==> b - a < least
  }

  lemma {:induction false} AlignedGap(x: nat, y: nat, alignment: nat)
    requires alignment > 0 && x % alignment == 0 && y % alignment == 0 && x < y
    ensures x + alignment <= y
  {
    if y < x + alignment {
      TailOf(x, alignment, y - x);
    }
  }

  /** A used part from `from` to `end` that starts aligned, or at the beginning, contains no part of an aligned hole. */
  lemma {:induction false} HoleNotInUsed(buf: seq<Sector>, sectorNum: nat, alignment: nat, from: nat, end: nat, a: int,
                                         b: int)
    requires alignment > 0 && NoZeroWindow(buf, from, end, alignment)
    requires from == 0 || OnBoundary(sectorNum + from, alignment)
    requires AlignedHole(buf, sectorNum, alignment, a, b) && b <= end
    ensures b <= from
  {
    if b > from {
      var c := if a >= from then a else from;
      AlignedGap(sectorNum + c, sectorNum + b, alignment);
      assert ZeroRange(buf, c, b);
    }
  }

  /** A hole between `used` and `checked`, shorter than `least`, and then a used part: still no long hole. */
  lemma {:induction false} HolesStayShort(buf: seq<Sector>, sectorNum: nat, alignment: nat, start: nat, used: nat,
                                          checked: nat, end: nat, least: nat)
    requires alignment > 0 && start < used <= checked <= end <= |buf|
    requires NoZeroWindow(buf, start, used, alignment) && NoZeroWindow(buf, checked, end, alignment)
    requires start == 0 || OnBoundary(sectorNum + start, alignment)
    requires OnBoundary(sectorNum + used, alignment) && OnBoundary(sectorNum + checked, alignment)
    requires HolesBelow(buf, sectorNum, alignment, used, least) && (used < checked ==> checked - used < least)
    ensures HolesBelow(buf, sectorNum, alignment, end, least)
  {
    forall a, b | AlignedHole(buf, sectorNum, alignment, a, b) && b <= end
      ensures b - a < least
    {
      HoleNotInUsed(buf, sectorNum, alignment, checked, end, a, b);
      assert b > used ==> a >= used by {
        if b > used && a < used {
          assert AlignedHole(buf, sectorNum, alignment, a, used);
          HoleNotInUsed(buf, sectorNum, alignment, start, used, a, used);
        }
      }
    }
  }

  lemma {:induction false} FirstUsed(buf: seq<Sector>, sectorNum: nat, alignment: nat, end: nat, least: nat)
    requires alignment > 0 && NoZeroWindow(buf, 0, end, alignment)
    ensures HolesBelow(buf, sectorNum, alignment, end, least)
  {
    forall a, b | b <= end
      ensures !AlignedHole(buf, sectorNum, alignment, a, b)
    {
      if AlignedHole(buf, sectorNum, alignment, a, b) {
        HoleNotInUsed(buf, sectorNum, alignment, 0, end, a, b);
      }
    }
  }

  /** The next hole, found in the rest of the buffer. */
  lemma {:induction false} HoleFound(buf: seq<Sector>, sectorNum: nat, alignment: nat, from: nat, n: nat)
    requires alignment > 0 && 0 < n && from + n <= |buf| && OnBoundary(sectorNum + from, alignment)
             && OnBoundary(sectorNum + from + n, alignment)
    requires AllZero(buf[from..][..n])
    requires n < |buf[from..]| ==> !StartsHole(buf[from..][n..], sectorNum + from + n, alignment)
    ensures AlignedHole(buf, sectorNum, alignment, from, from + n)
    ensures from + n < |buf| ==> !StartsHole(buf[from + n..], sectorNum + from + n, alignment)
  {
    assert forall i :: from <= i < from + n ==> buf[i] == buf[from..][..n][i - from];
    assert buf[from..][n..] == buf[from + n..];
  }

  /**
   What is known while is_allocated_sectors_min looks at the buffer: the first `used` sectors hold no
   long hole, their last part is used from `start` on, and a short hole up to `checked` may follow.
   */
  ghost predicate Scanned(buf: seq<Sector>, sectorNum: nat, alignment: nat, least: nat, start: nat, used: nat,
                          checked: nat)
    requires alignment > 0
  {
    && start < used <= checked <= |buf|
    && (used == |buf| || OnBoundary(sectorNum + used, alignment))
    && (checked == |buf| || OnBoundary(sectorNum + checked, alignment))
    && (start == 0 || OnBoundary(sectorNum + start, alignment))
    && NoZeroWindow(buf, start, used, alignment)
    && HolesBelow(buf, sectorNum, alignment, used, least)
    && (used < checked ==> AlignedHole(buf, sectorNum, alignment, used, checked) && checked - used < least)
    && (used < checked < |buf| ==> !StartsHole(buf[checked..], sectorNum + checked, alignment))
  }

  lemma {:induction false} ScannedIs(buf: seq<Sector>, sectorNum: nat, alignment: nat, least: nat, start: nat,
                                     used: nat, checked: nat)
    requires alignment > 0 && Scanned(buf, sectorNum, alignment, least, start, used, checked)
    ensures used <= checked <= |buf| && (used == |buf| || OnBoundary(sectorNum + used, alignment))
    ensures HolesBelow(buf, sectorNum, alignment, used, least)
    ensures used < checked ==> AlignedHole(buf, sectorNum, alignment, used, checked)
  {
  }

  lemma {:induction false} ScanUsed(buf: seq<Sector>, sectorNum: nat, alignment: nat, least: nat, start: nat,
                                    used: nat, checked: nat, n: nat)
    requires alignment > 0 && Scanned(buf, sectorNum, alignment, least, start, used, checked)
    requires checked < |buf| && 0 < n <= |buf| - checked && NoZeroWindow(buf[checked..], 0, n, alignment)
    requires checked + n == |buf| || OnBoundary(sectorNum + checked + n, alignment)
    ensures Scanned(buf, sectorNum, alignment, least, checked, checked + n, checked + n)
  {
    hide NoZeroWindow, HolesBelow, StartsHole, AlignedHole;
    SliceWindow(buf, checked, n, alignment);
    HolesStayShort(buf, sectorNum, alignment, start, used, checked, checked + n, least);
  }

  lemma {:induction false} ScanHole(buf: seq<Sector>, sectorNum: nat, alignment: nat, least: nat, start: nat,
                                    used: nat, checked: nat, n: nat)
    requires alignment > 0 && Scanned(buf, sectorNum, alignment, least, start, used, checked)
    requires checked < |buf| && 0 < n <= |buf| - checked && AllZero(buf[checked..][..n])
    requires OnBoundary(sectorNum + checked + n, alignment)
    requires StartsHole(buf[checked..], sectorNum + checked, alignment)
    requires checked + n < |buf| ==> !StartsHole(buf[checked..][n..], sectorNum + checked + n, alignment)
    ensures used == checked && AlignedHole(buf, sectorNum, alignment, used, checked + n)
    ensures n < least ==> Scanned(buf, sectorNum, alignment, least, start, used, checked + n)
  {
    hide NoZeroWindow, HolesBelow, StartsHole, AlignedHole, OnBoundary;
    HoleFound(buf, sectorNum, alignment, checked, n);
  }

  /**
   is_allocated_sectors_min: a hole is all zeroes and ends aligned; otherwise the first pnum sectors
   are to be written.  They contain no aligned run of `min` zeroes or more, and what follows them, if
   anything, is such a run or an aligned run of zeroes up to the end of the buffer.
   */
  method IsAllocatedSectorsMin(buf: seq<Sector>, min: nat, sectorNum: nat, alignment: nat)
    returns (used: bool, pnum: nat)
    requires alignment > 0 && buf != []
    ensures 1 <= pnum <= |buf|
    ensures !used ==> AllZero(buf[..pnum]) && OnBoundary(sectorNum + pnum, alignment)
    ensures used ==> OnBoundary(sectorNum + pnum, alignment) || pnum == |buf|
    ensures !used <==> StartsHole(buf, sectorNum, alignment)
    ensures buf[0] != 0 ==> pnum >= RunLength(buf)
    ensures used ==> HolesBelow(buf, sectorNum, alignment, pnum, Min(|buf|, min))
    ensures used && pnum < |buf| ==>
              exists b :: AlignedHole(buf, sectorNum, alignment, pnum, b) && (b - pnum >= Min(|buf|, min) || b == |buf|)
  {
    var least := Min(|buf|, min);
    used, pnum := IsAllocatedSectors(buf, sectorNum, alignment);
    if !used {
      return;
    }
    ghost var start := 0;
    FirstUsed(buf, sectorNum, alignment, pnum, least);
    var numUsed, checked := pnum, pnum;
    assert Scanned(buf, sectorNum, alignment, least, start, numUsed, checked);
    hide Scanned, NoZeroWindow, HolesBelow, StartsHole, AllZero, AlignedHole, OnBoundary, RunLength;
    ScannedIs(buf, sectorNum, alignment, least, start, numUsed, checked);
    while checked < |buf|
      invariant pnum <= numUsed <= checked <= |buf|
      invariant HolesBelow(buf, sectorNum, alignment, numUsed, least)
      invariant numUsed == |buf| || OnBoundary(sectorNum + numUsed, alignment)
      invariant numUsed < checked ==> AlignedHole(buf, sectorNum, alignment, numUsed, checked)
      invariant Scanned(buf, sectorNum, alignment, least, start, numUsed, checked)
    {
      var more, n := IsAllocatedSectors(buf[checked..], sectorNum + checked, alignment);
      if more {
        ScanUsed(buf, sectorNum, alignment, least, start, numUsed, checked, n);
        start := checked;
      } else {
        ScanHole(buf, sectorNum, alignment, least, start, numUsed, checked, n);
      }
      checked := checked + n;
      if more {
        numUsed := checked;
        ScannedIs(buf, sectorNum, alignment, least, start, numUsed, checked);
      } else if n >= least {
        break;
      }
    }
    pnum := numUsed;
  }

  // ---------------------------------------------------------------- convert_co_write

  datatype Status = Data | Zero | BackingFile

  /** The options of a conversion that matter for writing. */
  datatype Options = Options(minSparse: nat, compressed: bool, hasZeroInit: bool, targetHasBacking: bool,
                             alignment: nat)

  /** What the sectors of a request should read as afterwards; a backing file is left to shine through. */
  ghost predicate Written(now: seq<Sector>, was: seq<Sector>, data: seq<Sector>, status: Status)
    requires |now| == |was| == |data|
  {
    match status
    case Data => now == data
    case Zero => AllZero(now)
    case BackingFile => now == was
  }

  /** The assertions of convert_co_write and what has_zero_init promises about the target. */
  ghost predicate MayWrite(o: Options, status: Status, was: seq<Sector>) {
    && o.alignment > 0 && (o.hasZeroInit ==> !o.targetHasBacking && AllZero(was))
    && (status == BackingFile ==> o.targetHasBacking)
  }

  /** What one round of convert_co_write does with the next n sectors. */
  datatype Act = WriteData | WriteZeroes | Skip

  /** The switch of convert_co_write. */
  method ChooseAct(buf: seq<Sector>, sectorNum: nat, status: Status, o: Options) returns (n: nat, act: Act)
    requires buf != [] && o.alignment > 0 && (o.hasZeroInit ==> !o.targetHasBacking)
             && (status == BackingFile ==> o.targetHasBacking)
    ensures 1 <= n <= |buf|
    ensures act == WriteData ==> status == Data
    ensures act == WriteZeroes ==> status == Zero || (status == Data && AllZero(buf[..n]))
    ensures act == Skip ==>
              status == BackingFile || (o.hasZeroInit && (status == Zero || (status == Data && AllZero(buf[..n]))))
  {
    n := |buf|;
    match status {
      case BackingFile =>
        assert o.targetHasBacking;
        return n, Skip;
      case Data =>
        if o.minSparse == 0 {
          return n, WriteData;
        } else if !o.compressed {
          var used;
          used, n := IsAllocatedSectorsMin(buf, o.minSparse, sectorNum, o.alignment);
          if used {
            return n, WriteData;
          }
        } else {
          var zero := BufferIsZero(buf);
          if !zero {
            return n, WriteData;
          }
          assert buf[..n] == buf;
        }
      case Zero =>
    }
    if o.hasZeroInit {
      assert !o.targetHasBacking;
      return n, Skip;
    }
    return n, WriteZeroes;
  }

  /** blk_co_pwrite of data at sector `at`. */
  method WriteAt(target: array<Sector>, at: nat, data: seq<Sector>)
    requires at + |data| <= target.Length
    modifies target
    ensures forall p ::
              0 <= p < target.Length ==> target[p] == if at <= p < at + |data| then data[p - at] else old(target[p])
  {
    forall p | at <= p < at + |data| {
      target[p] := data[p - at];
    }
  }

  /**
   convert_co_write of the sectors of buf at sectorNum.  `fails` says at which sector a request to the
   target fails.  On success the range reads as it should for every alignment and minSparse; in any
   case nothing outside the range changes.
   */
  method CoWrite(target: array<Sector>, sectorNum: nat, buf: seq<Sector>, status: Status, o: Options,
                 fails: nat -> bool)
    returns (ok: bool)
    requires sectorNum + |buf| <= target.Length && MayWrite(o, status, target[sectorNum..sectorNum + |buf|])
    modifies target
    ensures !ok ==> exists p :: sectorNum <= p < sectorNum + |buf| && fails(p)
    ensures ok ==> Written(target[sectorNum..sectorNum + |buf|], old(target[sectorNum..sectorNum + |buf|]), buf, status)
    ensures forall p :: sectorNum <= p < sectorNum + |buf| ==>
              target[p] == old(target[p]) || target[p] == Wanted(status, buf[p - sectorNum], old(target[p]))
    ensures forall p :: 0 <= p < target.Length && !(sectorNum <= p < sectorNum + |buf|) ==> target[p] == old(target[p])
  {
    var pos, end := sectorNum, sectorNum + |buf|;
    ghost var was := target[..];
    assert o.hasZeroInit ==> forall p :: sectorNum <= p < end ==> was[p] == 0 by {
      assert forall p :: sectorNum <= p < end ==> was[p] == target[sectorNum..end][p - sectorNum];
    }
    while pos < end
      invariant sectorNum <= pos <= end
      invariant forall p :: sectorNum <= p < pos ==> target[p] == Wanted(status, buf[p - sectorNum], was[p])
      invariant forall p :: 0 <= p < target.Length && !(sectorNum <= p < pos) ==> target[p] == was[p]
    {
      var rest := buf[pos - sectorNum..];
      var n, act := ChooseAct(rest, pos, status, o);
      assert forall i :: 0 <= i < n ==> rest[..n][i] == rest[i] == buf[pos - sectorNum + i];
      if act != Skip {
        if fails(pos) {
          return false;
        }
        WriteAt(target, pos, if act == WriteData then rest[..n] else seq(n, i => 0));
      }
      pos := pos + n;
    }
    ok := true;
  }

  function Wanted(status: Status, data: Sector, was: Sector): Sector {
    match status
    case Data => data
    case Zero => 0
    case BackingFile => was
  }

  /** buffer_is_zero on whole sectors. */
  method BufferIsZero(buf: seq<Sector>) returns (zero: bool)
    ensures zero <==> AllZero(buf)
  {
    var i := 0;
    while i < |buf| && buf[i] == 0
      invariant 0 <= i <= |buf| && forall k :: 0 <= k < i ==> buf[k] == 0
    {
      i := i + 1;
    }
    zero := i == |buf|;
  }

  // ---------------------------------------------------------------- convert_iteration_sectors

  /** The answer of bdrv_block_status_above for a byte range: an error, or flags for a prefix of it. */
  datatype BlockStatus = StatusError | Answer(count: nat, zero: bool, data: bool)

  /** The queries the block layer answers, by source image, offset and number of bytes. */
  type StatusOracle = (nat, nat, nat) -> BlockStatus

  /** Every successful answer covers at least one byte, no more than was asked about, and ends within the image. */
  ghost predicate SaneOracle(status: StatusOracle, srcSectors: seq<nat>) {
    forall cur: nat, offset: nat, count: nat ::
      cur < |srcSectors| && offset < srcSectors[cur] * BDRV_SECTOR_SIZE && count > 0
      && status(cur, offset, count).Answer? ==>
      1 <= status(cur, offset, count).count <= count
      && offset + status(cur, offset, count).count <= srcSectors[cur] * BDRV_SECTOR_SIZE
  }

  datatype Shape = Shape(
    srcSectors: seq<nat>, srcAlignment: seq<nat>, bufSectors: nat, clusterSectors: nat, compressed: bool, salvage: bool,
    targetHasBacking: bool, targetBackingSectors: int)

  predicate ValidShape(s: Shape) {
    && |s.srcAlignment| == |s.srcSectors| && (forall i :: 0 <= i < |s.srcAlignment| ==> s.srcAlignment[i] > 0)
    && s.bufSectors > 0 && (s.targetBackingSectors >= 0 ==> s.targetHasBacking)
    && (s.compressed ==> 0 < s.clusterSectors == s.bufSectors)
  }

  /** The length of the first k source images together. */
  function Sum(s: seq<nat>, k: nat): nat
    requires k <= |s|
  {
    if k == 0 then 0 else Sum(s, k - 1) + s[k - 1]
  }

  lemma {:induction false} SumGrows(s: seq<nat>, k: nat, m: nat)
    requires k <= m <= |s|
    ensures Sum(s, k) <= Sum(s, m)
    decreases m
  {
    if k < m {
      SumGrows(s, k, m - 1);
    }
  }

  function Total(s: Shape): nat {
    Sum(s.srcSectors, |s.srcSectors|)
  }

  /** Sector x of the concatenated source lies in the image `cur`. */
  predicate InPart(s: Shape, x: nat, cur: nat) {
    cur < |s.srcSectors| && Sum(s.srcSectors, cur) <= x < Sum(s.srcSectors, cur + 1)
  }

  function RoundUpDiv(a: nat, b: nat): nat
    requires b > 0
  {
    (a + b - 1) / b
  }

  /** How many sectors are asked about: a request is split where the backing file of the target ends. */
  function Asked(s: Shape, x: nat): nat
    requires x < Total(s)
  {
    var n := Min(Total(s) - x, BDRV_REQUEST_MAX_SECTORS);
    if 0 <= s.targetBackingSectors && x < s.targetBackingSectors < x + n then s.targetBackingSectors - x else n
  }

  /** How sectors are to be treated for which the source gave this answer. */
  function Classify(s: Shape, x: nat, answer: BlockStatus): Status
    requires answer.Answer?
  {
    if answer.zero then
      if 0 <= s.targetBackingSectors <= x then BackingFile else Zero
    else if answer.data || !s.targetHasBacking then Data
    else BackingFile
  }

  /**
   An answer of the source for the range or, with salvage, for a part of it; a single unreadable sector counts as data.
   */
  ghost predicate Reported(s: Shape, oracle: StatusOracle, cur: nat, offset: nat, sectors: nat, answer: BlockStatus) {
    exists k :: 1 <= k <= sectors && ReportedFor(s, oracle, cur, offset, sectors, k, answer)
  }

  ghost predicate ReportedFor(s: Shape, oracle: StatusOracle, cur: nat, offset: nat, sectors: nat, k: nat,
                              answer: BlockStatus) {
    && (k != sectors ==> s.salvage)
    && var a := oracle(cur, offset, k * BDRV_SECTOR_SIZE);
    if a.Answer? then answer == a else k == 1 && s.salvage && answer == Answer(BDRV_SECTOR_SIZE, false, true)
  }

  /** The query for sector x and as many more as can be asked about fails. */
  ghost predicate QueryFails(s: Shape, oracle: StatusOracle, x: nat)
    requires x < Total(s)
  {
    exists cur :: InPart(s, x, cur) && QueryFailsAt(s, oracle, x, cur)
  }

  ghost predicate QueryFailsAt(s: Shape, oracle: StatusOracle, x: nat, cur: nat)
    requires x < Total(s) && InPart(s, x, cur)
  {
    oracle(cur, (x - Sum(s.srcSectors, cur)) * BDRV_SECTOR_SIZE, Asked(s, x) * BDRV_SECTOR_SIZE).StatusError?
  }

  /** A sector lies in one image. */
  lemma {:induction false} PartUnique(s: Shape, x: nat, a: nat, b: nat)
    requires InPart(s, x, a) && InPart(s, x, b)
    ensures a == b
  {
    if a < b {
      SumGrows(s.srcSectors, a + 1, b);
    } else if b < a {
      SumGrows(s.srcSectors, b + 1, a);
    }
  }

  lemma {:induction false} QueryFailsIff(s: Shape, oracle: StatusOracle, x: nat, cur: nat)
    requires x < Total(s) && InPart(s, x, cur)
    ensures QueryFails(s, oracle, x) <==> QueryFailsAt(s, oracle, x, cur)
  {
    if QueryFails(s, oracle, x) {
      var a :| InPart(s, x, a) && QueryFailsAt(s, oracle, x, a);
      PartUnique(s, x, a, cur);
    }
  }

  /** The sectors for which an answer is used: whole sectors, ending aligned to the source if possible. */
  function Usable(answer: BlockStatus, at: nat, alignment: nat): nat
    requires answer.Answer? && alignment > 0
  {
    var n := RoundUpDiv(answer.count, BDRV_SECTOR_SIZE);
    var tail := (at + n) % alignment;
    if n > tail then n - tail else n
  }

  /** What the state says about sector x is an answer of the image x lies in. */
  ghost predicate Known(s: Shape, oracle: StatusOracle, x: nat, nextStatus: nat, status: Status)
    requires ValidShape(s) && x < Total(s)
  {
    exists cur, answer :: InPart(s, x, cur) && KnownFrom(s, oracle, x, nextStatus, status, cur, answer)
  }

  ghost predicate KnownFrom(s: Shape, oracle: StatusOracle, x: nat, nextStatus: nat, status: Status, cur: nat,
                            answer: BlockStatus)
    requires ValidShape(s) && x < Total(s)
  {
    && InPart(s, x, cur) && answer.Answer?
    && var at := x - Sum(s.srcSectors, cur);
    && Reported(s, oracle, cur, at * BDRV_SECTOR_SIZE, Asked(s, x), answer)
    && nextStatus == x + Usable(answer, at, s.srcAlignment[cur]) <= Sum(s.srcSectors, cur + 1)
    && (status == Classify(s, x, answer) || (s.compressed && status == Data))
  }

  /** The state convert_iteration_sectors keeps between calls. */
  class Iteration {
    const shape: Shape
    var status: Status
    var nextStatus: nat

    constructor (shape: Shape)
      ensures this.shape == shape && nextStatus == 0
    {
      this.shape := shape;
      status := Data;
      nextStatus := 0;
    }

    /** convert_select_part; its assertion follows from the length of the source. */
    method SelectPart(sectorNum: nat) returns (cur: nat, offset: nat)
      requires sectorNum < Total(shape)
      ensures InPart(shape, sectorNum, cur) && offset == Sum(shape.srcSectors, cur)
    {
      cur, offset := 0, 0;
      while sectorNum - offset >= shape.srcSectors[cur]
        invariant cur < |shape.srcSectors| && offset == Sum(shape.srcSectors, cur) <= sectorNum
        decreases |shape.srcSectors| - cur
      {
        offset := offset + shape.srcSectors[cur];
        cur := cur + 1;
        assert cur < |shape.srcSectors|;
      }
    }

    /**
     The status query with its salvage loop: fewer and fewer sectors are asked about until there is an
     answer, and a single unreadable sector is taken for data.
     */
    method QueryStatus(cur: nat, offset: nat, sectors: nat, oracle: StatusOracle) returns (answer: BlockStatus)
      requires sectors > 0 && SaneOracle(oracle, shape.srcSectors)
      requires cur < |shape.srcSectors| && offset + BDRV_SECTOR_SIZE <= shape.srcSectors[cur] * BDRV_SECTOR_SIZE
      ensures answer.Answer? ==> Reported(shape, oracle, cur, offset, sectors, answer)
      ensures answer.Answer? ==>
                1 <= answer.count <= sectors * BDRV_SECTOR_SIZE
                && offset + answer.count <= shape.srcSectors[cur] * BDRV_SECTOR_SIZE
      ensures answer.Answer? <==> shape.salvage || oracle(cur, offset, sectors * BDRV_SECTOR_SIZE).Answer?
    {
      var n := sectors;
      answer := oracle(cur, offset, n * BDRV_SECTOR_SIZE);
      while answer.StatusError? && shape.salvage
        invariant 0 < n <= sectors && (n == sectors || shape.salvage)
        invariant answer.StatusError? ==> answer == oracle(cur, offset, n * BDRV_SECTOR_SIZE)
        invariant answer.Answer? ==> ReportedFor(shape, oracle, cur, offset, sectors, n, answer)
        invariant answer.Answer? ==>
                    1 <= answer.count <= n * BDRV_SECTOR_SIZE
                    && offset + answer.count <= shape.srcSectors[cur] * BDRV_SECTOR_SIZE
        decreases answer.StatusError?, n
      {
        if n == 1 {
          answer := Answer(BDRV_SECTOR_SIZE, false, true);
        } else {
          n := RoundUpDiv(n, 4);
          answer := oracle(cur, offset, n * BDRV_SECTOR_SIZE);
        }
      }
    }

    /** A new status query, for sectors whose status is not known yet. */
    method Refresh(sectorNum: nat, cur: nat, curOffset: nat, m: nat, postBackingZero: bool, oracle: StatusOracle)
      returns (ok: bool)
      requires ValidShape(shape) && SaneOracle(oracle, shape.srcSectors) && sectorNum < Total(shape)
      requires InPart(shape, sectorNum, cur) && curOffset == Sum(shape.srcSectors, cur)
               && m == Asked(shape, sectorNum) > 0
      requires postBackingZero <==> 0 <= shape.targetBackingSectors <= sectorNum
      modifies this
      ensures ok ==> 1 <= nextStatus - sectorNum <= m && Known(shape, oracle, sectorNum, nextStatus, status)
      ensures ok <==>
                shape.salvage || oracle(cur, (sectorNum - curOffset) * BDRV_SECTOR_SIZE, m * BDRV_SECTOR_SIZE).Answer?
      ensures !ok ==> nextStatus == old(nextStatus) && status == old(status)
    {
      var answer := QueryStatus(cur, (sectorNum - curOffset) * BDRV_SECTOR_SIZE, m, oracle);
      if answer.StatusError? {
        return false;
      }
      RoundUpFits(answer.count, m);
      RoundUpFits(answer.count, Sum(shape.srcSectors, cur + 1) - sectorNum);
      var n := RoundUpDiv(answer.count, BDRV_SECTOR_SIZE);
      var tail := (sectorNum - curOffset + n) % shape.srcAlignment[cur];
      if n > tail {
        n := n - tail;
      }
      if answer.zero {
        status := if postBackingZero then BackingFile else Zero;
      } else if answer.data {
        status := Data;
      } else {
        status := if shape.targetHasBacking then BackingFile else Data;
      }
      nextStatus := sectorNum + n;
      assert KnownFrom(shape, oracle, sectorNum, nextStatus, status, cur, answer);
      ok := true;
    }

    /**
     convert_iteration_sectors.  A request has at least one sector, stays within the source and, when
     it must be read, fits the buffer.  Uncompressed requests end where the known status, the backing
     file of the target or the buffer ends; compressed ones consist of whole clusters.  A new status
     is what the source image reports; without one the call fails.
     */
    method IterationSectors(sectorNum: nat, oracle: StatusOracle) returns (n: int)
      requires ValidShape(shape) && SaneOracle(oracle, shape.srcSectors) && sectorNum < Total(shape)
      modifies this
      ensures n >= 0 ==> 1 <= n <= Total(shape) - sectorNum
      ensures n >= 0 && status == Data ==> n <= shape.bufSectors
      ensures n >= 0 && !shape.compressed ==>
                var m := Min(Asked(shape, sectorNum), nextStatus - sectorNum);
                n == if status == Data then Min(m, shape.bufSectors) else m
      ensures n >= 0 && shape.compressed ==> n % shape.clusterSectors == 0 || n == Total(shape) - sectorNum
      ensures n < 0 <==> old(nextStatus) <= sectorNum && !shape.salvage && QueryFails(shape, oracle, sectorNum)
      ensures n < 0 ==> nextStatus == old(nextStatus) && status == old(status)
      ensures n >= 0 && sectorNum < old(nextStatus) ==>
                nextStatus == old(nextStatus) && (status == old(status) || (shape.compressed && status == Data))
      ensures n >= 0 && old(nextStatus) <= sectorNum ==> Known(shape, oracle, sectorNum, nextStatus, status)
    {
      hide Known, SaneOracle, QueryFails;
      var cur, curOffset := SelectPart(sectorNum);
      var m := Min(Total(shape) - sectorNum, BDRV_REQUEST_MAX_SECTORS);
      var postBackingZero := false;
      if shape.targetBackingSectors >= 0 {
        if sectorNum >= shape.targetBackingSectors {
          postBackingZero := true;
        } else if sectorNum + m > shape.targetBackingSectors {
          m := shape.targetBackingSectors - sectorNum;
        }
      }
      assert m == Asked(shape, sectorNum) && m > 0;
      QueryFailsIff(shape, oracle, sectorNum, cur);
      if nextStatus <= sectorNum {
        var ok := Refresh(sectorNum, cur, curOffset, m, postBackingZero, oracle);
        if !ok {
          return -1;
        }
        m := nextStatus - sectorNum;
      }
      ghost var reported := status;
      m := Min(m, nextStatus - sectorNum);
      if status == Data {
        m := Min(m, shape.bufSectors);
      }
      if shape.compressed {
        if m < shape.clusterSectors {
          m := Min(shape.clusterSectors, Total(shape) - sectorNum);
          status := Data;
          WholeCluster(shape.clusterSectors);
        } else {
          AlignDown(m, shape.clusterSectors);
          m := m - m % shape.clusterSectors;
        }
      }
      if old(nextStatus) <= sectorNum {
        KnownOrForced(shape, oracle, sectorNum, nextStatus, reported, status);
      }
      n := m;
    }
  }

  lemma {:induction false} KnownOrForced(s: Shape, oracle: StatusOracle, x: nat, nextStatus: nat, reported: Status,
                                         status: Status)
    requires ValidShape(s) && x < Total(s) && Known(s, oracle, x, nextStatus, reported)
    requires status == reported || (s.compressed && status == Data)
    ensures Known(s, oracle, x, nextStatus, status)
  {
    var cur, answer :| InPart(s, x, cur) && KnownFrom(s, oracle, x, nextStatus, reported, cur, answer);
    assert KnownFrom(s, oracle, x, nextStatus, status, cur, answer);
  }

  lemma {:induction false} WholeCluster(n: nat)
    requires n > 0
    ensures n % n == 0
  {
    Multiple(1, n);
  }

  lemma {:induction false} RoundUpFits(count: nat, sectors: nat)
    requires 1 <= count <= sectors * BDRV_SECTOR_SIZE
    ensures 1 <= RoundUpDiv(count, BDRV_SECTOR_SIZE) <= sectors
  {
  }
}
