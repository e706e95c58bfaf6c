/**
 The safe mode of qemu-img rebase (img_rebase in femu-ocssd/qemu-img.c): before the backing file of an
 overlay is changed, every sector that would read differently is copied into the overlay.  Image
 lengths are whole sectors, so the model counts in sectors.
 */
module Rebase {
  import opened Optional
  import opened Rounding

  type Sector = int

  /** One image of a chain: for each of its sectors the contents, or None where it is not allocated. */
  type Layer = seq<Option<Sector>>

  /** A backing chain, the topmost image first. */
  type Chain = seq<Layer>

  const IO_BUF_SECTORS: nat := 4096

  /** What a chain reads as; an image is zero beyond its end, whatever lies below it. */
  function ReadChain(c: Chain, x: nat): Sector {
    if c == [] || x >= |c[0]| then 0
    else if c[0][x].Some? then c[0][x].value
    else ReadChain(c[1..], x)
  }

  function ReadTop(top: Layer, c: Chain, x: nat): Sector
    requires x < |top|
  {
    if top[x].Some? then top[x].value else ReadChain(c, x)
  }

  // ---------------------------------------------------------------- allocation queries

  /** bdrv_block_status of one image: a prefix of the range with one allocation state, empty beyond the end. */
  method LayerStatus(l: Layer, offset: nat, n: nat) returns (used: bool, pnum: nat)
    requires n > 0
    ensures offset >= |l| ==> !used && pnum == 0
    ensures offset < |l| ==>
              1 <= pnum <= n && offset + pnum <= |l|
              && forall x :: offset <= x < offset + pnum ==> (l[x].Some? <==> used)
  {
    if offset >= |l| {
      return false, 0;
    }
    used := l[offset].Some?;
    pnum :| 1 <= pnum <= n && offset + pnum <= |l|
    && forall x :: offset <= x < offset + pnum ==> (l[x].Some? <==> used);
  }

  /** The images above the k-th leave the range to the k-th. */
  ghost predicate Deferred(c: Chain, k: nat, offset: nat, n: nat)
    requires k <= |c|
  {
    forall i :: 0 <= i < k ==> Defers(c[i], offset, n)
  }

  ghost predicate Defers(l: Layer, offset: nat, n: nat) {
    (n > 0 ==> offset + n <= |l|) && forall x :: offset <= x < offset + n ==> l[x].None?
  }

  lemma {:induction false} DeferredReads(c: Chain, k: nat, offset: nat, n: nat, x: nat)
    requires k <= |c| && Deferred(c, k, offset, n) && offset <= x < offset + n
    ensures ReadChain(c, x) == ReadChain(c[k..], x)
    decreases k
  {
    if k == 0 {
      assert c[0..] == c;
    } else {
      assert Defers(c[0], offset, n);
      DeferredReads(c[1..], k - 1, offset, n, x);
      assert c[1..][k - 1..] == c[k..];
    }
  }

  /**
   bdrv_is_allocated_above(top, base) with the k-th image as base: `used` if some image above the base
   holds the range, counting images that end before it.  The range is empty only beyond the end of
   the topmost image.
   */
  method AllocatedAbove(c: Chain, k: nat, offset: nat, n: nat) returns (used: bool, pnum: nat)
    requires k < |c| && n > 0
    ensures k == 0 ==> !used && pnum == n
    ensures k > 0 && offset >= |c[0]| ==> !used && pnum == 0
    ensures k > 0 && offset < |c[0]| ==> 1 <= pnum <= n && offset + pnum <= |c[0]|
    ensures !used ==> Deferred(c, k, offset, pnum)
  {
    if k == 0 {
      return false, n;
    }
    used, pnum := LayerStatus(c[0], offset, n);
    if used || pnum == 0 {
      return;
    }
    var i := 1;
    while i < k
      invariant 1 <= i <= k && 1 <= pnum <= n && offset + pnum <= |c[0]| && !used
      invariant Deferred(c, i, offset, pnum)
    {
      var bytes := pnum;
      used, pnum := LayerStatus(c[i], offset, bytes);
      if pnum == 0 {
        return true, bytes;
      }
      if used {
        return;
      }
      i := i + 1;
    }
  }

  // ---------------------------------------------------------------- comparing and copying

  /** compare_buffers: the first sectors up to the first change between equal and different. */
  method CompareBuffers(a: seq<Sector>, b: seq<Sector>) returns (differ: bool, pnum: nat)
    requires |a| == |b| > 0
    ensures 1 <= pnum <= |a|
    ensures forall i :: 0 <= i < pnum ==> (a[i] != b[i] <==> differ)
    ensures pnum < |a| ==> (a[pnum] != b[pnum] <==> !differ)
  {
    differ := a[0] != b[0];
    pnum := 1;
    while pnum < |a| && (a[pnum] != b[pnum]) == differ
      invariant 1 <= pnum <= |a| && forall i :: 0 <= i < pnum ==> (a[i] != b[i] <==> differ)
    {
      pnum := pnum + 1;
    }
  }

  /** Sectors of one cluster are allocated together. */
  type Clusters = nat -> nat

  ghost predicate Uniform(top: Layer, cluster: Clusters) {
    forall x, y :: 0 <= x < |top| && 0 <= y < |top| && cluster(x) == cluster(y) ==> (top[x].None? <==> top[y].None?)
  }

  predicate Touched(cluster: Clusters, lo: nat, hi: nat, x: nat) {
    exists y :: lo <= y < hi && cluster(y) == cluster(x)
  }

  /**
   A write to the overlay of what the sectors read as already: the clusters it touches are allocated,
   the rest of them filled from the backing chain, and nothing reads differently.
   */
  method CowWrite(top: array<Option<Sector>>, old_: Chain, cluster: Clusters, lo: nat, data: seq<Sector>)
    requires lo + |data| <= top.Length && Uniform(top[..], cluster)
    requires forall i :: 0 <= i < |data| ==> data[i] == ReadTop(top[..], old_, lo + i)
    modifies top
    ensures Uniform(top[..], cluster)
    ensures forall x :: 0 <= x < top.Length ==> ReadTop(top[..], old_, x) == old(ReadTop(top[..], old_, x))
    ensures forall x ::
              0 <= x < top.Length ==> (top[x].Some? <==> old(top[x]).Some? || Touched(cluster, lo, lo + |data|, x))
  {
    forall x | 0 <= x < top.Length && lo <= x < lo + |data| {
      top[x] := Some(data[x - lo]);
    }
    var hi := lo + |data|;
    forall x: nat | lo <= x < hi
      ensures Touched(cluster, lo, hi, x)
    {
      var c := cluster(x);
    }
    forall x | 0 <= x < top.Length && top[x].None? && Touched(cluster, lo, hi, x) {
      top[x] := Some(ReadChain(old_, x));
    }
  }

  // ---------------------------------------------------------------- the rebase loop

  datatype Outcome = Done | Failed | Stuck

  /**
   The offsets at which requests fail: the allocation queries of the overlay and of the chain below
   it, reads of the old and of the new backing file, and writes to the overlay.
   */
  datatype Faults = Faults(query: nat -> bool, queryAbove: nat -> bool, readOld: nat -> bool, readNew: nat -> bool,
                           write: nat -> bool)

  predicate FaultAt(f: Faults, x: nat) {
    f.query(x) || f.queryAbove(x) || f.readOld(x) || f.readNew(x) || f.write(x)
  }

  /**
   The case in which the loop makes no progress any more: the new backing file is further down the
   same chain, and the overlay has an unallocated sector beyond the end of its old backing file.  A
   cluster that reaches beyond the end escapes if a difference before the end causes it to be copied.
   */
  ghost predicate Blocked(top: Layer, old_: Chain, new_: Chain, prefix: Option<nat>, cluster: Clusters) {
    && prefix.Some? && prefix.value > 0 && |old_| > 0
    && exists x :: |old_[0]| <= x < |top| && LeftBehind(top, old_, new_, cluster, x)
  }

  ghost predicate LeftBehind(top: Layer, old_: Chain, new_: Chain, cluster: Clusters, x: nat)
    requires |old_| > 0 && x < |top|
  {
    top[x].None?
    && forall y :: 0 <= y < |old_[0]| && cluster(y) == cluster(x) ==> ReadChain(old_, y) == ReadChain(new_, y)
  }

  /** The new chain is any chain, or the old one from the k-th image on. */
  ghost predicate ValidPrefix(old_: Chain, new_: Chain, prefix: Option<nat>) {
    prefix.Some? ==> prefix.value < |old_| && new_ == old_[prefix.value..]
  }

  /** Sector x may be left to the new chain. */
  ghost predicate Settled(top: Layer, old_: Chain, new_: Chain, x: nat)
    requires x < |top|
  {
    top[x].Some? || ReadChain(old_, x) == ReadChain(new_, x)
  }

  /**
   Sectors before `offset` are settled and nothing reads differently over the old chain; sectors were
   only allocated together with one before `offset` and `limit` that differs between the chains.
   */
  ghost predicate Progress(was: Layer, top: Layer, old_: Chain, new_: Chain, cluster: Clusters, offset: nat,
                           limit: nat) {
    && Preserved(was, top, old_) && offset <= |top| && Uniform(top, cluster)
    && (forall x :: 0 <= x < offset ==> Settled(top, old_, new_, x))
    && (forall x :: 0 <= x < |top| && top[x].Some? && was[x].None? ==> CopiedFor(old_, new_, cluster, offset, limit, x))
  }

  /** Over the old chain the overlay reads as before, and what was allocated still is. */
  ghost predicate Preserved(was: Layer, top: Layer, old_: Chain) {
    && |top| == |was|
    && (forall x :: 0 <= x < |top| ==> ReadTop(top, old_, x) == ReadTop(was, old_, x))
    && (forall x :: 0 <= x < |top| && was[x].Some? ==> top[x].Some?)
  }

  ghost predicate CopiedFor(old_: Chain, new_: Chain, cluster: Clusters, offset: nat, limit: nat, x: nat) {
    exists y :: 0 <= y < offset && y < limit && cluster(y) == cluster(x) && ReadChain(old_, y) != ReadChain(new_, y)
  }

  /** The two backing buffers for the sectors from `offset` on, none of which the overlay had. */
  ghost predicate Buffers(old_: Chain, new_: Chain, offset: nat, bufOld: seq<Sector>, bufNew: seq<Sector>) {
    && |bufOld| == |bufNew|
    && (forall i ::
          0 <= i < |bufOld| ==> bufOld[i] == ReadChain(old_, offset + i) && bufNew[i] == ReadChain(new_, offset + i))
  }

  /** One comparison of the inner loop: equal sectors are settled as they are, different ones by the copy. */
  lemma {:induction false} ChunkSettles(was: Layer, before: Layer, after: Layer, old_: Chain, new_: Chain,
                                        cluster: Clusters, at: nat, n: nat, limit: nat, differ: bool)
    requires Progress(was, before, old_, new_, cluster, at, limit) && at + n <= |after| && at + n <= limit
    requires Preserved(was, after, old_) && Preserved(before, after, old_) && Uniform(after, cluster)
    requires forall x :: at <= x < at + n ==> (ReadChain(old_, x) != ReadChain(new_, x) <==> differ)
    requires forall x ::
               0 <= x < |after| ==> (after[x].Some? <==> before[x].Some? || (differ && Touched(cluster, at, at + n, x)))
    ensures Progress(was, after, old_, new_, cluster, at + n, limit)
  {
    forall x | 0 <= x < at + n
      ensures Settled(after, old_, new_, x)
    {
      if x >= at && differ {
        var c := cluster(x);
        assert Touched(cluster, at, at + n, x);
      } else if x < at {
        assert Settled(before, old_, new_, x);
      }
    }
    forall x | 0 <= x < |after| && after[x].Some? && was[x].None?
      ensures CopiedFor(old_, new_, cluster, at + n, limit, x)
    {
      if before[x].Some? {
        assert CopiedFor(old_, new_, cluster, at, limit, x);
        var y :| 0 <= y < at && y < limit && cluster(y) == cluster(x) && ReadChain(old_, y) != ReadChain(new_, y);
      } else {
        var y :| at <= y < at + n && cluster(y) == cluster(x);
      }
    }
  }

  lemma {:induction false} PreservedTransitive(a: Layer, b: Layer, c: Layer, old_: Chain)
    requires Preserved(a, b, old_) && Preserved(b, c, old_)
    ensures Preserved(a, c, old_)
  {
  }

  /** The inner loop of img_rebase: copy the runs of sectors that differ.  It ends early only where a write fails. */
  method CopyDifferences(top: array<Option<Sector>>, old_: Chain, new_: Chain, cluster: Clusters, offset: nat,
                         bufOld: seq<Sector>, bufNew: seq<Sector>, fails: nat -> bool, ghost was: Layer,
                         ghost limit: nat)
    returns (ok: bool)
    requires Progress(was, top[..], old_, new_, cluster, offset, limit) && Buffers(old_, new_, offset, bufOld, bufNew)
    requires offset + |bufOld| <= top.Length && offset + |bufOld| <= limit
    requires forall x :: offset <= x < offset + |bufOld| ==> was[x].None?
    modifies top
    ensures Preserved(was, top[..], old_)
    ensures ok ==> Progress(was, top[..], old_, new_, cluster, offset + |bufOld|, limit)
    ensures !ok ==> exists x :: offset <= x < offset + |bufOld| && fails(x)
  {
    var written := 0;
    while written < |bufOld|
      invariant 0 <= written <= |bufOld|
      invariant Progress(was, top[..], old_, new_, cluster, offset + written, limit)
    {
      var differ, pnum := CompareBuffers(bufOld[written..], bufNew[written..]);
      ghost var before := top[..];
      var at := offset + written;
      if differ {
        var data := bufOld[written..written + pnum];
        if fails(at) {
          var m :| 0 <= m <= pnum;
          OldContents(was, before, old_, at, data[..m]);
          CowWrite(top, old_, cluster, at, data[..m]);
          PreservedTransitive(was, before, top[..], old_);
          return false;
        }
        OldContents(was, before, old_, at, data);
        CowWrite(top, old_, cluster, at, data);
        PreservedTransitive(was, before, top[..], old_);
      }
      ChunkDiffers(old_, new_, offset, bufOld, bufNew, written, pnum, differ);
      ChunkSettles(was, before, top[..], old_, new_, cluster, at, pnum, limit, differ);
      written := written + pnum;
    }
    ok := true;
  }

  lemma {:induction false} ChunkDiffers(old_: Chain, new_: Chain, offset: nat, bufOld: seq<Sector>, bufNew: seq<Sector>,
                                        written: nat, pnum: nat, differ: bool)
    requires Buffers(old_, new_, offset, bufOld, bufNew) && written + pnum <= |bufOld|
    requires forall i :: 0 <= i < pnum ==> (bufOld[written..][i] != bufNew[written..][i] <==> differ)
    ensures forall x ::
              offset + written <= x < offset + written + pnum ==> (ReadChain(old_, x) != ReadChain(new_, x) <==> differ)
  {
    forall x | offset + written <= x < offset + written + pnum
      ensures ReadChain(old_, x) != ReadChain(new_, x) <==> differ
    {
      var i := x - offset - written;
      assert bufOld[written..][i] == bufOld[written + i] && bufNew[written..][i] == bufNew[written + i];
    }
  }

  /** What is written is what the sectors read as already. */
  lemma {:induction false} OldContents(was: Layer, top: Layer, old_: Chain, at: nat, data: seq<Sector>)
    requires Preserved(was, top, old_) && at + |data| <= |top|
    requires forall i :: 0 <= i < |data| ==> was[at + i].None? && data[i] == ReadChain(old_, at + i)
    ensures forall i :: 0 <= i < |data| ==> data[i] == ReadTop(top, old_, at + i)
  {
    forall i | 0 <= i < |data|
      ensures data[i] == ReadTop(top, old_, at + i)
    {
      assert ReadTop(top, old_, at + i) == ReadTop(was, old_, at + i);
    }
  }

  // ---------------------------------------------------------------- img_rebase

  function Length(c: Chain): nat {
    if c == [] then 0 else |c[0]|
  }

  /** One backing file's contents for at most n sectors: zeroes beyond its end, or what can be read before it. */
  method ReadBacking(c: Chain, offset: nat, n: nat, fails: nat -> bool) returns (ok: bool, buf: seq<Sector>)
    requires n > 0
    ensures ok ==> 1 <= |buf| <= n && forall i :: 0 <= i < |buf| ==> buf[i] == ReadChain(c, offset + i)
    ensures ok <==> offset >= Length(c) || !fails(offset)
  {
    if offset >= Length(c) {
      return true, seq(n, i => 0);
    }
    if fails(offset) {
      return false, [];
    }
    return true, seq(Min(n, Length(c) - offset), i requires 0 <= i => ReadChain(c, offset + i));
  }

  /** Where sectors can be copied at all: in a prefix-chain rebase only before the end of the old backing file. */
  ghost function CopyLimit(top: Layer, old_: Chain, prefix: Option<nat>): nat {
    if prefix.Some? && prefix.value > 0 then Length(old_) else |top|
  }

  /** Beyond that limit everything passed so far was allocated. */
  ghost predicate PassedLimit(top: Layer, offset: nat, limit: nat) {
    forall x :: limit <= x < offset && x < |top| ==> top[x].Some?
  }

  lemma {:induction false} SkipSettles(was: Layer, top: Layer, old_: Chain, new_: Chain, cluster: Clusters, at: nat,
                                       n: nat, limit: nat)
    requires Progress(was, top, old_, new_, cluster, at, limit) && at + n <= |top|
    requires forall x :: at <= x < at + n ==> Settled(top, old_, new_, x)
    ensures Progress(was, top, old_, new_, cluster, at + n, limit)
  {
    forall x | 0 <= x < |top| && top[x].Some? && was[x].None?
      ensures CopiedFor(old_, new_, cluster, at + n, limit, x)
    {
      assert CopiedFor(old_, new_, cluster, at, limit, x);
    }
  }

  /** Stopping at an unallocated sector beyond the old backing file means that the case could be told beforehand. */
  lemma {:induction false} StuckIsBlocked(was: Layer, top: Layer, old_: Chain, new_: Chain, prefix: Option<nat>,
                                          cluster: Clusters, offset: nat, limit: nat)
    requires ValidPrefix(old_, new_, prefix) && prefix.Some? && prefix.value > 0
    requires Progress(was, top, old_, new_, cluster, offset, limit) && |old_[0]| <= offset < |top| && top[offset].None?
    ensures Blocked(was, old_, new_, prefix, cluster)
  {
    forall y | 0 <= y < |old_[0]| && cluster(y) == cluster(offset)
      ensures ReadChain(old_, y) == ReadChain(new_, y)
    {
      assert Settled(top, old_, new_, y);
    }
    assert LeftBehind(was, old_, new_, cluster, offset);
  }

  lemma {:induction false} DoneIsNotBlocked(was: Layer, top: Layer, old_: Chain, new_: Chain, prefix: Option<nat>,
                                            cluster: Clusters)
    requires ValidPrefix(old_, new_, prefix)
    requires Progress(was, top, old_, new_, cluster, |top|, CopyLimit(was, old_, prefix))
             && PassedLimit(top, |top|, CopyLimit(was, old_, prefix))
    ensures !Blocked(was, old_, new_, prefix, cluster)
  {
    forall x | CopyLimit(was, old_, prefix) <= x < |was| && was[x].None?
      ensures CopiedFor(old_, new_, cluster, |top|, CopyLimit(was, old_, prefix), x)
    {
      assert top[x].Some?;
    }
  }

  lemma {:induction false} OnlyDifferencesCopied(was: Layer, top: Layer, old_: Chain, new_: Chain, cluster: Clusters,
                                                 limit: nat)
    requires Progress(was, top, old_, new_, cluster, |top|, limit)
    ensures forall x ::
              0 <= x < |top| && top[x].Some? && was[x].None? ==> CopiedFor(old_, new_, cluster, |top|, |top|, x)
  {
    forall x | 0 <= x < |top| && top[x].Some? && was[x].None?
      ensures CopiedFor(old_, new_, cluster, |top|, |top|, x)
    {
      assert CopiedFor(old_, new_, cluster, |top|, limit, x);
    }
  }

  lemma {:induction false} DonePreserves(was: Layer, top: Layer, old_: Chain, new_: Chain, cluster: Clusters,
                                         limit: nat)
    requires Progress(was, top, old_, new_, cluster, |top|, limit)
    ensures forall x :: 0 <= x < |top| ==> ReadTop(top, new_, x) == ReadTop(was, old_, x)
  {
    forall x | 0 <= x < |top|
      ensures ReadTop(top, new_, x) == ReadTop(was, old_, x)
    {
      assert Settled(top, old_, new_, x);
    }
  }

  /** The rest of one round: read both backing files and copy what differs, for at most n sectors. */
  method CopyChunk(top: array<Option<Sector>>, old_: Chain, new_: Chain, cluster: Clusters, offset: nat, n: nat,
                   faults: Faults, ghost was: Layer, ghost limit: nat)
    returns (ok: bool, m: nat)
    requires Progress(was, top[..], old_, new_, cluster, offset, limit) && n > 0 && offset + n <= top.Length
             && offset + n <= limit
    requires forall x :: offset <= x < offset + n ==> was[x].None?
    modifies top
    ensures Preserved(was, top[..], old_) && 1 <= m <= n
    ensures ok ==> Progress(was, top[..], old_, new_, cluster, offset + m, limit)
    ensures !ok ==> exists x :: 0 <= x < top.Length && FaultAt(faults, x)
  {
    hide Progress, Preserved;
    ProgressPreserved(was, top[..], old_, new_, cluster, offset, limit);
    assert faults.readOld(offset) || faults.readNew(offset) ==> FaultAt(faults, offset);
    var bufOld, bufNew;
    ok, bufOld := ReadBacking(old_, offset, n, faults.readOld);
    if !ok {
      return false, 1;
    }
    ok, bufNew := ReadBacking(new_, offset, |bufOld|, faults.readNew);
    if !ok {
      return false, 1;
    }
    m := |bufNew|;
    ok := CopyDifferences(top, old_, new_, cluster, offset, bufOld[..m], bufNew, faults.write, was, limit);
    if !ok {
      ghost var x :| offset <= x < offset + m && faults.write(x);
      assert FaultAt(faults, x);
    }
  }

  lemma {:induction false} ProgressPreserved(was: Layer, top: Layer, old_: Chain, new_: Chain, cluster: Clusters,
                                             offset: nat, limit: nat)
    requires Progress(was, top, old_, new_, cluster, offset, limit)
    ensures Preserved(was, top, old_) && |was| == |top|
  {
  }

  lemma {:induction false} NothingDone(top: Layer, old_: Chain, new_: Chain, cluster: Clusters, limit: nat)
    requires Uniform(top, cluster)
    ensures Progress(top, top, old_, new_, cluster, 0, limit) && PassedLimit(top, 0, limit)
  {
  }

  lemma {:induction false} SkipAllocated(was: Layer, top: Layer, old_: Chain, new_: Chain, cluster: Clusters, at: nat,
                                         n: nat, limit: nat)
    requires Progress(was, top, old_, new_, cluster, at, limit) && PassedLimit(top, at, limit) && at + n <= |top|
    requires forall x :: at <= x < at + n ==> top[x].Some?
    ensures Progress(was, top, old_, new_, cluster, at + n, limit) && PassedLimit(top, at + n, limit)
  {
    SkipSettles(was, top, old_, new_, cluster, at, n, limit);
  }

  lemma {:induction false} NeverAllocated(was: Layer, top: Layer, old_: Chain, new_: Chain, cluster: Clusters, at: nat,
                                          n: nat, limit: nat)
    requires Progress(was, top, old_, new_, cluster, at, limit) && at + n <= |top|
    requires forall x :: at <= x < at + n ==> top[x].None?
    ensures |was| == |top| && Preserved(was, top, old_) && forall x :: at <= x < at + n ==> was[x].None?
  {
  }

  lemma {:induction false} WithinLimit(top: Layer, offset: nat, limit: nat)
    requires offset <= limit
    ensures PassedLimit(top, offset, limit)
  {
  }

  /**
   Unallocated sectors of the overlay that have not changed since the image that becomes the new
   backing file: they are skipped.  Nothing is skipped only in the case `Blocked` describes.
   */
  method SkipUnchanged(top: Layer, old_: Chain, new_: Chain, prefix: Option<nat>, cluster: Clusters, offset: nat,
                       n: nat, ghost was: Layer)
    returns (used: bool, m: nat)
    requires ValidPrefix(old_, new_, prefix) && prefix.Some? && n > 0 && offset + n <= |top| == |was|
    requires Progress(was, top, old_, new_, cluster, offset, CopyLimit(was, old_, prefix))
    requires PassedLimit(top, offset, CopyLimit(was, old_, prefix))
    requires forall x :: offset <= x < offset + n ==> top[x].None?
    ensures used ==> 1 <= m <= n && offset + m <= CopyLimit(was, old_, prefix)
    ensures !used && m == 0 ==> Blocked(was, old_, new_, prefix, cluster)
    ensures !used && m > 0 ==>
              && m <= n && Progress(was, top, old_, new_, cluster, offset + m, CopyLimit(was, old_, prefix))
              && PassedLimit(top, offset + m, CopyLimit(was, old_, prefix))
  {
    ghost var limit := CopyLimit(was, old_, prefix);
    used, m := AllocatedAbove(old_, prefix.value, offset, n);
    if !used {
      if m == 0 {
        StuckIsBlocked(was, top, old_, new_, prefix, cluster, offset, limit);
      } else {
        forall x | offset <= x < offset + m
          ensures Settled(top, old_, new_, x)
        {
          DeferredReads(old_, prefix.value, offset, m, x);
        }
        SkipSettles(was, top, old_, new_, cluster, offset, m, limit);
      }
    }
  }

  /**
   The safe rebase loop.  Whatever happens the overlay reads the same over the old chain; when the loop
   is done it reads the same over the new one, and only clusters with a difference were copied.  It
   fails only where a request fails; otherwise it comes to a standstill in the case `Blocked`
   describes, and ends in all others.
   */
  method SafeRebase(top: array<Option<Sector>>, old_: Chain, new_: Chain, prefix: Option<nat>, cluster: Clusters,
                    faults: Faults)
    returns (outcome: Outcome)
    requires ValidPrefix(old_, new_, prefix) && Uniform(top[..], cluster)
    modifies top
    ensures Preserved(old(top[..]), top[..], old_)
    ensures outcome == Done ==>
              forall x :: 0 <= x < top.Length ==> ReadTop(top[..], new_, x) == old(ReadTop(top[..], old_, x))
    ensures outcome == Done ==> forall x :: 0 <= x < top.Length && top[x].Some? && old(top[x]).None? ==>
                                  CopiedFor(old_, new_, cluster, top.Length, top.Length, x)
    ensures outcome == Stuck ==> Blocked(old(top[..]), old_, new_, prefix, cluster)
    ensures outcome == Done ==> !Blocked(old(top[..]), old_, new_, prefix, cluster)
    ensures outcome == Failed ==> exists x :: 0 <= x < top.Length && FaultAt(faults, x)
    ensures (forall x :: 0 <= x < top.Length ==> !FaultAt(faults, x)) ==>
              && (outcome == Stuck <==> Blocked(old(top[..]), old_, new_, prefix, cluster))
              && (outcome == Done <==> !Blocked(old(top[..]), old_, new_, prefix, cluster))
  {
    hide Progress, PassedLimit, Blocked, ValidPrefix, Preserved, ReadTop, CopiedFor, Uniform;
    ghost var was, limit := top[..], CopyLimit(top[..], old_, prefix);
    var offset := 0;
    NothingDone(top[..], old_, new_, cluster, limit);
    while offset < top.Length
      invariant offset <= top.Length
      invariant Progress(was, top[..], old_, new_, cluster, offset, limit) && PassedLimit(top[..], offset, limit)
    {
      ProgressPreserved(was, top[..], old_, new_, cluster, offset, limit);
      assert faults.query(offset) || faults.queryAbove(offset) ==> FaultAt(faults, offset);
      if faults.query(offset) {
        return Failed;
      }
      var used, n := LayerStatus(top[..], offset, Min(IO_BUF_SECTORS, top.Length - offset));
      if used {
        SkipAllocated(was, top[..], old_, new_, cluster, offset, n, limit);
        offset := offset + n;
        continue;
      }
      NeverAllocated(was, top[..], old_, new_, cluster, offset, n, limit);
      if prefix.Some? {
        if faults.queryAbove(offset) {
          return Failed;
        }
        used, n := SkipUnchanged(top[..], old_, new_, prefix, cluster, offset, n, was);
        if !used {
          if n == 0 {
            return Stuck;
          }
          offset := offset + n;
          continue;
        }
      }
      var ok;
      ok, n := CopyChunk(top, old_, new_, cluster, offset, n, faults, was, limit);
      if !ok {
        return Failed;
      }
      offset := offset + n;
      WithinLimit(top[..], offset, limit);
    }
    ProgressPreserved(was, top[..], old_, new_, cluster, offset, limit);
    DonePreserves(was, top[..], old_, new_, cluster, limit);
    OnlyDifferencesCopied(was, top[..], old_, new_, cluster, limit);
    DoneIsNotBlocked(was, top[..], old_, new_, prefix, cluster);
    outcome := Done;
  }

  /** An overlay of two unallocated sectors over a one-sector file, rebased to the file below that one. */
  lemma {:induction false} BlockedExample()
    ensures ValidPrefix([[None], [Some(7)]], [[Some(7)]], Some(1))
    ensures Uniform([None, None], (x: nat) => x)
    ensures Blocked([None, None], [[None], [Some(7)]], [[Some(7)]], Some(1), (x: nat) => x)
  {
    var old_: Chain := [[None], [Some(7)]];
    assert old_[1..] == [[Some(7)]];
    assert LeftBehind([None, None], old_, [[Some(7)]], (x: nat) => x, 1);
  }

  /** On that input the rebase never ends, although no request fails. */
  method BlockedExampleSticks() returns (outcome: Outcome)
    ensures outcome == Stuck
  {
    BlockedExample();
    var top := new Option<Sector>[2](i => None);
    assert top[..] == [None, None];
    var never := (x: nat) => false;
    outcome :=
      SafeRebase(top, [[None], [Some(7)]], [[Some(7)]], Some(1), (x: nat) => x,
                 Faults(never, never, never, never, never));
  }
}
