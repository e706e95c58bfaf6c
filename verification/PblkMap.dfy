/**
 The sector mapping of mstream-pblk/pblk-map.c: a write request is split into units of min_write_pgs
 sectors, each unit gets fresh addresses in the current data line, the tail is padded, lines are
 switched when they are full, and one block erase of the next line may be piggybacked.
 */
module PblkMap {
  import opened Optional
  import opened Rounding

  type Lba = int

  const ADDR_EMPTY: Lba := -1

  /** A physical sector: line and address within the line. */
  datatype Ppa = Ppa(line: nat, addr: nat)

  /**
   `size` is sec_per_line, `emeta` the sector where the closing metadata start (emeta_ssec), whose bits
   stay clear in map_bitmap.  `mapped` holds the set bits of map_bitmap, `curSec` is where the search for
   unmapped sectors goes on, `free` holds the first sectors of the units that data may still take, `lbas`
   is the lba_list of the emeta; `erased`, `leftEblks` and `bad` are the erase and bad-block state.
   */
  datatype Line = Line( size: nat, emeta: nat, curSec: nat, free: set<nat>, mapped: set<nat>, leftMsecs: nat,
                       lbas: map<nat, Lba>, nrValid: nat, erased: set<nat>, leftEblks: int, bad: set<nat>)

  /** The sectors of the unit that starts at u. */
  predicate InUnit(u: nat, min: nat, a: nat) {
    u <= a < u + min
  }

  ghost predicate UnitsApart(free: set<nat>, min: nat) {
    forall u, v :: u in free && v in free && u != v ==> u + min <= v || v + min <= u
  }

  predicate InFree(free: set<nat>, min: nat, a: nat) {
    exists u :: u in free && InUnit(u, min, a)
  }

  /** Between curSec and the closing metadata, unmapped sectors come in whole units, as pages do. */
  ghost predicate PagesOk(l: Line, min: nat) {
    && l.emeta <= l.size
    && (forall u :: u in l.free ==> l.curSec <= u && u + min <= l.emeta)
    && (forall a :: l.curSec <= a < l.emeta && a !in l.mapped ==> InFree(l.free, min, a))
  }

  ghost predicate LineOk(l: Line, min: nat, blocks: nat) {
    && l.leftMsecs == min * |l.free| && UnitsApart(l.free, min) && PagesOk(l, min)
    && (forall u, a :: u in l.free && a in l.mapped ==> !InUnit(u, min, a))
    && l.leftEblks + |l.erased| == blocks
    && (forall b :: b in l.erased || b in l.bad ==> b < blocks)
  }

  // ---------------------------------------------------------------- how many sectors of a unit are data

  /** map_secs in pblk_map_rq and pblk_map_erase_rq. */
  function MapSecs(i: nat, min: nat, valid: nat): nat
    requires min > 0
  {
    if i + min > valid then valid % min else min
  }

  /** The sectors of the request from i on that hold data, at most one unit. */
  function DataSecs(i: nat, min: nat, valid: nat): nat {
    if i >= valid then 0 else if valid - i < min then valid - i else min
  }

  /** The formula is right for the units that hold data, and for padding units only when the data fill whole units. */
  lemma {:induction false} MapSecsIff(k: nat, min: nat, valid: nat)
    requires min > 0
    ensures MapSecs(k * min, min, valid) == DataSecs(k * min, min, valid) <==> k * min < valid || valid % min == 0
  {
    var i := k * min;
    if i + min > valid && i < valid {
      DivUnique(valid, min, k, valid - i);
    }
  }

  // ---------------------------------------------------------------- lines

  function SumValid(lines: seq<Line>): nat {
    if lines == [] then 0 else lines[0].nrValid + SumValid(lines[1..])
  }

  lemma {:induction false} SumValidUpdate(lines: seq<Line>, d: nat, l: Line)
    requires d < |lines|
    ensures SumValid(lines[d := l]) == SumValid(lines) - lines[d].nrValid + l.nrValid
  {
    if d > 0 {
      SumValidUpdate(lines[1..], d - 1, l);
      assert lines[d := l][1..] == lines[1..][d - 1 := l];
    } else {
      assert lines[d := l][1..] == lines[1..];
    }
  }

  /** Units that can still be mapped: in the data line and in the lines that follow it. */
  function UnitsIn(lines: seq<Line>, queue: seq<nat>): nat
    requires forall k :: 0 <= k < |queue| ==> queue[k] < |lines|
  {
    if queue == [] then 0 else |lines[queue[0]].free| + UnitsIn(lines, queue[1..])
  }

  lemma {:induction false} UnitsSame(lines: seq<Line>, lines': seq<Line>, queue: seq<nat>)
    requires |lines'| == |lines|
             && forall k :: 0 <= k < |queue| ==> queue[k] < |lines| && lines'[queue[k]].free == lines[queue[k]].free
    ensures UnitsIn(lines', queue) == UnitsIn(lines, queue)
  {
    if queue != [] {
      UnitsSame(lines, lines', queue[1..]);
    }
  }

  class Pblk {
    const min: nat
    const blocks: nat
    const lba: nat -> Lba
    const pos: nat -> nat
    var lines: seq<Line>
    var data: nat
    var queue: seq<nat>
    var ctx: map<nat, Ppa>

    ghost predicate LinesOk()
      reads this
    {
      forall k :: 0 <= k < |lines| ==> LineOk(lines[k], min, blocks)
    }

    ghost predicate QueueOk()
      reads this
    {
      && data < |lines| && data !in queue
      && (forall k :: 0 <= k < |queue| ==> queue[k] < |lines| && lines[queue[k]].free != {})
      && (forall k, m :: 0 <= k < m < |queue| ==> queue[k] != queue[m])
    }

    ghost predicate Valid()
      reads this
    {
      min > 0 && LinesOk() && QueueOk() && forall a :: pos(a) < blocks
    }

    ghost function Units(): nat
      reads this
      requires QueueOk()
    {
      |lines[data].free| + UnitsIn(lines, queue)
    }

    /**
     pblk_alloc_page: the next zero bit of map_bitmap starts an unmapped unit, which does not reach
     into the closing metadata, so that none of the warnings of the source can appear.
     */
    method AllocPage() returns (addr: nat, line: Line)
      requires Valid() && lines[data].free != {}
      ensures NextUnit(lines[data], addr) && lines[data].leftMsecs >= min && line == Allocated(lines[data], min, addr)
      ensures addr + min <= line.emeta && forall a :: InUnit(addr, min, a) ==> a !in lines[data].mapped
    {
      line := lines[data];
      ghost var u :| u in line.free;
      FreeUnits(line.free, u, min);
      assert line.curSec + min <= line.size;
      addr := line.curSec;
      assert InUnit(u, min, u);
      while addr in line.mapped
        invariant line.curSec <= addr <= u && line == lines[data]
        invariant forall a :: line.curSec <= a < addr ==> a in line.mapped
        decreases u - addr
      {
        assert addr != u;
        addr := addr + 1;
      }
      FirstUnmapped(line, min, blocks, addr);
      var bits, cur := line.mapped, addr;
      for i := 0 to min
        invariant cur == addr + i && bits == line.mapped + set a | addr <= a < cur && InUnit(addr, min, a)
      {
        assert InUnit(addr, min, cur) && cur !in bits;
        bits, cur := bits + {cur}, cur + 1;
      }
      line := line.(free := line.free - {addr}, mapped := bits, leftMsecs := line.leftMsecs - min, curSec := cur);
    }

    /** The loop of pblk_map_page_data over the sectors of the unit. */
    method FillUnit(addr: nat, from: Line, off: nat, sentry: nat, valid: nat, ppaList: array<Ppa>, metaList: array<Lba>)
      returns (line: Line)
      requires min > 0 && valid <= min && off + min <= ppaList.Length == metaList.Length
      modifies this`ctx, ppaList, metaList
      ensures ppaList[..] == Splice(old(ppaList[..]), off, UnitPpas(data, addr, min))
      ensures metaList[..] == Splice(old(metaList[..]), off, UnitLbas(lba, sentry, valid, min))
      ensures ctx == WithCtx(old(ctx), sentry, UnitPpas(data, addr, valid))
      ensures line == from.(nrValid := from.nrValid + valid,
                            lbas := WithLbas(from.lbas, addr, UnitLbas(lba, sentry, valid, min)))
    {
      hide WithCtx, WithLbas, Splice, UnitPpas, UnitLbas, SectorLba;
      line := from;
      var i := 0;
      NothingAdded(ctx, from.lbas, sentry, addr);
      SpliceNothing(ppaList[..], off);
      SpliceNothing(metaList[..], off);
      while i < min
        invariant 0 <= i <= min
        invariant ppaList[..] == Splice(old(ppaList[..]), off, UnitPpas(data, addr, i))
        invariant metaList[..] == Splice(old(metaList[..]), off, UnitLbas(lba, sentry, valid, i))
        invariant ctx == WithCtx(old(ctx), sentry, UnitPpas(data, addr, Min(i, valid)))
        invariant line == from.(nrValid := from.nrValid + Min(i, valid),
                                lbas := WithLbas(from.lbas, addr, UnitLbas(lba, sentry, valid, i)))
      {
        var ppa, l := Ppa(data, addr + i), SectorLba(lba, i, sentry, valid);
        SpliceMore(old(ppaList[..]), off, UnitPpas(data, addr, i), ppa);
        SpliceMore(old(metaList[..]), off, UnitLbas(lba, sentry, valid, i), l);
        UnitMore(data, addr, i);
        UnitLbasMore(lba, sentry, valid, i);
        WithLbasMore(from.lbas, addr, UnitLbas(lba, sentry, valid, i), l);
        ppaList[off + i] := ppa;
        if i < valid {
          WithCtxMore(old(ctx), sentry, UnitPpas(data, addr, i), ppa);
          ctx := ctx[sentry + i := ppa];
          line := line.(nrValid := line.nrValid + 1);
        }
        metaList[off + i] := l;
        line := line.(lbas := line.lbas[addr + i := l]);
        i := i + 1;
      }
    }

    ghost function View(ppaList: array<Ppa>, metaList: array<Lba>): Snap
      reads this, ppaList, metaList
    {
      Snap(lines, ctx, ppaList[..], metaList[..])
    }

    /** pblk_line_erase: the blocks of the line that have not been erased yet. */
    method EraseLine(d: nat)
      requires Valid() && d < |lines|
      modifies this`lines
      ensures Valid() && |lines| == |old(lines)| && lines == old(lines)[d := lines[d]]
              && SameButErase(old(lines)[d], lines[d]) && lines[d].leftEblks == 0
    {
      var l := lines[d];
      var b := 0;
      while b < blocks
        invariant 0 <= b <= blocks && SameButErase(lines[d], l) && LineOk(l, min, blocks)
        invariant forall c :: 0 <= c < b ==> c in l.erased
      {
        if b !in l.erased {
          l := l.(erased := l.erased + {b}, leftEblks := l.leftEblks - 1);
        }
        b := b + 1;
      }
      AllErased(l.erased, blocks);
      lines := lines[d := l];
    }

    /** pblk_line_replace_data, when the data line is full. */
    method ReplaceData()
      requires Valid() && lines[data].free == {}
      modifies this`lines, this`data, this`queue
      ensures Valid() && |lines| == |old(lines)| && Units() == old(Units())
      ensures forall k ::
                0 <= k < |lines| ==>
                  SameButErase(old(lines)[k], lines[k]) && (k in queue || k == old(data) ==> lines[k] == old(lines)[k])
      ensures if old(queue) == [] then queue == [] && data == old(data) && lines == old(lines)
              else queue == old(queue)[1..] && data == old(queue)[0] && lines[data].leftEblks == 0
      ensures SumValid(lines) == old(SumValid(lines)) && (lines[data].free == {} ==> queue == [])
    {
      if queue == [] {
        return;
      }
      ghost var was := lines;
      data := queue[0];
      queue := queue[1..];
      EraseLine(data);
      UnitsSame(was, lines, queue);
      SumValidUpdate(was, data, lines[data]);
    }

    /** pblk_map_page_data up to the check for a full line. */
    method FillPage(off: nat, sentry: nat, secs: nat, ppaList: array<Ppa>, metaList: array<Lba>)
      returns (ghost addr: nat)
      requires Valid() && lines[data].free != {} && secs <= min && off + min <= ppaList.Length == metaList.Length
      modifies this`lines, this`ctx, ppaList, metaList
      ensures UnitStep(old(View(ppaList, metaList)), View(ppaList, metaList), min, lba, data, addr, off, sentry, secs)
      ensures lines == old(lines)[data := lines[data]]
    {
      hide WithCtx, WithLbas, Splice;
      var a, line := AllocPage();
      addr := a;
      line := FillUnit(a, line, off, sentry + off, secs, ppaList, metaList);
      lines := lines[data := line];
    }

    /** A unit less to map, `secs` more valid sectors, and everything in order. */
    lemma {:induction false} FilledValid(was: seq<Line>, addr: nat, lbas: seq<Lba>, secs: nat)
      requires min > 0 && data < |was| && NextUnit(was[data], addr) && was[data].leftMsecs >= min && data !in queue
      requires forall k :: 0 <= k < |was| ==> LineOk(was[k], min, blocks)
      requires forall k :: 0 <= k < |queue| ==> queue[k] < |was|
      ensures var now := was[data := Filled(was[data], min, addr, lbas, secs)];
              && (forall k :: 0 <= k < |was| ==> LineOk(now[k], min, blocks))
              && UnitsIn(now, queue) == UnitsIn(was, queue) && |now[data].free| == |was[data].free| - 1
              && SumValid(now) == SumValid(was) + secs
    {
      var now := was[data := Filled(was[data], min, addr, lbas, secs)];
      AllocatedOk(was[data], min, blocks, addr);
      SumValidUpdate(was, data, now[data]);
      UnitsSame(was, now, queue);
    }

    /** pblk_map_page_data for the unit of the request at `off`. */
    method MapPageData(off: nat, sentry: nat, secs: nat, ppaList: array<Ppa>, metaList: array<Lba>)
      returns (ghost addr: nat)
      requires Valid() && lines[data].free != {} && secs <= min && off + min <= ppaList.Length == metaList.Length
      modifies this, ppaList, metaList
      ensures Valid() && Units() == old(Units()) - 1 && |lines| == |old(lines)|
      ensures UnitStep(old(View(ppaList, metaList)), View(ppaList, metaList), min, lba, old(data), addr, off, sentry,
                       secs)
      ensures SumValid(lines) == old(SumValid(lines)) + secs && (lines[data].free == {} ==> queue == [])
      ensures if old(lines)[old(data)].leftMsecs == min && old(queue) != [] then
                queue == old(queue)[1..] && data == old(queue)[0] && lines[data].leftEblks == 0
              else queue == old(queue) && data == old(data)
      ensures forall k :: 0 <= k < |lines| && k in queue ==> lines[k] == old(lines)[k]
    {
      hide WithCtx, WithLbas, Splice, SumValid, UnitsIn, LineOk;
      addr := FillPage(off, sentry, secs, ppaList, metaList);
      FilledValid(old(lines), addr, UnitLbas(lba, sentry + off, secs, min), secs);
      LineFull(lines[data], min, blocks);
      if lines[data].leftMsecs == 0 {
        ReplaceData();
      }
    }

    /** The request is mapped up to sector i, and there is room for the rest. */
    ghost predicate Mapping(was: seq<Line>, sentry: nat, valid: nat, i: nat, ppaList: array<Ppa>, metaList: array<Lba>)
      reads this, ppaList, metaList
    {
      && Valid() && ppaList.Length == metaList.Length && i % min == 0 && i <= ppaList.Length
      && ppaList.Length % min == 0 && valid <= ppaList.Length < valid + min
      && DoneUpTo(was, View(ppaList, metaList), min, lba, sentry, valid, i)
      && SumValid(lines) == SumValid(was) + Min(i, valid)
      && (lines[data].free == {} ==> queue == []) && Units() * min >= ppaList.Length - i
    }

    /** One round of the loops of pblk_map_rq and pblk_map_erase_rq. */
    method MapUnit(i: nat, sentry: nat, valid: nat, ppaList: array<Ppa>, metaList: array<Lba>, ghost was: seq<Line>)
      requires Mapping(was, sentry, valid, i, ppaList, metaList) && i < ppaList.Length
      modifies this, ppaList, metaList
      ensures min > 0 && i + min <= ppaList.Length && Mapping(was, sentry, valid, i + min, ppaList, metaList)
              && |lines| == |old(lines)|
      ensures queue == old(queue) || (old(queue) != [] && queue == old(queue)[1..])
      ensures forall k :: 0 <= k < |lines| && k in queue ==> lines[k] == old(lines)[k]
    {
      hide DoneUpTo, UnitStep, SumValid, UnitsIn, LineOk;
      NextMultiple(i, ppaList.Length, min);
      RoomLeft(lines, data, queue, min, ppaList.Length - i);
      MapSecsRight(i, min, valid);
      OneLess(Units() - 1, min, ppaList.Length - i);
      var secs := if i + min > valid then valid % min else min;
      assert secs == DataSecs(i, min, valid);
      ghost var before, d := View(ppaList, metaList), data;
      ghost var addr := MapPageData(i, sentry, secs, ppaList, metaList);
      UnitDone(was, before, View(ppaList, metaList), min, blocks, lba, d, addr, sentry, valid, i);
      Shift(i, min);
    }

    /** pblk_map_rq from sector `off` on. */
    method MapRq(off: nat, sentry: nat, valid: nat, ppaList: array<Ppa>, metaList: array<Lba>, ghost was: seq<Line>)
      requires off <= ppaList.Length && Mapping(was, sentry, valid, off, ppaList, metaList)
      modifies this, ppaList, metaList
      ensures Mapping(was, sentry, valid, ppaList.Length, ppaList, metaList)
      ensures IsSuffix(queue, old(queue)) && |lines| == |old(lines)|
      ensures forall k :: 0 <= k < |lines| && k in queue ==> lines[k] == old(lines)[k]
    {
      hide Mapping;
      var i := off;
      while i < ppaList.Length
        invariant i <= ppaList.Length && Mapping(was, sentry, valid, i, ppaList, metaList)
        invariant IsSuffix(queue, old(queue)) && |lines| == |old(lines)|
        invariant forall k :: 0 <= k < |lines| && k in queue ==> lines[k] == old(lines)[k]
        decreases ppaList.Length - i
      {
        ghost var before := queue;
        MapUnit(i, sentry, valid, ppaList, metaList, was);
        SuffixStep(queue, before, old(queue));
        i := i + min;
      }
    }

    /** set_bit in the erase bitmap of line e and one block less to erase. */
    method MarkErased(e: nat, b: nat, sentry: nat, valid: nat, i: nat, ppaList: array<Ppa>, metaList: array<Lba>,
                      ghost was: seq<Line>)
      requires Mapping(was, sentry, valid, i, ppaList, metaList) && e < |lines| && b < blocks && b !in lines[e].erased
      modifies this`lines
      ensures Mapping(was, sentry, valid, i, ppaList, metaList)
      ensures lines == old(lines)[e := old(lines)[e].(erased := old(lines)[e].erased + {b},
                                                      leftEblks := old(lines)[e].leftEblks - 1)]
    {
      hide DoneUpTo, SumValid, UnitsIn;
      ghost var before, s := lines, View(ppaList, metaList);
      var l := lines[e].(erased := lines[e].erased + {b}, leftEblks := lines[e].leftEblks - 1);
      lines := lines[e := l];
      SumValidUpdate(before, e, l);
      UnitsSame(before, lines, queue);
      EraseKeepsDone(was, s, View(ppaList, metaList), min, lba, sentry, valid, i);
    }

    /**
     pblk_map_erase_rq for a request of ppaList.Length sectors, the valid ones rounded up to whole units.
     Every sector is mapped once, and at most one block is picked for erasing: one of the line that was
     next in turn, not picked before.
     */
    method MapEraseRq(sentry: nat, valid: nat, ppaList: array<Ppa>, metaList: array<Lba>)
      returns (erase: Option<(nat, nat)>)
      requires Valid() && ppaList.Length == metaList.Length && ppaList.Length % min == 0
               && valid <= ppaList.Length < valid + min
      requires (lines[data].free == {} ==> queue == []) && Units() * min >= ppaList.Length
      modifies this, ppaList, metaList
      ensures Mapping(old(lines), sentry, valid, ppaList.Length, ppaList, metaList)
      ensures IsSuffix(queue, old(queue)) && |lines| == |old(lines)|
      ensures ErasedAtMost(old(lines), lines, old(queue), queue, blocks, erase)
    {
      hide Mapping, Valid;
      MappingStarts(sentry, valid, ppaList, metaList);
      ghost var was := lines;
      var i := 0;
      while i < ppaList.Length
        invariant i <= ppaList.Length && Mapping(was, sentry, valid, i, ppaList, metaList)
        invariant IsSuffix(queue, old(queue)) && |lines| == |was|
        invariant forall k :: 0 <= k < |lines| && k in queue ==> lines[k] == was[k]
        decreases ppaList.Length - i
      {
        ghost var before := queue;
        MapUnit(i, sentry, valid, ppaList, metaList, was);
        SuffixStep(queue, before, old(queue));
        MappingFacts(was, sentry, valid, i + min, ppaList, metaList);
        var lun := pos(ppaList[i].addr);
        if queue == [] {
          MapRq(i + min, sentry, valid, ppaList, metaList, was);
          return None;
        }
        var e := queue[0];
        if lun !in lines[e].erased {
          erase := PickAndFinish(e, lun, i + min, sentry, valid, ppaList, metaList, was, old(queue));
          return;
        }
        i := i + min;
      }
      erase := EraseBadBlock(sentry, valid, ppaList, metaList, was, old(queue));
    }

    /** A block has been found: mark it and map the rest of the request. */
    method PickAndFinish(e: nat, b: nat, off: nat, sentry: nat, valid: nat, ppaList: array<Ppa>, metaList: array<Lba>,
                         ghost was: seq<Line>, ghost wasQueue: seq<nat>) returns (erase: Option<(nat, nat)>)
      requires off <= ppaList.Length && Mapping(was, sentry, valid, off, ppaList, metaList)
      requires queue != [] && e == queue[0] && e < |lines| == |was| && b < blocks && b !in lines[e].erased
      requires IsSuffix(queue, wasQueue) && forall k :: 0 <= k < |lines| && k in queue ==> lines[k] == was[k]
      modifies this, ppaList, metaList
      ensures Mapping(was, sentry, valid, ppaList.Length, ppaList, metaList)
      ensures IsSuffix(queue, wasQueue) && |lines| == |was| && erase == Some((e, b))
      ensures ErasedAtMost(was, lines, wasQueue, queue, blocks, erase)
    {
      hide Mapping, IsSuffix, NextInTurn;
      MarkErased(e, b, sentry, valid, off, ppaList, metaList, was);
      ghost var marked, middle := lines, queue;
      MapRq(off, sentry, valid, ppaList, metaList, was);
      SuffixTransitive(queue, middle, wasQueue);
      HeadWasNext(queue, middle, wasQueue);
      erase := Some((e, b));
    }

    /** The end of pblk_map_erase_rq: a block that is bad in the data line but might not be in the next one. */
    method EraseBadBlock(sentry: nat, valid: nat, ppaList: array<Ppa>, metaList: array<Lba>, ghost was: seq<Line>,
                         ghost wasQueue: seq<nat>)
      returns (erase: Option<(nat, nat)>)
      requires Mapping(was, sentry, valid, ppaList.Length, ppaList, metaList) && |lines| == |was|
      requires IsSuffix(queue, wasQueue) && forall k :: 0 <= k < |lines| && k in queue ==> lines[k] == was[k]
      modifies this, ppaList, metaList
      ensures Mapping(was, sentry, valid, ppaList.Length, ppaList, metaList)
      ensures IsSuffix(queue, wasQueue) && |lines| == |was| && queue == old(queue)
      ensures ErasedAtMost(was, lines, wasQueue, queue, blocks, erase)
      ensures erase.None? ==> lines == old(lines)
      ensures erase.Some? ==> erase.value.1 in old(lines)[old(data)].bad
      ensures erase.None? && queue != [] ==> forall b :: b in lines[data].bad ==> b in lines[queue[0]].erased
    {
      hide Mapping, IsSuffix, NextInTurn;
      MappingFacts(was, sentry, valid, ppaList.Length, ppaList, metaList);
      erase := None;
      if queue == [] {
        return;
      }
      var e, bit := queue[0], 0;
      while bit < blocks
        invariant 0 <= bit <= blocks && lines == old(lines) && queue == old(queue) && data == old(data)
        invariant Mapping(was, sentry, valid, ppaList.Length, ppaList, metaList)
        invariant forall b :: 0 <= b < bit && b in lines[data].bad ==> b in lines[e].erased
      {
        if bit in lines[data].bad && bit !in lines[e].erased {
          HeadIsNext(queue, wasQueue);
          MarkErased(e, bit, sentry, valid, ppaList.Length, ppaList, metaList, was);
          return Some((e, bit));
        }
        bit := bit + 1;
      }
    }

    lemma {:induction false} MappingFacts(was: seq<Line>, sentry: nat, valid: nat, i: nat, ppaList: array<Ppa>,
                                          metaList: array<Lba>)
      requires Mapping(was, sentry, valid, i, ppaList, metaList)
      ensures |lines| == |was| && data < |lines| && (forall k :: 0 <= k < |queue| ==> queue[k] < |lines|)
      ensures (forall b :: b in lines[data].bad ==> b < blocks) && forall a :: pos(a) < blocks
    {
    }

    lemma {:induction false} MappingStarts(sentry: nat, valid: nat, ppaList: array<Ppa>, metaList: array<Lba>)
      requires Valid() && ppaList.Length == metaList.Length && ppaList.Length % min == 0
               && valid <= ppaList.Length < valid + min
      requires (lines[data].free == {} ==> queue == []) && Units() * min >= ppaList.Length
      ensures Mapping(lines, sentry, valid, 0, ppaList, metaList)
    {
    }
  }

  /** Line e is at the head of the queue, or lines up to it have left the queue since. */
  ghost predicate NextInTurn(wasQueue: seq<nat>, queue: seq<nat>, e: nat) {
    exists j :: 0 <= j < |wasQueue| && wasQueue[j] == e && j + |queue| <= |wasQueue|
  }

  lemma {:induction false} HeadWasNext(queue: seq<nat>, middle: seq<nat>, wasQueue: seq<nat>)
    requires IsSuffix(queue, middle) && IsSuffix(middle, wasQueue) && middle != []
    ensures NextInTurn(wasQueue, queue, middle[0])
  {
    assert wasQueue[|wasQueue| - |middle|] == middle[0];
  }

  lemma {:induction false} HeadIsNext(queue: seq<nat>, wasQueue: seq<nat>)
    requires IsSuffix(queue, wasQueue) && queue != []
    ensures NextInTurn(wasQueue, queue, queue[0])
  {
    HeadWasNext(queue, queue, wasQueue);
  }

  /**
   The lines that are still waiting have the erase state they had, but for the picked block, which was
   not marked before and belongs to the line that was next in turn when it was picked.
   */
  ghost predicate ErasedAtMost(was: seq<Line>, now: seq<Line>, wasQueue: seq<nat>, queue: seq<nat>, blocks: nat,
                               erase: Option<(nat, nat)>)
    requires |now| == |was|
  {
    && (erase.Some? ==> var (e, b) := erase.value;
          && NextInTurn(wasQueue, queue, e) && e < |was| && b < blocks && b !in was[e].erased
          && (e in queue ==> now[e].erased == was[e].erased + {b} && now[e].leftEblks == was[e].leftEblks - 1))
    && (forall k :: 0 <= k < |was| && k in queue && (erase.None? || k != erase.value.0) ==> now[k] == was[k])
  }

  lemma {:induction false} SuffixTransitive(p: seq<nat>, q: seq<nat>, r: seq<nat>)
    requires IsSuffix(p, q) && IsSuffix(q, r)
    ensures IsSuffix(p, r) && (forall k :: k in p ==> k in q) && (forall k :: k in q ==> k in r)
  {
  }

  lemma {:induction false} EraseKeepsDone(was: seq<Line>, a: Snap, b: Snap, min: nat, lba: nat -> Lba, sentry: nat,
                                          valid: nat, i: nat)
    requires min > 0 && DoneUpTo(was, a, min, lba, sentry, valid, i)
    requires b == a.(lines := b.lines) && |b.lines| == |a.lines|
             && forall k :: 0 <= k < |a.lines| ==> SameButErase(a.lines[k], b.lines[k])
    ensures DoneUpTo(was, b, min, lba, sentry, valid, i)
  {
    forall j | 0 <= j < i
      ensures SectorDone(was, b, lba, sentry, valid, j)
    {
      assert SectorDone(was, a, lba, sentry, valid, j);
    }
  }

  /** The LBA recorded for the i-th sector of a unit: the write buffer entry's, or none for padding. */
  function SectorLba(lba: nat -> Lba, i: nat, sentry: nat, valid: nat): Lba {
    if i < valid then lba(sentry + i) else ADDR_EMPTY
  }

  /** The first n sectors of a unit and what is recorded for them. */
  function UnitPpas(line: nat, addr: nat, n: nat): (s: seq<Ppa>)
    ensures |s| == n && forall i :: 0 <= i < n ==> s[i] == Ppa(line, addr + i)
  {
    seq(n, i requires 0 <= i => Ppa(line, addr + i))
  }

  function UnitLbas(lba: nat -> Lba, sentry: nat, valid: nat, n: nat): (s: seq<Lba>)
    ensures |s| == n && forall i :: 0 <= i < n ==> s[i] == SectorLba(lba, i, sentry, valid)
  {
    seq(n, i requires 0 <= i => SectorLba(lba, i, sentry, valid))
  }

  lemma {:induction false} UnitMore(line: nat, addr: nat, n: nat)
    ensures UnitPpas(line, addr, n + 1) == UnitPpas(line, addr, n) + [Ppa(line, addr + n)]
  {
  }

  lemma {:induction false} UnitLbasMore(lba: nat -> Lba, sentry: nat, valid: nat, n: nat)
    ensures UnitLbas(lba, sentry, valid, n + 1) == UnitLbas(lba, sentry, valid, n) + [SectorLba(lba, n, sentry, valid)]
  {
  }

  /** s with t put in place from `off` on. */
  function Splice<T>(s: seq<T>, off: nat, t: seq<T>): (r: seq<T>)
    requires off + |t| <= |s|
    ensures |r| == |s| && forall k :: 0 <= k < |s| ==> r[k] == if off <= k < off + |t| then t[k - off] else s[k]
  {
    s[..off] + t + s[off + |t|..]
  }

  lemma {:induction false} SpliceNothing<T>(s: seq<T>, off: nat)
    requires off <= |s|
    ensures Splice(s, off, []) == s
  {
  }

  lemma {:induction false} SpliceMore<T>(s: seq<T>, off: nat, t: seq<T>, x: T)
    requires off + |t| < |s|
    ensures Splice(s, off, t)[off + |t| := x] == Splice(s, off, t + [x])
  {
  }

  /** Entries of the write buffer, from `sentry` on, get their physical addresses. */
  function WithCtx(ctx: map<nat, Ppa>, sentry: nat, ppas: seq<Ppa>): map<nat, Ppa>
    decreases |ppas|
  {
    if ppas == [] then ctx else WithCtx(ctx, sentry, ppas[..|ppas| - 1])[sentry + |ppas| - 1 := ppas[|ppas| - 1]]
  }

  lemma {:induction false} WithCtxMore(ctx: map<nat, Ppa>, sentry: nat, ppas: seq<Ppa>, p: Ppa)
    ensures WithCtx(ctx, sentry, ppas + [p]) == WithCtx(ctx, sentry, ppas)[sentry + |ppas| := p]
  {
    assert (ppas + [p])[..|ppas|] == ppas;
  }

  lemma {:induction false} WithCtxAt(ctx: map<nat, Ppa>, sentry: nat, ppas: seq<Ppa>, e: nat)
    ensures e in WithCtx(ctx, sentry, ppas) <==> e in ctx || sentry <= e < sentry + |ppas|
    ensures sentry <= e < sentry + |ppas| ==> WithCtx(ctx, sentry, ppas)[e] == ppas[e - sentry]
    ensures e in ctx && !(sentry <= e < sentry + |ppas|) ==> WithCtx(ctx, sentry, ppas)[e] == ctx[e]
    decreases |ppas|
  {
    if ppas != [] {
      WithCtxAt(ctx, sentry, ppas[..|ppas| - 1], e);
    }
  }

  /** The lba_list with the entries of a unit. */
  function WithLbas(lbas: map<nat, Lba>, addr: nat, t: seq<Lba>): map<nat, Lba>
    decreases |t|
  {
    if t == [] then lbas else WithLbas(lbas, addr, t[..|t| - 1])[addr + |t| - 1 := t[|t| - 1]]
  }

  lemma {:induction false} NothingAdded(ctx: map<nat, Ppa>, lbas: map<nat, Lba>, sentry: nat, addr: nat)
    ensures WithCtx(ctx, sentry, []) == ctx && WithLbas(lbas, addr, []) == lbas
  {
  }

  lemma {:induction false} WithLbasMore(lbas: map<nat, Lba>, addr: nat, t: seq<Lba>, l: Lba)
    ensures WithLbas(lbas, addr, t + [l]) == WithLbas(lbas, addr, t)[addr + |t| := l]
  {
    assert (t + [l])[..|t|] == t;
  }

  lemma {:induction false} WithLbasAt(lbas: map<nat, Lba>, addr: nat, t: seq<Lba>, a: nat)
    ensures a in WithLbas(lbas, addr, t) <==> a in lbas || addr <= a < addr + |t|
    ensures addr <= a < addr + |t| ==> WithLbas(lbas, addr, t)[a] == t[a - addr]
    ensures a in lbas && !(addr <= a < addr + |t|) ==> WithLbas(lbas, addr, t)[a] == lbas[a]
    decreases |t|
  {
    if t != [] {
      WithLbasAt(lbas, addr, t[..|t| - 1], a);
    }
  }

  /** A line after pblk_alloc_page. */
  function Allocated(l: Line, min: nat, addr: nat): Line
    requires l.leftMsecs >= min
  {
    l.(free := l.free - {addr}, mapped := l.mapped + (set a | addr <= a < addr + min && InUnit(addr, min, a)),
       leftMsecs := l.leftMsecs - min, curSec := addr + min)
  }

  /** The first of the free units. */
  ghost predicate NextUnit(l: Line, addr: nat) {
    addr in l.free && forall u :: u in l.free ==> addr <= u
  }

  /** The first unmapped sector is the first of the first free unit. */
  lemma {:induction false} FirstUnmapped(l: Line, min: nat, blocks: nat, addr: nat)
    requires min > 0 && LineOk(l, min, blocks) && l.curSec <= addr < l.emeta && addr !in l.mapped
    requires forall a :: l.curSec <= a < addr ==> a in l.mapped
    ensures NextUnit(l, addr)
  {
    assert InFree(l.free, min, addr);
    var v :| v in l.free && InUnit(v, min, addr);
    assert InUnit(v, min, v);
    forall u | u in l.free
      ensures addr <= u
    {
      assert InUnit(u, min, u);
    }
  }

  lemma {:induction false} AllocatedPages(l: Line, min: nat, addr: nat)
    requires min > 0 && UnitsApart(l.free, min) && PagesOk(l, min) && NextUnit(l, addr) && l.leftMsecs >= min
    ensures PagesOk(Allocated(l, min, addr), min)
  {
    var r := Allocated(l, min, addr);
    forall a | r.curSec <= a < r.emeta && a !in r.mapped
      ensures InFree(r.free, min, a)
    {
      assert InFree(l.free, min, a);
      var u :| u in l.free && InUnit(u, min, a);
      assert u in r.free;
    }
  }

  lemma {:induction false} AllocatedOk(l: Line, min: nat, blocks: nat, addr: nat)
    requires min > 0 && LineOk(l, min, blocks) && NextUnit(l, addr) && l.leftMsecs >= min
    ensures LineOk(Allocated(l, min, addr), min, blocks)
    ensures forall a :: InUnit(addr, min, a) ==> a !in l.mapped && a in Allocated(l, min, addr).mapped
  {
    var r := Allocated(l, min, addr);
    AllocatedPages(l, min, addr);
    assert |r.free| == |l.free| - 1;
    assert min * |l.free| == min * |r.free| + min;
  }

  predicate IsSuffix(q: seq<nat>, r: seq<nat>) {
    |q| <= |r| && q == r[|r| - |q|..]
  }

  lemma {:induction false} OneLess(u: int, min: nat, n: int)
    requires (u + 1) * min >= n
    ensures u * min >= n - min
  {
  }

  lemma {:induction false} MapSecsRight(i: nat, min: nat, valid: nat)
    requires min > 0 && i % min == 0 && i < valid
    ensures MapSecs(i, min, valid) == DataSecs(i, min, valid)
  {
    MapSecsIff(i / min, min, valid);
    assert (i / min) * min == i;
  }

  lemma {:induction false} SuffixStep(p: seq<nat>, q: seq<nat>, r: seq<nat>)
    requires IsSuffix(q, r) && (p == q || (q != [] && p == q[1..]))
    ensures IsSuffix(p, r) && forall k :: k in p ==> k in q
  {
  }

  lemma {:induction false} NextMultiple(i: nat, n: nat, min: nat)
    requires min > 0 && i % min == 0 && n % min == 0 && i < n
    ensures i + min <= n
  {
    if n < i + min {
      DivUnique(n, min, i / min, n - i);
    }
  }

  /** If units are left, the data line has one. */
  lemma {:induction false} RoomLeft(lines: seq<Line>, data: nat, queue: seq<nat>, min: nat, n: nat)
    requires data < |lines| && (forall k :: 0 <= k < |queue| ==> queue[k] < |lines|)
             && (lines[data].free == {} ==> queue == [])
    requires n > 0 && (|lines[data].free| + UnitsIn(lines, queue)) * min >= n
    ensures lines[data].free != {}
  {
  }

  /** pblk_line_is_full */
  lemma {:induction false} LineFull(l: Line, min: nat, blocks: nat)
    requires min > 0 && LineOk(l, min, blocks)
    ensures l.leftMsecs == 0 <==> l.free == {}
  {
    if l.leftMsecs == 0 {
      NoneLeft(l.free, min);
    }
  }

  lemma {:induction false} NoneLeft(free: set<nat>, min: nat)
    requires min > 0 && min * |free| == 0
    ensures free == {}
  {
    if free != {} {
      var u :| u in free;
      FreeUnits(free, u, min);
    }
  }

  lemma {:induction false} AllErased(erased: set<nat>, blocks: nat)
    requires (forall b :: 0 <= b < blocks ==> b in erased) && forall b :: b in erased ==> b < blocks
    ensures |erased| == blocks
    decreases blocks
  {
    if blocks > 0 {
      AllErased(erased - {blocks - 1}, blocks - 1);
    } else {
      assert erased == {};
    }
  }

  lemma {:induction false} FreeUnits(free: set<nat>, addr: nat, min: nat)
    requires addr in free
    ensures min * |free| >= min
  {
    assert |free| >= 1;
  }

  // ---------------------------------------------------------------- one unit and a whole request

  /** Everything a request writes. */
  datatype Snap = Snap(lines: seq<Line>, ctx: map<nat, Ppa>, ppas: seq<Ppa>, metas: seq<Lba>)

  /** Only the erase state of a line changes. */
  predicate SameButErase(l: Line, r: Line) {
    r == l.(erased := r.erased, leftEblks := r.leftEblks)
  }

  /** pblk_map_page_data for the unit of the request at `off`: line d gets it at addr. */
  ghost predicate UnitStep(a: Snap, b: Snap, min: nat, lba: nat -> Lba, d: nat, addr: nat, off: nat, sentry: nat,
                           secs: nat) {
    && d < |a.lines| == |b.lines| && NextUnit(a.lines[d], addr) && a.lines[d].leftMsecs >= min
    && off + min <= |a.ppas| && off + min <= |a.metas| && secs <= min
    && b.ppas == Splice(a.ppas, off, UnitPpas(d, addr, min))
    && b.metas == Splice(a.metas, off, UnitLbas(lba, sentry + off, secs, min))
    && b.ctx == WithCtx(a.ctx, sentry + off, UnitPpas(d, addr, secs))
    && b.lines[d] == Filled(a.lines[d], min, addr, UnitLbas(lba, sentry + off, secs, min), secs)
    && (forall k :: 0 <= k < |a.lines| && k != d ==> SameButErase(a.lines[k], b.lines[k]))
  }

  /** A line with one more unit of which `secs` sectors are data. */
  function Filled(l: Line, min: nat, addr: nat, lbas: seq<Lba>, secs: nat): Line
    requires l.leftMsecs >= min
  {
    var r := Allocated(l, min, addr);
    r.(nrValid := r.nrValid + secs, lbas := WithLbas(r.lbas, addr, lbas))
  }

  /**
   Sector j of the request is mapped: its address was free before the request and is taken now, the
   line and the request record the same LBA, that of the write buffer entry or none for padding, and
   the entry knows the address.
   */
  ghost predicate SectorDone(was: seq<Line>, s: Snap, lba: nat -> Lba, sentry: nat, valid: nat, j: nat) {
    && j < |s.ppas| && j < |s.metas|
    && var p := s.ppas[j];
    && p.line < |s.lines| && p.line < |was|
    && p.addr !in was[p.line].mapped && p.addr in s.lines[p.line].mapped
    && p.addr in s.lines[p.line].lbas && s.lines[p.line].lbas[p.addr] == s.metas[j]
    && s.metas[j] == SectorLba(lba, j, sentry, valid)
    && (j < valid ==> sentry + j in s.ctx && s.ctx[sentry + j] == p)
  }

  /** The first i sectors are mapped, all to different addresses, consecutive within a unit. */
  ghost predicate DoneUpTo(was: seq<Line>, s: Snap, min: nat, lba: nat -> Lba, sentry: nat, valid: nat, i: nat)
    requires min > 0
  {
    && i <= |s.ppas| && i <= |s.metas| && |was| == |s.lines|
    && (forall k :: 0 <= k < |was| ==> was[k].mapped <= s.lines[k].mapped)
    && (forall j :: 0 <= j < i ==> SectorDone(was, s, lba, sentry, valid, j))
    && (forall j, k :: 0 <= j < k < i ==> s.ppas[j] != s.ppas[k])
    && (forall j :: 0 < j < i && j % min != 0 ==> Consecutive(s.ppas[j - 1], s.ppas[j]))
  }

  predicate Consecutive(p: Ppa, q: Ppa) {
    q == Ppa(p.line, p.addr + 1)
  }

  /** A sector of the new unit. */
  lemma {:induction false} NewSector(was: seq<Line>, a: Snap, b: Snap, min: nat, blocks: nat, lba: nat -> Lba, d: nat,
                                     addr: nat, sentry: nat, valid: nat, i: nat, j: nat)
    requires min > 0 && UnitStep(a, b, min, lba, d, addr, i, sentry, DataSecs(i, min, valid)) && i <= j < i + min
    requires |was| == |a.lines| && LineOk(a.lines[d], min, blocks) && was[d].mapped <= a.lines[d].mapped
    ensures SectorDone(was, b, lba, sentry, valid, j) && b.ppas[j] == Ppa(d, addr + (j - i))
            && b.ppas[j].addr !in a.lines[d].mapped
  {
    hide WithLbas, WithCtx, LineOk, NextUnit;
    var secs := DataSecs(i, min, valid);
    AllocatedOk(a.lines[d], min, blocks, addr);
    assert InUnit(addr, min, addr + (j - i));
    WithLbasAt(Allocated(a.lines[d], min, addr).lbas, addr, UnitLbas(lba, sentry + i, secs, min), addr + (j - i));
    WithCtxAt(a.ctx, sentry + i, UnitPpas(d, addr, secs), sentry + j);
    assert sentry + i + (j - i) == sentry + j;
  }

  /** A sector mapped earlier stays as it is. */
  lemma {:induction false} OldSector(was: seq<Line>, a: Snap, b: Snap, min: nat, blocks: nat, lba: nat -> Lba, d: nat,
                                     addr: nat, sentry: nat, valid: nat, i: nat, j: nat)
    requires min > 0 && UnitStep(a, b, min, lba, d, addr, i, sentry, DataSecs(i, min, valid)) && j < i
    requires |was| == |a.lines| && LineOk(a.lines[d], min, blocks) && SectorDone(was, a, lba, sentry, valid, j)
    ensures SectorDone(was, b, lba, sentry, valid, j) && b.ppas[j] == a.ppas[j]
  {
    var secs := DataSecs(i, min, valid);
    var p := a.ppas[j];
    AllocatedOk(a.lines[d], min, blocks, addr);
    if p.line == d {
      assert !InUnit(addr, min, p.addr);
      WithLbasAt(Allocated(a.lines[d], min, addr).lbas, addr, UnitLbas(lba, sentry + i, secs, min), p.addr);
    }
    WithCtxAt(a.ctx, sentry + i, UnitPpas(d, addr, secs), sentry + j);
  }

  lemma {:induction false} UnitDone(was: seq<Line>, a: Snap, b: Snap, min: nat, blocks: nat, lba: nat -> Lba, d: nat,
                                    addr: nat, sentry: nat, valid: nat, i: nat)
    requires min > 0 && i % min == 0 && DoneUpTo(was, a, min, lba, sentry, valid, i)
    requires UnitStep(a, b, min, lba, d, addr, i, sentry, DataSecs(i, min, valid)) && LineOk(a.lines[d], min, blocks)
    ensures DoneUpTo(was, b, min, lba, sentry, valid, i + min)
  {
    forall j | 0 <= j < i + min
      ensures SectorDone(was, b, lba, sentry, valid, j)
      ensures if j < i then
                b.ppas[j] == a.ppas[j]
              else b.ppas[j] == Ppa(d, addr + (j - i)) && b.ppas[j].addr !in a.lines[d].mapped
    {
      if j < i {
        assert SectorDone(was, a, lba, sentry, valid, j);
        OldSector(was, a, b, min, blocks, lba, d, addr, sentry, valid, i, j);
      } else {
        NewSector(was, a, b, min, blocks, lba, d, addr, sentry, valid, i, j);
      }
    }
    forall j, k | 0 <= j < k < i + min
      ensures b.ppas[j] != b.ppas[k]
    {
      if j < i && k >= i {
        assert SectorDone(was, a, lba, sentry, valid, j);
      }
    }
    forall j | 0 < j < i + min && j % min != 0
      ensures Consecutive(b.ppas[j - 1], b.ppas[j])
    {
      if j < i {
        assert Consecutive(a.ppas[j - 1], a.ppas[j]);
      }
    }
    AllocatedOk(a.lines[d], min, blocks, addr);
  }
}
