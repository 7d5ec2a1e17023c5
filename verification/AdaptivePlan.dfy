/**
 protocol/uploadplan.go: the adaptive plan, which cuts an image into 1 KB blocks
 below the wall and small ones from it on, and cuts the no-touch zones out.
 */
module AdaptiveUpload {
  import opened Common
  import opened Uploads

  const BLOCK_BYTES := 1024
  const SMALL_CHUNK := 256

  /** A range that must never be written. */
  datatype SkipZone = SkipZone(start: nat, end: nat)

  predicate InZone(z: SkipZone, x: int) { z.start <= x < z.end }

  predicate InZones(zones: seq<SkipZone>, x: int) {
    exists i :: 0 <= i < |zones| && InZone(zones[i], x)
  }

  predicate Touches(z: SkipZone, lo: int, hi: int) { hi > z.start && lo < z.end }

  /** The index of the first zone in the list that [lo, hi) touches, `|zones|` if there is none. */
  function FirstTouched(zones: seq<SkipZone>, lo: int, hi: int, from: nat): (k: nat)
    requires from <= |zones|
    ensures from <= k <= |zones|
    ensures k < |zones| ==> Touches(zones[k], lo, hi)
    ensures forall i :: from <= i < k ==> !Touches(zones[i], lo, hi)
    decreases |zones| - from
  {
    if from == |zones| || Touches(zones[from], lo, hi) then from else FirstTouched(zones, lo, hi, from + 1)
  }

  function ChunkEnd(addr: nat, len: nat, wall: nat, small: nat, off: nat): (end: nat)
    requires off < len && 0 < small
    ensures off < end <= len
  {
    Min(len, off + if addr + off >= wall then small else BLOCK_BYTES)
  }

  /** One round of the planner: the operation it emits, if any, and the offset it goes on from. */
  datatype Round = Round(emitted: seq<ChunkOp>, next: nat)

  function RoundAt(addr: nat, image: seq<Byte>, wall: nat, zones: seq<SkipZone>, small: nat, off: nat): (r: Round)
    requires 0 < small && off < |image|
    ensures off < r.next
  {
    var end := ChunkEnd(addr, |image|, wall, small, off);
    var k := FirstTouched(zones, addr + off, addr + end, 0);
    if k == |zones| then Round([ChunkOp(addr + off, image[off..end])], end)
    else if addr + off >= zones[k].start then Round([], zones[k].end - addr)
    else Round([ChunkOp(addr + off, image[off..zones[k].start - addr])], zones[k].end - addr)
  }

  /** The operations planned from offset `off` on. */
  function PlanFrom(addr: nat, image: seq<Byte>, wall: nat, zones: seq<SkipZone>, small: nat, off: nat): seq<ChunkOp>
    requires 0 < small
    decreases if off < |image| then |image| - off else 0
  {
    if off >= |image| then []
    else
      var r := RoundAt(addr, image, wall, zones, small, off);
      r.emitted + PlanFrom(addr, image, wall, zones, small, r.next)
  }

  function SmallOf(smallChunk: int): nat { if smallChunk <= 0 then SMALL_CHUNK else smallChunk }

  function Plan(addr: nat, image: seq<Byte>, wall: nat, zones: seq<SkipZone>, smallChunk: int): seq<ChunkOp> {
    PlanFrom(addr, image, wall, zones, SmallOf(smallChunk), 0)
  }

  method FindTouched(zones: seq<SkipZone>, lo: int, hi: int) returns (k: nat)
    ensures k == FirstTouched(zones, lo, hi, 0)
  {
    k := 0;
    while k < |zones|
      invariant k <= |zones|
      invariant FirstTouched(zones, lo, hi, 0) == FirstTouched(zones, lo, hi, k)
    {
      if hi > zones[k].start && lo < zones[k].end { return; }
      k := k + 1;
    }
  }

  /** The body of the planner's loop: Go's 32-bit sums do not wrap while the image ends inside the address space. */
  method OneRound(addr: nat, image: seq<Byte>, wall: nat, zones: seq<SkipZone>, small: nat, off: nat)
    returns (emitted: seq<ChunkOp>, next: nat)
    requires 0 < small && off < |image| && addr + |image| < TWO_32
    ensures Round(emitted, next) == RoundAt(addr, image, wall, zones, small, off)
  {
    var abs := addr + off;
    var size := BLOCK_BYTES;
    if abs >= wall { size := small; }
    var end := off + size;
    if end > |image| { end := |image|; }
    var k := FindTouched(zones, abs, addr + end);
    if k < |zones| {
      if abs >= zones[k].start { return [], zones[k].end - addr; }
      return [ChunkOp(abs, image[off..zones[k].start - addr])], zones[k].end - addr;
    }
    return [ChunkOp(abs, image[off..end])], end;
  }

  method PlanAdaptiveUpload(addr: nat, image: seq<Byte>, wall: nat, zones: seq<SkipZone>, smallChunk: int)
    returns (ops: seq<ChunkOp>)
    requires addr + |image| < TWO_32
    ensures ops == Plan(addr, image, wall, zones, smallChunk)
  {
    var small := if smallChunk <= 0 then SMALL_CHUNK else smallChunk;
    ops := [];
    var off := 0;
    while off < |image|
      invariant ops + PlanFrom(addr, image, wall, zones, small, off) == Plan(addr, image, wall, zones, smallChunk)
      decreases if off < |image| then |image| - off else 0
    {
      var emitted, next := OneRound(addr, image, wall, zones, small, off);
      Regroup(ops, emitted, PlanFrom(addr, image, wall, zones, small, next));
      ops := ops + emitted;
      off := next;
    }
  }

  lemma Regroup(a: seq<ChunkOp>, b: seq<ChunkOp>, c: seq<ChunkOp>)
    ensures a + (b + c) == (a + b) + c
  {
  }

  // What the plan writes

  lemma WrittenConcat(first: seq<ChunkOp>, rest: seq<ChunkOp>, x: int)
    ensures Written(first + rest, x) <==> Written(first, x) || Written(rest, x)
  {
    var ops := first + rest;
    if Written(first, x) {
      var i :| 0 <= i < |first| && Covers(first[i], x);
      assert Covers(ops[i], x);
    }
    if Written(rest, x) {
      var i :| 0 <= i < |rest| && Covers(rest[i], x);
      assert Covers(ops[|first| + i], x);
    }
    if Written(ops, x) {
      var i :| 0 <= i < |ops| && Covers(ops[i], x);
      assert if i < |first| then Covers(first[i], x) else Covers(rest[i - |first|], x);
    }
  }

  predicate Forwards(zones: seq<SkipZone>) {
    forall i :: 0 <= i < |zones| ==> zones[i].start <= zones[i].end
  }

  predicate AscendingStarts(zones: seq<SkipZone>) {
    forall i, j :: 0 <= i < j < |zones| ==> zones[i].start <= zones[j].start
  }

  predicate Sized(op: ChunkOp, wall: nat, small: nat) {
    0 < |op.block| <= if op.addr >= wall then small else BLOCK_BYTES
  }

  /** Operations from offset `off` on: in order, inside the image, no larger than their chunk size. */
  predicate GoodFrom(ops: seq<ChunkOp>, addr: nat, image: seq<Byte>, wall: nat, small: nat, off: nat) {
    && Ordered(ops) && Faithful(ops, image, addr)
    && forall i :: 0 <= i < |ops| ==>
         addr + off <= ops[i].addr && Sized(ops[i], wall, small)
  }

  lemma GoodPrepend(op: ChunkOp, rest: seq<ChunkOp>, addr: nat, image: seq<Byte>, wall: nat, small: nat, off: nat, next: nat)
    requires op.addr == addr + off && Holds(op, image, addr)
    requires Sized(op, wall, small)
    requires GoodFrom(rest, addr, image, wall, small, next) && End(op) <= addr + next && off <= next
    ensures GoodFrom([op] + rest, addr, image, wall, small, off)
  {
    var ops := [op] + rest;
    forall i | 0 <= i < |ops|
      ensures Holds(ops[i], image, addr) && addr + off <= ops[i].addr && Sized(ops[i], wall, small)
    {
      assert ops[i] == if i == 0 then op else rest[i - 1];
    }
    forall i, j | 0 <= i < j < |ops| ensures End(ops[i]) <= ops[j].addr {
      assert ops[j] == rest[j - 1] && ops[i] == if i == 0 then op else rest[i - 1];
    }
  }

  lemma GoodEarlier(ops: seq<ChunkOp>, addr: nat, image: seq<Byte>, wall: nat, small: nat, off: nat, next: nat)
    requires GoodFrom(ops, addr, image, wall, small, next) && off <= next
    ensures GoodFrom(ops, addr, image, wall, small, off)
  {
  }

  lemma RoundIsGood(addr: nat, image: seq<Byte>, wall: nat, zones: seq<SkipZone>, small: nat, off: nat)
    requires 0 < small && off < |image| && Forwards(zones)
    ensures var r := RoundAt(addr, image, wall, zones, small, off);
            r.emitted == [] || (|r.emitted| == 1 &&
                                var op := r.emitted[0];
                                op.addr == addr + off && Holds(op, image, addr) && End(op) <= addr + r.next &&
                                Sized(op, wall, small))
  {
  }

  lemma {:induction false} PlanIsGood(addr: nat, image: seq<Byte>, wall: nat, zones: seq<SkipZone>, small: nat, off: nat)
    requires 0 < small && Forwards(zones)
    ensures GoodFrom(PlanFrom(addr, image, wall, zones, small, off), addr, image, wall, small, off)
    decreases if off < |image| then |image| - off else 0
  {
    if off < |image| {
      var r := RoundAt(addr, image, wall, zones, small, off);
      RoundIsGood(addr, image, wall, zones, small, off);
      PlanIsGood(addr, image, wall, zones, small, r.next);
      var rest := PlanFrom(addr, image, wall, zones, small, r.next);
      if r.emitted == [] {
        assert r.emitted + rest == rest;
        GoodEarlier(rest, addr, image, wall, small, off, r.next);
      } else {
        assert r.emitted == [r.emitted[0]];
        GoodPrepend(r.emitted[0], rest, addr, image, wall, small, off, r.next);
      }
    }
  }

  lemma RoundCovers(addr: nat, image: seq<Byte>, wall: nat, zones: seq<SkipZone>, small: nat, off: nat, x: int)
    requires 0 < small && off < |image| && !InZones(zones, x)
    requires addr + off <= x < addr + |image| && x < addr + RoundAt(addr, image, wall, zones, small, off).next
    ensures Written(RoundAt(addr, image, wall, zones, small, off).emitted, x)
  {
    var end := ChunkEnd(addr, |image|, wall, small, off);
    var k := FirstTouched(zones, addr + off, addr + end, 0);
    if k < |zones| { assert !InZone(zones[k], x); }
    var ops := RoundAt(addr, image, wall, zones, small, off).emitted;
    assert |ops| == 1 && Covers(ops[0], x);
  }

  /** No byte outside the zones is left out. */
  lemma {:induction false} PlanCovers(addr: nat, image: seq<Byte>, wall: nat, zones: seq<SkipZone>, small: nat, off: nat, x: int)
    requires 0 < small && addr + off <= x < addr + |image| && !InZones(zones, x)
    ensures Written(PlanFrom(addr, image, wall, zones, small, off), x)
    decreases if off < |image| then |image| - off else 0
  {
    var r := RoundAt(addr, image, wall, zones, small, off);
    WrittenConcat(r.emitted, PlanFrom(addr, image, wall, zones, small, r.next), x);
    if x < addr + r.next {
      RoundCovers(addr, image, wall, zones, small, off, x);
    } else {
      PlanCovers(addr, image, wall, zones, small, r.next, x);
    }
  }

  // When a zone is respected

  /** The largest operation a plan with this chunk size contains. */
  function Reach(smallChunk: int): nat { Max(BLOCK_BYTES, SmallOf(smallChunk)) }

  /**
   An operation can begin in front of the end of `y` and reach into `z`, which lies behind `y`: if `z` is
   listed first, the operation is cut at `z` and still runs through `y`.
   */
  predicate Clash(z: SkipZone, y: SkipZone, reach: nat) {
    y.start < z.start && z.start - Min(y.end, z.start) + 1 < reach
  }

  /** No zone listed before zone `j` clashes with it. */
  predicate Clear(zones: seq<SkipZone>, j: nat, reach: nat)
    requires j < |zones|
  {
    forall k :: 0 <= k < j ==> !Clash(zones[k], zones[j], reach)
  }

  predicate AllClear(zones: seq<SkipZone>, reach: nat) {
    forall j :: 0 <= j < |zones| ==> Clear(zones, j, reach)
  }

  lemma AscendingIsClear(zones: seq<SkipZone>, reach: nat)
    requires AscendingStarts(zones)
    ensures AllClear(zones, reach)
  {
  }

  /** An operation is cut at the first zone in the list it touches, so it misses the ones that are clear of it. */
  lemma RoundAvoids(addr: nat, image: seq<Byte>, wall: nat, zones: seq<SkipZone>, smallChunk: int, off: nat, j: nat, x: int)
    requires off < |image| && j < |zones| && InZone(zones[j], x) && Clear(zones, j, Reach(smallChunk))
    ensures forall op :: op in RoundAt(addr, image, wall, zones, SmallOf(smallChunk), off).emitted ==> !Covers(op, x)
  {
    var end := ChunkEnd(addr, |image|, wall, SmallOf(smallChunk), off);
    var k := FirstTouched(zones, addr + off, addr + end, 0);
    assert end - off <= Reach(smallChunk);
    if j < k { assert !Touches(zones[j], addr + off, addr + end); }
    if k < j { assert !Clash(zones[k], zones[j], Reach(smallChunk)); }
  }

  /** No byte of a clear zone is written. */
  lemma {:induction false} PlanAvoids(addr: nat, image: seq<Byte>, wall: nat, zones: seq<SkipZone>, smallChunk: int, off: nat, j: nat, x: int)
    requires j < |zones| && InZone(zones[j], x) && Clear(zones, j, Reach(smallChunk))
    ensures !Written(PlanFrom(addr, image, wall, zones, SmallOf(smallChunk), off), x)
    decreases if off < |image| then |image| - off else 0
  {
    var small := SmallOf(smallChunk);
    if off < |image| {
      var r := RoundAt(addr, image, wall, zones, small, off);
      RoundAvoids(addr, image, wall, zones, smallChunk, off, j, x);
      PlanAvoids(addr, image, wall, zones, smallChunk, r.next, j, x);
      WrittenConcat(r.emitted, PlanFrom(addr, image, wall, zones, small, r.next), x);
    }
  }

  /** Which bytes a plan with clear zones writes. */
  lemma {:induction false} PlanWrites(addr: nat, image: seq<Byte>, wall: nat, zones: seq<SkipZone>, smallChunk: int, x: int)
    requires Forwards(zones) && AllClear(zones, Reach(smallChunk))
    requires GoodFrom(Plan(addr, image, wall, zones, smallChunk), addr, image, wall, SmallOf(smallChunk), 0)
    ensures Written(Plan(addr, image, wall, zones, smallChunk), x) <==> addr <= x < addr + |image| && !InZones(zones, x)
  {
    var ops := Plan(addr, image, wall, zones, smallChunk);
    if InZones(zones, x) {
      var j :| 0 <= j < |zones| && InZone(zones[j], x);
      PlanAvoids(addr, image, wall, zones, smallChunk, 0, j, x);
    } else if addr <= x < addr + |image| {
      PlanCovers(addr, image, wall, zones, SmallOf(smallChunk), 0, x);
    } else {
      forall i | 0 <= i < |ops| ensures !Covers(ops[i], x) { assert Holds(ops[i], image, addr); }
    }
  }

  lemma {:induction false} PlanBytes(ops: seq<ChunkOp>, addr: nat, image: seq<Byte>, wall: nat, small: nat)
    requires GoodFrom(ops, addr, image, wall, small, 0)
    ensures TotalBytes(ops) == CountWritten(ops, addr, addr + |image|)
  {
    forall i | 0 <= i < |ops| ensures addr <= ops[i].addr && End(ops[i]) <= addr + |image| { assert Holds(ops[i], image, addr); }
    BytesAreAddresses(ops, addr, addr + |image|);
  }

  /**
   For zones that are clear of each other (they may overlap) the plan is an exact cover: memory ends up
   equal to the image outside the zones, untouched inside them and elsewhere, and no byte is sent twice.
   */
  lemma {:induction false} PlanIsExactCover(addr: nat, image: seq<Byte>, wall: nat, zones: seq<SkipZone>, smallChunk: int, mem: Memory, x: int)
    requires Forwards(zones) && AllClear(zones, Reach(smallChunk))
    ensures var ops := Plan(addr, image, wall, zones, smallChunk);
            && Ordered(ops)
            && (Written(ops, x) <==> addr <= x < addr + |image| && !InZones(zones, x))
            && After(mem, ops, x) == (if addr <= x < addr + |image| && !InZones(zones, x) then image[x - addr] else mem(x))
            && TotalBytes(ops) == CountWritten(ops, addr, addr + |image|)
  {
    var ops := Plan(addr, image, wall, zones, smallChunk);
    PlanIsGood(addr, image, wall, zones, SmallOf(smallChunk), 0);
    PlanWrites(addr, image, wall, zones, smallChunk, x);
    PlanBytes(ops, addr, image, wall, SmallOf(smallChunk));
    AfterFaithful(mem, ops, image, addr, x);
  }

  /** Zones with 32-bit ends that do not overlap. */
  predicate Disjoint(zones: seq<SkipZone>) {
    && (forall i :: 0 <= i < |zones| ==> zones[i].start < zones[i].end < TWO_32)
    && forall i, j :: 0 <= i < j < |zones| ==> zones[i].end <= zones[j].start || zones[j].end <= zones[i].start
  }

  /** Whatever image goes wherever in the address space, and wherever the wall is: no byte of zone `j` is written. */
  ghost predicate Respected(zones: seq<SkipZone>, j: nat, smallChunk: int)
    requires j < |zones|
  {
    forall addr: nat, image: seq<Byte>, wall: nat, x: int ::
      addr + |image| < TWO_32 && InZone(zones[j], x) ==> !Written(Plan(addr, image, wall, zones, smallChunk), x)
  }

  ghost predicate AllRespected(zones: seq<SkipZone>, smallChunk: int) {
    forall j :: 0 <= j < |zones| ==> Respected(zones, j, smallChunk)
  }

  function Zeros(n: nat): (s: seq<Byte>)
    ensures |s| == n
  {
    if n == 0 then [] else [0] + Zeros(n - 1)
  }

  /** The first operation of an image that begins with the last byte of zone `j` and ends in zone `k`. */
  lemma {:induction false} ClashIsWritten(zones: seq<SkipZone>, k: nat, j: nat, smallChunk: int)
    requires Disjoint(zones) && k < j < |zones| && Clash(zones[k], zones[j], Reach(smallChunk))
    ensures !Respected(zones, j, smallChunk)
  {
    var small := SmallOf(smallChunk);
    var addr := zones[j].end - 1;
    var image := Zeros(zones[k].start + 1 - addr);
    var wall := if small <= BLOCK_BYTES then addr + 1 else 0;
    assert zones[k].end <= zones[j].start || zones[j].end <= zones[k].start;
    assert ChunkEnd(addr, |image|, wall, small, 0) == |image|;
    CutTooLate(zones, k, j, addr, image, wall, small);
    assert Written(Plan(addr, image, wall, zones, smallChunk), addr) && InZone(zones[j], addr);
    assert addr + |image| < TWO_32;
  }

  lemma CutTooLate(zones: seq<SkipZone>, k: nat, j: nat, addr: nat, image: seq<Byte>, wall: nat, small: nat)
    requires Disjoint(zones) && k < j < |zones| && InZone(zones[j], addr) && 0 < small
    requires addr < zones[k].start && |image| == zones[k].start + 1 - addr && ChunkEnd(addr, |image|, wall, small, 0) == |image|
    ensures Written(PlanFrom(addr, image, wall, zones, small, 0), addr)
  {
    var f := FirstTouched(zones, addr, addr + |image|, 0);
    assert Touches(zones[k], addr, addr + |image|) && f <= k;
    assert zones[f].end <= zones[j].start || zones[j].end <= zones[f].start;
    var r := RoundAt(addr, image, wall, zones, small, 0);
    assert |r.emitted| == 1 && Covers(r.emitted[0], addr);
    WrittenConcat(r.emitted, PlanFrom(addr, image, wall, zones, small, r.next), addr);
  }

  /** A zone is respected by every plan with this chunk size exactly when no zone listed before it clashes with it. */
  lemma {:induction false} RespectedIffClear(zones: seq<SkipZone>, j: nat, smallChunk: int)
    requires Disjoint(zones) && j < |zones|
    ensures Respected(zones, j, smallChunk) <==> Clear(zones, j, Reach(smallChunk))
  {
    if Clear(zones, j, Reach(smallChunk)) {
      forall addr: nat, image: seq<Byte>, wall: nat, x: int | addr + |image| < TWO_32 && InZone(zones[j], x)
        ensures !Written(Plan(addr, image, wall, zones, smallChunk), x)
      {
        PlanAvoids(addr, image, wall, zones, smallChunk, 0, j, x);
      }
    } else {
      var k :| 0 <= k < j && Clash(zones[k], zones[j], Reach(smallChunk));
      ClashIsWritten(zones, k, j, smallChunk);
    }
  }

  /** `start` lies behind `end`, by fewer than `n` bytes. */
  predicate JustBehind(start: int, end: int, n: int) { 0 <= start - end < n }

  lemma ClashOfDisjoint(zones: seq<SkipZone>, k: nat, j: nat, reach: nat)
    requires Disjoint(zones) && k < j < |zones|
    ensures Clash(zones[k], zones[j], reach) <==> JustBehind(zones[k].start, zones[j].end, reach - 1)
  {
    assert zones[k].end <= zones[j].start || zones[j].end <= zones[k].start;
  }

  /** No zone has an earlier listed one starting fewer than `n` bytes behind its end. */
  predicate WellListed(zones: seq<SkipZone>, n: int) {
    forall k, j :: 0 <= k < j < |zones| ==> !JustBehind(zones[k].start, zones[j].end, n)
  }

  /**
   The plans with a chunk size respect disjoint zones exactly when none has an earlier listed one starting
   fewer than `Reach - 1` bytes behind its end. For every chunk size up to 1 KB that is 1023 bytes.
   */
  lemma {:induction false} ZonesRespectedIff(zones: seq<SkipZone>, smallChunk: int)
    requires Disjoint(zones)
    ensures AllRespected(zones, smallChunk) <==> WellListed(zones, Reach(smallChunk) - 1)
    ensures smallChunk <= BLOCK_BYTES ==> Reach(smallChunk) == BLOCK_BYTES
  {
    var reach := Reach(smallChunk);
    forall j | 0 <= j < |zones| ensures Respected(zones, j, smallChunk) <==> Clear(zones, j, reach) {
      RespectedIffClear(zones, j, smallChunk);
    }
    forall k, j | 0 <= k < j < |zones| ensures Clash(zones[k], zones[j], reach) <==> JustBehind(zones[k].start, zones[j].end, reach - 1) {
      ClashOfDisjoint(zones, k, j, reach);
    }
    if AllRespected(zones, smallChunk) {
      forall k, j | 0 <= k < j < |zones| ensures !JustBehind(zones[k].start, zones[j].end, reach - 1) {
        assert Respected(zones, j, smallChunk) && Clear(zones, j, reach);
      }
    } else {
      var j :| 0 <= j < |zones| && !Respected(zones, j, smallChunk);
      assert !Clear(zones, j, reach);
    }
  }

  // Byte by byte, for zones that may overlap

  /** A zone holds the byte, and no zone listed before that one starts within reach behind the byte. */
  predicate Sheltered(zones: seq<SkipZone>, x: nat, reach: nat) {
    exists c :: 0 <= c < |zones| && InZone(zones[c], x) && forall k :: 0 <= k < c ==> !JustBehind(zones[k].start, x + 1, reach - 1)
  }

  ghost predicate ByteRespected(zones: seq<SkipZone>, x: nat, smallChunk: int) {
    forall addr: nat, image: seq<Byte>, wall: nat :: addr + |image| < TWO_32 ==> !Written(Plan(addr, image, wall, zones, smallChunk), x)
  }

  lemma {:induction false} RoundSpares(addr: nat, image: seq<Byte>, wall: nat, zones: seq<SkipZone>, smallChunk: int, off: nat, x: nat)
    requires off < |image| && Sheltered(zones, x, Reach(smallChunk))
    ensures forall op :: op in RoundAt(addr, image, wall, zones, SmallOf(smallChunk), off).emitted ==> !Covers(op, x)
  {
    var reach := Reach(smallChunk);
    var c :| 0 <= c < |zones| && InZone(zones[c], x) && forall k :: 0 <= k < c ==> !JustBehind(zones[k].start, x + 1, reach - 1);
    var end := ChunkEnd(addr, |image|, wall, SmallOf(smallChunk), off);
    var k := FirstTouched(zones, addr + off, addr + end, 0);
    assert end - off <= reach;
    if addr + off <= x < addr + end { assert Touches(zones[c], addr + off, addr + end) && k <= c; }
  }

  lemma {:induction false} PlanSpares(addr: nat, image: seq<Byte>, wall: nat, zones: seq<SkipZone>, smallChunk: int, off: nat, x: nat)
    requires Sheltered(zones, x, Reach(smallChunk))
    ensures !Written(PlanFrom(addr, image, wall, zones, SmallOf(smallChunk), off), x)
    decreases if off < |image| then |image| - off else 0
  {
    var small := SmallOf(smallChunk);
    if off < |image| {
      var r := RoundAt(addr, image, wall, zones, small, off);
      RoundSpares(addr, image, wall, zones, smallChunk, off, x);
      PlanSpares(addr, image, wall, zones, smallChunk, r.next, x);
      WrittenConcat(r.emitted, PlanFrom(addr, image, wall, zones, small, r.next), x);
    }
  }

  /** An image that begins with the byte and ends in a zone that is listed before all zones that hold the byte. */
  lemma {:induction false} ByteIsWritten(zones: seq<SkipZone>, x: nat, k: nat, smallChunk: int)
    requires k < FirstTouched(zones, x, x + 1, 0) && x < zones[k].start < TWO_32 - 1 && zones[k].start - x < Reach(smallChunk)
    requires zones[k].start < zones[k].end
    ensures !ByteRespected(zones, x, smallChunk)
  {
    var small := SmallOf(smallChunk);
    var image := Zeros(zones[k].start + 1 - x);
    var wall := if small <= BLOCK_BYTES then x + 1 else 0;
    assert ChunkEnd(x, |image|, wall, small, 0) == |image|;
    var f := FirstTouched(zones, x, x + |image|, 0);
    assert Touches(zones[k], x, x + |image|) && f <= k && !Touches(zones[f], x, x + 1);
    var r := RoundAt(x, image, wall, zones, small, 0);
    assert |r.emitted| == 1 && Covers(r.emitted[0], x);
    WrittenConcat(r.emitted, PlanFrom(x, image, wall, zones, small, r.next), x);
    assert Written(Plan(x, image, wall, zones, smallChunk), x);
  }

  predicate Proper(zones: seq<SkipZone>) {
    forall k :: 0 <= k < |zones| ==> zones[k].start < zones[k].end < TWO_32
  }

  /** Exactly the sheltered bytes are left alone by every plan with this chunk size, however the zones overlap. */
  lemma {:induction false} ByteRespectedIff(zones: seq<SkipZone>, x: nat, smallChunk: int)
    requires Proper(zones) && x < TWO_32 - 1
    ensures ByteRespected(zones, x, smallChunk) <==> Sheltered(zones, x, Reach(smallChunk))
  {
    var c := FirstTouched(zones, x, x + 1, 0);
    if Sheltered(zones, x, Reach(smallChunk)) {
      forall addr: nat, image: seq<Byte>, wall: nat | addr + |image| < TWO_32
        ensures !Written(Plan(addr, image, wall, zones, smallChunk), x)
      {
        PlanSpares(addr, image, wall, zones, smallChunk, 0, x);
      }
    } else if c == |zones| {
      PlanCovers(x, [0], 0, zones, SmallOf(smallChunk), 0, x);
      assert Written(Plan(x, [0], 0, zones, smallChunk), x);
    } else {
      assert InZone(zones[c], x);
      var k :| 0 <= k < c && JustBehind(zones[k].start, x + 1, Reach(smallChunk) - 1);
      ByteIsWritten(zones, x, k, smallChunk);
    }
  }

  /** The zones every default plan leaves out (CloneRegZones). */
  const CLONE_REG_ZONES := [SkipZone(0x170180, 0x170280), SkipZone(0x172380, 0x177800)]
}

/** protocol/uploadplan.go: the zones MergePoisonZones adds from the poison file. */
module PoisonZones {
  import opened Common
  import opened Text
  import opened AdaptiveUpload

  /** The address a line of the file names, if it names one. */
  function PoisonOf(line: string): (p: Option<nat>)
    ensures p.Some? ==> p.value < TWO_32
  {
    var s := TrimSpace(line);
    if s == "" || !("0x" <= s) then None else ParseUint32(s[2..])
  }

  function PoisonsOf(lines: seq<string>): (ps: seq<nat>)
    ensures forall i :: 0 <= i < |ps| ==> ps[i] < TWO_32
    decreases |lines|
  {
    if lines == [] then []
    else
      var before, p := PoisonsOf(lines[..|lines| - 1]), PoisonOf(lines[|lines| - 1]);
      if p.Some? then before + [p.value] else before
  }

  /** Four bytes from the poison on; the end is a 32-bit sum. */
  function PoisonZone(p: nat): SkipZone { SkipZone(p, (p + 4) % TWO_32) }

  /** Every poison in turn becomes a zone at the end of the list, unless it is there already. */
  function Merged(zones: seq<SkipZone>, poisons: seq<nat>): seq<SkipZone>
    decreases |poisons|
  {
    if poisons == [] then zones
    else
      var before, z := Merged(zones, poisons[..|poisons| - 1]), PoisonZone(poisons[|poisons| - 1]);
      if z in before then before else before + [z]
  }

  method Listed(zones: seq<SkipZone>, z: SkipZone) returns (found: bool)
    ensures found <==> z in zones
  {
    for i := 0 to |zones|
      invariant z !in zones[..i]
    {
      if zones[i].start == z.start && zones[i].end == z.end { return true; }
    }
    found := false;
  }

  /** `file` is the poison file, if the environment names one that can be read. */
  method MergePoisonZones(zones: seq<SkipZone>, file: Option<string>) returns (merged: seq<SkipZone>)
    ensures merged == if file == None then zones else Merged(zones, PoisonsOf(Lines(file.value)))
  {
    merged := zones;
    if file == None { return; }
    var lines := Lines(file.value);
    var i := 0;
    while i < |lines|
      invariant i <= |lines| && merged == Merged(zones, PoisonsOf(lines[..i]))
    {
      var line := TrimSpace(lines[i]);
      assert lines[..i + 1][..i] == lines[..i];
      i := i + 1;
      if line == "" || !("0x" <= line) { continue; }
      var addr := ParseUint32(line[2..]);
      if addr == None { continue; }
      ghost var before := PoisonsOf(lines[..i - 1]);
      assert PoisonsOf(lines[..i]) == before + [addr.value] && (before + [addr.value])[..|before|] == before;
      var dup := Listed(merged, PoisonZone(addr.value));
      if !dup { merged := merged + [PoisonZone(addr.value)]; }
    }
    assert lines[..|lines|] == lines;
  }

  // Which poisons the plans respect

  /** The poisons without their repetitions, in the order in which they first appear. */
  function FirstSeen(poisons: seq<nat>): (r: seq<nat>)
    ensures forall p :: p in r <==> p in poisons
    decreases |poisons|
  {
    if poisons == [] then []
    else
      var before, p := FirstSeen(poisons[..|poisons| - 1]), poisons[|poisons| - 1];
      assert poisons == poisons[..|poisons| - 1] + [p];
      if p in before then before else before + [p]
  }

  function ZonesOf(poisons: seq<nat>): (r: seq<SkipZone>)
    ensures |r| == |poisons| && forall i :: 0 <= i < |r| ==> r[i] == PoisonZone(poisons[i])
  {
    if poisons == [] then [] else ZonesOf(poisons[..|poisons| - 1]) + [PoisonZone(poisons[|poisons| - 1])]
  }

  /** The poisons keep away from the end of the address space, from the zones, and from each other. */
  predicate Separate(zones: seq<SkipZone>, poisons: seq<nat>) {
    && (forall p :: p in poisons ==> p + 4 < TWO_32)
    && (forall p, i :: p in poisons && 0 <= i < |zones| ==> p + 4 <= zones[i].start || zones[i].end <= p)
    && forall p, q :: p in poisons && q in poisons ==> p == q || p + 4 <= q || q + 4 <= p
  }

  lemma {:induction false} ListedIffSeen(seen: seq<nat>, p: nat)
    ensures PoisonZone(p) in ZonesOf(seen) <==> p in seen
  {
    if p in seen {
      var i :| 0 <= i < |seen| && seen[i] == p;
      assert ZonesOf(seen)[i] == PoisonZone(p);
    }
  }

  lemma {:induction false} OneMerged(zones: seq<SkipZone>, seen: seq<nat>, p: nat)
    requires PoisonZone(p) !in zones
    ensures PoisonZone(p) in zones + ZonesOf(seen) <==> p in seen
    ensures zones + ZonesOf(seen) + [PoisonZone(p)] == zones + ZonesOf(seen + [p])
  {
    ListedIffSeen(seen, p);
    assert (seen + [p])[..|seen|] == seen;
    assert ZonesOf(seen + [p]) == ZonesOf(seen) + [PoisonZone(p)];
  }

  lemma {:induction false} MergedIsAppended(zones: seq<SkipZone>, poisons: seq<nat>)
    requires forall i :: 0 <= i < |poisons| ==> PoisonZone(poisons[i]) !in zones
    ensures Merged(zones, poisons) == zones + ZonesOf(FirstSeen(poisons))
    decreases |poisons|
  {
    if poisons == [] {
      assert zones + [] == zones;
    } else {
      var n := |poisons| - 1;
      MergedIsAppended(zones, poisons[..n]);
      OneMerged(zones, FirstSeen(poisons[..n]), poisons[n]);
    }
  }

  lemma {:induction false} FirstSeenOnce(poisons: seq<nat>)
    ensures forall i, j :: 0 <= i < j < |FirstSeen(poisons)| ==> FirstSeen(poisons)[i] != FirstSeen(poisons)[j]
    decreases |poisons|
  {
    if poisons != [] { FirstSeenOnce(poisons[..|poisons| - 1]); }
  }

  lemma {:induction false} DisjointConcat(a: seq<SkipZone>, b: seq<SkipZone>)
    requires Disjoint(a) && Disjoint(b)
    requires forall i, j :: 0 <= i < |a| && 0 <= j < |b| ==> a[i].end <= b[j].start || b[j].end <= a[i].start
    ensures Disjoint(a + b)
  {
    var c := a + b;
    forall i, j | 0 <= i < j < |c| ensures c[i].end <= c[j].start || c[j].end <= c[i].start {
      if i < |a| && j >= |a| { assert c[i] == a[i] && c[j] == b[j - |a|]; }
    }
  }

  lemma {:induction false} SeenZonesDisjoint(zones: seq<SkipZone>, poisons: seq<nat>, seen: seq<nat>)
    requires Separate(zones, poisons) && (forall i :: 0 <= i < |seen| ==> seen[i] in poisons)
    requires forall i, j :: 0 <= i < j < |seen| ==> seen[i] != seen[j]
    ensures forall i :: 0 <= i < |seen| ==> ZonesOf(seen)[i] == SkipZone(seen[i], seen[i] + 4)
    ensures Disjoint(ZonesOf(seen))
    ensures forall i, j :: 0 <= i < |zones| && 0 <= j < |seen| ==> zones[i].end <= ZonesOf(seen)[j].start || ZonesOf(seen)[j].end <= zones[i].start
  {
    var tail := ZonesOf(seen);
    forall i | 0 <= i < |seen| ensures tail[i] == SkipZone(seen[i], seen[i] + 4) && seen[i] in poisons {
      NoWrap(seen[i]);
    }
    forall i, j | 0 <= i < j < |seen| ensures tail[i].end <= tail[j].start || tail[j].end <= tail[i].start {
      assert seen[i] != seen[j] && seen[i] in poisons && seen[j] in poisons;
    }
    forall i, j | 0 <= i < |zones| && 0 <= j < |seen| ensures zones[i].end <= tail[j].start || tail[j].end <= zones[i].start {
      assert seen[j] in poisons;
    }
  }

  lemma NoWrap(p: nat)
    requires p + 4 < TWO_32
    ensures PoisonZone(p) == SkipZone(p, p + 4)
  {
  }

  /** Merging separate poisons appends their zones, which overlap nothing. */
  lemma {:induction false} MergedDisjoint(zones: seq<SkipZone>, poisons: seq<nat>)
    requires Disjoint(zones) && Separate(zones, poisons)
    ensures var seen := FirstSeen(poisons);
            && Merged(zones, poisons) == zones + ZonesOf(seen) && Disjoint(zones + ZonesOf(seen))
            && forall i :: 0 <= i < |seen| ==> ZonesOf(seen)[i] == SkipZone(seen[i], seen[i] + 4)
  {
    var seen := FirstSeen(poisons);
    forall n | 0 <= n < |poisons| ensures PoisonZone(poisons[n]) !in zones {
      var p := poisons[n];
      assert p in poisons;
      NoWrap(p);
      assert forall i :: 0 <= i < |zones| ==> p + 4 <= zones[i].start || zones[i].end <= p;
    }
    MergedIsAppended(zones, poisons);
    FirstSeenOnce(poisons);
    SeenZonesDisjoint(zones, poisons, seen);
    DisjointConcat(zones, ZonesOf(seen));
  }

  lemma {:induction false} ClearOfPoison(zones: seq<SkipZone>, tail: seq<SkipZone>, i: nat, reach: nat)
    requires Disjoint(zones + tail) && i < |tail|
    ensures Clear(zones + tail, |zones| + i, reach) <==>
            && (forall k :: 0 <= k < |zones| ==> !JustBehind(zones[k].start, tail[i].end, reach - 1))
            && forall m :: 0 <= m < i ==> !JustBehind(tail[m].start, tail[i].end, reach - 1)
  {
    var all, n := zones + tail, |zones|;
    forall k | 0 <= k < n + i
      ensures Clash(all[k], all[n + i], reach) <==> JustBehind((if k < n then zones[k] else tail[k - n]).start, tail[i].end, reach - 1)
    {
      ClashOfDisjoint(all, k, n + i, reach);
    }
    forall m | 0 <= m < i ensures all[n + m] == tail[m] {
    }
  }

  /**
   A merged poison is respected by every plan with a chunk size of at most 1 KB exactly when neither a zone
   nor an earlier poison starts fewer than 1023 bytes behind its end.
   */
  lemma {:induction false} MergedPoisonRespectedIff(zones: seq<SkipZone>, poisons: seq<nat>, i: nat, smallChunk: int)
    requires Disjoint(zones) && Separate(zones, poisons) && i < |FirstSeen(poisons)| && smallChunk <= BLOCK_BYTES
    ensures var merged, seen := Merged(zones, poisons), FirstSeen(poisons);
            && |merged| == |zones| + |seen|
            && (Respected(merged, |zones| + i, smallChunk) <==>
                && (forall k :: 0 <= k < |zones| ==> !JustBehind(zones[k].start, seen[i] + 4, BLOCK_BYTES - 1))
                && forall m :: 0 <= m < i ==> !JustBehind(seen[m], seen[i] + 4, BLOCK_BYTES - 1))
  {
    var tail := ZonesOf(FirstSeen(poisons));
    MergedDisjoint(zones, poisons);
    RespectedIffClear(zones + tail, |zones| + i, smallChunk);
    ClearOfPoison(zones, tail, i, BLOCK_BYTES);
  }

  // Poisons that may overlap the zones and each other

  lemma {:induction false} MergedExtends(zones: seq<SkipZone>, poisons: seq<nat>)
    ensures zones <= Merged(zones, poisons)
    ensures forall i :: 0 <= i < |poisons| ==> PoisonZone(poisons[i]) in Merged(zones, poisons)
    ensures forall z :: z in Merged(zones, poisons) ==> z in zones || exists i :: 0 <= i < |poisons| && z == PoisonZone(poisons[i])
    decreases |poisons|
  {
    if poisons != [] { MergedExtends(zones, poisons[..|poisons| - 1]); }
  }

  /** The last four addresses are left out: there the end of a poison's zone wraps around. */
  predicate NoneWraps(poisons: seq<nat>) { forall i :: 0 <= i < |poisons| ==> poisons[i] + 4 < TWO_32 }

  lemma {:induction false} MergedProper(zones: seq<SkipZone>, poisons: seq<nat>)
    requires Proper(zones) && NoneWraps(poisons)
    ensures Proper(Merged(zones, poisons))
  {
    var merged := Merged(zones, poisons);
    MergedExtends(zones, poisons);
    forall k | 0 <= k < |merged| ensures merged[k].start < merged[k].end < TWO_32 {
      assert merged[k] in merged;
      if merged[k] !in zones {
        var i :| 0 <= i < |poisons| && merged[k] == PoisonZone(poisons[i]);
        NoWrap(poisons[i]);
      }
    }
  }

  ghost predicate PoisonRespected(zones: seq<SkipZone>, p: nat, smallChunk: int) {
    forall x :: p <= x < p + 4 ==> ByteRespected(zones, x, smallChunk)
  }

  /** Any poison is respected by every plan exactly if its four bytes are sheltered in the merged list. */
  lemma {:induction false} PoisonRespectedIff(zones: seq<SkipZone>, poisons: seq<nat>, p: nat, smallChunk: int)
    requires Proper(zones) && NoneWraps(poisons) && p in poisons
    ensures var merged := Merged(zones, poisons);
            PoisonRespected(merged, p, smallChunk) <==> forall x :: p <= x < p + 4 ==> Sheltered(merged, x, Reach(smallChunk))
  {
    MergedProper(zones, poisons);
    forall x | p <= x < p + 4
      ensures ByteRespected(Merged(zones, poisons), x, smallChunk) <==> Sheltered(Merged(zones, poisons), x, Reach(smallChunk))
    {
      ByteRespectedIff(Merged(zones, poisons), x, smallChunk);
    }
  }

  /** Merging any poisons takes nothing away from the zones that were there, and gives them nothing. */
  lemma {:induction false} MergingKeepsZones(zones: seq<SkipZone>, poisons: seq<nat>, x: nat, smallChunk: int)
    requires Proper(zones) && NoneWraps(poisons) && InZones(zones, x)
    ensures ByteRespected(Merged(zones, poisons), x, smallChunk) <==> ByteRespected(zones, x, smallChunk)
  {
    var merged, reach := Merged(zones, poisons), Reach(smallChunk);
    MergedExtends(zones, poisons);
    MergedProper(zones, poisons);
    ByteRespectedIff(merged, x, smallChunk);
    ByteRespectedIff(zones, x, smallChunk);
    assert forall k :: 0 <= k < |zones| ==> merged[k] == zones[k];
    if Sheltered(merged, x, reach) {
      var j :| 0 <= j < |zones| && InZone(zones[j], x);
      var c :| 0 <= c < |merged| && InZone(merged[c], x) && forall k :: 0 <= k < c ==> !JustBehind(merged[k].start, x + 1, reach - 1);
      assert InZone(zones[if c < |zones| then c else j], x);
    }
  }

  /** Which bytes of a poison [p, p + 4) the standard zones and the poison itself shelter. */
  predicate StandardShelter(p: nat, x: nat) {
    || 0x170180 <= x < 0x170280 || 0x172380 <= x < 0x177800
    || (p <= x < p + 4 && !JustBehind(0x170180, x + 1, BLOCK_BYTES - 1) && !JustBehind(0x172380, x + 1, BLOCK_BYTES - 1))
  }

  lemma {:induction false} StandardSheltered(p: nat, x: nat)
    requires p + 4 < TWO_32
    ensures Sheltered(Merged(CLONE_REG_ZONES, [p]), x, BLOCK_BYTES) <==> StandardShelter(p, x)
  {
    var merged := Merged(CLONE_REG_ZONES, [p]);
    assert [p][..0] == [] && Merged(CLONE_REG_ZONES, []) == CLONE_REG_ZONES;
    assert merged == CLONE_REG_ZONES + [PoisonZone(p)] || merged == CLONE_REG_ZONES;
    assert CLONE_REG_ZONES == [SkipZone(0x170180, 0x170280), SkipZone(0x172380, 0x177800)];
    NoWrap(p);
    assert PoisonZone(p) !in CLONE_REG_ZONES;
    assert merged[0] == CLONE_REG_ZONES[0] && merged[1] == CLONE_REG_ZONES[1] && merged[2] == SkipZone(p, p + 4);
    if 0x170180 <= x < 0x170280 { assert InZone(merged[0], x); }
    if 0x172380 <= x < 0x177800 { assert InZone(merged[1], x); }
    if StandardShelter(p, x) && p <= x < p + 4 { assert InZone(merged[2], x); }
  }

  /** One poison merged into the standard zones, wherever it is. */
  lemma {:induction false} StandardPoisonRespectedIff(p: nat, smallChunk: int)
    requires p + 4 < TWO_32 && smallChunk <= BLOCK_BYTES
    ensures PoisonRespected(Merged(CLONE_REG_ZONES, [p]), p, smallChunk) <==>
            p <= 0x16fd7d || 0x170180 <= p <= 0x171f7d || 0x172380 <= p
  {
    hide Merged, Sheltered, PoisonRespected;
    assert Proper(CLONE_REG_ZONES) by { assert CLONE_REG_ZONES == [SkipZone(0x170180, 0x170280), SkipZone(0x172380, 0x177800)]; }
    PoisonRespectedIff(CLONE_REG_ZONES, [p], p, smallChunk);
    forall x | p <= x < p + 4 ensures Sheltered(Merged(CLONE_REG_ZONES, [p]), x, Reach(smallChunk)) <==> StandardShelter(p, x) {
      StandardSheltered(p, x);
    }
    assert StandardShelter(p, p) && StandardShelter(p, p + 3) <==> p <= 0x16fd7d || 0x170180 <= p <= 0x171f7d || 0x172380 <= p;
  }
}

/** loader.go: the adaptive plan carried out in word mode, where every window write is a whole word. */
module WordMode {
  import opened Common
  import opened Uploads
  import opened AdaptiveUpload
  import HybridUpload

  /** The chunk size the loader plans with in word mode. */
  const WORD := 4

  /** What reaches the chip: from the wall on four bytes for each operation, zeros behind a shorter one. */
  function Executed(addr: nat, image: seq<Byte>, wall: nat, zones: seq<SkipZone>): seq<ChunkOp> {
    HybridUpload.AllSent(Plan(addr, image, wall, zones, WORD), true, wall)
  }

  // Where operations begin

  /** No zone holds a byte from `lo` up to `hi`. */
  ghost predicate Free(zones: seq<SkipZone>, lo: int, hi: int) {
    forall x :: lo <= x < hi ==> !InZones(zones, x)
  }

  /** The image begins at `b`, or goes on there behind a zone. */
  predicate Begins(zones: seq<SkipZone>, addr: nat, b: nat) {
    b == addr || (addr < b && exists i :: 0 <= i < |zones| && zones[i].end == b)
  }

  /** The first address from the wall on that 1 KB blocks from `b` on lead to. */
  function WindowFrom(b: nat, wall: nat): (w: nat)
    ensures b <= w && wall <= w
  {
    if wall <= b then b else b + (wall - b + BLOCK_BYTES - 1) / BLOCK_BYTES * BLOCK_BYTES
  }

  /** An operation of the stretch that begins at `b` can begin at `a`. */
  predicate OnGrid(b: nat, wall: nat, a: nat) {
    b <= a && if a < wall then (a - b) % BLOCK_BYTES == 0 else WindowFrom(b, wall) <= a && (a - b) % WORD == 0
  }

  /** What is known of an operation's begin: the stretch it lies in. */
  ghost predicate Stretch(zones: seq<SkipZone>, addr: nat, wall: nat, b: nat, a: nat) {
    Begins(zones, addr, b) && OnGrid(b, wall, a) && Free(zones, b, a)
  }

  lemma {:induction false} WindowGrid(b: nat, wall: nat)
    ensures (WindowFrom(b, wall) - b) % BLOCK_BYTES == 0
    ensures wall > b ==> WindowFrom(b, wall) - BLOCK_BYTES < wall
  {
    if wall > b {
      var k := (wall - b + BLOCK_BYTES - 1) / BLOCK_BYTES;
      assert WindowFrom(b, wall) - b == k * BLOCK_BYTES;
    }
  }

  /** A block that begins in front of the wall ends no later than the first word begins. */
  lemma {:induction false} BlockEndsAtWord(b: nat, wall: nat, a: nat)
    requires b <= a < wall && (a - b) % BLOCK_BYTES == 0
    ensures a + BLOCK_BYTES <= WindowFrom(b, wall) && (a + BLOCK_BYTES >= wall ==> a + BLOCK_BYTES == WindowFrom(b, wall))
  {
    WindowGrid(b, wall);
    var m, n := (a - b) / BLOCK_BYTES, (WindowFrom(b, wall) - b) / BLOCK_BYTES;
    assert a - b == m * BLOCK_BYTES && WindowFrom(b, wall) - b == n * BLOCK_BYTES;
    assert m < n;
  }

  lemma {:induction false} BlocksAreWords(n: nat)
    requires n % BLOCK_BYTES == 0
    ensures n % WORD == 0
  {
    assert n == WORD * (256 * (n / BLOCK_BYTES));
  }

  lemma {:induction false} NextOnGrid(b: nat, wall: nat, a: nat)
    requires OnGrid(b, wall, a)
    ensures OnGrid(b, wall, if a < wall then a + BLOCK_BYTES else a + WORD)
  {
    if a < wall {
      BlockEndsAtWord(b, wall, a);
      BlocksAreWords(a + BLOCK_BYTES - b);
    }
  }

  /** Where a planned operation lies, and why a window operation is shorter than a word. */
  ghost predicate Placed(zones: seq<SkipZone>, addr: nat, image: seq<Byte>, wall: nat, op: ChunkOp, b: nat) {
    && Stretch(zones, addr, wall, b, op.addr)
    && (op.addr >= wall && |op.block| < WORD ==> End(op) == addr + |image| || InZones(zones, End(op)))
  }

  ghost predicate IsPlaced(zones: seq<SkipZone>, addr: nat, image: seq<Byte>, wall: nat, op: ChunkOp) {
    exists b :: Placed(zones, addr, image, wall, op, b)
  }

  ghost predicate AllPlaced(ops: seq<ChunkOp>, zones: seq<SkipZone>, addr: nat, image: seq<Byte>, wall: nat) {
    forall i :: 0 <= i < |ops| ==> IsPlaced(zones, addr, image, wall, ops[i])
  }

  /** One round from the stretch that begins at `b`: the operation it emits, and the stretch it goes on in. */
  lemma {:induction false} RoundIsPlaced(addr: nat, image: seq<Byte>, wall: nat, zones: seq<SkipZone>, off: nat, b: nat) returns (next: nat)
    requires Proper(zones) && off < |image| && Stretch(zones, addr, wall, b, addr + off)
    ensures var r := RoundAt(addr, image, wall, zones, WORD, off);
            && (r.next < |image| ==> Stretch(zones, addr, wall, next, addr + r.next))
            && forall i :: 0 <= i < |r.emitted| ==> Placed(zones, addr, image, wall, r.emitted[i], b)
  {
    var r := RoundAt(addr, image, wall, zones, WORD, off);
    var end := ChunkEnd(addr, |image|, wall, WORD, off);
    var k := FirstTouched(zones, addr + off, addr + end, 0);
    if k == |zones| {
      next := b;
      NextOnGrid(b, wall, addr + off);
      forall x | b <= x < addr + end ensures !InZones(zones, x) {
        if addr + off <= x {
          forall i | 0 <= i < |zones| ensures !InZone(zones[i], x) { assert !Touches(zones[i], addr + off, addr + end); }
        }
      }
    } else {
      next := zones[k].end;
      assert InZone(zones[k], zones[k].start);
    }
  }

  lemma {:induction false} PlacedConcat(first: seq<ChunkOp>, rest: seq<ChunkOp>, zones: seq<SkipZone>, addr: nat, image: seq<Byte>, wall: nat, b: nat)
    requires AllPlaced(rest, zones, addr, image, wall)
    requires forall i :: 0 <= i < |first| ==> Placed(zones, addr, image, wall, first[i], b)
    ensures AllPlaced(first + rest, zones, addr, image, wall)
  {
    forall i | 0 <= i < |first| + |rest| ensures IsPlaced(zones, addr, image, wall, (first + rest)[i]) {
      if i < |first| {
        assert Placed(zones, addr, image, wall, first[i], b);
      } else {
        assert IsPlaced(zones, addr, image, wall, rest[i - |first|]);
      }
    }
  }

  lemma {:induction false} PlanIsPlaced(addr: nat, image: seq<Byte>, wall: nat, zones: seq<SkipZone>, off: nat, b: nat)
    requires Proper(zones) && (off < |image| ==> Stretch(zones, addr, wall, b, addr + off))
    ensures AllPlaced(PlanFrom(addr, image, wall, zones, WORD, off), zones, addr, image, wall)
    decreases if off < |image| then |image| - off else 0
  {
    if off < |image| {
      var r := RoundAt(addr, image, wall, zones, WORD, off);
      var next := RoundIsPlaced(addr, image, wall, zones, off, b);
      PlanIsPlaced(addr, image, wall, zones, r.next, next);
      PlacedConcat(r.emitted, PlanFrom(addr, image, wall, zones, WORD, r.next), zones, addr, image, wall, b);
    }
  }

  // When the zones stay untouched

  /**
   The words of the stretch that begins at `b` run into what begins at `start`: the last one, cut at `start` or at
   the end of the image, is filled up beyond it.
   */
  predicate Overruns(b: nat, wall: nat, end: nat, start: nat) {
    var top := Min(start, end);
    WindowFrom(b, wall) < top && (top - b) % WORD != 0 && start < top - (top - b) % WORD + WORD
  }

  /** The stretch that begins at `b` reaches as far as zone `j`, and its words run into it. */
  ghost predicate HitsZone(zones: seq<SkipZone>, addr: nat, image: seq<Byte>, wall: nat, b: nat, j: nat) {
    && j < |zones| && Begins(zones, addr, b) && Free(zones, b, zones[j].start)
    && Overruns(b, wall, addr + |image|, zones[j].start)
  }

  ghost predicate Spares(zones: seq<SkipZone>, ops: seq<ChunkOp>) {
    forall x :: InZones(zones, x) ==> !Written(ops, x)
  }

  lemma {:induction false} FirstZoneByte(zones: seq<SkipZone>, lo: nat, x: nat) returns (y: nat)
    requires lo <= x && InZones(zones, x)
    ensures lo <= y <= x && InZones(zones, y) && Free(zones, lo, y)
    decreases x - lo
  {
    if InZones(zones, lo) { y := lo; } else { y := FirstZoneByte(zones, lo + 1, x); }
  }

  lemma {:induction false} ShortWord(b: nat, wall: nat, end: nat, y: nat, op: ChunkOp)
    requires OnGrid(b, wall, op.addr) && op.addr >= wall && 0 < |op.block| < WORD
    requires End(op) == Min(y, end) && y < op.addr + WORD
    ensures Overruns(b, wall, end, y)
  {
  }

  /** A word that covers a byte of a zone gives the stretch and the zone. */
  lemma {:induction false} FromHit(zones: seq<SkipZone>, addr: nat, image: seq<Byte>, wall: nat, op: ChunkOp, x: nat) returns (b: nat, j: nat)
    requires Proper(zones) && InZones(zones, x) && 0 < |op.block| < WORD && op.addr >= wall && End(op) <= x < op.addr + WORD
    requires IsPlaced(zones, addr, image, wall, op)
    requires Free(zones, op.addr, End(op)) && End(op) <= addr + |image|
    ensures HitsZone(zones, addr, image, wall, b, j)
  {
    hide Overruns;
    b :| Placed(zones, addr, image, wall, op, b);
    var y := FirstZoneByte(zones, End(op), x);
    assert Free(zones, b, y);
    j := ZoneFrom(zones, b, y);
    ShortWord(b, wall, addr + |image|, y, op);
  }

  lemma {:induction false} ZoneFrom(zones: seq<SkipZone>, b: nat, y: nat) returns (j: nat)
    requires InZones(zones, y) && Free(zones, b, y) && b < y
    ensures j < |zones| && zones[j].start == y
  {
    j :| 0 <= j < |zones| && InZone(zones[j], y);
    if zones[j].start < y {
      var z := Max(b, zones[j].start);
      assert InZone(zones[j], z);
      assert InZones(zones, z);
    }
  }

  lemma {:induction false} HeldBefore(zones: seq<SkipZone>, addr: nat, b: nat)
    requires Proper(zones) && Begins(zones, addr, b)
    ensures b == addr || (addr < b && InZones(zones, b - 1))
  {
    if b != addr {
      var i :| 0 <= i < |zones| && zones[i].end == b;
      assert InZone(zones[i], b - 1);
    }
  }

  lemma {:induction false} SameStretch(zones: seq<SkipZone>, addr: nat, wall: nat, b: nat, a: nat, start: nat, op: ChunkOp, c: nat)
    requires Proper(zones) && Begins(zones, addr, b) && Free(zones, b, start) && a < start && b <= a
    requires Stretch(zones, addr, wall, c, op.addr) && Covers(op, a) && Free(zones, op.addr, End(op))
    ensures b == c
  {
    HeldBefore(zones, addr, b);
    HeldBefore(zones, addr, c);
  }

  lemma {:induction false} LastWord(b: nat, wall: nat, end: nat, start: nat, op: ChunkOp)
    requires Overruns(b, wall, end, start) && OnGrid(b, wall, op.addr)
    requires var top := Min(start, end); Covers(op, top - (top - b) % WORD)
    requires |op.block| <= if op.addr >= wall then WORD else BLOCK_BYTES
    ensures op.addr >= wall && op.addr <= start < op.addr + WORD
  {
    var top := Min(start, end);
    var a := top - (top - b) % WORD;
    var w := WindowFrom(b, wall);
    WindowGrid(b, wall);
    BlocksAreWords(w - b);
    var m, n := (top - b) / WORD, (w - b) / WORD;
    assert a == b + WORD * m && w == b + WORD * n && m >= n;
    if op.addr < wall {
      BlockEndsAtWord(b, wall, op.addr);
    } else {
      var q := (op.addr - b) / WORD;
      assert op.addr == b + WORD * q;
      assert q == m;
    }
  }

  lemma {:induction false} SentCovers(ops: seq<ChunkOp>, wall: nat, i: nat, x: int)
    requires i < |ops|
    ensures Covers(HybridUpload.AllSent(ops, true, wall)[i], x) <==>
            if ops[i].addr >= wall then ops[i].addr <= x < ops[i].addr + WORD else Covers(ops[i], x)
  {
  }

  lemma {:induction false} StartsPlaced(addr: nat, image: seq<Byte>, wall: nat, zones: seq<SkipZone>)
    requires Proper(zones)
    ensures AllPlaced(Plan(addr, image, wall, zones, WORD), zones, addr, image, wall)
  {
    PlanIsPlaced(addr, image, wall, zones, 0, addr);
  }

  lemma {:induction false} OpIsFree(zones: seq<SkipZone>, ops: seq<ChunkOp>, i: nat)
    requires Spares(zones, ops) && i < |ops|
    ensures Free(zones, ops[i].addr, End(ops[i]))
  {
    forall x | ops[i].addr <= x < End(ops[i]) ensures !InZones(zones, x) { assert Covers(ops[i], x); }
  }

  lemma {:induction false} OpThatCovers(zones: seq<SkipZone>, addr: nat, image: seq<Byte>, wall: nat, a: nat) returns (i: nat, c: nat)
    requires Proper(zones) && addr <= a < addr + |image| && !InZones(zones, a)
    ensures var ops := Plan(addr, image, wall, zones, WORD);
            && i < |ops| && Covers(ops[i], a) && Placed(zones, addr, image, wall, ops[i], c)
            && |ops[i].block| <= if ops[i].addr >= wall then WORD else BLOCK_BYTES
  {
    var ops := Plan(addr, image, wall, zones, WORD);
    PlanIsGood(addr, image, wall, zones, WORD, 0);
    StartsPlaced(addr, image, wall, zones);
    PlanCovers(addr, image, wall, zones, WORD, 0, a);
    i :| 0 <= i < |ops| && Covers(ops[i], a);
    c :| Placed(zones, addr, image, wall, ops[i], c);
    assert Sized(ops[i], wall, WORD);
  }

  lemma {:induction false} LastWordBegins(b: nat, wall: nat, end: nat, start: nat)
    requires Overruns(b, wall, end, start)
    ensures var top := Min(start, end); var a := top - (top - b) % WORD; b <= a < top
  {
    WindowGrid(b, wall);
  }

  /** A stretch whose words run into a zone has a word that covers the zone's first byte. */
  lemma {:induction false} ToHit(zones: seq<SkipZone>, addr: nat, image: seq<Byte>, wall: nat, b: nat, j: nat)
    requires Proper(zones) && Spares(zones, Plan(addr, image, wall, zones, WORD))
    requires HitsZone(zones, addr, image, wall, b, j)
    ensures InZones(zones, zones[j].start) && Written(Executed(addr, image, wall, zones), zones[j].start)
  {
    hide Plan;
    var ops, start := Plan(addr, image, wall, zones, WORD), zones[j].start;
    var top := Min(start, addr + |image|);
    var a := top - (top - b) % WORD;
    assert InZone(zones[j], start);
    LastWordBegins(b, wall, addr + |image|, start);
    var i, c := OpThatCovers(zones, addr, image, wall, a);
    OpIsFree(zones, ops, i);
    SameStretch(zones, addr, wall, b, a, start, ops[i], c);
    LastWord(b, wall, addr + |image|, start, ops[i]);
    SentCovers(ops, wall, i, start);
  }

  lemma {:induction false} PlanOp(addr: nat, image: seq<Byte>, wall: nat, zones: seq<SkipZone>, i: nat)
    requires Proper(zones) && i < |Plan(addr, image, wall, zones, WORD)|
    ensures var op := Plan(addr, image, wall, zones, WORD)[i];
            && IsPlaced(zones, addr, image, wall, op) && Sized(op, wall, WORD) && End(op) <= addr + |image|
  {
    var ops := Plan(addr, image, wall, zones, WORD);
    PlanIsGood(addr, image, wall, zones, WORD, 0);
    StartsPlaced(addr, image, wall, zones);
    assert Holds(ops[i], image, addr);
  }

  /**
   A plan that leaves the zones alone still does so when it is carried out in word mode exactly if no stretch of it,
   from the begin of the image or the end of a zone to the next zone, has a last word that runs into that zone.
   */
  lemma {:induction false} WordModeSparesIff(addr: nat, image: seq<Byte>, wall: nat, zones: seq<SkipZone>)
    requires Proper(zones) && Spares(zones, Plan(addr, image, wall, zones, WORD))
    ensures Spares(zones, Executed(addr, image, wall, zones)) <==> !exists b, j :: HitsZone(zones, addr, image, wall, b, j)
  {
    var ops, sent := Plan(addr, image, wall, zones, WORD), Executed(addr, image, wall, zones);
    if b: nat, j: nat :| HitsZone(zones, addr, image, wall, b, j) {
      ToHit(zones, addr, image, wall, b, j);
    } else {
      forall x | InZones(zones, x) ensures !Written(sent, x) {
        if i :| 0 <= i < |sent| && Covers(sent[i], x) {
          PlanOp(addr, image, wall, zones, i);
          OpIsFree(zones, ops, i);
          SentCovers(ops, wall, i, x);
          var b, j := FromHit(zones, addr, image, wall, ops[i], x);
          assert false;
        }
      }
    }
  }

  /** The stretch that begins at `b` reaches the end of the image, and its last word runs beyond it. */
  ghost predicate RunsOut(zones: seq<SkipZone>, addr: nat, image: seq<Byte>, wall: nat, b: nat) {
    Begins(zones, addr, b) && Free(zones, b, addr + |image|) && Overruns(b, wall, addr + |image|, addr + |image|)
  }

  lemma {:induction false} RunsOutIsWritten(zones: seq<SkipZone>, addr: nat, image: seq<Byte>, wall: nat, b: nat)
    requires Proper(zones) && Spares(zones, Plan(addr, image, wall, zones, WORD)) && RunsOut(zones, addr, image, wall, b)
    ensures Written(Executed(addr, image, wall, zones), addr + |image|)
  {
    hide Plan;
    var ops, end := Plan(addr, image, wall, zones, WORD), addr + |image|;
    var a := end - (end - b) % WORD;
    LastWordBegins(b, wall, end, end);
    var i, c := OpThatCovers(zones, addr, image, wall, a);
    OpIsFree(zones, ops, i);
    SameStretch(zones, addr, wall, b, a, end, ops[i], c);
    LastWord(b, wall, end, end, ops[i]);
    SentCovers(ops, wall, i, end);
  }

  /** An operation whose word ends behind the image, and not in a zone, is the last one. */
  lemma {:induction false} RunsOutFrom(zones: seq<SkipZone>, addr: nat, image: seq<Byte>, wall: nat, op: ChunkOp) returns (b: nat)
    requires IsPlaced(zones, addr, image, wall, op) && Free(zones, op.addr, End(op)) && 0 < |op.block| <= WORD && op.addr >= wall
    requires End(op) <= addr + |image| < op.addr + WORD && !InZones(zones, End(op))
    ensures RunsOut(zones, addr, image, wall, b)
  {
    hide Overruns;
    b :| Placed(zones, addr, image, wall, op, b);
    ShortWord(b, wall, addr + |image|, addr + |image|, op);
  }

  /** When the zones stay untouched, what is written behind the image is the rest of the last word, if it is cut. */
  lemma {:induction false} WritesPastTheEndIff(addr: nat, image: seq<Byte>, wall: nat, zones: seq<SkipZone>)
    requires Proper(zones) && Spares(zones, Plan(addr, image, wall, zones, WORD)) && Spares(zones, Executed(addr, image, wall, zones))
    ensures (exists x :: x >= addr + |image| && Written(Executed(addr, image, wall, zones), x)) <==>
            exists b :: RunsOut(zones, addr, image, wall, b)
  {
    hide Plan, RunsOut, IsPlaced;
    var ops, sent, end := Plan(addr, image, wall, zones, WORD), Executed(addr, image, wall, zones), addr + |image|;
    if b: nat :| RunsOut(zones, addr, image, wall, b) {
      RunsOutIsWritten(zones, addr, image, wall, b);
    } else if x :| x >= end && Written(sent, x) {
      var i :| 0 <= i < |sent| && Covers(sent[i], x);
      var op := ops[i];
      PlanOp(addr, image, wall, zones, i);
      OpIsFree(zones, ops, i);
      SentCovers(ops, wall, i, x);
      SentCovers(ops, wall, i, End(op));
      var b := RunsOutFrom(zones, addr, image, wall, op);
    }
  }

  /** Zones on word boundaries, below an image that begins on one, are safe whatever the wall and the image's length. */
  lemma {:induction false} AlignedZonesAreSafe(addr: nat, image: seq<Byte>, wall: nat, zones: seq<SkipZone>)
    requires Proper(zones) && Spares(zones, Plan(addr, image, wall, zones, WORD))
    requires addr % WORD == 0 && forall i :: 0 <= i < |zones| ==> zones[i].start % WORD == 0 && zones[i].end % WORD == 0
    ensures Spares(zones, Executed(addr, image, wall, zones))
  {
    forall b: nat, j: nat ensures !HitsZone(zones, addr, image, wall, b, j) {
      if j < |zones| && Begins(zones, addr, b) { WordsFit(b, wall, addr + |image|, zones[j].start); }
    }
    WordModeSparesIff(addr, image, wall, zones);
  }

  lemma {:induction false} WordsFit(b: nat, wall: nat, end: nat, start: nat)
    requires b % WORD == 0 && start % WORD == 0
    ensures !Overruns(b, wall, end, start)
  {
    var top := Min(start, end);
    if b <= top {
      var m, n := b / WORD, start / WORD;
      var q := (top - b) / WORD;
      assert b == WORD * m && start == WORD * n && top - (top - b) % WORD == WORD * (m + q);
      if top == start { assert (top - b) == WORD * (n - m); }
    }
  }

  /** A zone that begins off the word boundaries of the image is written, once the image reaches it from the window. */
  lemma {:induction false} MisalignedZoneIsHit(addr: nat, image: seq<Byte>, wall: nat, zones: seq<SkipZone>, j: nat)
    requires Proper(zones) && Spares(zones, Plan(addr, image, wall, zones, WORD)) && j < |zones|
    requires (zones[j].start - addr) % WORD != 0 && Free(zones, addr, zones[j].start)
    requires WindowFrom(addr, wall) < zones[j].start <= addr + |image|
    ensures !Spares(zones, Executed(addr, image, wall, zones))
  {
    assert HitsZone(zones, addr, image, wall, addr, j);
    WordModeSparesIff(addr, image, wall, zones);
  }
}
