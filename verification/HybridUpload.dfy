/** The hybrid plan of loader.go and the executor that carries plans out. */
module HybridUpload {
  import opened Common
  import opened Uploads

  const BLOCK_BYTES := 1024
  const HALO_START := 0x1701c0
  const HALO_END := 0x170210

  predicate Halo(x: int) { HALO_START <= x < HALO_END }

  predicate Aligned(image: seq<Byte>, ram: nat, wall: nat, windowEnd: nat) {
    && ram <= wall <= windowEnd < TWO_32 && (wall - ram) % BLOCK_BYTES == 0
    && wall % 16 == 0 && windowEnd % 16 == 0 && windowEnd - ram <= |image|
  }

  /** The bytes the plan is for: everything below the wall, and the window without the halo. */
  predicate Wanted(ram: nat, wall: nat, windowEnd: nat, x: int) {
    ram <= x < windowEnd && !(wall <= x && Halo(x))
  }

  /** A 16-byte chunk that retains only block writes; chunks missing from the map are written as words. */
  predicate IsBlk(classes: map<nat, string>, a: nat) {
    a in classes && classes[a] == "blk"
  }

  /** What a plan up to address `a` satisfies. */
  ghost predicate PlannedTo(ops: seq<ChunkOp>, image: seq<Byte>, ram: nat, wall: nat, a: nat) {
    && Ordered(ops) && Faithful(ops, image, ram) && (forall i :: 0 <= i < |ops| ==> End(ops[i]) <= a && |ops[i].block| > 0)
    && (forall x :: Written(ops, x) <==> Wanted(ram, wall, a, x))
  }

  predicate HaloFree(wall: nat, a: nat, n: nat) {
    forall x :: a <= x < a + n ==> !(wall <= x && Halo(x))
  }

  /** The part of the image that belongs at [a, a + n). */
  function Slice(image: seq<Byte>, ram: nat, a: nat, n: nat): ChunkOp
    requires ram <= a && a + n <= ram + |image|
  {
    ChunkOp(a, image[a - ram..a - ram + n])
  }

  lemma AppendChunk(ops: seq<ChunkOp>, image: seq<Byte>, ram: nat, wall: nat, a: nat, n: nat)
    requires PlannedTo(ops, image, ram, wall, a) && ram <= a && 0 < n && a + n <= ram + |image|
    requires HaloFree(wall, a, n)
    ensures PlannedTo(ops + [Slice(image, ram, a, n)], image, ram, wall, a + n)
  {
    var op := Slice(image, ram, a, n);
    forall x ensures Written(ops + [op], x) <==> Wanted(ram, wall, a + n, x) {
      WrittenAppend(ops, op, x);
    }
  }

  /** The 16-byte chunk `x` lies in. */
  function Chunk(x: nat): nat { x / 16 * 16 }

  /** Below the wall blocks of 1 KB; above it a chunk classed "blk" goes out whole, every other chunk in four words. */
  predicate SizedByClass(op: ChunkOp, wall: nat, classes: map<nat, string>) {
    if op.addr < wall then End(op) <= wall && |op.block| == 1024
    else if IsBlk(classes, Chunk(op.addr)) then |op.block| == 16 && op.addr % 16 == 0
    else |op.block| == 4 && op.addr % 4 == 0
  }

  ghost predicate HybridPlan(ops: seq<ChunkOp>, image: seq<Byte>, ram: nat, wall: nat, a: nat,
                             classes: map<nat, string>) {
    PlannedTo(ops, image, ram, wall, a) && forall i :: 0 <= i < |ops| ==> SizedByClass(ops[i], wall, classes)
  }

  lemma AppendSized(ops: seq<ChunkOp>, image: seq<Byte>, ram: nat, wall: nat, a: nat, n: nat,
                    classes: map<nat, string>)
    requires HybridPlan(ops, image, ram, wall, a, classes) && ram <= a && 0 < n && a + n <= ram + |image|
    requires HaloFree(wall, a, n) && SizedByClass(Slice(image, ram, a, n), wall, classes)
    ensures HybridPlan(ops + [Slice(image, ram, a, n)], image, ram, wall, a + n, classes)
  {
    AppendChunk(ops, image, ram, wall, a, n);
  }

  lemma ChunkOfWord(c: nat, w: nat)
    requires c % 16 == 0 && w < 16 && w % 4 == 0
    ensures Chunk(c + w) == c && (c + w) % 4 == 0
  {
    var q := c / 16;
    assert c + w == 16 * q + w && (c + w) / 16 == q;
    assert c + w == 4 * (4 * q + w / 4);
  }

  /** The four word writes for the chunk at `a`. */
  method AppendWords(before: seq<ChunkOp>, image: seq<Byte>, ram: nat, wall: nat, a: nat,
                     classes: map<nat, string>)
    returns (ops: seq<ChunkOp>)
    requires HybridPlan(before, image, ram, wall, a, classes)
    requires ram <= wall <= a && a % 16 == 0 && a + 16 <= ram + |image|
    requires !IsBlk(classes, a) && HaloFree(wall, a, 16)
    ensures HybridPlan(ops, image, ram, wall, a + 16, classes)
  {
    ops := before;
    var w := 0;
    while w < 16
      invariant 0 <= w <= 16 && w % 4 == 0
      invariant HybridPlan(ops, image, ram, wall, a + w, classes)
    {
      ChunkOfWord(a, w);
      AppendSized(ops, image, ram, wall, a + w, 4, classes);
      ops, w := ops + [Slice(image, ram, a + w, 4)], w + 4;
    }
  }

  lemma {:induction false} NextBlock(n: nat, off: nat)
    requires n % BLOCK_BYTES == 0 && off % BLOCK_BYTES == 0 && off < n
    ensures off + BLOCK_BYTES <= n && (off + BLOCK_BYTES) % BLOCK_BYTES == 0
  {
    var q, r := n / BLOCK_BYTES, off / BLOCK_BYTES;
    assert n == BLOCK_BYTES * q && off == BLOCK_BYTES * r && r + 1 <= q;
    assert off + BLOCK_BYTES == BLOCK_BYTES * (r + 1);
  }

  lemma {:induction false} AppendBelowWall(ops: seq<ChunkOp>, image: seq<Byte>, ram: nat, wall: nat, a: nat,
                                           classes: map<nat, string>)
    requires HybridPlan(ops, image, ram, wall, a, classes) && ram <= a && a + BLOCK_BYTES <= wall <= ram + |image|
    ensures HybridPlan(ops + [Slice(image, ram, a, BLOCK_BYTES)], image, ram, wall, a + BLOCK_BYTES, classes)
  {
    AppendSized(ops, image, ram, wall, a, BLOCK_BYTES, classes);
  }

  /** The 1 KB blocks below the wall. */
  method PlanBelowWall(image: seq<Byte>, ram: nat, wall: nat, classes: map<nat, string>)
    returns (ops: seq<ChunkOp>)
    requires ram <= wall && (wall - ram) % BLOCK_BYTES == 0 && wall - ram <= |image|
    ensures HybridPlan(ops, image, ram, wall, wall, classes)
  {
    ops := [];
    var off := 0;
    while off < wall - ram
      invariant 0 <= off <= wall - ram && off % BLOCK_BYTES == 0
      invariant HybridPlan(ops, image, ram, wall, ram + off, classes)
    {
      NextBlock(wall - ram, off);
      AppendBelowWall(ops, image, ram, wall, ram + off, classes);
      ops := ops + [Slice(image, ram, ram + off, BLOCK_BYTES)];
      off := off + BLOCK_BYTES;
    }
  }

  /** Nothing of a halo chunk is wanted, so the plan up to it is the plan past it. */
  lemma SkipChunk(ops: seq<ChunkOp>, image: seq<Byte>, ram: nat, wall: nat, a: nat)
    requires PlannedTo(ops, image, ram, wall, a)
    requires ram <= wall <= a && a % 16 == 0 && HALO_START <= a < HALO_END
    ensures PlannedTo(ops, image, ram, wall, a + 16)
  {
  }

  lemma OutsideHalo(wall: nat, a: nat)
    requires a % 16 == 0 && !Halo(a)
    ensures HaloFree(wall, a, 16)
  {
  }

  method BuildHybridOps(image: seq<Byte>, ram: nat, wall: nat, windowEnd: nat, classes: map<nat, string>)
    returns (ops: seq<ChunkOp>)
    requires Aligned(image, ram, wall, windowEnd)
    ensures HybridPlan(ops, image, ram, wall, windowEnd, classes)
  {
    ops := PlanBelowWall(image, ram, wall, classes);
    var a := wall;
    while a < windowEnd
      invariant wall <= a <= windowEnd && a % 16 == 0
      invariant HybridPlan(ops, image, ram, wall, a, classes)
    {
      if a >= HALO_START && a < HALO_END {
        SkipChunk(ops, image, ram, wall, a);
      } else {
        OutsideHalo(wall, a);
        if IsBlk(classes, a) {
          ChunkOfWord(a, 0);
          AppendSized(ops, image, ram, wall, a, 16, classes);
          ops := ops + [Slice(image, ram, a, 16)];
        } else {
          ops := AppendWords(ops, image, ram, wall, a, classes);
        }
      }
      a := a + 16;
    }
  }

  /** What the hybrid plan leaves in memory, and that it sends no byte twice. */
  lemma HybridPlanIsExact(ops: seq<ChunkOp>, image: seq<Byte>, ram: nat, wall: nat, windowEnd: nat,
                          classes: map<nat, string>, mem: Memory)
    requires Aligned(image, ram, wall, windowEnd) && HybridPlan(ops, image, ram, wall, windowEnd, classes)
    ensures Ordered(ops)
    ensures forall x :: After(mem, ops, x) == if Wanted(ram, wall, windowEnd, x) then image[x - ram] else mem(x)
    ensures var from := Max(wall, Min(HALO_START, windowEnd));
            var to := Max(from, Min(HALO_END, windowEnd));
            TotalBytes(ops) == windowEnd - ram - (to - from)
  {
    forall x ensures After(mem, ops, x) == if Wanted(ram, wall, windowEnd, x) then image[x - ram] else mem(x) {
      AfterFaithful(mem, ops, image, ram, x);
    }
    var from := Max(wall, Min(HALO_START, windowEnd));
    var to := Max(from, Min(HALO_END, windowEnd));
    BytesAreAddresses(ops, ram, windowEnd);
    CountRun(ops, ram, ram, from, true);
    CountRun(ops, ram, from, to, false);
    CountRun(ops, ram, to, windowEnd, true);
  }

  // The executor

  function LE32(v: nat): (b: seq<Byte>)
    requires v < TWO_32
    ensures |b| == 4
  {
    [v % 256, v / 256 % 256, v / 65536 % 256, v / 16777216]
  }

  function FromLE32(b: seq<Byte>): (v: nat)
    requires |b| == 4
    ensures v < TWO_32
  {
    (b[0] as int) + 256 * (b[1] as int) + 65536 * (b[2] as int) + 16777216 * (b[3] as int)
  }

  lemma Le32RoundTrip(b: seq<Byte>)
    requires |b| == 4
    ensures LE32(FromLE32(b)) == b
  {
    var v := FromLE32(b);
    assert v / 256 == (b[1] as int) + 256 * (b[2] as int) + 65536 * (b[3] as int);
    assert v / 65536 == (b[2] as int) + 256 * (b[3] as int);
    assert v / 16777216 == b[3];
  }

  /** The first four bytes of a block, filled up with zeros. */
  function FirstWord(block: seq<Byte>): (w: seq<Byte>)
    ensures |w| == 4 && forall i :: 0 <= i < 4 ==> w[i] == if i < |block| then block[i] else 0
  {
    if |block| >= 4 then block[..4] else block + [0, 0, 0, 0][..4 - |block|]
  }

  /** The write an operation turns into: in word mode only the first word of it, above the wall. */
  function Sent(op: ChunkOp, wordMode: bool, wall: nat): ChunkOp {
    if wordMode && op.addr >= wall then ChunkOp(op.addr, FirstWord(op.block)) else op
  }

  function AllSent(ops: seq<ChunkOp>, wordMode: bool, wall: nat): (r: seq<ChunkOp>)
    ensures |r| == |ops| && forall i :: 0 <= i < |r| ==> r[i] == Sent(ops[i], wordMode, wall)
  {
    seq(|ops|, i requires 0 <= i < |ops| => Sent(ops[i], wordMode, wall))
  }

  /** How a write ends: confirmed, or with an error after which it may have landed all the same. */
  datatype Answer = Confirmed | Error(landed: bool)

  function NextAnswer(answers: seq<Answer>): Answer { if answers == [] then Confirmed else answers[0] }

  predicate Lands(a: Answer) { a.Confirmed? || a.landed }

  /** The chip's memory port: the writes that landed, and how it will answer the next ones. */
  class MemoryPort {
    var writes: seq<ChunkOp>
    var answers: seq<Answer>

    constructor (answers: seq<Answer>)
      ensures writes == [] && this.answers == answers
    {
      writes := [];
      this.answers := answers;
    }

    method MemBlockWrite(addr: nat, block: seq<Byte>) returns (ok: bool)
      modifies this
      ensures ok == NextAnswer(old(answers)).Confirmed?
      ensures answers == if old(answers) == [] then [] else old(answers)[1..]
      ensures writes == old(writes) + if Lands(NextAnswer(old(answers))) then [ChunkOp(addr, block)] else []
    {
      var answer := Confirmed;
      if answers != [] { answer, answers := answers[0], answers[1..]; }
      if Lands(answer) { writes := writes + [ChunkOp(addr, block)]; }
      ok := answer.Confirmed?;
    }

    method MemWrite(addr: nat, val: nat) returns (ok: bool)
      requires val < TWO_32
      modifies this
      ensures ok == NextAnswer(old(answers)).Confirmed?
      ensures answers == if old(answers) == [] then [] else old(answers)[1..]
      ensures writes == old(writes) + if Lands(NextAnswer(old(answers))) then [ChunkOp(addr, LE32(val))] else []
    {
      ok := MemBlockWrite(addr, LE32(val));
    }
  }

  predicate AllConfirmed(answers: seq<Answer>, n: nat) { forall i :: 0 <= i < n && i < |answers| ==> answers[i].Confirmed? }

  /** One operation: a word write above the wall in word mode, else a block write. */
  method SendOne(port: MemoryPort, op: ChunkOp, wordMode: bool, wall: nat) returns (ok: bool)
    modifies port
    ensures ok == NextAnswer(old(port.answers)).Confirmed?
    ensures port.answers == if old(port.answers) == [] then [] else old(port.answers)[1..]
    ensures port.writes == old(port.writes) + if Lands(NextAnswer(old(port.answers))) then [Sent(op, wordMode, wall)] else []
  {
    if wordMode && op.addr >= wall {
      var word := FirstWord(op.block);
      Le32RoundTrip(word);
      ok := port.MemWrite(op.addr, FromLE32(word));
    } else {
      ok := port.MemBlockWrite(op.addr, op.block);
    }
  }

  /** The answers still to come after `i` calls. */
  function Rest(answers: seq<Answer>, i: nat): seq<Answer> { if i <= |answers| then answers[i..] else [] }

  lemma RestStep(answers: seq<Answer>, i: nat)
    ensures Rest(answers, i + 1) == if Rest(answers, i) == [] then [] else Rest(answers, i)[1..]
    ensures AllConfirmed(answers, i + 1) <==> AllConfirmed(answers, i) && NextAnswer(Rest(answers, i)).Confirmed?
  {
  }

  lemma OneMore(ops: seq<ChunkOp>, i: nat, wordMode: bool, wall: nat)
    requires i < |ops|
    ensures TotalBytes(ops[..i + 1]) == TotalBytes(ops[..i]) + |ops[i].block|
    ensures AllSent(ops[..i + 1], wordMode, wall) == AllSent(ops[..i], wordMode, wall) + [Sent(ops[i], wordMode, wall)]
  {
    assert ops[..i + 1][..i] == ops[..i];
  }

  /** How many of `n` writes landed when `done` were confirmed: one more, if the failing one landed all the same. */
  function Landed(answers: seq<Answer>, n: nat, done: nat): (landed: nat)
    ensures done <= n ==> landed <= n
  {
    if done < n && Lands(NextAnswer(Rest(answers, done))) then done + 1 else done
  }

  lemma {:induction false} RefusedAt(answers: seq<Answer>, i: nat, n: nat)
    requires i < n && !NextAnswer(Rest(answers, i)).Confirmed?
    ensures !AllConfirmed(answers, n)
    ensures Landed(answers, n, i) == if Lands(NextAnswer(Rest(answers, i))) then i + 1 else i
  {
    assert !AllConfirmed(answers, i + 1) by { RestStep(answers, i); }
  }

  /**
   Carries a plan out until a write ends with an error; that last write may have landed. The byte count
   is the plan's up to there, not the port's.
   */
  method Execute(port: MemoryPort, ops: seq<ChunkOp>, wordMode: bool, wall: nat)
    returns (ok: bool, uploaded: nat, ghost done: nat)
    modifies port
    ensures done <= |ops| && (ok <==> done == |ops|)
    ensures AllConfirmed(old(port.answers), done) && (ok <==> AllConfirmed(old(port.answers), |ops|))
    ensures uploaded == TotalBytes(ops[..done])
    ensures port.writes == old(port.writes) + AllSent(ops[..Landed(old(port.answers), |ops|, done)], wordMode, wall)
  {
    uploaded, done := 0, 0;
    ghost var answers := port.answers;
    var i := 0;
    while i < |ops|
      invariant 0 <= i == done <= |ops| && AllConfirmed(answers, i)
      invariant port.answers == Rest(answers, i)
      invariant uploaded == TotalBytes(ops[..i])
      invariant port.writes == old(port.writes) + AllSent(ops[..i], wordMode, wall)
    {
      OneMore(ops, i, wordMode, wall);
      RestStep(answers, i);
      ok := SendOne(port, ops[i], wordMode, wall);
      if !ok {
        RefusedAt(answers, i, |ops|);
        return;
      }
      uploaded := uploaded + |ops[i].block|;
      i, done := i + 1, done + 1;
    }
    ok := true;
  }

  /** Which wanted bytes survive word mode: all but bytes 4..15 of the chunks classed "blk". */
  predicate SurvivesWordMode(wall: nat, classes: map<nat, string>, x: nat) {
    x >= wall && IsBlk(classes, Chunk(x)) ==> x % 16 < 4
  }

  lemma SameChunk(a: nat, x: nat)
    ensures a % 4 == 0 && a <= x < a + 4 ==> Chunk(x) == Chunk(a)
    ensures a % 16 == 0 && a <= x < a + 16 ==> Chunk(x) == a == Chunk(a) && (x % 16 < 4 <==> x < a + 4)
  {
  }

  lemma SentCovers(op: ChunkOp, wall: nat, classes: map<nat, string>, x: nat)
    requires SizedByClass(op, wall, classes)
    ensures Covers(Sent(op, true, wall), x) <==> Covers(op, x) && SurvivesWordMode(wall, classes, x)
  {
    SameChunk(op.addr, x);
  }

  lemma WordModeWrites(ops: seq<ChunkOp>, image: seq<Byte>, ram: nat, wall: nat, windowEnd: nat,
                       classes: map<nat, string>, x: nat)
    requires HybridPlan(ops, image, ram, wall, windowEnd, classes)
    ensures Written(AllSent(ops, true, wall), x) <==> Wanted(ram, wall, windowEnd, x) && SurvivesWordMode(wall, classes, x)
  {
    var sent := AllSent(ops, true, wall);
    if Written(sent, x) {
      var i :| 0 <= i < |sent| && Covers(sent[i], x);
      SentCovers(ops[i], wall, classes, x);
      assert Written(ops, x);
    }
    if Written(ops, x) {
      var i :| 0 <= i < |ops| && Covers(ops[i], x);
      SentCovers(ops[i], wall, classes, x);
      assert Covers(sent[i], x) <==> SurvivesWordMode(wall, classes, x);
    }
  }

  lemma SentHolds(op: ChunkOp, image: seq<Byte>, ram: nat, wall: nat, classes: map<nat, string>)
    requires Holds(op, image, ram) && SizedByClass(op, wall, classes)
    ensures Holds(Sent(op, true, wall), image, ram)
  {
    if op.addr >= wall {
      var at := op.addr - ram;
      assert image[at..at + |op.block|][..4] == image[at..at + 4];
    }
  }

  lemma SentFaithful(ops: seq<ChunkOp>, image: seq<Byte>, ram: nat, wall: nat, windowEnd: nat,
                     classes: map<nat, string>)
    requires HybridPlan(ops, image, ram, wall, windowEnd, classes)
    ensures Faithful(AllSent(ops, true, wall), image, ram)
  {
    forall i | 0 <= i < |ops| ensures Holds(Sent(ops[i], true, wall), image, ram) {
      SentHolds(ops[i], image, ram, wall, classes);
    }
  }

  /** What the executor really leaves behind in word mode. */
  lemma WordModeMemory(ops: seq<ChunkOp>, image: seq<Byte>, ram: nat, wall: nat, windowEnd: nat,
                       classes: map<nat, string>, mem: Memory, x: nat)
    requires Aligned(image, ram, wall, windowEnd) && HybridPlan(ops, image, ram, wall, windowEnd, classes)
    ensures After(mem, AllSent(ops, true, wall), x) ==
            if Wanted(ram, wall, windowEnd, x) && SurvivesWordMode(wall, classes, x) then image[x - ram] else mem(x)
  {
    SentFaithful(ops, image, ram, wall, windowEnd, classes);
    WordModeWrites(ops, image, ram, wall, windowEnd, classes, x);
    AfterFaithful(mem, AllSent(ops, true, wall), image, ram, x);
  }

  /** Every wanted byte is in place, whatever the memory held before. */
  ghost predicate ImageLands(ops: seq<ChunkOp>, image: seq<Byte>, ram: nat, wall: nat, windowEnd: nat)
    requires windowEnd - ram <= |image|
  {
    forall mem: Memory, x: nat :: Wanted(ram, wall, windowEnd, x) ==>
      After(mem, AllSent(ops, true, wall), x) == image[x - ram]
  }

  /** A window chunk outside the halo that the map sends down the block path. */
  ghost predicate SomeBlkChunk(wall: nat, windowEnd: nat, classes: map<nat, string>) {
    exists c: nat :: c % 16 == 0 && wall <= c < windowEnd && !Halo(c) && IsBlk(classes, c)
  }

  lemma WordMapLands(ops: seq<ChunkOp>, image: seq<Byte>, ram: nat, wall: nat, windowEnd: nat,
                     classes: map<nat, string>, mem: Memory, x: nat)
    requires Aligned(image, ram, wall, windowEnd) && HybridPlan(ops, image, ram, wall, windowEnd, classes)
    requires !SomeBlkChunk(wall, windowEnd, classes) && Wanted(ram, wall, windowEnd, x)
    ensures After(mem, AllSent(ops, true, wall), x) == image[x - ram]
  {
    WordModeMemory(ops, image, ram, wall, windowEnd, classes, mem, x);
    if !SurvivesWordMode(wall, classes, x) { BlkChunkOf(wall, windowEnd, classes, x); }
  }

  /** A memory that holds the image nowhere. */
  function Opposite(image: seq<Byte>, ram: nat): Memory {
    y => if 0 <= y - ram < |image| && image[y - ram] == 0 then 1 else 0
  }

  lemma OppositeDiffers(image: seq<Byte>, ram: nat, x: int)
    requires 0 <= x - ram < |image|
    ensures Opposite(image, ram)(x) != image[x - ram]
  {
  }

  /** The second word of a block chunk is wanted but never sent. */
  lemma SecondWordLost(wall: nat, windowEnd: nat, ram: nat, classes: map<nat, string>, c: nat)
    requires ram <= wall && windowEnd % 16 == 0
    requires c % 16 == 0 && wall <= c < windowEnd && !Halo(c) && IsBlk(classes, c)
    ensures Wanted(ram, wall, windowEnd, c + 4) && !SurvivesWordMode(wall, classes, c + 4)
  {
    SameChunk(c, c + 4);
  }

  lemma BlkChunkIsTorn(ops: seq<ChunkOp>, image: seq<Byte>, ram: nat, wall: nat, windowEnd: nat,
                       classes: map<nat, string>, c: nat)
    requires Aligned(image, ram, wall, windowEnd) && HybridPlan(ops, image, ram, wall, windowEnd, classes)
    requires Wanted(ram, wall, windowEnd, c) && !SurvivesWordMode(wall, classes, c)
    ensures After(Opposite(image, ram), AllSent(ops, true, wall), c) != image[c - ram]
  {
    var mem := Opposite(image, ram);
    OppositeDiffers(image, ram, c);
    WordModeMemory(ops, image, ram, wall, windowEnd, classes, mem, c);
  }

  lemma WordMapLandsAll(ops: seq<ChunkOp>, image: seq<Byte>, ram: nat, wall: nat, windowEnd: nat,
                        classes: map<nat, string>)
    requires Aligned(image, ram, wall, windowEnd) && HybridPlan(ops, image, ram, wall, windowEnd, classes)
    requires !SomeBlkChunk(wall, windowEnd, classes)
    ensures ImageLands(ops, image, ram, wall, windowEnd)
  {
    forall mem: Memory, x: nat | Wanted(ram, wall, windowEnd, x)
      ensures After(mem, AllSent(ops, true, wall), x) == image[x - ram]
    {
      WordMapLands(ops, image, ram, wall, windowEnd, classes, mem, x);
    }
  }

  lemma BlkMapDoesNot(ops: seq<ChunkOp>, image: seq<Byte>, ram: nat, wall: nat, windowEnd: nat,
                      classes: map<nat, string>, c: nat)
    requires Aligned(image, ram, wall, windowEnd) && HybridPlan(ops, image, ram, wall, windowEnd, classes)
    requires Wanted(ram, wall, windowEnd, c) && !SurvivesWordMode(wall, classes, c)
    ensures !ImageLands(ops, image, ram, wall, windowEnd)
  {
    BlkChunkIsTorn(ops, image, ram, wall, windowEnd, classes, c);
  }

  /** The hybrid upload puts the whole image in place exactly when the map sends no chunk down the block path. */
  lemma HybridUploadIsExactIff(ops: seq<ChunkOp>, image: seq<Byte>, ram: nat, wall: nat, windowEnd: nat,
                               classes: map<nat, string>)
    requires Aligned(image, ram, wall, windowEnd) && HybridPlan(ops, image, ram, wall, windowEnd, classes)
    ensures ImageLands(ops, image, ram, wall, windowEnd) <==> !SomeBlkChunk(wall, windowEnd, classes)
  {
    if SomeBlkChunk(wall, windowEnd, classes) {
      var c: nat :| c % 16 == 0 && wall <= c < windowEnd && !Halo(c) && IsBlk(classes, c);
      SecondWordLost(wall, windowEnd, ram, classes, c);
      BlkMapDoesNot(ops, image, ram, wall, windowEnd, classes, c + 4);
    } else {
      WordMapLandsAll(ops, image, ram, wall, windowEnd, classes);
    }
  }

  lemma BlkChunkOf(wall: nat, windowEnd: nat, classes: map<nat, string>, x: nat)
    requires wall % 16 == 0 && wall <= x < windowEnd && !Halo(x) && IsBlk(classes, Chunk(x))
    ensures SomeBlkChunk(wall, windowEnd, classes)
  {
    var c := Chunk(x);
    assert c % 16 == 0 && wall <= c < windowEnd && !Halo(c);
  }
}

/**
 Firmware upload planning: which bytes of the image go to which address, in what
 order, and what the chip's memory holds afterwards.
 */
module Uploads {
  import opened Common

  /** One planned block write. */
  datatype ChunkOp = ChunkOp(addr: nat, block: seq<Byte>)

  function End(op: ChunkOp): nat { op.addr + |op.block| }

  predicate Covers(op: ChunkOp, x: int) { op.addr <= x < End(op) }

  predicate Written(ops: seq<ChunkOp>, x: int) {
    exists i :: 0 <= i < |ops| && Covers(ops[i], x)
  }

  /** Ascending order without overlap. */
  predicate Ordered(ops: seq<ChunkOp>) {
    forall i, j :: 0 <= i < j < |ops| ==> End(ops[i]) <= ops[j].addr
  }

  predicate Holds(op: ChunkOp, image: seq<Byte>, base: nat) {
    base <= op.addr && End(op) <= base + |image| && op.block == image[op.addr - base..End(op) - base]
  }

  /** Every block is the part of the image that belongs at its address. */
  predicate Faithful(ops: seq<ChunkOp>, image: seq<Byte>, base: nat) {
    forall i :: 0 <= i < |ops| ==> Holds(ops[i], image, base)
  }

  function TotalBytes(ops: seq<ChunkOp>): nat {
    if ops == [] then 0 else TotalBytes(ops[..|ops| - 1]) + |ops[|ops| - 1].block|
  }

  type Memory = int -> Byte

  /** The byte at `x` once the writes have been made in order: the last one that covers `x` decides. */
  function After(mem: Memory, ops: seq<ChunkOp>, x: int): Byte {
    if ops == [] then mem(x)
    else
      var last := ops[|ops| - 1];
      if Covers(last, x) then last.block[x - last.addr] else After(mem, ops[..|ops| - 1], x)
  }

  lemma WrittenAppend(ops: seq<ChunkOp>, op: ChunkOp, x: int)
    ensures Written(ops + [op], x) <==> Written(ops, x) || Covers(op, x)
  {
    if Written(ops, x) {
      var i :| 0 <= i < |ops| && Covers(ops[i], x);
      assert Covers((ops + [op])[i], x);
    }
    if Covers(op, x) { assert Covers((ops + [op])[|ops|], x); }
  }

  /** How many addresses in [lo, hi) the plan writes. */
  ghost function CountWritten(ops: seq<ChunkOp>, lo: int, hi: int): nat
    decreases hi - lo
  {
    if hi <= lo then 0 else CountWritten(ops, lo, hi - 1) + if Written(ops, hi - 1) then 1 else 0
  }

  predicate Within(ops: seq<ChunkOp>, lo: int, hi: int) {
    forall i :: 0 <= i < |ops| ==> lo <= ops[i].addr && End(ops[i]) <= hi
  }

  lemma {:induction false} CountSame(a: seq<ChunkOp>, b: seq<ChunkOp>, lo: int, hi: int)
    requires forall x :: lo <= x < hi ==> (Written(a, x) <==> Written(b, x))
    ensures CountWritten(a, lo, hi) == CountWritten(b, lo, hi)
    decreases hi - lo
  {
    if lo < hi { CountSame(a, b, lo, hi - 1); }
  }

  /** A run of addresses that are all written, or none. */
  lemma {:induction false} CountRun(ops: seq<ChunkOp>, lo: int, mid: int, hi: int, all: bool)
    requires lo <= mid <= hi && forall x :: mid <= x < hi ==> Written(ops, x) == all
    ensures CountWritten(ops, lo, hi) == CountWritten(ops, lo, mid) + if all then hi - mid else 0
    decreases hi - mid
  {
    if mid < hi { CountRun(ops, lo, mid, hi - 1, all); }
  }

  /** Ordered operations write no address twice: their bytes add up to the addresses written. */
  lemma {:induction false} BytesAreAddresses(ops: seq<ChunkOp>, lo: int, hi: int)
    requires Ordered(ops) && Within(ops, lo, hi) && lo <= hi
    ensures TotalBytes(ops) == CountWritten(ops, lo, hi)
    decreases |ops|
  {
    if ops == [] {
      CountRun(ops, lo, lo, hi, false);
    } else {
      var n := |ops| - 1;
      var op := ops[n];
      assert ops == ops[..n] + [op];
      forall x ensures Written(ops, x) <==> Written(ops[..n], x) || Covers(op, x) { WrittenAppend(ops[..n], op, x); }
      forall i | 0 <= i < n ensures End(ops[..n][i]) <= op.addr { assert End(ops[i]) <= ops[n].addr; }
      BytesAreAddresses(ops[..n], lo, op.addr);
      CountSame(ops, ops[..n], lo, op.addr);
      CountRun(ops, lo, op.addr, End(op), true);
      CountRun(ops, lo, End(op), hi, false);
    }
  }

  /** A faithful plan puts the image where it writes, and changes nothing else. */
  lemma {:induction false} AfterFaithful(mem: Memory, ops: seq<ChunkOp>, image: seq<Byte>, base: nat, x: int)
    requires Faithful(ops, image, base)
    ensures Written(ops, x) ==> base <= x < base + |image| && After(mem, ops, x) == image[x - base]
    ensures !Written(ops, x) ==> After(mem, ops, x) == mem(x)
  {
    if ops != [] {
      var n := |ops| - 1;
      assert ops == ops[..n] + [ops[n]];
      WrittenAppend(ops[..n], ops[n], x);
      AfterFaithful(mem, ops[..n], image, base, x);
      if Covers(ops[n], x) {
        assert Holds(ops[n], image, base);
        assert ops[n].block[x - ops[n].addr] == image[x - base];
      }
    }
  }
}
