/** From the sweep to the memory: the printed map, read back, steers the hybrid upload. */
module RetentionRun {
  import opened Common
  import opened Text
  import opened Uploads
  import opened HybridUpload
  import opened RetentionText
  import opened RetentionProbes
  import opened RetentionSweep
  import AdaptiveUpload

  /** The addresses the sweep goes through, in order. */
  ghost predicate SweptAddrs(addrs: seq<nat>) {
    Ascending(addrs) && forall a :: a in addrs <==> Probed(a)
  }

  /** At this address the sweep found that only the block write had stuck. */
  predicate SawBlk(addrs: seq<nat>, answers: seq<RetentionProbes.Answer>, start: nat, a: nat)
    requires |answers| == |addrs|
  {
    exists i :: start <= i < |addrs| && addrs[i] == a
                && answers[i].afterWord != Some(Pattern(a)) && answers[i].afterBlock == Some(BlockWord(a))
  }

  /** What the loader reads from the file the sweep printed. */
  function FileOf(addrs: seq<nat>, answers: seq<RetentionProbes.Answer>, start: nat): string
    requires |answers| == |addrs| && Ascending(addrs) && start <= |addrs| && RowsFrom(addrs, answers, start).Some?
  {
    SweepReadsBack(addrs, answers, start);
    Printed(RowsFrom(addrs, answers, start).value)
  }

  lemma {:induction false} BlkOfClass(a: nat, x: RetentionProbes.Answer)
    ensures Classify(a, x) == "blk" <==> x.afterWord != Some(Pattern(a)) && x.afterBlock == Some(BlockWord(a))
  {
  }

  /** The planner's block chunks are those the sweep saw. */
  lemma {:induction false} PlannedAsSeen(addrs: seq<nat>, answers: seq<RetentionProbes.Answer>, start: nat, a: nat)
    requires |answers| == |addrs| && Ascending(addrs) && start <= |addrs| && RowsFrom(addrs, answers, start).Some?
    ensures var loaded := LoadLines(map[], Lines(FileOf(addrs, answers, start)));
            loaded.Loaded? && (IsBlk(loaded.entries, a) <==> SawBlk(addrs, answers, start, a))
  {
    SweepReadsBack(addrs, answers, start);
    var m := LoadLines(map[], Lines(FileOf(addrs, answers, start))).entries;
    if a in m {
      var k :| 0 <= k < |addrs[start..]| && addrs[start..][k] == a;
      assert addrs[start + k] == a && m[addrs[start + k]] == Classify(a, answers[start + k]);
      BlkOfClass(a, answers[start + k]);
    }
    forall i | start <= i < |addrs| && addrs[i] == a ensures m[a] == Classify(a, answers[i]) && a in m {
      BlkOfClass(a, answers[i]);
    }
  }

  /**
   The whole way: a sweep without a failed write, its file, the classes read from it, the hybrid plan made of them and
   carried out in word mode. Each wanted byte holds the image, but for bytes 4 to 15 of the chunks where the sweep saw
   that only a block write sticks; all other memory is as it was.
   */
  lemma {:induction false} SweepToMemory(addrs: seq<nat>, answers: seq<RetentionProbes.Answer>, start: nat, ops: seq<ChunkOp>,
                                         image: seq<Byte>, ram: nat, mem: Memory, x: nat)
    requires |answers| == |addrs| && SweptAddrs(addrs) && start <= |addrs| && RowsFrom(addrs, answers, start).Some?
    requires Aligned(image, ram, MAP_START, MAP_END)
    requires var loaded := LoadLines(map[], Lines(FileOf(addrs, answers, start)));
             loaded.Loaded? ==> HybridPlan(ops, image, ram, MAP_START, MAP_END, loaded.entries)
    ensures LoadLines(map[], Lines(FileOf(addrs, answers, start))).Loaded?
    ensures After(mem, AllSent(ops, true, MAP_START), x) ==
            if Wanted(ram, MAP_START, MAP_END, x) && !(x >= MAP_START && x % 16 >= 4 && SawBlk(addrs, answers, start, Chunk(x)))
            then image[x - ram] else mem(x)
  {
    PlannedAsSeen(addrs, answers, start, Chunk(x));
    WordModeMemory(ops, image, ram, MAP_START, MAP_END, LoadLines(map[], Lines(FileOf(addrs, answers, start))).entries, mem, x);
  }

  /** So the upload puts the whole image in place exactly if the sweep saw no such chunk. */
  lemma {:induction false} SweepLandsIff(addrs: seq<nat>, answers: seq<RetentionProbes.Answer>, start: nat, ops: seq<ChunkOp>, image: seq<Byte>, ram: nat)
    requires |answers| == |addrs| && SweptAddrs(addrs) && start <= |addrs| && RowsFrom(addrs, answers, start).Some?
    requires Aligned(image, ram, MAP_START, MAP_END)
    requires var loaded := LoadLines(map[], Lines(FileOf(addrs, answers, start)));
             loaded.Loaded? ==> HybridPlan(ops, image, ram, MAP_START, MAP_END, loaded.entries)
    ensures ImageLands(ops, image, ram, MAP_START, MAP_END) <==> forall a: nat :: !SawBlk(addrs, answers, start, a)
  {
    hide ImageLands, HybridPlan, LoadLines, FileOf, SawBlk, SomeBlkChunk, RowsFrom, Lines;
    PlannedAsSeen(addrs, answers, start, 0);
    var m := LoadLines(map[], Lines(FileOf(addrs, answers, start))).entries;
    HybridUploadIsExactIff(ops, image, ram, MAP_START, MAP_END, m);
    SomeBlkIff(addrs, answers, start);
  }

  lemma {:induction false} SomeBlkIff(addrs: seq<nat>, answers: seq<RetentionProbes.Answer>, start: nat)
    requires |answers| == |addrs| && SweptAddrs(addrs) && start <= |addrs| && RowsFrom(addrs, answers, start).Some?
    ensures var loaded := LoadLines(map[], Lines(FileOf(addrs, answers, start)));
            loaded.Loaded? && (SomeBlkChunk(MAP_START, MAP_END, loaded.entries) <==> exists a: nat :: SawBlk(addrs, answers, start, a))
  {
    hide LoadLines, FileOf, RowsFrom, Lines;
    PlannedAsSeen(addrs, answers, start, 0);
    var m := LoadLines(map[], Lines(FileOf(addrs, answers, start))).entries;
    forall a: nat ensures IsBlk(m, a) <==> SawBlk(addrs, answers, start, a) {
      PlannedAsSeen(addrs, answers, start, a);
    }
    if a: nat :| SawBlk(addrs, answers, start, a) {
      SweptOutsideHalo(addrs, a);
    }
  }

  /** The halo lies in a no-touch zone, so the sweep does not go there. */
  lemma {:induction false} SweptOutsideHalo(addrs: seq<nat>, a: nat)
    requires SweptAddrs(addrs) && a in addrs
    ensures a % 16 == 0 && MAP_START <= a < MAP_END && !Halo(a)
  {
    var zones := AdaptiveUpload.CLONE_REG_ZONES;
    assert AdaptiveUpload.InZone(zones[0], a) ==> AdaptiveUpload.InZones(zones, a);
    assert zones[0] == AdaptiveUpload.SkipZone(0x170180, 0x170280);
  }
}
