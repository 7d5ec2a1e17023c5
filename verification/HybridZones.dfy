/** The hybrid plan against the zones of the adaptive one. */
module HybridZones {
  import opened Common
  import opened Uploads
  import opened AdaptiveUpload
  import opened HybridUpload
  import opened RetentionSweep

  /** The parts of the no-touch zones that lie in the window and outside the halo. */
  predicate Exposed(x: int) { 0x170180 <= x < 0x1701c0 || 0x170210 <= x < 0x170280 || 0x172380 <= x < 0x172390 }

  /** The hybrid plan never touches the halo, but it does write parts of the no-touch zones the sweep skips. */
  lemma {:induction false} HybridWritesInNoTouchZones(ops: seq<ChunkOp>, image: seq<Byte>, ram: nat,
                                                      classes: map<nat, string>, x: int)
    requires ram <= MAP_START && HybridPlan(ops, image, ram, MAP_START, MAP_END, classes)
    ensures Written(ops, x) && InZones(CLONE_REG_ZONES, x) <==> Exposed(x)
  {
    var zones := CLONE_REG_ZONES;
    assert InZones(zones, x) <==> InZone(zones[0], x) || InZone(zones[1], x);
  }
}
