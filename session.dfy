/** Whole runs of the program as `start()` sets it up. */
module Session {
  import opened Wrappers
  import opened Geometry
  import opened Grid
  import opened Keys
  import opened Movement
  import opened Lifecycle

  /** Frames with a displacement of at most one row per frame, from the spawn index, never panic. */
  lemma {:induction false} ForwardRunSafe(d: nat, c: Held)
    requires d == Delta(c, WORLD_WIDTH) && !c.left && !c.up
    ensures forall k: nat :: k <= FRAME_LIMIT ==> UpdateSafe(HeadAfter(SPAWN_INDEX, d, k), WORLD_WIDTH, c)
  {
    forall k: nat | k <= FRAME_LIMIT
      ensures UpdateSafe(HeadAfter(SPAWN_INDEX, d, k), WORLD_WIDTH, c)
    {
      MulMonotone(k, FRAME_LIMIT, d);
      MulMonotone(d, WORLD_WIDTH + 1, FRAME_LIMIT);
      assert 0 <= k * d <= FRAME_LIMIT * (WORLD_WIDTH + 1);
    }
  }

  /**
   * `start()` with one arrow key pressed before the first frame and held to
   * the end: the closure draws 3001 frames and is called 3002 times, and the
   * head ends 3001 displacements away from the spawn index. Left and up are
   * excluded: holding either runs the head below zero long before the end.
   */
  method StartHolding(key: string) returns (updates: nat, calls: nat, head: nat)
    requires KeyArrow(key) != Some(Left) && KeyArrow(key) != Some(Up)
    ensures updates == FRAME_LIMIT + 1 && calls == FRAME_LIMIT + 2
    ensures head == SPAWN_INDEX + (FRAME_LIMIT + 1) * Delta(OnKey(Released, key, true), WORLD_WIDTH)
  {
    var loop := new FrameLoop();
    loop.game.ui.controls.KeyDown(key);
    ghost var c := loop.game.ui.controls.Snapshot();
    assert c == OnKey(Released, key, true);
    ForwardRunSafe(Delta(c, WORLD_WIDTH), c);
    updates, calls := loop.Run();
    head := loop.game.world.SnakeHeadIdx();
  }
}
