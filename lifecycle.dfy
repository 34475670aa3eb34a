/**
 * `Game` and the animation-frame loop that `start()` sets up: a counter `i`,
 * a limit of 3000, and a closure that either updates and reschedules itself
 * or stops the game and lets go of itself.
 */
module Lifecycle {
  import opened Wrappers
  import opened Geometry
  import opened Grid
  import opened Keys
  import opened Movement
  import opened Ui

  const FRAME_LIMIT: nat := 3000

  /** One productive frame is panic-free: the move stays within `usize` and its draw within `u32`. */
  predicate UpdateSafe(head: int, width: nat, c: Held) {
    MoveSafe(head, width, c) && DrawFits(width, head + Delta(c, width))
  }

  class Game {
    var started: bool
    const world: World
    const ui: UI

    ghost predicate Valid()
      reads this, world
    {
      world.Valid()
    }

    /** `Game::new`: not started, a fresh world and a fresh UI. */
    constructor ()
      ensures Valid() && !started
      ensures fresh(world) && fresh(ui) && fresh(ui.controls)
      ensures world.Width() == WORLD_WIDTH && world.SnakeHeadIdx() == SPAWN_INDEX
      ensures ui.controls.Snapshot() == Released && !ui.mouseDown
    {
      started := false;
      world := new World();
      ui := new UI();
    }

    /** `Game::init`: registers the handlers (not modelled) and starts the game. */
    method Init()
      modifies this`started
      ensures started
    {
      Start();
    }

    method Start()
      modifies this`started
      ensures started
    {
      started := true;
    }

    method Stop()
      modifies this`started
      ensures !started
    {
      started := false;
    }

    /**
     * `Game::update`: when started, moves the head by the held flags and
     * draws the new position; when not started, changes nothing and draws
     * nothing.
     */
    method Update() returns (drawn: Option<Frame>)
      requires Valid()
      requires started ==> UpdateSafe(world.SnakeHeadIdx(), world.Width(), ui.controls.Snapshot())
      modifies world
      ensures Valid() && world.Width() == old(world.Width())
      ensures !started ==> drawn == None && world.snake == old(world.snake)
      ensures started ==>
        && world.SnakeHeadIdx() == old(world.SnakeHeadIdx()) + Delta(ui.controls.Snapshot(), world.Width())
        && DrawFits(world.Width(), world.SnakeHeadIdx())
        && drawn == Some(Draw(world.Width(), world.SnakeHeadIdx()))
    {
      drawn := None;
      if started {
        ui.Update(world);
        drawn := Some(Draw(world.Width(), world.SnakeHeadIdx()));
      }
    }
  }

  /**
   * The state the loop closure of `start()` captures: the game, the counter
   * `i`, and whether the shared cell `f` still holds the closure, without
   * which no further frame can be requested.
   */
  class FrameLoop {
    const game: Game
    var i: nat
    var holdsClosure: bool

    ghost predicate Valid()
      reads this, game, game.world
    {
      game.Valid() && i <= FRAME_LIMIT + 1
    }

    /** `start()` up to the first frame request: a new game, initialised, with `i` at 0. */
    constructor ()
      ensures Valid() && i == 0 && holdsClosure
      ensures fresh(game) && fresh(game.world) && fresh(game.ui) && fresh(game.ui.controls)
      ensures game.started
      ensures game.world.Width() == WORLD_WIDTH && game.world.SnakeHeadIdx() == SPAWN_INDEX
      ensures game.ui.controls.Snapshot() == Released
    {
      var g := new Game();
      g.Init();
      game := g;
      i := 0;
      holdsClosure := true;
    }

    /**
     * One call of the closure. Past the limit it stops the game, drops the
     * closure and does not reschedule. Otherwise it updates the game, counts
     * the frame when the game is started, and reschedules, even when it is not.
     */
    method Tick() returns (reschedule: bool, drawn: Option<Frame>)
      requires Valid() && holdsClosure
      requires i <= FRAME_LIMIT && game.started ==>
        UpdateSafe(game.world.SnakeHeadIdx(), game.world.Width(), game.ui.controls.Snapshot())
      modifies this, game, game.world
      ensures Valid() && game.world.Width() == old(game.world.Width())
      ensures reschedule == holdsClosure
      ensures old(i) > FRAME_LIMIT ==>
        && !reschedule && !game.started && i == old(i)
        && drawn == None && game.world.snake == old(game.world.snake)
      ensures old(i) <= FRAME_LIMIT ==>
        && reschedule && game.started == old(game.started)
        && i == old(i) + (if old(game.started) then 1 else 0)
      ensures old(i) <= FRAME_LIMIT && !old(game.started) ==>
        drawn == None && game.world.snake == old(game.world.snake)
      ensures old(i) <= FRAME_LIMIT && old(game.started) ==>
        && game.world.SnakeHeadIdx() == old(game.world.SnakeHeadIdx()) + Delta(game.ui.controls.Snapshot(), game.world.Width())
        && DrawFits(game.world.Width(), game.world.SnakeHeadIdx())
        && drawn == Some(Draw(game.world.Width(), game.world.SnakeHeadIdx()))
    {
      if i > FRAME_LIMIT {
        game.Stop();
        holdsClosure := false;
        return false, None;
      }
      drawn := game.Update();
      if game.started {
        i := i + 1;
      }
      reschedule := true;
    }

    /**
     * The host calling the closure on every frame it requested, with no key
     * or mouse event in between, until it no longer reschedules. From a
     * started game a frame is drawn once for each count from `i` to 3000,
     * `i` ends at 3001, and one last call stops the game.
     */
    method Run() returns (updates: nat, calls: nat)
      requires Valid() && holdsClosure && game.started
      requires forall k: nat :: k <= FRAME_LIMIT - i ==>
        UpdateSafe(HeadAfter(game.world.SnakeHeadIdx(), Delta(game.ui.controls.Snapshot(), game.world.Width()), k),
                   game.world.Width(), game.ui.controls.Snapshot())
      modifies this, game, game.world
      ensures Valid() && !holdsClosure && !game.started
      ensures updates == FRAME_LIMIT + 1 - old(i) && calls == updates + 1
      ensures i == FRAME_LIMIT + 1
      ensures game.world.Width() == old(game.world.Width()) && game.ui.controls.Snapshot() == old(game.ui.controls.Snapshot())
      ensures game.world.SnakeHeadIdx() == old(game.world.SnakeHeadIdx()) + updates * Delta(game.ui.controls.Snapshot(), game.world.Width())
      ensures Moves(old(game.world.SnakeHeadIdx()), game.world.Width(), game.ui.controls.Snapshot(), updates) == Some(game.world.SnakeHeadIdx())
    {
      ghost var h0, i0 := game.world.SnakeHeadIdx(), i;
      ghost var c, w := game.ui.controls.Snapshot(), game.world.Width();
      updates, calls := 0, 0;
      var reschedule := true;
      while reschedule
        invariant Valid() && reschedule == holdsClosure
        invariant game.ui.controls.Snapshot() == c && game.world.Width() == w
        invariant i == i0 + updates
        invariant game.world.SnakeHeadIdx() == HeadAfter(h0, Delta(c, w), updates)
        invariant holdsClosure ==> game.started && calls == updates
        invariant !holdsClosure ==> !game.started && i == FRAME_LIMIT + 1 && calls == updates + 1
        decreases FRAME_LIMIT + 1 - i, if holdsClosure then 1 else 0
      {
        ghost var d := Delta(c, w);
        if i <= FRAME_LIMIT {
          assert UpdateSafe(HeadAfter(h0, d, updates), w, c);
          HeadAfterNext(h0, d, updates);
        }
        var drawn;
        reschedule, drawn := Tick();
        if drawn.Some? {
          updates := updates + 1;
        }
        calls := calls + 1;
      }
      MovesDisplace(h0, w, c, updates);
    }
  }
}
