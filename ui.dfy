/** `UI`: the shared controls, the mouse-button flag and the per-frame move. */
module Ui {
  import opened Wrappers
  import opened Grid
  import opened Keys
  import opened Movement

  class UI {
    const controls: Controls
    var mouseDown: bool

    /** `UI::new`: no key held, mouse button up. */
    constructor ()
      ensures fresh(controls)
      ensures controls.Snapshot() == Released && !mouseDown
    {
      controls := new Controls();
      mouseDown := false;
    }

    /**
     * `UI::update`: applies the held flags to the head in the order left,
     * right, up, down. The caller must keep every intermediate value within
     * `usize`; the head then moves by `Delta`, agreeing with the checked
     * reference `Step`, and the width, the snake's length and the controls
     * stay as they were.
     */
    method Update(world: World)
      requires world.Valid()
      requires MoveSafe(world.SnakeHeadIdx(), world.Width(), controls.Snapshot())
      modifies world
      ensures world.Valid()
      ensures world.Width() == old(world.Width())
      ensures world.SnakeHeadIdx() == old(world.SnakeHeadIdx()) + Delta(controls.Snapshot(), world.Width())
      ensures Step(old(world.SnakeHeadIdx()), world.Width(), controls.Snapshot()) == Some(world.SnakeHeadIdx())
      ensures controls.Snapshot() == Released ==> world.snake == old(world.snake)
      ensures controls.Snapshot() == old(controls.Snapshot()) && mouseDown == old(mouseDown)
    {
      ghost var c := controls.Snapshot();
      ghost var h0 := world.SnakeHeadIdx();
      if controls.left {
        world.snake := world.snake.(body := world.snake.body[0 := SnakeCell(world.snake.body[0].idx - 1)]);
      }
      if controls.right {
        world.snake := world.snake.(body := world.snake.body[0 := SnakeCell(world.snake.body[0].idx + 1)]);
      }
      assert world.SnakeHeadIdx() == h0 - Bit(c.left) + Bit(c.right);
      if controls.up {
        world.snake := world.snake.(body := world.snake.body[0 := SnakeCell(world.snake.body[0].idx - world.width)]);
      }
      if controls.down {
        world.snake := world.snake.(body := world.snake.body[0 := SnakeCell(world.snake.body[0].idx + world.width)]);
      }
    }

    /** The mousedown handler of the start button: records the button as down, nothing else. */
    method OnStartMouseDown()
      modifies this`mouseDown
      ensures mouseDown
      ensures controls.Snapshot() == old(controls.Snapshot())
    {
      mouseDown := true;
    }

    /** The mouseup handler of the stop button: records the button as up, nothing else. */
    method OnStopMouseUp()
      modifies this`mouseDown
      ensures !mouseDown
      ensures controls.Snapshot() == old(controls.Snapshot())
    {
      mouseDown := false;
    }
  }
}
