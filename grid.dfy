/** The world: a square grid of `width` columns and a snake of one cell. */
module Grid {
  import opened Usize

  const WORLD_WIDTH: nat := 16
  const SPAWN_INDEX: nat := 10

  /** A cell of the snake, given by its row-major index into the grid. */
  datatype SnakeCell = SnakeCell(idx: nat)

  datatype Snake = Snake(body: seq<SnakeCell>)

  /** `Snake::new`: a snake of exactly one cell, at the spawn index. */
  function NewSnake(spawnIndex: nat): (s: Snake)
    ensures |s.body| == 1 && s.body[0].idx == spawnIndex
  {
    Snake([SnakeCell(spawnIndex)])
  }

  class World {
    var width: nat
    var snake: Snake

    /** The snake never grows, and its head is a `usize`. */
    ghost predicate Valid()
      reads this
    {
      0 < width && |snake.body| == 1 && IsUsize(snake.body[0].idx)
    }

    /** `World::new`: width 16, one snake cell at index 10. */
    constructor ()
      ensures Valid()
      ensures width == WORLD_WIDTH && snake == NewSnake(SPAWN_INDEX)
      ensures SnakeHeadIdx() == SPAWN_INDEX
    {
      width := WORLD_WIDTH;
      snake := NewSnake(SPAWN_INDEX);
    }

    /** `World::width`: the number of columns, positive in a valid world. */
    function Width(): (w: nat)
      reads this
      ensures Valid() ==> 0 < w
    {
      width
    }

    /** `World::snake_head_idx`: reads `snake.body[0]`, which would panic on an empty body; in a valid world it is a `usize`. */
    function SnakeHeadIdx(): (h: nat)
      reads this
      requires |snake.body| > 0
      ensures Valid() ==> IsUsize(h)
    {
      snake.body[0].idx
    }
  }
}
