# snake-rust, modelled in Dafny

A model of the game core of `snake-rust`, a WebAssembly program that draws a
one-cell snake on a 16 × 16 canvas grid. The snake moves while arrow keys are
held, and an animation-frame loop runs for a fixed number of frames before it
stops.

The model follows `src/lib.rs` piece by piece:

- `usize.dfy` (module `Usize`): the 32-bit `usize` and `u32` of the wasm32 target. It has checked operations, where `None` is a debug build's panic, and wrapping operations, which are what a release build computes.
- `geometry.dfy` (module `Geometry`): the integer arithmetic of `Canvas::draw`. It gives the canvas side, the head cell's corner and the cell size.
- `grid.dfy` (module `Grid`): `SnakeCell`, `Snake`, `Snake::new`, and `World` as a class whose snake the UI mutates.
- `keys.dfy` (module `Keys`): the arrow-key names, the four-flag `Controls` cell as a class, and its keydown/keyup handler bodies. A pure function `OnKey` specifies them.
- `movement.dfy` (module `Movement`): the four conditional steps of `UI::update` as pure reference functions. `Step` is checked and `WrappingStep` is wrapping. They are stated against the net displacement `Delta` and the safety condition `MoveSafe`.
- `ui.dfy` (module `Ui`): the `UI` class. It has `update` and the start/stop mouse handler bodies.
- `lifecycle.dfy` (module `Lifecycle`): `Game` (`new`, `init`, `start`, `stop`, `update`) and `FrameLoop`. `FrameLoop` holds the state captured by the closure in `start()`: the game, the counter `i` and the closure handle. `Tick` is one closure call and returns whether it reschedules. `Run` is the host calling it until it stops.
- `session.dfy` (module `Session`): whole runs of `start()` with an arrow key held from the first frame.

The head index is a `usize`, so a left or up step below zero panics in a debug build. The methods make this explicit: `UI.Update`, `Game.Update` and `FrameLoop.Tick` require that every intermediate value of the four steps stays in `0 ..= 2^32 - 1` (`MoveSafe`). `Game.Update` and `FrameLoop.Tick` also draw, so they also require that the draw's `u32` products do not overflow (`DrawFits`, through `UpdateSafe`). The pure function `Step` returns `None` exactly when `MoveSafe` fails.

Rescheduling does not depend on the game being started. The closure requests the next frame whenever `i <= 3000`, even if `game.started` is false, so a stopped game below the limit would spin without counting. `FrameLoop.Tick` states this: below the limit it always reschedules, and it counts the frame only when the game is started.

The mouse flag `mouse_down` is never read by `Game`, so the start/stop buttons do not affect `started`. The model keeps this.

## Model

| member | source | states |
|---|---|---|
| `Grid.NewSnake` | src/lib.rs:54-58 | the new snake has exactly one cell, at the spawn index |
| `Grid.World.Width` | src/lib.rs:73-75 | `World::width` returns the column count, which is positive in a valid world; the contracts of `UI.Update`, `Game.Update` and `FrameLoop` read the width through it |
| `Grid.World.SnakeHeadIdx` | src/lib.rs:77-79 | `World::snake_head_idx` reads `body[0]`, so it needs a non-empty body; in a valid world the result is a `usize` |
| `Grid.World.constructor` | src/lib.rs:69-71 | a new world has width 16, a one-cell snake at 10, and `snake_head_idx() == 10` |
| `Geometry.RowOnGrid` | src/lib.rs:122-123 | the head's row `head / width` is below `width` exactly when `head < width * width` |
| `Geometry.Draw` | src/lib.rs:116-130 | side = `width*20` and cell = 20; column and row read back from the corner recover the head index (row × width + column); the corner is a multiple of 20; `x + 20 <= side` always; `y + 20 <= side` exactly when `head < width*width`; no `u32` value overflows |
| `Geometry.SpawnFrame` | src/lib.rs:119-130 | for width 16 and head 10 the frame is side 320, corner (200, 0), cell 20 |
| `Keys.KeyArrow` | src/lib.rs:185-190 | a key maps to an arrow exactly when it is that arrow's name (`ArrowLeft`, `ArrowRight`, `ArrowUp`, `ArrowDown`); every other key maps to nothing |
| `Keys.WithFlag` | src/lib.rs:186-189 | setting one flag gives it the new value and leaves the other three unchanged |
| `Keys.OnKey` | src/lib.rs:185-203 | an arrow key gives its flag the pressed/released value and leaves the other three unchanged; any other key changes nothing |
| `Keys.PressThenRelease` | src/lib.rs:185-203 | pressing and then releasing a key that was up restores all four flags |
| `Keys.Controls.constructor` | src/lib.rs:149-154 | all four flags start false |
| `Keys.Controls.KeyDown` | src/lib.rs:183-192 | the new flags are `OnKey(old flags, key, true)` |
| `Keys.Controls.KeyUp` | src/lib.rs:195-204 | the new flags are `OnKey(old flags, key, false)` |
| `Movement.Step` | src/lib.rs:162-177 | checked left/right/up/down steps succeed exactly when `MoveSafe` holds; left needs head ≥ 1, and up needs the value after the horizontal steps to be ≥ width; on success the head moves by `(right-left) + width*(down-up)` and stays a `usize` |
| `Movement.WrappingStep` | src/lib.rs:162-177 | with release-build wrap-around, the head moves by the same displacement modulo 2^32 |
| `Movement.WrappingAgreesWhenSafe` | src/lib.rs:162-177 | when the steps are safe, the wrapping result equals the checked result |
| `Movement.MovesDisplace` | src/lib.rs:162-177 | `n` updates in a row with the same flags (the model `Moves`) succeed exactly when each one starts from a safe head; the head then moves by `n` displacements |
| `Movement.RightForFive` | src/lib.rs:168-170 | holding right for five updates moves the head from 10 to 15 |
| `Movement.LeftAtZero` | src/lib.rs:165-167 | holding left at index 0 underflows: the checked step panics and the wrapping step gives 2^32 - 1 |
| `Movement.RightAndDown` | src/lib.rs:168-176 | right and down together from 10 on width 16 reach 27 |
| `Ui.UI.constructor` | src/lib.rs:148-160 | no flag is held and the mouse flag is false |
| `Ui.UI.Update` | src/lib.rs:162-177 | the head moves by `Delta` of the held flags and agrees with `Step`; the width, the snake length, the flags and the mouse flag stay unchanged; with no flag held the snake is unchanged |
| `Ui.UI.OnStartMouseDown` | src/lib.rs:207-211 | sets `mouse_down` and changes neither the controls nor anything else (its frame is `mouse_down` alone, so `started` is untouched) |
| `Ui.UI.OnStopMouseUp` | src/lib.rs:218-222 | clears `mouse_down` and changes neither the controls nor anything else |
| `Lifecycle.Game.constructor` | src/lib.rs:248-251 | a new game is not started; it has a fresh world (width 16, head 10) and a fresh UI with nothing held |
| `Lifecycle.Game.Init` | src/lib.rs:253-257 | after `init` the game is started |
| `Lifecycle.Game.Start` | src/lib.rs:259-262 | after `start` the game is started |
| `Lifecycle.Game.Stop` | src/lib.rs:264-266 | after `stop` the game is not started |
| `Lifecycle.Game.Update` | src/lib.rs:268-274 | when not started, nothing moves and nothing is drawn; when started, the head moves by `Delta` of the held flags and the frame of the new head is drawn |
| `Lifecycle.FrameLoop.constructor` | src/lib.rs:293-298 | the loop starts with a new initialised (started) game, `i == 0`, and the closure held |
| `Lifecycle.FrameLoop.Tick` | src/lib.rs:300-328 | when `i > 3000`: stops the game, drops the closure, does not reschedule, does not draw. Otherwise: runs `Game.Update`, adds 1 to `i` exactly when the game is started, and reschedules |
| `Lifecycle.FrameLoop.Run` | src/lib.rs:296-330 | from a started game with `i` ≤ 3001: exactly `3001 - i` frames are drawn and there is one more call; `i` ends at 3001, the game is stopped and the closure is dropped; the head moves by the displacement once per drawn frame, as `Moves` computes for that many updates |
| `Session.ForwardRunSafe` | src/lib.rs:165-176 | with left and up released, 3001 frames from index 10 on width 16 never panic |
| `Session.StartHolding` | src/lib.rs:278-331 | `start()` with one key held (not left or up) draws exactly 3001 frames in 3002 calls, and the head ends at `10 + 3001 * Delta` |

## Left out

- The DOM helpers `window`, `document`, `body`, `get_element_by_id`, `start_button` and `stop_button` (src/lib.rs:10-45) are browser lookups, so they are not modelled.
- `Canvas::new`, `get_canvas`, `get_context` and the canvas calls in `draw` (`set_width`, `set_height`, `set_fill_style`, `fill_rect` with `f64` arguments) are foreign canvas calls. `Geometry.Draw` returns the integer values they would be given.
- The listener registration in `UI::init` is host I/O: `add_event_listener_with_callback`, `Closure::wrap` and `forget`. Its `?` error path is I/O too. `Game.Init` models only the call to `start` that follows it.
- The `console::log_1` calls of the mouse handlers and the status texts (`"All done!"`, the frame counter message) are display output only.
- The self-referential `Rc<RefCell<Option<Closure>>>` and `request_animation_frame` are host scheduling. Holding the closure is the flag `FrameLoop.holdsClosure`, and a frame request is the boolean that `FrameLoop.Tick` returns.
- Key and mouse events that arrive between frames are method calls a client can make (`Controls.KeyDown`, `UI.OnStartMouseDown` and so on). `FrameLoop.Run` and `Session.StartHolding` cover only runs with no such event between frames.
- The `wee_alloc` global allocator is not modelled.
- `www/` (the JavaScript grid drawing, a wrapper over a `Snake` module that is not part of this model, and the webpack configuration) is not modelled.
- Rust panics are not modelled as program states. A debug-build underflow or overflow in `UI::update` and a `u32` overflow in `draw` are preconditions of the methods. `Movement.Step` returns `None` for them, and `Movement.WrappingStep` gives the release-build result.
