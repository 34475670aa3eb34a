/**
 * The arrow-key controls: four flags written by the keydown and keyup
 * handlers that `UI::init` registers, and read once per frame by `UI::update`.
 */
module Keys {
  import opened Wrappers

  datatype Arrow = Left | Right | Up | Down

  /** The `KeyboardEvent.key` value of each arrow key. */
  function KeyName(a: Arrow): string {
    match a
    case Left => "ArrowLeft"
    case Right => "ArrowRight"
    case Up => "ArrowUp"
    case Down => "ArrowDown"
  }

  /** The arrow a key value names, if any; every other key is ignored by the handlers. */
  function KeyArrow(key: string): (r: Option<Arrow>)
    ensures r.Some? ==> key == KeyName(r.value)
    ensures forall a: Arrow :: key == KeyName(a) ==> r == Some(a)
  {
    if key == "ArrowLeft" then Some(Left)
    else if key == "ArrowRight" then Some(Right)
    else if key == "ArrowUp" then Some(Up)
    else if key == "ArrowDown" then Some(Down)
    else None
  }

  /** The four flags of `Controls` as one value, as `UI::update` reads them under one borrow. */
  datatype Held = Held(left: bool, right: bool, up: bool, down: bool)

  const Released: Held := Held(false, false, false, false)

  function Flag(h: Held, a: Arrow): bool {
    match a
    case Left => h.left
    case Right => h.right
    case Up => h.up
    case Down => h.down
  }

  /** The flags with the one for `a` set to `v`. */
  function WithFlag(h: Held, a: Arrow, v: bool): (r: Held)
    ensures Flag(r, a) == v
    ensures forall b: Arrow :: b != a ==> Flag(r, b) == Flag(h, b)
  {
    match a
    case Left => h.(left := v)
    case Right => h.(right := v)
    case Up => h.(up := v)
    case Down => h.(down := v)
  }

  /**
   * The effect of one key event on the flags: the flag the key names becomes
   * `pressed` and the other three keep their values; any other key changes nothing.
   */
  function OnKey(h: Held, key: string, pressed: bool): (r: Held)
    ensures KeyArrow(key).None? ==> r == h
    ensures forall a: Arrow :: key == KeyName(a) ==>
      Flag(r, a) == pressed && forall b: Arrow :: b != a ==> Flag(r, b) == Flag(h, b)
  {
    match KeyArrow(key)
    case None => h
    case Some(a) => WithFlag(h, a, pressed)
  }

  /** Releasing a key that was up before it was pressed restores the flags. */
  lemma {:induction false} PressThenRelease(h: Held, a: Arrow)
    requires !Flag(h, a)
    ensures OnKey(OnKey(h, KeyName(a), true), KeyName(a), false) == h
  {
    var k := KeyName(a);
    assert KeyArrow(k) == Some(a);
    var r := OnKey(OnKey(h, k, true), k, false);
    assert forall b: Arrow :: Flag(r, b) == Flag(h, b);
    assert r.left == Flag(r, Left) && r.right == Flag(r, Right) && r.up == Flag(r, Up) && r.down == Flag(r, Down);
  }

  /** The shared `Controls` cell, owned by `UI` and written by the key handlers. */
  class Controls {
    var left: bool
    var right: bool
    var up: bool
    var down: bool

    /** As built by `UI::new`: nothing held. */
    constructor ()
      ensures Snapshot() == Released
    {
      left, right, up, down := false, false, false, false;
    }

    function Snapshot(): Held
      reads this
    {
      Held(left, right, up, down)
    }

    /** The keydown handler: sets the flag the key names. */
    method KeyDown(key: string)
      modifies this
      ensures Snapshot() == OnKey(old(Snapshot()), key, true)
    {
      if key == "ArrowLeft" {
        left := true;
      } else if key == "ArrowRight" {
        right := true;
      } else if key == "ArrowUp" {
        up := true;
      } else if key == "ArrowDown" {
        down := true;
      }
    }

    /** The keyup handler: clears the flag the key names. */
    method KeyUp(key: string)
      modifies this
      ensures Snapshot() == OnKey(old(Snapshot()), key, false)
    {
      if key == "ArrowLeft" {
        left := false;
      } else if key == "ArrowRight" {
        right := false;
      } else if key == "ArrowUp" {
        up := false;
      } else if key == "ArrowDown" {
        down := false;
      }
    }
  }
}
