/**
 * What `UI::update` does to the head index: for each held flag, in the order
 * left, right, up, down, it subtracts 1, adds 1, subtracts `width` or adds
 * `width`, on `usize`.
 */
module Movement {
  import opened Wrappers
  import opened Usize
  import opened Keys

  function Bit(b: bool): int {
    if b then 1 else 0
  }

  /** The net displacement of one update: one column per horizontal key, one row per vertical key. */
  function Delta(c: Held, width: nat): int {
    (Bit(c.right) - Bit(c.left)) + width * (Bit(c.down) - Bit(c.up))
  }

  /**
   * When the four steps of one update stay within `usize`: each intermediate
   * value is computed from the previous one, so `up` needs the value after the
   * horizontal steps to be at least `width`, not the original head.
   */
  predicate MoveSafe(head: int, width: nat, c: Held) {
    var afterLeft := head - Bit(c.left);
    var afterRight := afterLeft + Bit(c.right);
    var afterUp := afterRight - width * Bit(c.up);
    IsUsize(head)
    && (c.left ==> head >= 1)
    && (c.right ==> afterLeft + 1 <= USIZE_MAX)
    && (c.up ==> afterRight >= width)
    && (c.down ==> afterUp + width <= USIZE_MAX)
  }

  /**
   * One update on checked `usize` arithmetic, step by step; `None` is the
   * panic a debug build raises. It succeeds exactly when the steps are safe,
   * and then moves the head by `Delta`.
   */
  function Step(head: nat, width: nat, c: Held): (r: Option<nat>)
    requires IsUsize(head)
    ensures r.Some? <==> MoveSafe(head, width, c)
    ensures r.Some? ==> IsUsize(r.value) && r.value == head + Delta(c, width)
  {
    var afterLeft := if c.left then CheckedSub(head, 1) else Some(head);
    if afterLeft.None? then None else
    var afterRight := if c.right then CheckedAdd(afterLeft.value, 1) else afterLeft;
    if afterRight.None? then None else
    var afterUp := if c.up then CheckedSub(afterRight.value, width) else afterRight;
    if afterUp.None? then None else
    if c.down then CheckedAdd(afterUp.value, width) else afterUp
  }

  lemma ModAddLeft(a: int, b: int)
    ensures ((a % USIZE_MODULUS) + b) % USIZE_MODULUS == (a + b) % USIZE_MODULUS
  {
  }

  /**
   * One update as a release build computes it, each step wrapping modulo
   * 2^32: the head moves by `Delta` modulo 2^32.
   */
  function WrappingStep(head: nat, width: nat, c: Held): (r: nat)
    ensures r < USIZE_MODULUS
    ensures r == (head + Delta(c, width)) % USIZE_MODULUS
  {
    var l, rt, u, d := Bit(c.left), Bit(c.right), width * Bit(c.up), width * Bit(c.down);
    assert Delta(c, width) == rt - l + d - u by {
      assert width * (Bit(c.down) - Bit(c.up)) == d - u;
    }
    var afterLeft := if c.left then WrappingSub(head, 1) else head % USIZE_MODULUS;
    assert afterLeft == (head - l) % USIZE_MODULUS;
    var afterRight := if c.right then WrappingAdd(afterLeft, 1) else afterLeft;
    assert afterRight == (head - l + rt) % USIZE_MODULUS by {
      ModAddLeft(head - l, rt);
    }
    var afterUp := if c.up then WrappingSub(afterRight, width) else afterRight;
    assert afterUp == (head - l + rt - u) % USIZE_MODULUS by {
      ModAddLeft(head - l + rt, -u);
    }
    var afterDown := if c.down then WrappingAdd(afterUp, width) else afterUp;
    assert afterDown == (head - l + rt - u + d) % USIZE_MODULUS by {
      ModAddLeft(head - l + rt - u, d);
    }
    afterDown
  }

  /** Where the checked update does not panic, the wrapping one computes the same index. */
  lemma WrappingAgreesWhenSafe(head: nat, width: nat, c: Held)
    requires MoveSafe(head, width, c)
    ensures Step(head, width, c) == Some(WrappingStep(head, width, c))
  {
    var moved := head + Delta(c, width);
    assert Step(head, width, c) == Some(moved);
    assert 0 <= moved < USIZE_MODULUS;
    assert WrappingStep(head, width, c) == moved % USIZE_MODULUS == moved;
  }

  /** Holding left at index 0 is the underflow: the checked step panics, the wrapping one jumps to the top of `usize`. */
  lemma LeftAtZero(width: nat)
    ensures Step(0, width, Held(true, false, false, false)) == None
    ensures WrappingStep(0, width, Held(true, false, false, false)) == USIZE_MAX
  {
  }

  /** Right and down together from 10 on a 16-wide grid reach 27: both deltas apply. */
  lemma RightAndDown()
    ensures Step(10, 16, Held(false, true, false, true)) == Some(27)
  {
  }

  /** The head after `k` updates that each displace it by `delta`. */
  function HeadAfter(head: int, delta: int, k: nat): int {
    head + k * delta
  }

  lemma HeadAfterNext(head: int, delta: int, k: nat)
    ensures HeadAfter(head, delta, k + 1) == HeadAfter(head, delta, k) + delta
  {
    assert (k + 1) * delta == k * delta + delta;
  }

  /** `n` updates in a row with the same flags held, as frame after frame does; `None` once one of them panics. */
  function Moves(head: nat, width: nat, c: Held, n: nat): Option<nat>
    requires IsUsize(head)
    decreases n
  {
    if n == 0 then Some(head)
    else match Step(head, width, c)
      case None => None
      case Some(next) => Moves(next, width, c, n - 1)
  }

  /**
   * `n` updates with the same flags succeed exactly when each of them starts
   * from a safe head, and then the head has moved by `n` displacements.
   */
  lemma {:induction false} MovesDisplace(head: nat, width: nat, c: Held, n: nat)
    requires IsUsize(head)
    decreases n
    ensures Moves(head, width, c, n).Some? <==>
      forall k: nat :: k < n ==> MoveSafe(HeadAfter(head, Delta(c, width), k), width, c)
    ensures Moves(head, width, c, n).Some? ==> Moves(head, width, c, n) == Some(HeadAfter(head, Delta(c, width), n))
  {
    var d := Delta(c, width);
    if n > 0 {
      assert HeadAfter(head, d, 0) == head;
      if MoveSafe(head, width, c) {
        var next := head + d;
        assert Step(head, width, c) == Some(next);
        MovesDisplace(next, width, c, n - 1);
        forall k: nat | k < n - 1
          ensures HeadAfter(next, d, k) == HeadAfter(head, d, k + 1)
        {
          HeadAfterNext(head, d, k);
        }
        HeadAfterNext(head, d, n - 1);
        if forall k: nat :: k < n ==> MoveSafe(HeadAfter(head, d, k), width, c) {
          forall k: nat | k < n - 1
            ensures MoveSafe(HeadAfter(next, d, k), width, c)
          {
            assert MoveSafe(HeadAfter(head, d, k + 1), width, c);
          }
        } else {
          var k: nat :| k < n && !MoveSafe(HeadAfter(head, d, k), width, c);
          assert k > 0 && !MoveSafe(HeadAfter(next, d, k - 1), width, c);
        }
      }
    }
  }

  /** Holding right for five updates from 10 moves the head to 15. */
  lemma RightForFive()
    ensures Moves(10, 16, Held(false, true, false, false), 5) == Some(15)
  {
  }
}
