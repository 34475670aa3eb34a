/**
 * The machine integers the game uses. The crate is built with wasm-bindgen for
 * the wasm32 target, where `usize` and `u32` are both 32 bits wide.
 */
module Usize {
  import opened Wrappers

  const USIZE_MAX: nat := 0xFFFF_FFFF
  const U32_MAX: nat := 0xFFFF_FFFF
  /** Number of distinct `usize` values: wrapping arithmetic works modulo this. */
  const USIZE_MODULUS: nat := USIZE_MAX + 1

  predicate IsUsize(n: int) {
    0 <= n <= USIZE_MAX
  }

  /** `a + b` on `usize`; `None` is the overflow panic of a debug build. */
  function CheckedAdd(a: nat, b: nat): Option<nat> {
    if a + b <= USIZE_MAX then Some(a + b) else None
  }

  /** `a - b` on `usize`; `None` is the underflow panic of a debug build. */
  function CheckedSub(a: nat, b: nat): Option<nat> {
    if b <= a then Some(a - b) else None
  }

  /** `a.wrapping_add(b)`, what a release build computes for `+` on `usize`. */
  function WrappingAdd(a: nat, b: nat): nat {
    (a + b) % USIZE_MODULUS
  }

  /** `a.wrapping_sub(b)`, what a release build computes for `-` on `usize`. */
  function WrappingSub(a: nat, b: nat): nat {
    (a - b) % USIZE_MODULUS
  }
}
