/** The uint32_t operations the emulator applies to register values, named
    once so that every handler and every statement about a handler uses
    the same terms. All of them wrap modulo 2^32, as C's unsigned
    arithmetic does. */
module Words {

  /** x + y on uint32_t. */
  function Add(x: bv32, y: bv32): bv32 {
    x + y
  }

  /** x - y on uint32_t. */
  function Sub(x: bv32, y: bv32): bv32 {
    x - y
  }

  /** x | y. */
  function Or(x: bv32, y: bv32): bv32 {
    x | y
  }

  /** x << n for a shift amount the C code keeps below 32. */
  function Shl(x: bv32, n: bv32): bv32
    requires n < 32
  {
    x << n
  }

  /** The two's complement negation ~y + 1. */
  function Negate(y: bv32): bv32 {
    !y + 1
  }

  /** x with bit 0 cleared: x & ~1, which is x & 0xFFFFFFFE. */
  function ClearBit0(x: bv32): bv32 {
    x & !1
  }

  /** Clearing bit 0 leaves an even value ... */
  lemma ClearBit0Even(x: bv32)
    ensures ClearBit0(x) & 1 == 0
  {
  }

  /** ... that differs from x in bit 0 only. */
  lemma ClearBit0OnlyBit0(x: bv32)
    ensures ClearBit0(x) | (x & 1) == x
  {
  }
}
