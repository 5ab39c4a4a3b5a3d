/** The integer widths the D-Bus-2 stack works on. */
module Bytes {
  type byte = x: int | 0 <= x < 256

  type word = x: int | 0 <= x < 65536

  datatype Option<+T> = None | Some(value: T)

  /** The uint8_t result of an addition or subtraction. */
  function Low8(x: int): byte
    requires -256 <= x < 512
  {
    if x < 0 then x + 256 else if x < 256 then x else x - 256
  }

  /** Rounds a length up to the 16-bit alignment of the input buffer. */
  function Even(n: nat): (r: nat)
    ensures n <= r <= n + 1
  {
    if IsEven(n) then n else n + 1
  }

  /** Divisibility by two, by recursion so that the verifier does not reason about remainders unasked. */
  predicate IsEven(n: nat) {
    n == 0 || (n > 1 && IsEven(n - 2))
  }

  lemma {:induction false} IsEvenIsMod2(n: nat)
    ensures IsEven(n) <==> n % 2 == 0
  {
    if n <= 1 {
    } else {
      IsEvenIsMod2(n - 2);
    }
  }

  function HighNibble(b: byte): byte {
    b / 16
  }

  function LowNibble(b: byte): byte {
    b % 16
  }

  /** The byte with its subsystem nibble cleared. */
  function NodeBits(b: byte): byte {
    b - b % 16
  }
}
