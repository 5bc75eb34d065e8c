/** Machine bytes as bounded integers, with the few bit operations the emulator performs on them. */
module Bytes {
  type byte = x: int | 0 <= x < 256

  datatype Option<+T> = None | Some(value: T) {
    function GetOr(default: T): T {
      if Some? then value else default
    }
  }

  /** `++` on a `uint8_t`: wraps at 256. */
  function Inc(b: byte): byte {
    (b + 1) % 256
  }

  /** `--` on a `uint8_t`: wraps below 0. */
  function Dec(b: byte): byte {
    (b + 255) % 256
  }

  /** The bit of weight `m`, for the masks used by the registers. */
  predicate Bit(b: byte, m: nat)
    requires IsMask(m)
  {
    b / m % 2 == 1
  }

  predicate IsMask(m: nat) {
    m == 1 || m == 2 || m == 4 || m == 8 || m == 16 || m == 32 || m == 64 || m == 128
  }

  /** `b |= m`. */
  function SetBit(b: byte, m: nat): (r: byte)
    requires IsMask(m)
    ensures Bit(r, m)
  {
    if Bit(b, m) then b else b + m
  }

  /** `b &= ~m`. */
  function ClearBit(b: byte, m: nat): (r: byte)
    requires IsMask(m)
    ensures !Bit(r, m)
  {
    if Bit(b, m) then b - m else b
  }

  function Bool(b: bool): byte {
    if b then 1 else 0
  }

  /** Concatenation of a sequence of sequences. */
  function Concat<T>(ss: seq<seq<T>>): seq<T> {
    if ss == [] then [] else ss[0] + Concat(ss[1..])
  }
}
