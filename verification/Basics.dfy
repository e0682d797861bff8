/** Small definitions that several modules share. */
module Basics {

  const MAX_U64: nat := 0xFFFF_FFFF_FFFF_FFFF

  type Byte = b: int | 0 <= b < 256

  datatype Option<T> = None | Some(value: T)

  function Min(a: nat, b: nat): nat { if a <= b then a else b }

  function Max(a: nat, b: nat): nat { if a >= b then a else b }

  function SatAdd(a: nat, b: nat): nat { if a + b > MAX_U64 then MAX_U64 else a + b }

  function SaturatingPred(n: int): int { if n >= 1 then n - 1 else 0 }

  ghost function Itself(n: int): int { n }
}
