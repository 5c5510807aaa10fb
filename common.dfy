/** Shared vocabulary of the model: optional values, results, and the
    fixed-width integer ranges of the Rust source (i16, u16, i32, i64, u8). */
module Common {

  datatype Option<T> = None | Some(value: T)

  datatype Result<T, E> = Ok(value: T) | Err(error: E)

  /** `Option::unwrap_or`: the value when there is one, the default
      otherwise. */
  function UnwrapOr<T>(o: Option<T>, default: T): (v: T)
    ensures o.Some? ==> v == o.value
    ensures o.None? ==> v == default
  {
    match o
    case Some(x) => x
    case None => default
  }

  /** A Rust call that either returns or panics (with the panic message). */
  datatype Outcome<T> = Returned(value: T) | Panicked(message: string)

  const I16Min: int := -0x8000
  const I16Max: int := 0x7fff
  const U16Max: int := 0xffff
  const I32Min: int := -0x8000_0000
  const I32Max: int := 0x7fff_ffff
  const I64Min: int := -0x8000_0000_0000_0000
  const I64Max: int := 0x7fff_ffff_ffff_ffff

  /** A value of Rust's `i16`. */
  type I16 = x: int | I16Min <= x <= I16Max

  /** A value of Rust's `u16`. */
  type U16 = x: int | 0 <= x <= U16Max

  /** A value of Rust's `u8`: one byte of a file or of a network frame. */
  type Byte = x: int | 0 <= x < 256

  predicate AllI16(s: seq<int>) {
    forall i :: 0 <= i < |s| ==> I16Min <= s[i] <= I16Max
  }

  /** Concatenation of a sequence of sequences, in order. */
  function Flatten<T>(ss: seq<seq<T>>): seq<T> {
    if ss == [] then [] else Flatten(ss[..|ss| - 1]) + ss[|ss| - 1]
  }

  /** Sum of a sequence of integers. */
  function Sum(s: seq<int>): int {
    if s == [] then 0 else Sum(s[..|s| - 1]) + s[|s| - 1]
  }

  /** Integer division truncating toward zero, as Rust's `/` on signed integers
      (Dafny's own `/` is Euclidean). */
  function TruncDiv(a: int, b: int): (q: int)
    requires b > 0
    ensures a >= 0 ==> q >= 0 && 0 <= a - q * b < b
    ensures a < 0 ==> q <= 0 && -b < a - q * b <= 0
  {
    if a >= 0 then a / b else -((-a) / b)
  }

  /** `saturating_sub` on unsigned integers. */
  function SaturatingSub(a: nat, b: nat): (r: nat)
    ensures r == 0 <==> a <= b
    ensures a > b ==> r + b == a
  {
    if a > b then a - b else 0
  }
}
