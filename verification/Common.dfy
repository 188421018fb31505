/** Types shared by the other modules. */
module Common {

  datatype Option<+T> = None | Some(value: T)

  datatype Result<+T, +E> = Ok(value: T) | Err(error: E)

  /** One more than the largest value of Rust's `u64`. */
  const TWO_64: nat := 0x1_0000_0000_0000_0000

  const U64_MAX: nat := TWO_64 - 1

  const MIB: nat := 1024 * 1024

  const GIB: nat := 1024 * 1024 * 1024

  newtype byte = b: int | 0 <= b < 256

  function Min(a: nat, b: nat): nat {
    if a <= b then a else b
  }

  function Last<T>(s: seq<T>): T
    requires |s| > 0
  {
    s[|s| - 1]
  }

  function Front<T>(s: seq<T>): seq<T>
    requires |s| > 0
  {
    s[..|s| - 1]
  }

  lemma FrontLast<T>(s: seq<T>, x: T)
    ensures Front(s + [x]) == s
    ensures Last(s + [x]) == x
  {
  }

  /** A prefix of a sequence's front is a prefix of the sequence. */
  lemma PrefixOfFront<T>(s: seq<T>, i: nat)
    requires |s| > 0 && i < |s|
    ensures s[..i] == Front(s)[..i]
  {
  }
}
