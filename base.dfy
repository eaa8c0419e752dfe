/**
 * Small value types shared by every module of the model.
 */
module Base {

  datatype Option<T> = None | Some(value: T)

  /** The outcome of an operation that can fail with an error of type E. */
  datatype Result<T, E> = Ok(value: T) | Err(error: E)
  {
    predicate IsFailure() { Err? }
  }

  /** A byte of a buffer's payload. */
  newtype byte = x: int | 0 <= x < 256

  /** The largest value of a 32-bit unsigned integer (G_MAXUINT32, G_MAXUINT). */
  const MAX_UINT32: nat := 0xFFFF_FFFF

  /** The largest value of a 64-bit unsigned integer (G_MAXUINT64). */
  const MAX_UINT64: nat := 0xFFFF_FFFF_FFFF_FFFF

  function Min(a: int, b: int): (m: int)
    ensures m <= a && m <= b && (m == a || m == b)
  {
    if a < b then a else b
  }

  /** Product of a sequence of naturals (1 for the empty sequence). */
  function Product(s: seq<nat>): (p: nat)
    decreases |s|
  {
    if s == [] then 1 else s[0] * Product(s[1..])
  }

  /** Sum of a sequence of naturals. */
  function Sum(s: seq<nat>): (t: nat)
    decreases |s|
  {
    if s == [] then 0 else s[0] + Sum(s[1..])
  }

  lemma {:induction false} SumAppend(a: seq<nat>, b: seq<nat>)
    ensures Sum(a + b) == Sum(a) + Sum(b)
    decreases |a|
  {
    if a == [] {
      assert a + b == b;
    } else {
      assert (a + b)[1..] == a[1..] + b;
      SumAppend(a[1..], b);
    }
  }
}
