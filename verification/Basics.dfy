/** Types and values every component uses. */
module Basics {
  type Byte = x: int | 0 <= x < 256

  datatype Option<T> = None | Some(value: T)

  /** The outcomes of the library's calls that are told apart here. */
  datatype Status = OK | Invalid | WrongState | Format | Internal

  function Zeros(n: nat): (z: seq<Byte>)
    ensures |z| == n && forall i: nat :: i < n ==> z[i] == 0
  {
    seq(n, _ => 0)
  }

  /** In a row-major layout every row ends before the next begins. */
  lemma RowGap(a: nat, b: nat, n: nat)
    requires a < b
    ensures a * n + n <= b * n
  {
    var c := b - a - 1;
    assert b * n == a * n + n + c * n;
  }
}
