/** Small shared vocabulary: optional values, machine-word sizes, bytes. */
module Base {
  datatype Option<+T> = None | Some(value: T)

  const U16: nat := 0x1_0000
  const U32: nat := 0x1_0000_0000
  const U64: nat := 0x1_0000_0000_0000_0000

  const PGSIZE: nat := 4096

  type byte = x: int | 0 <= x < 256

  ghost predicate NoDup(c: seq<nat>) { forall k, l :: 0 <= k < l < |c| ==> c[k] != c[l] }

  /** The list with its element at position k taken out. */
  function Without(c: seq<nat>, k: nat): (d: seq<nat>)
    requires k < |c|
    ensures |d| == |c| - 1 && forall l :: 0 <= l < |d| ==> d[l] == if l < k then c[l] else c[l + 1]
    ensures forall n :: n in c <==> n == c[k] || n in d
  {
    assert c == c[..k] + [c[k]] + c[k + 1..];
    c[..k] + c[k + 1..]
  }
}
