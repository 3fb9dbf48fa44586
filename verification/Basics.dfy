/** Integer widths and sequence helpers shared by every component of the model. */
module Basics {
  const TWO_16: nat := 0x1_0000
  const TWO_32: nat := 0x1_0000_0000

  type uint8 = x: nat | x < 0x100
  type uint16 = x: nat | x < 0x1_0000
  type uint32 = x: nat | x < 0x1_0000_0000

  datatype Option<+T> = None | Some(value: T)

  /** What `vector::erase` of one position leaves behind. */
  function RemoveAt<T>(s: seq<T>, i: nat): (r: seq<T>)
    requires i < |s|
    ensures |r| == |s| - 1
    ensures forall k :: 0 <= k < i ==> r[k] == s[k]
    ensures forall k :: i <= k < |r| ==> r[k] == s[k + 1]
  {
    s[..i] + s[i + 1..]
  }

  /** `std::find_if`: the first position that satisfies the predicate, or the end of the sequence. */
  function FindFirst<T>(s: seq<T>, p: T -> bool): (k: nat)
    ensures k <= |s|
    ensures k < |s| ==> p(s[k])
    ensures forall i :: 0 <= i < k ==> !p(s[i])
  {
    if s == [] then 0 else if p(s[0]) then 0 else 1 + FindFirst(s[1..], p)
  }
}
