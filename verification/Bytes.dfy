/** Copying bytes into a page or a block. */
module Bytes {

  /** memmove of `part` to offset off. */
  function Overwrite(page: seq<int>, off: int, part: seq<int>): (r: seq<int>)
    requires 0 <= off && off + |part| <= |page|
    ensures |r| == |page|
    ensures forall i :: 0 <= i < |page| ==> r[i] == if off <= i < off + |part| then part[i - off] else page[i]
  {
    page[..off] + part + page[off + |part|..]
  }

  /** Positions va .. va + n - 1 within one unit of the given size. */
  lemma SameUnit(va: int, unit: int, off: int, n: int, x: int)
    requires 0 <= va && unit in {1024, 4096} && va % unit == off && off + n <= unit
    ensures va <= x < va + n ==> x / unit == va / unit && x % unit == off + (x - va)
    ensures x / unit == va / unit ==> (va <= x < va + n <==> off <= x % unit < off + n)
  {
  }
}
