/** The virtio block driver (kernel/virtio_disk.c) against a device that fetches,
    performs and completes requests in any order and at any time. Driver steps are
    pieces of vdisk_lock critical sections; the ring indices are 16-bit and wrap. */
module Virtio {
  import opened Common
  import opened Modular

  type Buf = nat

  const U16: int := 0x1_0000

  // ---------------------------------------------------------------------
  // Shared memory

  /** What a descriptor points at: a command header, a buffer's data, a status byte. */
  datatype Addr = Null | OpHeader(i: int) | Data(b: Buf) | StatusByte(i: int)

  /** struct virtq_desc, with its two flags. */
  datatype Desc = Desc(addr: Addr, hasNext: bool, devWrites: bool, next: int)

  datatype Op = Op(write: bool, sector: int)

  datatype BufRef = NoBuf | To(b: Buf)

  datatype Info = Info(b: BufRef, status: int)

  const ZERO_DESC: Desc := Desc(Null, false, false, 0)

  /** The first free descriptor, or |free|. */
  function FirstFree(free: seq<bool>): (i: nat)
    ensures i <= |free|
    ensures i < |free| ==> free[i]
    ensures forall j :: 0 <= j < i ==> !free[j]
  {
    if free == [] then 0
    else if free[0] then 0
    else
      var i := 1 + FirstFree(free[1..]);
      assert forall j :: 1 <= j < i ==> free[j] == free[1..][j - 1];
      i
  }

  lemma FirstFreeIs(free: seq<bool>, i: nat)
    requires i <= |free| && (i < |free| ==> free[i]) && forall j :: 0 <= j < i ==> !free[j]
    ensures FirstFree(free) == i
  {
  }

  /** What is left after taking the first n free descriptors, as far as there are any. */
  function Left(free: seq<bool>, n: nat): (r: seq<bool>)
    ensures |r| == |free|
  {
    if n == 0 then free
    else
      var l := Left(free, n - 1);
      if FirstFree(l) < |l| then l[FirstFree(l) := false] else l
  }

  /** The n-th descriptor taken, from 0, or |free| if there is none. */
  function Nth(free: seq<bool>, n: nat): (i: nat)
    ensures i <= |free|
  {
    FirstFree(Left(free, n))
  }

  /** The descriptors free_chain visits from i on. */
  function Chain(desc: seq<Desc>, i: int, fuel: nat): seq<int>
    decreases fuel
  {
    if fuel == 0 || !(0 <= i < |desc|) then []
    else if !desc[i].hasNext then [i]
    else [i] + Chain(desc, desc[i].next, fuel - 1)
  }

  /** The three descriptors of a request. */
  predicate Formatted3(desc: seq<Desc>, b: Buf, write: bool, i0: int, i1: int, i2: int) {
    && 0 <= i0 < |desc| && 0 <= i1 < |desc| && 0 <= i2 < |desc|
    && desc[i0] == Desc(OpHeader(i0), true, false, i1)
    && desc[i1] == Desc(Data(b), true, !write, i2)
    && desc[i2] == Desc(StatusByte(i0), false, true, 0)
  }

  lemma ChainOfThree(desc: seq<Desc>, b: Buf, write: bool, i0: int, i1: int, i2: int)
    requires Formatted3(desc, b, write, i0, i1, i2) && |desc| >= 3
    ensures Chain(desc, i0, |desc|) == [i0, i1, i2]
  {
    assert Chain(desc, i2, |desc| - 2) == [i2];
    assert Chain(desc, i1, |desc| - 1) == [i1] + [i2];
  }

  // ---------------------------------------------------------------------
  // The driver's own loops

  class Driver {
    var free: seq<bool>
    var desc: seq<Desc>

    method AllocDesc() returns (i: int)
      modifies `free
      ensures if FirstFree(old(free)) == |old(free)| then i == -1 && free == old(free)
              else i == FirstFree(old(free)) && free == old(free)[i := false]
    {
      i := 0;
      while i < |free|
        invariant 0 <= i <= |free| && free == old(free) && forall j :: 0 <= j < i ==> !free[j]
      {
        if free[i] {
          FirstFreeIs(free, i);
          free := free[i := false];
          return;
        }
        i := i + 1;
      }
      FirstFreeIs(free, i);
      i := -1;
    }

    /** free_desc panics unless i names a descriptor that is in use. */
    method FreeDesc(i: int)
      requires 0 <= i < |free| == |desc| && !free[i]
      modifies `free, `desc
      ensures free == old(free)[i := true] && desc == old(desc)[i := ZERO_DESC]
    {
      desc := desc[i := ZERO_DESC];
      free := free[i := true];
    }

    /** free_chain, on the chain of a request: no panic, and exactly its three
        descriptors are free afterwards. */
    method FreeChain(i: int, ghost b: Buf, ghost write: bool, ghost i1: int, ghost i2: int)
      requires |free| == |desc| && Formatted3(desc, b, write, i, i1, i2) && i != i1 && i != i2 && i1 != i2
      requires !free[i] && !free[i1] && !free[i2]
      modifies `free, `desc
      ensures free == old(free)[i := true][i1 := true][i2 := true]
      ensures desc == old(desc)[i := ZERO_DESC][i1 := ZERO_DESC][i2 := ZERO_DESC]
    {
      var k := i;
      ghost var left := 3;
      while true
        invariant 1 <= left <= 3 && |free| == |desc| == |old(desc)|
        invariant k == if left == 3 then i else if left == 2 then i1 else i2
        invariant free == if left == 3 then old(free) else if left == 2 then old(free)[i := true]
                          else old(free)[i := true][i1 := true]
        invariant desc == if left == 3 then old(desc) else if left == 2 then old(desc)[i := ZERO_DESC]
                          else old(desc)[i := ZERO_DESC][i1 := ZERO_DESC]
        decreases left
      {
        var flag := desc[k].hasNext;
        var nxt := desc[k].next;
        FreeDesc(k);
        if flag {
          k, left := nxt, left - 1;
        } else {
          break;
        }
      }
    }

    /** alloc3_desc: three descriptors, or none taken; then all that were free, being fewer
        than three, have been cleared, and no other descriptor has changed. */
    method Alloc3Desc() returns (ok: bool, idx: seq<int>)
      requires |free| == |desc|
      modifies `free, `desc
      ensures ok <==> Nth(old(free), 2) < |free|
      ensures ok ==> idx == [Nth(old(free), 0), Nth(old(free), 1), Nth(old(free), 2)]
      ensures ok ==> free == Left(old(free), 3) && desc == old(desc)
      ensures !ok ==> free == old(free) && desc == Cleared(old(desc), old(free))
    {
      hide FirstFree, Left;
      idx := [];
      LeftStep(free, 0);
      while |idx| < 3
        invariant |idx| <= 3 && |free| == |desc| && desc == old(desc)
        invariant free == Left(old(free), |idx|)
        invariant forall j :: 0 <= j < |idx| ==> 0 <= idx[j] < |free| && idx[j] == Nth(old(free), j)
      {
        ghost var n := |idx|;
        var i := AllocDesc();
        if i < 0 {
          NoMore(old(free), n, 2);
          GiveBack(idx, old(free));
          AllTaken(old(free), idx);
          assert desc == Cleared(old(desc), old(free));
          return false, idx;
        }
        LeftStep(old(free), n);
        idx := idx + [i];
      }
      ok := true;
    }

    method GiveBack(idx: seq<int>, ghost was: seq<bool>)
      requires |free| == |desc| == |was| && free == Left(was, |idx|)
      requires forall j :: 0 <= j < |idx| ==> 0 <= idx[j] < |free| && idx[j] == Nth(was, j)
      modifies `free, `desc
      ensures free == was && |desc| == |old(desc)|
      ensures forall x :: 0 <= x < |desc| ==> desc[x] == if x in idx then ZERO_DESC else old(desc)[x]
    {
      hide FirstFree, Left, Nth;
      TakenAre(was, idx);
      var j := 0;
      while j < |idx|
        invariant 0 <= j <= |idx| && |free| == |desc| == |was| == |old(desc)|
        invariant forall x :: 0 <= x < |was| ==> (free[x] <==> was[x] && x !in idx[j..])
        invariant forall k :: 0 <= k < |idx| ==> was[idx[k]] && idx[k] !in idx[k + 1..]
        invariant forall x :: 0 <= x < |desc| ==> desc[x] == if x in idx[..j] then ZERO_DESC else old(desc)[x]
      {
        assert idx[..j + 1] == idx[..j] + [idx[j]];
        assert idx[j..] == [idx[j]] + idx[j + 1..];
        FreeDesc(idx[j]);
        j := j + 1;
      }
      assert idx[..j] == idx;
    }
  }

  /** The table with all free descriptors cleared. */
  function Cleared(desc: seq<Desc>, free: seq<bool>): seq<Desc>
    requires |desc| == |free|
  {
    seq(|desc|, i requires 0 <= i < |desc| => if free[i] then ZERO_DESC else desc[i])
  }

  /** If no more can be taken, all that were free are taken. */
  lemma AllTaken(free: seq<bool>, idx: seq<int>)
    requires forall j :: 0 <= j < |idx| ==> 0 <= idx[j] < |free| && idx[j] == Nth(free, j)
    requires Nth(free, |idx|) == |free|
    ensures forall x :: 0 <= x < |free| ==> (free[x] <==> x in idx)
  {
    hide Left;
    TakenAre(free, idx);
  }

  lemma LeftStep(free: seq<bool>, n: nat)
    ensures Left(free, 0) == free
    ensures Nth(free, n) < |free| ==> Left(free, n + 1) == Left(free, n)[Nth(free, n) := false]
  {
  }

  lemma NoMore(free: seq<bool>, n: nat, k: nat)
    requires Nth(free, n) == |free| && n <= k
    ensures Nth(free, k) == |free|
  {
    if n < k {
      NoMore(free, n, k - 1);
    }
  }

  /** The descriptors taken are exactly what is missing. */
  lemma {:induction false} TakenAre(free: seq<bool>, idx: seq<int>)
    requires forall j :: 0 <= j < |idx| ==> 0 <= idx[j] < |free| && idx[j] == Nth(free, j)
    ensures forall x :: 0 <= x < |free| ==> (Left(free, |idx|)[x] <==> free[x] && x !in idx)
    ensures forall k :: 0 <= k < |idx| ==> free[idx[k]] && idx[k] !in idx[k + 1..]
  {
    hide FirstFree;
    if idx != [] {
      var n := |idx| - 1;
      TakenAre(free, idx[..n]);
      assert idx == idx[..n] + [idx[n]];
      assert Left(free, n)[idx[n]];
      forall k | 0 <= k < |idx| ensures free[idx[k]] && idx[k] !in idx[k + 1..] {
        if k < n {
          assert idx[..n][k] !in idx[..n][k + 1..];
          assert idx[k + 1..] == idx[..n][k + 1..] + [idx[n]];
        }
      }
    }
  }
}
