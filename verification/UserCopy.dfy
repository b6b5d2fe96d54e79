/** Copying between kernel and user memory (copyout, copyin and copyinstr in
    kernel/vm.c), page by page, against the bytes a user program sees. */
module UserCopy {
  import opened Bytes
  import opened PageTable
  import opened UserMemory

  /** walkaddr: the physical page a user may touch at page v of r, or 0. */
  ghost function UserPpn(m: Mem, r: int, v: int): int {
    if 0 <= v < MAXVPN && HasV(Leaf(m, r, v)) && HasU(Leaf(m, r, v)) then Ppn(Leaf(m, r, v)) else 0
  }

  /** The byte a user program of r sees at va. */
  ghost function UserByte(m: Mem, bytes: map<int, Page>, r: int, va: int): Byte {
    var p := UserPpn(m, r, va / PGSIZE);
    if p in bytes && |bytes[p]| == PGSIZE then bytes[p][va % PGSIZE] else 0
  }

  ghost predicate UserRange(m: Mem, r: int, va: int, len: int) {
    forall x :: va <= x < va + len ==> UserPpn(m, r, x / PGSIZE) != 0
  }

  /** User-visible pages of different addresses are different pages. */
  lemma UserPageOwned(m: Mem, r: int, v: int)
    requires MemOk(m) && IsRoot(m, r) && UserPpn(m, r, v) != 0
    ensures Owns(m, UserPpn(m, r, v), User(r, v))
  {
    hide I2, I1, I0, MidPage;
    Split(v);
    ValidHasTable(m, r, v);
    var c := LowPage(m, r, I2(v), I1(v));
    SlotTable(m, r, v);
    assert PageOk(m, c);
    assert EntryOk(m, r, Low(I2(v), I1(v)), I0(v), m.tables[c][I0(v)]);
  }

  /** Page q is one that the user of r has in the range. */
  ghost predicate Reached(m: Mem, r: int, va: int, len: int, q: int) {
    exists x :: va <= x < va + len && UserPpn(m, r, x / PGSIZE) == q
  }

  /** Bytes va .. va + |src| - 1 of r became src; all other bytes that some user sees, and all
      pages outside the range, the kernel's included, stayed. */
  ghost predicate Spliced(m: Mem, b: map<int, Page>, b': map<int, Page>, r: int, va: int, src: seq<Byte>) {
    && b'.Keys == b.Keys
    && (forall q :: q in b && !Reached(m, r, va, |src|, q) ==> b'[q] == b[q])
    && forall r', x :: IsRoot(m, r') && UserPpn(m, r', x / PGSIZE) != 0 ==>
         UserByte(m, b', r', x) == if r' == r && va <= x < va + |src| then src[x - va] else UserByte(m, b, r', x)
  }

  /** One turn of the copyout loop. */
  lemma SpliceChunk(m: Mem, b: map<int, Page>, r: int, va: int, part: seq<Byte>)
    requires MemOk(m) && IsRoot(m, r) && BytesOk(m, b) && 0 <= va && UserPpn(m, r, va / PGSIZE) != 0
    requires 0 < |part| && va % PGSIZE + |part| <= PGSIZE
    ensures var p := UserPpn(m, r, va / PGSIZE);
            && p in b && |b[p]| == PGSIZE
            && Spliced(m, b, b[p := Overwrite(b[p], va % PGSIZE, part)], r, va, part)
            && BytesOk(m, b[p := Overwrite(b[p], va % PGSIZE, part)])
  {
    hide Leaf, MemOk, UserPpn;
    UserPageOwned(m, r, va / PGSIZE);
    var p := UserPpn(m, r, va / PGSIZE);
    var b' := b[p := Overwrite(b[p], va % PGSIZE, part)];
    assert Reached(m, r, va, |part|, p) by {
      assert va <= va < va + |part|;
    }
    forall r', x | IsRoot(m, r') && UserPpn(m, r', x / PGSIZE) != 0
      ensures UserByte(m, b', r', x) == if r' == r && va <= x < va + |part| then part[x - va] else UserByte(m, b, r', x)
    {
      UserPageOwned(m, r', x / PGSIZE);
      SameUnit(va, PGSIZE, va % PGSIZE, |part|, x);
    }
  }

  lemma NotReached(m: Mem, r: int, va: int, k: nat, n: nat, q: int)
    requires !Reached(m, r, va, k + n, q)
    ensures !Reached(m, r, va, k, q) && !Reached(m, r, va + k, n, q)
  {
    hide UserPpn;
    forall x | va <= x < va + k + n ensures UserPpn(m, r, x / PGSIZE) != q {
    }
  }

  lemma SplicedOn(m: Mem, b0: map<int, Page>, b1: map<int, Page>, b2: map<int, Page>, r: int, va: int, s: seq<Byte>, t: seq<Byte>)
    requires Spliced(m, b0, b1, r, va, s) && Spliced(m, b1, b2, r, va + |s|, t)
    ensures Spliced(m, b0, b2, r, va, s + t)
  {
    hide UserPpn, UserByte;
    forall q | q in b0 && !Reached(m, r, va, |s + t|, q) ensures b2[q] == b0[q] {
      NotReached(m, r, va, |s|, |t|, q);
    }
    forall r', x | IsRoot(m, r') && UserPpn(m, r', x / PGSIZE) != 0
      ensures UserByte(m, b2, r', x) == if r' == r && va <= x < va + |s + t| then (s + t)[x - va] else UserByte(m, b0, r', x)
    {
      var there := UserByte(m, b1, r', x);
    }
  }

  /** What the user reads from va on. */
  ghost predicate ReadsAs(m: Mem, b: map<int, Page>, r: int, va: int, dst: seq<Byte>) {
    forall i :: 0 <= i < |dst| ==> dst[i] == UserByte(m, b, r, va + i)
  }

  lemma ReadChunk(m: Mem, b: map<int, Page>, r: int, va: int, n: nat)
    requires MemOk(m) && IsRoot(m, r) && BytesOk(m, b) && 0 <= va && UserPpn(m, r, va / PGSIZE) != 0
    requires va % PGSIZE + n <= PGSIZE
    ensures var p := UserPpn(m, r, va / PGSIZE);
            p in b && |b[p]| == PGSIZE && ReadsAs(m, b, r, va, b[p][va % PGSIZE..va % PGSIZE + n])
  {
    hide Leaf, MemOk, UserPpn;
    UserPageOwned(m, r, va / PGSIZE);
    var p := UserPpn(m, r, va / PGSIZE);
    var part := b[p][va % PGSIZE..va % PGSIZE + n];
    forall i | 0 <= i < |part| ensures part[i] == UserByte(m, b, r, va + i) {
      SameUnit(va, PGSIZE, va % PGSIZE, n, va + i);
    }
  }

  /** What was spliced in is what is read. */
  lemma ReadsBack(m: Mem, b: map<int, Page>, b': map<int, Page>, r: int, va: int, src: seq<Byte>, dst: seq<Byte>)
    requires IsRoot(m, r) && UserRange(m, r, va, |src|)
    requires Spliced(m, b, b', r, va, src) && ReadsAs(m, b', r, va, dst) && |dst| == |src|
    ensures dst == src
  {
    hide UserPpn, UserByte, Reached;
    forall i | 0 <= i < |dst| ensures dst[i] == src[i] {
      assert UserPpn(m, r, (va + i) / PGSIZE) != 0;
      assert dst[i] == UserByte(m, b', r, va + i);
    }
  }

  // ---------------------------------------------------------------------
  // The code

  method WalkAddr(vm: Vm, root: int, va: nat) returns (p: int)
    requires vm.Valid() && IsRoot(vm.M(), root)
    modifies vm`tables, vm`bytes, vm`freelist, vm`owner
    ensures unchanged(vm) && p == UserPpn(vm.M(), root, va / PGSIZE)
  {
    hide MemOk, Leaf, I2, I1, I0, LowPage;
    var v := va / PGSIZE;
    if v >= MAXVPN {
      return 0;
    }
    Split(v);
    var ok, pt := vm.Walk(root, v, false);
    if !ok {
      NoTableNoLeaf(vm.M(), root, v);
      return 0;
    }
    SlotTable(vm.M(), root, v);
    var e := vm.tables[pt][I0(v)];
    if !HasV(e) || !HasU(e) {
      return 0;
    }
    return Ppn(e);
  }

  lemma RangeChunk(m: Mem, r: int, va: nat, k: nat, n: nat)
    requires UserRange(m, r, va, k) && UserPpn(m, r, (va + k) / PGSIZE) != 0 && (va + k) % PGSIZE + n <= PGSIZE
    ensures UserRange(m, r, va, k + n)
  {
    hide UserPpn;
    forall x | va <= x < va + (k + n) ensures UserPpn(m, r, x / PGSIZE) != 0 {
      SameUnit(va + k, PGSIZE, (va + k) % PGSIZE, n, x);
    }
  }

  /** The space left in the page of va, as the loops compute it. */
  lemma NextPage(va: nat, n: int)
    requires n == PGSIZE - va % PGSIZE
    ensures 0 < n && va + n == (va / PGSIZE + 1) * PGSIZE && va / PGSIZE * PGSIZE / PGSIZE == va / PGSIZE
  {
  }

  lemma ReadsOn(m: Mem, b: map<int, Page>, r: int, va: int, s: seq<Byte>, t: seq<Byte>)
    requires ReadsAs(m, b, r, va, s) && ReadsAs(m, b, r, va + |s|, t)
    ensures ReadsAs(m, b, r, va, s + t)
  {
    hide UserByte;
    forall i | 0 <= i < |s + t| ensures (s + t)[i] == UserByte(m, b, r, va + i) {
      if i >= |s| {
        assert t[i - |s|] == UserByte(m, b, r, va + |s| + (i - |s|));
      }
    }
  }

  lemma SplicedNothing(m: Mem, b: map<int, Page>, r: int, va: int)
    ensures Spliced(m, b, b, r, va, [])
  {
  }

  /** copyout: succeeds exactly when every page of the range is a user page, and then
      the user sees src there and everything else as before. On failure a prefix of k
      bytes has been copied. */
  method CopyOut(vm: Vm, root: int, dstva: nat, src: seq<Byte>) returns (ok: bool, ghost k: nat)
    requires vm.Valid() && IsRoot(vm.M(), root)
    modifies vm`tables, vm`bytes, vm`freelist, vm`owner
    ensures vm.Valid() && vm.M() == old(vm.M()) && vm.freelist == old(vm.freelist)
    ensures ok <==> UserRange(vm.M(), root, dstva, |src|)
    ensures k <= |src| && (ok ==> k == |src|) && Spliced(vm.M(), old(vm.bytes), vm.bytes, root, dstva, src[..k])
  {
    hide MemOk, FreeOk, BytesOk, UserPpn, UserRange, Spliced;
    ghost var m := vm.M();
    var rest, dst := src, dstva;
    k := 0;
    SplicedNothing(m, vm.bytes, root, dstva);
    NoRange(m, root, dstva);
    while |rest| > 0
      invariant vm.Valid() && vm.M() == m && vm.freelist == old(vm.freelist)
      invariant k <= |src| && rest == src[k..] && (|rest| > 0 ==> dst == dstva + k)
      invariant Spliced(m, old(vm.bytes), vm.bytes, root, dstva, src[..k]) && UserRange(m, root, dstva, k)
      decreases |rest|
    {
      var va0 := dst / PGSIZE * PGSIZE;
      var n := PGSIZE - (dst - va0);
      NextPage(dst, n);
      var pa0 := WalkAddr(vm, root, va0);
      if pa0 == 0 {
        OutOfRange(m, root, dstva, |src|, k);
        return false, k;
      }
      if n > |rest| {
        n := |rest|;
      }
      SpliceChunk(m, vm.bytes, root, dst, rest[..n]);
      ghost var b := vm.bytes;
      vm.bytes := vm.bytes[pa0 := Overwrite(vm.bytes[pa0], dst - va0, rest[..n])];
      SplicedOn(m, old(vm.bytes), b, vm.bytes, root, dstva, src[..k], rest[..n]);
      assert src[..k] + rest[..n] == src[..k + n];
      RangeChunk(m, root, dstva, k, n);
      rest, dst, k := rest[n..], va0 + PGSIZE, k + n;
    }
    assert src[..k] == src;
    return true, k;
  }

  lemma NoRange(m: Mem, r: int, va: int)
    ensures UserRange(m, r, va, 0)
  {
  }

  lemma OutOfRange(m: Mem, r: int, va: int, len: int, k: nat)
    requires k < len && UserPpn(m, r, (va + k) / PGSIZE) == 0
    ensures !UserRange(m, r, va, len)
  {
    hide UserPpn;
    assert va <= va + k < va + len;
  }

  /** copyin: the bytes the user sees, or failure if some page is not a user page. */
  method CopyIn(vm: Vm, root: int, srcva: nat, len: nat) returns (ok: bool, dst: seq<Byte>)
    requires vm.Valid() && IsRoot(vm.M(), root)
    modifies vm`tables, vm`bytes, vm`freelist, vm`owner
    ensures unchanged(vm)
    ensures ok <==> UserRange(vm.M(), root, srcva, len)
    ensures ReadsAs(vm.M(), vm.bytes, root, srcva, dst) && (ok ==> |dst| == len)
  {
    hide MemOk, FreeOk, BytesOk, UserPpn, UserRange, UserByte, ReadsAs;
    ghost var m := vm.M();
    var left, src := len, srcva;
    dst := [];
    NoRange(m, root, srcva);
    ReadsNothing(m, vm.bytes, root, srcva);
    while left > 0
      invariant unchanged(vm) && 0 <= left == len - |dst| && (left > 0 ==> src == srcva + |dst|)
      invariant ReadsAs(m, vm.bytes, root, srcva, dst) && UserRange(m, root, srcva, |dst|)
      decreases left
    {
      var va0 := src / PGSIZE * PGSIZE;
      var n := PGSIZE - (src - va0);
      NextPage(src, n);
      var pa0 := WalkAddr(vm, root, va0);
      if pa0 == 0 {
        OutOfRange(m, root, srcva, len, |dst|);
        return false, dst;
      }
      if n > left {
        n := left;
      }
      ReadChunk(m, vm.bytes, root, src, n);
      var part := vm.bytes[pa0][src - va0..src - va0 + n];
      ReadsOn(m, vm.bytes, root, srcva, dst, part);
      RangeChunk(m, root, srcva, |dst|, n);
      left, dst, src := left - n, dst + part, va0 + PGSIZE;
    }
    return true, dst;
  }

  /** copyout followed by copyin of the same range: both succeed or fail together, and the
      bytes come back. */
  method CopyRoundTrip(vm: Vm, root: int, va: nat, src: seq<Byte>) returns (ok: bool, dst: seq<Byte>)
    requires vm.Valid() && IsRoot(vm.M(), root)
    modifies vm`tables, vm`bytes, vm`freelist, vm`owner
    ensures vm.Valid() && vm.M() == old(vm.M())
    ensures ok <==> UserRange(vm.M(), root, va, |src|)
    ensures ok ==> dst == src
  {
    hide MemOk, FreeOk, BytesOk, UserPpn, UserRange, UserByte, ReadsAs, Spliced;
    ghost var b, k := vm.bytes, 0;
    ok, k := CopyOut(vm, root, va, src);
    if !ok {
      return false, [];
    }
    ok, dst := CopyIn(vm, root, va, |src|);
    assert src[..k] == src;
    ReadsBack(vm.M(), b, vm.bytes, root, va, src, dst);
  }

  lemma ReadsNothing(m: Mem, b: map<int, Page>, r: int, va: int)
    ensures ReadsAs(m, b, r, va, [])
  {
  }

  /** A NUL the user can read at va + k, before position max. */
  ghost predicate NulAt(m: Mem, b: map<int, Page>, r: int, va: int, max: int, k: int) {
    0 <= k < max && UserRange(m, r, va, k + 1) && UserByte(m, b, r, va + k) == 0
  }

  /** copyinstr: the bytes up to the first NUL, if there is one in reach. */
  method CopyInStr(vm: Vm, root: int, srcva: nat, max: nat) returns (ok: bool, dst: seq<Byte>)
    requires vm.Valid() && IsRoot(vm.M(), root)
    modifies vm`tables, vm`bytes, vm`freelist, vm`owner
    ensures unchanged(vm)
    ensures ok <==> exists k :: NulAt(vm.M(), vm.bytes, root, srcva, max, k)
    ensures 0 !in dst && ReadsAs(vm.M(), vm.bytes, root, srcva, dst)
    ensures ok ==> NulAt(vm.M(), vm.bytes, root, srcva, max, |dst|)
  {
    hide MemOk, FreeOk, BytesOk, UserPpn, UserRange, UserByte, ReadsAs;
    ghost var m := vm.M();
    var left, src := max, srcva;
    dst := [];
    NoRange(m, root, srcva);
    ReadsNothing(m, vm.bytes, root, srcva);
    while left > 0
      invariant unchanged(vm) && 0 <= left == max - |dst| && (left > 0 ==> src == srcva + |dst|) && 0 !in dst
      invariant ReadsAs(m, vm.bytes, root, srcva, dst) && UserRange(m, root, srcva, |dst|)
      decreases left
    {
      var va0 := src / PGSIZE * PGSIZE;
      var n := PGSIZE - (src - va0);
      NextPage(src, n);
      var pa0 := WalkAddr(vm, root, va0);
      if pa0 == 0 {
        NoNul(m, vm.bytes, root, srcva, max, dst);
        return false, dst;
      }
      if n > left {
        n := left;
      }
      ReadChunk(m, vm.bytes, root, src, n);
      var part := vm.bytes[pa0][src - va0..src - va0 + n];
      var i := FirstZero(part);
      ReadsPrefix(m, vm.bytes, root, src, part, i);
      ReadsOn(m, vm.bytes, root, srcva, dst, part[..i]);
      RangeChunk(m, root, srcva, |dst|, i);
      if i < n {
        RangeChunk(m, root, srcva, |dst|, i + 1);
        dst := dst + part[..i];
        assert NulAt(vm.M(), vm.bytes, root, srcva, max, |dst|);
        return true, dst;
      }
      dst, left, src := dst + part[..i], left - n, va0 + PGSIZE;
    }
    NoNulRead(m, vm.bytes, root, srcva, max, dst);
    return false, dst;
  }

  /** The inner loop of copyinstr. */
  method FirstZero(part: seq<Byte>) returns (i: nat)
    ensures i <= |part| && 0 !in part[..i] && (i < |part| ==> part[i] == 0)
  {
    i := 0;
    while i < |part| && part[i] != 0
      invariant i <= |part| && 0 !in part[..i]
    {
      i := i + 1;
    }
  }

  lemma ReadsPrefix(m: Mem, b: map<int, Page>, r: int, va: int, s: seq<Byte>, i: nat)
    requires ReadsAs(m, b, r, va, s) && i <= |s|
    ensures ReadsAs(m, b, r, va, s[..i]) && (i < |s| ==> UserByte(m, b, r, va + i) == s[i])
  {
  }

  lemma NoNul(m: Mem, b: map<int, Page>, r: int, va: int, max: int, dst: seq<Byte>)
    requires ReadsAs(m, b, r, va, dst) && 0 !in dst && UserPpn(m, r, (va + |dst|) / PGSIZE) == 0
    ensures !exists k :: NulAt(m, b, r, va, max, k)
  {
    hide UserPpn, UserByte;
    forall k | 0 <= k < max ensures !NulAt(m, b, r, va, max, k) {
      if k < |dst| {
        assert dst[k] == UserByte(m, b, r, va + k);
      } else {
        OutOfRange(m, r, va, k + 1, |dst|);
      }
    }
  }

  lemma NoNulRead(m: Mem, b: map<int, Page>, r: int, va: int, max: int, dst: seq<Byte>)
    requires ReadsAs(m, b, r, va, dst) && 0 !in dst && |dst| == max
    ensures !exists k :: NulAt(m, b, r, va, max, k)
  {
    hide UserPpn, UserByte;
    forall k | 0 <= k < max ensures !NulAt(m, b, r, va, max, k) {
      assert dst[k] == UserByte(m, b, r, va + k);
    }
  }
}
