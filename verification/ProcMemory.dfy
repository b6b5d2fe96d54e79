/** The memory of a process (allocproc, proc_pagetable, growproc, the copy in fork, and
    freeproc in kernel/proc.c): its trapframe page, its page table and its user pages. */
module ProcMemory {
  import opened PageTable
  import opened TableCount
  import opened TableTree
  import opened UserMemory

  const UINT: int := 0x1_0000_0000

  /** The memory fields of struct proc; 0 is the null pointer. */
  class Proc {
    var trapframe: int
    var pagetable: int
    var sz: nat

    constructor ()
      ensures trapframe == 0 && pagetable == 0 && sz == 0
    {
      trapframe, pagetable, sz := 0, 0, 0;
    }
  }

  /** An address space with `pages` user pages, and the trapframe page that goes with it. */
  datatype Space = Space(frame: int, root: int, pages: int)

  /** User pages from 0 on, trapframe and trampoline at the top, and nothing else. */
  ghost predicate Layout(m: Mem, s: Space, tramp: int) {
    && 0 <= s.pages <= TRAPFRAME
    && forall v :: 0 <= v < MAXVPN ==>
         if v < s.pages then FreshPage(m, s.root, v)
         else if v == TRAMPOLINE then Leaf(m, s.root, v) == Encode(tramp, RX)
         else if v == TRAPFRAME then Leaf(m, s.root, v) == Encode(s.frame, RW)
         else Leaf(m, s.root, v) == 0
  }

  /** The process is whole: its trapframe is the kernel's, and its pages are its own. */
  ghost predicate SpaceOk(m: Mem, s: Space, tramp: int) {
    && IsRoot(m, s.root) && Owns(m, s.frame, Kernel) && tramp !in m.owner
    && Layout(m, s, tramp)
  }

  // ---------------------------------------------------------------------
  // What happens to all other processes

  /** Only free pages, the kernel's page `frame`, and pages of r changed hands; all other
      address spaces translate as before. */
  ghost predicate Apart(m: Mem, n: Mem, r: int, frame: int) {
    && n.owner.Keys == m.owner.Keys && OtherViews(m, n, r)
    && forall q :: q in m.owner ==>
         n.owner[q] == m.owner[q] || (q == frame && m.owner[q] == Kernel) || m.owner[q] == Unused || OfProcess(m.owner[q], r)
  }

  /** Pages that stay in the same hands keep their contents. */
  ghost predicate KeptBytes(m: Mem, n: Mem, b: map<int, Page>, b': map<int, Page>) {
    forall q :: q in m.owner && q in n.owner && Held(m.owner[q]) && n.owner[q] == m.owner[q] ==>
      q in b && q in b' && b'[q] == b[q]
  }

  lemma KeptIfHeld(m: Mem, n: Mem, b: map<int, Page>, b': map<int, Page>)
    requires SameBytes(m, b, b') || SameBytes(n, b, b')
    ensures KeptBytes(m, n, b, b')
  {
  }

  /** Page v of r has the same translation and contents as before. */
  ghost predicate SamePage(m: Mem, b: map<int, Page>, n: Mem, b': map<int, Page>, r: int, v: int) {
    && Leaf(n, r, v) == Leaf(m, r, v)
    && var p := Ppn(Leaf(m, r, v)); p in b && p in b' && b'[p] == b[p]
  }

  /** Every page of the image, and the trapframe, have the contents they had. */
  ghost predicate SameSpace(m: Mem, b: map<int, Page>, n: Mem, b': map<int, Page>, s: Space) {
    && (forall v :: 0 <= v < s.pages ==> SamePage(m, b, n, b', s.root, v))
    && s.frame in b && s.frame in b' && b'[s.frame] == b[s.frame]
  }

  /** Then every other process is as whole as it was, and its memory holds the same. */
  lemma SpaceStays(m: Mem, n: Mem, b: map<int, Page>, b': map<int, Page>, r: int, frame: int, s: Space, tramp: int)
    requires Apart(m, n, r, frame) && KeptBytes(m, n, b, b') && SpaceOk(m, s, tramp) && s.root != r && s.frame != frame
    ensures SpaceOk(n, s, tramp) && SameSpace(m, b, n, b', s)
  {
    hide Leaf, Encode, HasV, Ppn;
    forall v | 0 <= v < MAXVPN
      ensures Leaf(n, s.root, v) == Leaf(m, s.root, v)
      ensures v < s.pages ==> FreshPage(n, s.root, v) && SamePage(m, b, n, b', s.root, v)
    {
      assert v < s.pages ==> FreshPage(m, s.root, v);
    }
  }

  /** The pages of s, and no others, were free before. */
  ghost predicate Charged(m: Mem, n: Mem, s: Space) {
    && n.owner.Keys == m.owner.Keys
    && forall q :: q in m.owner ==>
         && !OfProcess(m.owner[q], s.root)
         && (n.owner[q] == m.owner[q] || (m.owner[q] == Unused && (q == s.frame || OfProcess(n.owner[q], s.root))))
         && (q == s.frame ==> m.owner[q] == Unused)
  }

  /** Pages went to r from the free list, or back. */
  ghost predicate ItsOwn(m: Mem, n: Mem, r: int) {
    && n.owner.Keys == m.owner.Keys
    && forall q :: q in m.owner ==>
         n.owner[q] == m.owner[q] ||
         ((m.owner[q] == Unused || OfProcess(m.owner[q], r)) && (n.owner[q] == Unused || OfProcess(n.owner[q], r)))
  }

  lemma StillCharged(m: Mem, n: Mem, o: Mem, s: Space, k: int)
    requires Charged(m, n, s) && ItsOwn(n, o, s.root)
    ensures Charged(m, o, s.(pages := k))
  {
  }

  /** A page that is free belongs to no tree. */
  lemma NoProcessYet(m: Mem, r: int)
    requires MemOk(m) && Owns(m, r, Unused)
    ensures forall q :: q in m.owner ==> !OfProcess(m.owner[q], r)
  {
    hide Leaf, MidPage, LowPage, EntryOk;
    forall q | q in m.owner ensures !OfProcess(m.owner[q], r) {
      assert PageOk(m, q);
    }
  }

  // ---------------------------------------------------------------------
  // Steps of proc_pagetable

  /** Tables that a page of a new address space lacks, with the trampoline mapped. */
  function FreshMissing(v: int): nat {
    Lacks(2, TRAMPOLINE, TRAMPOLINE + 1, v)
  }

  /** Free pages became tables of r; every translation that was there stayed. */
  ghost predicate Started(m: Mem, n: Mem, r: int) {
    && n.owner.Keys == m.owner.Keys && SameViews(m, n)
    && forall q :: q in m.owner ==> n.owner[q] == m.owner[q] || (m.owner[q] == Unused && n.owner[q].Table? && n.owner[q].r == r)
  }

  lemma Created(m: Mem, n: Mem, r: int)
    requires SameViews(m, n) && Owns(m, r, Unused) && n.owner == m.owner[r := Table(r, Root)]
    ensures Started(m, n, r)
  {
    hide Leaf;
  }

  /** Mapping one page of the kernel's at v. */
  lemma StartedMore(m: Mem, n: Mem, o: Mem, r: int, v: int, p: int, perm: int, k: int)
    requires Started(m, n, r) && RangeSet(n, o, r, v, k, From(p, perm)) && Mapped(n, o, r, v, p, k) && k <= 1
    requires !IsRoot(m, r) && !Owns(n, p, Loose)
    ensures Started(m, o, r)
  {
    hide Leaf, Encode;
    forall r', x | IsRoot(m, r') && 0 <= x < MAXVPN ensures Leaf(o, r', x) == Leaf(m, r', x) {
      assert IsRoot(n, r') && Leaf(n, r', x) == Leaf(m, r', x);
    }
    forall q | q in m.owner ensures o.owner[q] == n.owner[q] || (n.owner[q] == Unused && o.owner[q].Table? && o.owner[q].r == r) {
      assert k <= 0 || p != q || n.owner[q] != Loose;
    }
  }

  /** The first failure path: freeing the tables made so far undoes everything. */
  lemma NothingStarted(m: Mem, n: Mem, o: Mem, r: int)
    requires MemOk(m) && Owns(m, r, Unused) && Started(m, n, r) && GivenBack(n, o, r) && OtherViews(n, o, r)
    ensures o.owner == m.owner && SameViews(m, o)
  {
    hide Leaf, MemOk;
    NoProcessYet(m, r);
    forall q | q in m.owner ensures o.owner[q] == m.owner[q] {
    }
    forall r' | IsRoot(m, r') ensures IsRoot(o, r') {
      assert IsRoot(n, r');
    }
    forall r', x | IsRoot(m, r') && 0 <= x < MAXVPN ensures Leaf(o, r', x) == Leaf(m, r', x) {
      assert IsRoot(n, r') && Leaf(n, r', x) == Leaf(m, r', x);
    }
  }

  lemma EmptyTables(m: Mem, r: int, v: int)
    requires Missing(m, r, v) == 2
    ensures TablesNeeded(m, r, v, v + 1) == 2
  {
    assert TablesNeeded(m, r, v, v) == 0;
  }

  lemma TrampolineTables(m: Mem, n: Mem, r: int)
    requires 0 !in m.tables && OnlyPath(m, n, r, TRAMPOLINE) && Missing(n, r, TRAMPOLINE) == 0
    requires forall v :: Missing(m, r, v) == 2
    ensures forall v :: 0 <= v < MAXVPN ==> Missing(n, r, v) == FreshMissing(v)
    ensures TablesNeeded(n, r, TRAPFRAME, TRAPFRAME + 1) == 0
  {
    hide Missing, OnlyPath;
    forall v | 0 <= v < MAXVPN ensures Missing(n, r, v) == FreshMissing(v) {
      MissingAfter(m, n, r, TRAMPOLINE, v);
    }
    assert TablesNeeded(n, r, TRAPFRAME, TRAPFRAME) == 0 && FreshMissing(TRAPFRAME) == 0;
  }

  lemma FrameTables(m: Mem, n: Mem, r: int)
    requires 0 !in m.tables && OnlyPath(m, n, r, TRAPFRAME) && Missing(n, r, TRAPFRAME) == 0
    requires forall v :: 0 <= v < MAXVPN ==> Missing(m, r, v) == FreshMissing(v)
    ensures forall v :: 0 <= v < MAXVPN ==> Missing(n, r, v) == FreshMissing(v)
  {
    hide Missing, OnlyPath;
    forall v | 0 <= v < MAXVPN ensures Missing(n, r, v) == FreshMissing(v) {
      MissingAfter(m, n, r, TRAPFRAME, v);
    }
  }

  lemma FirstLayout(m: Mem, n: Mem, o: Mem, r: int, frame: int, tramp: int)
    requires NoLeaves(m, r) && IsRoot(m, r)
    requires RangeSet(m, n, r, TRAMPOLINE, 1, From(tramp, RX)) && RangeSet(n, o, r, TRAPFRAME, 1, From(frame, RW))
    ensures IsRoot(o, r) && Layout(o, Space(frame, r, 0), tramp)
  {
    hide Leaf, Encode;
    forall v | 0 <= v < MAXVPN
      ensures Leaf(o, r, v) == if v == TRAMPOLINE then Encode(tramp, RX) else if v == TRAPFRAME then Encode(frame, RW) else 0
    {
      assert Leaf(m, r, v) == 0;
      var there := Leaf(n, r, v);
    }
  }

  lemma NoLeavesStill(m: Mem, n: Mem, r: int, v: int, k: int, f: Fill)
    requires NoLeaves(m, r) && IsRoot(m, r) && RangeSet(m, n, r, v, k, f) && k <= 0
    ensures NoLeaves(n, r) && IsRoot(n, r)
  {
    hide Leaf;
    forall x | 0 <= x < MAXVPN ensures Leaf(n, r, x) == 0 {
      assert Leaf(m, r, x) == 0;
    }
  }

  lemma NoneValid(m: Mem, r: int, v: int)
    requires NoLeaves(m, r) && 0 <= v < MAXVPN
    ensures !HasV(Leaf(m, r, v))
  {
    hide Leaf;
  }

  lemma StillFree(m: Mem, n: Mem, r: int, v: int, w: int, f: Fill)
    requires NoLeaves(m, r) && IsRoot(m, r) && RangeSet(m, n, r, v, 1, f) && 0 <= w < MAXVPN && w != v
    ensures IsRoot(n, r) && !HasV(Leaf(n, r, w))
  {
    hide Leaf;
    assert Leaf(m, r, w) == 0;
  }

  // ---------------------------------------------------------------------
  // The code

  /** mappages of the one page v. */
  method MapPage(vm: Vm, root: int, v: int, p: int, perm: int) returns (ok: bool, ghost k: nat)
    requires vm.Valid() && IsRoot(vm.M(), root) && 0 <= v < MAXVPN && 0 <= perm < 1024 && IsLeaf(perm)
    requires !HasV(Leaf(vm.M(), root, v)) && Ready(vm.M(), p, perm)
    modifies vm`tables, vm`bytes, vm`freelist, vm`owner
    ensures vm.Valid() && SameBytes(old(vm.M()), old(vm.bytes), vm.bytes)
    ensures RangeSet(old(vm.M()), vm.M(), root, v, k, From(p, perm)) && Mapped(old(vm.M()), vm.M(), root, v, p, k)
    ensures k == if ok then 1 else 0
    ensures ok <==> |old(vm.freelist)| >= TablesNeeded(old(vm.M()), root, v, v + 1)
    ensures ok ==> |vm.freelist| == |old(vm.freelist)| - TablesNeeded(old(vm.M()), root, v, v + 1)
    ensures ok ==> OnlyPath(old(vm.M()), vm.M(), root, v) && Missing(vm.M(), root, v) == 0
  {
    hide MemOk, BytesOk, FreeOk, Leaf, SameBytes, RangeSet, Mapped, OnlyPath, TablesNeeded, Missing, HasV, Ready, IsLeaf;
    assert v * PGSIZE / PGSIZE == v && (v * PGSIZE + PGSIZE - 1) / PGSIZE == v;
    ok, k := vm.MapPages(root, v * PGSIZE, PGSIZE, p, perm);
  }

  /** proc_pagetable: an address space with trampoline and trapframe, or 0 and nothing is
      kept. Only the first mappages can fail: the second needs no new table. */
  method ProcPagetable(vm: Vm, frame: int, tramp: int) returns (root: int)
    requires vm.Valid() && Owns(vm.M(), frame, Kernel) && tramp !in vm.owner
    modifies vm`tables, vm`bytes, vm`freelist, vm`owner
    ensures vm.Valid() && SameViews(old(vm.M()), vm.M()) && SameBytes(old(vm.M()), old(vm.bytes), vm.bytes)
    ensures root == 0 <==> |old(vm.freelist)| < 3
    ensures root == 0 ==> vm.owner == old(vm.owner)
    ensures root != 0 ==> SpaceOk(vm.M(), Space(frame, root, 0), tramp) && Started(old(vm.M()), vm.M(), root)
    ensures root != 0 ==> Owns(old(vm.M()), root, Unused) && |vm.freelist| == |old(vm.freelist)| - 3
    ensures root != 0 ==> forall v :: 0 <= v < MAXVPN ==> Missing(vm.M(), root, v) == FreshMissing(v)
  {
    hide MemOk, BytesOk, FreeOk, Leaf, SameBytes, RangeSet, Mapped, NoLeaves, Started, Layout, OnlyPath, TablesNeeded, Missing;
    hide GivenBack, OtherViews, SameViews, FreshMissing, HasV, Ready, IsLeaf;
    ghost var m, b := vm.M(), vm.bytes;
    root := vm.UvmCreate();
    if root == 0 {
      return;
    }
    ghost var m1, b1 := vm.M(), vm.bytes;
    Created(m, m1, root);
    EmptyTables(m1, root, TRAMPOLINE);
    NoneValid(m1, root, TRAMPOLINE);
    StartReady(m, m1, root, frame, tramp);
    var ok;
    ghost var k;
    ok, k := MapPage(vm, root, TRAMPOLINE, tramp, RX);
    ghost var m2, b2 := vm.M(), vm.bytes;
    StartedMore(m, m1, m2, root, TRAMPOLINE, tramp, RX, k);
    if !ok {
      NoLeavesStill(m1, m2, root, TRAMPOLINE, k, From(tramp, RX));
      EmptyImage(m2, root);
      vm.UvmFree(root, 0);
      NothingStarted(m, m2, vm.M(), root);
      FreedBytes(m, m1, m2, vm.M(), b, b1, b2, vm.bytes, root);
      return 0;
    }
    StillFree(m1, m2, root, TRAMPOLINE, TRAPFRAME, From(tramp, RX));
    NoNullTable(m1);
    TrampolineTables(m1, m2, root);
    StartReady(m, m2, root, frame, tramp);
    ok, k := MapPage(vm, root, TRAPFRAME, frame, RW);
    if !ok {
      assert false;
    }
    ghost var m3 := vm.M();
    StartedMore(m, m2, m3, root, TRAPFRAME, frame, RW, k);
    StartReady(m, m3, root, frame, tramp);
    FirstLayout(m1, m2, m3, root, frame, tramp);
    NoNullTable(m2);
    FrameTables(m2, m3, root);
    StartedBytes(m, m1, m2, m3, b, b1, b2, vm.bytes, root);
  }

  lemma StartReady(m: Mem, n: Mem, r: int, frame: int, tramp: int)
    requires Owns(m, frame, Kernel) && tramp !in m.owner && Started(m, n, r)
    ensures Owns(n, frame, Kernel) && tramp !in n.owner && Ready(n, tramp, RX) && Ready(n, frame, RW) && SameViews(m, n)
    ensures IsLeaf(RX) && IsLeaf(RW)
  {
    hide Leaf;
  }

  lemma EmptyImage(m: Mem, r: int)
    requires NoLeaves(m, r)
    ensures forall v :: 0 <= v < MAXVPN ==> if v < RoundUp(0) then FreshPage(m, r, v) else Leaf(m, r, v) == 0
  {
    hide Leaf;
  }

  lemma FreedBytes(m: Mem, m1: Mem, m2: Mem, o: Mem, b: map<int, Page>, b1: map<int, Page>, b2: map<int, Page>, b3: map<int, Page>, r: int)
    requires Started(m, m1, r) && Started(m, m2, r) && o.owner == m.owner
    requires SameBytes(m, b, b1) && SameBytes(m1, b1, b2) && SameBytes(o, b2, b3)
    ensures SameBytes(m, b, b3)
  {
    hide Leaf;
  }

  lemma StartedBytes(m: Mem, m1: Mem, m2: Mem, m3: Mem, b: map<int, Page>, b1: map<int, Page>, b2: map<int, Page>, b3: map<int, Page>, r: int)
    requires Started(m, m1, r) && Started(m, m2, r)
    requires SameBytes(m, b, b1) && SameBytes(m1, b1, b2) && SameBytes(m2, b2, b3)
    ensures SameBytes(m, b, b3)
  {
    hide Leaf;
  }

  // ---------------------------------------------------------------------
  // freeproc

  /** The trapframe page and the pages of r, and no others, went to the free list. */
  ghost predicate Returned(m: Mem, n: Mem, r: int, frame: int) {
    && n.owner.Keys == m.owner.Keys
    && forall q :: q in m.owner ==> n.owner[q] == if q == frame || OfProcess(m.owner[q], r) then Unused else m.owner[q]
  }

  /** With the trapframe page already free, the page table is as proc_freepagetable needs it. */
  lemma FrameFreed(m: Mem, n: Mem, s: Space, tramp: int)
    requires SpaceOk(m, s, tramp) && n.owner == m.owner[s.frame := Unused] && SameViews(m, n)
    ensures IsRoot(n, s.root)
    ensures forall v :: 0 <= v < MAXVPN ==>
              if v < s.pages then FreshPage(n, s.root, v)
              else if v == TRAPFRAME || v == TRAMPOLINE then KernelPage(n, s.root, v)
              else Leaf(n, s.root, v) == 0
  {
    EncodeDecodes(tramp, RX);
    EncodeDecodes(s.frame, RW);
    hide Leaf, Encode, HasV, Ppn;
    forall v | 0 <= v < MAXVPN
      ensures if v < s.pages then FreshPage(n, s.root, v)
              else if v == TRAPFRAME || v == TRAMPOLINE then KernelPage(n, s.root, v)
              else Leaf(n, s.root, v) == 0
    {
      assert Leaf(n, s.root, v) == Leaf(m, s.root, v);
      assert v < s.pages ==> FreshPage(m, s.root, v);
    }
  }

  lemma AllReturned(m: Mem, n: Mem, o: Mem, b: map<int, Page>, b1: map<int, Page>, b2: map<int, Page>, r: int, frame: int)
    requires SameViews(m, n) && n.owner == (if frame == 0 then m.owner else m.owner[frame := Unused])
    requires frame != 0 ==> Owns(m, frame, Kernel)
    requires 0 !in m.owner && GivenBack(n, o, r) && OtherViews(n, o, r)
    requires SameBytes(n, b, b1) && SameBytes(o, b1, b2)
    ensures Returned(m, o, r, frame) && Apart(m, o, r, frame) && SameBytes(o, b, b2)
  {
    hide Leaf;
    forall r', v | r' != r && IsRoot(m, r') && 0 <= v < MAXVPN ensures Leaf(o, r', v) == Leaf(m, r', v) {
      assert IsRoot(n, r') && Leaf(n, r', v) == Leaf(m, r', v);
    }
  }

  /** Without a page table there is nothing else to free. */
  lemma NoTree(m: Mem, b: map<int, Page>)
    requires MemOk(m) && BytesOk(m, b)
    ensures 0 !in m.owner && GivenBack(m, m, 0) && OtherViews(m, m, 0) && SameBytes(m, b, b)
  {
    hide Leaf, MidPage, LowPage, EntryOk;
    forall q | q in m.owner ensures !OfProcess(m.owner[q], 0) {
      assert PageOk(m, q);
    }
  }

  lemma FreedHeld(m: Mem, n: Mem, b: map<int, Page>, b1: map<int, Page>, p: int)
    requires BytesOk(m, b) && n.owner == m.owner[p := Unused] && forall q :: q != p && q in b ==> q in b1 && b1[q] == b[q]
    ensures SameBytes(n, b, b1)
  {
  }

  ghost function SpaceOf(p: Proc): Space
    reads p
  {
    Space(p.trapframe, p.pagetable, RoundUp(p.sz))
  }

  /** freeproc, of a process that has a page table, only a trapframe, or neither. The
      trapframe page goes first, while the page table still maps it. */
  method FreeProc(vm: Vm, p: Proc, ghost tramp: int)
    requires vm.Valid() && (p.trapframe != 0 ==> Owns(vm.M(), p.trapframe, Kernel))
    requires p.pagetable != 0 ==> SpaceOk(vm.M(), SpaceOf(p), tramp)
    modifies vm`tables, vm`bytes, vm`freelist, vm`owner, p
    ensures vm.Valid() && SameBytes(vm.M(), old(vm.bytes), vm.bytes)
    ensures Returned(old(vm.M()), vm.M(), old(p.pagetable), old(p.trapframe))
    ensures Apart(old(vm.M()), vm.M(), old(p.pagetable), old(p.trapframe))
    ensures p.trapframe == 0 && p.pagetable == 0 && p.sz == 0
  {
    hide MemOk, BytesOk, FreeOk, Leaf, SameBytes, SameViews, FreshPage, KernelPage, GivenBack, OtherViews, Returned, Apart, Layout;
    ghost var m, b, s := vm.M(), vm.bytes, SpaceOf(p);
    NoTree(m, b);
    SameViewsSelf(m);
    if p.trapframe != 0 {
      vm.Kfree(p.trapframe);
      FreedHeld(m, vm.M(), b, vm.bytes, p.trapframe);
    }
    ghost var n, b1 := vm.M(), vm.bytes;
    p.trapframe := 0;
    NoTree(n, b1);
    if p.pagetable != 0 {
      OwnedNotNull(m, s.frame);
      FrameFreed(m, n, s, tramp);
      SpacePages(m, s, tramp);
      vm.ProcFreePagetable(p.pagetable, p.sz);
    }
    AllReturned(m, n, vm.M(), b, b1, vm.bytes, s.root, s.frame);
    p.pagetable, p.sz := 0, 0;
  }

  lemma SameViewsSelf(m: Mem)
    ensures SameViews(m, m)
  {
  }

  lemma OwnedNotNull(m: Mem, p: int)
    requires MemOk(m) && Owns(m, p, Kernel)
    ensures p != 0
  {
  }

  lemma SpacePages(m: Mem, s: Space, tramp: int)
    requires SpaceOk(m, s, tramp)
    ensures 0 <= s.pages <= TRAPFRAME
  {
    hide Leaf, FreshPage;
  }

  // ---------------------------------------------------------------------
  // allocproc

  lemma FrameTaken(m: Mem, n: Mem, o: Mem, b: map<int, Page>, b1: map<int, Page>, p: int)
    requires MemOk(m) && MemOk(n) && SameViews(m, n) && Owns(m, p, Unused) && n.owner == m.owner[p := Loose]
    requires o == n.(owner := n.owner[p := Kernel]) && BytesOk(m, b) && BytesOk(n, b1) && p in b1 && b1 == b[p := b1[p]]
    ensures MemOk(o) && SameViews(m, o) && BytesOk(o, b1) && SameBytes(m, b, b1)
  {
    hide Leaf, MemOk;
    RetypeOk(n, p, Kernel);
    SameViewsTwice(m, n, o);
  }

  lemma SameViewsTwice(m: Mem, n: Mem, o: Mem)
    requires SameViews(m, n) && SameViews(n, o)
    ensures SameViews(m, o)
  {
    hide Leaf;
    forall r, v | IsRoot(m, r) && 0 <= v < MAXVPN ensures Leaf(o, r, v) == Leaf(m, r, v) {
      assert IsRoot(n, r) && Leaf(n, r, v) == Leaf(m, r, v);
    }
  }

  /** The new process has the trapframe page and the tables, all free before. */
  lemma AllCharged(m: Mem, n: Mem, o: Mem, frame: int, r: int)
    requires MemOk(m) && Owns(m, frame, Unused) && n.owner == m.owner[frame := Kernel] && SameViews(m, n)
    requires Started(n, o, r) && Owns(n, r, Unused)
    ensures Charged(m, o, Space(frame, r, 0)) && Apart(m, o, r, frame) && SameViews(m, o)
  {
    hide Leaf, MemOk;
    NoProcessYet(m, r);
    SameViewsTwice(m, n, o);
  }

  lemma ChargedBytes(m: Mem, n: Mem, b: map<int, Page>, b1: map<int, Page>, b2: map<int, Page>, p: int)
    requires Owns(m, p, Unused) && n.owner == m.owner[p := Kernel] && SameBytes(m, b, b1) && SameBytes(n, b1, b2)
    ensures SameBytes(m, b, b2)
  {
  }

  lemma FrameGivenBack(m: Mem, n: Mem, o: Mem, q: Mem, b: map<int, Page>, b2: map<int, Page>, b3: map<int, Page>, p: int)
    requires MemOk(m) && Owns(m, p, Unused) && n.owner == m.owner[p := Kernel] && SameViews(m, n) && SameViews(n, o) && o.owner == n.owner
    requires Returned(o, q, 0, p) && Apart(o, q, 0, p) && SameBytes(m, b, b2) && SameBytes(q, b2, b3) && BytesOk(m, b)
    ensures q.owner == m.owner && SameViews(m, q) && SameBytes(m, b, b3)
  {
    hide Leaf;
    NoTree(m, b);
    SameViewsTwice(m, n, o);
    forall x | x in m.owner ensures q.owner[x] == m.owner[x] {
    }
    forall r, v | IsRoot(m, r) && 0 <= v < MAXVPN ensures Leaf(q, r, v) == Leaf(m, r, v) {
      assert IsRoot(o, r) && Leaf(o, r, v) == Leaf(m, r, v);
    }
  }

  /** allocproc, once it has found an unused process: a trapframe page and a page table,
      four pages in all, or nothing is kept. */
  method AllocProc(vm: Vm, p: Proc, tramp: int) returns (ok: bool)
    requires vm.Valid() && tramp !in vm.owner && p.trapframe == 0 && p.pagetable == 0 && p.sz == 0
    modifies vm`tables, vm`bytes, vm`freelist, vm`owner, p
    ensures vm.Valid() && SameViews(old(vm.M()), vm.M()) && SameBytes(old(vm.M()), old(vm.bytes), vm.bytes)
    ensures ok <==> |old(vm.freelist)| >= 4
    ensures ok ==> SpaceOk(vm.M(), SpaceOf(p), tramp) && p.pagetable != 0 && p.sz == 0 && |vm.freelist| == |old(vm.freelist)| - 4
    ensures ok ==> Charged(old(vm.M()), vm.M(), SpaceOf(p)) && Apart(old(vm.M()), vm.M(), p.pagetable, p.trapframe)
    ensures ok ==> forall v :: 0 <= v < MAXVPN ==> Missing(vm.M(), p.pagetable, v) == FreshMissing(v)
    ensures !ok ==> vm.owner == old(vm.owner) && p.trapframe == 0 && p.pagetable == 0 && p.sz == 0
  {
    hide MemOk, BytesOk, FreeOk, Leaf, SameBytes, SameViews, Returned, Apart, Layout, Charged, Missing, FreshMissing, Started;
    ghost var m, b := vm.M(), vm.bytes;
    SameViewsSelf(m);
    SameBytesSelf(m, b);
    p.trapframe := vm.Kalloc();
    if p.trapframe == 0 {
      return false;
    }
    ghost var held, b1, frame := vm.M(), vm.bytes, p.trapframe;
    vm.owner := vm.owner[frame := Kernel];
    ghost var n := vm.M();
    FrameTaken(m, held, n, b, b1, frame);
    StillAllFree(held, n, vm.freelist, frame);
    p.pagetable := ProcPagetable(vm, p.trapframe, tramp);
    ghost var o, b2 := vm.M(), vm.bytes;
    ChargedBytes(m, n, b, b1, b2, frame);
    if p.pagetable == 0 {
      FreeProc(vm, p, tramp);
      FrameGivenBack(m, n, o, vm.M(), b, b2, vm.bytes, frame);
      return false;
    }
    RootNotNull(n, p.pagetable);
    AllCharged(m, n, o, frame, p.pagetable);
    ok := true;
  }

  lemma StillAllFree(m: Mem, n: Mem, free: seq<int>, p: int)
    requires FreeOk(m, free) && Owns(m, p, Loose) && n.owner == m.owner[p := Kernel]
    ensures FreeOk(n, free)
  {
  }

  lemma RootNotNull(m: Mem, r: int)
    requires MemOk(m) && Owns(m, r, Unused)
    ensures r != 0
  {
  }

  // ---------------------------------------------------------------------
  // growproc

  /** Only pages of r, or pages that were free, changed hands. */
  ghost predicate OnlyImage(m: Mem, n: Mem, r: int) {
    Apart(m, n, r, 0) && ItsOwn(m, n, r)
  }

  /** A larger image: the new pages are there, the old ones stay. */
  lemma ImageGrown(m: Mem, n: Mem, b: map<int, Page>, b': map<int, Page>, s: Space, tramp: int, x: int)
    requires SpaceOk(m, s, tramp) && Taken(m, n, s.root, s.pages, x) && s.pages <= x <= TRAPFRAME && SameBytes(m, b, b')
    ensures SpaceOk(n, s.(pages := x), tramp) && OnlyImage(m, n, s.root)
    ensures forall v :: 0 <= v < s.pages ==> SamePage(m, b, n, b', s.root, v)
  {
    hide Leaf, Encode, HasV, Ppn;
    forall v | 0 <= v < MAXVPN && !(s.pages <= v < x)
      ensures Leaf(n, s.root, v) == Leaf(m, s.root, v)
      ensures v < s.pages ==> FreshPage(n, s.root, v) && SamePage(m, b, n, b', s.root, v)
    {
      assert v < s.pages ==> FreshPage(m, s.root, v);
    }
  }

  /** Only tables were added. */
  lemma ImageStays(m: Mem, n: Mem, b: map<int, Page>, b': map<int, Page>, s: Space, tramp: int)
    requires SpaceOk(m, s, tramp) && Grew(m, n, s.root) && SameBytes(m, b, b')
    ensures SpaceOk(n, s, tramp) && OnlyImage(m, n, s.root)
    ensures forall v :: 0 <= v < s.pages ==> SamePage(m, b, n, b', s.root, v)
  {
    hide Leaf, Encode, HasV, Ppn;
    forall v | 0 <= v < MAXVPN
      ensures Leaf(n, s.root, v) == Leaf(m, s.root, v)
      ensures v < s.pages ==> FreshPage(n, s.root, v) && SamePage(m, b, n, b', s.root, v)
    {
      assert v < s.pages ==> FreshPage(m, s.root, v);
    }
  }

  /** A smaller image: the pages above are gone, the others stay. */
  lemma ImageShrunk(m: Mem, n: Mem, b: map<int, Page>, b': map<int, Page>, s: Space, tramp: int, x: int)
    requires SpaceOk(m, s, tramp) && RangeSet(m, n, s.root, x, s.pages - x, Zero) && Unmapped(m, n, s.root, x, s.pages - x, Unused)
    requires 0 <= x <= s.pages && SameBytes(n, b, b')
    ensures SpaceOk(n, s.(pages := x), tramp) && OnlyImage(m, n, s.root)
    ensures forall v :: 0 <= v < x ==> SamePage(m, b, n, b', s.root, v)
  {
    hide Leaf, Encode, HasV, Ppn;
    forall v | 0 <= v < MAXVPN
      ensures Leaf(n, s.root, v) == if x <= v < s.pages then 0 else Leaf(m, s.root, v)
      ensures v < x ==> FreshPage(n, s.root, v) && SamePage(m, b, n, b', s.root, v)
    {
      assert v < s.pages ==> FreshPage(m, s.root, v);
    }
    forall r', v | r' != s.root && IsRoot(m, r') && 0 <= v < MAXVPN ensures Leaf(n, r', v) == Leaf(m, r', v) {
    }
  }

  lemma ImageEntries(m: Mem, s: Space, tramp: int)
    requires SpaceOk(m, s, tramp)
    ensures forall v :: 0 <= v < s.pages ==> FreshPage(m, s.root, v) && Mappable(m, s.root, v, true)
    ensures forall v :: s.pages <= v < TRAPFRAME ==> !HasV(Leaf(m, s.root, v))
    ensures 0 <= s.pages <= TRAPFRAME
  {
    ZeroInvalid();
    hide Leaf, Encode, HasV, Ppn;
    forall v | 0 <= v < s.pages ensures FreshPage(m, s.root, v) && Mappable(m, s.root, v, true) {
      assert FreshPage(m, s.root, v);
    }
  }

  lemma GrewSelf(m: Mem, b: map<int, Page>, r: int)
    requires BytesOk(m, b)
    ensures Grew(m, m, r) && SameBytes(m, b, b)
  {
    GrewNot(m, r, b);
  }

  lemma SizeInPages(n: nat)
    requires n < UINT
    ensures 0 <= RoundUp(n) <= TRAPFRAME
  {
  }

  /** growproc, with its 32-bit size: a size that wraps around in the wrong direction leaves
      the process as it is. It fails exactly when there are too few free pages. */
  method GrowProc(vm: Vm, p: Proc, n: int, ghost tramp: int) returns (r: int)
    requires vm.Valid() && SpaceOk(vm.M(), SpaceOf(p), tramp) && p.sz < UINT && -0x8000_0000 <= n < 0x8000_0000
    modifies vm`tables, vm`bytes, vm`freelist, vm`owner, p`sz
    ensures vm.Valid() && SpaceOk(vm.M(), SpaceOf(p), tramp) && p.sz < UINT
    ensures OnlyImage(old(vm.M()), vm.M(), p.pagetable) && KeptBytes(old(vm.M()), vm.M(), old(vm.bytes), vm.bytes)
    ensures p.sz == var size := (old(p.sz) + n) % UINT;
                    if r == -1 || (n > 0 && size < old(p.sz)) || (n < 0 && size > old(p.sz)) then old(p.sz) else size
    ensures r == 0 || r == -1
    ensures r == -1 <==> var size := (old(p.sz) + n) % UINT;
                         n > 0 && size >= old(p.sz) &&
                         |old(vm.freelist)| < PagesNeeded(old(vm.M()), p.pagetable, RoundUp(old(p.sz)), RoundUp(size))
    ensures forall v :: 0 <= v < RoundUp(old(p.sz)) && v < RoundUp(p.sz) ==>
              SamePage(old(vm.M()), old(vm.bytes), vm.M(), vm.bytes, p.pagetable, v)
    ensures forall v :: RoundUp(old(p.sz)) <= v < RoundUp(p.sz) ==> PageIs(vm.M(), vm.bytes, p.pagetable, v, RWXU, Zeros())
  {
    hide MemOk, BytesOk, FreeOk, Leaf, SameBytes, SpaceOk, OnlyImage, SamePage, PageIs, Taken, Grew, RangeSet, Unmapped, HasV;
    hide Mappable, FreshPage, PagesNeeded, RoundUp, KeptBytes;
    ghost var m, b, s := vm.M(), vm.bytes, SpaceOf(p);
    ImageEntries(m, s, tramp);
    GrewSelf(m, b, s.root);
    ImageStays(m, m, b, b, s, tramp);
    KeptIfHeld(m, m, b, b);
    SpaceRoot(m, s, tramp);
    var size := (p.sz + n) % UINT;
    SizeInPages(p.sz);
    SizeInPages(size);
    if size < p.sz {
      RoundUpMono(size, p.sz);
    } else {
      RoundUpMono(p.sz, size);
    }
    if n > 0 {
      var sz;
      ghost var ok;
      sz, ok := vm.UvmAlloc(p.pagetable, p.sz, size);
      KeptIfHeld(m, vm.M(), b, vm.bytes);
      if size >= p.sz {
        if ok {
          ImageGrown(m, vm.M(), b, vm.bytes, s, tramp, RoundUp(size));
        } else {
          ImageStays(m, vm.M(), b, vm.bytes, s, tramp);
        }
      }
      if sz == 0 {
        return -1;
      }
      p.sz := sz;
    } else if n < 0 {
      var sz := vm.UvmDealloc(p.pagetable, p.sz, size);
      if size < p.sz {
        ImageShrunk(m, vm.M(), b, vm.bytes, s, tramp, RoundUp(size));
        KeptIfHeld(m, vm.M(), b, vm.bytes);
      }
      p.sz := sz;
    }
    return 0;
  }

  lemma SpaceRoot(m: Mem, s: Space, tramp: int)
    requires SpaceOk(m, s, tramp)
    ensures IsRoot(m, s.root)
  {
  }

  lemma RoundUpMono(a: nat, b: nat)
    requires a <= b
    ensures RoundUp(a) <= RoundUp(b)
  {
  }

  // ---------------------------------------------------------------------
  // The whole life of a process

  lemma ApartTwice(m: Mem, n: Mem, o: Mem, s: Space)
    requires Apart(m, n, s.root, s.frame) && Charged(m, n, s) && Apart(n, o, s.root, 0) && 0 !in m.owner
    ensures Apart(m, o, s.root, s.frame)
  {
    hide Leaf;
    forall r', v | r' != s.root && IsRoot(m, r') && 0 <= v < MAXVPN ensures Leaf(o, r', v) == Leaf(m, r', v) {
      assert IsRoot(n, r') && Leaf(n, r', v) == Leaf(m, r', v);
    }
  }

  /** freeproc gives back exactly what the process was charged. */
  lemma AllBack(m: Mem, n: Mem, o: Mem, s: Space)
    requires Charged(m, n, s) && Apart(m, n, s.root, s.frame) && Returned(n, o, s.root, s.frame) && Apart(n, o, s.root, s.frame)
    ensures o.owner == m.owner && SameViews(m, o)
  {
    hide Leaf;
    forall q | q in m.owner ensures o.owner[q] == m.owner[q] {
    }
    forall r' | IsRoot(m, r') ensures r' != s.root && IsRoot(n, r') && IsRoot(o, r') {
    }
    forall r', v | IsRoot(m, r') && 0 <= v < MAXVPN ensures Leaf(o, r', v) == Leaf(m, r', v) {
      assert Leaf(n, r', v) == Leaf(m, r', v);
    }
  }

  /** allocproc, any calls of growproc, and freeproc: afterwards every page is where it was
      before, every address space translates as before, and no page in use has changed. */
  method Lifecycle(vm: Vm, p: Proc, tramp: int, ns: seq<int>)
    requires vm.Valid() && tramp !in vm.owner && p.trapframe == 0 && p.pagetable == 0 && p.sz == 0
    requires forall i :: 0 <= i < |ns| ==> -0x8000_0000 <= ns[i] < 0x8000_0000
    modifies vm`tables, vm`bytes, vm`freelist, vm`owner, p
    ensures vm.Valid() && vm.owner == old(vm.owner) && SameViews(old(vm.M()), vm.M())
    ensures SameBytes(old(vm.M()), old(vm.bytes), vm.bytes)
    ensures p.trapframe == 0 && p.pagetable == 0 && p.sz == 0
  {
    hide MemOk, BytesOk, FreeOk, Leaf, SameBytes, SameViews, SpaceOk, OnlyImage, SamePage, PageIs, Returned, Apart, Charged, Missing;
    hide PagesNeeded, RoundUp, FreshMissing, KeptBytes;
    ghost var m, b := vm.M(), vm.bytes;
    NullNotManaged(m);
    var ok := AllocProc(vm, p, tramp);
    if !ok {
      return;
    }
    ghost var frame, root := p.trapframe, p.pagetable;
    var i := 0;
    while i < |ns|
      invariant 0 <= i <= |ns| && vm.Valid() && p.trapframe == frame && p.pagetable == root != 0 && p.sz < UINT
      invariant SpaceOk(vm.M(), SpaceOf(p), tramp) && Charged(m, vm.M(), SpaceOf(p)) && Apart(m, vm.M(), root, frame)
      invariant SameBytes(m, b, vm.bytes)
    {
      ghost var n, b1, s := vm.M(), vm.bytes, SpaceOf(p);
      var r := GrowProc(vm, p, ns[i], tramp);
      ImageOnly(n, vm.M(), root);
      ApartTwice(m, n, vm.M(), s);
      StillCharged(m, n, vm.M(), s, RoundUp(p.sz));
      BytesThrough(m, n, vm.M(), b, b1, vm.bytes, s, RoundUp(p.sz));
      i := i + 1;
    }
    ghost var n, b1, s := vm.M(), vm.bytes, SpaceOf(p);
    SpaceFrame(n, s, tramp);
    FreeProc(vm, p, tramp);
    AllBack(m, n, vm.M(), s);
    BytesBack(m, vm.M(), b, b1, vm.bytes);
  }

  lemma BytesThrough(m: Mem, n: Mem, o: Mem, b: map<int, Page>, b1: map<int, Page>, b2: map<int, Page>, s: Space, k: int)
    requires Charged(m, n, s) && Charged(m, o, s.(pages := k)) && SameBytes(m, b, b1) && KeptBytes(n, o, b1, b2)
    ensures SameBytes(m, b, b2)
  {
  }

  lemma ImageOnly(m: Mem, n: Mem, r: int)
    requires OnlyImage(m, n, r)
    ensures Apart(m, n, r, 0) && ItsOwn(m, n, r)
  {
  }

  lemma SpaceFrame(m: Mem, s: Space, tramp: int)
    requires SpaceOk(m, s, tramp)
    ensures Owns(m, s.frame, Kernel) && IsRoot(m, s.root)
  {
  }

  /** Tables that k pages from 0 on take in a new process. */
  function FreshTables(k: nat): nat {
    if k == 0 then 0 else FreshTables(k - 1) + Lacks(FreshMissing(k - 1), 0, k - 1, k - 1)
  }

  lemma {:induction false} FreshNeeded(m: Mem, r: int, k: nat)
    requires k <= MAXVPN && forall v :: 0 <= v < MAXVPN ==> Missing(m, r, v) == FreshMissing(v)
    ensures TablesNeeded(m, r, 0, k) == FreshTables(k)
  {
    hide Missing, FreshMissing, Lacks;
    if k > 0 {
      FreshNeeded(m, r, k - 1);
    }
  }

  /** Parent and child are different, and the parent is not touched. */
  lemma ParentStays(m: Mem, n: Mem, o: Mem, b: map<int, Page>, b1: map<int, Page>, b2: map<int, Page>, s: Space, child: Space, tramp: int)
    requires MemOk(m) && SameBytes(m, b, b1) && SameBytes(n, b1, b2) && SpaceOk(m, s, tramp) && Charged(m, n, child) && Apart(m, n, child.root, child.frame)
    requires Apart(n, o, child.root, 0)
    ensures s.root != child.root && SpaceOk(n, s, tramp) && SpaceOk(o, s, tramp)
  {
    hide Leaf, Encode, HasV, Ppn, Layout, OtherViews;
    assert s.frame != 0;
    KeptIfHeld(m, n, b, b1);
    KeptIfHeld(n, o, b1, b2);
    SpaceStays(m, n, b, b1, child.root, child.frame, s, tramp);
    SpaceStays(n, o, b1, b2, child.root, 0, s, tramp);
  }

  lemma ParentApart(m: Mem, n: Mem, b: map<int, Page>, b1: map<int, Page>, s: Space, child: Space, tramp: int)
    requires SameBytes(m, b, b1) && SpaceOk(m, s, tramp) && Charged(m, n, child) && Apart(m, n, child.root, child.frame)
    ensures s.root != child.root && SpaceOk(n, s, tramp)
  {
    hide Leaf, Encode, HasV, Ppn, Layout, OtherViews;
    KeptIfHeld(m, n, b, b1);
    SpaceStays(m, n, b, b1, child.root, child.frame, s, tramp);
  }

  /** The copy was made from what the parent had before the child was allocated. */
  lemma CopiedFromStart(m: Mem, n: Mem, o: Mem, b: map<int, Page>, b1: map<int, Page>, b2: map<int, Page>, s: Space, child: int, tramp: int, v: int)
    requires SpaceOk(m, s, tramp) && SameViews(m, n) && SameBytes(m, b, b1) && 0 <= v < s.pages
    requires CopyOf(n, b1, o, b2, s.root, child, v)
    ensures CopyOf(m, b, o, b2, s.root, child, v)
  {
    hide Leaf, Encode, HasV, Ppn, Flags, PageIs;
    assert FreshPage(m, s.root, v);
    assert Leaf(n, s.root, v) == Leaf(m, s.root, v);
  }

  lemma BytesOn(m: Mem, n: Mem, b: map<int, Page>, b1: map<int, Page>, b2: map<int, Page>, s: Space)
    requires Charged(m, n, s) && SameBytes(m, b, b1) && SameBytes(n, b1, b2)
    ensures SameBytes(m, b, b2)
  {
  }

  lemma BytesBack(m: Mem, o: Mem, b: map<int, Page>, b2: map<int, Page>, b3: map<int, Page>)
    requires o.owner == m.owner && SameBytes(m, b, b2) && SameBytes(o, b2, b3)
    ensures SameBytes(m, b, b3)
  {
  }

  lemma SizeOfPages(n: nat)
    requires RoundUp(n) <= TRAPFRAME
    ensures n <= MAXVPN * PGSIZE
  {
  }

  lemma EmptyChild(m: Mem, s: Space, tramp: int)
    requires SpaceOk(m, s, tramp) && s.pages == 0
    ensures forall v :: 0 <= v < TRAPFRAME ==> !HasV(Leaf(m, s.root, v))
  {
    ImageEntries(m, s, tramp);
  }

  /** The memory part of fork: the child gets a page table, a trapframe page and an equal
      image on pages of its own; or it fails, for want of pages, and nothing is kept. */
  method ForkMemory(vm: Vm, p: Proc, np: Proc, tramp: int) returns (ok: bool)
    requires vm.Valid() && SpaceOk(vm.M(), SpaceOf(p), tramp) && p != np
    requires np.trapframe == 0 && np.pagetable == 0 && np.sz == 0
    modifies vm`tables, vm`bytes, vm`freelist, vm`owner, np
    ensures vm.Valid() && SpaceOk(vm.M(), SpaceOf(p), tramp) && SameBytes(old(vm.M()), old(vm.bytes), vm.bytes)
    ensures ok <==> |old(vm.freelist)| >= 4 + RoundUp(p.sz) + FreshTables(RoundUp(p.sz))
    ensures ok ==> SpaceOk(vm.M(), SpaceOf(np), tramp) && np.sz == p.sz && Charged(old(vm.M()), vm.M(), SpaceOf(np))
    ensures ok ==> Apart(old(vm.M()), vm.M(), np.pagetable, np.trapframe)
    ensures ok ==> forall v :: 0 <= v < RoundUp(p.sz) ==>
              CopyOf(old(vm.M()), old(vm.bytes), vm.M(), vm.bytes, p.pagetable, np.pagetable, v)
    ensures !ok ==> vm.owner == old(vm.owner) && SameViews(old(vm.M()), vm.M())
    ensures !ok ==> np.trapframe == 0 && np.pagetable == 0 && np.sz == 0
  {
    hide MemOk, BytesOk, FreeOk, Leaf, SameBytes, SameViews, SpaceOk, OnlyImage, SamePage, Returned, Apart, Charged, Missing;
    hide RoundUp, FreshMissing, Taken, Grew, CopyOf, FreshPage, HasV, Layout, Mappable, TablesNeeded, FreshTables;
    ghost var m, b, s := vm.M(), vm.bytes, SpaceOf(p);
    ImageEntries(m, s, tramp);
    SpaceFrame(m, s, tramp);
    NotManaged(m, s, tramp);
    NullNotManaged(m);
    ok := AllocProc(vm, np, tramp);
    if !ok {
      SpaceSame(m, vm.M(), s, tramp);
      return;
    }
    ghost var n, b1, c := vm.M(), vm.bytes, SpaceOf(np);
    ParentApart(m, n, b, b1, s, c, tramp);
    ImageEntries(n, s, tramp);
    EmptyPages();
    EmptyChild(n, c, tramp);
    SizeOfPages(p.sz);
    SpaceFrame(n, s, tramp);
    SpaceFrame(n, c, tramp);
    FreshNeeded(n, c.root, RoundUp(p.sz));
    ok := vm.UvmCopy(p.pagetable, np.pagetable, p.sz);
    ghost var o, b2 := vm.M(), vm.bytes;
    BytesOn(m, n, b, b1, b2, c);
    if !ok {
      ImageStays(n, o, b1, b2, c, tramp);
      ImageOnly(n, o, c.root);
      ApartTwice(m, n, o, c);
      StillCharged(m, n, o, c, 0);
      SpaceFrame(o, c, tramp);
      FreeProc(vm, np, tramp);
      AllBack(m, o, vm.M(), c);
      BytesBack(m, vm.M(), b, b2, vm.bytes);
      SpaceSame(m, vm.M(), s, tramp);
      return;
    }
    np.sz := p.sz;
    ImageGrown(n, o, b1, b2, c, tramp, RoundUp(p.sz));
    ImageOnly(n, o, c.root);
    ApartTwice(m, n, o, c);
    StillCharged(m, n, o, c, RoundUp(p.sz));
    ParentStays(m, n, o, b, b1, b2, s, c, tramp);
    forall v | 0 <= v < RoundUp(p.sz) ensures CopyOf(m, b, o, b2, s.root, c.root, v) {
      CopiedFromStart(m, n, o, b, b1, b2, s, c.root, tramp, v);
    }
  }

  lemma NotManaged(m: Mem, s: Space, tramp: int)
    requires SpaceOk(m, s, tramp)
    ensures tramp !in m.owner
  {
  }

  lemma NullNotManaged(m: Mem)
    requires MemOk(m)
    ensures 0 !in m.owner
  {
  }

  lemma EmptyPages()
    ensures RoundUp(0) == 0
  {
  }

  /** The same owners and translations: a process is as whole as before. */
  lemma SpaceSame(m: Mem, n: Mem, s: Space, tramp: int)
    requires SpaceOk(m, s, tramp) && n.owner == m.owner && SameViews(m, n)
    ensures SpaceOk(n, s, tramp)
  {
    hide Leaf, Encode, HasV, Ppn;
    forall v | 0 <= v < MAXVPN
      ensures Leaf(n, s.root, v) == Leaf(m, s.root, v) && (v < s.pages ==> FreshPage(n, s.root, v))
    {
      assert v < s.pages ==> FreshPage(m, s.root, v);
    }
  }
}
