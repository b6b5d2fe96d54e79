/** Physical pages and user address spaces (kernel/kalloc.c, kernel/vm.c): the free list,
    walk, mappages, uvmunmap, uvmalloc, uvmdealloc, uvmcopy, freewalk, uvmfree, copyout
    and copyin, over the trees of module PageTable. */
module UserMemory {
  import opened PageTable
  import opened TableCount
  import opened TableTree

  type Byte = int
  type Page = seq<Byte>

  // ---------------------------------------------------------------------
  // What operations leave alone

  /** All address spaces translate as before. */
  ghost predicate SameViews(m: Mem, n: Mem) {
    && (forall r :: IsRoot(m, r) ==> IsRoot(n, r))
    && (forall r, v {:trigger Leaf(n, r, v)} :: IsRoot(m, r) && 0 <= v < MAXVPN ==> Leaf(n, r, v) == Leaf(m, r, v))
  }

  /** Nothing changed but that free pages became tables of r. */
  ghost predicate Grew(m: Mem, n: Mem, r: int) {
    && n.owner.Keys == m.owner.Keys
    && (forall p :: p in m.owner ==>
          n.owner[p] == m.owner[p] || (m.owner[p] == Unused && n.owner[p].Table? && n.owner[p].r == r))
    && SameViews(m, n)
  }

  lemma GrewTwice(m: Mem, n: Mem, o: Mem, r: int)
    requires Grew(m, n, r) && Grew(n, o, r)
    ensures Grew(m, o, r)
  {
    hide Leaf;
    forall r', v | IsRoot(m, r') && 0 <= v < MAXVPN ensures Leaf(o, r', v) == Leaf(m, r', v) {
      assert Leaf(n, r', v) == Leaf(m, r', v);
    }
  }

  /** Contents of the pages that processes, the kernel or the caller hold. */
  ghost predicate SameBytes(m: Mem, bytes: map<int, Page>, bytes': map<int, Page>) {
    forall p :: p in m.owner && Held(m.owner[p]) ==> p in bytes && p in bytes' && bytes'[p] == bytes[p]
  }

  /** A page whose contents belong to somebody. */
  predicate Held(o: Owner) {
    o.User? || o.Kernel? || o.Loose?
  }

  ghost predicate FreeOk(m: Mem, freelist: seq<int>) {
    && (forall i, j :: 0 <= i < j < |freelist| ==> freelist[i] != freelist[j])
    && (forall p :: p in freelist ==> p in m.owner && m.owner[p] == Unused)
    && (forall p :: p in m.owner && m.owner[p] == Unused ==> p in freelist)
  }

  ghost predicate BytesOk(m: Mem, bytes: map<int, Page>) {
    forall p :: p in m.owner && Held(m.owner[p]) ==> p in bytes && |bytes[p]| == PGSIZE
  }

  /** Pages outside all trees and processes can change hands. */
  lemma RetypeOk(m: Mem, p: int, o: Owner)
    requires MemOk(m) && p in m.owner && m.owner[p] in {Unused, Kernel, Loose} && o in {Unused, Kernel, Loose}
    ensures MemOk(m.(owner := m.owner[p := o]))
    ensures SameViews(m, m.(owner := m.owner[p := o]))
  {
    hide Leaf, MidPage, LowPage, IsLeaf, HasU, Ppn, HasV, Flags, Vpn;
    var n := m.(owner := m.owner[p := o]);
    forall q | q in n.owner ensures PageOk(n, q) {
      assert PageOk(m, q);
      RetypePage(m, p, o, q);
    }
    forall r, v | IsRoot(m, r) ensures Leaf(n, r, v) == Leaf(m, r, v) {
      SameTables(m, n, r, v, 0, 0);
    }
  }

  lemma SameTables(m: Mem, n: Mem, r: int, v: int, i2: int, i1: int)
    requires n.tables == m.tables
    ensures Leaf(n, r, v) == Leaf(m, r, v)
    ensures MidPage(n, r, i2) == MidPage(m, r, i2) && LowPage(n, r, i2, i1) == LowPage(m, r, i2, i1)
  {
  }

  /** The same value for each of n pages. */
  function AtBoot<T>(first: nat, n: nat, x: T): (m: map<int, T>)
    ensures forall p :: p in m <==> first <= p < first + n
    ensures forall p :: p in m ==> m[p] == x
  {
    if n == 0 then map[] else AtBoot(first, n - 1, x)[first + n - 1 := x]
  }

  lemma HeldIsNoTable(m: Mem, p: int)
    requires MemOk(m) && p in m.owner && Held(m.owner[p])
    ensures m.tables - {p} == m.tables
  {
    assert PageOk(m, p);
  }

  lemma RetypePage(m: Mem, p: int, o: Owner, q: int)
    requires MemOk(m) && p in m.owner && m.owner[p] in {Unused, Kernel, Loose} && o in {Unused, Kernel, Loose} && q in m.owner
    ensures PageOk(m.(owner := m.owner[p := o]), q)
  {
    hide Leaf, MidPage, LowPage, IsLeaf, HasU, Ppn, HasV, Flags, Vpn;
    var n := m.(owner := m.owner[p := o]);
    assert PageOk(m, q);
    if m.owner[q].Table? {
      var r, pos := m.owner[q].r, m.owner[q].pos;
      SameTables(m, n, r, 0, if pos.Root? then 0 else pos.i2, if pos.Low? then pos.i1 else 0);
      forall i | 0 <= i < ENTRIES ensures EntryOk(n, r, pos, i, n.tables[q][i]) {
        assert EntryOk(m, r, pos, i, m.tables[q][i]);
      }
    } else if m.owner[q].User? {
      SameTables(m, n, m.owner[q].r, m.owner[q].v, 0, 0);
    }
  }

  // ---------------------------------------------------------------------
  // Steps of walk

  predicate Suffix(a: seq<int>, b: seq<int>) {
    |a| <= |b| && a == b[|b| - |a|..]
  }

  lemma GrewNot(m: Mem, r: int, bytes: map<int, Page>)
    requires BytesOk(m, bytes)
    ensures Grew(m, m, r) && SameBytes(m, bytes, bytes)
  {
  }

  lemma GrewOn(m: Mem, n: Mem, o: Mem, b0: map<int, Page>, b1: map<int, Page>, b2: map<int, Page>, r: int)
    requires Grew(m, n, r) && Grew(n, o, r) && SameBytes(m, b0, b1) && SameBytes(n, b1, b2)
    ensures Grew(m, o, r) && SameBytes(m, b0, b2)
  {
    hide Leaf;
    GrewTwice(m, n, o, r);
  }

  lemma TableFacts(m: Mem, pt: int, r: int, pos: Pos, i: int)
    requires MemOk(m) && Owns(m, pt, Table(r, pos)) && !pos.Low? && 0 <= i < ENTRIES
    ensures IsTable(m, pt) && IsRoot(m, r)
    ensures HasV(m.tables[pt][i]) ==> Owns(m, Ppn(m.tables[pt][i]), Table(r, Under(pos, i)))
  {
    assert PageOk(m, pt);
    assert EntryOk(m, r, pos, i, m.tables[pt][i]);
  }

  lemma CreatedRest(m: Mem, n: Mem, o: Mem, p: int)
    requires MemOk(n) && Owns(n, p, Loose) && SameViews(m, n) && o == AddRoot(n, p) && Owns(m, p, Unused)
    requires n.owner == m.owner[p := Loose]
    ensures SameViews(m, o)
  {
    hide Leaf, MemOk;
    forall r | IsRoot(m, r) ensures IsRoot(o, r) {
      AddRootPaths(n, p, r, 0, 0);
    }
    forall r, v | IsRoot(m, r) && 0 <= v < MAXVPN ensures Leaf(o, r, v) == Leaf(m, r, v) {
      AddRootView(n, p, r, v);
      assert Leaf(n, r, v) == Leaf(m, r, v);
    }
  }

  lemma NoLowTable(m: Mem, r: int, pos: Pos, pt: int, i2: int, i1: int)
    requires MemOk(m) && Owns(m, pt, Table(r, pos)) && (pos == Root || pos == Mid(i2))
    requires Child(m, pt, if pos.Root? then i2 else i1) == 0
    ensures LowPage(m, r, i2, i1) == 0
  {
    assert PageOk(m, pt);
  }

  lemma SomeMissing(m: Mem, r: int, v: int)
    requires MemOk(m)
    ensures Missing(m, r, v) == 0 <==> LowPage(m, r, I2(v), I1(v)) != 0
  {
  }

  /** Taking a free page and making it a table is growth. */
  lemma AddedTable(m: Mem, n: Mem, b0: map<int, Page>, b1: map<int, Page>, free: seq<int>, free0: seq<int>,
                   pt: int, i: int, c: int, r: int, pos: Pos)
    requires MemOk(m) && BytesOk(m, b0) && SameViews(m, n) && Owns(m, c, Unused) && n == m.(owner := m.owner[c := Loose])
    requires c in b1 && b1 == b0[c := b1[c]] && BytesOk(n, b1) && FreeOk(n, free) && free0 != [] && free == free0[1..]
    requires CanAdd(n, pt, i, c, r, pos)
    ensures var o := AddTable(n, pt, i, c, r, pos);
            && MemOk(o) && FreeOk(o, free) && BytesOk(o, b1)
            && Grew(m, o, r) && SameBytes(m, b0, b1) && Suffix(free, free0)
  {
    hide Leaf, PageOk, Encode;
    AddTableOk(n, pt, i, c, r, pos);
    var o := AddTable(n, pt, i, c, r, pos);
    forall r', v | IsRoot(m, r') && 0 <= v < MAXVPN ensures Leaf(o, r', v) == Leaf(m, r', v) {
      assert IsRoot(n, r');
      AddTableView(n, pt, i, c, r, pos, r', v);
      assert Leaf(n, r', v) == Leaf(m, r', v);
    }
  }

  // ---------------------------------------------------------------------
  // Steps of mappages and uvmunmap

  /** Entries for consecutive physical pages from ppn on, or no entries. */
  datatype Fill = Zero | From(ppn: int, perm: int)

  function Filled(f: Fill, i: int): int {
    if f.Zero? then 0 else Encode(f.ppn + i, f.perm)
  }

  /** Exactly the entries for pages a .. a + k - 1 of r changed, to what f says. */
  ghost predicate RangeSet(m: Mem, n: Mem, r: int, a: int, k: int, f: Fill) {
    && (forall r' :: IsRoot(m, r') ==> IsRoot(n, r'))
    && (forall r', v {:trigger Leaf(n, r', v)} :: IsRoot(m, r') && 0 <= v < MAXVPN ==>
          Leaf(n, r', v) == if r' == r && a <= v < a + k then Filled(f, v - a) else Leaf(m, r', v))
  }

  lemma RangeSetOn(m: Mem, n: Mem, o: Mem, r: int, a: int, k: nat, f: Fill)
    requires RangeSet(m, n, r, a, k, f)
    requires RangeSet(n, o, r, a + k, 1, if f.Zero? then Zero else From(f.ppn + k, f.perm))
    ensures RangeSet(m, o, r, a, k + 1, f)
  {
    hide Leaf, Encode;
    forall r', v | IsRoot(m, r') && 0 <= v < MAXVPN
      ensures Leaf(o, r', v) == if r' == r && a <= v < a + (k + 1) then Filled(f, v - a) else Leaf(m, r', v)
    {
      assert IsRoot(n, r');
      var there := Leaf(n, r', v);
    }
  }

  lemma RangeSetAfterGrowth(m: Mem, n: Mem, o: Mem, r: int, a: int, k: nat, f: Fill)
    requires RangeSet(m, n, r, a, k, f) && SameViews(n, o)
    ensures RangeSet(m, o, r, a, k, f)
  {
    hide Leaf, Encode;
    forall r', v | IsRoot(m, r') && 0 <= v < MAXVPN
      ensures Leaf(o, r', v) == if r' == r && a <= v < a + k then Filled(f, v - a) else Leaf(m, r', v)
    {
      assert IsRoot(n, r');
      var there := Leaf(n, r', v);
    }
  }

  lemma RangeSetBefore(m: Mem, n: Mem, o: Mem, r: int, a: int, k: nat, f: Fill)
    requires SameViews(m, n) && RangeSet(n, o, r, a, k, f)
    ensures RangeSet(m, o, r, a, k, f)
  {
    hide Leaf, Encode;
    forall r', v | IsRoot(m, r') && 0 <= v < MAXVPN
      ensures Leaf(o, r', v) == if r' == r && a <= v < a + k then Filled(f, v - a) else Leaf(m, r', v)
    {
      assert IsRoot(n, r');
      var there := Leaf(n, r', v);
    }
  }

  /** A page that may be mapped: one the caller holds, or a kernel or device page that
      user code must not reach. */
  predicate Ready(m: Mem, p: int, perm: int) {
    if p in m.owner then m.owner[p] == Loose || (m.owner[p] == Kernel && !HasU(perm)) else !HasU(perm)
  }

  function MapOwner(m: Mem, r: int, v: int, p: int): map<int, Owner> {
    if p in m.owner && m.owner[p] == Loose then m.owner[p := User(r, v)] else m.owner
  }

  lemma MapOk(m: Mem, r: int, v: int, p: int, perm: int)
    requires MemOk(m) && IsRoot(m, r) && 0 <= v < MAXVPN && LowPage(m, r, I2(v), I1(v)) != 0
    requires !HasV(Leaf(m, r, v)) && Ready(m, p, perm) && 0 <= perm < 1024 && IsLeaf(perm)
    ensures IsTable(m, LowPage(m, r, I2(v), I1(v))) && 0 <= I0(v) < ENTRIES
    ensures var n := SetLeaf(m, r, v, Encode(p, perm), MapOwner(m, r, v, p));
            MemOk(n) && RangeSet(m, n, r, v, 1, From(p, perm))
  {
    hide Leaf, I2, I1, I0, LowPage, Encode, IsLeaf, HasU;
    EncodeDecodes(p, perm);
    var e, owner' := Encode(p, perm), MapOwner(m, r, v, p);
    forall q | q in owner' && owner'[q] == User(r, v) ensures q == p {
      assert PageOk(m, q);
    }
    SlotTable(m, r, v);
    assert CanSet(m, r, v, owner') && Fits(m, r, v, e, owner');
    SetLeafOk(m, r, v, e, owner');
    SetLeafRange(m, r, v, e, owner', From(p, perm));
  }

  /** Writing a last-level entry adds no table. */
  lemma LeafPaths(m: Mem, r: int, v: int, e: int, owner': map<int, Owner>)
    requires CanSet(m, r, v, owner') && IsTable(m, LowPage(m, r, I2(v), I1(v))) && 0 <= I0(v) < ENTRIES
    ensures var n := SetLeaf(m, r, v, e, owner');
            OnlyPath(m, n, r, v) && Missing(n, r, v) == Missing(m, r, v)
  {
    hide I2, I1, I0, LowPage, MidPage, MemOk;
    var n := SetLeaf(m, r, v, e, owner');
    forall i2 ensures MidPage(n, r, i2) == MidPage(m, r, i2) {
      SetLeafPaths(m, r, v, e, owner', r, i2, 0);
    }
    forall i2, i1 ensures LowPage(n, r, i2, i1) == LowPage(m, r, i2, i1) {
      SetLeafPaths(m, r, v, e, owner', r, i2, i1);
    }
  }

  lemma MapOwnerRetags(m: Mem, r: int, v: int, p: int)
    ensures Retag(m, MapOwner(m, r, v, p), r, v)
  {
  }

  lemma SetLeafRange(m: Mem, r: int, v: int, e: int, owner': map<int, Owner>, f: Fill)
    requires CanSet(m, r, v, owner') && IsTable(m, LowPage(m, r, I2(v), I1(v))) && 0 <= I0(v) < ENTRIES
    requires e == Filled(f, 0)
    ensures RangeSet(m, SetLeaf(m, r, v, e, owner'), r, v, 1, f)
  {
    hide Leaf, I2, I1, I0, LowPage, MidPage, MemOk;
    var n := SetLeaf(m, r, v, e, owner');
    forall r' | IsRoot(m, r') ensures IsRoot(n, r') {
      SetLeafPaths(m, r, v, e, owner', r', 0, 0);
    }
    forall r', v' | IsRoot(m, r') && 0 <= v' < MAXVPN
      ensures Leaf(n, r', v') == if r' == r && v <= v' < v + 1 then Filled(f, v' - v) else Leaf(m, r', v')
    {
      SetLeafView(m, r, v, e, owner', r', v');
    }
  }

  lemma NoneNeeded(m: Mem, r: int, lo: int)
    ensures TablesNeeded(m, r, lo, lo) == 0
  {
  }

  lemma NoNullTable(m: Mem)
    requires MemOk(m)
    ensures 0 !in m.tables
  {
  }

  /** Pages ppn .. ppn + k - 1 belong to r now, if they were the caller's; otherwise only
      free pages became tables of r. */
  ghost predicate Mapped(m: Mem, n: Mem, r: int, a: int, ppn: int, k: int) {
    && n.owner.Keys == m.owner.Keys
    && forall p :: p in m.owner ==>
         if m.owner[p] == Loose && ppn <= p < ppn + k then n.owner[p] == User(r, a + (p - ppn))
         else n.owner[p] == m.owner[p] || (m.owner[p] == Unused && n.owner[p].Table? && n.owner[p].r == r)
  }

  lemma MappedFree(m: Mem, n: Mem, free: seq<int>, bytes: map<int, Page>, r: int, v: int, p: int)
    requires FreeOk(m, free) && BytesOk(m, bytes) && n.owner == MapOwner(m, r, v, p)
    ensures FreeOk(n, free) && BytesOk(n, bytes)
  {
  }

  lemma NothingMapped(m: Mem, bytes: map<int, Page>, r: int, a: int, ppn: int, perm: int)
    requires BytesOk(m, bytes)
    ensures RangeSet(m, m, r, a, 0, From(ppn, perm)) && Mapped(m, m, r, a, ppn, 0) && SameBytes(m, bytes, bytes)
  {
  }

  lemma StillReady(m: Mem, n: Mem, r: int, a: int, ppn: int, perm: int, k: nat)
    requires RangeSet(m, n, r, a, k, From(ppn, perm)) && Mapped(m, n, r, a, ppn, k)
    requires IsRoot(m, r) && 0 <= a + k < MAXVPN && !HasV(Leaf(m, r, a + k)) && Ready(m, ppn + k, perm)
    ensures !HasV(Leaf(n, r, a + k)) && Ready(n, ppn + k, perm)
  {
    hide Leaf, HasU;
    assert Leaf(n, r, a + k) == Leaf(m, r, a + k);
  }

  lemma MappedThenGrew(m: Mem, n: Mem, o: Mem, b0: map<int, Page>, b1: map<int, Page>, b2: map<int, Page>,
                       r: int, a: int, ppn: int, perm: int, k: nat)
    requires RangeSet(m, n, r, a, k, From(ppn, perm)) && Mapped(m, n, r, a, ppn, k) && Grew(n, o, r)
    requires SameBytes(m, b0, b1) && SameBytes(n, b1, b2)
    ensures RangeSet(m, o, r, a, k, From(ppn, perm)) && Mapped(m, o, r, a, ppn, k) && SameBytes(m, b0, b2)
  {
    hide Leaf, RangeSet;
    RangeSetAfterGrowth(m, n, o, r, a, k, From(ppn, perm));
  }

  lemma MappedOneMore(m: Mem, n: Mem, o: Mem, b0: map<int, Page>, b1: map<int, Page>, b2: map<int, Page>,
                      r: int, a: int, ppn: int, perm: int, k: nat)
    requires RangeSet(m, n, r, a, k, From(ppn, perm)) && Mapped(m, n, r, a, ppn, k)
    requires RangeSet(n, o, r, a + k, 1, From(ppn + k, perm)) && Mapped(n, o, r, a + k, ppn + k, 1)
    requires SameBytes(m, b0, b1) && SameBytes(n, b1, b2)
    ensures RangeSet(m, o, r, a, k + 1, From(ppn, perm)) && Mapped(m, o, r, a, ppn, k + 1) && SameBytes(m, b0, b2)
    ensures IsRoot(m, r) ==> IsRoot(o, r)
  {
    hide Leaf;
    assert IsRoot(m, r) ==> IsRoot(n, r);
    hide RangeSet;
    RangeSetOn(m, n, o, r, a, k, From(ppn, perm));
  }

  function ClearOwner(m: Mem, r: int, v: int): map<int, Owner> {
    var p := Ppn(Leaf(m, r, v));
    if p in m.owner && m.owner[p] == User(r, v) then m.owner[p := Loose] else m.owner
  }

  lemma ClearOk(m: Mem, r: int, v: int)
    requires MemOk(m) && IsRoot(m, r) && 0 <= v < MAXVPN && HasV(Leaf(m, r, v))
    ensures LowPage(m, r, I2(v), I1(v)) != 0 && IsTable(m, LowPage(m, r, I2(v), I1(v))) && 0 <= I0(v) < ENTRIES
    ensures Flags(Leaf(m, r, v)) != 1 && Leaf(m, r, v) == m.tables[LowPage(m, r, I2(v), I1(v))][I0(v)]
    ensures var n := SetLeaf(m, r, v, 0, ClearOwner(m, r, v));
            MemOk(n) && RangeSet(m, n, r, v, 1, Zero)
  {
    hide I2, I1, I0, MidPage, HasU, Vpn;
    ValidHasTable(m, r, v);
    var owner' := ClearOwner(m, r, v);
    forall q | q in m.owner && m.owner[q] == User(r, v) ensures q == Ppn(Leaf(m, r, v)) {
      assert PageOk(m, q);
    }
    hide Leaf, LowPage;
    assert CanSet(m, r, v, owner') && Fits(m, r, v, 0, owner');
    SetLeafOk(m, r, v, 0, owner');
    SetLeafRange(m, r, v, 0, owner', Zero);
  }

  lemma ValidHasTable(m: Mem, r: int, v: int)
    requires MemOk(m) && IsRoot(m, r) && 0 <= v < MAXVPN && HasV(Leaf(m, r, v))
    ensures LowPage(m, r, I2(v), I1(v)) != 0 && IsTable(m, LowPage(m, r, I2(v), I1(v))) && 0 <= I0(v) < ENTRIES
    ensures Flags(Leaf(m, r, v)) != 1 && Leaf(m, r, v) == m.tables[LowPage(m, r, I2(v), I1(v))][I0(v)]
  {
    hide I2, I1, I0, MidPage, HasU, Vpn;
    Split(v);
    var c := LowPage(m, r, I2(v), I1(v));
    NoTableNoLeaf(m, r, v);
    SlotTable(m, r, v);
    assert PageOk(m, c);
    assert EntryOk(m, r, Low(I2(v), I1(v)), I0(v), m.tables[c][I0(v)]);
    LeafByFlags(Leaf(m, r, v));
  }

  lemma NoTableNoLeaf(m: Mem, r: int, v: int)
    requires MemOk(m)
    ensures LowPage(m, r, I2(v), I1(v)) == 0 ==> Leaf(m, r, v) == 0 && !HasV(Leaf(m, r, v))
  {
  }

  /** uvmunmap may be asked to drop page v of r, and to free it. */
  ghost predicate Mappable(m: Mem, r: int, v: int, doFree: bool) {
    HasV(Leaf(m, r, v)) && (doFree ==> Owns(m, Ppn(Leaf(m, r, v)), User(r, v)))
  }

  /** The pages of r at a .. a + k - 1, and no others, went to owner `to`. */
  ghost predicate Unmapped(m: Mem, n: Mem, r: int, a: int, k: int, to: Owner) {
    && n.owner.Keys == m.owner.Keys
    && forall p :: p in m.owner ==>
         n.owner[p] == if m.owner[p].User? && m.owner[p].r == r && a <= m.owner[p].v < a + k then to else m.owner[p]
  }

  lemma ClearedRest(m: Mem, n: Mem, free: seq<int>, bytes: map<int, Page>, r: int, v: int)
    requires MemOk(m) && FreeOk(m, free) && BytesOk(m, bytes) && n.owner == ClearOwner(m, r, v) && IsRoot(m, r)
    ensures FreeOk(n, free) && BytesOk(n, bytes) && SameBytes(n, bytes, bytes) && Unmapped(m, n, r, v, 1, Loose)
    ensures Owns(m, Ppn(Leaf(m, r, v)), User(r, v)) ==> Owns(n, Ppn(Leaf(m, r, v)), Loose)
  {
    hide Leaf, Ppn;
    forall p | p in m.owner && m.owner[p] == User(r, v) ensures p == Ppn(Leaf(m, r, v)) {
      assert PageOk(m, p);
    }
  }

  lemma SameFree(m: Mem, n: Mem, free: seq<int>)
    requires n.owner == m.owner && FreeOk(m, free)
    ensures FreeOk(n, free)
  {
  }

  lemma OwnedIsNoTable(m: Mem, p: int, r: int, v: int)
    requires MemOk(m) && Owns(m, p, User(r, v))
    ensures m.tables - {p} == m.tables
  {
    assert PageOk(m, p);
  }

  lemma FreedRest(m: Mem, n: Mem, o: Mem, b0: map<int, Page>, b1: map<int, Page>, r: int, v: int)
    requires MemOk(m) && BytesOk(n, b0) && Unmapped(m, n, r, v, 1, Loose) && RangeSet(m, n, r, v, 1, Zero)
    requires var p := Ppn(Leaf(m, r, v));
             Owns(m, p, User(r, v)) && o.owner == n.owner[p := Unused] &&
             forall q :: q != p && q in b0 ==> q in b1 && b1[q] == b0[q]
    requires SameViews(n, o)
    ensures Unmapped(m, o, r, v, 1, Unused) && RangeSet(m, o, r, v, 1, Zero) && SameBytes(o, b0, b1) && BytesOk(o, b1)
  {
    hide Leaf, RangeSet, Ppn;
    RangeSetAfterGrowth(m, n, o, r, v, 1, Zero);
    forall p | p in m.owner && m.owner[p] == User(r, v) ensures p == Ppn(Leaf(m, r, v)) {
      assert PageOk(m, p);
    }
  }

  lemma NothingUnmapped(m: Mem, bytes: map<int, Page>, r: int, a: int, to: Owner)
    requires BytesOk(m, bytes)
    ensures RangeSet(m, m, r, a, 0, Zero) && Unmapped(m, m, r, a, 0, to) && SameBytes(m, bytes, bytes)
  {
  }

  lemma StillMappable(m: Mem, n: Mem, r: int, a: int, k: nat, doFree: bool)
    requires RangeSet(m, n, r, a, k, Zero) && Unmapped(m, n, r, a, k, if doFree then Unused else Loose)
    requires IsRoot(m, r) && 0 <= a + k < MAXVPN && Mappable(m, r, a + k, doFree)
    ensures Mappable(n, r, a + k, doFree)
  {
    hide Leaf, HasV, Ppn;
    assert Leaf(n, r, a + k) == Leaf(m, r, a + k);
  }

  lemma UnmappedOneMore(m: Mem, n: Mem, o: Mem, b0: map<int, Page>, b1: map<int, Page>, b2: map<int, Page>,
                        r: int, a: int, k: nat, to: Owner)
    requires RangeSet(m, n, r, a, k, Zero) && Unmapped(m, n, r, a, k, to) && SameBytes(n, b0, b1)
    requires RangeSet(n, o, r, a + k, 1, Zero) && Unmapped(n, o, r, a + k, 1, to) && SameBytes(o, b1, b2)
    requires to in {Unused, Loose} && IsRoot(m, r)
    ensures RangeSet(m, o, r, a, k + 1, Zero) && Unmapped(m, o, r, a, k + 1, to) && SameBytes(o, b0, b2)
    ensures IsRoot(o, r)
  {
    hide Leaf;
    assert IsRoot(n, r);
    hide RangeSet;
    RangeSetOn(m, n, o, r, a, k, Zero);
  }

  // ---------------------------------------------------------------------
  // Steps of uvmalloc

  /** PGROUNDUP, in pages. */
  function RoundUp(n: nat): nat {
    (n + PGSIZE - 1) / PGSIZE
  }

  /** Page v is below it exactly when its first byte is below n. */
  lemma RoundUpMeans(n: nat, v: int)
    ensures v < RoundUp(n) <==> v * PGSIZE < n
  {
  }

  /** Free pages it takes to give r new pages lo .. hi - 1. */
  function PagesNeeded(m: Mem, r: int, lo: int, hi: int): int {
    hi - lo + TablesNeeded(m, r, lo, hi)
  }

  function Zeros(): (z: Page)
    ensures |z| == PGSIZE && forall i :: 0 <= i < |z| ==> z[i] == 0
  {
    seq(PGSIZE, _ => 0)
  }

  /** A page mapped and owned. */
  ghost predicate FreshPage(m: Mem, r: int, v: int) {
    HasV(Leaf(m, r, v)) && Owns(m, Ppn(Leaf(m, r, v)), User(r, v))
  }

  /** The permissions and contents of page v of r. */
  ghost predicate PageIs(m: Mem, bytes: map<int, Page>, r: int, v: int, perm: int, content: Page) {
    && FreshPage(m, r, v)
    && Leaf(m, r, v) == Encode(Ppn(Leaf(m, r, v)), perm)
    && Ppn(Leaf(m, r, v)) in bytes && bytes[Ppn(Leaf(m, r, v))] == content
  }

  /** Pages lo .. x - 1 of r are new, taken from the free list; nothing else changed but
      that free pages became tables of r. */
  ghost predicate Taken(m: Mem, n: Mem, r: int, lo: int, x: int) {
    && n.owner.Keys == m.owner.Keys
    && (forall r' :: IsRoot(m, r') ==> IsRoot(n, r'))
    && (forall p :: p in m.owner ==> n.owner[p] == m.owner[p] || (m.owner[p] == Unused && NewOwner(n.owner[p], r, lo, x)))
    && (forall r', v {:trigger Leaf(n, r', v)} :: IsRoot(m, r') && 0 <= v < MAXVPN && !(r' == r && lo <= v < x) ==>
          Leaf(n, r', v) == Leaf(m, r', v))
    && (forall v :: lo <= v < x ==> FreshPage(n, r, v))
  }

  predicate NewOwner(o: Owner, r: int, lo: int, x: int) {
    (o.Table? && o.r == r) || (o.User? && o.r == r && lo <= o.v < x)
  }

  lemma NothingTaken(m: Mem, r: int, lo: int)
    ensures Taken(m, m, r, lo, lo)
  {
  }

  lemma StillUnmapped(m: Mem, n: Mem, r: int, lo: nat, x: nat)
    requires Taken(m, n, r, lo, x) && IsRoot(m, r) && lo <= x < MAXVPN && !HasV(Leaf(m, r, x))
    ensures !HasV(Leaf(n, r, x))
  {
    hide Leaf, HasV, FreshPage;
    assert Leaf(n, r, x) == Leaf(m, r, x);
  }

  /** After kalloc the page is the caller's and may be mapped. */
  lemma HeldPage(m: Mem, n: Mem, b: map<int, Page>, b1: map<int, Page>, r: int, v: int, p: int, perm: int)
    requires SameViews(m, n) && IsRoot(m, r) && 0 <= v < MAXVPN && BytesOk(m, b) && p in b1 && b1 == b[p := b1[p]]
    requires |b1[p]| == PGSIZE && p in m.owner && m.owner[p] == Unused && n.owner == m.owner[p := Loose]
    ensures IsRoot(n, r) && Leaf(n, r, v) == Leaf(m, r, v) && Ready(n, p, perm) && BytesOk(n, b1) && SameBytes(m, b, b1)
  {
    hide Leaf;
    assert Leaf(n, r, v) == Leaf(m, r, v);
  }

  lemma PageTaken(m: Mem, n: Mem, o: Mem, b: map<int, Page>, b1: map<int, Page>, b2: map<int, Page>,
                  r: int, v: int, p: int, perm: int, content: Page)
    requires SameViews(m, n) && IsRoot(m, r) && 0 <= v < MAXVPN && 0 <= perm < 1024
    requires p in m.owner && m.owner[p] == Unused && n.owner == m.owner[p := Loose]
    requires RangeSet(n, o, r, v, 1, From(p, perm)) && Mapped(n, o, r, v, p, 1)
    requires SameBytes(m, b, b1) && p in b1 && b1[p] == content && SameBytes(n, b1, b2)
    ensures Taken(m, o, r, v, v + 1) && PageIs(o, b2, r, v, perm, content) && SameBytes(m, b, b2)
  {
    EncodeDecodes(p, perm);
    hide Leaf, Encode, HasV, Ppn;
    assert IsRoot(n, r) && Leaf(o, r, v) == Encode(p, perm);
    forall r', v' | IsRoot(m, r') && 0 <= v' < MAXVPN && !(r' == r && v <= v' < v + 1)
      ensures Leaf(o, r', v') == Leaf(m, r', v')
    {
      assert IsRoot(n, r') && Leaf(n, r', v') == Leaf(m, r', v');
    }
    forall p' | p' in m.owner
      ensures o.owner[p'] == m.owner[p'] || (m.owner[p'] == Unused && NewOwner(o.owner[p'], r, v, v + 1))
    {
    }
  }

  /** The page is still the caller's when mappages has failed. */
  lemma PageHeld(m: Mem, n: Mem, o: Mem, b: map<int, Page>, b1: map<int, Page>, b2: map<int, Page>, r: int, p: int)
    requires Grew(n, o, r) && p in m.owner && n.owner == m.owner[p := Loose] && SameBytes(m, b, b1) && SameBytes(n, b1, b2)
    requires m.owner[p] == Unused
    ensures p in o.owner && o.owner[p] == Loose && SameBytes(m, b, b2)
  {
    hide Leaf;
  }

  lemma PageGivenBack(m: Mem, n: Mem, o: Mem, q: Mem, b: map<int, Page>, b2: map<int, Page>, b3: map<int, Page>, r: int, p: int)
    requires SameViews(m, n) && Grew(n, o, r) && SameViews(o, q)
    requires p in m.owner && m.owner[p] == Unused && n.owner == m.owner[p := Loose] && q.owner == o.owner[p := Unused]
    requires SameBytes(m, b, b2) && forall x :: x != p && x in b2 ==> x in b3 && b3[x] == b2[x]
    ensures Grew(m, q, r) && SameBytes(m, b, b3)
  {
    hide Leaf;
    forall r', v | IsRoot(m, r') && 0 <= v < MAXVPN ensures Leaf(q, r', v) == Leaf(m, r', v) {
      assert IsRoot(n, r') && IsRoot(o, r');
      assert Leaf(n, r', v) == Leaf(m, r', v) && Leaf(o, r', v) == Leaf(n, r', v);
    }
  }

  lemma TakenThenGrew(m: Mem, n: Mem, o: Mem, b0: map<int, Page>, b1: map<int, Page>, b2: map<int, Page>, r: int, lo: nat, x: nat)
    requires Taken(m, n, r, lo, x) && Grew(n, o, r) && SameBytes(m, b0, b1) && SameBytes(n, b1, b2) && IsRoot(m, r)
    requires x <= MAXVPN
    ensures Taken(m, o, r, lo, x) && SameBytes(m, b0, b2)
  {
    hide Leaf, HasV, Ppn;
    forall r', v | IsRoot(m, r') && 0 <= v < MAXVPN && !(r' == r && lo <= v < x)
      ensures Leaf(o, r', v) == Leaf(m, r', v)
    {
      assert IsRoot(n, r') && Leaf(n, r', v) == Leaf(m, r', v);
    }
    forall v | lo <= v < x ensures FreshPage(o, r, v) {
      assert IsRoot(n, r) && FreshPage(n, r, v) && Leaf(o, r, v) == Leaf(n, r, v);
    }
  }

  lemma TakenMore(m: Mem, n: Mem, o: Mem, b0: map<int, Page>, b1: map<int, Page>, b2: map<int, Page>, r: int, lo: nat, x: nat)
    requires Taken(m, n, r, lo, x) && Taken(n, o, r, x, x + 1) && SameBytes(m, b0, b1) && SameBytes(n, b1, b2)
    requires IsRoot(m, r) && lo <= x < MAXVPN
    ensures Taken(m, o, r, lo, x + 1) && SameBytes(m, b0, b2) && IsRoot(o, r)
  {
    hide Leaf, HasV, Ppn;
    forall r', v | IsRoot(m, r') && 0 <= v < MAXVPN && !(r' == r && lo <= v < x + 1)
      ensures Leaf(o, r', v) == Leaf(m, r', v)
    {
      assert IsRoot(n, r') && Leaf(n, r', v) == Leaf(m, r', v);
    }
    forall v | lo <= v < x ensures FreshPage(o, r, v) {
      assert IsRoot(n, r) && FreshPage(n, r, v) && Leaf(o, r, v) == Leaf(n, r, v);
    }
  }

  lemma StillIs(n: Mem, o: Mem, b1: map<int, Page>, b2: map<int, Page>, r: int, v: nat, perm: int, content: Page, x: nat)
    requires PageIs(n, b1, r, v, perm, content) && Taken(n, o, r, x, x + 1) && SameBytes(n, b1, b2)
    requires IsRoot(n, r) && v < x < MAXVPN
    ensures PageIs(o, b2, r, v, perm, content)
  {
    hide Leaf, HasV, Ppn, Encode;
    assert Leaf(o, r, v) == Leaf(n, r, v);
  }

  lemma TakenMappable(m: Mem, n: Mem, r: int, lo: nat, x: nat)
    requires Taken(m, n, r, lo, x) && IsRoot(m, r)
    ensures IsRoot(n, r) && forall v :: lo <= v < x ==> Mappable(n, r, v, true)
  {
    hide Leaf, HasV, Ppn;
    forall v | lo <= v < x ensures Mappable(n, r, v, true) {
      assert FreshPage(n, r, v);
    }
  }

  /** Freeing all pages taken leaves only tables behind. */
  lemma Undone(m: Mem, n: Mem, o: Mem, b0: map<int, Page>, b1: map<int, Page>, b2: map<int, Page>, r: int, lo: nat, x: nat)
    requires MemOk(m) && Taken(m, n, r, lo, x) && IsRoot(m, r) && lo <= x <= MAXVPN
    requires forall v :: lo <= v < x ==> !HasV(Leaf(m, r, v))
    requires RangeSet(n, o, r, lo, x - lo, Zero) && Unmapped(n, o, r, lo, x - lo, Unused)
    requires SameBytes(m, b0, b1) && SameBytes(o, b1, b2)
    ensures Grew(m, o, r) && SameBytes(m, b0, b2)
  {
    hide Leaf, HasV, Ppn;
    forall r', v | IsRoot(m, r') && 0 <= v < MAXVPN ensures Leaf(o, r', v) == Leaf(m, r', v) {
      assert IsRoot(n, r');
      if r' == r && lo <= v < x {
        InvalidIsZero(m, r, v);
      } else {
        assert Leaf(n, r', v) == Leaf(m, r', v);
      }
    }
    forall p | p in m.owner
      ensures o.owner[p] == m.owner[p] || (m.owner[p] == Unused && o.owner[p].Table? && o.owner[p].r == r)
    {
      NotOwnedYet(m, r, lo, x, p);
    }
  }

  lemma InvalidIsZero(m: Mem, r: int, v: int)
    requires MemOk(m) && IsRoot(m, r) && 0 <= v < MAXVPN && !HasV(Leaf(m, r, v))
    ensures Leaf(m, r, v) == 0
  {
    hide I2, I1, I0, MidPage, HasU, Vpn, Ppn;
    var c := LowPage(m, r, I2(v), I1(v));
    if c != 0 {
      Split(v);
      SlotTable(m, r, v);
      assert PageOk(m, c);
      assert EntryOk(m, r, Low(I2(v), I1(v)), I0(v), m.tables[c][I0(v)]);
    }
  }

  lemma NotOwnedYet(m: Mem, r: int, lo: nat, x: nat, p: int)
    requires MemOk(m) && p in m.owner && forall v :: lo <= v < x ==> !HasV(Leaf(m, r, v))
    ensures !(m.owner[p].User? && m.owner[p].r == r && lo <= m.owner[p].v < x)
  {
    hide Leaf, HasV;
    assert PageOk(m, p);
  }

  // ---------------------------------------------------------------------
  // Steps of uvmcopy

  /** Page v of the child has the flags and contents that page v of the parent had. */
  ghost predicate CopyOf(m: Mem, b: map<int, Page>, n: Mem, b': map<int, Page>, parent: int, child: int, v: int) {
    var e := Leaf(m, parent, v);
    Ppn(e) in b && PageIs(n, b', child, v, Flags(e), b[Ppn(e)])
  }

  lemma SameBytesSelf(m: Mem, b: map<int, Page>)
    requires BytesOk(m, b)
    ensures SameBytes(m, b, b)
  {
  }

  /** The parent's page is as it was at the start. */
  lemma ParentPage(m: Mem, n: Mem, b0: map<int, Page>, b1: map<int, Page>, parent: int, child: int, v: nat)
    requires Taken(m, n, child, 0, v) && parent != child && IsRoot(m, parent) && v < MAXVPN && FreshPage(m, parent, v)
    requires SameBytes(m, b0, b1) && BytesOk(n, b1)
    ensures Leaf(n, parent, v) == Leaf(m, parent, v) && FreshPage(n, parent, v)
    ensures var p := Ppn(Leaf(m, parent, v)); p in b0 && p in b1 && b1[p] == b0[p] && |b1[p]| == PGSIZE
  {
    hide Leaf, HasV, Ppn;
    assert Leaf(n, parent, v) == Leaf(m, parent, v);
  }

  lemma ParentEntry(m: Mem, r: int, v: nat)
    requires MemOk(m) && IsRoot(m, r) && v < MAXVPN && FreshPage(m, r, v)
    ensures LowPage(m, r, I2(v), I1(v)) != 0 && IsTable(m, LowPage(m, r, I2(v), I1(v))) && 0 <= I0(v) < ENTRIES
    ensures m.tables[LowPage(m, r, I2(v), I1(v))][I0(v)] == Leaf(m, r, v)
    ensures 0 <= Flags(Leaf(m, r, v)) < 1024 && IsLeaf(Flags(Leaf(m, r, v)))
  {
    hide I2, I1, I0, MidPage, LowPage, HasU, Vpn, Ppn;
    ValidHasTable(m, r, v);
    var c := LowPage(m, r, I2(v), I1(v));
    SlotTable(m, r, v);
    assert PageOk(m, c);
    assert EntryOk(m, r, Low(I2(v), I1(v)), I0(v), m.tables[c][I0(v)]);
    LeafByFlags(Leaf(m, r, v));
  }

  lemma KeepsRoot(n: Mem, o: Mem, child: int, x: nat, r: int)
    requires Taken(n, o, child, x, x + 1) && IsRoot(n, r)
    ensures IsRoot(o, r)
  {
  }

  lemma CopiedOne(m: Mem, b0: map<int, Page>, o: Mem, b: map<int, Page>, parent: int, child: int, v: nat)
    requires var e := Leaf(m, parent, v); Ppn(e) in b0 && PageIs(o, b, child, v, Flags(e), b0[Ppn(e)])
    ensures CopyOf(m, b0, o, b, parent, child, v)
  {
  }

  lemma StillCopy(m: Mem, b0: map<int, Page>, n: Mem, b1: map<int, Page>, o: Mem, b2: map<int, Page>,
                  parent: int, child: int, v: nat, x: nat)
    requires CopyOf(m, b0, n, b1, parent, child, v) && Taken(n, o, child, x, x + 1) && SameBytes(n, b1, b2)
    requires IsRoot(n, child) && v < x < MAXVPN
    ensures CopyOf(m, b0, o, b2, parent, child, v)
  {
    hide Leaf, Ppn, Flags, PageIs, Taken;
    var e := Leaf(m, parent, v);
    StillIs(n, o, b1, b2, child, v, Flags(e), b0[Ppn(e)], x);
  }

  // ---------------------------------------------------------------------
  // Steps of freewalk, uvmfree and proc_freepagetable

  const TRAMPOLINE: int := MAXVPN - 1
  const TRAPFRAME: int := MAXVPN - 2

  /** A page mapped for the kernel's own use: not one of the process's pages. */
  ghost predicate KernelPage(m: Mem, r: int, v: int) {
    HasV(Leaf(m, r, v)) && !Owns(m, Ppn(Leaf(m, r, v)), User(r, v))
  }

  /** Exactly the pages of r, tables and user pages, went to the free list. */
  ghost predicate GivenBack(m: Mem, n: Mem, r: int) {
    && n.owner.Keys == m.owner.Keys
    && forall p :: p in m.owner ==> n.owner[p] == if OfProcess(m.owner[p], r) then Unused else m.owner[p]
  }

  predicate OfProcess(o: Owner, r: int) {
    (o.Table? && o.r == r) || (o.User? && o.r == r)
  }

  lemma StillHeld(n: Mem, o: Mem, b0: map<int, Page>, b1: map<int, Page>, b2: map<int, Page>, r: int, pos: Pos)
    requires SameBytes(n, b0, b1) && BytesOk(n, b1) && FreedSub(n, o, r, pos) && SameBytes(o, b1, b2)
    ensures SameBytes(o, b0, b2) && BytesOk(o, b2)
  {
  }

  lemma SameOwners(o: Mem, o': Mem, free: seq<int>, b0: map<int, Page>, b: map<int, Page>)
    requires o'.owner == o.owner && FreeOk(o, free) && BytesOk(o, b) && SameBytes(o, b0, b)
    ensures FreeOk(o', free) && BytesOk(o', b) && SameBytes(o', b0, b)
  {
  }

  lemma StillTable(m: Mem, n: Mem, p: int, r: int, pos: Pos)
    requires SubOk(m, p, r, pos) && Swept(m, n, p, r, pos, ENTRIES)
    ensures Owns(n, p, Table(r, pos))
  {
  }

  lemma TableHeld(n: Mem, o: Mem, b0: map<int, Page>, b1: map<int, Page>, b2: map<int, Page>, p: int)
    requires SameBytes(n, b0, b1) && o.owner == n.owner[p := Unused]
    requires forall q :: q != p && q in b1 ==> q in b2 && b2[q] == b1[q]
    ensures SameBytes(o, b0, b2)
  {
  }

  lemma AllMappable(m: Mem, r: int, k: nat)
    requires forall v :: 0 <= v < k ==> FreshPage(m, r, v)
    ensures forall v :: 0 <= v < k ==> Mappable(m, r, v, true)
  {
    hide Leaf, HasV, Ppn;
    forall v | 0 <= v < k ensures Mappable(m, r, v, true) {
      assert FreshPage(m, r, v);
    }
  }

  lemma AllUnmapped(m: Mem, n: Mem, r: int, k: nat)
    requires IsRoot(m, r) && RangeSet(m, n, r, 0, k, Zero)
    requires forall v :: k <= v < MAXVPN ==> Leaf(m, r, v) == 0
    ensures IsRoot(n, r) && NoLeaves(n, r)
  {
    hide Leaf;
    forall v | 0 <= v < MAXVPN ensures Leaf(n, r, v) == 0 {
      assert v >= k ==> Leaf(m, r, v) == 0;
    }
  }

  lemma TreeGone(m: Mem, n: Mem, o: Mem, b0: map<int, Page>, b1: map<int, Page>, b2: map<int, Page>, r: int, k: nat)
    requires MemOk(m) && BytesOk(m, b0) && RangeSet(m, n, r, 0, k, Zero) && Unmapped(m, n, r, 0, k, Unused)
    requires FreedSub(n, o, r, Root) && OtherViews(n, o, r) && SameBytes(n, b0, b1) && SameBytes(o, b1, b2)
    requires forall v :: k <= v < MAXVPN ==> Leaf(m, r, v) == 0
    ensures GivenBack(m, o, r) && OtherViews(m, o, r) && SameBytes(o, b0, b2) && BytesOk(o, b2)
  {
    hide Leaf, Ppn;
    forall r', v | r' != r && IsRoot(m, r') && 0 <= v < MAXVPN ensures Leaf(o, r', v) == Leaf(m, r', v) {
      assert IsRoot(n, r') && Leaf(n, r', v) == Leaf(m, r', v);
    }
    forall p | p in m.owner ensures o.owner[p] == if OfProcess(m.owner[p], r) then Unused else m.owner[p] {
      assert PageOk(m, p);
      ZeroInvalid();
    }
  }

  lemma KernelMappable(m: Mem, r: int, v: int)
    requires KernelPage(m, r, v)
    ensures forall x :: v <= x < v + 1 ==> Mappable(m, r, x, false)
  {
  }

  /** Dropping a kernel page changes no owner. */
  lemma KernelUnmapped(m: Mem, n: Mem, b0: map<int, Page>, b1: map<int, Page>, r: int, v: int)
    requires MemOk(m) && KernelPage(m, r, v) && IsRoot(m, r) && RangeSet(m, n, r, v, 1, Zero) && Unmapped(m, n, r, v, 1, Loose)
    ensures n.owner == m.owner && IsRoot(n, r)
  {
    hide Leaf, HasV, Ppn;
    forall p | p in m.owner ensures n.owner[p] == m.owner[p] {
      assert PageOk(m, p);
    }
  }

  lemma OtherKernelPage(m: Mem, n: Mem, r: int, v: int, w: int)
    requires KernelPage(m, r, w) && IsRoot(m, r) && RangeSet(m, n, r, v, 1, Zero) && n.owner == m.owner && w != v && 0 <= w < MAXVPN
    ensures KernelPage(n, r, w)
  {
    hide Leaf, HasV, Ppn;
    assert Leaf(n, r, w) == Leaf(m, r, w);
  }

  lemma ImageLeft(m: Mem, n: Mem, o: Mem, r: int, k: nat)
    requires IsRoot(m, r) && IsRoot(n, r) && n.owner == m.owner && o.owner == n.owner && k <= TRAPFRAME
    requires RangeSet(m, n, r, TRAMPOLINE, 1, Zero) && RangeSet(n, o, r, TRAPFRAME, 1, Zero)
    requires forall v :: 0 <= v < MAXVPN && v != TRAMPOLINE && v != TRAPFRAME ==>
      if v < k then FreshPage(m, r, v) else Leaf(m, r, v) == 0
    ensures forall v :: 0 <= v < MAXVPN ==> if v < k then FreshPage(o, r, v) else Leaf(o, r, v) == 0
  {
    hide Leaf, HasV, Ppn;
    forall v | 0 <= v < MAXVPN ensures if v < k then FreshPage(o, r, v) else Leaf(o, r, v) == 0 {
      var there, before := Leaf(n, r, v), Leaf(m, r, v);
      assert v < k ==> FreshPage(m, r, v);
    }
  }

  lemma BothGone(m: Mem, n: Mem, o: Mem, q: Mem, b0: map<int, Page>, b1: map<int, Page>, b2: map<int, Page>, b3: map<int, Page>, r: int)
    requires n.owner == m.owner && o.owner == n.owner && GivenBack(o, q, r) && OtherViews(o, q, r)
    requires RangeSet(m, n, r, TRAMPOLINE, 1, Zero) && RangeSet(n, o, r, TRAPFRAME, 1, Zero)
    requires SameBytes(n, b0, b1) && SameBytes(o, b1, b2) && SameBytes(q, b2, b3)
    ensures GivenBack(m, q, r) && OtherViews(m, q, r) && SameBytes(q, b0, b3)
  {
    hide Leaf;
    forall r', v | r' != r && IsRoot(m, r') && 0 <= v < MAXVPN ensures Leaf(q, r', v) == Leaf(m, r', v) {
      assert IsRoot(n, r') && IsRoot(o, r');
      assert Leaf(n, r', v) == Leaf(m, r', v) && Leaf(o, r', v) == Leaf(n, r', v);
    }
  }

  // ---------------------------------------------------------------------
  // The code

  class Vm {
    /** Pages used as page tables, and the contents of the other pages. */
    var tables: map<int, seq<int>>
    var bytes: map<int, Page>
    /** kmem.freelist, first page first. */
    var freelist: seq<int>
    ghost var owner: map<int, Owner>

    ghost function M(): Mem
      reads this
    {
      Mem(tables, owner)
    }

    ghost predicate Valid()
      reads this
    {
      MemOk(M()) && FreeOk(M(), freelist) && BytesOk(M(), bytes)
    }

    /** kinit: freerange gives pages first .. first + n - 1 to the free list. */
    constructor (first: nat, n: nat)
      requires 0 < first
      ensures Valid()
      ensures forall p :: p in owner <==> first <= p < first + n
      ensures forall p :: p in owner ==> owner[p] == Unused
    {
      tables, bytes, freelist := map[], AtBoot(first, n, Zeros()), [];
      owner := AtBoot(first, n, Loose);
      new;
      var p := first;
      while p < first + n
        invariant first <= p <= first + n && Valid()
        invariant forall q :: q in owner <==> first <= q < first + n
        invariant forall q :: q in owner ==> owner[q] == if q < p then Unused else Loose
      {
        Kfree(p);
        p := p + 1;
      }
    }

    /** kalloc: the first free page, full of junk, or 0. */
    method Kalloc() returns (p: int)
      requires Valid()
      modifies `freelist, `bytes, `owner
      ensures Valid() && SameViews(old(M()), M())
      ensures p == 0 <==> old(freelist) == []
      ensures p == 0 ==> unchanged(this)
      ensures p != 0 ==>
        && p == old(freelist)[0] && freelist == old(freelist)[1..]
        && owner == old(owner)[p := Loose] && p in old(owner) && old(owner)[p] == Unused
        && p in bytes && bytes == old(bytes)[p := bytes[p]]
    {
      hide PageOk, Leaf;
      if freelist == [] {
        return 0;
      }
      p := freelist[0];
      assert p in freelist;
      RetypeOk(M(), p, Loose);
      freelist := freelist[1..];
      bytes := bytes[p := seq(PGSIZE, _ => 5)];
      owner := owner[p := Loose];
      assert old(freelist) == [p] + freelist;
    }

    /** kfree, of any page that is not free already. */
    method Kfree(p: int)
      requires FreeOk(M(), freelist) && p in owner && owner[p] != Unused
      modifies `freelist, `bytes, `owner, `tables
      ensures FreeOk(M(), freelist) && freelist == [p] + old(freelist)
      ensures owner == old(owner)[p := Unused] && tables == old(tables) - {p}
      ensures forall q :: q != p && q in old(bytes) ==> q in bytes && bytes[q] == old(bytes)[q]
      ensures old(Valid()) && old(owner)[p] in {Kernel, Loose} ==> Valid() && SameViews(old(M()), M())
    {
      hide PageOk, Leaf;
      if MemOk(M()) && owner[p] in {Kernel, Loose} {
        RetypeOk(M(), p, Unused);
        HeldIsNoTable(M(), p);
      }
      bytes := bytes[p := seq(PGSIZE, _ => 1)];
      freelist := [p] + freelist;
      owner := owner[p := Unused];
      tables := tables - {p};
    }

    /** uvmcreate: a new, empty address space, or 0. */
    method UvmCreate() returns (root: int)
      requires Valid()
      modifies `tables, `bytes, `freelist, `owner
      ensures Valid() && SameViews(old(M()), M()) && SameBytes(old(M()), old(bytes), bytes)
      ensures root == 0 <==> old(freelist) == []
      ensures root == 0 ==> unchanged(this)
      ensures root != 0 ==> IsRoot(M(), root) && NoLeaves(M(), root) && owner == old(owner)[root := Table(root, Root)]
      ensures root != 0 ==> root in old(owner) && old(owner)[root] == Unused && |freelist| == |old(freelist)| - 1
      ensures root != 0 ==> forall v :: Missing(M(), root, v) == 2
    {
      hide MemOk, Leaf;
      SameBytesSelf(M(), bytes);
      root := Kalloc();
      if root != 0 {
        ghost var m := M();
        AddRootOk(m, root);
        CreatedRest(old(M()), m, AddRoot(m, root), root);
        tables := tables[root := ZeroTable()];
        owner := owner[root := Table(root, Root)];
      }
    }

    /** One level of walk: follow entry i of the table pt, or put a new table there. */
    method Descend(root: int, pt: int, i: int, alloc: bool, ghost pos: Pos, ghost v: int) returns (ok: bool, child: int)
      requires Valid() && Owns(M(), pt, Table(root, pos)) && !pos.Low? && 0 <= i < (if pos.Root? then TOP else ENTRIES)
      requires (pos == Root && i == I2(v)) || (pos == Mid(I2(v)) && i == I1(v))
      modifies `tables, `bytes, `freelist, `owner
      ensures Valid() && Grew(old(M()), M(), root) && SameBytes(old(M()), old(bytes), bytes)
      ensures Suffix(freelist, old(freelist))
      ensures ok ==> Owns(M(), child, Table(root, Under(pos, i)))
      ensures !ok ==> unchanged(this) && Child(M(), pt, i) == 0 && (alloc ==> freelist == [])
      ensures !alloc ==> unchanged(this)
      ensures OnlyPath(old(M()), M(), root, v) && |freelist| - Missing(M(), root, v) == |old(freelist)| - Missing(old(M()), root, v)
    {
      hide MemOk, BytesOk, FreeOk, Leaf, Encode, OnlyPath, Missing, I2, I1, SameBytes, Grew;
      TableFacts(M(), pt, root, pos, i);
      SamePaths(M(), M(), root, v);
      var e := tables[pt][i];
      if HasV(e) {
        GrewNot(M(), root, bytes);
        return true, Ppn(e);
      }
      if !alloc {
        GrewNot(M(), root, bytes);
        return false, 0;
      }
      var mem := Kalloc();
      if mem == 0 {
        GrewNot(M(), root, bytes);
        return false, 0;
      }
      ghost var m := M();
      TableFacts(M(), pt, root, pos, i);
      SamePaths(old(M()), m, root, v);
      OneTable(m, pt, i, mem, root, pos, v);
      OnlyPathTwice(old(M()), m, AddTable(m, pt, i, mem, root, pos), root, v);
      AddedTable(old(M()), m, old(bytes), bytes, freelist, old(freelist), pt, i, mem, root, pos);
      tables := tables[pt := tables[pt][i := Encode(mem, 0)]];
      tables := tables[mem := ZeroTable()];
      owner := owner[mem := Table(root, Under(pos, i))];
      return true, mem;
    }

    /** walk: the table that holds the entry for page v; false is the null pointer. */
    method Walk(root: int, v: int, alloc: bool) returns (ok: bool, pt: int)
      requires Valid() && IsRoot(M(), root) && 0 <= v < MAXVPN
      modifies `tables, `bytes, `freelist, `owner
      ensures Valid() && Grew(old(M()), M(), root) && SameBytes(old(M()), old(bytes), bytes)
      ensures Suffix(freelist, old(freelist))
      ensures ok ==> pt != 0 && pt == LowPage(M(), root, I2(v), I1(v))
      ensures !ok ==> LowPage(M(), root, I2(v), I1(v)) == 0 && (alloc ==> freelist == [])
      ensures !alloc ==> unchanged(this)
      ensures alloc ==> (ok <==> |old(freelist)| >= Missing(old(M()), root, v))
      ensures alloc && ok ==> |freelist| == |old(freelist)| - Missing(old(M()), root, v) && Missing(M(), root, v) == 0
      ensures OnlyPath(old(M()), M(), root, v)
    {
      hide MemOk, BytesOk, FreeOk, Leaf, Grew, SameBytes, I2, I1, LowPage, OnlyPath, Missing;
      Split(v);
      GrewNot(M(), root, bytes);
      SamePaths(M(), M(), root, v);
      var level := 2;
      pt := root;
      ghost var pos := Root;
      while level > 0
        invariant 0 <= level <= 2 && Valid() && Owns(M(), pt, Table(root, pos))
        invariant pos == if level == 2 then Root else if level == 1 then Mid(I2(v)) else Low(I2(v), I1(v))
        invariant Grew(old(M()), M(), root) && SameBytes(old(M()), old(bytes), bytes) && Suffix(freelist, old(freelist))
        invariant !alloc ==> unchanged(this)
        invariant OnlyPath(old(M()), M(), root, v)
        invariant |freelist| - Missing(M(), root, v) == |old(freelist)| - Missing(old(M()), root, v)
      {
        var i := if level == 2 then I2(v) else I1(v);
        ghost var m, b := M(), bytes;
        var child;
        ok, child := Descend(root, pt, i, alloc, pos, v);
        GrewOn(old(M()), m, M(), old(bytes), b, bytes, root);
        OnlyPathTwice(old(M()), m, M(), root, v);
        if !ok {
          NoLowTable(M(), root, pos, pt, I2(v), I1(v));
          SomeMissing(M(), root, v);
          return false, 0;
        }
        pt, pos, level := child, Under(pos, i), level - 1;
      }
      LowTable(M(), pt, root, I2(v), I1(v));
      SomeMissing(M(), root, v);
      return true, pt;
    }

    /** One turn of the loop in mappages. */
    method MapOne(root: int, v: int, p: int, perm: int) returns (ok: bool)
      requires Valid() && IsRoot(M(), root) && 0 <= v < MAXVPN && 0 <= perm < 1024 && IsLeaf(perm)
      requires !HasV(Leaf(M(), root, v)) && Ready(M(), p, perm)
      modifies `tables, `bytes, `freelist, `owner
      ensures Valid() && SameBytes(old(M()), old(bytes), bytes) && Suffix(freelist, old(freelist))
      ensures ok ==> RangeSet(old(M()), M(), root, v, 1, From(p, perm)) && Mapped(old(M()), M(), root, v, p, 1)
      ensures !ok ==> Grew(old(M()), M(), root) && freelist == []
      ensures ok <==> |old(freelist)| >= Missing(old(M()), root, v)
      ensures ok ==> |freelist| == |old(freelist)| - Missing(old(M()), root, v) && Missing(M(), root, v) == 0
      ensures ok ==> OnlyPath(old(M()), M(), root, v)
    {
      hide MemOk, BytesOk, FreeOk, Leaf, Encode, IsLeaf, HasU, RangeSet, SameBytes, I2, I1, LowPage, OnlyPath, Missing;
      var pt;
      ok, pt := Walk(root, v, true);
      if ok {
        ghost var m := M();
        assert Leaf(m, root, v) == Leaf(old(M()), root, v);
        MapOk(m, root, v, p, perm);
        SlotTable(m, root, v);
        tables := tables[pt := tables[pt][I0(v) := Encode(p, perm)]];
        owner := MapOwner(m, root, v, p);
        MappedFree(m, M(), freelist, bytes, root, v, p);
        RangeSetBefore(old(M()), m, M(), root, v, 1, From(p, perm));
        MapOwnerRetags(m, root, v, p);
        LeafPaths(m, root, v, Encode(p, perm), owner);
        OnlyPathTwice(old(M()), m, M(), root, v);
      }
    }

    /** mappages, for the pages that va .. va + size - 1 touch; ppn is the first physical
        page. A page already mapped would be a panic. `k` pages were mapped. */
    method MapPages(root: int, va: int, size: int, ppn: int, perm: int) returns (ok: bool, ghost k: nat)
      requires Valid() && IsRoot(M(), root)
      requires 0 <= va && 1 <= size && va + size <= MAXVPN * PGSIZE && 0 <= perm < 1024 && IsLeaf(perm)
      requires forall v :: va / PGSIZE <= v <= (va + size - 1) / PGSIZE ==>
        !HasV(Leaf(M(), root, v)) && Ready(M(), ppn + (v - va / PGSIZE), perm)
      modifies `tables, `bytes, `freelist, `owner
      ensures Valid() && SameBytes(old(M()), old(bytes), bytes) && Suffix(freelist, old(freelist))
      ensures RangeSet(old(M()), M(), root, va / PGSIZE, k, From(ppn, perm))
      ensures Mapped(old(M()), M(), root, va / PGSIZE, ppn, k)
      ensures ok ==> k == (va + size - 1) / PGSIZE - va / PGSIZE + 1
      ensures !ok ==> k <= (va + size - 1) / PGSIZE - va / PGSIZE && freelist == []
      ensures ok <==> |old(freelist)| >= TablesNeeded(old(M()), root, va / PGSIZE, (va + size - 1) / PGSIZE + 1)
      ensures ok ==> |freelist| == |old(freelist)| - TablesNeeded(old(M()), root, va / PGSIZE, (va + size - 1) / PGSIZE + 1)
      ensures ok && k == 1 ==> OnlyPath(old(M()), M(), root, va / PGSIZE) && Missing(M(), root, va / PGSIZE) == 0
    {
      hide MemOk, BytesOk, FreeOk, Leaf, Encode, IsLeaf, HasU, RangeSet, Mapped, SameBytes, Grew;
      hide OnlyPath, Missing, MappedTo, TablesNeeded;
      var a, last, p := va / PGSIZE, (va + size - 1) / PGSIZE, ppn;
      ghost var first := a;
      k := 0;
      NothingMapped(M(), bytes, root, first, ppn, perm);
      MappedNone(M(), root, first);
      NoneNeeded(M(), root, first);
      while true
        invariant Valid() && IsRoot(M(), root) && first <= a <= last < MAXVPN && k == a - first && p == ppn + k
        invariant SameBytes(old(M()), old(bytes), bytes) && Suffix(freelist, old(freelist))
        invariant RangeSet(old(M()), M(), root, first, k, From(ppn, perm)) && Mapped(old(M()), M(), root, first, ppn, k)
        invariant MappedTo(old(M()), M(), root, first, a) && (k == 0 ==> M() == old(M()))
        invariant |freelist| == |old(freelist)| - TablesNeeded(old(M()), root, first, a)
        decreases last - a
      {
        ghost var m, b := M(), bytes;
        StillReady(old(M()), m, root, first, ppn, perm, k);
        ghost var have := |freelist|;
        ok := MapOne(root, a, p, perm);
        if !ok {
          TooFew(old(M()), m, root, first, a, last + 1, have);
          MappedThenGrew(old(M()), m, M(), old(bytes), b, bytes, root, first, ppn, perm, k);
          return false, k;
        }
        MappedOneMore(old(M()), m, M(), old(bytes), b, bytes, root, first, ppn, perm, k);
        NoNullTable(m);
        MappedNext(old(M()), m, M(), root, first, a);
        k := k + 1;
        if a == last {
          break;
        }
        a, p := a + 1, p + 1;
      }
      ok := true;
    }

    /** One turn of the loop in uvmunmap; none of its panics can happen. */
    method UnmapOne(root: int, v: int, doFree: bool)
      requires Valid() && IsRoot(M(), root) && 0 <= v < MAXVPN && Mappable(M(), root, v, doFree)
      modifies `tables, `bytes, `freelist, `owner
      ensures Valid() && RangeSet(old(M()), M(), root, v, 1, Zero)
      ensures Unmapped(old(M()), M(), root, v, 1, if doFree then Unused else Loose) && SameBytes(M(), old(bytes), bytes)
    {
      hide MemOk, BytesOk, FreeOk, Leaf, RangeSet, SameBytes, I2, I1, I0, LowPage, Unmapped, HasV, Flags, Ppn;
      ghost var m := M();
      var ok, pt := Walk(root, v, false);
      ClearOk(m, root, v);
      assert ok;
      var e := tables[pt][I0(v)];
      assert HasV(e) && Flags(e) != 1;
      ghost var n := SetLeaf(m, root, v, 0, ClearOwner(m, root, v));
      ClearedRest(m, n, freelist, bytes, root, v);
      if doFree {
        RetypeOk(n, Ppn(e), Unused);
        OwnedIsNoTable(m, Ppn(e), root, v);
        Kfree(Ppn(e));
        ghost var freed := M();
        tables := tables[pt := tables[pt][I0(v) := 0]];
        SameFree(freed, M(), freelist);
        assert M() == n.(owner := n.owner[Ppn(e) := Unused]);
        FreedRest(m, n, M(), old(bytes), bytes, root, v);
      } else {
        tables := tables[pt := tables[pt][I0(v) := 0]];
        owner := ClearOwner(m, root, v);
      }
    }

    /** uvmunmap, of n pages from v on, all mapped. */
    method UvmUnmap(root: int, v: int, npages: nat, doFree: bool)
      requires Valid() && IsRoot(M(), root) && 0 <= v && v + npages <= MAXVPN
      requires forall x :: v <= x < v + npages ==> Mappable(M(), root, x, doFree)
      modifies `tables, `bytes, `freelist, `owner
      ensures Valid() && RangeSet(old(M()), M(), root, v, npages, Zero)
      ensures Unmapped(old(M()), M(), root, v, npages, if doFree then Unused else Loose)
      ensures SameBytes(M(), old(bytes), bytes)
    {
      hide MemOk, BytesOk, FreeOk, Leaf, RangeSet, SameBytes, Unmapped, Mappable;
      var k := 0;
      NothingUnmapped(M(), bytes, root, v, if doFree then Unused else Loose);
      while k < npages
        invariant 0 <= k <= npages && Valid() && IsRoot(M(), root)
        invariant RangeSet(old(M()), M(), root, v, k, Zero)
        invariant Unmapped(old(M()), M(), root, v, k, if doFree then Unused else Loose)
        invariant SameBytes(M(), old(bytes), bytes)
      {
        ghost var m, b := M(), bytes;
        StillMappable(old(M()), m, root, v, k, doFree);
        UnmapOne(root, v + k, doFree);
        UnmappedOneMore(old(M()), m, M(), old(bytes), b, bytes, root, v, k, if doFree then Unused else Loose);
        k := k + 1;
      }
    }

    /** uvmdealloc: drop and free the pages above newsz. */
    method UvmDealloc(root: int, oldsz: nat, newsz: nat) returns (sz: int)
      requires Valid() && IsRoot(M(), root) && oldsz <= MAXVPN * PGSIZE
      requires forall x :: RoundUp(newsz) <= x < RoundUp(oldsz) ==> Mappable(M(), root, x, true)
      modifies `tables, `bytes, `freelist, `owner
      ensures sz == (if newsz >= oldsz then oldsz else newsz) && Valid()
      ensures newsz >= oldsz ==> unchanged(this)
      ensures newsz < oldsz ==>
        var k := RoundUp(oldsz) - RoundUp(newsz);
        && RangeSet(old(M()), M(), root, RoundUp(newsz), k, Zero)
        && Unmapped(old(M()), M(), root, RoundUp(newsz), k, Unused)
        && SameBytes(M(), old(bytes), bytes)
    {
      hide MemOk, BytesOk, FreeOk, Leaf, RangeSet, SameBytes, Unmapped, Mappable;
      if newsz >= oldsz {
        return oldsz;
      }
      var k := RoundUp(oldsz) - RoundUp(newsz);
      if RoundUp(newsz) < RoundUp(oldsz) {
        UvmUnmap(root, RoundUp(newsz), k, true);
      } else {
        NothingUnmapped(M(), bytes, root, RoundUp(newsz), Unused);
      }
      return newsz;
    }

    /** The failure path of uvmalloc: all pages taken so far go back. */
    method UndoAlloc(root: int, lo: nat, x: nat, ghost m: Mem, ghost b: map<int, Page>)
      requires Valid() && MemOk(m) && Taken(m, M(), root, lo, x) && lo <= x <= MAXVPN && SameBytes(m, b, bytes)
      requires IsRoot(m, root) && forall v :: lo <= v < x ==> !HasV(Leaf(m, root, v))
      modifies `tables, `bytes, `freelist, `owner
      ensures Valid() && Grew(m, M(), root) && SameBytes(m, b, bytes)
    {
      hide MemOk, BytesOk, FreeOk, Leaf, RangeSet, SameBytes, Unmapped, Mappable, HasV, Grew;
      ghost var n, b1 := M(), bytes;
      TakenMappable(m, n, root, lo, x);
      var sz := UvmDealloc(root, x * PGSIZE, lo * PGSIZE);
      if lo == x {
        NothingUnmapped(M(), bytes, root, lo, Unused);
      }
      Undone(m, n, M(), b, b1, bytes, root, lo, x);
    }

    /** A new page with the given contents, mapped at v, or nothing taken. */
    method NewPage(root: int, v: int, content: Page, perm: int) returns (ok: bool)
      requires Valid() && IsRoot(M(), root) && 0 <= v < MAXVPN && !HasV(Leaf(M(), root, v))
      requires |content| == PGSIZE && 0 <= perm < 1024 && IsLeaf(perm)
      modifies `tables, `bytes, `freelist, `owner
      ensures Valid() && SameBytes(old(M()), old(bytes), bytes)
      ensures ok ==> Taken(old(M()), M(), root, v, v + 1) && PageIs(M(), bytes, root, v, perm, content)
      ensures !ok ==> Grew(old(M()), M(), root)
      ensures ok <==> |old(freelist)| >= 1 + Missing(old(M()), root, v)
      ensures ok ==> |freelist| == |old(freelist)| - 1 - Missing(old(M()), root, v)
      ensures ok ==> OnlyPath(old(M()), M(), root, v) && Missing(M(), root, v) == 0
    {
      hide MemOk, BytesOk, FreeOk, Leaf, RangeSet, SameBytes, HasV, Grew, Taken, IsLeaf, SameViews, PageIs;
      hide OnlyPath, Missing;
      GrewNot(M(), root, bytes);
      ghost var m, b := M(), bytes;
      var mem := Kalloc();
      if mem == 0 {
        return false;
      }
      bytes := bytes[mem := content];
      ghost var n, b1 := M(), bytes;
      HeldPage(m, n, b, b1, root, v, mem, perm);
      SamePaths(m, n, root, v);
      ok := MapOne(root, v, mem, perm);
      if ok {
        PageTaken(m, n, M(), b, b1, bytes, root, v, mem, perm, content);
        OnlyPathTwice(m, n, M(), root, v);
      } else {
        PageHeld(m, n, M(), b, b1, bytes, root, mem);
        ghost var o, b2 := M(), bytes;
        Kfree(mem);
        PageGivenBack(m, n, o, M(), b, b2, bytes, root, mem);
      }
    }

    /** uvmalloc: zeroed pages from the end of oldsz up to newsz, or none at all. */
    method UvmAlloc(root: int, oldsz: nat, newsz: nat) returns (sz: int, ghost ok: bool)
      requires Valid() && IsRoot(M(), root) && newsz <= MAXVPN * PGSIZE
      requires forall v :: RoundUp(oldsz) <= v < RoundUp(newsz) ==> !HasV(Leaf(M(), root, v))
      modifies `tables, `bytes, `freelist, `owner
      ensures Valid() && SameBytes(old(M()), old(bytes), bytes)
      ensures newsz < oldsz ==> sz == oldsz && unchanged(this)
      ensures newsz >= oldsz && ok ==>
        sz == newsz && Taken(old(M()), M(), root, RoundUp(oldsz), RoundUp(newsz)) &&
        forall v :: RoundUp(oldsz) <= v < RoundUp(newsz) ==> PageIs(M(), bytes, root, v, RWXU, Zeros())
      ensures newsz >= oldsz && !ok ==> sz == 0 && Grew(old(M()), M(), root)
      ensures newsz >= oldsz ==> (ok <==> |old(freelist)| >= PagesNeeded(old(M()), root, RoundUp(oldsz), RoundUp(newsz)))
      ensures newsz >= oldsz && ok ==> |freelist| == |old(freelist)| - PagesNeeded(old(M()), root, RoundUp(oldsz), RoundUp(newsz))
    {
      hide MemOk, BytesOk, FreeOk, Leaf, SameBytes, HasV, Grew, Taken, PageIs;
      hide OnlyPath, Missing, MappedTo, TablesNeeded;
      GrewNot(M(), root, bytes);
      if newsz < oldsz {
        return oldsz, true;
      }
      var lo := RoundUp(oldsz);
      var x := lo;
      NothingTaken(M(), root, lo);
      MappedNone(M(), root, lo);
      NoneNeeded(M(), root, lo);
      while x * PGSIZE < newsz
        invariant lo <= x <= RoundUp(newsz) && Valid() && IsRoot(M(), root)
        invariant Taken(old(M()), M(), root, lo, x) && SameBytes(old(M()), old(bytes), bytes)
        invariant forall v :: lo <= v < x ==> PageIs(M(), bytes, root, v, RWXU, Zeros())
        invariant MappedTo(old(M()), M(), root, lo, x) && |freelist| == |old(freelist)| - PagesNeeded(old(M()), root, lo, x)
        decreases RoundUp(newsz) - x
      {
        ghost var m, b := M(), bytes;
        ghost var have := |freelist|;
        StillUnmapped(old(M()), m, root, lo, x);
        var mapped := NewPage(root, x, Zeros(), RWXU);
        if !mapped {
          TooFew(old(M()), m, root, lo, x, RoundUp(newsz), have - 1);
          TakenThenGrew(old(M()), m, M(), old(bytes), b, bytes, root, lo, x);
          UndoAlloc(root, lo, x, old(M()), old(bytes));
          return 0, false;
        }
        TakenMore(old(M()), m, M(), old(bytes), b, bytes, root, lo, x);
        NoNullTable(m);
        MappedNext(old(M()), m, M(), root, lo, x);
        forall v | lo <= v < x ensures PageIs(M(), bytes, root, v, RWXU, Zeros()) {
          StillIs(m, M(), b, bytes, root, v, RWXU, Zeros(), x);
        }
        x := x + 1;
      }
      return newsz, true;
    }

    /** uvmcopy: the child gets an equal image on pages of its own, or nothing. */
    method UvmCopy(parent: int, child: int, sz: nat) returns (ok: bool)
      requires Valid() && IsRoot(M(), parent) && IsRoot(M(), child) && parent != child && sz <= MAXVPN * PGSIZE
      requires forall v :: 0 <= v < RoundUp(sz) ==> FreshPage(M(), parent, v) && !HasV(Leaf(M(), child, v))
      modifies `tables, `bytes, `freelist, `owner
      ensures Valid() && SameBytes(old(M()), old(bytes), bytes)
      ensures ok ==> Taken(old(M()), M(), child, 0, RoundUp(sz))
      ensures ok ==> forall v :: 0 <= v < RoundUp(sz) ==> CopyOf(old(M()), old(bytes), M(), bytes, parent, child, v)
      ensures !ok ==> Grew(old(M()), M(), child)
      ensures ok <==> |old(freelist)| >= PagesNeeded(old(M()), child, 0, RoundUp(sz))
      ensures ok ==> |freelist| == |old(freelist)| - PagesNeeded(old(M()), child, 0, RoundUp(sz))
    {
      hide MemOk, BytesOk, FreeOk, Leaf, SameBytes, HasV, Grew, Taken, PageIs, IsLeaf, FreshPage, CopyOf, Flags;
      hide RangeSet, Unmapped, Mappable, OnlyPath, Missing, MappedTo, TablesNeeded;
      SameBytesSelf(M(), bytes);
      var i := 0;
      NothingTaken(M(), child, 0);
      MappedNone(M(), child, 0);
      NoneNeeded(M(), child, 0);
      while i * PGSIZE < sz
        invariant 0 <= i <= RoundUp(sz) && Valid() && IsRoot(M(), child) && IsRoot(M(), parent)
        invariant Taken(old(M()), M(), child, 0, i) && SameBytes(old(M()), old(bytes), bytes)
        invariant forall v :: 0 <= v < i ==> CopyOf(old(M()), old(bytes), M(), bytes, parent, child, v)
        invariant MappedTo(old(M()), M(), child, 0, i) && |freelist| == |old(freelist)| - PagesNeeded(old(M()), child, 0, i)
        decreases RoundUp(sz) - i
      {
        ghost var m, b := M(), bytes;
        StillUnmapped(old(M()), m, child, 0, i);
        ParentPage(old(M()), m, old(bytes), b, parent, child, i);
        var found, pt := Walk(parent, i, false);
        ParentEntry(m, parent, i);
        var e := tables[pt][I0(i)];
        ghost var have := |freelist|;
        var done := NewPage(child, i, bytes[Ppn(e)], Flags(e));
        if !done {
          TooFew(old(M()), m, child, 0, i, RoundUp(sz), have - 1);
          TakenThenGrew(old(M()), m, M(), old(bytes), b, bytes, child, 0, i);
          ghost var n, b1 := M(), bytes;
          TakenMappable(old(M()), n, child, 0, i);
          UvmUnmap(child, 0, i, true);
          Undone(old(M()), n, M(), old(bytes), b1, bytes, child, 0, i);
          return false;
        }
        TakenMore(old(M()), m, M(), old(bytes), b, bytes, child, 0, i);
        NoNullTable(m);
        MappedNext(old(M()), m, M(), child, 0, i);
        KeepsRoot(m, M(), child, i, parent);
        CopiedOne(old(M()), old(bytes), M(), bytes, parent, child, i);
        forall v | 0 <= v < i ensures CopyOf(old(M()), old(bytes), M(), bytes, parent, child, v) {
          StillCopy(old(M()), old(bytes), m, b, M(), bytes, parent, child, v, i);
        }
        i := i + 1;
      }
      return true;
    }

    /** freewalk: every table at or below p goes to the free list, exactly once; its
        panic, a leaf that is still mapped, cannot happen. */
    method FreeWalk(p: int, ghost r: int, ghost pos: Pos)
      requires FreeOk(M(), freelist) && BytesOk(M(), bytes) && SubOk(M(), p, r, pos)
      modifies `tables, `bytes, `freelist, `owner
      ensures FreeOk(M(), freelist) && FreedSub(old(M()), M(), r, pos) && SameBytes(M(), old(bytes), bytes)
      decreases if pos.Root? then 2 else if pos.Mid? then 1 else 0
    {
      hide FreeOk, BytesOk, SubOk, FreedSub, SameBytes, HasV, IsLeaf, Ppn, Earlier;
      ghost var m := M();
      SweptNone(m, p, r, pos);
      SameBytesSelf(m, bytes);
      var i := 0;
      while i < ENTRIES
        invariant 0 <= i <= ENTRIES && Swept(m, M(), p, r, pos, i)
        invariant FreeOk(M(), freelist) && BytesOk(M(), bytes) && SameBytes(M(), old(bytes), bytes)
      {
        var e := tables[p][i];
        ghost var n, b := M(), bytes;
        if e != 0 {
          BranchOk(m, n, p, r, pos, i);
        } else {
          EmptyBranch(m, n, p, r, pos, i);
          ZeroInvalid();
        }
        if HasV(e) && !IsLeaf(e) {
          var child := Ppn(e);
          FreeWalk(child, r, Under(pos, i));
          BranchFreed(m, n, M(), p, r, pos, i);
          StillHeld(n, M(), old(bytes), b, bytes, r, Under(pos, i));
          ghost var o := M();
          tables := tables[p := tables[p][i := 0]];
          SameOwners(o, M(), freelist, old(bytes), bytes);
        } else if HasV(e) {
          assert false;
        }
        i := i + 1;
      }
      ghost var n, b := M(), bytes;
      AllFreed(m, n, p, r, pos);
      StillTable(m, n, p, r, pos);
      Kfree(p);
      TableHeld(n, M(), old(bytes), b, bytes, p);
    }

    /** uvmfree: all pages of r below sz are mapped, and nothing above. */
    method UvmFree(root: int, sz: nat)
      requires Valid() && IsRoot(M(), root) && sz <= MAXVPN * PGSIZE
      requires forall v :: 0 <= v < MAXVPN ==>
        if v < RoundUp(sz) then FreshPage(M(), root, v) else Leaf(M(), root, v) == 0
      modifies `tables, `bytes, `freelist, `owner
      ensures Valid() && OtherViews(old(M()), M(), root) && SameBytes(M(), old(bytes), bytes)
      ensures GivenBack(old(M()), M(), root)
    {
      hide MemOk, BytesOk, FreeOk, Leaf, SameBytes, HasV, Ppn, RangeSet, Unmapped, FreshPage, Mappable;
      hide GivenBack, OtherViews, FreedSub, SubOk;
      ghost var m := M();
      NothingUnmapped(m, bytes, root, 0, Unused);
      if sz > 0 {
        AllMappable(m, root, RoundUp(sz));
        UvmUnmap(root, 0, RoundUp(sz), true);
      }
      ghost var n, b := M(), bytes;
      AllUnmapped(m, n, root, RoundUp(sz));
      WholeTree(n, root);
      FreeWalk(root, root, Root);
      TreeRemoved(n, M(), root);
      TreeGone(m, n, M(), old(bytes), b, bytes, root, RoundUp(sz));
    }

    /** proc_freepagetable: the trampoline and trapframe mappings go without their pages,
        then every page the process owns is freed, once. */
    method ProcFreePagetable(root: int, sz: nat)
      requires Valid() && IsRoot(M(), root) && RoundUp(sz) <= TRAPFRAME
      requires forall v :: 0 <= v < MAXVPN ==>
        if v < RoundUp(sz) then FreshPage(M(), root, v)
        else if v == TRAPFRAME || v == TRAMPOLINE then KernelPage(M(), root, v)
        else Leaf(M(), root, v) == 0
      modifies `tables, `bytes, `freelist, `owner
      ensures Valid() && OtherViews(old(M()), M(), root) && SameBytes(M(), old(bytes), bytes)
      ensures GivenBack(old(M()), M(), root)
    {
      hide MemOk, BytesOk, FreeOk, Leaf, SameBytes, HasV, Ppn, RangeSet, Unmapped, Mappable, FreshPage;
      hide GivenBack, OtherViews, KernelPage;
      ghost var m := M();
      KernelMappable(m, root, TRAMPOLINE);
      UvmUnmap(root, TRAMPOLINE, 1, false);
      ghost var n, b := M(), bytes;
      KernelUnmapped(m, n, old(bytes), b, root, TRAMPOLINE);
      assert KernelPage(n, root, TRAPFRAME) by {
        OtherKernelPage(m, n, root, TRAMPOLINE, TRAPFRAME);
      }
      KernelMappable(n, root, TRAPFRAME);
      UvmUnmap(root, TRAPFRAME, 1, false);
      ghost var o, b1 := M(), bytes;
      KernelUnmapped(n, o, b, b1, root, TRAPFRAME);
      ImageLeft(m, n, o, root, RoundUp(sz));
      UvmFree(root, sz);
      BothGone(m, n, o, M(), old(bytes), b, b1, bytes, root);
    }
  }
}
