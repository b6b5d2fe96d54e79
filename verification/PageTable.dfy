/** Sv39 page tables (kernel/vm.c) as a three-level tree of table pages, and who owns
    each page of physical memory. Addresses are page numbers: a virtual page number v is
    va / PGSIZE and a physical page number is pa / PGSIZE; page 0 is the null pointer. */
module PageTable {
  import opened Modular

  const PGSIZE: int := 4096
  const ENTRIES: int := 512
  const MAXVPN: int := 0x400_0000   // MAXVA / PGSIZE
  const TOP: int := 256             // MAXVA uses half of a root table

  // ---------------------------------------------------------------------
  // Page table entries

  predicate HasV(e: int) {
    e % 2 == 1
  }

  function Flags(e: int): int {
    e % 1024
  }

  /** PTE2PA, as a page number. */
  function Ppn(e: int): int {
    e / 1024
  }

  predicate HasU(e: int) {
    e / 16 % 2 == 1
  }

  /** One of R, W, X is set; without them an entry points to a lower table. */
  predicate IsLeaf(e: int) {
    e / 2 % 8 != 0
  }

  /** PA2PTE(pa) | perm | PTE_V. */
  function Encode(p: int, perm: int): int {
    p * 1024 + if perm % 2 == 1 then perm else perm + 1
  }

  const RX: int := 10     // PTE_R | PTE_X
  const RW: int := 6      // PTE_R | PTE_W
  const RWXU: int := 30   // PTE_R | PTE_W | PTE_X | PTE_U

  /** The flags, bit by bit: V, R, W, X and U are bits 0 to 4. */
  lemma FlagBits(v: int, r: int, w: int, x: int, u: int, rest: int)
    requires 0 <= v <= 1 && 0 <= r <= 1 && 0 <= w <= 1 && 0 <= x <= 1 && 0 <= u <= 1
    ensures var e := v + 2 * r + 4 * w + 8 * x + 16 * u + 32 * rest;
            && (HasV(e) <==> v == 1) && (HasU(e) <==> u == 1) && (IsLeaf(e) <==> r == 1 || w == 1 || x == 1)
    ensures RX == 2 + 8 && RW == 2 + 4 && RWXU == 2 + 4 + 8 + 16
  {
    var low := v + 2 * r + 4 * w + 8 * x;
    var e := low + 16 * (u + 2 * rest);
    assert e / 16 == u + 2 * rest;
    assert e / 2 == (r + 2 * w + 4 * x) + 8 * (u + 2 * rest);
  }

  lemma EncodeDecodes(p: int, perm: int)
    requires 0 <= perm < 1024
    ensures HasV(Encode(p, perm)) && Ppn(Encode(p, perm)) == p
    ensures Flags(Encode(p, perm)) == if HasV(perm) then perm else perm + 1
    ensures HasU(Encode(p, perm)) == HasU(perm) && IsLeaf(Encode(p, perm)) == IsLeaf(perm)
  {
    var f := if perm % 2 == 1 then perm else perm + 1;
    assert 0 <= f < 1024 && f / 2 == perm / 2 && f % 2 == 1;
    HighBits(p, f);
    assert f / 16 == perm / 16;
  }

  lemma HighBits(p: int, f: int)
    requires 0 <= f < 1024
    ensures (p * 1024 + f) / 1024 == p && (p * 1024 + f) % 1024 == f && (p * 1024 + f) % 2 == f % 2
    ensures (p * 1024 + f) / 2 % 8 == f / 2 % 8 && (p * 1024 + f) / 16 % 2 == f / 16 % 2
  {
    DivMod(p, 1024, f);
    ModAddMultiple(f, p * 512, 2);
    DivMod(p * 512 + f / 2, 2, f % 2);
    ModAddMultiple(f / 2, p * 64, 8);
    DivMod(p * 64 + f / 16, 16, f % 16);
    ModAddMultiple(f / 16, p * 32, 2);
  }

  lemma DivMod(q: int, m: int, r: int)
    requires 0 <= r < m
    ensures (q * m + r) / m == q && (q * m + r) % m == r
  {
    ModOf(q * m + r, q, m, r);
    var d := (q * m + r) / m;
    assert (d - q) * m == 0;
  }

  /** Whether an entry is a leaf shows in its flags. */
  lemma LeafByFlags(e: int)
    ensures IsLeaf(e) == IsLeaf(Flags(e)) && 0 <= Flags(e) < 1024
    ensures Flags(e) == 1 ==> !IsLeaf(e)
  {
    HighBits(e / 1024, e % 1024);
    assert e / 1024 * 1024 + e % 1024 == e;
  }

  // ---------------------------------------------------------------------
  // Virtual page numbers

  /** PX(level, va): the nine bits that index the table at each level. */
  function I2(v: int): int { v / 262144 % 512 }
  function I1(v: int): int { v / 512 % 512 }
  function I0(v: int): int { v % 512 }

  function Vpn(i2: int, i1: int, i0: int): int {
    (i2 * 512 + i1) * 512 + i0
  }

  lemma Split(v: int)
    requires 0 <= v < MAXVPN
    ensures Vpn(I2(v), I1(v), I0(v)) == v
    ensures 0 <= I2(v) < TOP && 0 <= I1(v) < ENTRIES && 0 <= I0(v) < ENTRIES
  {
    assert v / 262144 == v / 512 / 512;
  }

  lemma Joined(i2: int, i1: int, i0: int)
    requires 0 <= i2 < ENTRIES && 0 <= i1 < ENTRIES && 0 <= i0 < ENTRIES
    ensures I2(Vpn(i2, i1, i0)) == i2 && I1(Vpn(i2, i1, i0)) == i1 && I0(Vpn(i2, i1, i0)) == i0
    ensures 0 <= Vpn(i2, i1, i0) && (i2 < TOP ==> Vpn(i2, i1, i0) < MAXVPN)
  {
  }

  /** Two addresses below MAXVA use the same entry exactly when they are in one page. */
  lemma SameEntryIffSamePage(va: int, vb: int)
    requires 0 <= va < MAXVPN * PGSIZE && 0 <= vb < MAXVPN * PGSIZE
    ensures var a, b := va / PGSIZE, vb / PGSIZE;
            I2(a) == I2(b) && I1(a) == I1(b) && I0(a) == I0(b) <==> a == b
  {
    Split(va / PGSIZE);
    Split(vb / PGSIZE);
  }

  // ---------------------------------------------------------------------
  // Memory

  /** Where a table page hangs in the tree of its root. */
  datatype Pos = Root | Mid(i2: int) | Low(i2: int, i1: int)

  /** Each managed page: on the free list, in a tree, mapped in a process, used by the
      kernel itself, or just taken from the free list. */
  datatype Owner = Unused | Table(r: int, pos: Pos) | User(r: int, v: int) | Kernel | Loose

  datatype Mem = Mem(tables: map<int, seq<int>>, owner: map<int, Owner>)

  predicate IsTable(m: Mem, p: int) {
    p in m.tables && |m.tables[p]| == ENTRIES
  }

  predicate Owns(m: Mem, p: int, o: Owner) {
    p in m.owner && m.owner[p] == o
  }

  predicate IsRoot(m: Mem, r: int) {
    Owns(m, r, Table(r, Root))
  }

  /** The page an entry of table p leads to, 0 if there is none. */
  function Child(m: Mem, p: int, i: int): int {
    if IsTable(m, p) && 0 <= i < ENTRIES && HasV(m.tables[p][i]) then Ppn(m.tables[p][i]) else 0
  }

  function MidPage(m: Mem, r: int, i2: int): int {
    Child(m, r, i2)
  }

  function LowPage(m: Mem, r: int, i2: int, i1: int): int {
    Child(m, MidPage(m, r, i2), i1)
  }

  function EntryAt(m: Mem, p: int, i: int): int {
    if IsTable(m, p) && 0 <= i < ENTRIES then m.tables[p][i] else 0
  }

  /** The entry for page v in the address space r: what the hardware walk finds. */
  function Leaf(m: Mem, r: int, v: int): int {
    EntryAt(m, LowPage(m, r, I2(v), I1(v)), I0(v))
  }

  /** What a valid last-level entry may point at: for user code, at a page of its own. The
      kernel's entries may point anywhere; that of the trapframe does so even after freeproc
      has freed the page. */
  predicate TargetOk(m: Mem, r: int, v: int, e: int) {
    IsLeaf(e) && (HasU(e) ==> Owns(m, Ppn(e), User(r, v)))
  }

  predicate EntryOk(m: Mem, r: int, pos: Pos, i: int, e: int) {
    if !HasV(e) then e == 0
    else match pos
      case Root => Flags(e) == 1 && Owns(m, Ppn(e), Table(r, Mid(i)))
      case Mid(i2) => Flags(e) == 1 && Owns(m, Ppn(e), Table(r, Low(i2, i)))
      case Low(i2, i1) => TargetOk(m, r, Vpn(i2, i1, i), e)
  }

  predicate PosOk(m: Mem, r: int, pos: Pos, p: int) {
    match pos
    case Root => p == r
    case Mid(i2) => 0 <= i2 < TOP && MidPage(m, r, i2) == p
    case Low(i2, i1) => 0 <= i2 < TOP && 0 <= i1 < ENTRIES && LowPage(m, r, i2, i1) == p
  }

  predicate TablePageOk(m: Mem, p: int, r: int, pos: Pos) {
    && IsTable(m, p) && IsRoot(m, r) && PosOk(m, r, pos, p)
    && (forall i :: 0 <= i < ENTRIES ==> EntryOk(m, r, pos, i, m.tables[p][i]))
  }

  predicate UserPageOk(m: Mem, p: int, r: int, v: int) {
    && IsRoot(m, r) && 0 <= v < MAXVPN
    && HasV(Leaf(m, r, v)) && Ppn(Leaf(m, r, v)) == p
  }

  predicate PageOk(m: Mem, p: int)
    requires p in m.owner
  {
    && 0 < p && (p in m.tables <==> m.owner[p].Table?)
    && match m.owner[p]
       case Table(r, pos) => TablePageOk(m, p, r, pos)
       case User(r, v) => UserPageOk(m, p, r, v)
       case _ => true
  }

  /** Every page is used in one way only, and trees and owners agree. */
  ghost predicate MemOk(m: Mem) {
    && 0 !in m.owner
    && (forall p :: p in m.tables ==> p in m.owner)
    && (forall p :: p in m.owner ==> PageOk(m, p))
  }

  // ---------------------------------------------------------------------
  // Paths

  lemma RootPage(m: Mem, r: int)
    requires MemOk(m) && IsRoot(m, r)
    ensures 0 < r && TablePageOk(m, r, r, Root)
  {
    assert PageOk(m, r);
  }

  /** A walk passes through tables that know their place. */
  lemma PathOwners(m: Mem, r: int, i2: int, i1: int)
    requires MemOk(m) && IsRoot(m, r)
    ensures MidPage(m, r, i2) != 0 ==> Owns(m, MidPage(m, r, i2), Table(r, Mid(i2))) && 0 <= i2 < ENTRIES
    ensures LowPage(m, r, i2, i1) != 0 ==>
      && MidPage(m, r, i2) != 0 && 0 <= i1 < ENTRIES
      && Owns(m, LowPage(m, r, i2, i1), Table(r, Low(i2, i1)))
  {
    hide HasV, Flags, Ppn, TargetOk;
    RootPage(m, r);
    var mid := MidPage(m, r, i2);
    if mid != 0 {
      assert EntryOk(m, r, Root, i2, m.tables[r][i2]);
      assert PageOk(m, mid);
      if LowPage(m, r, i2, i1) != 0 {
        assert EntryOk(m, r, Mid(i2), i1, m.tables[mid][i1]);
      }
    }
  }

  /** A low table page is where it says. */
  lemma LowTable(m: Mem, p: int, r: int, i2: int, i1: int)
    requires MemOk(m) && Owns(m, p, Table(r, Low(i2, i1)))
    ensures IsTable(m, p) && IsRoot(m, r) && LowPage(m, r, i2, i1) == p && 0 < p
    ensures 0 <= i2 < TOP && 0 <= i1 < ENTRIES
  {
    assert PageOk(m, p);
  }

  // ---------------------------------------------------------------------
  // Writing a last-level entry

  /** A change of owner that concerns page v of r only. */
  ghost predicate Retag(m: Mem, owner': map<int, Owner>, r: int, v: int) {
    && owner'.Keys == m.owner.Keys
    && forall p :: p in m.owner ==>
         owner'[p] == m.owner[p] ||
         (m.owner[p] in {Loose, User(r, v)} && owner'[p] in {Loose, Unused, User(r, v)})
  }

  function SetLeaf(m: Mem, r: int, v: int, e: int, owner': map<int, Owner>): Mem
    requires IsTable(m, LowPage(m, r, I2(v), I1(v))) && 0 <= I0(v) < ENTRIES
  {
    var c := LowPage(m, r, I2(v), I1(v));
    Mem(m.tables[c := m.tables[c][I0(v) := e]], owner')
  }

  /** The situation of both uses of SetLeaf: there is a low table for v. */
  ghost predicate CanSet(m: Mem, r: int, v: int, owner': map<int, Owner>) {
    && MemOk(m) && IsRoot(m, r) && 0 <= v < MAXVPN
    && LowPage(m, r, I2(v), I1(v)) != 0
    && Retag(m, owner', r, v)
  }

  lemma SlotTable(m: Mem, r: int, v: int)
    requires MemOk(m) && IsRoot(m, r) && 0 <= v < MAXVPN && LowPage(m, r, I2(v), I1(v)) != 0
    ensures var c := LowPage(m, r, I2(v), I1(v));
            IsTable(m, c) && Owns(m, c, Table(r, Low(I2(v), I1(v)))) && 0 <= I0(v) < ENTRIES
    ensures Leaf(m, r, v) == m.tables[LowPage(m, r, I2(v), I1(v))][I0(v)]
  {
    hide I2, I1, I0, HasV, Ppn;
    Split(v);
    PathOwners(m, r, I2(v), I1(v));
    LowTable(m, LowPage(m, r, I2(v), I1(v)), r, I2(v), I1(v));
  }

  /** Upper tables stay, in every tree. */
  lemma SetLeafPaths(m: Mem, r: int, v: int, e: int, owner': map<int, Owner>, r': int, i2: int, i1: int)
    requires CanSet(m, r, v, owner') && IsRoot(m, r')
    requires IsTable(m, LowPage(m, r, I2(v), I1(v))) && 0 <= I0(v) < ENTRIES
    ensures var n := SetLeaf(m, r, v, e, owner');
            && IsRoot(n, r')
            && MidPage(n, r', i2) == MidPage(m, r', i2) && LowPage(n, r', i2, i1) == LowPage(m, r', i2, i1)
  {
    hide I2, I1, I0, HasV, Ppn, PageOk;
    SlotTable(m, r, v);
    RootPage(m, r');
    PathOwners(m, r', i2, i1);
  }

  /** Exactly the entry for v of r changes, in every address space. */
  lemma SetLeafView(m: Mem, r: int, v: int, e: int, owner': map<int, Owner>, r': int, v': int)
    requires CanSet(m, r, v, owner') && IsRoot(m, r') && 0 <= v' < MAXVPN
    requires IsTable(m, LowPage(m, r, I2(v), I1(v))) && 0 <= I0(v) < ENTRIES
    ensures Leaf(SetLeaf(m, r, v, e, owner'), r', v') == if r' == r && v' == v then e else Leaf(m, r', v')
  {
    hide I2, I1, I0, HasV, Ppn, PageOk, Vpn;
    SetLeafPaths(m, r, v, e, owner', r', I2(v'), I1(v'));
    SlotTable(m, r, v);
    Split(v);
    Split(v');
    PathOwners(m, r', I2(v'), I1(v'));
  }

  /** The new entry and the new owners fit together. */
  ghost predicate Fits(m: Mem, r: int, v: int, e: int, owner': map<int, Owner>) {
    && (if HasV(e) then TargetOk(Mem(m.tables, owner'), r, v, e) else e == 0)
    && forall p :: p in owner' && owner'[p] == User(r, v) ==> HasV(e) && Ppn(e) == p
  }

  lemma SetLeafEntry(m: Mem, r: int, v: int, e: int, owner': map<int, Owner>, p: int, r': int, pos: Pos, i: int)
    requires CanSet(m, r, v, owner') && Fits(m, r, v, e, owner') && Owns(m, p, Table(r', pos)) && 0 <= i < ENTRIES
    requires IsTable(m, LowPage(m, r, I2(v), I1(v))) && 0 <= I0(v) < ENTRIES && IsTable(m, p)
    ensures var n := SetLeaf(m, r, v, e, owner');
            IsTable(n, p) && EntryOk(n, r', pos, i, n.tables[p][i])
  {
    hide I2, I1, I0, HasV, Ppn, Vpn, IsLeaf, HasU, Flags;
    SlotTable(m, r, v);
    Split(v);
    assert PageOk(m, p);
    assert EntryOk(m, r', pos, i, m.tables[p][i]);
    if pos.Low? {
      LowTable(m, p, r', pos.i2, pos.i1);
      Joined(pos.i2, pos.i1, i);
    }
  }

  lemma SetLeafPage(m: Mem, r: int, v: int, e: int, owner': map<int, Owner>, p: int)
    requires CanSet(m, r, v, owner') && Fits(m, r, v, e, owner') && p in m.owner
    requires IsTable(m, LowPage(m, r, I2(v), I1(v))) && 0 <= I0(v) < ENTRIES
    ensures PageOk(SetLeaf(m, r, v, e, owner'), p)
  {
    hide I2, I1, I0, Vpn, EntryOk, MidPage, LowPage, Leaf;
    var n := SetLeaf(m, r, v, e, owner');
    assert PageOk(m, p);
    SlotTable(m, r, v);
    if m.owner[p].Table? {
      var r', pos := m.owner[p].r, m.owner[p].pos;
      var i2, i1 := if pos.Root? then 0 else pos.i2, if pos.Low? then pos.i1 else 0;
      SetLeafPaths(m, r, v, e, owner', r', i2, i1);
      forall i | 0 <= i < ENTRIES ensures IsTable(n, p) && EntryOk(n, r', pos, i, n.tables[p][i]) {
        SetLeafEntry(m, r, v, e, owner', p, r', pos, i);
      }
    } else if owner'[p].User? {
      var r', v' := owner'[p].r, owner'[p].v;
      assert IsRoot(m, r');
      SetLeafView(m, r, v, e, owner', r', v');
      SetLeafPaths(m, r, v, e, owner', r', 0, 0);
    }
  }

  lemma SetLeafOk(m: Mem, r: int, v: int, e: int, owner': map<int, Owner>)
    requires CanSet(m, r, v, owner') && Fits(m, r, v, e, owner')
    ensures IsTable(m, LowPage(m, r, I2(v), I1(v))) && 0 <= I0(v) < ENTRIES
    ensures MemOk(SetLeaf(m, r, v, e, owner'))
  {
    hide I2, I1, I0, PageOk, LowPage;
    SlotTable(m, r, v);
    forall p | p in owner' ensures PageOk(SetLeaf(m, r, v, e, owner'), p) {
      SetLeafPage(m, r, v, e, owner', p);
    }
  }

  // ---------------------------------------------------------------------
  // Adding a table

  function Under(pos: Pos, i: int): Pos {
    if pos.Root? then Mid(i) else if pos.Mid? then Low(pos.i2, i) else pos
  }

  function ZeroTable(): (z: seq<int>)
    ensures |z| == ENTRIES && forall i :: 0 <= i < ENTRIES ==> z[i] == 0
  {
    seq(ENTRIES, _ => 0)
  }

  /** walk's allocation: table page c goes into entry i of table p. */
  function AddTable(m: Mem, p: int, i: int, c: int, r: int, pos: Pos): Mem
    requires IsTable(m, p) && 0 <= i < ENTRIES
  {
    Mem(m.tables[p := m.tables[p][i := Encode(c, 0)]][c := ZeroTable()], m.owner[c := Table(r, Under(pos, i))])
  }

  ghost predicate CanAdd(m: Mem, p: int, i: int, c: int, r: int, pos: Pos) {
    && MemOk(m) && Owns(m, p, Table(r, pos)) && !pos.Low? && 0 <= i < (if pos.Root? then TOP else ENTRIES)
    && IsTable(m, p) && !HasV(m.tables[p][i]) && Owns(m, c, Loose)
  }

  /** The only change to the upper levels is the new table, below p. */
  lemma AddTablePaths(m: Mem, p: int, i: int, c: int, r: int, pos: Pos, r': int, i2: int, i1: int)
    requires CanAdd(m, p, i, c, r, pos) && IsRoot(m, r')
    ensures var n := AddTable(m, p, i, c, r, pos);
            && IsRoot(n, r') && c != 0 && c !in m.tables
            && MidPage(n, r', i2) == (if r' == r && pos == Root && i2 == i then c else MidPage(m, r', i2))
            && LowPage(n, r', i2, i1) == (if r' == r && pos == Mid(i2) && i1 == i then c else LowPage(m, r', i2, i1))
            && (r' == r && pos == Root && i2 == i ==> MidPage(m, r', i2) == 0)
            && (r' == r && pos == Mid(i2) && i1 == i ==> LowPage(m, r', i2, i1) == 0)
  {
    EncodeDecodes(c, 0);
    hide HasV, Ppn, Encode, Flags, HasU, IsLeaf;
    assert PageOk(m, p) && PageOk(m, c);
    RootPage(m, r');
    PathOwners(m, r', i2, i1);
  }

  lemma AddTableView(m: Mem, p: int, i: int, c: int, r: int, pos: Pos, r': int, v': int)
    requires CanAdd(m, p, i, c, r, pos) && IsRoot(m, r') && 0 <= v' < MAXVPN
    ensures Leaf(AddTable(m, p, i, c, r, pos), r', v') == Leaf(m, r', v')
  {
    hide I2, I1, I0, HasV, Ppn, Encode, Vpn, MidPage, LowPage;
    Split(v');
    AddTablePaths(m, p, i, c, r, pos, r', I2(v'), I1(v'));
    PathOwners(m, r', I2(v'), I1(v'));
    assert PageOk(m, c);
  }

  lemma AddTableEntry(m: Mem, p: int, i: int, c: int, r: int, pos: Pos, q: int, r': int, pos': Pos, j: int)
    requires CanAdd(m, p, i, c, r, pos) && Owns(m, q, Table(r', pos')) && IsTable(m, q) && 0 <= j < ENTRIES
    ensures var n := AddTable(m, p, i, c, r, pos);
            IsTable(n, q) && EntryOk(n, r', pos', j, n.tables[q][j])
  {
    EncodeDecodes(c, 0);
    hide HasV, Ppn, Encode, Vpn, IsLeaf, HasU, Flags;
    assert PageOk(m, q) && PageOk(m, c);
    assert EntryOk(m, r', pos', j, m.tables[q][j]);
  }

  lemma AddTablePage(m: Mem, p: int, i: int, c: int, r: int, pos: Pos, q: int)
    requires CanAdd(m, p, i, c, r, pos) && q in m.owner
    ensures PageOk(AddTable(m, p, i, c, r, pos), q)
  {
    hide I2, I1, I0, Vpn, EntryOk, MidPage, LowPage, Leaf, HasV, Ppn, Encode;
    var n := AddTable(m, p, i, c, r, pos);
    assert PageOk(m, q) && PageOk(m, p) && PageOk(m, c);
    if q == c {
      assert TablePageOk(m, p, r, pos);
      var i2, i1 := if pos.Root? then i else pos.i2, i;
      AddTablePaths(m, p, i, c, r, pos, r, i2, i1);
      forall j | 0 <= j < ENTRIES ensures EntryOk(n, r, Under(pos, i), j, n.tables[c][j]) {
        ZeroEntry(n, r, Under(pos, i), j);
      }
      assert pos.Mid? ==> 0 <= pos.i2 < TOP;
    } else if m.owner[q].Table? {
      var r', pos' := m.owner[q].r, m.owner[q].pos;
      var i2, i1 := if pos'.Root? then 0 else pos'.i2, if pos'.Low? then pos'.i1 else 0;
      AddTablePaths(m, p, i, c, r, pos, r', i2, i1);
      forall j | 0 <= j < ENTRIES ensures IsTable(n, q) && EntryOk(n, r', pos', j, n.tables[q][j]) {
        AddTableEntry(m, p, i, c, r, pos, q, r', pos', j);
      }
    } else if m.owner[q].User? {
      var r', v' := m.owner[q].r, m.owner[q].v;
      AddTableView(m, p, i, c, r, pos, r', v');
      AddTablePaths(m, p, i, c, r, pos, r', 0, 0);
    }
  }

  lemma ZeroEntry(m: Mem, r: int, pos: Pos, j: int)
    ensures EntryOk(m, r, pos, j, 0)
  {
  }

  lemma AddTableOk(m: Mem, p: int, i: int, c: int, r: int, pos: Pos)
    requires CanAdd(m, p, i, c, r, pos)
    ensures MemOk(AddTable(m, p, i, c, r, pos))
  {
    hide PageOk, Encode, HasV;
    var n := AddTable(m, p, i, c, r, pos);
    forall q | q in n.owner ensures PageOk(n, q) {
      AddTablePage(m, p, i, c, r, pos, q);
    }
  }

  // ---------------------------------------------------------------------
  // A new address space

  function AddRoot(m: Mem, p: int): Mem {
    Mem(m.tables[p := ZeroTable()], m.owner[p := Table(p, Root)])
  }

  lemma AddRootPaths(m: Mem, p: int, r: int, i2: int, i1: int)
    requires MemOk(m) && Owns(m, p, Loose) && IsRoot(m, r)
    ensures IsRoot(AddRoot(m, p), r)
    ensures MidPage(AddRoot(m, p), r, i2) == MidPage(m, r, i2) && LowPage(AddRoot(m, p), r, i2, i1) == LowPage(m, r, i2, i1)
  {
    hide HasV, Ppn, Flags;
    assert PageOk(m, p);
    RootPage(m, r);
    PathOwners(m, r, i2, i1);
  }

  lemma AddRootView(m: Mem, p: int, r: int, v: int)
    requires MemOk(m) && Owns(m, p, Loose) && IsRoot(m, r)
    ensures Leaf(AddRoot(m, p), r, v) == Leaf(m, r, v)
  {
    hide HasV, Ppn, Flags, I2, I1, I0, MidPage, LowPage;
    assert PageOk(m, p);
    AddRootPaths(m, p, r, I2(v), I1(v));
    PathOwners(m, r, I2(v), I1(v));
  }

  lemma AddRootPage(m: Mem, p: int, q: int)
    requires MemOk(m) && Owns(m, p, Loose) && q in m.owner
    ensures PageOk(AddRoot(m, p), q)
  {
    hide I2, I1, I0, Vpn, MidPage, LowPage, Leaf, HasV, Ppn, Flags, IsLeaf, HasU;
    var n := AddRoot(m, p);
    assert PageOk(m, q) && PageOk(m, p);
    if q == p {
      forall j | 0 <= j < ENTRIES ensures EntryOk(n, p, Root, j, n.tables[p][j]) {
        ZeroEntry(n, p, Root, j);
      }
    } else if m.owner[q].Table? {
      var r, pos := m.owner[q].r, m.owner[q].pos;
      AddRootPaths(m, p, r, if pos.Root? then 0 else pos.i2, if pos.Low? then pos.i1 else 0);
      forall j | 0 <= j < ENTRIES ensures EntryOk(n, r, pos, j, n.tables[q][j]) {
        assert EntryOk(m, r, pos, j, m.tables[q][j]);
      }
    } else if m.owner[q].User? {
      AddRootView(m, p, m.owner[q].r, m.owner[q].v);
      AddRootPaths(m, p, m.owner[q].r, 0, 0);
    }
  }

  /** An empty root table is an address space in which nothing is mapped. */
  lemma AddRootOk(m: Mem, p: int)
    requires MemOk(m) && Owns(m, p, Loose)
    ensures MemOk(AddRoot(m, p)) && IsRoot(AddRoot(m, p), p)
    ensures forall v :: Leaf(AddRoot(m, p), p, v) == 0
  {
    hide PageOk;
    var n := AddRoot(m, p);
    forall q | q in n.owner ensures PageOk(n, q) {
      AddRootPage(m, p, q);
    }
  }
}
