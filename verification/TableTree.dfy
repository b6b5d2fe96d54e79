/** Tearing down the tables of one address space (freewalk in kernel/vm.c): which table
    pages lie below a position, and what freeing them one by one leaves. */
module TableTree {
  import opened PageTable

  /** q is pos or lies below it. */
  predicate Sub(q: Pos, pos: Pos) {
    q == pos || pos == Root || (pos.Mid? && q.Low? && q.i2 == pos.i2)
  }

  predicate InSub(m: Mem, q: int, r: int, pos: Pos) {
    q in m.owner && m.owner[q].Table? && m.owner[q].r == r && Sub(m.owner[q].pos, pos)
  }

  /** Which entry of the table at pos leads towards q. */
  function Branch(q: Pos, pos: Pos): int {
    if pos.Root? && !q.Root? then q.i2 else if pos.Mid? && q.Low? then q.i1 else -1
  }

  /** In the branches 0 .. i - 1 of the table at pos. */
  predicate Earlier(m: Mem, q: int, r: int, pos: Pos, i: int) {
    InSub(m, q, r, pos) && m.owner[q].pos != pos && Branch(m.owner[q].pos, pos) < i
  }

  /** A table whose entries lead to its children, or to nothing. */
  predicate NodeEntry(m: Mem, r: int, pos: Pos, i: int, e: int) {
    if pos.Low? then e == 0
    else e == 0 || (HasV(e) && Flags(e) == 1 && Owns(m, Ppn(e), Table(r, Under(pos, i))))
  }

  predicate NodeOk(m: Mem, q: int, r: int, pos: Pos) {
    && IsTable(m, q)
    && forall i :: 0 <= i < ENTRIES ==> NodeEntry(m, r, pos, i, m.tables[q][i])
  }

  /** Where a table below p must be found. */
  predicate Found(m: Mem, q: int, at: Pos, p: int, pos: Pos) {
    && (at == pos ==> q == p)
    && (at != pos ==> 0 <= Branch(at, pos) < ENTRIES && q != 0)
    && (pos.Root? && at.Mid? ==> Child(m, p, at.i2) == q)
    && (pos.Root? && at.Low? ==> 0 <= at.i1 < ENTRIES && Child(m, Child(m, p, at.i2), at.i1) == q)
    && (pos.Mid? && at.Low? ==> Child(m, p, at.i1) == q)
  }

  /** The part of the tree of r below position pos, whose table is p: all tables are
      reachable from p, and no last-level entry is left. */
  ghost predicate SubOk(m: Mem, p: int, r: int, pos: Pos) {
    && 0 !in m.owner && 0 !in m.tables && Owns(m, p, Table(r, pos))
    && forall q :: InSub(m, q, r, pos) ==> NodeOk(m, q, r, m.owner[q].pos) && Found(m, q, m.owner[q].pos, p, pos)
  }

  /** All tables at or below pos are on the free list now; nothing else changed. */
  ghost predicate FreedSub(m: Mem, n: Mem, r: int, pos: Pos) {
    && n.owner.Keys == m.owner.Keys
    && (forall q :: q in m.owner ==> n.owner[q] == if InSub(m, q, r, pos) then Unused else m.owner[q])
    && (forall q :: q in n.tables <==> q in m.tables && !InSub(m, q, r, pos))
    && (forall q :: q in n.tables ==> n.tables[q] == m.tables[q])
  }

  /** The branches 0 .. i - 1 of p are gone and their entries cleared. */
  ghost predicate Swept(m: Mem, n: Mem, p: int, r: int, pos: Pos, i: nat) {
    && n.owner.Keys == m.owner.Keys
    && (forall q :: q in m.owner ==> n.owner[q] == if Earlier(m, q, r, pos, i) then Unused else m.owner[q])
    && (forall q :: q in n.tables <==> q in m.tables && !Earlier(m, q, r, pos, i))
    && (forall q :: q in n.tables && q != p ==> n.tables[q] == m.tables[q])
    && IsTable(n, p) && IsTable(m, p) && i <= ENTRIES
    && (forall j :: 0 <= j < ENTRIES ==> n.tables[p][j] == if j < i then 0 else m.tables[p][j])
  }

  lemma SweptNone(m: Mem, p: int, r: int, pos: Pos)
    requires SubOk(m, p, r, pos)
    ensures Swept(m, m, p, r, pos, 0)
  {
    assert InSub(m, p, r, pos);
    forall q | InSub(m, q, r, pos) ensures !Earlier(m, q, r, pos, 0) {
      assert Found(m, q, m.owner[q].pos, p, pos);
    }
  }

  /** The child in branch i is the root of what is left there. */
  lemma BranchOk(m: Mem, n: Mem, p: int, r: int, pos: Pos, i: nat)
    requires SubOk(m, p, r, pos) && Swept(m, n, p, r, pos, i) && i < ENTRIES && n.tables[p][i] != 0
    ensures !pos.Low? && HasV(n.tables[p][i]) && !IsLeaf(n.tables[p][i])
    ensures SubOk(n, Ppn(n.tables[p][i]), r, Under(pos, i))
  {
    hide HasV, Ppn, Flags, IsLeaf;
    assert InSub(m, p, r, pos);
    var e := n.tables[p][i];
    assert NodeEntry(m, r, pos, i, e);
    LeafByFlags(e);
    var c := Ppn(e);
    forall q | InSub(n, q, r, Under(pos, i))
      ensures NodeOk(n, q, r, n.owner[q].pos) && Found(n, q, n.owner[q].pos, c, Under(pos, i))
    {
      assert InSub(m, q, r, pos);
      BranchNode(m, n, p, r, pos, i, q);
    }
  }

  lemma BranchNode(m: Mem, n: Mem, p: int, r: int, pos: Pos, i: nat, q: int)
    requires SubOk(m, p, r, pos) && Swept(m, n, p, r, pos, i) && i < ENTRIES && n.tables[p][i] != 0 && !pos.Low?
    requires InSub(n, q, r, Under(pos, i)) && InSub(m, q, r, pos)
    ensures NodeOk(n, q, r, n.owner[q].pos) && Found(n, q, n.owner[q].pos, Ppn(n.tables[p][i]), Under(pos, i))
  {
    hide Ppn, Flags, IsLeaf;
    assert InSub(m, p, r, pos);
    assert NodeOk(m, q, r, m.owner[q].pos) && Found(m, q, m.owner[q].pos, p, pos);
    assert NodeEntry(m, r, pos, i, n.tables[p][i]);
    var at := m.owner[q].pos;
    forall j | 0 <= j < ENTRIES ensures NodeEntry(n, r, at, j, n.tables[q][j]) {
      assert NodeEntry(m, r, at, j, m.tables[q][j]);
    }
  }

  /** A cleared entry: nothing hangs there. */
  lemma EmptyBranch(m: Mem, n: Mem, p: int, r: int, pos: Pos, i: nat)
    requires SubOk(m, p, r, pos) && Swept(m, n, p, r, pos, i) && i < ENTRIES && n.tables[p][i] == 0
    ensures Swept(m, n, p, r, pos, i + 1)
  {
    hide Ppn, Flags, IsLeaf;
    forall q | InSub(m, q, r, pos) ensures Earlier(m, q, r, pos, i + 1) <==> Earlier(m, q, r, pos, i) {
      assert Found(m, q, m.owner[q].pos, p, pos);
    }
    forall q | q in m.owner ensures Earlier(m, q, r, pos, i + 1) <==> Earlier(m, q, r, pos, i) {
      assert Earlier(m, q, r, pos, i + 1) ==> InSub(m, q, r, pos);
    }
  }

  /** Branch i is freed and its entry cleared. */
  lemma BranchFreed(m: Mem, n: Mem, o: Mem, p: int, r: int, pos: Pos, i: nat)
    requires SubOk(m, p, r, pos) && !pos.Low? && Swept(m, n, p, r, pos, i) && i < ENTRIES && FreedSub(n, o, r, Under(pos, i))
    ensures IsTable(o, p)
    ensures Swept(m, o.(tables := o.tables[p := o.tables[p][i := 0]]), p, r, pos, i + 1)
  {
    hide HasV, Ppn, Flags, IsLeaf, NodeOk;
    assert InSub(m, p, r, pos) && !InSub(n, p, r, Under(pos, i));
    forall q | q in m.owner
      ensures Earlier(m, q, r, pos, i + 1) <==> Earlier(m, q, r, pos, i) || InSub(n, q, r, Under(pos, i))
    {
      BranchMembers(m, n, p, r, pos, i, q);
    }
  }

  lemma BranchMembers(m: Mem, n: Mem, p: int, r: int, pos: Pos, i: nat, q: int)
    requires SubOk(m, p, r, pos) && !pos.Low? && Swept(m, n, p, r, pos, i) && i < ENTRIES && q in m.owner
    ensures Earlier(m, q, r, pos, i + 1) <==> Earlier(m, q, r, pos, i) || InSub(n, q, r, Under(pos, i))
  {
    if InSub(m, q, r, pos) {
      assert Found(m, q, m.owner[q].pos, p, pos);
    }
  }

  /** All branches gone, the table itself goes last. */
  lemma AllFreed(m: Mem, n: Mem, p: int, r: int, pos: Pos)
    requires SubOk(m, p, r, pos) && Swept(m, n, p, r, pos, ENTRIES)
    ensures FreedSub(m, Mem(n.tables - {p}, n.owner[p := Unused]), r, pos)
  {
    forall q | q in m.owner ensures InSub(m, q, r, pos) <==> Earlier(m, q, r, pos, ENTRIES) || q == p {
      if InSub(m, q, r, pos) {
        assert Found(m, q, m.owner[q].pos, p, pos);
      }
    }
  }

  // ---------------------------------------------------------------------
  // Whole address spaces

  /** No page of r is mapped. */
  ghost predicate NoLeaves(m: Mem, r: int) {
    forall v :: 0 <= v < MAXVPN ==> Leaf(m, r, v) == 0
  }

  /** All other address spaces translate as before. */
  ghost predicate OtherViews(m: Mem, n: Mem, r: int) {
    && (forall r' :: r' != r && IsRoot(m, r') ==> IsRoot(n, r'))
    && (forall r', v {:trigger Leaf(n, r', v)} :: r' != r && IsRoot(m, r') && 0 <= v < MAXVPN ==>
          Leaf(n, r', v) == Leaf(m, r', v))
  }

  lemma WholeTree(m: Mem, r: int)
    requires MemOk(m) && IsRoot(m, r) && NoLeaves(m, r)
    ensures SubOk(m, r, r, Root)
  {
    hide Leaf, MidPage, LowPage, I2, I1, I0, Vpn;
    forall q | InSub(m, q, r, Root) ensures NodeOk(m, q, r, m.owner[q].pos) && Found(m, q, m.owner[q].pos, r, Root) {
      WholeTreeNode(m, r, q);
    }
    assert 0 !in m.tables;
  }

  lemma WholeTreeNode(m: Mem, r: int, q: int)
    requires MemOk(m) && IsRoot(m, r) && NoLeaves(m, r) && InSub(m, q, r, Root)
    ensures NodeOk(m, q, r, m.owner[q].pos) && Found(m, q, m.owner[q].pos, r, Root)
  {
    hide I2, I1, I0, Vpn, IsLeaf, HasU;
    assert PageOk(m, q);
    var at := m.owner[q].pos;
    forall i | 0 <= i < ENTRIES ensures NodeEntry(m, r, at, i, m.tables[q][i]) {
      assert EntryOk(m, r, at, i, m.tables[q][i]);
      if at.Low? {
        LowTable(m, q, r, at.i2, at.i1);
        Joined(at.i2, at.i1, i);
        assert Leaf(m, r, Vpn(at.i2, at.i1, i)) == m.tables[q][i];
      }
    }
  }

  /** Removing the tree of r leaves a sound memory and all other address spaces. */
  lemma TreeRemoved(m: Mem, n: Mem, r: int)
    requires MemOk(m) && IsRoot(m, r) && NoLeaves(m, r) && FreedSub(m, n, r, Root)
    ensures MemOk(n) && OtherViews(m, n, r)
  {
    hide Leaf, PageOk;
    forall q | q in n.owner ensures PageOk(n, q) {
      RemovedPage(m, n, r, q);
    }
    forall r' | r' != r && IsRoot(m, r') ensures IsRoot(n, r') {
      RemovedPaths(m, n, r, r', 0, 0);
    }
    forall r', v | r' != r && IsRoot(m, r') && 0 <= v < MAXVPN ensures Leaf(n, r', v) == Leaf(m, r', v) {
      RemovedLeaf(m, n, r, r', v);
    }
  }

  lemma RemovedPaths(m: Mem, n: Mem, r: int, r': int, i2: int, i1: int)
    requires MemOk(m) && FreedSub(m, n, r, Root) && r' != r && IsRoot(m, r')
    ensures IsRoot(n, r') && MidPage(n, r', i2) == MidPage(m, r', i2) && LowPage(n, r', i2, i1) == LowPage(m, r', i2, i1)
  {
    hide HasV, Ppn, Flags, IsLeaf, HasU;
    RootPage(m, r');
    PathOwners(m, r', i2, i1);
  }

  lemma RemovedLeaf(m: Mem, n: Mem, r: int, r': int, v: int)
    requires MemOk(m) && FreedSub(m, n, r, Root) && r' != r && IsRoot(m, r')
    ensures Leaf(n, r', v) == Leaf(m, r', v)
  {
    hide HasV, Ppn, Flags, IsLeaf, HasU, I2, I1, I0, MidPage, LowPage;
    RemovedPaths(m, n, r, r', I2(v), I1(v));
    PathOwners(m, r', I2(v), I1(v));
  }

  lemma RemovedPage(m: Mem, n: Mem, r: int, q: int)
    requires MemOk(m) && IsRoot(m, r) && NoLeaves(m, r) && FreedSub(m, n, r, Root) && q in n.owner
    ensures PageOk(n, q)
  {
    hide HasV, Ppn, Flags, IsLeaf, HasU, Leaf, MidPage, LowPage, Vpn;
    assert PageOk(m, q);
    if n.owner[q].Table? {
      var r', pos := m.owner[q].r, m.owner[q].pos;
      RemovedPaths(m, n, r, r', if pos.Root? then 0 else pos.i2, if pos.Low? then pos.i1 else 0);
      forall i | 0 <= i < ENTRIES ensures EntryOk(n, r', pos, i, n.tables[q][i]) {
        assert EntryOk(m, r', pos, i, m.tables[q][i]);
      }
    } else if n.owner[q].User? {
      var r', v := m.owner[q].r, m.owner[q].v;
      ZeroInvalid();
      assert r' != r;
      RemovedLeaf(m, n, r, r', v);
      RemovedPaths(m, n, r, r', 0, 0);
    }
  }

  lemma ZeroInvalid()
    ensures !HasV(0)
  {
  }
}
