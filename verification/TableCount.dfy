/** How many page tables walk has to add (kernel/vm.c), and so how many free pages it takes
    to map a range of pages. */
module TableCount {
  import opened PageTable

  /** How many tables are missing on the way to page v of r. */
  function Missing(m: Mem, r: int, v: int): nat {
    if MidPage(m, r, I2(v)) == 0 then 2 else if LowPage(m, r, I2(v), I1(v)) == 0 then 1 else 0
  }

  /** How many page w lacks after pages lo .. x - 1 were mapped, if it lacked k before: a
      last-level table covers 512 pages, the one above it 512 * 512. */
  function Lacks(k: nat, lo: int, x: int, w: int): nat {
    if lo < x && w / 512 == (x - 1) / 512 then 0
    else if lo < x && w / 262144 == (x - 1) / 262144 && k == 2 then 1
    else k
  }

  /** How many tables mapping pages lo .. hi - 1 of r in turn adds. */
  function TablesNeeded(m: Mem, r: int, lo: int, hi: int): nat
    decreases hi - lo
  {
    if hi <= lo then 0
    else TablesNeeded(m, r, lo, hi - 1) + Lacks(Missing(m, r, hi - 1), lo, hi - 1, hi - 1)
  }

  lemma {:induction false} NeededMore(m: Mem, r: int, lo: int, mid: int, hi: int)
    requires lo <= mid <= hi
    ensures TablesNeeded(m, r, lo, mid) <= TablesNeeded(m, r, lo, hi)
    decreases hi - mid
  {
    if mid < hi {
      NeededMore(m, r, lo, mid, hi - 1);
    }
  }

  /** In the tree of r, only tables on the way to page v are new. */
  ghost predicate OnlyPath(m: Mem, n: Mem, r: int, v: int) {
    && (forall i2 {:trigger MidPage(n, r, i2)} ::
          MidPage(n, r, i2) == MidPage(m, r, i2) || (i2 == I2(v) && MidPage(m, r, i2) == 0))
    && (forall i2, i1 {:trigger LowPage(n, r, i2, i1)} ::
          LowPage(n, r, i2, i1) == LowPage(m, r, i2, i1) || (i2 == I2(v) && i1 == I1(v) && LowPage(m, r, i2, i1) == 0))
  }

  lemma SamePaths(m: Mem, n: Mem, r: int, v: int)
    requires n.tables == m.tables
    ensures OnlyPath(m, n, r, v) && Missing(n, r, v) == Missing(m, r, v)
  {
  }

  lemma OnlyPathTwice(m: Mem, n: Mem, o: Mem, r: int, v: int)
    requires OnlyPath(m, n, r, v) && OnlyPath(n, o, r, v)
    ensures OnlyPath(m, o, r, v)
  {
    hide MidPage, LowPage, I2, I1;
    forall i2 ensures MidPage(o, r, i2) == MidPage(m, r, i2) || (i2 == I2(v) && MidPage(m, r, i2) == 0) {
      var there := MidPage(n, r, i2);
    }
    forall i2, i1
      ensures LowPage(o, r, i2, i1) == LowPage(m, r, i2, i1) || (i2 == I2(v) && i1 == I1(v) && LowPage(m, r, i2, i1) == 0)
    {
      var there := LowPage(n, r, i2, i1);
    }
  }

  /** One new table on the way to v: one less is missing. */
  lemma OneTable(m: Mem, p: int, i: int, c: int, r: int, pos: Pos, v: int)
    requires CanAdd(m, p, i, c, r, pos) && IsRoot(m, r)
    requires (pos == Root && i == I2(v)) || (pos == Mid(I2(v)) && i == I1(v))
    ensures var n := AddTable(m, p, i, c, r, pos);
            OnlyPath(m, n, r, v) && Missing(n, r, v) == Missing(m, r, v) - 1
  {
    hide I2, I1, Encode, MidPage, LowPage, Ppn, HasV;
    var n := AddTable(m, p, i, c, r, pos);
    forall i2 ensures MidPage(n, r, i2) == MidPage(m, r, i2) || (i2 == I2(v) && MidPage(m, r, i2) == 0) {
      AddTablePaths(m, p, i, c, r, pos, r, i2, 0);
    }
    forall i2, i1
      ensures LowPage(n, r, i2, i1) == LowPage(m, r, i2, i1) || (i2 == I2(v) && i1 == I1(v) && LowPage(m, r, i2, i1) == 0)
    {
      AddTablePaths(m, p, i, c, r, pos, r, i2, i1);
    }
    AddTablePaths(m, p, i, c, r, pos, r, I2(v), I1(v));
    PathOwners(m, r, I2(v), I1(v));
    assert PageOk(m, p);
  }

  /** Where page w stands once there are tables for v. */
  lemma MissingAfter(m: Mem, n: Mem, r: int, v: int, w: int)
    requires OnlyPath(m, n, r, v) && Missing(n, r, v) == 0 && 0 !in m.tables && 0 <= v < MAXVPN && 0 <= w < MAXVPN
    ensures Missing(n, r, w) == Lacks(Missing(m, r, w), v, v + 1, w)
  {
    assert MidPage(m, r, I2(w)) == 0 ==> LowPage(m, r, I2(w), I1(w)) == 0;
    hide MidPage, LowPage;
    SameTableIff(v, w);
    var there := LowPage(n, r, I2(w), I1(w));
  }

  lemma SameTableIff(v: int, w: int)
    requires 0 <= v < MAXVPN && 0 <= w < MAXVPN
    ensures I2(v) == I2(w) <==> v / 262144 == w / 262144
    ensures I2(v) == I2(w) && I1(v) == I1(w) <==> v / 512 == w / 512
  {
    TableOf(v);
    TableOf(w);
    hide I2, I1;
  }

  lemma TableOf(v: int)
    requires 0 <= v < MAXVPN
    ensures I2(v) == v / 262144 && v / 512 == 512 * I2(v) + I1(v) && 0 <= I1(v) < 512
  {
    assert v / 262144 == v / 512 / 512;
  }

  /** Pages lo .. x - 1 of r have been mapped since m: what all later pages lack. */
  ghost predicate MappedTo(m: Mem, n: Mem, r: int, lo: int, x: int) {
    forall w {:trigger Missing(n, r, w)} :: x <= w < MAXVPN ==> Missing(n, r, w) == Lacks(Missing(m, r, w), lo, x, w)
  }

  lemma MappedNone(m: Mem, r: int, lo: int)
    ensures MappedTo(m, m, r, lo, lo)
  {
    hide Missing;
  }

  lemma MappedNext(m: Mem, n: Mem, o: Mem, r: int, lo: int, x: int)
    requires MappedTo(m, n, r, lo, x) && 0 <= lo <= x < MAXVPN
    requires OnlyPath(n, o, r, x) && Missing(o, r, x) == 0 && 0 !in n.tables
    ensures MappedTo(m, o, r, lo, x + 1)
    ensures TablesNeeded(m, r, lo, x + 1) == TablesNeeded(m, r, lo, x) + Missing(n, r, x)
  {
    hide Missing, OnlyPath;
    forall w | x + 1 <= w < MAXVPN ensures Missing(o, r, w) == Lacks(Missing(m, r, w), lo, x + 1, w) {
      MissingAfter(n, o, r, x, w);
      assert Missing(n, r, w) == Lacks(Missing(m, r, w), lo, x, w);
    }
  }

  /** The step that fails is one that the whole range needs. */
  lemma TooFew(m: Mem, n: Mem, r: int, lo: int, x: int, hi: int, have: int)
    requires MappedTo(m, n, r, lo, x) && 0 <= lo <= x < hi && x < MAXVPN && have < Missing(n, r, x)
    ensures have + TablesNeeded(m, r, lo, x) < TablesNeeded(m, r, lo, hi)
  {
    hide Missing;
    NeededMore(m, r, lo, x + 1, hi);
  }
}
