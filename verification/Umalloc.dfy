/** The Kernighan and Ritchie allocator (user/umalloc.c): a circular free list in
    ascending address order, with coalescing. Addresses and sizes count Header units;
    0 is the null pointer. */
module Umalloc {

  const HEADER_BYTES: int := 16   // sizeof(Header)
  const MIN_GROW: int := 4096     // least number of units morecore asks for
  const INT_MAX: int := 0x7fff_ffff

  /** Outcome of the sbrk system call. */
  datatype Sbrk = Fails | At(addr: int)

  /** nunits in malloc: the payload rounded up, plus the header. */
  function Units(nbytes: nat): int {
    (nbytes + HEADER_BYTES - 1) / HEADER_BYTES + 1
  }

  /** What morecore asks for when nunits are needed. */
  function Grow(nunits: int): (n: nat)
    ensures nunits <= n
  {
    if nunits < MIN_GROW then MIN_GROW else nunits
  }

  /** It is the least number of units that hold nbytes and a header. */
  lemma UnitsLeast(nbytes: nat, n: int)
    ensures n >= Units(nbytes) <==> n >= 1 && nbytes <= (n - 1) * HEADER_BYTES
  {
  }

  // ---------------------------------------------------------------------
  // The free list

  /** `ring` lists the headers of the free list in address order, from base: they
      ascend, and no two free blocks touch. */
  ghost predicate RingOk(base: int, ring: seq<int>, sz: map<int, int>) {
    && |ring| >= 1 && ring[0] == base
    && (forall i :: 0 <= i < |ring| ==> ring[i] in sz && sz[ring[i]] >= 0)
    && sz[base] == 0
    && (forall i :: 1 <= i < |ring| ==> sz[ring[i]] >= 1)
    && (forall i :: 0 <= i < |ring| - 1 ==> Separate(ring, sz, i))
  }

  ghost predicate Separate(ring: seq<int>, sz: map<int, int>, i: nat)
    requires i < |ring| - 1 && ring[i] in sz
  {
    ring[i] + sz[ring[i]] < ring[i + 1]
  }

  /** The pointers follow the list and lead from its end back to its start. */
  ghost predicate Linked(ring: seq<int>, ptr: map<int, int>) {
    && (forall i :: 0 <= i < |ring| ==> ring[i] in ptr)
    && (forall i {:trigger Next(ring, i)} :: 0 <= i < |ring| ==> ptr[ring[i]] == Next(ring, i))
  }

  function Next(ring: seq<int>, i: nat): int
    requires i < |ring|
  {
    if i + 1 < |ring| then ring[i + 1] else ring[0]
  }

  lemma {:induction false} Ascending(base: int, ring: seq<int>, sz: map<int, int>, i: nat, j: nat)
    requires RingOk(base, ring, sz) && i < j < |ring|
    ensures ring[i] + sz[ring[i]] < ring[j] && ring[i] < ring[j]
    decreases j
  {
    assert Separate(ring, sz, j - 1);
    if i < j - 1 {
      Ascending(base, ring, sz, i, j - 1);
    }
  }

  // ---------------------------------------------------------------------
  // The division of memory into blocks

  /** `owner` maps every unit obtained from sbrk to the block it lies in. Each unit
      of each block is owned by that block, so the blocks are disjoint and together
      make up all the memory. */
  ghost predicate TilesOk(blocks: set<int>, sz: map<int, int>, owner: map<int, int>) {
    && (forall b :: b in blocks ==> b in sz && sz[b] >= 0)
    && (forall x :: x in owner ==> owner[x] in blocks && owner[x] <= x < owner[x] + sz[owner[x]])
    && (forall b, x :: b in blocks && b <= x < b + sz[b] ==> x in owner && owner[x] == b)
  }

  lemma BlocksDisjoint(blocks: set<int>, sz: map<int, int>, owner: map<int, int>, a: int, b: int)
    requires TilesOk(blocks, sz, owner) && a in blocks && b in blocks && a < b && sz[b] >= 1
    ensures a + sz[a] <= b
  {
    assert b <= b < b + sz[b];
    assert owner[b] == b;
  }

  /** Giving the units of block `from` to block `to`. */
  function Moved(owner: map<int, int>, from: int, to: int): map<int, int> {
    map x | x in owner :: if owner[x] == from then to else owner[x]
  }

  lemma MovedKeys(owner: map<int, int>, from: int, to: int)
    ensures Moved(owner, from, to).Keys == owner.Keys
  {
  }

  lemma MergeUnit(blocks: set<int>, sz: map<int, int>, owner: map<int, int>, a: int, b: int, x: int)
    requires TilesOk(blocks, sz, owner) && a in blocks && b in blocks && a != b && a + sz[a] == b && x in owner
    ensures var o, sz' := Moved(owner, b, a)[x], sz[a := sz[a] + sz[b]];
            o in blocks - {b} && o <= x < o + sz'[o]
  {
  }

  lemma MergeBlock(blocks: set<int>, sz: map<int, int>, owner: map<int, int>, a: int, b: int, c: int, x: int)
    requires TilesOk(blocks, sz, owner) && a in blocks && b in blocks && a != b && a + sz[a] == b
    requires c in blocks - {b} && c <= x < c + sz[a := sz[a] + sz[b]][c]
    ensures x in Moved(owner, b, a) && Moved(owner, b, a)[x] == c
  {
    var was := if c == a && b <= x then b else c;
    assert was in blocks && was <= x < was + sz[was];
  }

  lemma MergeTiles(blocks: set<int>, sz: map<int, int>, owner: map<int, int>, a: int, b: int)
    requires TilesOk(blocks, sz, owner) && a in blocks && b in blocks && a != b && a + sz[a] == b
    ensures TilesOk(blocks - {b}, sz[a := sz[a] + sz[b]], Moved(owner, b, a))
  {
    hide TilesOk, Moved;
    TileSizes(blocks, sz, owner);
    MovedKeys(owner, b, a);
    var blocks', sz', owner' := blocks - {b}, sz[a := sz[a] + sz[b]], Moved(owner, b, a);
    forall x | x in owner' ensures owner'[x] in blocks' && owner'[x] <= x < owner'[x] + sz'[owner'[x]] {
      MergeUnit(blocks, sz, owner, a, b, x);
    }
    forall c, x | c in blocks' && c <= x < c + sz'[c] ensures x in owner' && owner'[x] == c {
      MergeBlock(blocks, sz, owner, a, b, c, x);
    }
    TilesFrom(blocks', sz', owner');
  }

  /** Cutting the last n units off block p makes them a block of their own. */
  function Cut(owner: map<int, int>, p: int, q: int): map<int, int> {
    map x | x in owner :: if owner[x] == p && q <= x then q else owner[x]
  }

  lemma NoBlockAt(blocks: set<int>, sz: map<int, int>, owner: map<int, int>, p: int, n: int)
    requires TilesOk(blocks, sz, owner) && p in blocks && 1 <= n < sz[p]
    requires forall b :: b in blocks && p < b ==> sz[b] >= 1
    ensures p + sz[p] - n !in blocks
  {
    assert owner[p + sz[p] - n] == p;
  }

  lemma CutUnit(blocks: set<int>, sz: map<int, int>, owner: map<int, int>, p: int, n: int, x: int)
    requires TilesOk(blocks, sz, owner) && p in blocks && 1 <= n < sz[p] && p + sz[p] - n !in blocks
    requires x in owner
    ensures var q := p + sz[p] - n;
            var o, sz' := Cut(owner, p, q)[x], sz[p := sz[p] - n][q := n];
            o in blocks + {q} && o <= x < o + sz'[o]
  {
  }

  lemma CutBlock(blocks: set<int>, sz: map<int, int>, owner: map<int, int>, p: int, n: int, c: int, x: int)
    requires TilesOk(blocks, sz, owner) && p in blocks && 1 <= n < sz[p] && p + sz[p] - n !in blocks
    requires var q := p + sz[p] - n;
             c in blocks + {q} && c <= x < c + sz[p := sz[p] - n][q := n][c]
    ensures var q := p + sz[p] - n;
            x in Cut(owner, p, q) && Cut(owner, p, q)[x] == c
  {
    var was := if c == p + sz[p] - n then p else c;
    assert was in blocks && was <= x < was + sz[was];
  }

  lemma TilesFrom(blocks: set<int>, sz: map<int, int>, owner: map<int, int>)
    requires forall b :: b in blocks ==> b in sz && sz[b] >= 0
    requires forall x :: x in owner ==> owner[x] in blocks && owner[x] <= x < owner[x] + sz[owner[x]]
    requires forall b, x :: b in blocks && b <= x < b + sz[b] ==> x in owner && owner[x] == b
    ensures TilesOk(blocks, sz, owner)
  {
  }

  lemma TileSizes(blocks: set<int>, sz: map<int, int>, owner: map<int, int>)
    requires TilesOk(blocks, sz, owner)
    ensures forall b :: b in blocks ==> b in sz && sz[b] >= 0
  {
  }

  lemma SplitTiles(blocks: set<int>, sz: map<int, int>, owner: map<int, int>, p: int, n: int)
    requires TilesOk(blocks, sz, owner) && p in blocks && 1 <= n < sz[p]
    requires forall b :: b in blocks && p < b ==> sz[b] >= 1
    ensures var q := p + sz[p] - n;
            q !in blocks && TilesOk(blocks + {q}, sz[p := sz[p] - n][q := n], Cut(owner, p, q))
  {
    hide TilesOk, Cut;
    TileSizes(blocks, sz, owner);
    NoBlockAt(blocks, sz, owner, p, n);
    var q := p + sz[p] - n;
    var blocks', sz', owner' := blocks + {q}, sz[p := sz[p] - n][q := n], Cut(owner, p, q);
    CutKeys(owner, p, q);
    forall x | x in owner' ensures owner'[x] in blocks' && owner'[x] <= x < owner'[x] + sz'[owner'[x]] {
      CutUnit(blocks, sz, owner, p, n, x);
    }
    forall c, x | c in blocks' && c <= x < c + sz'[c] ensures x in owner' && owner'[x] == c {
      CutBlock(blocks, sz, owner, p, n, c, x);
    }
    TilesFrom(blocks', sz', owner');
  }

  lemma CutKeys(owner: map<int, int>, p: int, q: int)
    ensures Cut(owner, p, q).Keys == owner.Keys
  {
  }

  // ---------------------------------------------------------------------
  // free

  /** Where bp belongs in the list: after the k-th header. */
  ghost predicate Position(ring: seq<int>, bp: int, k: nat) {
    && k < |ring|
    && ring[k] < bp
    && (k + 1 < |ring| ==> bp < ring[k + 1])
  }

  lemma {:induction false} FindPosition(ring: seq<int>, bp: int, n: nat) returns (k: nat)
    requires 1 <= n <= |ring| && ring[0] < bp && bp !in ring
    requires n < |ring| ==> bp < ring[n]
    ensures Position(ring, bp, k)
  {
    if ring[n - 1] < bp {
      k := n - 1;
    } else {
      assert ring[n - 1] in ring;
      k := FindPosition(ring, bp, n - 1);
    }
  }

  /** The test of the loop in free succeeds exactly at the position of bp. */
  lemma LoopTest(base: int, ring: seq<int>, sz: map<int, int>, ptr: map<int, int>, bp: int, k: nat, i: nat)
    requires RingOk(base, ring, sz) && Linked(ring, ptr) && Position(ring, bp, k) && i < |ring|
    ensures var p := ring[i];
            (bp > p && bp < ptr[p]) || (p >= ptr[p] && (bp > p || bp < ptr[p])) <==> i == k
  {
    assert ptr[ring[i]] == Next(ring, i);
    if i < k {
      Ascending(base, ring, sz, i, k);
      assert Separate(ring, sz, i);
      if i + 1 < k {
        Ascending(base, ring, sz, i + 1, k);
      }
    } else if k < i {
      if k + 1 < i {
        Ascending(base, ring, sz, k + 1, i);
      }
      if i + 1 < |ring| {
        assert Separate(ring, sz, i);
      }
      Ascending(base, ring, sz, 0, i);
      if 0 < k {
        Ascending(base, ring, sz, 0, k);
      }
    } else {
      if 0 < i {
        Ascending(base, ring, sz, 0, i);
      }
    }
  }

  function Heads(ring: seq<int>): set<int> {
    set b | b in ring
  }

  ghost predicate HeapOk(base: int, ring: seq<int>, live: set<int>, sz: map<int, int>, owner: map<int, int>) {
    && RingOk(base, ring, sz)
    && Heads(ring) !! live
    && TilesOk(Heads(ring) + live, sz, owner)
    && (forall b :: b in live ==> b in sz && sz[b] >= 1 && base < b)
  }

  /** bp ends before the free block after position k. */
  ghost predicate Clear(ring: seq<int>, sz: map<int, int>, bp: int, k: nat) {
    bp in sz && (k + 1 < |ring| ==> bp + sz[bp] < ring[k + 1])
  }

  lemma Without(base: int, ring: seq<int>, sz: map<int, int>, k: nat)
    requires RingOk(base, ring, sz) && k < |ring|
    ensures Heads(ring[..k] + ring[k + 1..]) == Heads(ring) - {ring[k]}
    ensures forall i :: 0 <= i < |ring| && i != k ==> ring[i] != ring[k]
  {
    forall i | 0 <= i < |ring| && i != k ensures ring[i] != ring[k] {
      if i < k {
        Ascending(base, ring, sz, i, k);
      } else {
        Ascending(base, ring, sz, k, i);
      }
    }
    assert ring == ring[..k] + [ring[k]] + ring[k + 1..];
  }

  /** Dropping the k-th free block, k > 0, leaves a proper list. */
  lemma DropFree(base: int, ring: seq<int>, sz: map<int, int>, k: nat)
    requires RingOk(base, ring, sz) && 0 < k < |ring|
    ensures RingOk(base, ring[..k] + ring[k + 1..], sz)
  {
    var ring' := ring[..k] + ring[k + 1..];
    forall i | 0 <= i < |ring'| - 1 ensures Separate(ring', sz, i) {
      if i < k - 1 {
        assert Separate(ring, sz, i);
      } else if i == k - 1 {
        Ascending(base, ring, sz, k - 1, k + 1);
      } else {
        assert Separate(ring, sz, i + 1);
      }
    }
  }

  /** Changing the size of something outside the list does not matter. */
  lemma ResizeOther(base: int, ring: seq<int>, sz: map<int, int>, b: int, n: int)
    requires RingOk(base, ring, sz) && b !in ring
    ensures RingOk(base, ring, sz[b := n])
  {
    var sz' := sz[b := n];
    forall i | 0 <= i < |ring| - 1 ensures Separate(ring, sz', i) {
      assert Separate(ring, sz, i);
    }
  }

  /** The free block after the one bp meets is further up. */
  lemma ClearOfNext(base: int, ring: seq<int>, sz: map<int, int>, bp: int, k: nat)
    requires RingOk(base, ring, sz) && bp in sz && Position(ring, bp, k)
    requires k + 1 < |ring| && bp + sz[bp] == ring[k + 1]
    ensures ring[k + 1] in sz && sz[ring[k + 1]] >= 1
    ensures var ring' := ring[..k + 1] + ring[k + 2..];
            Position(ring', bp, k) && Clear(ring', sz[bp := sz[bp] + sz[ring[k + 1]]], bp, k)
  {
    assert k + 2 < |ring| ==> Separate(ring, sz, k + 1);
  }

  /** bp + bp->s.size == p->s.ptr: the next free block becomes part of bp. */
  lemma AbsorbUpper(base: int, ring: seq<int>, live: set<int>, sz: map<int, int>, owner: map<int, int>, bp: int, k: nat)
    requires HeapOk(base, ring, live, sz, owner)
    requires bp in live && Position(ring, bp, k) && k + 1 < |ring| && bp + sz[bp] == ring[k + 1]
    ensures var ring', sz' := ring[..k + 1] + ring[k + 2..], sz[bp := sz[bp] + sz[ring[k + 1]]];
            && HeapOk(base, ring', live, sz', Moved(owner, ring[k + 1], bp))
            && Position(ring', bp, k) && Clear(ring', sz', bp, k)
  {
    hide TilesOk, RingOk, Position, Clear, Moved;
    ClearOfNext(base, ring, sz, bp, k);
    var u, ring' := ring[k + 1], ring[..k + 1] + ring[k + 2..];
    assert u in Heads(ring) && bp !in Heads(ring);
    MergeTiles(Heads(ring) + live, sz, owner, bp, u);
    Without(base, ring, sz, k + 1);
    DropFree(base, ring, sz, k + 1);
    ResizeOther(base, ring', sz, bp, sz[bp] + sz[u]);
    assert Heads(ring) + live - {u} == Heads(ring') + live;
  }

  /** No neighbour touches bp: it becomes a free block of its own. */
  lemma InsertFree(base: int, ring: seq<int>, live: set<int>, sz: map<int, int>, owner: map<int, int>, bp: int, k: nat)
    requires HeapOk(base, ring, live, sz, owner)
    requires bp in live && Position(ring, bp, k) && Clear(ring, sz, bp, k) && ring[k] + sz[ring[k]] != bp
    ensures HeapOk(base, ring[..k + 1] + [bp] + ring[k + 1..], live - {bp}, sz, owner)
  {
    hide TilesOk;
    var ring' := ring[..k + 1] + [bp] + ring[k + 1..];
    BlocksDisjoint(Heads(ring) + live, sz, owner, ring[k], bp);
    forall i | 0 <= i < |ring'| - 1 ensures Separate(ring', sz, i) {
      if i < k {
        assert Separate(ring, sz, i);
        assert ring'[i] == ring[i] && ring'[i + 1] == ring[i + 1];
      } else if i > k + 1 {
        assert Separate(ring, sz, i - 1);
        assert ring'[i] == ring[i - 1] && ring'[i + 1] == ring[i];
      }
    }
    WithInserted(ring, k, bp);
    assert Heads(ring') + (live - {bp}) == Heads(ring) + live;
  }

  /** p + p->s.size == bp: bp becomes part of the free block before it. */
  lemma AbsorbLower(base: int, ring: seq<int>, live: set<int>, sz: map<int, int>, owner: map<int, int>, bp: int, k: nat)
    requires HeapOk(base, ring, live, sz, owner)
    requires bp in live && Position(ring, bp, k) && Clear(ring, sz, bp, k) && ring[k] + sz[ring[k]] == bp
    ensures HeapOk(base, ring, live - {bp}, sz[ring[k] := sz[ring[k]] + sz[bp]], Moved(owner, bp, ring[k]))
  {
    hide TilesOk;
    var p := ring[k];
    var sz' := sz[p := sz[p] + sz[bp]];
    MergeTiles(Heads(ring) + live, sz, owner, p, bp);
    Without(base, ring, sz, k);
    forall i | 0 <= i < |ring| - 1 ensures Separate(ring, sz', i) {
      assert Separate(ring, sz, i);
    }
    assert Heads(ring) + live - {bp} == Heads(ring) + (live - {bp});
  }

  // ---------------------------------------------------------------------
  // malloc and morecore

  /** A free block of the right size leaves the list. */
  lemma TakeWhole(base: int, ring: seq<int>, live: set<int>, sz: map<int, int>, owner: map<int, int>, k: nat)
    requires HeapOk(base, ring, live, sz, owner) && 0 < k < |ring|
    ensures ring[k] !in live
    ensures HeapOk(base, ring[..k] + ring[k + 1..], live + {ring[k]}, sz, owner)
  {
    hide TilesOk;
    var ring' := ring[..k] + ring[k + 1..];
    Without(base, ring, sz, k);
    DropFree(base, ring, sz, k);
    Ascending(base, ring, sz, 0, k);
    assert ring[k] in Heads(ring);
    assert Heads(ring') + (live + {ring[k]}) == Heads(ring) + live;
  }

  /** The tail of a larger free block is cut off. */
  lemma TakeTail(base: int, ring: seq<int>, live: set<int>, sz: map<int, int>, owner: map<int, int>, k: nat, n: int)
    requires HeapOk(base, ring, live, sz, owner) && k < |ring| && 1 <= n < sz[ring[k]]
    ensures var q := ring[k] + sz[ring[k]] - n;
            && q !in live
            && HeapOk(base, ring, live + {q}, sz[ring[k] := sz[ring[k]] - n][q := n], Cut(owner, ring[k], q))
  {
    hide TilesOk;
    var p := ring[k];
    var q := p + sz[p] - n;
    var sz' := sz[p := sz[p] - n][q := n];
    if 0 < k {
      Ascending(base, ring, sz, 0, k);
    }
    forall b | b in Heads(ring) + live && p < b ensures sz[b] >= 1 {
      if b in Heads(ring) {
        var i :| 0 <= i < |ring| && ring[i] == b;
        assert i == 0 ==> b == base;
      }
    }
    SplitTiles(Heads(ring) + live, sz, owner, p, n);
    Without(base, ring, sz, k);
    assert q !in Heads(ring);
    forall i | 0 <= i < |ring| - 1 ensures Separate(ring, sz', i) {
      assert Separate(ring, sz, i);
      assert ring[i] in Heads(ring);
    }
    assert Heads(ring) + (live + {q}) == Heads(ring) + live + {q};
  }

  /** Everything lies below brk. */
  ghost predicate Below(ring: seq<int>, live: set<int>, sz: map<int, int>, owner: map<int, int>, brk: int) {
    && (forall b :: b in Heads(ring) + live ==> b in sz && b < brk && b + sz[b] <= brk)
    && (forall x :: x in owner ==> x < brk)
  }

  function Range(a: int, n: nat): (r: set<int>)
    ensures forall x :: x in r <==> a <= x < a + n
  {
    if n == 0 then {} else Range(a, n - 1) + {a + n - 1}
  }

  /** The units of a new block hp. */
  function Fresh(hp: int, nu: nat): map<int, int> {
    map x | x in Range(hp, nu) :: hp
  }

  lemma AddTiles(blocks: set<int>, sz: map<int, int>, owner: map<int, int>, hp: int, nu: int)
    requires TilesOk(blocks, sz, owner) && 1 <= nu
    requires (forall x :: x in owner ==> x < hp) && (forall b :: b in blocks ==> b < hp && b + sz[b] <= hp)
    ensures TilesOk(blocks + {hp}, sz[hp := nu], owner + Fresh(hp, nu))
    ensures forall x :: x in Fresh(hp, nu) ==> x < hp + nu
  {
  }

  /** Memory from sbrk starts out as a live block, for free to take. */
  lemma AddFresh(base: int, ring: seq<int>, live: set<int>, sz: map<int, int>, owner: map<int, int>, brk: int, hp: int, nu: int)
    requires HeapOk(base, ring, live, sz, owner) && Below(ring, live, sz, owner, brk) && brk <= hp && 1 <= nu
    ensures hp !in live && hp !in ring
    ensures HeapOk(base, ring, live + {hp}, sz[hp := nu], owner + Fresh(hp, nu))
    ensures Below(ring, live + {hp}, sz[hp := nu], owner + Fresh(hp, nu), hp + nu)
  {
    hide TilesOk, Range, Fresh;
    assert hp !in Heads(ring) && hp !in live;
    ResizeOther(base, ring, sz, hp, nu);
    AddTiles(Heads(ring) + live, sz, owner, hp, nu);
    assert base in Heads(ring);
    assert Heads(ring) + (live + {hp}) == Heads(ring) + live + {hp};
  }

  lemma LinkedOther(ring: seq<int>, ptr: map<int, int>, b: int, v: int)
    requires Linked(ring, ptr) && b !in ring
    ensures Linked(ring, ptr[b := v])
  {
  }

  lemma LinkedDrop(base: int, ring: seq<int>, sz: map<int, int>, ptr: map<int, int>, k: nat)
    requires RingOk(base, ring, sz) && Linked(ring, ptr) && 0 < k < |ring|
    ensures Linked(ring[..k] + ring[k + 1..], ptr[ring[k - 1] := ptr[ring[k]]])
  {
    Without(base, ring, sz, k - 1);
    var ring', ptr' := ring[..k] + ring[k + 1..], ptr[ring[k - 1] := ptr[ring[k]]];
    forall i | 0 <= i < |ring'| ensures ring'[i] in ptr' && ptr'[ring'[i]] == Next(ring', i) {
      assert ptr[ring[k]] == Next(ring, k);
      assert i < k ==> ptr[ring[i]] == Next(ring, i);
      assert k <= i ==> ptr[ring[i + 1]] == Next(ring, i + 1);
    }
  }

  lemma LinkedInsert(base: int, ring: seq<int>, sz: map<int, int>, ptr: map<int, int>, bp: int, k: nat)
    requires RingOk(base, ring, sz) && Linked(ring, ptr) && k < |ring| && bp !in ring
    ensures Linked(ring[..k + 1] + [bp] + ring[k + 1..], ptr[bp := ptr[ring[k]]][ring[k] := bp])
  {
    Without(base, ring, sz, k);
    var ring', ptr' := ring[..k + 1] + [bp] + ring[k + 1..], ptr[bp := ptr[ring[k]]][ring[k] := bp];
    forall i | 0 <= i < |ring'| ensures ring'[i] in ptr' && ptr'[ring'[i]] == Next(ring', i) {
      assert ptr[ring[k]] == Next(ring, k);
      assert i <= k ==> ptr[ring[i]] == Next(ring, i);
      assert k + 1 < i ==> ptr[ring[i - 1]] == Next(ring, i - 1);
    }
  }

  /** All of the heap: the list and its links, the blocks, and the end of memory. */
  ghost predicate Whole(h: Heap) {
    match h
    case Heap(base, brk, ring, live, sz, ptr, owner) =>
      && HeapOk(base, ring, live, sz, owner)
      && Below(ring, live, sz, owner, brk)
      && Linked(ring, ptr)
  }

  datatype Heap = Heap(base: int, brk: int, ring: seq<int>, live: set<int>,
                       sz: map<int, int>, ptr: map<int, int>, owner: map<int, int>)

  lemma JoinLower(base: int, brk: int, ring: seq<int>, live: set<int>, sz: map<int, int>, ptr: map<int, int>,
                  owner: map<int, int>, bp: int, k: nat)
    requires Whole(Heap(base, brk, ring, live, sz, ptr, owner))
    requires bp in live && Position(ring, bp, k) && Clear(ring, sz, bp, k) && ring[k] + sz[ring[k]] == bp
    ensures Whole(Heap(base, brk, ring, live - {bp}, sz[ring[k] := sz[ring[k]] + sz[bp]], ptr, Moved(owner, bp, ring[k])))
    ensures Moved(owner, bp, ring[k]).Keys == owner.Keys
  {
    AbsorbLower(base, ring, live, sz, owner, bp, k);
    assert bp in Heads(ring) + live;
  }

  lemma JoinAlone(base: int, brk: int, ring: seq<int>, live: set<int>, sz: map<int, int>, ptr: map<int, int>,
                  owner: map<int, int>, bp: int, k: nat) returns (ring': seq<int>)
    requires Whole(Heap(base, brk, ring, live, sz, ptr, owner))
    requires bp in live && Position(ring, bp, k) && Clear(ring, sz, bp, k) && ring[k] + sz[ring[k]] != bp
    ensures Whole(Heap(base, brk, ring', live - {bp}, sz, ptr[bp := ptr[ring[k]]][ring[k] := bp], owner))
    ensures k + 1 < |ring'| && ring'[k] == ring[k] && ring'[k + 1] == bp
  {
    ring' := ring[..k + 1] + [bp] + ring[k + 1..];
    assert bp !in Heads(ring);
    InsertFree(base, ring, live, sz, owner, bp, k);
    LinkedInsert(base, ring, sz, ptr, bp, k);
    WithInserted(ring, k, bp);
    BelowSame(ring, live, ring[..k + 1] + [bp] + ring[k + 1..], live - {bp}, sz, owner, brk);
  }

  lemma WithInserted(ring: seq<int>, k: nat, bp: int)
    requires k < |ring|
    ensures Heads(ring[..k + 1] + [bp] + ring[k + 1..]) == Heads(ring) + {bp}
  {
    assert ring == ring[..k + 1] + ring[k + 1..];
  }

  lemma BelowSame(ring: seq<int>, live: set<int>, ring': seq<int>, live': set<int>,
                  sz: map<int, int>, owner: map<int, int>, brk: int)
    requires Below(ring, live, sz, owner, brk) && Heads(ring') + live' <= Heads(ring) + live
    ensures Below(ring', live', sz, owner, brk)
  {
  }

  lemma UpperIsNext(base: int, brk: int, ring: seq<int>, live: set<int>, sz: map<int, int>, ptr: map<int, int>,
                    owner: map<int, int>, bp: int, k: nat)
    requires Whole(Heap(base, brk, ring, live, sz, ptr, owner)) && bp in live && Position(ring, bp, k)
    requires ring[k] in ptr && bp + sz[bp] == ptr[ring[k]]
    ensures k + 1 < |ring| && ring[k + 1] == ptr[ring[k]] && ring[k + 1] in sz && ring[k + 1] in ptr && bp != ring[k + 1]
  {
    assert ptr[ring[k]] == Next(ring, k);
  }

  /** bp does not touch the free block above it. */
  lemma NoUpper(base: int, brk: int, ring: seq<int>, live: set<int>, sz: map<int, int>, ptr: map<int, int>,
                owner: map<int, int>, bp: int, k: nat)
    requires Whole(Heap(base, brk, ring, live, sz, ptr, owner)) && bp in live && Position(ring, bp, k)
    requires ring[k] in ptr && bp + sz[bp] != ptr[ring[k]]
    ensures Clear(ring, sz, bp, k)
    ensures Whole(Heap(base, brk, ring, live, sz, ptr[bp := ptr[ring[k]]], owner))
    ensures Whole(Heap(base, brk, ring, live, sz, ptr[bp := ptr[ring[k]]][ring[k] := ptr[ring[k]]], owner))
  {
    assert bp !in Heads(ring);
    assert ptr[ring[k]] == Next(ring, k);
    if k + 1 < |ring| {
      assert ring[k + 1] in Heads(ring);
      BlocksDisjoint(Heads(ring) + live, sz, owner, bp, ring[k + 1]);
    }
  }

  lemma JoinUpper(base: int, brk: int, ring: seq<int>, live: set<int>, sz: map<int, int>, ptr: map<int, int>,
                  owner: map<int, int>, bp: int, k: nat) returns (ring': seq<int>)
    requires Whole(Heap(base, brk, ring, live, sz, ptr, owner))
    requires bp in live && Position(ring, bp, k) && k + 1 < |ring| && bp + sz[bp] == ring[k + 1]
    ensures var sz' := sz[bp := sz[bp] + sz[ring[k + 1]]];
            && Whole(Heap(base, brk, ring', live, sz',
                     ptr[bp := ptr[ring[k + 1]]][ring[k] := ptr[ring[k + 1]]], Moved(owner, ring[k + 1], bp)))
            && Position(ring', bp, k) && Clear(ring', sz', bp, k) && ring'[k] == ring[k]
    ensures Moved(owner, ring[k + 1], bp).Keys == owner.Keys
  {
    ring' := ring[..k + 1] + ring[k + 2..];
    AbsorbUpper(base, ring, live, sz, owner, bp, k);
    assert bp !in Heads(ring);
    LinkedOther(ring, ptr, bp, ptr[ring[k + 1]]);
    LinkedDrop(base, ring, sz, ptr[bp := ptr[ring[k + 1]]], k + 1);
    Without(base, ring, sz, k + 1);
    assert ring[k + 1] in Heads(ring);
  }

  /** bp is out of the list, and the list is whole once p links to bp's successor. */
  ghost predicate Hanging(h: Heap, bp: int, p: int, k: nat) {
    match h
    case Heap(base, brk, ring, live, sz, ptr, owner) =>
      && 0 < base < brk && 0 < p && bp in live && Position(ring, bp, k) && p == ring[k]
      && bp in ptr && bp in sz && p in sz && p !in live
      && Clear(ring, sz, bp, k)
      && Whole(Heap(base, brk, ring, live, sz, ptr[p := ptr[bp]], owner))
  }

  lemma UpperTaken(h: Heap, bp: int, p: int, k: nat) returns (ring': seq<int>)
    requires Whole(h) && 0 < h.base < h.brk && bp in h.live && Position(h.ring, bp, k) && p == h.ring[k]
    requires h.base <= p && p in h.ptr && p in h.sz && p !in h.live && bp in h.sz && bp + h.sz[bp] == h.ptr[p]
    ensures h.ptr[p] in h.sz && h.ptr[p] in h.ptr && h.ptr[p] !in h.live && bp != h.ptr[p]
    ensures Moved(h.owner, h.ptr[p], bp).Keys == h.owner.Keys
    ensures h.sz[h.ptr[p]] >= 1
    ensures var q := h.ptr[p];
            var h' := Heap(h.base, h.brk, ring', h.live, h.sz[bp := h.sz[bp] + h.sz[q]], h.ptr[bp := h.ptr[q]], Moved(h.owner, q, bp));
            Hanging(h', bp, p, k) && Untouched(h.live - {bp}, h, h')
  {
    UpperIsNext(h.base, h.brk, h.ring, h.live, h.sz, h.ptr, h.owner, bp, k);
    ring' := JoinUpper(h.base, h.brk, h.ring, h.live, h.sz, h.ptr, h.owner, bp, k);
    assert h.ring[k + 1] in Heads(h.ring);
    var q := h.ptr[p];
    hide HeapOk, Below, Linked, Hanging, Untouched, Position, Moved;
    UpperUntouched(h, Heap(h.base, h.brk, ring', h.live, h.sz[bp := h.sz[bp] + h.sz[q]], h.ptr[bp := h.ptr[q]], Moved(h.owner, q, bp)),
                   bp, q, h.sz[bp] + h.sz[q], h.ptr[q]);
  }

  lemma HangingFacts(h: Heap, bp: int, p: int, k: nat)
    requires Hanging(h, bp, p, k)
    ensures 0 < h.base < h.brk && 0 < p && bp in h.live && bp in h.ptr && bp in h.sz && p in h.sz
  {
  }

  lemma NothingTaken(h: Heap, bp: int, p: int, k: nat)
    requires Whole(h) && 0 < h.base < h.brk && bp in h.live && Position(h.ring, bp, k) && p == h.ring[k]
    requires h.base <= p && p in h.ptr && p in h.sz && p !in h.live && bp in h.sz && bp + h.sz[bp] != h.ptr[p]
    ensures Hanging(h.(ptr := h.ptr[bp := h.ptr[p]]), bp, p, k)
    ensures Untouched(h.live - {bp}, h, h.(ptr := h.ptr[bp := h.ptr[p]]))
  {
    LiveHeader(h.base, h.ring, h.live, h.sz, h.owner, bp);
    NoUpper(h.base, h.brk, h.ring, h.live, h.sz, h.ptr, h.owner, bp, k);
  }

  /** The units bp .. bp + n - 1 lie in the j-th block of the list. */
  ghost predicate Contains(ring: seq<int>, sz: map<int, int>, j: int, bp: int, n: int) {
    0 <= j < |ring| && ring[j] in sz && ring[j] <= bp && bp + n <= ring[j] + sz[ring[j]]
  }

  /** freep points at the block that holds bp's units, or just before it. */
  ghost predicate FreedNear(ring: seq<int>, sz: map<int, int>, freep: int, bp: int, n: int) {
    exists f :: 0 <= f < |ring| && ring[f] == freep && (Contains(ring, sz, f, bp, n) || Contains(ring, sz, f + 1, bp, n))
  }

  lemma FewerFreed(ring: seq<int>, sz: map<int, int>, freep: int, bp: int, m: int, n: int)
    requires FreedNear(ring, sz, freep, bp, m) && n <= m
    ensures FreedNear(ring, sz, freep, bp, n)
  {
    var f :| 0 <= f < |ring| && ring[f] == freep && (Contains(ring, sz, f, bp, m) || Contains(ring, sz, f + 1, bp, m));
    assert Contains(ring, sz, f, bp, n) || Contains(ring, sz, f + 1, bp, n);
  }

  predicate SameAt(m: map<int, int>, m': map<int, int>, x: int) {
    (x in m' <==> x in m) && (x in m ==> m'[x] == m[x])
  }

  /** The given blocks keep their sizes, all their units, and every word in them. */
  ghost predicate Untouched(blocks: set<int>, h: Heap, h': Heap) {
    && (forall b :: b in blocks ==> b in h.sz && b in h'.sz && h'.sz[b] == h.sz[b])
    && (forall x :: x in h.owner && h.owner[x] in blocks ==>
          x in h'.owner && h'.owner[x] == h.owner[x] && SameAt(h.sz, h'.sz, x) && SameAt(h.ptr, h'.ptr, x))
  }

  /** A header of the list lies in no live block. */
  lemma FreeHeader(base: int, ring: seq<int>, live: set<int>, sz: map<int, int>, owner: map<int, int>, p: int)
    requires HeapOk(base, ring, live, sz, owner) && p in ring
    ensures p !in live && (p in owner ==> owner[p] !in live)
  {
    assert p in Heads(ring);
    var i :| 0 <= i < |ring| && ring[i] == p;
    if i > 0 {
      assert p <= p < p + sz[p];
    }
  }

  /** A live header lies in its own block. */
  lemma LiveHeader(base: int, ring: seq<int>, live: set<int>, sz: map<int, int>, owner: map<int, int>, b: int)
    requires HeapOk(base, ring, live, sz, owner) && b in live
    ensures b in sz && b in owner && owner[b] == b
  {
    assert b <= b < b + sz[b];
  }

  /** The words of bp itself change, and bp gets the units of the free block q. */
  lemma UpperUntouched(h: Heap, h': Heap, bp: int, q: int, n: int, v: int)
    requires HeapOk(h.base, h.ring, h.live, h.sz, h.owner) && bp in h.live && q in h.ring
    requires h'.sz == h.sz[bp := n] && h'.ptr == h.ptr[bp := v] && h'.owner == Moved(h.owner, q, bp)
    ensures Untouched(h.live - {bp}, h, h')
  {
    LiveHeader(h.base, h.ring, h.live, h.sz, h.owner, bp);
    FreeHeader(h.base, h.ring, h.live, h.sz, h.owner, q);
    hide RingOk, TilesOk;
  }

  /** The words of the free header p change, and p may get the units of bp. */
  lemma LowerUntouched(h: Heap, h': Heap, bp: int, p: int, n: int, v: int)
    requires HeapOk(h.base, h.ring, h.live, h.sz, h.owner) && bp in h.live && p in h.ring && p in h.sz
    requires h'.sz == h.sz[p := n] && h'.ptr == h.ptr[p := v]
    requires h'.owner == Moved(h.owner, bp, p) || h'.owner == h.owner
    ensures Untouched(h.live - {bp}, h, h')
  {
    FreeHeader(h.base, h.ring, h.live, h.sz, h.owner, p);
    hide RingOk, TilesOk;
  }

  lemma LowerTaken(h: Heap, bp: int, p: int, k: nat)
    requires Hanging(h, bp, p, k) && p + h.sz[p] == bp
    ensures var sz' := h.sz[p := h.sz[p] + h.sz[bp]];
            var h' := Heap(h.base, h.brk, h.ring, h.live - {bp}, sz', h.ptr[p := h.ptr[bp]], Moved(h.owner, bp, p));
            && Whole(h') && Untouched(h.live - {bp}, h, h')
            && Moved(h.owner, bp, p).Keys == h.owner.Keys && p in h.ring
            && FreedNear(h.ring, sz', p, bp, h.sz[bp])
  {
    JoinLower(h.base, h.brk, h.ring, h.live, h.sz, h.ptr[p := h.ptr[bp]], h.owner, bp, k);
    assert h.ring[k] == p;
    LowerUntouched(h, Heap(h.base, h.brk, h.ring, h.live - {bp}, h.sz[p := h.sz[p] + h.sz[bp]], h.ptr[p := h.ptr[bp]], Moved(h.owner, bp, p)),
                   bp, p, h.sz[p] + h.sz[bp], h.ptr[bp]);
    assert Contains(h.ring, h.sz[p := h.sz[p] + h.sz[bp]], k, bp, h.sz[bp]);
  }

  lemma LinkedIn(h: Heap, bp: int, p: int, k: nat) returns (ring': seq<int>)
    requires Hanging(h, bp, p, k) && p + h.sz[p] != bp
    ensures Whole(Heap(h.base, h.brk, ring', h.live - {bp}, h.sz, h.ptr[p := bp], h.owner))
    ensures Untouched(h.live - {bp}, h, Heap(h.base, h.brk, ring', h.live - {bp}, h.sz, h.ptr[p := bp], h.owner))
    ensures p in ring' && FreedNear(ring', h.sz, p, bp, h.sz[bp])
  {
    ring' := JoinAlone(h.base, h.brk, h.ring, h.live, h.sz, h.ptr[p := h.ptr[bp]], h.owner, bp, k);
    Relinked(h.ptr, p, bp);
    assert h.ring[k] == p && h.sz[p := h.sz[p]] == h.sz;
    LowerUntouched(h, Heap(h.base, h.brk, ring', h.live - {bp}, h.sz, h.ptr[p := bp], h.owner), bp, p, h.sz[p], bp);
    assert Contains(ring', h.sz, k + 1, bp, h.sz[bp]);
  }

  lemma Relinked(ptr: map<int, int>, p: int, bp: int)
    requires bp in ptr && p != bp
    ensures var ptr1 := ptr[p := ptr[bp]];
            ptr1[bp := ptr1[p]][p := bp] == ptr[p := bp]
  {
  }

  // ---------------------------------------------------------------------
  // What the invariant means

  /** Blocks do not overlap, and free blocks do not even touch. */
  lemma BlocksApart(h: Heap, a: int, b: int)
    requires Whole(h) && a in Heads(h.ring) + h.live && b in Heads(h.ring) + h.live && a < b && h.base < b
    ensures a + h.sz[a] <= b
    ensures a in h.ring && b in h.ring ==> a + h.sz[a] < b
  {
    if b in h.ring {
      var j :| 0 <= j < |h.ring| && h.ring[j] == b;
      if a in h.ring {
        var i :| 0 <= i < |h.ring| && h.ring[i] == a;
        if j < i {
          Ascending(h.base, h.ring, h.sz, j, i);
        }
        Ascending(h.base, h.ring, h.sz, i, j);
      }
    }
    BlocksDisjoint(Heads(h.ring) + h.live, h.sz, h.owner, a, b);
  }

  lemma Inhabited(s: set<int>)
    ensures s == {} || exists b :: b in s
  {
    if forall b :: b !in s {
      assert s == {};
    }
  }

  ghost function Pick(s: set<int>): (b: int)
    requires s != {}
    ensures b in s
  {
    Inhabited(s);
    var b :| b in s; b
  }

  /** The sum of the sizes of the blocks. */
  ghost function Total(blocks: set<int>, sz: map<int, int>): int
    requires forall b :: b in blocks ==> b in sz
  {
    if blocks == {} then 0 else sz[Pick(blocks)] + Total(blocks - {Pick(blocks)}, sz)
  }

  lemma {:induction false} RangeSize(a: int, n: nat)
    ensures |Range(a, n)| == n
  {
    if n > 0 {
      RangeSize(a, n - 1);
    }
  }

  /** The units of all blocks but b. */
  ghost function Others(owner: map<int, int>, b: int): map<int, int> {
    map x | x in owner && owner[x] != b :: owner[x]
  }

  lemma OtherTiles(blocks: set<int>, sz: map<int, int>, owner: map<int, int>, b: int)
    requires TilesOk(blocks, sz, owner) && b in blocks
    ensures TilesOk(blocks - {b}, sz, Others(owner, b))
    ensures owner.Keys == Others(owner, b).Keys + Range(b, sz[b]) && Others(owner, b).Keys !! Range(b, sz[b])
  {
    hide Range;
  }

  /** Sizes add up to the memory obtained from sbrk. */
  lemma {:induction false} TotalUnits(blocks: set<int>, sz: map<int, int>, owner: map<int, int>)
    requires TilesOk(blocks, sz, owner)
    ensures Total(blocks, sz) == |owner|
    decreases blocks
  {
    hide Others, Range;
    if blocks == {} {
      Inhabited(owner.Keys);
    } else {
      var b := Pick(blocks);
      OtherTiles(blocks, sz, owner, b);
      hide TilesOk;
      TotalUnits(blocks - {b}, sz, Others(owner, b));
      RangeSize(b, sz[b]);
      assert |owner.Keys| == |Others(owner, b).Keys| + |Range(b, sz[b])|;
    }
  }

  // ---------------------------------------------------------------------
  // Steps of malloc

  /** Position of the block p->s.ptr, for the block p at position i. */
  function After(n: nat, i: nat): nat {
    if i + 1 < n then i + 1 else 0
  }

  lemma Visit(h: Heap, i: nat)
    requires Whole(h) && i < |h.ring|
    ensures h.ring[i] in h.sz && h.ring[i] in h.ptr && h.sz[h.ring[i]] >= 0
    ensures h.ptr[h.ring[i]] == h.ring[After(|h.ring|, i)]
    ensures i == 0 ==> h.sz[h.ring[i]] == 0
    ensures h.base <= h.ring[i]
  {
    if 0 < i {
      Ascending(h.base, h.ring, h.sz, 0, i);
    }
    assert h.ptr[h.ring[i]] == Next(h.ring, i);
  }

  lemma SameIndex(h: Heap, i: nat, j: nat)
    requires Whole(h) && i < |h.ring| && j < |h.ring| && h.ring[i] == h.ring[j]
    ensures i == j
  {
    Without(h.base, h.ring, h.sz, i);
  }

  /** Some free block is large enough. */
  ghost predicate Fits(ring: seq<int>, sz: map<int, int>, n: int) {
    exists i :: 0 <= i < |ring| && ring[i] in sz && sz[ring[i]] >= n
  }

  /** The block at p has room for nbytes behind its header. */
  predicate Roomy(sz: map<int, int>, p: int, nbytes: nat) {
    p in sz && sz[p] >= 1 && nbytes <= (sz[p] - 1) * HEADER_BYTES
  }

  ghost predicate SomeRoomy(ring: seq<int>, sz: map<int, int>, nbytes: nat) {
    exists i :: 0 <= i < |ring| && Roomy(sz, ring[i], nbytes)
  }

  /** Going around the list from the block after position f, b is the first with room. */
  ghost predicate FirstRoomy(ring: seq<int>, sz: map<int, int>, nbytes: nat, f: nat, b: nat) {
    && f < |ring| && b < |ring| && Roomy(sz, ring[b], nbytes)
    && forall i :: 0 <= i < |ring| && (if f < b then f < i < b else f < i || i < b) ==> !Roomy(sz, ring[i], nbytes)
  }

  lemma RoomyFits(ring: seq<int>, sz: map<int, int>, nbytes: nat)
    ensures Fits(ring, sz, Units(nbytes)) <==> SomeRoomy(ring, sz, nbytes)
  {
    hide Units;
    forall i | 0 <= i < |ring| ensures Roomy(sz, ring[i], nbytes) <==> ring[i] in sz && sz[ring[i]] >= Units(nbytes) {
      if ring[i] in sz {
        UnitsLeast(nbytes, sz[ring[i]]);
      }
    }
  }

  lemma NoneRoomy(sz: map<int, int>, nbytes: nat)
    ensures !SomeRoomy([], sz, nbytes)
  {
  }

  lemma ScannedRoomy(ring: seq<int>, sz: map<int, int>, nbytes: nat, f: nat, b: nat)
    requires Scanned(ring, sz, Units(nbytes), f, b) && f < |ring| && b < |ring| && ring[b] in sz && sz[ring[b]] >= Units(nbytes)
    ensures FirstRoomy(ring, sz, nbytes, f, b)
  {
    hide Units;
    UnitsLeast(nbytes, sz[ring[b]]);
    forall i | 0 <= i < |ring| && (if f < b then f < i < b else f < i || i < b) ensures !Roomy(sz, ring[i], nbytes) {
      UnitsLeast(nbytes, sz[ring[i]]);
    }
  }

  /** The blocks strictly between freep, at position f, and position b are too small. */
  ghost predicate Scanned(ring: seq<int>, sz: map<int, int>, n: int, f: nat, b: nat) {
    forall i :: 0 <= i < |ring| && (if f < b then f < i < b else f < i || i < b) ==> ring[i] in sz && sz[ring[i]] < n
  }

  lemma ScannedAll(ring: seq<int>, sz: map<int, int>, n: int, f: nat)
    requires Scanned(ring, sz, n, f, f) && f < |ring| && ring[f] in sz && sz[ring[f]] < n
    ensures !Fits(ring, sz, n)
  {
  }

  lemma ScannedMore(ring: seq<int>, sz: map<int, int>, n: int, f: nat, b: nat)
    requires Scanned(ring, sz, n, f, b) && f != b && b < |ring| && ring[b] in sz && sz[ring[b]] < n
    ensures Scanned(ring, sz, n, f, After(|ring|, b))
  {
  }

  /** After morecore the next block, or the one at freep when it is reached again,
      is large enough. */
  ghost predicate Promised(ring: seq<int>, sz: map<int, int>, n: int, f: nat, b: nat) {
    && f < |ring| && b < |ring| && ring[f] in sz && ring[b] in sz
    && (sz[ring[f]] >= n || (b == f + 1 && sz[ring[b]] >= n))
  }

  lemma PromisedHere(ring: seq<int>, sz: map<int, int>, n: int, f: nat)
    requires Promised(ring, sz, n, f, f)
    ensures sz[ring[f]] >= n
  {
  }

  lemma PromisedOn(ring: seq<int>, sz: map<int, int>, n: int, f: nat, b: nat, b': nat)
    requires Promised(ring, sz, n, f, b) && sz[ring[b]] < n && b' < |ring| && ring[b'] in sz
    ensures Promised(ring, sz, n, f, b')
  {
  }

  lemma NearIndex(h: Heap, n: int, freep: int, hp: int) returns (f: nat)
    requires Whole(h) && FreedNear(h.ring, h.sz, freep, hp, n)
    ensures f < |h.ring| && h.ring[f] == freep && Promised(h.ring, h.sz, n, f, After(|h.ring|, f))
  {
    f :| 0 <= f < |h.ring| && h.ring[f] == freep
         && (Contains(h.ring, h.sz, f, hp, n) || Contains(h.ring, h.sz, f + 1, hp, n));
    Visit(h, f);
    Visit(h, After(|h.ring|, f));
  }

  lemma FitsAt(ring: seq<int>, sz: map<int, int>, n: int, b: nat)
    requires b < |ring| && ring[b] in sz && sz[ring[b]] >= n
    ensures Fits(ring, sz, n)
  {
  }

  lemma StartScan(ring: seq<int>, sz: map<int, int>, n: int, f: nat)
    requires f < |ring|
    ensures Scanned(ring, sz, n, f, After(|ring|, f))
  {
  }

  lemma NothingFits(base: int, sz: map<int, int>, n: int)
    requires n >= 1
    ensures !Fits([base], sz[base := 0], n)
  {
  }

  lemma UntouchedOn(blocks: set<int>, h: Heap, h': Heap, h'': Heap)
    requires Untouched(blocks, h, h') && Untouched(blocks, h', h'')
    ensures Untouched(blocks, h, h'')
  {
  }

  lemma FirstUse(base: int, brk: int, sz: map<int, int>, ptr: map<int, int>)
    requires 0 < base < brk
    ensures Whole(Heap(base, brk, [base], {}, sz[base := 0], ptr[base := base], map[]))
  {
    assert Next([base], 0) == base;
  }

  /** New memory lies beyond every live block. */
  lemma GrownUntouched(h: Heap, h': Heap, hp: int, nu: nat)
    requires Whole(h) && h.brk <= hp
    requires h'.sz == h.sz[hp := nu] && h'.ptr == h.ptr && h'.owner == h.owner + Fresh(hp, nu)
    ensures Untouched(h.live, h, h')
  {
    hide RingOk, TilesOk, Linked, Range;
    assert forall b :: b in h.live ==> b in Heads(h.ring) + h.live;
  }

  /** Cutting a free block changes words of that block only. */
  lemma TailUntouched(h: Heap, h': Heap, b: nat, n: int)
    requires HeapOk(h.base, h.ring, h.live, h.sz, h.owner) && b < |h.ring| && 1 <= n < h.sz[h.ring[b]]
    requires var p := h.ring[b];
             var q := p + h.sz[p] - n;
             q !in h.live && h'.sz == h.sz[p := h.sz[p] - n][q := n] && h'.ptr == h.ptr && h'.owner == Cut(h.owner, p, q)
    ensures Untouched(h.live, h, h')
  {
    FreeHeader(h.base, h.ring, h.live, h.sz, h.owner, h.ring[b]);
    TailOwned(h.base, h.ring, h.live, h.sz, h.owner, b, n);
    hide RingOk, TilesOk;
  }

  lemma Grown(h: Heap, hp: int, nu: int)
    requires Whole(h) && h.brk <= hp && 1 <= nu
    ensures hp !in h.live
    ensures var h' := Heap(h.base, hp + nu, h.ring, h.live + {hp}, h.sz[hp := nu], h.ptr, h.owner + Fresh(hp, nu));
            Whole(h') && Untouched(h.live, h, h')
    ensures (h.owner + Fresh(hp, nu)).Keys == h.owner.Keys + Range(hp, nu)
  {
    GrownUntouched(h, Heap(h.base, hp + nu, h.ring, h.live + {hp}, h.sz[hp := nu], h.ptr, h.owner + Fresh(hp, nu)), hp, nu);
    hide HeapOk, Below, Linked, Untouched;
    AddFresh(h.base, h.ring, h.live, h.sz, h.owner, h.brk, hp, nu);
    LiveSized(h);
  }

  lemma LiveSized(h: Heap)
    requires Whole(h)
    ensures Untouched(h.live, h, h) && forall b :: b in h.live ==> b in h.sz && b < h.brk && b !in h.ring
  {
    assert forall b :: b in h.ring ==> b in Heads(h.ring);
  }

  lemma TakenWhole(h: Heap, b: nat) returns (ring': seq<int>)
    requires Whole(h) && 0 < b < |h.ring|
    ensures h.ring[b] !in h.live && h.ring[b - 1] in h.ptr && h.ring[b] in h.ptr && h.ring[b - 1] in ring'
    ensures var h' := Heap(h.base, h.brk, ring', h.live + {h.ring[b]}, h.sz, h.ptr[h.ring[b - 1] := h.ptr[h.ring[b]]], h.owner);
            Whole(h') && Untouched(h.live, h, h')
  {
    hide RingOk, TilesOk, Below, Linked;
    FreeHeader(h.base, h.ring, h.live, h.sz, h.owner, h.ring[b - 1]);
    LiveSized(h);
    Visit(h, b);
    Visit(h, b - 1);
    ring' := h.ring[..b] + h.ring[b + 1..];
    assert ring'[b - 1] == h.ring[b - 1];
    TakeWhole(h.base, h.ring, h.live, h.sz, h.owner, b);
    LinkedDrop(h.base, h.ring, h.sz, h.ptr, b);
    Without(h.base, h.ring, h.sz, b);
    assert h.ring[b] in Heads(h.ring);
    BelowSame(h.ring, h.live, ring', h.live + {h.ring[b]}, h.sz, h.owner, h.brk);
  }

  lemma TailOwned(base: int, ring: seq<int>, live: set<int>, sz: map<int, int>, owner: map<int, int>, b: nat, n: int)
    requires HeapOk(base, ring, live, sz, owner) && b < |ring| && 1 <= n < sz[ring[b]]
    ensures var q := ring[b] + sz[ring[b]] - n; q in owner && owner[q] == ring[b]
  {
    assert ring[b] in Heads(ring);
  }

  lemma TakenTail(h: Heap, b: nat, n: int)
    requires Whole(h) && b < |h.ring| && h.ring[b] in h.sz && 1 <= n < h.sz[h.ring[b]]
    ensures var p := h.ring[b];
            var q := p + h.sz[p] - n;
            && q !in h.live && q != p
            && var h' := Heap(h.base, h.brk, h.ring, h.live + {q}, h.sz[p := h.sz[p] - n][q := n], h.ptr, Cut(h.owner, p, q));
            && Whole(h') && Untouched(h.live, h, h')
            && Cut(h.owner, p, q).Keys == h.owner.Keys
  {
    hide RingOk, TilesOk, Linked, Untouched;
    TakeTail(h.base, h.ring, h.live, h.sz, h.owner, b, n);
    var p := h.ring[b];
    var q := p + h.sz[p] - n;
    TailUntouched(h, Heap(h.base, h.brk, h.ring, h.live + {q}, h.sz[p := h.sz[p] - n][q := n], h.ptr, Cut(h.owner, p, q)), b, n);
    assert h.ring[b] in Heads(h.ring);
  }

  /** How far it is from position b to position f along the list. */
  function Left(n: nat, f: nat, b: nat): int {
    if b <= f then f - b else n - b + f
  }

  /** Where the loop of malloc stands: freep, prevp and p are at positions f, a and b of the
      list; before morecore, what it has passed is too small, and after it, what it needs is
      ahead. `start` is the heap at its first turn. */
  ghost predicate Searching(h: Heap, start: Heap, freep: int, prevp: int, p: int, n: int, calls: nat, out: Sbrk, f: nat, a: nat, b: nat) {
    && f < |h.ring| && h.ring[f] == freep
    && a < |h.ring| && h.ring[a] == prevp && b == After(|h.ring|, a) && h.ring[b] == p
    && (calls == 0 ==> h == start && Scanned(h.ring, h.sz, n, f, b))
    && (calls >= 1 ==> calls == 1 && Grew(h, start, n, out) && Promised(h.ring, h.sz, n, f, b))
  }

  /** What morecore has changed since the first turn. */
  ghost predicate Grew(h: Heap, start: Heap, n: int, out: Sbrk) {
    && out.At? && !Fits(start.ring, start.sz, n) && h.brk == out.addr + Grow(n)
    && h.owner.Keys == start.owner.Keys + Range(out.addr, Grow(n))
  }

  lemma SearchStart(h: Heap, freep: int, n: int, out: Sbrk) returns (f: nat)
    requires Whole(h) && freep in h.ring
    ensures freep in h.ptr && f < |h.ring|
    ensures Searching(h, h, freep, freep, h.ptr[freep], n, 0, out, f, f, After(|h.ring|, f))
  {
    hide Whole, Scanned;
    f :| 0 <= f < |h.ring| && h.ring[f] == freep;
    Visit(h, f);
    StartScan(h.ring, h.sz, n, f);
  }

  lemma SearchAgain(h: Heap, start: Heap, freep: int, n: int, out: Sbrk, f: nat)
    requires Whole(h) && f < |h.ring| && h.ring[f] == freep && Grew(h, start, n, out)
    requires Promised(h.ring, h.sz, n, f, After(|h.ring|, f))
    ensures freep in h.ptr && Searching(h, start, freep, freep, h.ptr[freep], n, 1, out, f, f, After(|h.ring|, f))
  {
    hide Whole, Promised, Grew;
    Visit(h, f);
  }

  lemma SearchAt(h: Heap, start: Heap, freep: int, prevp: int, p: int, n: int, calls: nat, out: Sbrk, f: nat, a: nat, b: nat)
    requires Whole(h) && Searching(h, start, freep, prevp, p, n, calls, out, f, a, b)
    ensures p in h.sz && p in h.ptr && h.base <= p && h.base <= prevp && b < |h.ring| && calls <= 1
    ensures Left(|h.ring|, f, b) >= 0
  {
    hide Whole, Scanned, Promised, Grew;
    Visit(h, a);
    Visit(h, b);
  }

  lemma SearchHit(h: Heap, start: Heap, freep: int, prevp: int, p: int, n: int, calls: nat, out: Sbrk, f: nat, a: nat, b: nat)
    requires Whole(h) && Searching(h, start, freep, prevp, p, n, calls, out, f, a, b)
    requires p in h.sz && 1 <= n <= h.sz[p]
    ensures 0 < b < |h.ring| && p == h.ring[b] && prevp == h.ring[b - 1]
    ensures calls == 0 <==> Fits(start.ring, start.sz, n)
    ensures calls == 0 ==> h == start && f < |h.ring| && h.ring[f] == freep && Scanned(h.ring, h.sz, n, f, b)
    ensures calls == 1 ==> Grew(h, start, n, out)
  {
    hide Whole, Scanned, Promised, Range;
    Visit(h, b);
    FitsAt(h.ring, h.sz, n, b);
  }

  lemma SearchedAll(h: Heap, start: Heap, freep: int, prevp: int, p: int, n: int, calls: nat, out: Sbrk, f: nat, a: nat, b: nat)
    requires Whole(h) && Searching(h, start, freep, prevp, p, n, calls, out, f, a, b)
    requires p in h.sz && h.sz[p] < n && p == freep
    ensures calls == 0 && h == start && !Fits(h.ring, h.sz, n)
  {
    hide Whole, Scanned, Promised, Grew;
    SameIndex(h, b, f);
    if calls == 0 {
      ScannedAll(h.ring, h.sz, n, f);
    } else {
      PromisedHere(h.ring, h.sz, n, f);
    }
  }

  lemma SearchOn(h: Heap, start: Heap, freep: int, prevp: int, p: int, n: int, calls: nat, out: Sbrk, f: nat, a: nat, b: nat)
    requires Whole(h) && Searching(h, start, freep, prevp, p, n, calls, out, f, a, b)
    requires p in h.sz && h.sz[p] < n && p != freep
    ensures p in h.ptr && b < |h.ring|
    ensures Searching(h, start, freep, p, h.ptr[p], n, calls, out, f, b, After(|h.ring|, b))
    ensures Left(|h.ring|, f, After(|h.ring|, b)) < Left(|h.ring|, f, b)
  {
    hide Whole, Scanned, Promised, Grew;
    Visit(h, b);
    Visit(h, After(|h.ring|, b));
    if calls == 0 {
      ScannedMore(h.ring, h.sz, n, f, b);
    } else {
      PromisedOn(h.ring, h.sz, n, f, b, After(|h.ring|, b));
    }
  }

  class Allocator {
    /** The address of the static header `base`. */
    const base: int
    var freep: int
    /** s.size and s.ptr of the headers in memory. */
    var sz: map<int, int>
    var ptr: map<int, int>
    /** The free list in address order, the live blocks, the division of all memory
        into blocks, and the end of memory. */
    ghost var ring: seq<int>
    ghost var live: set<int>
    ghost var owner: map<int, int>
    ghost var brk: int

    ghost function Now(): Heap
      reads this
    {
      Heap(base, brk, ring, live, sz, ptr, owner)
    }

    ghost predicate Valid()
      reads this
    {
      && 0 < base < brk
      && if freep == 0
         then ring == [] && live == {} && owner == map[]
         else freep in ring && Whole(Now())
    }

    constructor (base: int, brk: int)
      requires 0 < base < brk
      ensures Valid()
      ensures this.base == base && this.brk == brk && freep == 0
    {
      this.base, this.brk := base, brk;
      freep, sz, ptr := 0, map[], map[];
      ring, live, owner := [], {}, map[];
    }

    /** The loop of free: where in the list does bp belong? */
    method FindPlace(bp: int) returns (p: int, ghost k: nat)
      requires Valid() && freep != 0 && bp in live
      ensures Position(ring, bp, k) && p == ring[k]
      ensures base <= p < bp && p in ptr && p in sz && p !in live && bp in sz && (p < ptr[p] ==> bp < ptr[p])
    {
      assert bp !in ring by { assert bp !in Heads(ring); }
      k := FindPosition(ring, bp, |ring|);
      ghost var i :| 0 <= i < |ring| && ring[i] == freep;
      p := freep;
      LoopTest(base, ring, sz, ptr, bp, k, i);
      while !(bp > p && bp < ptr[p])
        invariant 0 <= i < |ring| && p == ring[i] && p in ptr
        invariant (bp > p && bp < ptr[p]) || (p >= ptr[p] && (bp > p || bp < ptr[p])) <==> i == k
        decreases if i <= k then k - i else |ring| - i + k
      {
        if p >= ptr[p] && (bp > p || bp < ptr[p]) {
          break;
        }
        assert ptr[p] == Next(ring, i);
        p := ptr[p];
        i := if i + 1 < |ring| then i + 1 else 0;
        LoopTest(base, ring, sz, ptr, bp, k, i);
      }
      if 0 < k {
        Ascending(base, ring, sz, 0, k);
      }
      assert p in Heads(ring);
    }

    /** First step of free: take in the free block above bp, if they touch. */
    method TakeUpper(bp: int, p: int, ghost k: nat)
      requires Valid() && freep != 0 && bp in live && Position(ring, bp, k) && p == ring[k]
      requires base <= p && p in ptr && p in sz && p !in live && bp in sz
      modifies `owner, `ring, `sz, `ptr
      ensures Hanging(Now(), bp, p, k)
      ensures owner.Keys == old(owner.Keys)
      ensures Untouched(live - {bp}, old(Now()), Now())
      ensures bp in sz && sz[bp] >= old(sz[bp])
    {
      hide Hanging, Whole, Untouched;
      var q := ptr[p];
      if bp + sz[bp] == q {
        ghost var ring' := UpperTaken(Now(), bp, p, k);
        owner, ring := Moved(owner, q, bp), ring';
        sz, ptr := sz[bp := sz[bp] + sz[q]], ptr[bp := ptr[q]];
      } else {
        NothingTaken(Now(), bp, p, k);
        ptr := ptr[bp := ptr[p]];
      }
    }

    /** Last step of free: join bp to the free block below, or link it in. */
    method TakeLower(bp: int, p: int, ghost k: nat)
      requires Hanging(Now(), bp, p, k)
      modifies this
      ensures Valid() && freep == p && freep != 0 && brk == old(brk)
      ensures live == old(live) - {bp} && owner.Keys == old(owner.Keys)
      ensures Untouched(live, old(Now()), Now())
      ensures FreedNear(ring, sz, freep, bp, old(sz[bp]))
    {
      hide Whole, Hanging, Untouched, FreedNear;
      HangingFacts(Now(), bp, p, k);
      if p + sz[p] == bp {
        LowerTaken(Now(), bp, p, k);
        sz, ptr, freep := sz[p := sz[p] + sz[bp]], ptr[p := ptr[bp]], p;
        owner, live := Moved(owner, bp, p), live - {bp};
      } else {
        ghost var ring' := LinkedIn(Now(), bp, p, k);
        ptr, freep := ptr[p := bp], p;
        ring, live := ring', live - {bp};
      }
    }

    /** free(ap), for the block whose header is bp == ap - 1. All memory is kept, no word of
        another live block changes, and bp's units are in the free list again, at or
        right after freep. */
    method Free(bp: int)
      requires Valid() && freep != 0 && bp in live
      modifies this
      ensures Valid() && freep != 0 && brk == old(brk)
      ensures live == old(live) - {bp}
      ensures owner.Keys == old(owner.Keys)
      ensures Untouched(live, old(Now()), Now())
      ensures bp in old(sz) && old(sz[bp]) >= 1 && FreedNear(ring, sz, freep, bp, old(sz[bp]))
    {
      ghost var k;
      var p;
      p, k := FindPlace(bp);
      ghost var n := sz[bp];
      TakeUpper(bp, p, k);
      ghost var m, h := sz[bp], Now();
      TakeLower(bp, p, k);
      UntouchedOn(live, old(Now()), h, Now());
      FewerFreed(ring, sz, freep, bp, m, n);
    }

    /** morecore: ask sbrk for at least MIN_GROW units and free them. */
    method MoreCore(nunits: int, out: Sbrk) returns (p: int)
      requires Valid() && freep != 0 && 1 <= nunits
      requires out.At? ==> brk <= out.addr
      modifies this
      ensures Valid() && freep != 0
      ensures out.Fails? ==> p == 0 && Now() == old(Now()) && freep == old(freep)
      ensures out.At? ==>
        && p == freep
        && live == old(live) && Untouched(live, old(Now()), Now())
        && brk == out.addr + Grow(nunits) && owner.Keys == old(owner.Keys) + Range(out.addr, Grow(nunits))
        && FreedNear(ring, sz, freep, out.addr, nunits)
    {
      hide Whole, Range, Fresh, FreedNear;
      var nu := nunits;
      if nu < MIN_GROW {
        nu := MIN_GROW;
      }
      if out.Fails? {
        return 0;
      }
      var hp := out.addr;
      Grown(Now(), hp, nu);
      owner, brk, live := owner + Fresh(hp, nu), hp + nu, live + {hp};
      sz := sz[hp := nu];
      ghost var h := Now();
      Free(hp);
      assert old(live) + {hp} - {hp} == old(live);
      UntouchedOn(live, old(Now()), h, Now());
      FewerFreed(ring, sz, freep, hp, nu, nunits);
      assert live == old(live);
      p := freep;
    }

    /** The part of malloc that hands out nunits units of the free block p. */
    method Carve(prevp: int, p: int, nunits: int, ghost b: nat) returns (r: int)
      requires Valid() && freep != 0 && 0 < b < |ring| && p == ring[b] && prevp == ring[b - 1] && prevp != 0 && 0 < p
      requires p in sz && p in ptr && 1 <= nunits <= sz[p]
      modifies this
      ensures Valid() && freep != 0 && brk == old(brk) && r != 0
      ensures r - 1 !in old(live) && live == old(live) + {r - 1} && r - 1 in sz && sz[r - 1] == nunits
      ensures r - 1 + nunits == p + old(sz)[p] && freep == prevp
      ensures Untouched(old(live), old(Now()), Now()) && owner.Keys == old(owner.Keys)
    {
      hide Whole, Untouched;
      LiveSized(Now());
      if sz[p] == nunits {
        ghost var ring' := TakenWhole(Now(), b);
        ptr := ptr[prevp := ptr[p]];
        ring, live, freep := ring', live + {p}, prevp;
        return p + 1;
      } else {
        TakenTail(Now(), b, nunits);
        assert ring[b - 1] in ring;
        var q := p + sz[p] - nunits;
        sz := sz[p := sz[p] - nunits][q := nunits];
        owner, live, freep := Cut(owner, p, q), live + {q}, prevp;
        return q + 1;
      }
    }

    /** The first call of malloc makes the list of one empty block. */
    method Begin() returns (prevp: int)
      requires Valid()
      modifies this
      ensures Valid() && prevp == freep && freep != 0 && brk == old(brk)
      ensures live == old(live) && owner == old(owner) && Untouched(live, old(Now()), Now())
      ensures if old(freep) == 0 then old(ring) == [] && ring == [base] && sz == old(sz)[base := 0]
              else Now() == old(Now()) && freep == old(freep)
    {
      hide Whole;
      prevp := freep;
      if prevp == 0 {
        FirstUse(base, brk, sz, ptr);
        prevp, freep, ring := base, base, [base];
        ptr, sz := ptr[base := base], sz[base := 0];
      } else {
        LiveSized(Now());
      }
    }

    /** morecore as malloc calls it: the search goes on from freep and will succeed. */
    method Refill(nunits: int, out: Sbrk) returns (p: int, ghost f: nat)
      requires Valid() && freep != 0 && 1 <= nunits
      requires out.At? ==> brk <= out.addr
      modifies this
      ensures Valid() && freep != 0
      ensures out.Fails? ==> p == 0 && Now() == old(Now()) && freep == old(freep)
      ensures out.At? ==>
        && p == freep && live == old(live) && Untouched(live, old(Now()), Now())
        && brk == out.addr + Grow(nunits) && owner.Keys == old(owner.Keys) + Range(out.addr, Grow(nunits))
        && f < |ring| && ring[f] == p && Promised(ring, sz, nunits, f, After(|ring|, f))
    {
      hide Whole, Promised, Range, Untouched, FreedNear;
      f := 0;
      p := MoreCore(nunits, out);
      if out.At? {
        f := NearIndex(Now(), nunits, freep, out.addr);
      }
    }

    /** malloc, for a request whose size in bytes fits sbrk's int argument. `out` is
        what sbrk answers if it is asked, and `calls` counts the calls of morecore. If there
        are none, the block is the end of the first free block with room behind freep;
        `f` and `b` are their places in the list. */
    method Malloc(nbytes: nat, out: Sbrk) returns (r: int, ghost calls: nat, ghost f: nat, ghost b: nat)
      requires Valid() && nbytes + 2 * HEADER_BYTES <= INT_MAX + 1
      requires out.At? ==> brk <= out.addr
      modifies this
      ensures Valid() && freep != 0
      ensures calls <= 1 && (calls == 0 <==> SomeRoomy(old(ring), old(sz), nbytes))
      ensures r == 0 <==> calls == 1 && out.Fails?
      ensures r == 0 ==> live == old(live)
      ensures r != 0 ==>
        && r - 1 !in old(live) && live == old(live) + {r - 1}
        && r - 1 in sz && sz[r - 1] >= 1 && nbytes <= (sz[r - 1] - 1) * HEADER_BYTES
        && (sz[r - 1] == 1 || (sz[r - 1] - 2) * HEADER_BYTES < nbytes)
      ensures r != 0 && calls == 0 ==>
        && FirstRoomy(old(ring), old(sz), nbytes, f, b) && old(ring)[f] == old(freep)
        && 0 < b && freep == old(ring)[b - 1] && r - 1 + sz[r - 1] == old(ring)[b] + old(sz)[old(ring)[b]]
      ensures Untouched(old(live), old(Now()), Now())
      ensures if calls == 1 && out.At?
              then brk == out.addr + (if sz[r - 1] < MIN_GROW then MIN_GROW else sz[r - 1])
                   && owner.Keys == old(owner.Keys) + Range(out.addr, brk - out.addr)
              else owner.Keys == old(owner.Keys) && brk == old(brk)
    {
      hide Whole, Searching, Fits, Range, Untouched, Units, Promised, SomeRoomy, FirstRoomy, Scanned;
      calls := 0;
      var nunits := Units(nbytes);
      var prevp := Begin();
      ghost var start, startp := Now(), freep;
      RoomyFits(start.ring, start.sz, nbytes);
      NoneRoomy(old(sz), nbytes);
      UnitsLeast(nbytes, nunits);
      NothingFits(base, old(sz), nunits);
      UnitsLeast(nbytes, nunits - 1);
      f := SearchStart(start, freep, nunits, out);
      ghost var a := f;
      b := After(|ring|, f);
      var p := ptr[prevp];
      while true
        invariant Valid() && freep != 0 && live == old(live) && Untouched(live, old(Now()), Now())
        invariant Searching(Now(), start, freep, prevp, p, nunits, calls, out, f, a, b)
        invariant calls == 0 ==> freep == startp
        decreases 1 - calls, Left(|ring|, f, b)
      {
        SearchAt(Now(), start, freep, prevp, p, nunits, calls, out, f, a, b);
        ghost var before := Now();
        if sz[p] >= nunits {
          SearchHit(before, start, freep, prevp, p, nunits, calls, out, f, a, b);
          if calls == 0 {
            ScannedRoomy(ring, sz, nbytes, f, b);
          }
          r := Carve(prevp, p, nunits, b);
          UntouchedOn(old(live), old(Now()), before, Now());
          return;
        }
        if p == freep {
          SearchedAll(before, start, freep, prevp, p, nunits, calls, out, f, a, b);
          p, f := Refill(nunits, out);
          calls := 1;
          if p == 0 {
            return 0, 1, f, b;
          }
          UntouchedOn(live, old(Now()), before, Now());
          SearchAgain(Now(), start, freep, nunits, out, f);
          b := f;
        } else {
          SearchOn(before, start, freep, prevp, p, nunits, calls, out, f, a, b);
        }
        prevp, a := p, b;
        p, b := ptr[p], After(|ring|, b);
      }
    }
  }
}
