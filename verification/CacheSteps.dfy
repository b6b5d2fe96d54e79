/** The linked list of module BufferCache does what the buffer cache of module TxSystem
    does: every bget of the list is an eviction, if it recycles a buffer, and a bget there. */
module CacheSteps {
  import opened BufferCache
  import opened Common
  import opened RedoLog
  import opened TxSystem

  /** The arrays of struct buf. */
  datatype Bufs = Bufs(dev: seq<int>, blockno: seq<int>, valid: seq<bool>, refcnt: seq<nat>)

  predicate SameLength(f: Bufs) {
    |f.dev| == |f.blockno| == |f.valid| == |f.refcnt|
  }

  /** Buffer i holds block b of device d. */
  predicate Has(f: Bufs, d: int, i: int, b: int)
    requires SameLength(f)
  {
    0 <= i < |f.dev| && f.dev[i] == d && f.blockno[i] == b
  }

  /** The buffers for blocks of device d outside the log are the cache of s. */
  ghost predicate Shows(f: Bufs, d: int, c: Params, s: State) {
    && SameLength(f) && Unique(f.dev, f.blockno) && d != 0
    && (forall b :: b in s.cache ==> c.g.Home(b) && exists i :: Has(f, d, i, b))
    && (forall i, b :: Has(f, d, i, b) && c.g.Home(b) ==>
          b in s.cache && s.cache[b].valid == f.valid[i] && s.cache[b].refcnt == f.refcnt[i])
  }

  /** A block has one buffer. */
  lemma OneBuffer(f: Bufs, d: int, i: int, j: int, b: int)
    requires SameLength(f) && Unique(f.dev, f.blockno) && d != 0 && Has(f, d, i, b) && Has(f, d, j, b)
    ensures i == j
  {
  }

  function Counted(f: Bufs, i: int, n: nat): Bufs
    requires 0 <= i < |f.refcnt|
  {
    f.(refcnt := f.refcnt[i := n])
  }

  /** Changing the count of one buffer. */
  lemma CountShows(f: Bufs, d: int, c: Params, s: State, i: int, b: int, buf: Buf, n: nat)
    requires Shows(f, d, c, s) && Has(f, d, i, b) && c.g.Home(b) && b in s.cache
    requires buf.refcnt == n && buf.valid == s.cache[b].valid
    ensures Shows(Counted(f, i, n), d, c, SetBuf(s, b, buf))
  {
    var g, t := Counted(f, i, n), SetBuf(s, b, buf);
    forall x | x in t.cache ensures c.g.Home(x) && exists j :: Has(g, d, j, x) {
      var j :| Has(f, d, j, x);
      assert Has(g, d, j, x);
    }
    forall j, x | Has(g, d, j, x) && c.g.Home(x)
      ensures x in t.cache && t.cache[x].valid == g.valid[j] && t.cache[x].refcnt == g.refcnt[j]
    {
      assert Has(f, d, j, x);
      if x == b {
        OneBuffer(f, d, i, j, b);
      }
    }
  }

  /** Buffer i is given to block b of device d. */
  function Recycled(f: Bufs, i: int, d: int, b: int): Bufs
    requires SameLength(f) && 0 <= i < |f.dev|
  {
    Bufs(f.dev[i := d], f.blockno[i := b], f.valid[i := false], f.refcnt[i := 1])
  }

  /** The state after the eviction: without the block that buffer i was for, if that block
      is one of the cache. */
  function Evicted(f: Bufs, d: int, c: Params, s: State, i: int): State
    requires SameLength(f) && 0 <= i < |f.dev|
  {
    if f.dev[i] == d && c.g.Home(f.blockno[i]) then s.(cache := s.cache - {f.blockno[i]}) else s
  }

  lemma RecycleShows(f: Bufs, d: int, c: Params, s: State, i: int, b: int, buf: Buf)
    requires Shows(f, d, c, s) && 0 <= i < |f.dev| && c.g.Home(b) && (forall j :: !Has(f, d, j, b))
    requires Unique(f.dev[i := d], f.blockno[i := b]) && buf.refcnt == 1 && !buf.valid
    ensures Shows(Recycled(f, i, d, b), d, c, SetBuf(Evicted(f, d, c, s, i), b, buf))
  {
    var g, t := Recycled(f, i, d, b), SetBuf(Evicted(f, d, c, s, i), b, buf);
    forall x | x in t.cache ensures c.g.Home(x) && exists j :: Has(g, d, j, x) {
      if x == b {
        assert Has(g, d, i, x);
      } else {
        var j :| Has(f, d, j, x);
        assert j != i && Has(g, d, j, x);
      }
    }
    forall j, x | Has(g, d, j, x) && c.g.Home(x)
      ensures x in t.cache && t.cache[x].valid == g.valid[j] && t.cache[x].refcnt == g.refcnt[j]
    {
      if j != i {
        assert Has(f, d, j, x);
        if f.dev[i] == d && f.blockno[i] == x {
          OneBuffer(f, d, i, j, x);
        }
      }
    }
  }

  lemma VictimEvicts(f: Bufs, d: int, c: Params, s: State, i: int)
    requires Shows(f, d, c, s) && 0 <= i < |f.dev| && f.refcnt[i] == 0
    ensures Evicted(f, d, c, s, i) == s || EvictStep(s, f.blockno[i], Evicted(f, d, c, s, i))
  {
    if f.dev[i] == d && c.g.Home(f.blockno[i]) {
      assert Has(f, d, i, f.blockno[i]);
    }
  }

  ghost function BufsOf(cache: Cache): Bufs
    reads cache
  {
    Bufs(cache.dev, cache.blockno, cache.valid, cache.refcnt)
  }

  /** bget by p, of a block outside the log that p does not hold yet: an eviction or nothing,
      to `mid`, and then a bget step. */
  method BgetSteps(cache: Cache, d: int, b: int, ghost c: Params, ghost s: State, ghost p: Proc) returns (r: Found, ghost mid: State, ghost t: State)
    requires cache.Valid() && Shows(BufsOf(cache), d, c, s) && c.g.Home(b) && !s.phase.Recover?
    requires b in s.cache ==> p !in s.cache[b].users
    modifies cache`dev, cache`blockno, cache`valid, cache`refcnt
    ensures cache.Valid()
    ensures r.Buffer? ==> mid == s || exists v :: EvictStep(s, v, mid)
    ensures r.Buffer? ==> BgetStep(c, mid, p, b, t) && Shows(BufsOf(cache), d, c, t)
    ensures r.NoBuffers? ==> unchanged(cache) && mid == t == s
  {
    hide Linked, Complete, ByRelease;
    ghost var f := BufsOf(cache);
    ghost var hit := cache.Cached(d, b);
    mid, t := s, s;
    r := cache.Bget(d, b);
    if r.NoBuffers? {
      return;
    }
    if hit {
      assert Has(f, d, r.b, b) by {
        assert cache.dev == f.dev && cache.blockno == f.blockno;
      }
      ghost var buf := s.cache[b].(refcnt := s.cache[b].refcnt + 1, users := s.cache[b].users + {p});
      t := SetBuf(s, b, buf);
      CountShows(f, d, c, s, r.b, b, buf, f.refcnt[r.b] + 1);
      assert BufsOf(cache) == Counted(f, r.b, f.refcnt[r.b] + 1);
    } else {
      assert forall j :: !Has(f, d, j, b);
      assert b !in s.cache;
      VictimEvicts(f, d, c, s, r.b);
      mid := Evicted(f, d, c, s, r.b);
      ghost var buf := Buf([], false, 1, {p}, Free, false);
      t := SetBuf(mid, b, buf);
      RecycleShows(f, d, c, s, r.b, b, buf);
      assert BufsOf(cache) == Recycled(f, r.b, d, b);
    }
  }

  /** brelse, after the sleep lock is given back, is the end of a brelse step. */
  method BrelseSteps(cache: Cache, i: int, d: int, b: int, ghost c: Params, ghost s: State, ghost p: Proc) returns (ghost t: State)
    requires cache.Valid() && Shows(BufsOf(cache), d, c, s) && Has(BufsOf(cache), d, i, b) && cache.refcnt[i] > 0
    requires c.g.Home(b) && Holds(s, p, b) && !s.cache[b].touched
    modifies cache`next, cache`prev, cache`refcnt, cache`cyc, cache`released, cache`clock
    ensures cache.Valid() && BrelseStep(s, p, b, t) && Shows(BufsOf(cache), d, c, t)
  {
    hide Linked, Complete, ByRelease;
    ghost var f := BufsOf(cache);
    cache.Brelse(i);
    ghost var buf := s.cache[b].(refcnt := s.cache[b].refcnt - 1, users := s.cache[b].users - {p}, locker := Free);
    t := SetBuf(s, b, buf);
    CountShows(f, d, c, s, i, b, buf, f.refcnt[i] - 1);
    assert BufsOf(cache) == Counted(f, i, f.refcnt[i] - 1);
  }

  /** binit: the cache is empty, as after a crash or at boot. */
  method BinitSteps(n: nat, d: int, ghost c: Params, ghost s: State) returns (cache: Cache)
    requires d != 0 && s.cache == map[]
    ensures cache.Valid() && cache.n == n && Shows(BufsOf(cache), d, c, s)
  {
    cache := new Cache(n);
  }

  /** bpin in log_write, of a block that is new to the header. */
  method LogWriteSteps(cache: Cache, i: int, d: int, b: int, ghost c: Params, ghost s: State, ghost p: Proc) returns (ghost t: State)
    requires cache.Valid() && Shows(BufsOf(cache), d, c, s) && Has(BufsOf(cache), d, i, b) && c.g.Home(b)
    requires Holds(s, p, b) && s.cache[b].valid && p in s.ops && !LogWritePanics(c, s) && b !in s.lh && s.ops[p] < c.maxop
    modifies cache`refcnt
    ensures cache.Valid() && LogWriteStep(c, s, p, b, t) && Shows(BufsOf(cache), d, c, t)
  {
    hide Linked, Complete, ByRelease;
    ghost var f := BufsOf(cache);
    cache.Bpin(i);
    ghost var buf := s.cache[b].(refcnt := s.cache[b].refcnt + 1, touched := false);
    t := SetBuf(s, b, buf).(lh := s.lh + [b], ops := s.ops[p := s.ops[p] + 1]);
    CountShows(f, d, c, s, i, b, buf, f.refcnt[i] + 1);
    assert BufsOf(cache) == Counted(f, i, f.refcnt[i] + 1);
    SameCache(BufsOf(cache), d, c, SetBuf(s, b, buf), t);
  }

  lemma SameCache(f: Bufs, d: int, c: Params, s: State, t: State)
    requires Shows(f, d, c, s) && t.cache == s.cache
    ensures Shows(f, d, c, t)
  {
  }

  /** bread of a block that is cached and pinned, bunpin, and brelse. */
  method ReadUnpinRelease(cache: Cache, d: int, b: int, ghost c: Params, ghost s: State) returns (r: Found)
    requires cache.Valid() && Shows(BufsOf(cache), d, c, s) && b in s.cache && s.cache[b].refcnt > 0
    modifies cache
    ensures cache.Valid() && r.Buffer? && Has(old(BufsOf(cache)), d, r.b, b) && old(cache.refcnt)[r.b] > 0
    ensures BufsOf(cache) == Counted(old(BufsOf(cache)), r.b, old(cache.refcnt)[r.b] - 1)
  {
    hide Linked, Complete, ByRelease, Unique;
    ghost var f := BufsOf(cache);
    ghost var j :| Has(f, d, j, b);
    assert cache.dev[j] == d && cache.blockno[j] == b;
    assert cache.Cached(d, b);
    r := cache.Bget(d, b);
    assert Has(f, d, r.b, b);
    cache.Bunpin(r.b);
    cache.Brelse(r.b);
  }

  /** The buffer work of one turn of install_trans(0): bread, bunpin, brelse. */
  method InstallSteps(cache: Cache, d: int, b: int, ghost c: Params, ghost s: State) returns (r: Found, ghost t: State)
    requires cache.Valid() && Shows(BufsOf(cache), d, c, s)
    requires s.phase.Install? && s.phase.tail < |s.lh| && s.lh[s.phase.tail] == b && Unlocked(s, b) && s.cache[b].refcnt > 0
    requires 0 <= b < |s.disk| && 0 <= c.g.start + 1 + s.phase.tail < |s.disk|
    modifies cache
    ensures cache.Valid() && r.Buffer? && CopyHomeStep(c, s, t) && Shows(BufsOf(cache), d, c, t)
  {
    hide Linked, Complete, ByRelease;
    hide Unique;
    ghost var f := BufsOf(cache);
    r := ReadUnpinRelease(cache, d, b, c, s);
    ghost var data := s.disk[c.g.start + 1 + s.phase.tail];
    ghost var buf := s.cache[b].(data := data, refcnt := s.cache[b].refcnt - 1);
    t := SetBuf(s, b, buf).(disk := s.disk[b := data], phase := Install(s.phase.tail + 1));
    CountShows(f, d, c, s, r.b, b, buf, f.refcnt[r.b] - 1);
    SameCache(BufsOf(cache), d, c, SetBuf(s, b, buf), t);
  }
}
