/** The buffer cache (kernel/bio.c): a doubly linked list of all buffers in order of
    use, through the next and prev fields. Buffers are numbered 0 .. n - 1 and the list
    head is n. Each method is one critical section of bcache.lock, so a run of the
    methods is an interleaving of any number of processes. */
module BufferCache {
  import opened Common

  // ---------------------------------------------------------------------
  // Circular doubly linked lists

  /** The element after position i of the cycle. */
  function Succ(cyc: seq<int>, i: nat): int
    requires i < |cyc|
  {
    if i + 1 < |cyc| then cyc[i + 1] else cyc[0]
  }

  /** next and prev lead around the cycle, in both directions. */
  ghost predicate Linked(cyc: seq<int>, next: seq<int>, prev: seq<int>) {
    && |cyc| >= 1 && |next| == |prev|
    && (forall i :: 0 <= i < |cyc| ==> 0 <= cyc[i] < |next|)
    && (forall i {:trigger Succ(cyc, i)} :: 0 <= i < |cyc| ==> next[cyc[i]] == Succ(cyc, i) && prev[Succ(cyc, i)] == cyc[i])
  }

  /** The neighbours of the element at position k. */
  lemma Neighbours(cyc: seq<int>, next: seq<int>, prev: seq<int>, k: nat)
    requires Linked(cyc, next, prev) && 0 < k < |cyc|
    ensures prev[cyc[k]] == cyc[k - 1] && next[cyc[k]] == Succ(cyc, k)
    ensures next[cyc[k - 1]] == cyc[k] && prev[Succ(cyc, k)] == cyc[k]
  {
    assert Succ(cyc, k - 1) == cyc[k];
    assert next[cyc[k]] == Succ(cyc, k);
  }

  function Without(cyc: seq<int>, k: nat): seq<int>
    requires k < |cyc|
  {
    cyc[..k] + cyc[k + 1..]
  }

  /** b->next->prev = b->prev; b->prev->next = b->next, for b at position k. */
  lemma Unlink(cyc: seq<int>, next: seq<int>, prev: seq<int>, k: nat)
    requires Linked(cyc, next, prev) && Distinct(cyc) && 0 < k < |cyc|
    ensures var b := cyc[k];
            && 0 <= next[b] < |next| && 0 <= prev[b] < |next|
            && Linked(Without(cyc, k), next[prev[b] := next[b]], prev[next[b] := prev[b]])
            && Distinct(Without(cyc, k)) && b !in Without(cyc, k)
  {
    Neighbours(cyc, next, prev, k);
    var b, cyc' := cyc[k], Without(cyc, k);
    var next', prev' := next[prev[b] := next[b]], prev[next[b] := prev[b]];
    forall i | 0 <= i < |cyc'|
      ensures next'[cyc'[i]] == Succ(cyc', i) && prev'[Succ(cyc', i)] == cyc'[i]
    {
      var j := if i < k then i else i + 1;
      assert cyc'[i] == cyc[j];
      assert next[cyc[j]] == Succ(cyc, j) && prev[Succ(cyc, j)] == cyc[j];
    }
  }

  function AtFront(cyc: seq<int>, b: int): seq<int>
    requires |cyc| >= 1
  {
    [cyc[0], b] + cyc[1..]
  }

  /** Link b in right after the head. */
  lemma LinkFront(cyc: seq<int>, next: seq<int>, prev: seq<int>, b: int)
    requires Linked(cyc, next, prev) && Distinct(cyc) && b !in cyc && 0 <= b < |next|
    ensures var first := next[cyc[0]];
            && 0 <= first < |next|
            && Linked(AtFront(cyc, b), next[b := first][cyc[0] := b], prev[b := cyc[0]][first := b])
            && Distinct(AtFront(cyc, b))
  {
    var head, first, cyc' := cyc[0], next[cyc[0]], AtFront(cyc, b);
    assert first == Succ(cyc, 0);
    var next', prev' := next[b := first][head := b], prev[b := head][first := b];
    forall i | 0 <= i < |cyc'|
      ensures next'[cyc'[i]] == Succ(cyc', i) && prev'[Succ(cyc', i)] == cyc'[i]
    {
      if i >= 2 {
        assert cyc'[i] == cyc[i - 1];
        assert next[cyc[i - 1]] == Succ(cyc, i - 1) && prev[Succ(cyc, i - 1)] == cyc[i - 1];
      }
    }
  }

  // ---------------------------------------------------------------------
  // The order of use

  /** All buffers are in the cycle after the head n, once each. */
  ghost predicate Complete(n: nat, cyc: seq<int>) {
    && |cyc| >= 1 && cyc[0] == n
    && Distinct(cyc)
    && (forall i :: 1 <= i < |cyc| ==> 0 <= cyc[i] < n)
    && (forall b :: 0 <= b < n ==> b in cyc)
  }

  /** Unreferenced buffers are listed latest release first. */
  ghost predicate ByRelease(cyc: seq<int>, refcnt: seq<nat>, released: seq<int>) {
    forall i, j :: 1 <= i < j < |cyc| && InUse(cyc, refcnt, i) == 0 && InUse(cyc, refcnt, j) == 0 ==>
      Stamp(cyc, released, i) > Stamp(cyc, released, j)
  }

  function InUse(cyc: seq<int>, refcnt: seq<nat>, i: nat): int {
    if i < |cyc| && 0 <= cyc[i] < |refcnt| then refcnt[cyc[i]] else 1
  }

  function Stamp(cyc: seq<int>, released: seq<int>, i: nat): int {
    if i < |cyc| && 0 <= cyc[i] < |released| then released[cyc[i]] else 0
  }

  /** At most one buffer for each block of a real device. */
  ghost predicate Unique(dev: seq<int>, blockno: seq<int>)
    requires |dev| == |blockno|
  {
    forall i, j :: 0 <= i < j < |dev| && dev[i] == dev[j] && dev[i] != 0 ==> blockno[i] != blockno[j]
  }

  lemma StillComplete(n: nat, cyc: seq<int>, k: nat)
    requires Complete(n, cyc) && 0 < k < |cyc|
    requires Distinct(AtFront(Without(cyc, k), cyc[k]))
    ensures Complete(n, AtFront(Without(cyc, k), cyc[k]))
  {
    var cyc' := AtFront(Without(cyc, k), cyc[k]);
    forall b | 0 <= b < n ensures b in cyc' {
      var i := Place(n, cyc, b);
      assert cyc'[if i < k then i + 1 else if i == k then 1 else i] == b;
    }
  }

  /** brelse's six assignments move the buffer to the front of the list. */
  lemma MoveToFront(n: nat, cyc: seq<int>, next: seq<int>, prev: seq<int>, k: nat)
    requires Linked(cyc, next, prev) && Complete(n, cyc) && |next| == |prev| == n + 1 && 0 < k < |cyc|
    ensures var b := cyc[k];
            && 0 <= next[b] <= n && 0 <= prev[b] <= n && prev[b] != b
            && var next1, prev1 := next[prev[b] := next[b]], prev[next[b] := prev[b]];
            && 0 <= next1[n] <= n && next1[n] != b
            && Linked(AtFront(Without(cyc, k), b), next1[b := next1[n]][n := b], prev1[b := n][next1[n] := b])
            && Complete(n, AtFront(Without(cyc, k), b))
  {
    hide Linked, Distinct;
    var b := cyc[k];
    Unlink(cyc, next, prev, k);
    assert prev[b] != b && b != n && next[b] != b by {
      NotItself(cyc, next, prev, k);
    }
    var next1, prev1 := next[prev[b] := next[b]], prev[next[b] := prev[b]];
    LinkFront(Without(cyc, k), next1, prev1, b);
    StillComplete(n, cyc, k);
    assert next1[n] != b by {
      FirstIsListed(Without(cyc, k), next1, prev1);
    }
  }

  lemma NotItself(cyc: seq<int>, next: seq<int>, prev: seq<int>, k: nat)
    requires Linked(cyc, next, prev) && Distinct(cyc) && 0 < k < |cyc|
    ensures prev[cyc[k]] != cyc[k] && next[cyc[k]] != cyc[k] && cyc[k] != cyc[0]
  {
    Neighbours(cyc, next, prev, k);
  }

  lemma FirstIsListed(cyc: seq<int>, next: seq<int>, prev: seq<int>)
    requires Linked(cyc, next, prev)
    ensures next[cyc[0]] in cyc
  {
    assert next[cyc[0]] == Succ(cyc, 0);
  }

  /** Moving the buffer released now to the front keeps the order. */
  lemma StillByRelease(n: nat, cyc: seq<int>, refcnt: seq<nat>, released: seq<int>, k: nat, clock: int)
    requires Complete(n, cyc) && 0 < k < |cyc| && |refcnt| == |released| == n
    requires ByRelease(cyc, refcnt, released) && forall b :: 0 <= b < n ==> released[b] < clock
    ensures ByRelease(AtFront(Without(cyc, k), cyc[k]), refcnt[cyc[k] := 0], released[cyc[k] := clock])
  {
    var b, cyc' := cyc[k], AtFront(Without(cyc, k), cyc[k]);
    var refcnt', released' := refcnt[b := 0], released[b := clock];
    forall i, j | 1 <= i < j < |cyc'| && InUse(cyc', refcnt', i) == 0 && InUse(cyc', refcnt', j) == 0
      ensures Stamp(cyc', released', i) > Stamp(cyc', released', j)
    {
      var j0 := if j <= k then j - 1 else j;
      assert cyc'[j] == cyc[j0] && j0 != k;
      assert InUse(cyc, refcnt, j0) == 0;
      if i > 1 {
        var i0 := if i <= k then i - 1 else i;
        assert cyc'[i] == cyc[i0] && i0 != k;
        assert InUse(cyc, refcnt, i0) == 0;
        assert Stamp(cyc, released, i0) > Stamp(cyc, released, j0);
      }
    }
  }

  /** Taking references only removes buffers from the order. */
  lemma FewerUnused(cyc: seq<int>, refcnt: seq<nat>, released: seq<int>, b: int, c: nat)
    requires ByRelease(cyc, refcnt, released) && 0 <= b < |refcnt| && c > 0
    ensures ByRelease(cyc, refcnt[b := c], released)
  {
    forall i, j | 1 <= i < j < |cyc| && InUse(cyc, refcnt[b := c], i) == 0 && InUse(cyc, refcnt[b := c], j) == 0
      ensures Stamp(cyc, released, i) > Stamp(cyc, released, j)
    {
      assert InUse(cyc, refcnt, i) == 0 && InUse(cyc, refcnt, j) == 0;
    }
  }

  /** The last unreferenced buffer of the list was released before all others. */
  lemma LastIsOldest(n: nat, cyc: seq<int>, refcnt: seq<nat>, released: seq<int>, k: nat, c: int)
    requires Complete(n, cyc) && |refcnt| == |released| == n && ByRelease(cyc, refcnt, released)
    requires 0 < k < |cyc| && refcnt[cyc[k]] == 0 && forall i :: k < i < |cyc| ==> refcnt[cyc[i]] > 0
    requires 0 <= c < n && refcnt[c] == 0 && c != cyc[k]
    ensures released[c] > released[cyc[k]]
  {
    var i := Place(n, cyc, c);
    assert InUse(cyc, refcnt, i) == 0 && InUse(cyc, refcnt, k) == 0;
    assert Stamp(cyc, released, i) > Stamp(cyc, released, k);
  }

  lemma Place(n: nat, cyc: seq<int>, b: int) returns (k: nat)
    requires Complete(n, cyc) && 0 <= b < n
    ensures 0 < k < |cyc| && cyc[k] == b
  {
    assert b in cyc;
    k :| 0 <= k < |cyc| && cyc[k] == b;
  }

  /** The list that binit builds. */
  lemma AllListed(n: nat, cyc: seq<int>)
    requires |cyc| == n + 1 && cyc[0] == n && forall i :: 1 <= i < |cyc| ==> cyc[i] == n - i
    ensures Complete(n, cyc)
  {
    forall b | 0 <= b < n ensures b in cyc {
      assert cyc[n - b] == b;
    }
  }

  lemma FirstOrder(n: nat, cyc: seq<int>, refcnt: seq<nat>, released: seq<int>)
    requires |cyc| == n + 1 && |released| == n && (forall i :: 1 <= i < |cyc| ==> cyc[i] == n - i)
    requires forall b :: 0 <= b < n ==> released[b] == b
    ensures ByRelease(cyc, refcnt, released)
  {
  }

  // ---------------------------------------------------------------------
  // The code

  datatype Found = NoBuffers | Buffer(b: int)

  class Cache {
    const n: nat
    var next: seq<int>
    var prev: seq<int>
    var dev: seq<int>
    var blockno: seq<int>
    var valid: seq<bool>
    var refcnt: seq<nat>
    /** The list as it is linked, head first; when each buffer was last released. */
    ghost var cyc: seq<int>
    ghost var released: seq<int>
    ghost var clock: int

    ghost predicate Valid()
      reads this
    {
      && |next| == |prev| == n + 1 && |dev| == |blockno| == |valid| == |refcnt| == |released| == n
      && Linked(cyc, next, prev) && Complete(n, cyc)
      && ByRelease(cyc, refcnt, released) && (forall b :: 0 <= b < n ==> released[b] < clock)
      && Unique(dev, blockno)
    }

    ghost predicate Cached(d: int, bn: int)
      requires Valid()
      reads this
    {
      exists b :: 0 <= b < n && dev[b] == d && blockno[b] == bn
    }

    /** binit: all buffers start as block 0 of device 0. */
    constructor (n: nat)
      ensures Valid() && this.n == n
      ensures forall b :: 0 <= b < n ==> dev[b] == 0 && refcnt[b] == 0
    {
      this.n := n;
      var head := n;
      next, prev := seq(n + 1, _ => 0)[head := head], seq(n + 1, _ => 0)[head := head];
      dev, blockno, valid, refcnt := seq(n, _ => 0), seq(n, _ => 0), seq(n, _ => false), seq(n, _ => 0);
      cyc, released, clock := [n], seq(n, i => i), n;
      new;
      hide Complete, ByRelease;
      assert Succ(cyc, 0) == n;
      var b := 0;
      while b < n
        modifies `next, `prev, `cyc
        invariant 0 <= b <= n && |next| == |prev| == n + 1
        invariant Linked(cyc, next, prev) && Distinct(cyc)
        invariant |cyc| == b + 1 && cyc[0] == n && forall i :: 1 <= i < |cyc| ==> cyc[i] == b - i
      {
        LinkFront(cyc, next, prev, b);
        assert next[head] == Succ(cyc, 0);
        next := next[b := next[head]];
        prev := prev[b := head];
        prev := prev[next[head] := b];
        next := next[head := b];
        cyc, b := AtFront(cyc, b), b + 1;
      }
      AllListed(n, cyc);
      FirstOrder(n, cyc, refcnt, released);
    }

    /** First loop of bget, from most to least recently used. */
    method Lookup(d: int, bn: int) returns (r: Found)
      requires Valid()
      ensures r.NoBuffers? <==> !Cached(d, bn)
      ensures r.Buffer? ==> 0 <= r.b < n && dev[r.b] == d && blockno[r.b] == bn
    {
      ghost var i := 0;
      assert next[n] == Succ(cyc, 0);
      var b := next[n];
      i := if |cyc| == 1 then 0 else 1;
      while b != n
        invariant 0 <= i < |cyc| && b == cyc[i]
        invariant forall j :: 1 <= j < (if i == 0 then |cyc| else i) ==> !(dev[cyc[j]] == d && blockno[cyc[j]] == bn)
        decreases if i == 0 then 0 else |cyc| - i
      {
        assert i > 0;
        if dev[b] == d && blockno[b] == bn {
          return Buffer(b);
        }
        assert next[cyc[i]] == Succ(cyc, i);
        b := next[b];
        i := if i + 1 < |cyc| then i + 1 else 0;
      }
      assert i == 0;
      forall c | 0 <= c < n ensures !(dev[c] == d && blockno[c] == bn) {
        var j := Place(n, cyc, c);
      }
      return NoBuffers;
    }

    /** Second loop of bget: the least recently used buffer nobody refers to. */
    method Victim() returns (r: Found)
      requires Valid()
      ensures r.NoBuffers? <==> forall c :: 0 <= c < n ==> refcnt[c] > 0
      ensures r.Buffer? ==> 0 <= r.b < n && refcnt[r.b] == 0
      ensures r.Buffer? ==> forall c :: 0 <= c < n && refcnt[c] == 0 && c != r.b ==> released[c] > released[r.b]
    {
      ghost var i := |cyc| - 1;
      assert prev[Succ(cyc, i)] == cyc[i];
      var b := prev[n];
      while b != n
        invariant 0 <= i < |cyc| && b == cyc[i]
        invariant forall j :: i < j < |cyc| ==> refcnt[cyc[j]] > 0
        decreases i
      {
        assert i > 0;
        if refcnt[b] == 0 {
          forall c | 0 <= c < n && refcnt[c] == 0 && c != b ensures released[c] > released[b] {
            LastIsOldest(n, cyc, refcnt, released, i, c);
          }
          return Buffer(b);
        }
        assert prev[Succ(cyc, i - 1)] == cyc[i - 1];
        b, i := prev[b], i - 1;
      }
      assert i == 0;
      forall c | 0 <= c < n ensures refcnt[c] > 0 {
        var j := Place(n, cyc, c);
      }
      return NoBuffers;
    }

    /** bget, up to taking the sleep lock; NoBuffers is the panic. */
    method Bget(d: int, bn: int) returns (r: Found)
      requires Valid()
      modifies `dev, `blockno, `valid, `refcnt
      ensures Valid()
      ensures r.NoBuffers? <==> !old(Cached(d, bn)) && forall c :: 0 <= c < n ==> old(refcnt[c]) > 0
      ensures r.NoBuffers? ==> unchanged(this)
      ensures r.Buffer? ==> 0 <= r.b < n && dev[r.b] == d && blockno[r.b] == bn && refcnt[r.b] > 0
      ensures r.Buffer? && old(Cached(d, bn)) ==>
        dev == old(dev) && blockno == old(blockno) && valid == old(valid) && refcnt == old(refcnt[r.b := refcnt[r.b] + 1])
      ensures r.Buffer? && !old(Cached(d, bn)) ==>
        && old(refcnt[r.b]) == 0
        && (forall c :: 0 <= c < n && old(refcnt[c]) == 0 && c != r.b ==> released[c] > released[r.b])
        && dev == old(dev)[r.b := d] && blockno == old(blockno)[r.b := bn]
        && valid == old(valid)[r.b := false] && refcnt == old(refcnt)[r.b := 1]
    {
      r := Lookup(d, bn);
      if r.Buffer? {
        FewerUnused(cyc, refcnt, released, r.b, refcnt[r.b] + 1);
        refcnt := refcnt[r.b := refcnt[r.b] + 1];
        return;
      }
      r := Victim();
      if r.Buffer? {
        FewerUnused(cyc, refcnt, released, r.b, 1);
        dev := dev[r.b := d];
        blockno := blockno[r.b := bn];
        valid := valid[r.b := false];
        refcnt := refcnt[r.b := 1];
      }
    }

    /** brelse, after the sleep lock is given back. */
    method Brelse(b: int)
      requires Valid() && 0 <= b < n && refcnt[b] > 0
      modifies `next, `prev, `refcnt, `cyc, `released, `clock
      ensures Valid()
      ensures refcnt == old(refcnt)[b := old(refcnt[b]) - 1]
      ensures refcnt[b] > 0 ==> cyc == old(cyc)
      ensures refcnt[b] == 0 ==>
        && |cyc| >= 2 && cyc[1] == b && released[b] == old(clock) && released == old(released)[b := old(clock)]
        && exists k :: 0 < k < |old(cyc)| && old(cyc)[k] == b && cyc == AtFront(Without(old(cyc), k), b)
    {
      hide Linked, Complete, ByRelease, Unique;
      ghost var k := Place(n, cyc, b);
      var head := n;
      if refcnt[b] > 1 {
        FewerUnused(cyc, refcnt, released, b, refcnt[b] - 1);
      }
      refcnt := refcnt[b := refcnt[b] - 1];
      if refcnt[b] == 0 {
        MoveToFront(n, cyc, next, prev, k);
        StillByRelease(n, cyc, old(refcnt), released, k, clock);
        prev := prev[next[b] := prev[b]];
        next := next[prev[b] := next[b]];
        next := next[b := next[head]];
        prev := prev[b := head];
        prev := prev[next[head] := b];
        next := next[head := b];
        cyc, released, clock := AtFront(Without(cyc, k), b), released[b := clock], clock + 1;
        assert cyc == AtFront(Without(old(cyc), k), b);
      }
      hide AtFront, Without;
    }

    method Bpin(b: int)
      requires Valid() && 0 <= b < n
      modifies `refcnt
      ensures Valid() && refcnt == old(refcnt)[b := old(refcnt[b]) + 1]
    {
      FewerUnused(cyc, refcnt, released, b, refcnt[b] + 1);
      refcnt := refcnt[b := refcnt[b] + 1];
    }

    /** bunpin, by a caller that still holds the buffer. */
    method Bunpin(b: int)
      requires Valid() && 0 <= b < n && refcnt[b] > 1
      modifies `refcnt
      ensures Valid() && refcnt == old(refcnt)[b := old(refcnt[b]) - 1]
    {
      FewerUnused(cyc, refcnt, released, b, refcnt[b] - 1);
      refcnt := refcnt[b := refcnt[b] - 1];
    }
  }
}
