/** balloc, bfree, bmap, itrunc, iput, iupdate, readi and writei (kernel/fs.c), and the
    chunking of writes in filewrite (kernel/file.c). Methods return false where the kernel
    panics for want of free blocks. */
module FileOps {
  import opened Bytes
  import opened FileSystem

  const IPB: int := 16           // inodes per block
  const MAXOPBLOCKS: int := 10

  /** All addresses and data are as before, and block bn of file i is at addr. */
  ghost predicate Extended(f: Fs, g: Fs, i: int, bn: int, addr: int) {
    && |g.blocks| == |f.blocks| == |g.use| == |f.use| && |g.inodes| == |f.inodes|
    && (forall j :: 0 <= j < |f.inodes| ==> SameButAddrs(f.inodes[j], g.inodes[j]) && (j != i ==> g.inodes[j] == f.inodes[j]))
    && (forall j, n :: 0 <= j < |f.inodes| && 0 <= n < MAXFILE ==>
          Addr(g, j, n) == if j == i && n == bn then addr else Addr(f, j, n))
    && (forall c :: 0 <= c < |f.use| && f.use[c].Data? ==> g.blocks[c] == f.blocks[c])
    && UsesKept(f, g, i)
    && (Addr(f, i, bn) != 0 ==> addr == Addr(f, i, bn))
    && (Slot(f, i, NDIRECT) != 0 ==> Slot(g, i, NDIRECT) == Slot(f, i, NDIRECT))
    && addr != 0
  }

  /** Blocks in use stay in that use, and a free block stays free or goes to file i. */
  predicate UsesKept(f: Fs, g: Fs, i: int) {
    && |g.use| == |f.use|
    && forall c :: 0 <= c < |f.use| ==>
         if f.use[c] != Unused then g.use[c] == f.use[c] else g.use[c] == Unused || OfFile(g.use[c], i)
  }

  /** Then no block is lost: nothing is left allocated but not entered. */
  lemma StillSettled(f: Fs, g: Fs, i: int, nmeta: int)
    requires UsesKept(f, g, i) && Settled(f, nmeta)
    ensures Settled(g, nmeta)
  {
  }

  /** The free map block with the bit of block b. */
  function MapBlock(bmapstart: int, b: int): int {
    b / BPB + bmapstart
  }

  /** The blocks bmap must log for block bn: the map blocks of what it allocates, and a
      new indirect block. */
  ghost predicate BmapLogged(f: Fs, g: Fs, i: int, bn: int, bmapstart: int, logged: set<int>) {
    && (Addr(f, i, bn) == 0 ==> MapBlock(bmapstart, Addr(g, i, bn)) in logged)
    && (Slot(f, i, NDIRECT) == 0 && Slot(g, i, NDIRECT) != 0 ==>
          Slot(g, i, NDIRECT) in logged && MapBlock(bmapstart, Slot(g, i, NDIRECT)) in logged)
  }

  predicate SameButAddrs(a: Inode, b: Inode) {
    b.typ == a.typ && b.nlink == a.nlink && b.size == a.size
  }

  /** balloc, then entry of the block into the file. */
  lemma AllocEntered(f: Fs, b: int, g: Fs, i: int, bn: int)
    requires FsOk(f) && 0 <= b < |f.bits| && f.use[b] == Unused && 0 <= i < |f.inodes| && 0 <= bn < MAXFILE
    requires Addr(f, i, bn) == 0 && b != 0
    requires Entered(Alloc(f, b), g, b, Data(i, bn))
    requires forall j :: 0 <= j < |f.inodes| ==> SameButAddrs(f.inodes[j], g.inodes[j]) && (j != i ==> g.inodes[j] == f.inodes[j])
    requires forall c :: 0 <= c < |f.use| && f.use[c].Data? ==> g.blocks[c] == f.blocks[c]
    ensures Extended(f, g, i, bn, b)
  {
    assert Slot(Alloc(f, b), i, NDIRECT) == Slot(f, i, NDIRECT);
    hide Addr, Slot;
    forall j, n | 0 <= j < |f.inodes| && 0 <= n < MAXFILE
      ensures Addr(g, j, n) == if j == i && n == bn then b else Addr(f, j, n)
    {
      AllocAddr(f, b, j, n);
    }
  }

  /** The indirect block is new and zero, so no address appears in it. */
  lemma AllocIndirect(f: Fs, b: int, g: Fs, i: int)
    requires FsOk(f) && 0 < b < |f.bits| && f.use[b] == Unused && 0 <= i < |f.inodes|
    requires Entered(Alloc(f, b), g, b, Ind(i))
    requires forall j :: 0 <= j < |f.inodes| ==> SameButAddrs(f.inodes[j], g.inodes[j]) && (j != i ==> g.inodes[j] == f.inodes[j])
    requires g.blocks == Alloc(f, b).blocks
    ensures Kept(f, g, i)
  {
    assert Slot(Alloc(f, b), i, NDIRECT) == Slot(f, i, NDIRECT);
    hide Addr, Slot;
    forall j, n | 0 <= j < |f.inodes| && 0 <= n < MAXFILE ensures Addr(g, j, n) == Addr(f, j, n) {
      AllocAddr(f, b, j, n);
    }
  }

  /** All addresses and data are as before. */
  ghost predicate Kept(f: Fs, g: Fs, i: int) {
    && |g.blocks| == |f.blocks| == |g.use| == |f.use| && |g.inodes| == |f.inodes|
    && (forall j :: 0 <= j < |f.inodes| ==> SameButAddrs(f.inodes[j], g.inodes[j]) && (j != i ==> g.inodes[j] == f.inodes[j]))
    && (forall j, n :: 0 <= j < |f.inodes| && 0 <= n < MAXFILE ==> Addr(g, j, n) == Addr(f, j, n))
    && (forall c :: 0 <= c < |f.use| && f.use[c].Data? ==> g.blocks[c] == f.blocks[c])
    && UsesKept(f, g, i)
    && (Slot(f, i, NDIRECT) != 0 ==> Slot(g, i, NDIRECT) == Slot(f, i, NDIRECT))
  }

  /** The indirect block of i, if it has one. */
  function IndSet(f: Fs, i: int): set<int> {
    if Slot(f, i, NDIRECT) == 0 then {} else {Slot(f, i, NDIRECT)}
  }

  lemma IndSetGrows(f: Fs, g: Fs, i: int)
    requires Slot(f, i, NDIRECT) != 0 ==> Slot(g, i, NDIRECT) == Slot(f, i, NDIRECT)
    ensures IndSet(f, i) <= IndSet(g, i)
  {
  }

  lemma KeptThenExtended(f: Fs, g: Fs, h: Fs, i: int, bn: int, addr: int)
    requires Kept(f, g, i) && Extended(g, h, i, bn, addr) && 0 <= i < |f.inodes| && 0 <= bn < MAXFILE
    ensures Extended(f, h, i, bn, addr)
  {
    hide Addr;
  }

  // ---------------------------------------------------------------------
  // The code

  class Disk {
    const nmeta: int
    const inodestart: int
    const bmapstart: int
    var bits: seq<bool>
    var blocks: seq<Block>
    /** The inodes in memory, and as they stand in the inode blocks. */
    var inodes: seq<Inode>
    var dinodes: seq<Inode>
    ghost var use: seq<Use>
    /** Blocks passed to log_write since begin_op. */
    ghost var logged: set<int>

    /** A disk with nothing in memory. */
    constructor (nmeta: int, inodestart: int, bmapstart: int, bits: seq<bool>, blocks: seq<Block>, inodes: seq<Inode>, ghost use: seq<Use>)
      ensures S() == Fs(bits, blocks, inodes, use) && dinodes == inodes && logged == {}
      ensures this.nmeta == nmeta && this.inodestart == inodestart && this.bmapstart == bmapstart
    {
      this.nmeta, this.inodestart, this.bmapstart := nmeta, inodestart, bmapstart;
      this.bits, this.blocks, this.inodes, this.dinodes := bits, blocks, inodes, inodes;
      this.use, this.logged := use, {};
    }

    ghost function S(): Fs
      reads this
    {
      Fs(bits, blocks, inodes, use)
    }

    function BBlock(b: int): int {
      MapBlock(bmapstart, b)
    }

    function IBlock(i: int): int {
      i / IPB + inodestart
    }

    /** balloc: the first free block, marked and zeroed. */
    method Balloc() returns (ok: bool, b: int)
      requires FsOk(S())
      modifies `bits, `blocks, `use, `logged
      ensures FsOk(S()) && (!ok ==> unchanged(this) && forall c :: 0 <= c < |bits| ==> bits[c])
      ensures ok <==> |FreeSet(old(bits))| > 0
      ensures ok ==> |FreeSet(bits)| == |FreeSet(old(bits))| - 1
      ensures ok ==>
        && 0 < b < |old(bits)| && !old(bits)[b] && (forall c :: 0 <= c < b ==> old(bits)[c]) && old(use)[b] == Unused
        && S() == Alloc(old(S()), b) && logged == old(logged) + {BBlock(b), b}
    {
      hide Addr, InodeOk;
      assert BlockOk(S(), 0);
      b := 0;
      while b < |bits|
        invariant 0 <= b && unchanged(this) && forall c :: 0 <= c < b && c < |bits| ==> bits[c]
        decreases |bits| - b
      {
        var bi := 0;
        while bi < BPB && b + bi < |bits|
          invariant 0 <= bi <= BPB && unchanged(this) && forall c :: 0 <= c < b + bi && c < |bits| ==> bits[c]
          decreases BPB - bi
        {
          if !bits[b + bi] {
            assert BlockOk(S(), b + bi);
            AllocOk(S(), b + bi);
            FreeTaken(bits, b + bi);
            bits := bits[b + bi := true];
            blocks := blocks[b + bi := Zeros()];
            use := use[b + bi := Taken];
            logged := logged + {BBlock(b + bi), b + bi};
            return true, b + bi;
          }
          bi := bi + 1;
        }
        b := b + BPB;
      }
      assert FreeSet(bits) == {};
      return false, 0;
    }

    /** bfree; a block whose bit is clear would be a panic. */
    method Bfree(b: int)
      requires 0 <= b < |bits| == |use| && bits[b]
      modifies `bits, `use, `logged
      ensures bits == old(bits)[b := false] && use == old(use)[b := Unused] && logged == old(logged) + {BBlock(b)}
    {
      bits := bits[b := false];
      use := use[b := Unused];
      logged := logged + {BBlock(b)};
    }

    method BmapDirect(i: int, bn: int) returns (ok: bool, addr: int, ghost maps: set<int>)
      requires FsOk(S()) && 0 <= i < |inodes| && 0 <= bn < NDIRECT
      modifies `bits, `blocks, `use, `inodes, `logged
      ensures ok ==> FsOk(S()) && Extended(old(S()), S(), i, bn, addr)
      ensures Addr(old(S()), i, bn) != 0 ==> ok && unchanged(this) && maps == {}
      ensures ok ==> logged <= old(logged) + maps + {addr} && |maps| <= 1
      ensures ok ==> old(logged) <= logged && BmapLogged(old(S()), S(), i, bn, bmapstart, logged)
      ensures ok ==> Slot(S(), i, NDIRECT) == Slot(old(S()), i, NDIRECT)
      ensures ok <==> |FreeSet(old(bits))| >= NewBlocks(old(S()), i, bn)
      ensures ok ==> |FreeSet(bits)| == |FreeSet(old(bits))| - NewBlocks(old(S()), i, bn)
    {
      hide Addr, Slot, Entered, FreeSet;
      SlotIs(S(), i, bn);
      SlotIs(S(), i, NDIRECT);
      addr := inodes[i].addrs[bn];
      maps := {};
      if addr == 0 {
        ok, addr := Balloc();
        if !ok {
          return;
        }
        ghost var f := S();
        maps := {BBlock(addr)};
        AllocAddr(old(S()), addr, i, bn);
        EnterDirect(f, i, bn, addr);
        inodes := inodes[i := inodes[i].(addrs := inodes[i].addrs[bn := addr])];
        use := use[addr := Data(i, bn)];
        AllocEntered(old(S()), addr, S(), i, bn);
        ExtendedFacts(old(S()), S(), i, bn, addr);
        SlotIs(S(), i, NDIRECT);
      } else {
        NothingNew(S(), i, bn);
        ok := true;
      }
    }

    method EnsureIndirect(i: int) returns (ok: bool, ghost maps: set<int>)
      requires FsOk(S()) && 0 <= i < |inodes|
      modifies `bits, `blocks, `use, `inodes, `logged
      ensures ok ==> FsOk(S()) && Kept(old(S()), S(), i) && Slot(S(), i, NDIRECT) != 0 && |inodes| == |old(inodes)|
      ensures Slot(old(S()), i, NDIRECT) != 0 ==> ok && unchanged(this) && maps == {}
      ensures ok ==> logged <= old(logged) + maps + {Slot(S(), i, NDIRECT)} && |maps| <= 1 && old(logged) <= logged
      ensures ok && Slot(old(S()), i, NDIRECT) == 0 ==>
        Slot(S(), i, NDIRECT) in logged && BBlock(Slot(S(), i, NDIRECT)) in logged
      ensures ok <==> |FreeSet(old(bits))| >= (if Slot(old(S()), i, NDIRECT) == 0 then 1 else 0)
      ensures ok ==> |FreeSet(bits)| == |FreeSet(old(bits))| - (if Slot(old(S()), i, NDIRECT) == 0 then 1 else 0)
    {
      hide Addr, Slot, Entered, FreeSet;
      SlotIs(S(), i, NDIRECT);
      var addr := inodes[i].addrs[NDIRECT];
      maps := {};
      if addr == 0 {
        ok, addr := Balloc();
        if !ok {
          return;
        }
        maps := {BBlock(addr)};
        SlotIs(S(), i, NDIRECT);
        EnterIndirect(S(), i, addr);
        inodes := inodes[i := inodes[i].(addrs := inodes[i].addrs[NDIRECT := addr])];
        use := use[addr := Ind(i)];
        AllocIndirect(old(S()), addr, S(), i);
        SlotIs(S(), i, NDIRECT);
      } else {
        ok := true;
      }
    }

    /** The last part of bmap: a block for an entry of the indirect block that has none. */
    method AddEntry(i: int, bn: int) returns (ok: bool, addr: int)
      requires FsOk(S()) && 0 <= i < |inodes| && NDIRECT <= bn < MAXFILE
      requires Slot(S(), i, NDIRECT) != 0 && Addr(S(), i, bn) == 0
      modifies `bits, `blocks, `use, `logged
      ensures ok ==> FsOk(S()) && Extended(old(S()), S(), i, bn, addr) && Slot(S(), i, NDIRECT) != 0
      ensures ok ==> logged == old(logged) + {BBlock(addr), addr, Slot(S(), i, NDIRECT)}
      ensures ok <==> |FreeSet(old(bits))| > 0
      ensures ok ==> |FreeSet(bits)| == |FreeSet(old(bits))| - 1
    {
      hide Addr, Slot, Entered, Extended, FreeSet, SetWord;
      ghost var f := S();
      ok, addr := Balloc();
      if !ok {
        return;
      }
      ghost var g := S();
      SlotIs(f, i, NDIRECT);
      SlotIs(g, i, NDIRECT);
      IndBlock(f, i);
      AllocAddr(f, addr, i, bn);
      EnterEntry(g, i, bn, addr);
      var ind := inodes[i].addrs[NDIRECT];
      blocks := blocks[ind := SetWord(blocks[ind], bn - NDIRECT, addr)];
      logged := logged + {ind};
      use := use[addr := Data(i, bn)];
      EntryFrame(f, addr, S(), i, bn);
      AllocEntered(f, addr, S(), i, bn);
      SlotIs(S(), i, NDIRECT);
    }

    method BmapIndirect(i: int, bn: int) returns (ok: bool, addr: int, ghost maps: set<int>)
      requires FsOk(S()) && 0 <= i < |inodes| && NDIRECT <= bn < MAXFILE
      modifies `bits, `blocks, `use, `inodes, `logged
      ensures ok ==> FsOk(S()) && Extended(old(S()), S(), i, bn, addr) && Slot(S(), i, NDIRECT) != 0
      ensures Addr(old(S()), i, bn) != 0 ==> ok && unchanged(this) && maps == {}
      ensures ok ==> logged <= old(logged) + maps + {addr, Slot(S(), i, NDIRECT)} && |maps| <= NewBlocks(old(S()), i, bn)
      ensures ok ==> old(logged) <= logged && BmapLogged(old(S()), S(), i, bn, bmapstart, logged)
      ensures ok <==> |FreeSet(old(bits))| >= NewBlocks(old(S()), i, bn)
      ensures ok ==> |FreeSet(bits)| == |FreeSet(old(bits))| - NewBlocks(old(S()), i, bn)
    {
      hide FsOk, Addr, Slot, Extended, Kept, FreeSet;
      EntryNeedsIndirect(S(), i, bn);
      addr := 0;
      ok, maps := EnsureIndirect(i);
      if !ok {
        return;
      }
      ghost var f := S();
      SlotIs(f, i, NDIRECT);
      IndBlock(f, i);
      EntryIs(f, i, bn);
      KeptAddr(old(S()), f, i, i, bn);
      addr := Word(blocks[inodes[i].addrs[NDIRECT]], bn - NDIRECT);
      if addr == 0 {
        ok, addr := AddEntry(i, bn);
        if !ok {
          return;
        }
        maps := maps + {BBlock(addr)};
      } else {
        UsePerBlock(f);
        NothingNew(f, i, bn);
        ok := true;
      }
      ExtendedFacts(f, S(), i, bn, addr);
      KeptThenExtended(old(S()), f, S(), i, bn, addr);
      ExtendedFacts(old(S()), S(), i, bn, addr);
    }

    /** bmap: the address of block bn of file i, allocated if there was none. */
    method Bmap(i: int, bn: int) returns (ok: bool, addr: int, ghost maps: set<int>)
      requires FsOk(S()) && 0 <= i < |inodes| && 0 <= bn < MAXFILE
      modifies `bits, `blocks, `use, `inodes, `logged
      ensures ok ==> FsOk(S()) && Extended(old(S()), S(), i, bn, addr)
      ensures Addr(old(S()), i, bn) != 0 ==> ok && unchanged(this) && maps == {}
      ensures ok ==> logged <= old(logged) + maps + {addr} + IndSet(S(), i) && |maps| <= NewBlocks(old(S()), i, bn)
      ensures ok && bn >= NDIRECT ==> Slot(S(), i, NDIRECT) != 0
      ensures ok ==> old(logged) <= logged && BmapLogged(old(S()), S(), i, bn, bmapstart, logged)
      ensures ok && bn < NDIRECT ==> Slot(S(), i, NDIRECT) == Slot(old(S()), i, NDIRECT)
      ensures ok <==> |FreeSet(old(bits))| >= NewBlocks(old(S()), i, bn)
      ensures ok ==> |FreeSet(bits)| == |FreeSet(old(bits))| - NewBlocks(old(S()), i, bn)
      ensures ok && Settled(old(S()), nmeta) ==> Settled(S(), nmeta) && Conserved(S(), nmeta)
    {
      hide FsOk, Extended, Slot, Addr, FreeSet, Settled, Conserved;
      if bn < NDIRECT {
        ok, addr, maps := BmapDirect(i, bn);
      } else {
        ok, addr, maps := BmapIndirect(i, bn);
      }
      if ok && Settled(old(S()), nmeta) {
        ExtendedUses(old(S()), S(), i, bn, addr);
        StillSettled(old(S()), S(), i, nmeta);
        BlocksConserved(S(), nmeta);
      }
    }

    /** iupdate: the inode goes to its inode block. */
    method Iupdate(i: int)
      requires 0 <= i < |inodes| == |dinodes|
      modifies `dinodes, `logged
      ensures dinodes == old(dinodes)[i := inodes[i]] && logged == old(logged) + {IBlock(i)}
    {
      dinodes := dinodes[i := inodes[i]];
      logged := logged + {IBlock(i)};
    }

    ghost predicate Valid()
      reads this
    {
      FsOk(S()) && Settled(S(), nmeta) && AllComplete(S()) && dinodes == inodes
    }

    /** itrunc: all blocks of the file are freed, each once, and none was free. */
    method Itrunc(i: int)
      requires Valid() && 0 <= i < |inodes|
      modifies `bits, `use, `inodes, `dinodes, `logged
      ensures Valid() && Truncated(old(S()), S(), i) && |inodes| == |old(inodes)| && Conserved(S(), nmeta)
    {
      hide Addr, Slot, Word, InodeOk, AllComplete, Settled, Conserved;
      ghost var f := S();
      SlotIs(f, i, NDIRECT);
      NothingFreed(f, i);
      var k := 0;
      while k < NDIRECT
        invariant 0 <= k <= NDIRECT && FreedTo(f, bits, use, i, k) && inodes == ClearedSlots(f, i, k)
        invariant dinodes == f.inodes && blocks == f.blocks
      {
        SlotIs(f, i, k);
        ClearedStep(f, i, k);
        if inodes[i].addrs[k] != 0 {
          FileBlock(f, bits, use, i, k);
          Bfree(inodes[i].addrs[k]);
          inodes := inodes[i := inodes[i].(addrs := inodes[i].addrs[k := 0])];
        } else {
          NoBlock(f, bits, use, i, k);
        }
        k := k + 1;
      }
      if inodes[i].addrs[NDIRECT] != 0 {
        IndBlock(f, i);
        FreeEntries(i, f);
        IndirectLast(f, bits, use, i);
        Bfree(inodes[i].addrs[NDIRECT]);
        inodes := inodes[i := inodes[i].(addrs := inodes[i].addrs[NDIRECT := 0])];
      } else {
        NoIndirect(f, bits, use, i);
      }
      inodes := inodes[i := inodes[i].(size := 0)];
      Iupdate(i);
      assert inodes[i].addrs == seq(NDIRECT + 1, _ => 0);
      assert Truncated(f, S(), i) by {
        AllGone(f, S(), i);
      }
      TruncatedOk(f, S(), i);
      TruncatedComplete(f, S(), i);
      TruncatedSettled(f, S(), i, nmeta);
      BlocksConserved(S(), nmeta);
    }

    /** The loop of itrunc over the entries of the indirect block. */
    method FreeEntries(i: int, ghost f: Fs)
      requires FsOk(f) && 0 <= i < |f.inodes| && Slot(f, i, NDIRECT) != 0 && FreedTo(f, bits, use, i, NDIRECT)
      requires blocks == f.blocks && 0 <= i < |inodes| && |inodes[i].addrs| == NDIRECT + 1
      requires inodes[i].addrs[NDIRECT] == Slot(f, i, NDIRECT)
      modifies `bits, `use, `logged
      ensures FreedTo(f, bits, use, i, MAXFILE)
    {
      hide Addr, Slot, Word, InodeOk, BlockOk;
      IndBlock(f, i);
      var ind := inodes[i].addrs[NDIRECT];
      var j := 0;
      while j < NINDIRECT
        invariant 0 <= j <= NINDIRECT && FreedTo(f, bits, use, i, NDIRECT + j)
      {
        EntryIs(f, i, NDIRECT + j);
        var a := Word(blocks[ind], j);
        if a != 0 {
          FileBlock(f, bits, use, i, NDIRECT + j);
          Bfree(a);
        } else {
          NoBlock(f, bits, use, i, NDIRECT + j);
        }
        j := j + 1;
      }
    }

    /** iput, of a reference count `refs`: the last reference to an unlinked file
        discards its contents and frees the inode. */
    method Iput(i: int, refs: int) returns (left: int)
      requires Valid() && 0 <= i < |inodes|
      modifies `bits, `use, `inodes, `dinodes, `logged
      ensures Valid() && left == refs - 1 && |inodes| == |old(inodes)| && |bits| == |old(bits)| == |old(use)|
      ensures refs == 1 && old(inodes)[i].nlink == 0 ==>
        (forall c :: 0 <= c < |bits| ==> bits[c] == (old(bits)[c] && !OfFile(old(use)[c], i))) &&
        inodes[i].typ == 0 && forall j :: 0 <= j < |inodes| && j != i ==> inodes[j] == old(inodes)[j]
      ensures !(refs == 1 && old(inodes)[i].nlink == 0) ==> unchanged(this)
      ensures Conserved(S(), nmeta)
    {
      hide AllComplete, Addr, InodeOk, Settled, Conserved;
      if refs == 1 && inodes[i].nlink == 0 {
        Itrunc(i);
        ghost var g := S();
        inodes := inodes[i := inodes[i].(typ := 0)];
        Iupdate(i);
        SameButType(g, S(), i);
        assert forall c :: 0 <= c < |bits| ==> BlockOk(old(S()), c);
        SameUses(g, S(), nmeta);
      }
      BlocksConserved(S(), nmeta);
      left := refs - 1;
    }

    /** One turn of the loop of readi: the rest of a block, at most n bytes. */
    method ReadPart(i: int, at: nat, n: nat) returns (part: seq<Byte>)
      requires Valid() && 0 <= i < |inodes| && 0 < n && at + n <= inodes[i].size
      modifies `bits, `blocks, `use, `inodes, `logged
      ensures unchanged(this) && IsInode(S(), i) && 0 < |part| <= n && part == Content(S(), i)[at..at + |part|]
    {
      hide FsOk, AllComplete, Addr, Slot, Content, ByteAt, FreeSet, NewBlocks, Settled, Conserved, BmapLogged, IndSet;
      FileByte(S(), i, at);
      var ok, addr, maps := Bmap(i, at / BSIZE);
      var m := if n < BSIZE - at % BSIZE then n else BSIZE - at % BSIZE;
      PartRead(S(), i, at, m);
      part := blocks[addr][at % BSIZE..at % BSIZE + m];
    }

    /** readi: the bytes of the file from off on, at most n and none behind its end. It
        allocates nothing. */
    method Readi(i: int, off: nat, n: nat) returns (r: seq<Byte>)
      requires Valid() && 0 <= i < |inodes| && off < U32 && n < U32
      modifies `bits, `blocks, `use, `inodes, `logged
      ensures unchanged(this) && IsInode(S(), i) && |Content(S(), i)| == inodes[i].size
      ensures off > inodes[i].size || off + n >= U32 ==> r == []
      ensures off <= inodes[i].size && off + n < U32 ==> |r| == (if n <= inodes[i].size - off then n else inodes[i].size - off)
      ensures forall x :: 0 <= x < |r| ==> r[x] == Content(S(), i)[off + x]
    {
      hide FsOk, AllComplete, Slot, Content;
      SlotIs(S(), i, 0);
      r := [];
      if off > inodes[i].size || off + n >= U32 {
        return;
      }
      var left := if off + n > inodes[i].size then inodes[i].size - off else n;
      ghost var end := off + left;
      var at := off;
      while left > 0
        invariant unchanged(this) && 0 <= left == end - at && off <= at <= end <= inodes[i].size
        invariant r == Content(S(), i)[off..at]
        decreases left
      {
        var part := ReadPart(i, at, left);
        Adjoining(Content(S(), i), off, at, at + |part|);
        r := r + part;
        left, at := left - |part|, at + |part|;
      }
    }

    /** One turn of the loop of writei, for part of the data that lies in one block. */
    method WritePart(i: int, at: nat, part: seq<Byte>) returns (ok: bool, addr: int, ghost maps: set<int>)
      requires FsOk(S()) && 0 <= i < |inodes| && at + |part| <= MAXFILE * BSIZE && 0 < |part| <= BSIZE - at % BSIZE
      modifies `bits, `blocks, `use, `inodes, `logged
      ensures ok ==> FsOk(S()) && PartWritten(old(S()), S(), i, at, part) && |inodes| == |old(inodes)|
      ensures ok ==> logged <= old(logged) + maps + {addr} + IndSet(S(), i) && |maps| <= NewBlocks(old(S()), i, at / BSIZE)
      ensures ok && at / BSIZE >= NDIRECT ==> Slot(S(), i, NDIRECT) != 0
      ensures ok && Slot(old(S()), i, NDIRECT) != 0 ==> Slot(S(), i, NDIRECT) == Slot(old(S()), i, NDIRECT)
      ensures ok ==> old(logged) <= logged && addr in logged && addr == Addr(S(), i, at / BSIZE)
      ensures ok ==> BmapLogged(old(S()), S(), i, at / BSIZE, bmapstart, logged)
      ensures ok && at / BSIZE < NDIRECT ==> Slot(S(), i, NDIRECT) == Slot(old(S()), i, NDIRECT)
      ensures ok <==> |FreeSet(old(bits))| >= NewBlocks(old(S()), i, at / BSIZE)
      ensures ok ==> |FreeSet(bits)| == |FreeSet(old(bits))| - NewBlocks(old(S()), i, at / BSIZE)
    {
      hide FsOk, Addr, Slot, Extended, PartWritten, FreeSet, NewBlocks, Settled, Conserved;
      ok, addr, maps := Bmap(i, at / BSIZE);
      if !ok {
        return;
      }
      ghost var g := S();
      ExtendedFacts(old(S()), g, i, at / BSIZE, addr);
      DataBlock(g, i, at / BSIZE);
      blocks := blocks[addr := Overwrite(blocks[addr], at % BSIZE, part)];
      logged := logged + {addr};
      PartOk(old(S()), g, S(), i, at, part, addr);
    }

    /** The loop of writei. `data` and `maps` are the data blocks and free map blocks logged. */
    method WriteParts(i: int, off: nat, src: seq<Byte>) returns (ok: bool, ghost news: nat, ghost data: set<int>, ghost maps: set<int>)
      requires Valid() && 0 <= i < |inodes| && off <= inodes[i].size && off + |src| <= MAXFILE * BSIZE
      modifies `bits, `blocks, `use, `inodes, `logged
      ensures ok ==> FsOk(S()) && |inodes| == |old(inodes)| && PartWritten(old(S()), S(), i, off, src)
      ensures ok ==> CostOk(old(S()), S(), i, off, |src|, |src|, Touched(off, |src|), news, data, maps)
      ensures ok ==> logged <= old(logged) + data + maps + IndSet(S(), i)
      ensures ok ==> RangeLogged(old(S()), S(), i, off / BSIZE, Touched(off, |src|), bmapstart, logged)
      ensures ok ==> Grown(old(S()), S(), i, off / BSIZE, off / BSIZE + Touched(off, |src|))
      ensures !ok ==> |FreeSet(old(bits))| < Needed(old(S()), i, off / BSIZE, off / BSIZE + Touched(off, |src|))
    {
      hide FsOk, AllComplete, Addr, Slot, PartWritten, CostOk, RangeLogged, BmapLogged, IndSet;
      hide Settled, Grown, Needed, NewBlocks, FreeSet, Touched;
      ghost var f := S();
      var tot := 0;
      data, maps, news := {}, {}, 0;
      ghost var k := 0;
      NothingWritten(f, i, off);
      NoCost(f, i, off, |src|);
      NoneLogged(f, i, off / BSIZE, bmapstart, logged);
      NotGrown(f, i, off / BSIZE);
      assert src[..0] == [];
      while tot < |src|
        invariant 0 <= tot <= |src| && FsOk(S()) && |inodes| == |f.inodes|
        invariant PartWritten(f, S(), i, off, src[..tot])
        invariant CostOk(f, S(), i, off, tot, |src|, k, news, data, maps)
        invariant logged <= old(logged) + data + maps + IndSet(S(), i)
        invariant RangeLogged(f, S(), i, off / BSIZE, k, bmapstart, logged)
        invariant Grown(f, S(), i, off / BSIZE, off / BSIZE + k)
      {
        var at := off + tot;
        var m := if |src| - tot < BSIZE - at % BSIZE then |src| - tot else BSIZE - at % BSIZE;
        ghost var g, before := S(), logged;
        var done, addr;
        ghost var used;
        done, addr, used := WritePart(i, at, src[tot..tot + m]);
        CostNext(f, g, i, off, tot, |src|, k, news, data, maps);
        if !done {
          NotEnough(f, g, i, off, tot, |src|, k);
          return false, news, data, maps;
        }
        PartsWritten(f, g, S(), i, off, src[..tot], src[tot..tot + m]);
        assert src[..tot] + src[tot..tot + m] == src[..tot + m];
        PartFacts(f, g, i, off, src[..tot]);
        MoreLogged(f, g, S(), i, off, tot, m, |src|, k, news, data, maps, src[..tot], src[tot..tot + m], bmapstart, before, logged);
        IndSetGrows(g, S(), i);
        GrownStep(f, g, S(), i, off / BSIZE, at, src[tot..tot + m]);
        news := CostStep(f, g, S(), i, off, tot, m, |src|, k, news, data, maps, addr, used);
        data, maps, k, tot := data + {addr}, maps + used, k + 1, tot + m;
      }
      assert src[..tot] == src;
      CostIs(f, S(), i, off, |src|, k, news, data, maps);
      ok := true;
    }

    /** writei, with a copy from the user that does not fail: all of src is spliced in at
        off, and no other file changes; or -1 and nothing happens. `more` are the blocks
        it may have logged. It succeeds exactly when there are enough free blocks. */
    method Writei(i: int, off: nat, src: seq<Byte>) returns (ok: bool, r: int, ghost more: set<int>)
      requires Valid() && 0 <= i < |inodes| && off < U32 && |src| < U32
      modifies `bits, `blocks, `use, `inodes, `dinodes, `logged
      ensures r == -1 || r == |src|
      ensures r == -1 <==> off > old(inodes)[i].size || off + |src| > MAXFILE * BSIZE
      ensures r == -1 ==> ok && unchanged(this) && more == {}
      ensures ok <==> r == -1 || |FreeSet(old(bits))| >= Needed(old(S()), i, off / BSIZE, off / BSIZE + Touched(off, |src|))
      ensures ok && r != -1 ==> Valid() && Conserved(S(), nmeta) && FileWritten(old(S()), S(), i, off, src)
      ensures ok && r != -1 ==> Grown(old(S()), S(), i, off / BSIZE, off / BSIZE + Touched(off, |src|))
      ensures ok ==> logged <= old(logged) + more && |more| <= WriteBound(off, |src|)
      ensures ok && r != -1 ==> UsesKept(old(S()), S(), i) && IBlock(i) in logged
      ensures ok && r != -1 ==> RangeLogged(old(S()), S(), i, off / BSIZE, Touched(off, |src|), bmapstart, logged)
    {
      hide FsOk, AllComplete, Addr, Slot, Content, PartWritten, FileWritten, CostOk, RangeLogged, BmapLogged, UsesKept;
      hide Settled, Conserved, Grown, Needed, FreeSet, Touched, IndSet;
      more := {};
      if off > inodes[i].size || off + |src| >= U32 {
        return true, -1, more;
      }
      if off + |src| > MAXFILE * BSIZE {
        return true, -1, more;
      }
      ghost var f := S();
      ghost var news, data, maps;
      ok, news, data, maps := WriteParts(i, off, src);
      if !ok {
        return false, |src|, more;
      }
      ghost var g, before, k := S(), logged, Touched(off, |src|);
      PartFacts(f, g, i, off, src);
      if off + |src| > inodes[i].size {
        inodes := inodes[i := inodes[i].(size := off + |src|)];
      }
      Iupdate(i);
      more := data + maps + IndSet(g, i) + {IBlock(i)};
      TotalCost(f, g, i, off, |src|, k, news, data, maps, IBlock(i));
      SameLogged(f, g, S(), i, off, src, k, bmapstart, before, logged);
      SameGrown(f, g, S(), i, off / BSIZE, off / BSIZE + k, off + |src|);
      WriteDone(f, g, S(), i, off, src);
      StillSettled(f, S(), i, nmeta);
      BlocksConserved(S(), nmeta);
      EnoughWere(f, S(), i, off / BSIZE, off / BSIZE + k);
      return true, |src|, more;
    }

    /** One transaction of filewrite: writei with nothing logged before. */
    method WriteChunk(i: int, off: nat, part: seq<Byte>) returns (ok: bool, r: int)
      requires Valid() && 0 <= i < |inodes| && off < U32 && |part| <= CHUNK
      modifies `bits, `blocks, `use, `inodes, `dinodes, `logged
      ensures r == -1 || r == |part|
      ensures r == -1 <==> off > old(inodes)[i].size || off + |part| > MAXFILE * BSIZE
      ensures r == -1 ==> ok && Valid() && S() == old(S())
      ensures ok <==> r == -1 || |FreeSet(old(bits))| >= Needed(old(S()), i, off / BSIZE, off / BSIZE + Touched(off, |part|))
      ensures ok && r != -1 ==> Valid() && FileWritten(old(S()), S(), i, off, part) && UsesKept(old(S()), S(), i)
      ensures ok && r != -1 ==> Grown(old(S()), S(), i, off / BSIZE, off / BSIZE + Touched(off, |part|))
      ensures ok ==> |logged| <= MAXOPBLOCKS
    {
      hide FsOk, AllComplete, FileWritten, WriteBound, Settled, Conserved, Grown, FreeSet, Touched, UsesKept, RangeLogged, Needed;
      logged := {};
      ghost var more;
      ok, r, more := Writei(i, off, part);
      if ok {
        ChunkBound(off, |part|);
        Fewer(logged, more);
      }
    }

    /** filewrite on an inode: chunks of at most three blocks, each a transaction of its
        own that logs at most MAXOPBLOCKS blocks (`most` is the largest). The file ends up
        with the first `done` bytes of src at f->off, all of them unless -1 is returned.
        It succeeds exactly when there are enough free blocks for these bytes. `ends` are
        the file systems at the ends of the transactions. */
    method FileWrite(i: int, foff: nat, src: seq<Byte>) returns (ok: bool, ret: int, off: nat, ghost most: nat, ghost done: nat, ghost ends: seq<Fs>)
      requires Valid() && 0 <= i < |inodes| && foff < U32 && |src| < U32
      modifies `bits, `blocks, `use, `inodes, `dinodes, `logged
      ensures most <= MAXOPBLOCKS && done <= |src| && ChunkEnds(old(S()), ends, i, foff, src)
      ensures ok <==> |FreeSet(old(bits))| >= NeededBytes(old(S()), i, foff, Accepted(old(inodes)[i].size, foff, |src|))
      ensures ok ==> done == Accepted(old(inodes)[i].size, foff, |src|) && off == foff + done && ret == if done == |src| then |src| else -1
      ensures ok ==> Valid() && Conserved(S(), nmeta) && UsesKept(old(S()), S(), i)
      ensures ok ==> Grown(old(S()), S(), i, foff / BSIZE, foff / BSIZE + Touched(foff, done))
      ensures ok && done > 0 ==> FileWritten(old(S()), S(), i, foff, src[..done])
      ensures ok && done == 0 ==> S() == old(S())
      ensures ok ==> done == (if ends == [] then 0 else ChunkEnd(|ends| - 1, |src|)) && (ends != [] ==> S() == ends[|ends| - 1])
    {
      hide FsOk, AllComplete, FileWritten, WriteBound, Settled, Conserved, Grown, FreeSet, Touched, UsesKept, Accepted, NeededBytes;
      hide RangeLogged, Needed, ChunkEnds;
      var max := (MAXOPBLOCKS - 1 - 1 - 2) / 2 * BSIZE;
      var k := 0;
      off, done, most, ends := foff, 0, 0, [];
      ghost var f, accepted := S(), Accepted(inodes[i].size, foff, |src|);
      NoChunk(f, i, foff);
      NoEnds(f, i, foff, src);
      InodeFacts(f, i);
      while k < |src|
        invariant 0 <= k <= |src| && done == k && off == foff + k && most <= MAXOPBLOCKS && Valid() && |inodes| == |f.inodes|
        invariant (k > 0 ==> FileWritten(f, S(), i, foff, src[..k])) && (k == 0 ==> S() == f)
        invariant k > 0 ==> foff <= f.inodes[i].size && foff + k <= MAXFILE * BSIZE && off <= inodes[i].size
        invariant k == |src| || k == CHUNK * |ends|
        invariant ChunkEnds(f, ends, i, foff, src) && k == (if ends == [] then 0 else ChunkEnd(|ends| - 1, |src|))
        invariant ends != [] ==> S() == ends[|ends| - 1]
        invariant UsesKept(f, S(), i) && Grown(f, S(), i, foff / BSIZE, foff / BSIZE + Touched(foff, k))
      {
        var n1 := |src| - k;
        if n1 > max {
          n1 := max;
        }
        ghost var g := S();
        var r;
        ok, r := WriteChunk(i, off, src[k..k + n1]);
        if !ok {
          ChunkFails(f, g, i, foff, k, n1, |src|);
          return false, -1, off, most, done, ends;
        }
        most := if |logged| > most then |logged| else most;
        if r > 0 {
          off := off + r;
          ChunkWritten(f, g, S(), i, foff, src, k, n1);
          ChunkGrown(f, g, S(), i, foff, k, n1);
          NextEnd(f, ends, S(), i, foff, src);
          done, ends := done + n1, ends + [S()];
        }
        if r != n1 {
          Rejected(f.inodes[i].size, foff, k, n1, |src|);
          break;
        }
        k := k + r;
      }
      if k == |src| {
        AllAccepted(f.inodes[i].size, foff, |src|);
      }
      ret := if k == |src| then |src| else -1;
      ok := true;
      BlocksConserved(S(), nmeta);
      EnoughBytes(f, S(), i, foff, done);
    }
  }

  // ---------------------------------------------------------------------
  // Steps of itrunc

  /** The inodes after the first k direct addresses of i were cleared. */
  function ClearedSlots(f: Fs, i: int, k: int): seq<Inode>
    requires IsInode(f, i)
  {
    f.inodes[i := f.inodes[i].(addrs := seq(NDIRECT + 1, x requires 0 <= x <= NDIRECT => if x < k then 0 else f.inodes[i].addrs[x]))]
  }

  lemma ClearedStep(f: Fs, i: int, k: int)
    requires IsInode(f, i) && 0 <= k < NDIRECT
    ensures var was := ClearedSlots(f, i, k);
            && was[i].addrs[k] == f.inodes[i].addrs[k]
            && was[i := was[i].(addrs := was[i].addrs[k := 0])] == ClearedSlots(f, i, k + 1)
            && (was[i].addrs[k] == 0 ==> was == ClearedSlots(f, i, k + 1))
  {
    var was, next := ClearedSlots(f, i, k), ClearedSlots(f, i, k + 1);
    assert was[i].addrs[k := 0] == next[i].addrs;
    if was[i].addrs[k] == 0 {
      assert was[i].addrs == next[i].addrs;
    }
  }

  lemma NothingFreed(f: Fs, i: int)
    requires FsOk(f) && IsInode(f, i)
    ensures FreedTo(f, f.bits, f.use, i, 0) && ClearedSlots(f, i, 0) == f.inodes
  {
    hide Addr;
    forall c | 0 <= c < |f.bits| && f.use[c].Data? ensures f.use[c].bn >= 0 {
      assert BlockOk(f, c);
    }
    assert ClearedSlots(f, i, 0)[i].addrs == f.inodes[i].addrs;
  }

  /** Block k of the file is in use, is its own, and freeing it is the next step. */
  lemma FileBlock(f: Fs, bits: seq<bool>, use: seq<Use>, i: int, k: int)
    requires FsOk(f) && 0 <= i < |f.inodes| && 0 <= k < MAXFILE && FreedTo(f, bits, use, i, k) && Addr(f, i, k) != 0
    ensures 0 <= Addr(f, i, k) < |bits| == |use| && bits[Addr(f, i, k)]
    ensures FreedTo(f, bits[Addr(f, i, k) := false], use[Addr(f, i, k) := Unused], i, k + 1)
  {
    hide Addr, InodeOk;
    DataBlock(f, i, k);
    var b := Addr(f, i, k);
    assert BlockOk(f, b);
    forall c | 0 <= c < |f.bits| && f.use[c] == Data(i, k) ensures c == b {
      assert BlockOk(f, c);
    }
  }

  lemma NoBlock(f: Fs, bits: seq<bool>, use: seq<Use>, i: int, k: int)
    requires FsOk(f) && 0 <= i < |f.inodes| && 0 <= k < MAXFILE && FreedTo(f, bits, use, i, k) && Addr(f, i, k) == 0
    ensures FreedTo(f, bits, use, i, k + 1)
  {
    hide Addr, InodeOk;
    forall c | 0 <= c < |f.bits| ensures f.use[c] != Data(i, k) {
      assert BlockOk(f, c);
    }
  }

  /** The map after the indirect block goes too. */
  ghost predicate AllFreed(f: Fs, bits: seq<bool>, use: seq<Use>, i: int)
    requires |f.bits| == |f.use|
  {
    && |bits| == |use| == |f.bits|
    && forall c :: 0 <= c < |bits| ==>
         if OfFile(f.use[c], i) then !bits[c] && use[c] == Unused else bits[c] == f.bits[c] && use[c] == f.use[c]
  }

  lemma IndirectLast(f: Fs, bits: seq<bool>, use: seq<Use>, i: int)
    requires FsOk(f) && 0 <= i < |f.inodes| && FreedTo(f, bits, use, i, MAXFILE) && Slot(f, i, NDIRECT) != 0
    ensures 0 <= Slot(f, i, NDIRECT) < |bits| == |use| && bits[Slot(f, i, NDIRECT)]
    ensures AllFreed(f, bits[Slot(f, i, NDIRECT) := false], use[Slot(f, i, NDIRECT) := Unused], i)
  {
    hide Addr, Slot, InodeOk;
    IndBlock(f, i);
    var b := Slot(f, i, NDIRECT);
    assert BlockOk(f, b);
    forall c | 0 <= c < |f.bits| && OfFile(f.use[c], i) ensures c == b || (f.use[c].Data? && f.use[c].bn < MAXFILE) {
      assert BlockOk(f, c);
    }
  }

  lemma NoIndirect(f: Fs, bits: seq<bool>, use: seq<Use>, i: int)
    requires FsOk(f) && 0 <= i < |f.inodes| && FreedTo(f, bits, use, i, NDIRECT) && Slot(f, i, NDIRECT) == 0
    ensures AllFreed(f, bits, use, i)
  {
    hide Slot, InodeOk;
    forall c | 0 <= c < |f.bits| && OfFile(f.use[c], i) ensures f.use[c].Data? && f.use[c].bn < NDIRECT {
      assert BlockOk(f, c);
    }
  }

  lemma AllGone(f: Fs, g: Fs, i: int)
    requires FsOk(f) && 0 <= i < |f.inodes| && AllFreed(f, g.bits, g.use, i) && g.blocks == f.blocks
    requires g.inodes == f.inodes[i := f.inodes[i].(size := 0, addrs := seq(NDIRECT + 1, _ => 0))]
    ensures Truncated(f, g, i)
  {
  }

  lemma TruncatedSettled(f: Fs, g: Fs, i: int, nmeta: int)
    requires FsOk(f) && 0 <= i < |f.inodes| && Truncated(f, g, i) && Settled(f, nmeta)
    ensures Settled(g, nmeta)
  {
    hide BlockOk, InodeOk;
  }

  lemma TruncatedComplete(f: Fs, g: Fs, i: int)
    requires FsOk(f) && 0 <= i < |f.inodes| && Truncated(f, g, i) && AllComplete(f)
    ensures AllComplete(g)
  {
    hide Addr, Slot, InodeOk;
    forall j | IsInode(g, j) ensures Complete(g, j) {
      TruncatedAddr(f, g, i, j, 0);
      forall bn | 0 <= bn && bn * BSIZE < g.inodes[j].size ensures Addr(g, j, bn) != 0 {
        TruncatedAddr(f, g, i, j, bn);
        SlotIs(f, j, 0);
        assert Complete(f, j);
      }
    }
  }

  lemma SameUses(f: Fs, g: Fs, nmeta: int)
    requires Settled(f, nmeta) && g.use == f.use
    ensures Settled(g, nmeta)
  {
  }

  lemma SameButType(f: Fs, g: Fs, i: int)
    requires FsOk(f) && AllComplete(f) && 0 <= i < |f.inodes|
    requires g == f.(inodes := f.inodes[i := f.inodes[i].(typ := 0)])
    ensures FsOk(g) && AllComplete(g)
  {
    hide Word;
    forall j, n ensures Addr(g, j, n) == Addr(f, j, n) {
    }
    forall c | 0 <= c < |g.bits| ensures BlockOk(g, c) {
      assert BlockOk(f, c);
    }
    forall j | 0 <= j < |g.inodes| ensures InodeOk(g, j) {
      assert InodeOk(f, j);
    }
    forall j | IsInode(g, j) ensures Complete(g, j) {
      assert IsInode(f, j) && Complete(f, j);
    }
  }

  /** How many blocks bmap allocates for block bn of file i. */
  function NewBlocks(f: Fs, i: int, bn: int): nat {
    if Addr(f, i, bn) != 0 then 0 else if bn >= NDIRECT && Slot(f, i, NDIRECT) == 0 then 2 else 1
  }

  lemma EntryNeedsIndirect(f: Fs, i: int, bn: int)
    requires NDIRECT <= bn
    ensures Addr(f, i, bn) != 0 ==> Slot(f, i, NDIRECT) != 0
  {
  }

  lemma EntryIs(f: Fs, i: int, bn: int)
    requires NDIRECT <= bn && Slot(f, i, NDIRECT) != 0
    ensures Addr(f, i, bn) == Word(BlockAt(f, Slot(f, i, NDIRECT)), bn - NDIRECT)
  {
  }

  lemma KeptAddr(f: Fs, g: Fs, i: int, j: int, n: int)
    requires Kept(f, g, i) && 0 <= j < |f.inodes| && 0 <= n < MAXFILE
    ensures Addr(g, j, n) == Addr(f, j, n)
  {
    hide Addr;
  }

  /** Writing an entry of the indirect block leaves data blocks alone. */
  lemma EntryFrame(f: Fs, b: int, h: Fs, i: int, bn: int)
    requires FsOk(f) && 0 < b < |f.bits| && f.use[b] == Unused && 0 <= i < |f.inodes| && Slot(f, i, NDIRECT) != 0
    requires 0 <= Slot(f, i, NDIRECT) < |f.blocks| && |h.blocks| == |f.blocks| && h.inodes == f.inodes
    requires forall c :: 0 <= c < |f.blocks| && c != b && c != Slot(f, i, NDIRECT) ==> h.blocks[c] == f.blocks[c]
    ensures forall c :: 0 <= c < |f.use| && f.use[c].Data? ==> h.blocks[c] == f.blocks[c]
    ensures forall j :: 0 <= j < |f.inodes| ==> SameButAddrs(f.inodes[j], h.inodes[j])
  {
    hide Addr, Slot;
    IndBlock(f, i);
  }

  lemma SlotIs(f: Fs, i: int, k: int)
    requires FsOk(f) && 0 <= i < |f.inodes| && 0 <= k <= NDIRECT
    ensures IsInode(f, i) && Slot(f, i, k) == f.inodes[i].addrs[k]
    ensures k < NDIRECT ==> Addr(f, i, k) == f.inodes[i].addrs[k]
  {
    hide Word;
    assert InodeOk(f, i);
  }

  lemma UsePerBlock(f: Fs)
    requires FsOk(f)
    ensures |f.blocks| == |f.use|
  {
  }

  lemma NothingNew(f: Fs, i: int, bn: int)
    requires Addr(f, i, bn) != 0 && |f.blocks| == |f.use|
    ensures Extended(f, f, i, bn, Addr(f, i, bn))
  {
    hide Addr;
  }

  // ---------------------------------------------------------------------
  // Steps of readi and writei

  lemma Adjoining(c: seq<Byte>, a: int, b: int, d: int)
    requires 0 <= a <= b <= d <= |c|
    ensures c[a..b] + c[b..d] == c[a..d]
  {
  }

  lemma FileByte(f: Fs, i: int, x: int)
    requires FsOk(f) && AllComplete(f) && 0 <= i < |f.inodes| && 0 <= x < f.inodes[i].size
    ensures IsInode(f, i) && Addr(f, i, x / BSIZE) != 0 && 0 <= x / BSIZE < MAXFILE
  {
    hide Addr, Slot;
    assert InodeOk(f, i);
    assert Complete(f, i);
  }

  lemma PartRead(f: Fs, i: int, at: int, m: int)
    requires FsOk(f) && AllComplete(f) && 0 <= i < |f.inodes| && 0 <= at && 0 < m && at + m <= f.inodes[i].size
    requires at % BSIZE + m <= BSIZE
    ensures IsInode(f, i) && 0 <= Addr(f, i, at / BSIZE) < |f.blocks| && |f.blocks[Addr(f, i, at / BSIZE)]| == BSIZE
    ensures f.blocks[Addr(f, i, at / BSIZE)][at % BSIZE..at % BSIZE + m] == Content(f, i)[at..at + m]
  {
    hide Addr, Slot, FsOk, AllComplete;
    FileByte(f, i, at);
    DataBlock(f, i, at / BSIZE);
    var part := f.blocks[Addr(f, i, at / BSIZE)][at % BSIZE..at % BSIZE + m];
    forall k | 0 <= k < m ensures part[k] == Content(f, i)[at..at + m][k] {
      SameUnit(at, BSIZE, at % BSIZE, m, at + k);
    }
  }

  /** Bytes at .. at + |part| - 1 of file i are `part`; all else that was there stayed. */
  ghost predicate PartWritten(f: Fs, g: Fs, i: int, at: int, part: seq<Byte>) {
    && |g.inodes| == |f.inodes|
    && (forall j :: 0 <= j < |f.inodes| ==> SameButAddrs(f.inodes[j], g.inodes[j]) && (j != i ==> g.inodes[j] == f.inodes[j]))
    && (forall j, n :: 0 <= j < |f.inodes| && 0 <= n < MAXFILE && (j != i || Addr(f, j, n) != 0) ==> Addr(g, j, n) == Addr(f, j, n))
    && (forall j, x :: Present(f, j, x) && !(j == i && at <= x < at + |part|) ==> ByteAt(g, j, x) == ByteAt(f, j, x))
    && (forall x :: at <= x < at + |part| ==> Present(g, i, x) && ByteAt(g, i, x) == part[x - at])
    && (forall n :: 0 <= n < MAXFILE && Outside(n, at, |part|) ==> Addr(g, i, n) == Addr(f, i, n))
    && UsesKept(f, g, i)
  }

  /** Block n has none of the bytes at .. at + len - 1. */
  predicate Outside(n: int, at: int, len: int) {
    len == 0 || n < at / BSIZE || n > (at + len - 1) / BSIZE
  }

  /** Byte x of file j has a block. */
  predicate Present(f: Fs, j: int, x: int) {
    0 <= j < |f.inodes| && 0 <= x < MAXFILE * BSIZE && Addr(f, j, x / BSIZE) != 0
  }

  lemma ExtendedFacts(f: Fs, g: Fs, i: int, bn: int, addr: int)
    requires Extended(f, g, i, bn, addr) && 0 <= i < |f.inodes| && 0 <= bn < MAXFILE
    ensures |g.inodes| == |f.inodes| && Addr(g, i, bn) == addr != 0
    ensures Slot(f, i, NDIRECT) != 0 ==> Slot(g, i, NDIRECT) == Slot(f, i, NDIRECT)
  {
    hide Addr, Slot;
  }

  lemma ExtendedUses(f: Fs, g: Fs, i: int, bn: int, addr: int)
    requires Extended(f, g, i, bn, addr)
    ensures UsesKept(f, g, i)
  {
  }

  lemma PartOk(f: Fs, g: Fs, h: Fs, i: int, at: nat, part: seq<Byte>, addr: int)
    requires FsOk(f) && FsOk(g) && Extended(f, g, i, at / BSIZE, addr) && 0 <= i < |f.inodes|
    requires 0 < |part| <= BSIZE - at % BSIZE && at + |part| <= MAXFILE * BSIZE
    requires 0 <= addr < |g.blocks| && |g.blocks[addr]| == BSIZE && Addr(g, i, at / BSIZE) == addr
    requires h == SetBlock(g, addr, Overwrite(g.blocks[addr], at % BSIZE, part))
    ensures FsOk(h) && PartWritten(f, h, i, at, part) && Slot(h, i, NDIRECT) == Slot(g, i, NDIRECT)
    ensures Addr(h, i, at / BSIZE) == addr
  {
    assert Slot(h, i, NDIRECT) == Slot(g, i, NDIRECT);
    hide FsOk, Addr, Slot, ByteAt;
    var data := Overwrite(g.blocks[addr], at % BSIZE, part);
    WriteOk(g, i, at / BSIZE, data);
    forall j, n | 0 <= j < |f.inodes| && 0 <= n < MAXFILE && (j != i || Addr(f, j, n) != 0)
      ensures Addr(h, j, n) == Addr(f, j, n)
    {
      WriteAddr(g, i, at / BSIZE, data, j, n);
    }
    forall n | 0 <= n < MAXFILE && Outside(n, at, |part|) ensures Addr(h, i, n) == Addr(f, i, n) {
      WriteAddr(g, i, at / BSIZE, data, i, n);
      SameUnit(at, BSIZE, at % BSIZE, |part|, at);
    }
    WriteAddr(g, i, at / BSIZE, data, i, at / BSIZE);
    forall j, x | Present(f, j, x) && !(j == i && at <= x < at + |part|) ensures ByteAt(h, j, x) == ByteAt(f, j, x) {
      PartFrame(f, g, i, at, part, addr, j, x);
    }
    forall x | at <= x < at + |part| ensures Present(h, i, x) && ByteAt(h, i, x) == part[x - at] {
      SameUnit(at, BSIZE, at % BSIZE, |part|, x);
      WriteAddr(g, i, at / BSIZE, data, i, x / BSIZE);
      WriteBytes(g, i, at / BSIZE, data, i, x);
    }
  }

  lemma PartFrame(f: Fs, g: Fs, i: int, at: nat, part: seq<Byte>, addr: int, j: int, x: int)
    requires FsOk(f) && FsOk(g) && Extended(f, g, i, at / BSIZE, addr) && 0 <= i < |f.inodes|
    requires 0 < |part| <= BSIZE - at % BSIZE && at + |part| <= MAXFILE * BSIZE
    requires 0 <= addr < |g.blocks| && |g.blocks[addr]| == BSIZE && Addr(g, i, at / BSIZE) == addr
    requires Present(f, j, x) && !(j == i && at <= x < at + |part|)
    ensures ByteAt(SetBlock(g, addr, Overwrite(g.blocks[addr], at % BSIZE, part)), j, x) == ByteAt(f, j, x)
  {
    hide FsOk, Addr, Slot;
    assert Addr(g, j, x / BSIZE) == Addr(f, j, x / BSIZE);
    SameBytes(f, g, j, x);
    SameUnit(at, BSIZE, at % BSIZE, |part|, x);
    WriteBytes(g, i, at / BSIZE, Overwrite(g.blocks[addr], at % BSIZE, part), j, x);
  }

  lemma PartsWritten(f: Fs, g: Fs, h: Fs, i: int, at: int, s: seq<Byte>, t: seq<Byte>)
    requires PartWritten(f, g, i, at, s) && PartWritten(g, h, i, at + |s|, t) && 0 <= i < |f.inodes|
    ensures PartWritten(f, h, i, at, s + t)
  {
    hide Addr, ByteAt;
    forall n | 0 <= n < MAXFILE && Outside(n, at, |s + t|) ensures Addr(h, i, n) == Addr(f, i, n) {
      OutsideBoth(n, at, |s|, |t|);
    }
    forall j, x | Present(f, j, x) && !(j == i && at <= x < at + |s + t|) ensures ByteAt(h, j, x) == ByteAt(f, j, x) {
      assert Present(g, j, x);
    }
    forall x | at <= x < at + |s + t| ensures Present(h, i, x) && ByteAt(h, i, x) == (s + t)[x - at] {
      if x < at + |s| {
        assert Present(g, i, x);
      }
    }
  }

  lemma OutsideBoth(n: int, at: int, a: nat, b: nat)
    requires Outside(n, at, a + b)
    ensures Outside(n, at, a) && Outside(n, at + a, b)
  {
  }

  lemma NothingWritten(f: Fs, i: int, at: int)
    ensures PartWritten(f, f, i, at, [])
  {
    hide Addr, ByteAt;
  }

  // ---------------------------------------------------------------------
  // The result of writei

  /** c with src put in at off; c ends no later than where src does, or goes on after. */
  function Splice(c: seq<Byte>, off: nat, src: seq<Byte>): (r: seq<Byte>)
    requires off <= |c|
    ensures |r| == if off + |src| > |c| then off + |src| else |c|
    ensures forall x :: 0 <= x < |r| ==> r[x] == if off <= x < off + |src| then src[x - off] else c[x]
  {
    c[..off] + src + (if off + |src| > |c| then [] else c[off + |src|..])
  }

  /** File i has src at off and is otherwise as it was, and so are all other files. */
  ghost predicate FileWritten(f: Fs, g: Fs, i: int, off: nat, src: seq<Byte>) {
    && |g.inodes| == |f.inodes| && IsInode(f, i) && IsInode(g, i) && off <= f.inodes[i].size
    && Content(g, i) == Splice(Content(f, i), off, src)
    && g.inodes[i].typ == f.inodes[i].typ && g.inodes[i].nlink == f.inodes[i].nlink
    && forall j :: 0 <= j < |f.inodes| && j != i ==>
         g.inodes[j] == f.inodes[j] && IsInode(f, j) && Content(g, j) == Content(f, j)
  }

  lemma PartFacts(f: Fs, g: Fs, i: int, off: int, src: seq<Byte>)
    requires PartWritten(f, g, i, off, src) && 0 <= i < |f.inodes|
    ensures g.inodes[i].size == f.inodes[i].size && PartGrows(f, g, i) && g.inodes == f.inodes[i := g.inodes[i]]
  {
    hide Addr, ByteAt;
  }

  /** Only the size of file i differs. */
  lemma Resized(f: Fs, g: Fs, i: int, n: nat)
    requires FsOk(f) && 0 <= i < |f.inodes| && n <= MAXFILE * BSIZE
    requires g == f.(inodes := f.inodes[i := f.inodes[i].(size := n)])
    ensures FsOk(g)
    ensures forall j, bn :: Addr(g, j, bn) == Addr(f, j, bn)
    ensures forall j, x :: ByteAt(g, j, x) == ByteAt(f, j, x)
  {
    hide Word;
    forall j, bn ensures Addr(g, j, bn) == Addr(f, j, bn) {
    }
    hide Addr;
    forall j, x ensures ByteAt(g, j, x) == ByteAt(f, j, x) {
    }
    forall c | 0 <= c < |g.bits| ensures BlockOk(g, c) {
      assert BlockOk(f, c);
    }
    forall j | 0 <= j < |g.inodes| ensures InodeOk(g, j) {
      assert InodeOk(f, j);
    }
  }

  lemma WriteDone(f: Fs, g: Fs, h: Fs, i: int, off: nat, src: seq<Byte>)
    requires FsOk(f) && AllComplete(f) && FsOk(g) && PartWritten(f, g, i, off, src) && 0 <= i < |f.inodes|
    requires off <= f.inodes[i].size && off + |src| <= MAXFILE * BSIZE
    requires var n := if off + |src| > g.inodes[i].size then off + |src| else g.inodes[i].size;
             h == g.(inodes := g.inodes[i := g.inodes[i].(size := n)])
    ensures FsOk(h) && AllComplete(h) && FileWritten(f, h, i, off, src)
  {
    hide FsOk, Addr, ByteAt, Slot;
    InodeFacts(g, i);
    Resized(g, h, i, h.inodes[i].size);
    forall j | IsInode(h, j) ensures Complete(h, j) {
      StillComplete(f, g, h, i, off, src, j);
    }
    forall j | 0 <= j < |f.inodes|
      ensures IsInode(f, j) && IsInode(h, j)
      ensures Content(h, j) == if j == i then Splice(Content(f, i), off, src) else Content(f, j)
    {
      InodeFacts(f, j);
      InodeFacts(f, i);
      InodeFacts(h, j);
      ContentAfter(f, g, h, i, off, src, j);
    }
  }

  lemma InodeFacts(f: Fs, i: int)
    requires FsOk(f) && 0 <= i < |f.inodes|
    ensures IsInode(f, i) && f.inodes[i].size <= MAXFILE * BSIZE
  {
    assert InodeOk(f, i);
  }

  lemma StillComplete(f: Fs, g: Fs, h: Fs, i: int, off: nat, src: seq<Byte>, j: int)
    requires FsOk(f) && AllComplete(f) && PartWritten(f, g, i, off, src) && 0 <= i < |f.inodes| && off <= f.inodes[i].size
    requires IsInode(h, j) && |h.inodes| == |f.inodes| && off + |src| <= MAXFILE * BSIZE
    requires forall k, bn :: Addr(h, k, bn) == Addr(g, k, bn)
    requires j != i ==> h.inodes[j].size == f.inodes[j].size
    requires h.inodes[i].size == if off + |src| > f.inodes[i].size then off + |src| else f.inodes[i].size
    ensures Complete(h, j)
  {
    hide FsOk, Addr, ByteAt, Slot;
    InodeFacts(f, j);
    forall bn | 0 <= bn && bn * BSIZE < h.inodes[j].size ensures Addr(h, j, bn) != 0 {
      if bn * BSIZE < f.inodes[j].size {
        assert Complete(f, j);
      } else {
        var x := bn * BSIZE;
        assert Present(g, i, x) && x / BSIZE == bn;
      }
    }
  }

  lemma ContentAfter(f: Fs, g: Fs, h: Fs, i: int, off: nat, src: seq<Byte>, j: int)
    requires FsOk(f) && AllComplete(f) && PartWritten(f, g, i, off, src) && 0 <= i < |f.inodes| && off <= f.inodes[i].size
    requires IsInode(f, i) && IsInode(f, j) && IsInode(h, j) && off + |src| <= MAXFILE * BSIZE
    requires forall k, x :: ByteAt(h, k, x) == ByteAt(g, k, x)
    requires h.inodes[j].size == if j == i && off + |src| > f.inodes[i].size then off + |src| else f.inodes[j].size
    ensures Content(h, j) == if j == i then Splice(Content(f, i), off, src) else Content(f, j)
  {
    hide FsOk, Addr, ByteAt, Slot, AllComplete;
    InodeFacts(f, j);
    var c, d := Content(h, j), if j == i then Splice(Content(f, i), off, src) else Content(f, j);
    forall x | 0 <= x < |c| ensures c[x] == d[x] {
      if x < f.inodes[j].size {
        FileByte(f, j, x);
        assert Present(f, j, x);
      }
    }
  }

  /** All blocks lo .. lo + k - 1 of the file are logged, with the free map blocks of the
      new ones, and so is a new indirect block. */
  ghost predicate RangeLogged(f: Fs, g: Fs, i: int, lo: int, k: nat, bmapstart: int, logged: set<int>) {
    && (forall bn :: lo <= bn < lo + k ==>
          && Addr(g, i, bn) != 0 && Addr(g, i, bn) in logged
          && (Addr(f, i, bn) == 0 ==> MapBlock(bmapstart, Addr(g, i, bn)) in logged))
    && (Slot(f, i, NDIRECT) == 0 && Slot(g, i, NDIRECT) != 0 ==>
          Slot(g, i, NDIRECT) in logged && MapBlock(bmapstart, Slot(g, i, NDIRECT)) in logged)
  }

  lemma NoneLogged(f: Fs, i: int, lo: int, bmapstart: int, logged: set<int>)
    ensures RangeLogged(f, f, i, lo, 0, bmapstart, logged)
  {
  }

  lemma MoreLogged(f: Fs, g: Fs, h: Fs, i: int, off: nat, tot: nat, m: nat, n: nat, k: nat, news: nat,
                   data: set<int>, maps: set<int>, s: seq<Byte>, t: seq<Byte>, bmapstart: int, before: set<int>, logged: set<int>)
    requires 0 <= i < |f.inodes| && off + n <= MAXFILE * BSIZE && tot < n
    requires CostOk(f, g, i, off, tot, n, k, news, data, maps)
    requires RangeLogged(f, g, i, off / BSIZE, k, bmapstart, before) && before <= logged
    requires PartWritten(f, g, i, off, s) && |s| == tot && PartWritten(g, h, i, off + tot, t) && |t| == m
    requires 0 < m <= BSIZE - (off + tot) % BSIZE
    requires BmapLogged(g, h, i, (off + tot) / BSIZE, bmapstart, logged)
    requires Addr(h, i, (off + tot) / BSIZE) in logged
    requires Slot(g, i, NDIRECT) != 0 ==> Slot(h, i, NDIRECT) == Slot(g, i, NDIRECT)
    ensures RangeLogged(f, h, i, off / BSIZE, k + 1, bmapstart, logged)
  {
    hide Addr, Slot, Touched, ByteAt, UsesKept;
    NextBlock(off, tot, k);
    var bn, x := off / BSIZE + k, off + tot;
    assert Present(h, i, x) && ByteAt(h, i, x) == t[0];
    assert Addr(f, i, bn) == 0 ==> Addr(g, i, bn) == 0 by {
      assert Outside(bn, off, tot) by {
        OutsideNext(off, tot, k);
      }
    }
    forall b | off / BSIZE <= b < off / BSIZE + k ensures Addr(h, i, b) == Addr(g, i, b) {
      BelowMax(off, tot, n, b, k);
    }
  }

  lemma NextBlock(off: nat, tot: nat, k: nat)
    requires k == Touched(off, tot) && (tot == 0 || (off + tot) % BSIZE == 0)
    ensures (off + tot) / BSIZE == off / BSIZE + k
  {
  }

  lemma OutsideNext(off: nat, tot: nat, k: nat)
    requires k == Touched(off, tot)
    ensures Outside(off / BSIZE + k, off, tot)
  {
  }

  lemma BelowMax(off: nat, tot: nat, n: nat, b: int, k: nat)
    requires k == Touched(off, tot) && tot <= n && off + n <= MAXFILE * BSIZE && off / BSIZE <= b < off / BSIZE + k
    ensures 0 <= b < MAXFILE
  {
  }

  lemma CostIs(f: Fs, g: Fs, i: int, off: nat, n: nat, k: nat, news: nat, data: set<int>, maps: set<int>)
    requires CostOk(f, g, i, off, n, n, k, news, data, maps)
    ensures k == Touched(off, n)
  {
  }

  lemma SameLogged(f: Fs, g: Fs, h: Fs, i: int, off: nat, src: seq<Byte>, k: nat, bmapstart: int, before: set<int>, logged: set<int>)
    requires FsOk(g) && PartWritten(f, g, i, off, src) && 0 <= i < |f.inodes| && off + |src| <= MAXFILE * BSIZE
    requires h == g || (h == g.(inodes := g.inodes[i := g.inodes[i].(size := off + |src|)]))
    requires RangeLogged(f, g, i, off / BSIZE, k, bmapstart, before) && before <= logged
    ensures RangeLogged(f, h, i, off / BSIZE, k, bmapstart, logged) && UsesKept(f, h, i)
  {
    if h != g {
      Resized(g, h, i, off + |src|);
      assert Slot(h, i, NDIRECT) == Slot(g, i, NDIRECT);
    }
    hide FsOk, Addr, Slot, ByteAt;
  }

  // ---------------------------------------------------------------------
  // How many blocks a write allocates

  /** Blocks lo .. hi - 1 of file i that have no address. */
  function Absent(f: Fs, i: int, lo: int, hi: int): nat
    decreases hi - lo
  {
    if hi <= lo then 0 else Absent(f, i, lo, hi - 1) + if Addr(f, i, hi - 1) == 0 then 1 else 0
  }

  /** The free blocks it takes to have all of lo .. hi - 1: the absent ones, and the
      indirect block if it is missing. */
  function Needed(f: Fs, i: int, lo: int, hi: int): nat {
    Absent(f, i, lo, hi) + if lo < hi && NDIRECT < hi && Slot(f, i, NDIRECT) == 0 then 1 else 0
  }

  /** Exactly blocks lo .. hi - 1 of file i have appeared, and exactly what they need is no
      longer free. */
  ghost predicate Grown(f: Fs, g: Fs, i: int, lo: int, hi: int) {
    && (forall n :: 0 <= n < MAXFILE ==> (Addr(g, i, n) != 0 <==> Addr(f, i, n) != 0 || lo <= n < hi))
    && (Slot(g, i, NDIRECT) != 0 <==> Slot(f, i, NDIRECT) != 0 || (lo < hi && NDIRECT < hi))
    && |FreeSet(g.bits)| == |FreeSet(f.bits)| - Needed(f, i, lo, hi)
  }

  lemma NotGrown(f: Fs, i: int, lo: int)
    ensures Grown(f, f, i, lo, lo)
  {
    hide Addr, Slot, FreeSet;
  }

  lemma NeededNext(f: Fs, g: Fs, i: int, lo: int, bn: int)
    requires Grown(f, g, i, lo, bn) && 0 <= lo <= bn < MAXFILE
    ensures Needed(f, i, lo, bn + 1) == Needed(f, i, lo, bn) + NewBlocks(g, i, bn)
  {
    hide Addr, Slot, FreeSet;
    if bn >= NDIRECT {
      EntryNeedsIndirect(f, i, bn);
    }
  }

  lemma GrownStep(f: Fs, g: Fs, h: Fs, i: int, lo: int, at: nat, part: seq<Byte>)
    requires 0 <= i < |g.inodes| && Grown(f, g, i, lo, at / BSIZE) && PartWritten(g, h, i, at, part) && 0 <= lo <= at / BSIZE
    requires 0 < |part| <= BSIZE - at % BSIZE && at + |part| <= MAXFILE * BSIZE
    requires at / BSIZE >= NDIRECT ==> Slot(h, i, NDIRECT) != 0
    requires at / BSIZE < NDIRECT ==> Slot(h, i, NDIRECT) == Slot(g, i, NDIRECT)
    requires |FreeSet(h.bits)| == |FreeSet(g.bits)| - NewBlocks(g, i, at / BSIZE)
    ensures Grown(f, h, i, lo, at / BSIZE + 1)
  {
    hide Addr, Slot, FreeSet, NewBlocks, ByteAt, UsesKept, Needed;
    var bn := at / BSIZE;
    NeededNext(f, g, i, lo, bn);
    assert Present(h, i, at) by {
      assert ByteAt(h, i, at) == part[0];
    }
    SameUnit(at, BSIZE, at % BSIZE, |part|, at + |part| - 1);
    forall n | 0 <= n < MAXFILE ensures Addr(h, i, n) != 0 <==> Addr(f, i, n) != 0 || lo <= n < bn + 1 {
      if n != bn {
        assert Outside(n, at, |part|);
      }
    }
  }

  lemma {:induction false} NeededMore(f: Fs, i: int, lo: int, mid: int, hi: int)
    requires lo <= mid <= hi
    ensures Needed(f, i, lo, mid) <= Needed(f, i, lo, hi)
    decreases hi - mid
  {
    if mid < hi {
      NeededMore(f, i, lo, mid, hi - 1);
    }
  }

  lemma NotEnough(f: Fs, g: Fs, i: int, off: nat, tot: nat, n: nat, k: nat)
    requires Grown(f, g, i, off / BSIZE, off / BSIZE + k) && tot < n && off + n <= MAXFILE * BSIZE
    requires (off + tot) / BSIZE == off / BSIZE + k
    requires |FreeSet(g.bits)| < NewBlocks(g, i, (off + tot) / BSIZE)
    ensures |FreeSet(f.bits)| < Needed(f, i, off / BSIZE, off / BSIZE + Touched(off, n))
  {
    hide Addr, Slot, FreeSet, NewBlocks, Needed;
    var lo, bn := off / BSIZE, (off + tot) / BSIZE;
    NeededNext(f, g, i, lo, bn);
    NeededMore(f, i, lo, bn + 1, lo + Touched(off, n));
  }

  lemma EnoughWere(f: Fs, g: Fs, i: int, lo: int, hi: int)
    requires Grown(f, g, i, lo, hi)
    ensures |FreeSet(f.bits)| >= Needed(f, i, lo, hi)
  {
    hide Addr, Slot, FreeSet, Needed;
  }

  lemma CostNext(f: Fs, g: Fs, i: int, off: nat, tot: nat, n: nat, k: nat, news: nat, data: set<int>, maps: set<int>)
    requires CostOk(f, g, i, off, tot, n, k, news, data, maps) && tot < n
    ensures (off + tot) / BSIZE == off / BSIZE + k
  {
    hide Touched;
    NextBlock(off, tot, k);
  }

  lemma SameGrown(f: Fs, g: Fs, h: Fs, i: int, lo: int, hi: int, n: nat)
    requires Grown(f, g, i, lo, hi) && 0 <= i < |g.inodes|
    requires h == g || (h == g.(inodes := g.inodes[i := g.inodes[i].(size := n)]))
    ensures Grown(f, h, i, lo, hi)
  {
    hide Word, FreeSet, Needed;
    assert Slot(h, i, NDIRECT) == Slot(g, i, NDIRECT);
    forall m ensures Addr(h, i, m) == Addr(g, i, m) {
    }
  }

  // ---------------------------------------------------------------------
  // How many blocks a write logs

  /** The number of blocks that bytes off .. off + n - 1 lie in. */
  function Touched(off: nat, n: nat): nat {
    if n == 0 then 0 else (off + n - 1) / BSIZE - off / BSIZE + 1
  }

  /** Each touched block may be new, except the first one of an unaligned write, and each
      new block may change another block of the free map; then there are the indirect
      block, its own bit of the free map, and the inode. */
  function WriteBound(off: nat, n: nat): int {
    2 * Touched(off, n) - (if n > 0 && off % BSIZE != 0 then 1 else 0) + 3
  }

  /** k blocks written, `news` of them new: data blocks and free map blocks logged. */
  ghost predicate CostOk(f: Fs, g: Fs, i: int, off: nat, tot: nat, n: nat, k: nat, news: nat, data: set<int>, maps: set<int>) {
    && |data| <= k
    && |maps| <= news + (if Slot(f, i, NDIRECT) == 0 && Slot(g, i, NDIRECT) != 0 then 1 else 0)
    && (Slot(f, i, NDIRECT) != 0 ==> Slot(g, i, NDIRECT) == Slot(f, i, NDIRECT))
    && news + (if off % BSIZE != 0 && k > 0 then 1 else 0) <= k
    && k == Touched(off, tot) && tot <= n
    && (0 < tot < n ==> (off + tot) % BSIZE == 0)
  }

  lemma NoCost(f: Fs, i: int, off: nat, n: nat)
    ensures CostOk(f, f, i, off, 0, n, 0, 0, {}, {})
  {
  }

  lemma NextTouched(off: nat, tot: nat, m: nat)
    requires 0 < m <= BSIZE - (off + tot) % BSIZE && (tot == 0 || (off + tot) % BSIZE == 0)
    ensures Touched(off, tot + m) == Touched(off, tot) + 1
    ensures m == BSIZE - (off + tot) % BSIZE ==> (off + tot + m) % BSIZE == 0
  {
    SameUnit(off + tot, BSIZE, (off + tot) % BSIZE, m, off + tot + m - 1);
  }

  lemma CostStep(f: Fs, g: Fs, h: Fs, i: int, off: nat, tot: nat, m: nat, n: nat, k: nat, news: nat,
                 data: set<int>, maps: set<int>, addr: int, used: set<int>) returns (news': nat)
    requires FsOk(f) && AllComplete(f) && 0 <= i < |f.inodes| && off <= f.inodes[i].size && n + off <= MAXFILE * BSIZE
    requires CostOk(f, g, i, off, tot, n, k, news, data, maps) && PartGrows(f, g, i)
    requires tot + m <= n && 0 < m <= BSIZE - (off + tot) % BSIZE
    requires tot + m < n ==> m == BSIZE - (off + tot) % BSIZE
    requires |used| <= NewBlocks(g, i, (off + tot) / BSIZE)
    requires (off + tot) / BSIZE >= NDIRECT ==> Slot(h, i, NDIRECT) != 0
    requires Slot(g, i, NDIRECT) != 0 ==> Slot(h, i, NDIRECT) == Slot(g, i, NDIRECT)
    ensures CostOk(f, h, i, off, tot + m, n, k + 1, news', data + {addr}, maps + used)
  {
    hide Addr, Slot, FsOk, AllComplete, Touched;
    NextTouched(off, tot, m);
    var isNew := Addr(g, i, (off + tot) / BSIZE) == 0;
    news' := if isNew then news + 1 else news;
    if tot == 0 && off % BSIZE != 0 {
      FileByte(f, i, off - 1);
      assert (off - 1) / BSIZE == off / BSIZE;
      assert Addr(g, i, off / BSIZE) != 0;
    }
    TouchedSome(off, tot);
  }

  lemma TouchedSome(off: nat, tot: nat)
    ensures Touched(off, tot) == 0 <==> tot == 0
  {
  }

  /** Blocks once there stay there. */
  ghost predicate PartGrows(f: Fs, g: Fs, i: int) {
    forall n :: 0 <= n < MAXFILE && Addr(f, i, n) != 0 ==> Addr(g, i, n) != 0
  }

  lemma TotalCost(f: Fs, g: Fs, i: int, off: nat, n: nat, k: nat, news: nat, data: set<int>, maps: set<int>, iblock: int)
    requires CostOk(f, g, i, off, n, n, k, news, data, maps)
    ensures |data + maps + IndSet(g, i) + {iblock}| <= WriteBound(off, n)
  {
    hide Addr, Slot, Touched;
    TouchedSome(off, n);
    assert |data + maps| <= |data| + |maps|;
    assert |data + maps + IndSet(g, i)| <= |data + maps| + |IndSet(g, i)|;
    assert |data + maps + IndSet(g, i) + {iblock}| <= |data + maps + IndSet(g, i)| + 1;
  }

  /** The chunks of filewrite stay within MAXOPBLOCKS; an unaligned chunk of full size
      reaches it exactly. */
  lemma ChunkBound(off: nat, n: nat)
    requires n <= 3 * BSIZE
    ensures WriteBound(off, n) <= MAXOPBLOCKS
    ensures WriteBound(off, n) == MAXOPBLOCKS <==> Touched(off, n) == 4
    ensures Touched(off, n) == 4 <==> n > 3 * BSIZE - off % BSIZE
  {
  }

  lemma {:induction false} Fewer(a: set<int>, b: set<int>)
    requires a <= b
    ensures |a| <= |b|
  {
    assert b == a + (b - a);
  }

  // ---------------------------------------------------------------------
  // The chunks of filewrite

  const CHUNK: int := 3072       // (MAXOPBLOCKS - 1 - 1 - 2) / 2 * BSIZE

  /** Where the j-th chunk of n bytes ends. */
  function ChunkEnd(j: nat, n: nat): nat {
    if CHUNK * (j + 1) < n then CHUNK * (j + 1) else n
  }

  /** After each of its transactions filewrite has written all bytes up to the end of a chunk. */
  ghost predicate ChunkEnds(f: Fs, ends: seq<Fs>, i: int, off: nat, src: seq<Byte>) {
    forall j :: 0 <= j < |ends| ==> FileWritten(f, ends[j], i, off, src[..ChunkEnd(j, |src|)])
  }

  lemma NoEnds(f: Fs, i: int, off: nat, src: seq<Byte>)
    ensures ChunkEnds(f, [], i, off, src)
  {
  }

  lemma NextEnd(f: Fs, ends: seq<Fs>, g: Fs, i: int, off: nat, src: seq<Byte>)
    requires ChunkEnds(f, ends, i, off, src) && FileWritten(f, g, i, off, src[..ChunkEnd(|ends|, |src|)])
    ensures ChunkEnds(f, ends + [g], i, off, src)
  {
    hide FileWritten, ChunkEnd;
  }

  /** How many of n bytes at foff filewrite writes into a file of the given size: none
      behind its end, and only whole chunks if they go beyond the largest file. */
  function Accepted(size: nat, foff: nat, n: nat): (r: nat)
    ensures r == n <==> n == 0 || (foff <= size && foff <= MAXFILE * BSIZE && foff + n <= MAXFILE * BSIZE)
    ensures r < n && foff > size ==> r == 0
    ensures r < n && foff <= size <= MAXFILE * BSIZE ==> r % CHUNK == 0 && foff + r <= MAXFILE * BSIZE < foff + r + CHUNK
  {
    if foff > size || foff > MAXFILE * BSIZE then 0
    else if foff + n <= MAXFILE * BSIZE then n
    else (MAXFILE * BSIZE - foff) / CHUNK * CHUNK
  }

  function NeededBytes(f: Fs, i: int, off: nat, n: nat): nat {
    Needed(f, i, off / BSIZE, off / BSIZE + Touched(off, n))
  }

  lemma NoChunk(f: Fs, i: int, foff: nat)
    ensures UsesKept(f, f, i) && Grown(f, f, i, foff / BSIZE, foff / BSIZE + Touched(foff, 0))
  {
    NotGrown(f, i, foff / BSIZE);
  }

  lemma AllAccepted(size: nat, foff: nat, n: nat)
    requires n > 0 ==> foff <= size && foff + n <= MAXFILE * BSIZE
    ensures Accepted(size, foff, n) == n
  {
  }

  /** The chunk at k is refused: what came before is all that is accepted. */
  lemma Rejected(size: nat, foff: nat, k: nat, n1: nat, n: nat)
    requires k < n && k % CHUNK == 0 && n1 == (if n - k > CHUNK then CHUNK else n - k) && size <= MAXFILE * BSIZE
    requires if k == 0 then foff > size || foff + n1 > MAXFILE * BSIZE
             else foff <= size && foff + k <= MAXFILE * BSIZE < foff + k + n1
    ensures Accepted(size, foff, n) == k
  {
  }

  lemma ChunkAccepted(size: nat, foff: nat, k: nat, n1: nat, n: nat)
    requires k < n && k % CHUNK == 0 && n1 == (if n - k > CHUNK then CHUNK else n - k)
    requires foff <= size && foff + k + n1 <= MAXFILE * BSIZE
    ensures k + n1 <= Accepted(size, foff, n)
  {
  }

  /** Where the next chunk begins and ends, in blocks. */
  lemma ChunkRange(foff: nat, k: nat, n1: nat)
    requires 0 < n1
    ensures var mid, next := foff / BSIZE + Touched(foff, k), (foff + k) / BSIZE;
            && foff / BSIZE <= next && (next == mid || next == mid - 1)
            && next + Touched(foff + k, n1) == foff / BSIZE + Touched(foff, k + n1)
            && mid <= next + Touched(foff + k, n1) && next < next + Touched(foff + k, n1)
  {
  }

  lemma {:induction false} AbsentTwice(f: Fs, g: Fs, i: int, lo: int, mid: int, next: int, hi: int)
    requires Grown(f, g, i, lo, mid) && 0 <= lo <= next && (next == mid || next == mid - 1) && mid <= hi <= MAXFILE
    ensures Absent(f, i, lo, hi) == Absent(f, i, lo, mid) + Absent(g, i, next, hi)
    decreases hi
  {
    hide Addr, Slot, FreeSet;
    if hi > mid {
      AbsentTwice(f, g, i, lo, mid, next, hi - 1);
    }
  }

  lemma NeededTwice(f: Fs, g: Fs, i: int, lo: int, mid: int, next: int, hi: int)
    requires Grown(f, g, i, lo, mid) && 0 <= lo <= next < hi && (next == mid || next == mid - 1) && mid <= hi <= MAXFILE
    ensures Needed(f, i, lo, hi) == Needed(f, i, lo, mid) + Needed(g, i, next, hi)
  {
    hide Addr, Slot, FreeSet, Absent;
    AbsentTwice(f, g, i, lo, mid, next, hi);
  }

  lemma GrownTwice(f: Fs, g: Fs, h: Fs, i: int, lo: int, mid: int, next: int, hi: int)
    requires Grown(f, g, i, lo, mid) && Grown(g, h, i, next, hi)
    requires 0 <= lo <= next < hi && (next == mid || next == mid - 1) && mid <= hi <= MAXFILE
    ensures Grown(f, h, i, lo, hi)
  {
    hide Addr, Slot, FreeSet, Needed;
    NeededTwice(f, g, i, lo, mid, next, hi);
  }

  lemma ChunkGrown(f: Fs, g: Fs, h: Fs, i: int, foff: nat, k: nat, n1: nat)
    requires UsesKept(f, g, i) && Grown(f, g, i, foff / BSIZE, foff / BSIZE + Touched(foff, k))
    requires UsesKept(g, h, i) && Grown(g, h, i, (foff + k) / BSIZE, (foff + k) / BSIZE + Touched(foff + k, n1))
    requires 0 < n1 && foff + k + n1 <= MAXFILE * BSIZE
    ensures UsesKept(f, h, i) && Grown(f, h, i, foff / BSIZE, foff / BSIZE + Touched(foff, k + n1))
  {
    hide Grown;
    ChunkRange(foff, k, n1);
    GrownTwice(f, g, h, i, foff / BSIZE, foff / BSIZE + Touched(foff, k), (foff + k) / BSIZE, foff / BSIZE + Touched(foff, k + n1));
  }

  lemma ChunkFails(f: Fs, g: Fs, i: int, foff: nat, k: nat, n1: nat, n: nat)
    requires Grown(f, g, i, foff / BSIZE, foff / BSIZE + Touched(foff, k)) && 0 <= i < |f.inodes|
    requires k < n && k % CHUNK == 0 && n1 == (if n - k > CHUNK then CHUNK else n - k)
    requires foff <= f.inodes[i].size && foff + k + n1 <= MAXFILE * BSIZE
    requires |FreeSet(g.bits)| < Needed(g, i, (foff + k) / BSIZE, (foff + k) / BSIZE + Touched(foff + k, n1))
    ensures |FreeSet(f.bits)| < NeededBytes(f, i, foff, Accepted(f.inodes[i].size, foff, n))
  {
    hide Needed, Accepted, FreeSet;
    var lo, mid, next, hi := foff / BSIZE, foff / BSIZE + Touched(foff, k), (foff + k) / BSIZE, foff / BSIZE + Touched(foff, k + n1);
    ChunkRange(foff, k, n1);
    NeededTwice(f, g, i, lo, mid, next, hi);
    ChunkAccepted(f.inodes[i].size, foff, k, n1, n);
    NeededMore(f, i, lo, hi, lo + Touched(foff, Accepted(f.inodes[i].size, foff, n)));
  }

  lemma EnoughBytes(f: Fs, g: Fs, i: int, foff: nat, n: nat)
    requires Grown(f, g, i, foff / BSIZE, foff / BSIZE + Touched(foff, n))
    ensures |FreeSet(f.bits)| >= NeededBytes(f, i, foff, n)
  {
    EnoughWere(f, g, i, foff / BSIZE, foff / BSIZE + Touched(foff, n));
  }

  /** One more chunk, right after the ones before. */
  lemma ChunkWritten(f: Fs, g: Fs, h: Fs, i: int, off: nat, src: seq<Byte>, k: nat, m: nat)
    requires k + m <= |src| && (if k == 0 then g == f else FileWritten(f, g, i, off, src[..k]))
    requires FileWritten(g, h, i, off + k, src[k..k + m])
    ensures FileWritten(f, h, i, off, src[..k + m])
    ensures |h.inodes| == |f.inodes| && off + (k + m) <= h.inodes[i].size
  {
    hide Content;
    assert src[..k] + src[k..k + m] == src[..k + m];
    if k == 0 {
      assert src[..k + m] == src[k..k + m];
    } else {
      SpliceTwice(Content(f, i), off, src[..k], src[k..k + m]);
    }
  }

  lemma SpliceTwice(c: seq<Byte>, off: nat, s: seq<Byte>, t: seq<Byte>)
    requires off <= |c|
    ensures off + |s| <= |Splice(c, off, s)|
    ensures Splice(Splice(c, off, s), off + |s|, t) == Splice(c, off, s + t)
  {
    var d := Splice(c, off, s);
    assert d[..off + |s|] == c[..off] + s;
  }
}
