/** The transaction bound of filewrite is exact: on a disk whose last four free blocks lie
    under four different blocks of the free map, one unaligned chunk that enters the
    indirect range succeeds and logs ten blocks. */
module ChunkCost {
  import opened FileSystem
  import opened FileOps

  // The layout that mkfs computes for FSSIZE 29375 and NINODES 111, in place of 1000
  // (param.h) and 200 (mkfs.c): 1000 blocks have only one free map block.
  const DISK_BLOCKS: int := 29375
  const INODESTART: int := 32
  const BMAPSTART: int := 39
  const NMETA: int := 43
  const FILES: int := 111

  // The file that is written, the last inode.
  const WRITTEN: int := 110

  /** Where the indirect block of file i is; its data blocks follow. */
  function First(i: int): int {
    269 * i - 215
  }

  /** These files are one block short of the largest size. */
  predicate Short(i: int) {
    i == 10 || i == 40 || i == 70 || i == 100
  }

  /** The last data block of a short file would be here. */
  predicate LastFree(c: int) {
    c == 2743 || c == 10813 || c == 18883 || c == 26953
  }

  /** A file other than the written one. Inode 0 is never used. */
  predicate Other(i: int) {
    0 < i < WRITTEN
  }

  /** The written file has ten blocks and one byte, in blocks 43 to 53. The others are as
      large as can be, but for the short ones. */
  function FullAddr(i: int, bn: int): int {
    if i == WRITTEN then (if 0 <= bn <= 10 then 43 + bn else 0)
    else if Other(i) && 0 <= bn < MAXFILE && !(Short(i) && bn == MAXFILE - 1) then First(i) + 1 + bn
    else 0
  }

  /** Inode 0 is free, inode 1 is the root directory, the others are files. */
  function FullInode(i: int): Inode {
    Inode(if i < 2 then i else 2, if i == 0 then 0 else 1,
          if i == 0 then 0 else if i == WRITTEN then 10 * BSIZE + 1 else if Short(i) then 267 * BSIZE else 268 * BSIZE,
          seq(NDIRECT + 1, k => if k < NDIRECT then FullAddr(i, k) else if Other(i) then First(i) else 0))
  }

  /** The indirect block of file i. */
  function Entries(i: int): Block {
    seq(BSIZE, x => ByteOf(FullAddr(i, NDIRECT + x / 4), x % 4))
  }

  /** The file that block c is laid out for, and its place there; 0 is the indirect block. */
  function GroupOf(c: int): int {
    (c - 54) / 269 + 1
  }

  function PlaceOf(c: int): int {
    (c - 54) % 269
  }

  function FullUse(c: int): Use {
    if c < NMETA then Meta
    else if c < 54 then Data(WRITTEN, c - 43)
    else if LastFree(c) then Unused
    else if PlaceOf(c) == 0 then Ind(GroupOf(c))
    else Data(GroupOf(c), PlaceOf(c) - 1)
  }

  /** Files own all blocks behind the metadata but four. */
  function AlmostFull(): Fs {
    Fs(seq(DISK_BLOCKS, c => !LastFree(c)),
       seq(DISK_BLOCKS, c => if 54 <= c && PlaceOf(c) == 0 then Entries(GroupOf(c)) else Zeros()),
       seq(FILES, i => FullInode(i)),
       seq(DISK_BLOCKS, c => FullUse(c)))
  }

  lemma EntryByte(i: int, j: int, k: int)
    requires 0 <= j < NINDIRECT && 0 <= k < 4
    ensures 4 * j + k < |Entries(i)| && Entries(i)[4 * j + k] == ByteOf(FullAddr(i, NDIRECT + j), k)
  {
    hide FullAddr, ByteOf;
    assert (4 * j + k) / 4 == j && (4 * j + k) % 4 == k;
  }

  lemma EntryWord(i: int, j: int)
    requires 0 <= j < NINDIRECT
    ensures Word(Entries(i), j) == FullAddr(i, NDIRECT + j)
  {
    hide FullAddr, ByteOf, Entries;
    EntryByte(i, j, 0);
    EntryByte(i, j, 1);
    EntryByte(i, j, 2);
    EntryByte(i, j, 3);
    FourBytes(FullAddr(i, NDIRECT + j));
  }

  lemma GroupFirst(i: int)
    requires Other(i)
    ensures 54 <= First(i) < DISK_BLOCKS && PlaceOf(First(i)) == 0 && GroupOf(First(i)) == i
  {
  }

  lemma AlmostFullAddr(i: int, bn: int)
    requires 0 <= i < FILES && 0 <= bn < MAXFILE
    ensures IsInode(AlmostFull(), i) && Slot(AlmostFull(), i, NDIRECT) == if Other(i) then First(i) else 0
    ensures Addr(AlmostFull(), i, bn) == FullAddr(i, bn)
  {
    hide Zeros, Word, Entries, PlaceOf, GroupOf, FullUse;
    if Other(i) && bn >= NDIRECT {
      GroupFirst(i);
      assert BlockAt(AlmostFull(), First(i)) == Entries(i);
      EntryWord(i, bn - NDIRECT);
    }
  }

  /** Blocks and addresses agree. */
  lemma FullUseAddr(c: int)
    requires 54 <= c < DISK_BLOCKS && !LastFree(c)
    ensures Other(GroupOf(c)) && c == First(GroupOf(c)) + PlaceOf(c)
    ensures PlaceOf(c) > 0 ==> FullAddr(GroupOf(c), PlaceOf(c) - 1) == c
  {
    assert c == 269 * ((c - 54) / 269) + (c - 54) % 269 + 54;
  }

  lemma FullAddrUse(i: int, bn: int)
    requires 0 <= i < FILES && 0 <= bn < MAXFILE && FullAddr(i, bn) != 0
    ensures 0 < FullAddr(i, bn) < DISK_BLOCKS && FullUse(FullAddr(i, bn)) == Data(i, bn)
  {
  }

  lemma AlmostFullBlock(b: int)
    requires 0 <= b < DISK_BLOCKS
    ensures BlockOk(AlmostFull(), b)
  {
    hide Addr, Slot, Zeros, FullAddr, PlaceOf, GroupOf;
    if 43 <= b < 54 {
      AlmostFullAddr(WRITTEN, b - 43);
      WrittenFile(b - 43);
    } else if 54 <= b && !LastFree(b) {
      FullUseAddr(b);
      PlaceRange(b);
      AlmostFullAddr(GroupOf(b), if PlaceOf(b) > 0 then PlaceOf(b) - 1 else 0);
    }
  }

  lemma WrittenFile(bn: int)
    requires 0 <= bn <= 10
    ensures FullAddr(WRITTEN, bn) == 43 + bn
  {
  }

  lemma PlaceRange(c: int)
    ensures 0 <= PlaceOf(c) <= MAXFILE
  {
  }

  lemma AlmostFullInode(i: int)
    requires 0 <= i < FILES
    ensures InodeOk(AlmostFull(), i) && IsInode(AlmostFull(), i) && Complete(AlmostFull(), i)
  {
    hide Addr, Slot, Zeros, PlaceOf, GroupOf, FullUse, BlockAt;
    var f := AlmostFull();
    AlmostFullAddr(i, 0);
    if Other(i) {
      GroupFirst(i);
      assert FullUse(First(i)) == Ind(i) by {
        FirstUse(i);
      }
    }
    forall bn | 0 <= bn < MAXFILE && Addr(f, i, bn) != 0 ensures Uses(f, Addr(f, i, bn), Data(i, bn)) {
      AlmostFullAddr(i, bn);
      FullAddrUse(i, bn);
    }
    forall bn | 0 <= bn && bn * BSIZE < f.inodes[i].size ensures Addr(f, i, bn) != 0 {
      AlmostFullAddr(i, bn);
    }
  }

  lemma FirstUse(i: int)
    requires Other(i)
    ensures FullUse(First(i)) == Ind(i)
  {
  }

  /** The disk is a sound file system on which no block is lost. */
  lemma AlmostFullOk()
    ensures FsOk(AlmostFull()) && AllComplete(AlmostFull()) && Settled(AlmostFull(), NMETA)
    ensures |FreeSet(AlmostFull().bits)| == 4
  {
    hide InodeOk, BlockOk, Complete, FullInode, Zeros, Entries;
    var f := AlmostFull();
    forall b | 0 <= b < |f.bits| ensures BlockOk(f, b) {
      AlmostFullBlock(b);
    }
    forall i | 0 <= i < |f.inodes| ensures InodeOk(f, i) && IsInode(f, i) && Complete(f, i) {
      AlmostFullInode(i);
    }
    assert FreeSet(f.bits) == {2743, 10813, 18883, 26953};
    FourDistinct(2743, 10813, 18883, 26953);
  }

  /** A block of the file that is new must be one of the last free ones. */
  lemma NewIsLastFree(g: Fs, b: int, u: Use)
    requires UsesKept(AlmostFull(), g, WRITTEN) && Uses(g, b, u) && (u == Ind(WRITTEN) || (u.Data? && u.i == WRITTEN && u.bn > 10))
    ensures LastFree(b)
  {
    assert AlmostFull().use[b] != Unused ==> g.use[b] == AlmostFull().use[b];
  }

  lemma MapBlocksDiffer(a: int, b: int)
    requires LastFree(a) && LastFree(b)
    ensures MapBlock(BMAPSTART, a) == MapBlock(BMAPSTART, b) <==> a == b
    ensures BMAPSTART <= MapBlock(BMAPSTART, a) <= BMAPSTART + 3
  {
  }

  lemma FourDistinct(a: int, b: int, c: int, d: int)
    requires a != b && a != c && a != d && b != c && b != d && c != d
    ensures |{a, b, c, d}| == 4
  {
    assert {a, b, c, d} == {a, b, c} + {d} && {a, b, c} == {a, b} + {c};
  }

  lemma FiveBlocks(a: int, b: int, c: int, d: int)
    requires LastFree(a) && LastFree(b) && LastFree(c) && LastFree(d)
    requires a != b && a != c && a != d && b != c && b != d && c != d
    ensures var blocks := {53, a, b, c, d};
            |blocks| == 5 && forall x :: x in blocks ==> x >= NMETA
  {
    FourDistinct(a, b, c, d);
    assert {53, a, b, c, d} == {a, b, c, d} + {53};
  }

  lemma FourMaps(a: int, b: int, c: int, d: int)
    requires LastFree(a) && LastFree(b) && LastFree(c) && LastFree(d)
    requires a != b && a != c && a != d && b != c && b != d && c != d
    ensures var maps := {MapBlock(BMAPSTART, a), MapBlock(BMAPSTART, b), MapBlock(BMAPSTART, c), MapBlock(BMAPSTART, d)};
            |maps| == 4 && forall x :: x in maps ==> BMAPSTART <= x < NMETA
  {
    MapBlocksDiffer(a, b);
    MapBlocksDiffer(a, c);
    MapBlocksDiffer(a, d);
    MapBlocksDiffer(b, c);
    MapBlocksDiffer(b, d);
    MapBlocksDiffer(c, d);
    MapBlocksDiffer(d, d);
    hide MapBlock, LastFree;
    FourDistinct(MapBlock(BMAPSTART, a), MapBlock(BMAPSTART, b), MapBlock(BMAPSTART, c), MapBlock(BMAPSTART, d));
  }

  /** The blocks themselves, their free map blocks and the inode block do not coincide. */
  lemma TenDistinct(blocks: set<int>, maps: set<int>, inode: int, logged: set<int>)
    requires |blocks| == 5 && |maps| == 4 && blocks <= logged && maps <= logged && inode in logged
    requires inode < BMAPSTART && (forall x :: x in maps ==> BMAPSTART <= x < NMETA) && forall x :: x in blocks ==> x >= NMETA
    ensures |logged| >= 10
  {
    assert forall x :: x in blocks ==> x !in maps;
    assert blocks !! maps && inode !in blocks + maps;
    assert |blocks + maps| == 9;
    Fewer(blocks + maps + {inode}, logged);
  }

  /** Three blocks of bytes written at the end of that file: blocks 10 to 13 of the file
      are touched and ten different blocks are logged. */
  lemma TenBlocks(g: Fs, logged: set<int>)
    requires FsOk(g) && |g.inodes| == FILES && UsesKept(AlmostFull(), g, WRITTEN)
    requires RangeLogged(AlmostFull(), g, WRITTEN, (10 * BSIZE + 1) / BSIZE, Touched(10 * BSIZE + 1, 3 * BSIZE), BMAPSTART, logged)
    requires INODESTART + 6 in logged
    ensures |logged| >= MAXOPBLOCKS
  {
    hide Addr, Slot, FsOk, AlmostFull, UsesKept, MapBlock, First;
    assert (10 * BSIZE + 1) / BSIZE == 10 && Touched(10 * BSIZE + 1, 3 * BSIZE) == 4;
    var a10, a11, a12, a13 := Addr(g, WRITTEN, 10), Addr(g, WRITTEN, 11), Addr(g, WRITTEN, 12), Addr(g, WRITTEN, 13);
    var ind := Slot(g, WRITTEN, NDIRECT);
    EntryNeedsIndirect(g, WRITTEN, 12);
    AlmostFullAddr(WRITTEN, 10);
    AlmostFullAddr(WRITTEN, 11);
    AlmostFullAddr(WRITTEN, 12);
    AlmostFullAddr(WRITTEN, 13);
    DataBlock(g, WRITTEN, 10);
    DataBlock(g, WRITTEN, 11);
    DataBlock(g, WRITTEN, 12);
    DataBlock(g, WRITTEN, 13);
    IndBlock(g, WRITTEN);
    OldBlock(g);
    NewIsLastFree(g, a11, Data(WRITTEN, 11));
    NewIsLastFree(g, a12, Data(WRITTEN, 12));
    NewIsLastFree(g, a13, Data(WRITTEN, 13));
    NewIsLastFree(g, ind, Ind(WRITTEN));
    FiveBlocks(a11, a12, a13, ind);
    FourMaps(a11, a12, a13, ind);
    TenDistinct({53, a11, a12, a13, ind}, {MapBlock(BMAPSTART, a11), MapBlock(BMAPSTART, a12), MapBlock(BMAPSTART, a13), MapBlock(BMAPSTART, ind)},
                INODESTART + 6, logged);
  }

  /** Block 10 of the file is still block 53 of the disk. */
  lemma OldBlock(g: Fs)
    requires FsOk(g) && |g.inodes| == FILES && UsesKept(AlmostFull(), g, WRITTEN)
    ensures Addr(g, WRITTEN, 10) == 53
  {
    hide Addr;
    assert AlmostFull().use[53] == Data(WRITTEN, 10);
    assert BlockOk(g, 53);
  }

  /** It takes the last four free blocks. */
  lemma FourNeeded()
    ensures Needed(AlmostFull(), WRITTEN, 10, 14) == 4
  {
    hide Addr, Slot, AlmostFull;
    var f := AlmostFull();
    AlmostFullAddr(WRITTEN, 10);
    AlmostFullAddr(WRITTEN, 11);
    AlmostFullAddr(WRITTEN, 12);
    AlmostFullAddr(WRITTEN, 13);
    assert Absent(f, WRITTEN, 10, 11) == 0 && Absent(f, WRITTEN, 10, 12) == 1 && Absent(f, WRITTEN, 10, 13) == 2;
  }

  /** writei of a full chunk on that disk succeeds, and reaches the bound. */
  method TenBlockChunk(src: seq<Byte>) returns (ok: bool, r: int, ghost logged: set<int>)
    requires |src| == 3 * BSIZE
    ensures ok && r == |src| && |logged| == MAXOPBLOCKS
  {
    hide FsOk, AllComplete, Settled, FreeSet, Needed, Content, RangeLogged, UsesKept, Grown, Conserved, Zeros, Entries, FullUse;
    AlmostFullOk();
    FourNeeded();
    var f := AlmostFull();
    var d := new Disk(NMETA, INODESTART, BMAPSTART, f.bits, f.blocks, f.inodes, f.use);
    assert f.inodes[WRITTEN].size == 10 * BSIZE + 1;
    ghost var more;
    ok, r, more := d.Writei(WRITTEN, 10 * BSIZE + 1, src);
    logged := d.logged;
    TenBlocks(d.S(), logged);
    ChunkBound(10 * BSIZE + 1, 3 * BSIZE);
    Fewer(logged, more);
  }
}
