/** Blocks and inodes of the file system (kernel/fs.c): the free map, direct and indirect
    block addresses, and what each disk block is used for. The model is the state that
    operations see through the buffer cache inside a transaction. */
module FileSystem {

  const BSIZE: int := 1024
  const NDIRECT: int := 12
  const NINDIRECT: int := 256    // BSIZE / sizeof(uint)
  const MAXFILE: int := 268      // NDIRECT + NINDIRECT
  const BPB: int := 8192         // bits in a block of the free map
  const U32: int := 0x1_0000_0000

  type Byte = int
  type Block = seq<Byte>

  /** struct inode / struct dinode; addrs[NDIRECT] is the indirect block. */
  datatype Inode = Inode(typ: int, nlink: int, size: nat, addrs: seq<int>)

  /** What a block is for. Taken: allocated by balloc and not yet entered anywhere. */
  datatype Use = Unused | Meta | Data(i: int, bn: int) | Ind(i: int) | Taken

  /** `bits` is the free map, one bit per block. `use` is history. */
  datatype Fs = Fs(bits: seq<bool>, blocks: seq<Block>, inodes: seq<Inode>, use: seq<Use>)

  // ---------------------------------------------------------------------
  // Indirect blocks: little-endian 32-bit block numbers

  function Word(b: Block, j: int): int {
    if 0 <= j && 4 * j + 3 < |b| then b[4 * j] + 256 * b[4 * j + 1] + 65536 * b[4 * j + 2] + 16777216 * b[4 * j + 3] else 0
  }

  /** Byte k of a 32-bit word. */
  function ByteOf(v: int, k: int): int {
    if k == 0 then v % 256 else if k == 1 then v / 256 % 256 else if k == 2 then v / 65536 % 256 else v / 16777216
  }

  lemma FourBytes(v: int)
    ensures v == ByteOf(v, 0) + 256 * ByteOf(v, 1) + 65536 * ByteOf(v, 2) + 16777216 * ByteOf(v, 3)
  {
    assert v / 65536 == v / 256 / 256;
    assert v / 16777216 == v / 65536 / 256;
    var a, b := v / 256, v / 65536;
    assert v == 256 * a + v % 256 && a == 256 * b + a % 256 && b == 256 * (b / 256) + b % 256;
  }

  function SetWord(b: Block, j: int, v: int): (r: Block)
    requires 0 <= j && 4 * j + 3 < |b|
    ensures |r| == |b|
  {
    b[4 * j := ByteOf(v, 0)][4 * j + 1 := ByteOf(v, 1)][4 * j + 2 := ByteOf(v, 2)][4 * j + 3 := ByteOf(v, 3)]
  }

  lemma WordSet(b: Block, j: int, v: int, k: int)
    requires 0 <= j && 4 * j + 3 < |b| && 0 <= v < U32
    ensures Word(SetWord(b, j, v), k) == if k == j then v else Word(b, k)
  {
    hide ByteOf;
    FourBytes(v);
  }

  function Zeros(): (z: Block)
    ensures |z| == BSIZE && forall i :: 0 <= i < |z| ==> z[i] == 0
  {
    seq(BSIZE, _ => 0)
  }

  lemma ZeroWords(j: int)
    ensures Word(Zeros(), j) == 0
  {
  }

  // ---------------------------------------------------------------------
  // Block addresses

  predicate IsInode(f: Fs, i: int) {
    0 <= i < |f.inodes| && |f.inodes[i].addrs| == NDIRECT + 1
  }

  function Slot(f: Fs, i: int, k: int): int {
    if IsInode(f, i) && 0 <= k <= NDIRECT then f.inodes[i].addrs[k] else 0
  }

  function BlockAt(f: Fs, b: int): Block {
    if 0 <= b < |f.blocks| then f.blocks[b] else []
  }

  /** The address of block bn of file i, 0 if it has none. */
  function Addr(f: Fs, i: int, bn: int): int {
    if bn < NDIRECT then Slot(f, i, bn)
    else if Slot(f, i, NDIRECT) == 0 then 0
    else Word(BlockAt(f, Slot(f, i, NDIRECT)), bn - NDIRECT)
  }

  predicate Uses(f: Fs, b: int, u: Use) {
    0 < b < |f.use| && f.use[b] == u
  }

  // ---------------------------------------------------------------------
  // Invariant

  predicate BlockOk(f: Fs, b: int)
    requires |f.bits| == |f.blocks| == |f.use| && 0 <= b < |f.bits|
  {
    && |f.blocks[b]| == BSIZE
    && (f.bits[b] <==> f.use[b] != Unused)
    && match f.use[b]
       case Data(i, bn) => IsInode(f, i) && 0 <= bn < MAXFILE && Addr(f, i, bn) == b
       case Ind(i) => IsInode(f, i) && Slot(f, i, NDIRECT) == b
       case _ => true
  }

  predicate InodeOk(f: Fs, i: int) {
    && IsInode(f, i) && f.inodes[i].size <= MAXFILE * BSIZE
    && (Slot(f, i, NDIRECT) != 0 ==> Uses(f, Slot(f, i, NDIRECT), Ind(i)))
    && (forall bn :: 0 <= bn < MAXFILE && Addr(f, i, bn) != 0 ==> Uses(f, Addr(f, i, bn), Data(i, bn)))
  }

  /** The set bits of the free map are exactly the blocks in use, each block is used in
      one place only, and addresses and uses agree. */
  ghost predicate FsOk(f: Fs) {
    && |f.bits| == |f.blocks| == |f.use| && 0 < |f.bits| < U32 && f.use[0] == Meta
    && (forall b :: 0 <= b < |f.bits| ==> BlockOk(f, b))
    && (forall i :: 0 <= i < |f.inodes| ==> InodeOk(f, i))
  }

  /** Every block below the size of the file is there. */
  ghost predicate Complete(f: Fs, i: int)
    requires IsInode(f, i)
  {
    forall bn :: 0 <= bn && bn * BSIZE < f.inodes[i].size ==> Addr(f, i, bn) != 0
  }

  /** Byte x of file i. */
  function ByteAt(f: Fs, i: int, x: int): Byte {
    var b := BlockAt(f, Addr(f, i, x / BSIZE));
    if |b| == BSIZE then b[x % BSIZE] else 0
  }

  lemma IndBlock(f: Fs, i: int)
    requires FsOk(f) && 0 <= i < |f.inodes| && Slot(f, i, NDIRECT) != 0
    ensures Uses(f, Slot(f, i, NDIRECT), Ind(i)) && |BlockAt(f, Slot(f, i, NDIRECT))| == BSIZE
  {
    hide Addr;
    assert InodeOk(f, i);
    assert BlockOk(f, Slot(f, i, NDIRECT));
  }

  lemma DataBlock(f: Fs, i: int, bn: int)
    requires FsOk(f) && 0 <= i < |f.inodes| && 0 <= bn < MAXFILE && Addr(f, i, bn) != 0
    ensures Uses(f, Addr(f, i, bn), Data(i, bn)) && |BlockAt(f, Addr(f, i, bn))| == BSIZE
  {
    hide Addr;
    assert InodeOk(f, i);
    assert BlockOk(f, Addr(f, i, bn));
  }

  // ---------------------------------------------------------------------
  // Conservation of blocks

  /** No block is allocated but not entered anywhere, and exactly the first `nmeta` blocks
      (boot block, super block, log, inodes, free map) are metadata. */
  ghost predicate Settled(f: Fs, nmeta: int) {
    forall c :: 0 <= c < |f.use| ==> f.use[c] != Taken && (f.use[c] == Meta <==> c < nmeta)
  }

  predicate OfFile(u: Use, i: int) {
    (u.Data? && u.i == i) || u == Ind(i)
  }

  /** Block b belongs to file i: it is one of its data blocks, or its indirect block. */
  ghost predicate InFile(f: Fs, i: int, b: int) {
    && b != 0
    && ((exists bn :: 0 <= bn < MAXFILE && Addr(f, i, bn) == b) || Slot(f, i, NDIRECT) == b)
  }

  /** Block b is reachable from an inode. */
  ghost predicate InSomeFile(f: Fs, b: int) {
    exists i :: 0 <= i < |f.inodes| && InFile(f, i, b)
  }

  /** The set bits of the free map are exactly the metadata blocks and the blocks reachable
      from inodes, and no block is in two files or is metadata and in a file. */
  ghost predicate Conserved(f: Fs, nmeta: int) {
    && (forall b :: 0 <= b < |f.bits| ==> (f.bits[b] <==> b < nmeta || InSomeFile(f, b)))
    && (forall b, i :: 0 <= b < |f.bits| && 0 <= i < |f.inodes| && InFile(f, i, b) ==>
          b >= nmeta && forall j :: 0 <= j < |f.inodes| && InFile(f, j, b) ==> j == i)
  }

  /** A block is in a file exactly when that is its use. */
  lemma InFileIffUse(f: Fs, i: int, b: int)
    requires FsOk(f) && 0 <= i < |f.inodes| && 0 <= b < |f.bits|
    ensures InFile(f, i, b) <==> OfFile(f.use[b], i)
  {
    hide Addr, Slot;
    assert InodeOk(f, i) && BlockOk(f, b);
  }

  lemma BlocksConserved(f: Fs, nmeta: int)
    requires FsOk(f) && Settled(f, nmeta)
    ensures Conserved(f, nmeta)
  {
    hide Addr, Slot, InFile, InodeOk;
    forall b, i | 0 <= b < |f.bits| && 0 <= i < |f.inodes| ensures InFile(f, i, b) <==> OfFile(f.use[b], i) {
      InFileIffUse(f, i, b);
    }
    forall b | 0 <= b < |f.bits| ensures f.bits[b] <==> b < nmeta || InSomeFile(f, b) {
      assert BlockOk(f, b);
      if f.use[b].Data? || f.use[b].Ind? {
        assert InFile(f, f.use[b].i, b);
      }
    }
  }

  /** The free blocks. */
  function FreeSet(bits: seq<bool>): set<int> {
    set b | 0 <= b < |bits| && !bits[b]
  }

  lemma FreeTaken(bits: seq<bool>, b: int)
    requires 0 <= b < |bits| && !bits[b]
    ensures |FreeSet(bits[b := true])| == |FreeSet(bits)| - 1
  {
    assert FreeSet(bits) == FreeSet(bits[b := true]) + {b};
  }

  // ---------------------------------------------------------------------
  // Allocating a block

  /** balloc: mark b in use and zero it. */
  function Alloc(f: Fs, b: int): Fs
    requires 0 <= b < |f.bits| == |f.blocks| == |f.use|
  {
    Fs(f.bits[b := true], f.blocks[b := Zeros()], f.inodes, f.use[b := Taken])
  }

  lemma AllocAddr(f: Fs, b: int, i: int, bn: int)
    requires FsOk(f) && 0 <= b < |f.bits| && f.use[b] == Unused && 0 <= i < |f.inodes|
    ensures Addr(Alloc(f, b), i, bn) == Addr(f, i, bn)
  {
    hide Word;
    assert InodeOk(f, i);
  }

  lemma AllocOk(f: Fs, b: int)
    requires FsOk(f) && 0 <= b < |f.bits| && f.use[b] == Unused
    ensures FsOk(Alloc(f, b))
  {
    hide Addr;
    var g := Alloc(f, b);
    forall c | 0 <= c < |g.bits| ensures BlockOk(g, c) {
      assert BlockOk(f, c);
      if f.use[c].Data? {
        AllocAddr(f, b, f.use[c].i, f.use[c].bn);
      }
    }
    forall i | 0 <= i < |g.inodes| ensures InodeOk(g, i) {
      assert InodeOk(f, i);
      forall bn | 0 <= bn < MAXFILE && Addr(g, i, bn) != 0 ensures Uses(g, Addr(g, i, bn), Data(i, bn)) {
        AllocAddr(f, b, i, bn);
      }
    }
  }

  // ---------------------------------------------------------------------
  // Entering a block into a file

  /** g differs from f in that block b, taken before, is now used as u. */
  ghost predicate Entered(f: Fs, g: Fs, b: int, u: Use) {
    && 0 < b < |f.use| && f.use[b] == Taken && (u.Data? || u.Ind?)
    && g.bits == f.bits && |g.blocks| == |f.blocks| && g.use == f.use[b := u] && |g.inodes| == |f.inodes|
    && (forall c :: 0 <= c < |g.blocks| ==> |g.blocks[c]| == BSIZE)
    && (forall i :: 0 <= i < |f.inodes| ==>
          && IsInode(g, i) && g.inodes[i].size == f.inodes[i].size
          && Slot(g, i, NDIRECT) == (if u == Ind(i) then b else Slot(f, i, NDIRECT))
          && (u == Ind(i) ==> Slot(f, i, NDIRECT) == 0))
    && (forall i, bn :: 0 <= i < |f.inodes| && 0 <= bn < MAXFILE ==>
          && Addr(g, i, bn) == (if u == Data(i, bn) then b else Addr(f, i, bn))
          && (u == Data(i, bn) ==> Addr(f, i, bn) == 0))
  }

  lemma EnteredOk(f: Fs, g: Fs, b: int, u: Use)
    requires FsOk(f) && Entered(f, g, b, u)
    requires u.Data? ==> 0 <= u.i < |f.inodes| && 0 <= u.bn < MAXFILE
    requires u.Ind? ==> 0 <= u.i < |f.inodes|
    ensures FsOk(g)
  {
    hide Addr, Slot;
    forall c | 0 <= c < |g.bits| ensures BlockOk(g, c) {
      assert BlockOk(f, c);
    }
    forall i | 0 <= i < |g.inodes| ensures InodeOk(g, i) {
      assert InodeOk(f, i);
      forall bn | 0 <= bn < MAXFILE && Addr(g, i, bn) != 0 ensures Uses(g, Addr(g, i, bn), Data(i, bn)) {
        assert Addr(f, i, bn) != 0 ==> Uses(f, Addr(f, i, bn), Data(i, bn));
      }
    }
  }

  /** ip->addrs[k] = b. */
  function SetSlot(f: Fs, i: int, k: int, b: int): Fs
    requires IsInode(f, i) && 0 <= k <= NDIRECT
  {
    f.(inodes := f.inodes[i := f.inodes[i].(addrs := f.inodes[i].addrs[k := b])])
  }

  function SetUse(f: Fs, b: int, u: Use): Fs
    requires 0 <= b < |f.use|
  {
    f.(use := f.use[b := u])
  }

  lemma EnterDirect(f: Fs, i: int, bn: int, b: int)
    requires FsOk(f) && 0 <= i < |f.inodes| && 0 <= bn < NDIRECT && Addr(f, i, bn) == 0
    requires 0 < b < |f.use| && f.use[b] == Taken
    ensures IsInode(f, i)
    ensures var g := SetUse(SetSlot(f, i, bn, b), b, Data(i, bn));
            FsOk(g) && Entered(f, g, b, Data(i, bn)) && g.blocks == f.blocks
  {
    hide Word;
    assert InodeOk(f, i);
    var g := SetUse(SetSlot(f, i, bn, b), b, Data(i, bn));
    forall j | 0 <= j < |f.inodes| ensures IsInode(g, j) && Slot(g, j, NDIRECT) == Slot(f, j, NDIRECT) {
      assert InodeOk(f, j);
    }
    forall j, n | 0 <= j < |f.inodes| && 0 <= n < MAXFILE
      ensures Addr(g, j, n) == if j == i && n == bn then b else Addr(f, j, n)
    {
      assert InodeOk(f, j);
    }
    forall c | 0 <= c < |g.blocks| ensures |g.blocks[c]| == BSIZE {
      assert BlockOk(f, c);
    }
    EnteredOk(f, g, b, Data(i, bn));
  }

  lemma EnterIndirect(f: Fs, i: int, b: int)
    requires FsOk(f) && 0 <= i < |f.inodes| && Slot(f, i, NDIRECT) == 0
    requires 0 < b < |f.use| && f.use[b] == Taken && f.blocks[b] == Zeros()
    ensures IsInode(f, i)
    ensures var g := SetUse(SetSlot(f, i, NDIRECT, b), b, Ind(i));
            FsOk(g) && Entered(f, g, b, Ind(i)) && g.blocks == f.blocks
  {
    hide Word, Zeros;
    assert InodeOk(f, i);
    var g := SetUse(SetSlot(f, i, NDIRECT, b), b, Ind(i));
    forall j | 0 <= j < |f.inodes| ensures IsInode(g, j) {
      assert InodeOk(f, j);
    }
    forall j, bn | 0 <= j < |f.inodes| && 0 <= bn < MAXFILE ensures Addr(g, j, bn) == Addr(f, j, bn) {
      ZeroWords(bn - NDIRECT);
    }
    forall c | 0 <= c < |g.blocks| ensures |g.blocks[c]| == BSIZE {
      assert BlockOk(f, c);
    }
    EnteredOk(f, g, b, Ind(i));
  }

  /** a[bn - NDIRECT] = b in the indirect block of i. */
  function SetEntry(f: Fs, i: int, bn: int, b: int): Fs
    requires 0 <= Slot(f, i, NDIRECT) < |f.blocks| && |BlockAt(f, Slot(f, i, NDIRECT))| == BSIZE && NDIRECT <= bn < MAXFILE
  {
    var ind := Slot(f, i, NDIRECT);
    f.(blocks := f.blocks[ind := SetWord(f.blocks[ind], bn - NDIRECT, b)])
  }

  lemma EnterEntry(f: Fs, i: int, bn: int, b: int)
    requires FsOk(f) && 0 <= i < |f.inodes| && NDIRECT <= bn < MAXFILE && Slot(f, i, NDIRECT) != 0 && Addr(f, i, bn) == 0
    requires 0 < b < |f.use| && f.use[b] == Taken
    ensures Uses(f, Slot(f, i, NDIRECT), Ind(i)) && |BlockAt(f, Slot(f, i, NDIRECT))| == BSIZE
    ensures var g := SetUse(SetEntry(f, i, bn, b), b, Data(i, bn));
            FsOk(g) && Entered(f, g, b, Data(i, bn)) && g.inodes == f.inodes
  {
    hide Word, SetWord;
    IndBlock(f, i);
    var ind, g := Slot(f, i, NDIRECT), SetUse(SetEntry(f, i, bn, b), b, Data(i, bn));
    forall j, n | 0 <= j < |f.inodes| && 0 <= n < MAXFILE
      ensures Addr(g, j, n) == if j == i && n == bn then b else Addr(f, j, n)
    {
      assert InodeOk(f, j);
      WordSet(f.blocks[ind], bn - NDIRECT, b, n - NDIRECT);
    }
    forall j | 0 <= j < |f.inodes| ensures IsInode(g, j) {
      assert InodeOk(f, j);
    }
    forall c | 0 <= c < |g.blocks| ensures |g.blocks[c]| == BSIZE {
      assert BlockOk(f, c);
    }
    EnteredOk(f, g, b, Data(i, bn));
  }

  // ---------------------------------------------------------------------
  // Contents

  function SetBlock(f: Fs, b: int, data: Block): Fs
    requires 0 <= b < |f.blocks|
  {
    f.(blocks := f.blocks[b := data])
  }

  lemma WriteAddr(f: Fs, i: int, bn: int, data: Block, j: int, n: int)
    requires FsOk(f) && 0 <= i < |f.inodes| && 0 <= bn < MAXFILE && Addr(f, i, bn) != 0 && |data| == BSIZE
    requires 0 <= j < |f.inodes|
    ensures 0 <= Addr(f, i, bn) < |f.blocks|
    ensures Addr(SetBlock(f, Addr(f, i, bn), data), j, n) == Addr(f, j, n)
  {
    DataBlock(f, i, bn);
    assert InodeOk(f, j);
    hide Word;
  }

  /** Writing a data block keeps the structure, and changes that block of that file and
      nothing else. */
  lemma WriteOk(f: Fs, i: int, bn: int, data: Block)
    requires FsOk(f) && 0 <= i < |f.inodes| && 0 <= bn < MAXFILE && Addr(f, i, bn) != 0 && |data| == BSIZE
    ensures 0 <= Addr(f, i, bn) < |f.blocks|
    ensures FsOk(SetBlock(f, Addr(f, i, bn), data))
  {
    hide Addr;
    DataBlock(f, i, bn);
    var g := SetBlock(f, Addr(f, i, bn), data);
    forall c | 0 <= c < |g.bits| ensures BlockOk(g, c) {
      assert BlockOk(f, c);
      if f.use[c].Data? {
        WriteAddr(f, i, bn, data, f.use[c].i, f.use[c].bn);
      }
    }
    forall j | 0 <= j < |g.inodes| ensures InodeOk(g, j) {
      assert InodeOk(f, j);
      forall n | 0 <= n < MAXFILE && Addr(g, j, n) != 0 ensures Uses(g, Addr(g, j, n), Data(j, n)) {
        WriteAddr(f, i, bn, data, j, n);
      }
    }
  }

  lemma WriteBytes(f: Fs, i: int, bn: int, data: Block, j: int, x: int)
    requires FsOk(f) && 0 <= i < |f.inodes| && 0 <= bn < MAXFILE && Addr(f, i, bn) != 0 && |data| == BSIZE
    requires 0 <= j < |f.inodes| && 0 <= x < MAXFILE * BSIZE && Addr(f, j, x / BSIZE) != 0
    ensures 0 <= Addr(f, i, bn) < |f.blocks|
    ensures ByteAt(SetBlock(f, Addr(f, i, bn), data), j, x)
         == if j == i && x / BSIZE == bn then data[x % BSIZE] else ByteAt(f, j, x)
  {
    hide Addr;
    DataBlock(f, i, bn);
    DataBlock(f, j, x / BSIZE);
    WriteAddr(f, i, bn, data, j, x / BSIZE);
  }

  /** Allocating or entering a block leaves all bytes that were there. */
  lemma SameBytes(f: Fs, g: Fs, j: int, x: int)
    requires FsOk(f) && 0 <= j < |f.inodes| && 0 <= x < MAXFILE * BSIZE && Addr(f, j, x / BSIZE) != 0
    requires Addr(g, j, x / BSIZE) == Addr(f, j, x / BSIZE) && |g.blocks| == |f.blocks|
    requires forall c :: 0 <= c < |f.blocks| && f.use[c].Data? ==> g.blocks[c] == f.blocks[c]
    ensures ByteAt(g, j, x) == ByteAt(f, j, x)
  {
    hide Addr;
    DataBlock(f, j, x / BSIZE);
  }

  // ---------------------------------------------------------------------
  // Truncation

  /** Blocks 0 .. k - 1 of file i are free now, and nothing else changed in the map. */
  ghost predicate FreedTo(f: Fs, bits: seq<bool>, use: seq<Use>, i: int, k: int)
    requires |f.bits| == |f.use|
  {
    && |bits| == |use| == |f.bits|
    && forall c :: 0 <= c < |bits| ==>
         if f.use[c].Data? && f.use[c].i == i && f.use[c].bn < k then !bits[c] && use[c] == Unused
         else bits[c] == f.bits[c] && use[c] == f.use[c]
  }

  /** All blocks of file i, and no others, are free, and the file is empty. */
  ghost predicate Truncated(f: Fs, g: Fs, i: int)
    requires |f.bits| == |f.use| && 0 <= i < |f.inodes|
  {
    && |g.bits| == |g.use| == |f.bits| && g.blocks == f.blocks
    && (forall c :: 0 <= c < |g.bits| ==>
          if OfFile(f.use[c], i) then !g.bits[c] && g.use[c] == Unused
          else g.bits[c] == f.bits[c] && g.use[c] == f.use[c])
    && g.inodes == f.inodes[i := f.inodes[i].(size := 0, addrs := seq(NDIRECT + 1, _ => 0))]
  }

  lemma TruncatedAddr(f: Fs, g: Fs, i: int, j: int, n: int)
    requires FsOk(f) && 0 <= i < |f.inodes| && Truncated(f, g, i) && 0 <= j < |f.inodes|
    ensures IsInode(g, j) && Addr(g, j, n) == (if j == i then 0 else Addr(f, j, n))
    ensures Slot(g, j, NDIRECT) == (if j == i then 0 else Slot(f, j, NDIRECT))
  {
    hide Word;
    assert InodeOk(f, j);
  }

  lemma TruncatedOk(f: Fs, g: Fs, i: int)
    requires FsOk(f) && 0 <= i < |f.inodes| && Truncated(f, g, i)
    ensures FsOk(g)
  {
    hide Addr, Slot;
    forall c | 0 <= c < |g.bits| ensures BlockOk(g, c) {
      assert BlockOk(f, c);
      if g.use[c].Data? {
        TruncatedAddr(f, g, i, f.use[c].i, f.use[c].bn);
      } else if g.use[c].Ind? {
        TruncatedAddr(f, g, i, f.use[c].i, 0);
      }
    }
    forall j | 0 <= j < |g.inodes| ensures InodeOk(g, j) {
      assert InodeOk(f, j);
      TruncatedAddr(f, g, i, j, 0);
      forall n | 0 <= n < MAXFILE && Addr(g, j, n) != 0 ensures Uses(g, Addr(g, j, n), Data(j, n)) {
        TruncatedAddr(f, g, i, j, n);
      }
    }
  }

  lemma TruncatedBytes(f: Fs, g: Fs, i: int, j: int, x: int)
    requires FsOk(f) && 0 <= i < |f.inodes| && Truncated(f, g, i) && 0 <= j < |f.inodes| && j != i
    ensures ByteAt(g, j, x) == ByteAt(f, j, x)
  {
    hide Addr;
    TruncatedAddr(f, g, i, j, x / BSIZE);
  }

  // ---------------------------------------------------------------------
  // Files as byte sequences

  function Content(f: Fs, i: int): (c: seq<Byte>)
    requires IsInode(f, i)
    ensures |c| == f.inodes[i].size
  {
    seq(f.inodes[i].size, x => ByteAt(f, i, x))
  }

  ghost predicate AllComplete(f: Fs) {
    forall i :: IsInode(f, i) ==> Complete(f, i)
  }
}
