/** filewrite and crashes: the transactions of filewrite (module FileOps) run as operations
    of the logged disk (module TxSystem). However often the machine crashes, the file that
    recovery leaves holds a whole number of chunks. */
module ChunkCrash {
  import opened FileSystem
  import opened FileOps
  import RedoLog
  import TxSystem

  /** File i of g has the bytes it had in f, with the first k bytes of src at off, and
      these are whole chunks or all of src. */
  ghost predicate WholeTo(f: Fs, g: Fs, i: int, off: nat, src: seq<Byte>, k: nat) {
    && IsInode(f, i) && IsInode(g, i) && k <= |src| && (k % CHUNK == 0 || k == |src|)
    && (k > 0 ==> off <= |Content(f, i)|)
    && Content(g, i) == if k == 0 then Content(f, i) else Splice(Content(f, i), off, src[..k])
  }

  ghost predicate Whole(f: Fs, g: Fs, i: int, off: nat, src: seq<Byte>) {
    exists k :: WholeTo(f, g, i, off, src, k)
  }

  ghost predicate SameFile(f: Fs, g: Fs, i: int) {
    IsInode(f, i) && IsInode(g, i) && Content(g, i) == Content(f, i)
  }

  /** The file that process p leaves at the end of an operation: as filewrite found it, or as
      one of its transactions left it. */
  ghost predicate AtChunkEnd(f: Fs, ends: seq<Fs>, g: Fs, i: int) {
    SameFile(f, g, i) || exists j :: 0 <= j < |ends| && SameFile(ends[j], g, i)
  }

  /** In this run the operations of p are the transactions of a filewrite that went through
      `ends`, and no other process writes file i. `decode` reads the file system off the
      blocks outside the log. */
  ghost predicate Writes(c: TxSystem.Params, run: seq<TxSystem.State>, events: seq<TxSystem.Event>, p: nat,
                         decode: map<int, RedoLog.Block> -> Fs, f: Fs, ends: seq<Fs>, i: int) {
    && |run| == |events| + 1
    && forall n :: 0 <= n < |events| && !events[n].Crash? && p !in run[n + 1].ops ==>
         var g := decode(TxSystem.View(c, run[n + 1]).current);
         if p in run[n].ops then AtChunkEnd(f, ends, g, i)
         else SameFile(decode(TxSystem.View(c, run[n]).current), g, i)
  }

  lemma SpliceNothing(c: seq<Byte>, off: nat)
    requires off <= |c|
    ensures Splice(c, off, []) == c
  {
  }

  lemma EndIsWhole(f: Fs, ends: seq<Fs>, g: Fs, i: int, off: nat, src: seq<Byte>)
    requires ChunkEnds(f, ends, i, off, src) && AtChunkEnd(f, ends, g, i)
    ensures Whole(f, g, i, off, src)
  {
    hide Content, IsInode;
    if SameFile(f, g, i) {
      assert WholeTo(f, g, i, off, src, 0);
    } else {
      var j :| 0 <= j < |ends| && SameFile(ends[j], g, i);
      assert FileWritten(f, ends[j], i, off, src[..ChunkEnd(j, |src|)]);
      SpliceNothing(Content(f, i), off);
      assert WholeTo(f, g, i, off, src, ChunkEnd(j, |src|));
    }
  }

  lemma StaysWhole(f: Fs, g: Fs, h: Fs, i: int, off: nat, src: seq<Byte>)
    requires Whole(f, g, i, off, src) && SameFile(g, h, i)
    ensures Whole(f, h, i, off, src)
  {
    hide Content, IsInode;
    var k :| WholeTo(f, g, i, off, src, k);
    assert WholeTo(f, h, i, off, src, k);
  }

  /** In every state of such a run, whatever crashes it has had, what recovery would leave of
      the file, and what is there after it, is a whole number of chunks. */
  lemma WholeChunksSurvive(c: TxSystem.Params, run: seq<TxSystem.State>, events: seq<TxSystem.Event>, p: nat,
                           decode: map<int, RedoLog.Block> -> Fs, f: Fs, ends: seq<Fs>, i: int, off: nat, src: seq<Byte>, n: nat)
    requires TxSystem.IsRun(c, run, events) && n < |run|
    requires ChunkEnds(f, ends, i, off, src) && Writes(c, run, events, p, decode, f, ends, i)
    requires SameFile(f, decode(TxSystem.Durable(c, run[0])), i)
    ensures Whole(f, decode(TxSystem.Durable(c, run[n])), i, off, src)
    ensures p !in run[n].ops ==> Whole(f, decode(TxSystem.View(c, run[n]).current), i, off, src)
  {
    hide Whole, SameFile, ChunkEnds;
    hide TxSystem.View, TxSystem.Durable, TxSystem.Step, TxSystem.Init;
    var q := contents => Whole(f, decode(contents), i, off, src);
    EndIsWhole(f, ends, decode(TxSystem.Durable(c, run[0])), i, off, src);
    forall m | 0 <= m < |events| && !events[m].Crash? && p !in run[m + 1].ops &&
               (p !in run[m].ops ==> q(TxSystem.View(c, run[m]).current))
      ensures q(TxSystem.View(c, run[m + 1]).current)
    {
      var g := decode(TxSystem.View(c, run[m + 1]).current);
      if p in run[m].ops {
        EndIsWhole(f, ends, g, i, off, src);
      } else {
        StaysWhole(f, decode(TxSystem.View(c, run[m]).current), g, i, off, src);
      }
    }
    TxSystem.OperationsKeep(c, run, events, p, q, n);
  }
}
