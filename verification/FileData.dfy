/** ext2_ops.c: byte-range reads and writes through the block map. */
module FileData {
  import opened Words
  import opened Bytes
  import opened Arith
  import opened BlockTree
  import opened Layout
  import opened Metadata
  import opened Volume
  import opened FsState
  import opened BlockMap
  import opened InodeTable

  /** How far position pos is ahead of offset, walking forwards modulo 2^32. */
  function Ahead(offset: nat, pos: nat): (d: nat)
    requires offset < U32 && pos < U32
    ensures d < U32 && Add32(offset, d) == pos
  {
    if pos >= offset then pos - offset else pos + U32 - offset
  }

  function Resolve(v: View, i: nat, l: nat): nat
  {
    Ptr(v, DataSlot(Ptrs(v), i, l))
  }

  /** The byte of file i at position pos, whatever its size says; holes read as zero. */
  function RawByte(v: View, i: nat, pos: nat): Byte
  {
    var b := At(v.disk, Resolve(v, i, Quot(pos, v.bs)));
    if Resolve(v, i, Quot(pos, v.bs)) != 0 && Rem(pos, v.bs) < |b| then b[Rem(pos, v.bs)] else 0
  }

  /** Every 32-bit position falls inside the block map. */
  lemma PosInMap(bs: nat, pos: nat)
    requires bs in {1024, 2048, 4096} && pos < U32
    ensures Quot(pos, bs) < MapEnd(bs / 4)
  {
    hide Quot, MapEnd, Times;
    if bs == 1024 {
      TimesIs(4194304, 1024);
      QuotBelow(pos, 1024, 4194304);
    } else if bs == 2048 {
      TimesIs(2097152, 2048);
      QuotBelow(pos, 2048, 2097152);
    } else {
      TimesIs(1048576, 4096);
      QuotBelow(pos, 4096, 1048576);
    }
    MapEnds();
  }

  /** The maps reach past 2^32 bytes. */
  lemma MapEnds()
    ensures MapEnd(256) > 4194304 && MapEnd(512) > 2097152 && MapEnd(1024) > 1048576
  {
    TimesIs(256, 256);
    TimesIs(256, 65536);
    TimesIs(512, 512);
    TimesIs(1024, 1024);
  }

  /** Walking d bytes on from pos without leaving its block. */
  lemma SameBlock(bs: nat, pos: nat, d: nat)
    requires bs > 0 && Rem(pos, bs) + d < bs
    ensures Quot(pos + d, bs) == Quot(pos, bs) && Rem(pos + d, bs) == Rem(pos, bs) + d
  {
    QuotRem(pos, bs);
    QuotUnique(Quot(pos, bs), bs, Rem(pos, bs) + d);
  }

  /** A block that starts below 2^32 also ends there. */
  lemma BlockEnd(bs: nat, pos: nat)
    requires bs in {1024, 2048, 4096} && pos < U32
    ensures pos + (bs - Rem(pos, bs)) <= U32
  {
    QuotRem(pos, bs);
    var q := Quot(pos, bs);
    TimesIs(q, bs);
    assert pos - Rem(pos, bs) == q * bs;
  }

  /** What reading needs of the volume. */
  ghost predicate Readable(vol: Vol, inode: Inode)
    reads vol, inode
  {
    && SizesOK(vol.g) && DiskOK(vol.g, vol.disk) && Owns(V(vol.g, Snap(vol)), vol.owner)
    && inode.ino in vol.raws && vol.raws[inode.ino] == inode.raw && |inode.raw| == 128
  }

  /** One turn of the read loop: `chunk` bytes from pos on, inside one block. */
  method ReadPart(vol: Vol, inode: Inode, pos: nat, chunk: nat) returns (part: Buf)
    requires Readable(vol, inode) && pos < U32 && Rem(pos, vol.g.bs) + chunk <= vol.g.bs
    ensures |part| == chunk
    ensures forall d :: 0 <= d < chunk ==> part[d] == RawByte(V(vol.g, Snap(vol)), inode.ino, pos + d)
  {
    ghost var v := V(vol.g, Snap(vol));
    var blk := Quot(pos, vol.g.bs);
    var boff := Rem(pos, vol.g.bs);
    PosInMap(vol.g.bs, pos);
    var phys := ResolveBlockNum(vol, inode.raw, blk, inode.ino);
    part := Zeros(chunk);
    if phys != 0 {
      DataSlotIs(v, inode.ino, blk);
      part := vol.disk[phys][boff..boff + chunk];
    }
    forall d | 0 <= d < chunk ensures part[d] == RawByte(v, inode.ino, pos + d) {
      SameBlock(v.bs, pos, d);
    }
  }

  /** buf is what reading count bytes at offset of file i, of that size, comes to. */
  ghost predicate ReadOut(v: View, i: nat, size: nat, offset: nat, count: nat, buf: Buf)
  {
    && offset < U32 && count < U32 && |buf| < U32
    && (offset >= size ==> buf == [])
    && (offset < size ==> |buf| == if Add32(offset, count) > size then size - offset else count)
    && forall k :: 0 <= k < |buf| ==> buf[k] == RawByte(v, i, Add32(offset, k))
  }

  /** ext2_read: the byte at every position it covers, with the size clamp as coded in 32 bits. */
  method Read(vol: Vol, inode: Inode, count: nat, offset: nat) returns (buf: Buf)
    requires Readable(vol, inode) && inode.size < U32 && count < U32 && offset < U32
    ensures ReadOut(V(vol.g, Snap(vol)), inode.ino, inode.size, offset, count, buf)
  {
    if offset >= inode.size { return []; }
    var n := if Add32(offset, count) > inode.size then inode.size - offset else count;
    var bs := vol.g.bs;
    buf := [];
    while |buf| < n
      invariant |buf| <= n
      invariant forall k :: 0 <= k < |buf| ==> buf[k] == RawByte(V(vol.g, Snap(vol)), inode.ino, Add32(offset, k))
    {
      var pos := Add32(offset, |buf|);
      var chunk := bs - Rem(pos, bs);
      if chunk > n - |buf| { chunk := n - |buf|; }
      BlockEnd(bs, pos);
      var part := ReadPart(vol, inode, pos, chunk);
      forall k | |buf| <= k < |buf| + chunk
        ensures (buf + part)[k] == RawByte(V(vol.g, Snap(vol)), inode.ino, Add32(offset, k))
      {
        assert Add32(offset, k) == pos + (k - |buf|);
      }
      buf := buf + part;
    }
  }

  // ----- what one block write does to the bytes of all files -----

  lemma BytesAfterWrite(g: Geom, s: Fs, s': Fs, ino: nat, l: nat, phys: nat, blk: Block, i: nat, pos: nat)
    requires SizesOK(g) && DiskOK(g, s.m.disk) && Owns(V(g, s), s.owner) && pos < U32 && i in s.raws
    requires phys in s.owner && s.owner[phys] == DataSlot(g.bs / 4, ino, l)
    requires |blk| == g.bs && s' == s.(m := s.m.(disk := s.m.disk[phys := blk]))
    requires PtrsSame(g, s, s')
    ensures RawByte(V(g, s'), i, pos) ==
      if i == ino && Quot(pos, g.bs) == l then blk[Rem(pos, g.bs)] else RawByte(V(g, s), i, pos)
  {
    PosInMap(g.bs, pos);
    var u := DataSlot(g.bs / 4, i, Quot(pos, g.bs));
    DataSlotIs(V(g, s), i, Quot(pos, g.bs));
    if Ptr(V(g, s), u) == phys {
      DataSlotInjective(g.bs / 4, i, Quot(pos, g.bs), ino, l);
    }
  }

  lemma BytesAfterAssign(g: Geom, s: Fs, s': Fs, ino: nat, l: nat, x: nat, i: nat, pos: nat)
    requires FsOK(g, s) && pos < U32 && i in s.raws && (i != ino || Quot(pos, g.bs) != l)
    requires Assigned(g, s, s', ino, DataSlot(g.bs / 4, ino, l), x)
    ensures RawByte(V(g, s'), i, pos) == RawByte(V(g, s), i, pos)
  {
    hide OwnersAssigned, DataSlot, Quot, Rem;
    PosInMap(g.bs, pos);
    var u := DataSlot(g.bs / 4, i, Quot(pos, g.bs));
    DataSlotIs(V(g, s), i, Quot(pos, g.bs));
    if u == DataSlot(g.bs / 4, ino, l) {
      DataSlotInjective(g.bs / 4, i, Quot(pos, g.bs), ino, l);
    }
    DataBlockKept(g, s, s', u);
  }

  lemma BytesAfterGrew(g: Geom, s: Fs, s': Fs, ino: nat, i: nat, pos: nat)
    requires FsOK(g, s) && pos < U32 && i in s.raws && Grew(g, s, s', ino)
    ensures RawByte(V(g, s'), i, pos) == RawByte(V(g, s), i, pos)
  {
    hide OwnersGrew, DataSlot, Quot, Rem;
    PosInMap(g.bs, pos);
    var u := DataSlot(g.bs / 4, i, Quot(pos, g.bs));
    DataSlotIs(V(g, s), i, Quot(pos, g.bs));
    DataBlockKept(g, s, s', u);
  }

  lemma DataBlockKept(g: Geom, s: Fs, s': Fs, u: Slot)
    requires SizesOK(g) && OwnedOK(g, s) && Owns(V(g, s), s.owner) && BlocksKept(g, s, s')
    requires IsSlot(V(g, s), u) && Level(u) == 0
    ensures Ptr(V(g, s), u) != 0 ==> At(s'.m.disk, Ptr(V(g, s), u)) == At(s.m.disk, Ptr(V(g, s), u))
  {
    var b := Ptr(V(g, s), u);
    if b != 0 { assert Untouched(g, s, b); }
  }

  // ----- the write loop -----

  /** From s0 to s the first n bytes of buf were laid over file ino from offset on, and no
      other byte of any file changed. */
  ghost predicate Wrote(g: Geom, s0: Fs, s: Fs, ino: nat, buf: Buf, offset: nat, n: nat)
  {
    && offset < U32 && n <= |buf| < U32
    && forall i, pos: nat :: i in s0.raws && pos < U32 ==>
         RawByte(V(g, s), i, pos) ==
           if i == ino && Ahead(offset, pos) < n then buf[Ahead(offset, pos)] else RawByte(V(g, s0), i, pos)
  }

  /** Block l of file ino now holds blk: the old bytes with the next chunk laid over them. */
  ghost predicate Laid(g: Geom, s: Fs, s': Fs, ino: nat, pos: nat, chunk: Buf)
  {
    forall i, q: nat :: i in s.raws && q < U32 ==>
      RawByte(V(g, s'), i, q) ==
        if i == ino && pos <= q < pos + |chunk| then chunk[q - pos] else RawByte(V(g, s), i, q)
  }

  lemma WroteMore(g: Geom, s0: Fs, s: Fs, s': Fs, ino: nat, buf: Buf, offset: nat, n: nat, k: nat)
    requires SizesOK(g) && Wrote(g, s0, s, ino, buf, offset, n) && n + k <= |buf|
    requires Add32(offset, n) + k <= U32 && s.raws.Keys == s0.raws.Keys
    requires Laid(g, s, s', ino, Add32(offset, n), buf[n..n+k])
    ensures Wrote(g, s0, s', ino, buf, offset, n + k)
  {
    var p := Add32(offset, n);
    forall i, pos: nat | i in s0.raws && pos < U32
      ensures RawByte(V(g, s'), i, pos) ==
        if i == ino && Ahead(offset, pos) < n + k then buf[Ahead(offset, pos)] else RawByte(V(g, s0), i, pos)
    {
      var d := Ahead(offset, pos);
      assert p <= pos < p + k <==> n <= d < n + k;
      if p <= pos < p + k { assert d == n + (pos - p); }
    }
  }

  function IBlocks(raw: RawInode): (n: nat)
    ensures n < U32
  { if |raw| == 128 then Get32(raw, I_BLOCKS) else 0 }

  /** The blocks that hold file data rather than pointers. */
  ghost function DataBlocks(owner: map<nat, Slot>): set<nat>
  {
    set b | b in owner && Level(owner[b]) == 0
  }

  /** i_blocks after k additions of one block's worth of 512-byte units. */
  function BlocksAfter(x: nat, unit: nat, k: nat): (r: nat)
    requires x < U32 && unit < U32
    ensures r < U32
  {
    if k == 0 then x else Add32(BlocksAfter(x, unit, k - 1), unit)
  }

  /** i_blocks grew by one block's worth per data block gained; indirect blocks are not counted. */
  ghost predicate CountsData(g: Geom, s: Fs, s': Fs, ino: nat)
  {
    && g.bs <= 4096 && ino in s.raws && ino in s'.raws && IBlocks(s.raws[ino]) < U32
    && |DataBlocks(s'.owner)| >= |DataBlocks(s.owner)|
    && IBlocks(s'.raws[ino]) ==
         BlocksAfter(IBlocks(s.raws[ino]), g.bs / 512, |DataBlocks(s'.owner)| - |DataBlocks(s.owner)|)
  }

  lemma {:induction false} BlocksAfterAdd(x: nat, unit: nat, j: nat, k: nat)
    requires x < U32 && unit < U32
    ensures BlocksAfter(BlocksAfter(x, unit, j), unit, k) == BlocksAfter(x, unit, j + k)
  {
    if k > 0 { BlocksAfterAdd(x, unit, j, k - 1); }
  }

  lemma CountsDataTrans(g: Geom, s: Fs, s1: Fs, s2: Fs, ino: nat)
    requires g.bs <= 4096 && CountsData(g, s, s1, ino) && CountsData(g, s1, s2, ino)
    ensures CountsData(g, s, s2, ino)
  {
    BlocksAfterAdd(IBlocks(s.raws[ino]), g.bs / 512, |DataBlocks(s1.owner)| - |DataBlocks(s.owner)|,
                   |DataBlocks(s2.owner)| - |DataBlocks(s1.owner)|);
  }

  lemma IBlocksKept(a: RawInode, b: RawInode)
    requires SameHeader(a, b)
    ensures IBlocks(b) == IBlocks(a) < U32
  {
    assert forall k :: 28 <= k < 32 ==> b[k] == a[k];
  }

  /** Owner, group, times, flags, and what is behind the block pointers: every byte of a record but
      those of i_mode, i_size, i_links_count, i_blocks and i_block[]. */
  predicate IsRest(k: int) { 2 <= k < 4 || 8 <= k < 26 || 32 <= k < 40 || 100 <= k < 128 }

  ghost predicate SameRest(raw: RawInode, raw': RawInode)
  {
    |raw'| == |raw| && forall k :: IsRest(k) && k < |raw| ==> raw'[k] == raw[k]
  }

  lemma RestKept(raws: map<nat, RawInode>, raws': map<nat, RawInode>, ino: nat)
    requires RawsWrote(raws, raws', ino)
    ensures SameRest(raws[ino], raws'[ino])
  {
  }

  lemma SameRestTrans(a: RawInode, b: RawInode, c: RawInode)
    requires SameRest(a, b) && SameRest(b, c)
    ensures SameRest(a, c)
  {
  }

  /** Only the record of ino changed, and there only i_blocks and the block pointers. */
  ghost predicate RawsWrote(raws: map<nat, RawInode>, raws': map<nat, RawInode>, ino: nat)
  {
    && raws'.Keys == raws.Keys && ino in raws
    && (forall i :: i in raws && i != ino ==> raws'[i] == raws[i])
    && |raws[ino]| == |raws'[ino]| == 128
    && forall k :: 0 <= k < 128 && !(28 <= k < 32) && !(40 <= k < 100) ==> raws'[ino][k] == raws[ino][k]
  }

  /** What a write to ino may do to the volume besides the bytes it lays down: no file loses
      a block, and the free count drops by exactly the blocks gained. */
  ghost predicate FileStep(g: Geom, s: Fs, s': Fs, ino: nat)
  {
    && RawsWrote(s.raws, s'.raws, ino)
    && (forall b :: b in s.owner ==> b in s'.owner && s'.owner[b] == s.owner[b])
    && (forall b :: b in s'.owner && b !in s.owner ==> Ino(s'.owner[b]) == ino)
    && Used(g, s.m.disk) <= Used(g, s'.m.disk)
    && UsedInodes(g, s'.m.disk) == UsedInodes(g, s.m.disk)
    && FreeInodesOf(s'.m) == FreeInodesOf(s.m) && DirCounts(s'.m) == DirCounts(s.m)
    && FreeBlocksOf(s'.m) + |s'.owner| == FreeBlocksOf(s.m) + |s.owner|
    && TablesSame(g, s.m.disk, s'.m.disk)
  }

  lemma FileStepTrans(g: Geom, s: Fs, s1: Fs, s2: Fs, ino: nat)
    requires FileStep(g, s, s1, ino) && FileStep(g, s1, s2, ino)
    ensures FileStep(g, s, s2, ino)
  {
  }

  lemma TookStep(g: Geom, s: Fs, s1: Fs, b: nat)
    requires FsOK(g, s) && MetaOK(g, s1.m) && TookBlock(g, s.m, s1.m, b) && s1 == s.(m := s1.m)
    ensures FsOK(g, s1) && b !in s1.owner && b in Used(g, s1.m.disk)
    ensures PtrsSame(g, s, s1)
    ensures forall i, pos: nat :: i in s.raws && pos < U32 ==> RawByte(V(g, s1), i, pos) == RawByte(V(g, s), i, pos)
  {
    FsTook(g, s, s1, b);
    forall i, pos: nat | i in s.raws && pos < U32 ensures RawByte(V(g, s1), i, pos) == RawByte(V(g, s), i, pos) {
      MetaStepByte(g, s, s1, i, pos);
    }
  }

  /** Allocator traffic changes no byte of any file. */
  lemma MetaStepByte(g: Geom, s: Fs, s1: Fs, i: nat, pos: nat)
    requires SizesOK(g) && DiskOK(g, s.m.disk) && DiskOK(g, s1.m.disk)
    requires OwnedOK(g, s) && Owns(V(g, s), s.owner) && i in s.raws && pos < U32
    requires forall x :: 0 <= x < g.blocks && g.role[x] == Data ==> s1.m.disk[x] == s.m.disk[x]
    requires PtrsSame(g, s, s1)
    ensures RawByte(V(g, s1), i, pos) == RawByte(V(g, s), i, pos)
  {
    PosInMap(g.bs, pos);
    DataSlotIs(V(g, s), i, Quot(pos, g.bs));
  }

  lemma GaveStep(g: Geom, s: Fs, s1: Fs, b: nat)
    requires FsOK(g, s) && MetaOK(g, s1.m) && GaveBlock(g, s.m, s1.m, b) && s1 == s.(m := s1.m) && b !in s.owner
    ensures FsOK(g, s1)
    ensures PtrsSame(g, s, s1)
    ensures forall i, pos: nat :: i in s.raws && pos < U32 ==> RawByte(V(g, s1), i, pos) == RawByte(V(g, s), i, pos)
  {
    FsGave(g, s, s1, b);
    forall i, pos: nat | i in s.raws && pos < U32 ensures RawByte(V(g, s1), i, pos) == RawByte(V(g, s), i, pos) {
      MetaStepByte(g, s, s1, i, pos);
    }
  }

  /** A chunk that stays in one block, seen from inside the block. */
  lemma InChunk(bs: nat, pos: nat, q: nat, n: nat)
    requires bs > 0 && Rem(pos, bs) + n <= bs
    ensures pos <= q < pos + n <==> Quot(q, bs) == Quot(pos, bs) && Rem(pos, bs) <= Rem(q, bs) < Rem(pos, bs) + n
    ensures pos <= q < pos + n ==> q - pos == Rem(q, bs) - Rem(pos, bs)
  {
    QuotRem(q, bs);
    QuotRem(pos, bs);
    if pos <= q < pos + n {
      SameBlock(bs, pos, q - pos);
    }
  }

  /** Byte q of file i when block Quot(pos, bs) of ino became blk. */
  ghost function ByteIfBlock(g: Geom, s: Fs, ino: nat, pos: nat, blk: Buf, i: nat, q: nat): Byte
    requires SizesOK(g) && |blk| == g.bs
  {
    if i == ino && Quot(q, g.bs) == Quot(pos, g.bs) then blk[Rem(q, g.bs)] else RawByte(V(g, s), i, q)
  }

  lemma LaidAt(g: Geom, s: Fs, ino: nat, pos: nat, base: Buf, chunk: Buf, i: nat, q: nat)
    requires SizesOK(g) && Rem(pos, g.bs) + |chunk| <= g.bs == |base|
    requires |chunk| == g.bs || (Quot(q, g.bs) == Quot(pos, g.bs) ==> base[Rem(q, g.bs)] == RawByte(V(g, s), ino, q))
    ensures ByteIfBlock(g, s, ino, pos, Splice(base, Rem(pos, g.bs), chunk), i, q) ==
      if i == ino && pos <= q < pos + |chunk| then chunk[q - pos] else RawByte(V(g, s), i, q)
  {
    hide RawByte, Quot, Rem;
    InChunk(g.bs, pos, q, |chunk|);
  }

  lemma LaidBy(g: Geom, s: Fs, s': Fs, ino: nat, pos: nat, base: Buf, chunk: Buf)
    requires SizesOK(g) && Rem(pos, g.bs) + |chunk| <= g.bs == |base|
    requires forall i, q: nat :: i in s.raws && q < U32 ==>
      RawByte(V(g, s'), i, q) == ByteIfBlock(g, s, ino, pos, Splice(base, Rem(pos, g.bs), chunk), i, q)
    requires |chunk| == g.bs || forall q: nat :: q < U32 && Quot(q, g.bs) == Quot(pos, g.bs) ==>
      base[Rem(q, g.bs)] == RawByte(V(g, s), ino, q)
    ensures Laid(g, s, s', ino, pos, chunk)
  {
    forall i, q: nat | i in s.raws && q < U32
      ensures RawByte(V(g, s'), i, q) ==
        if i == ino && pos <= q < pos + |chunk| then chunk[q - pos] else RawByte(V(g, s), i, q)
    {
      LaidAt(g, s, ino, pos, base, chunk, i, q);
    }
  }

  /** Rewriting one data block. */
  lemma DataMetaSame(g: Geom, s: Fs, x: nat, blk: Buf)
    requires GeomOK(g) && DiskOK(g, s.m.disk) && OwnedOK(g, s) && x in s.owner && Level(s.owner[x]) == 0
    requires |blk| == g.bs
    ensures x < g.blocks && MetaSame(g, s.m.disk, s.m.disk[x := blk])
    ensures TablesSame(g, s.m.disk, s.m.disk[x := blk])
    ensures forall b: nat :: Inner(s.owner, b) && b < g.blocks ==> s.m.disk[x := blk][b] == s.m.disk[b]
  {
  }

  lemma DataStep(g: Geom, s: Fs, s': Fs, ino: nat, x: nat, blk: Buf)
    requires GeomOK(g) && DiskOK(g, s.m.disk) && OwnedOK(g, s) && x in s.owner && Level(s.owner[x]) == 0
    requires |blk| == g.bs
    requires ino in s.raws && |s.raws[ino]| == 128
    requires x < g.blocks && s' == s.(m := s.m.(disk := s.m.disk[x := blk]))
    ensures FileStep(g, s, s', ino)
  {
    DataMetaSame(g, s, x, blk);
    UsedSame(g, s.m.disk, s'.m.disk);
  }

  lemma DataWritten(g: Geom, s: Fs, s': Fs, x: nat, blk: Buf)
    requires FsOK(g, s) && x in s.owner && Level(s.owner[x]) == 0 && |blk| == g.bs
    requires x < g.blocks && s' == s.(m := s.m.(disk := s.m.disk[x := blk]))
    ensures FsOK(g, s')
    ensures PtrsSame(g, s, s')
  {
    DataMetaSame(g, s, x, blk);
    FsWrote(g, s, s');
  }

  /** The write loop on a block the file already has. */
  method WriteOver(vol: Vol, inode: Inode, pos: nat, chunk: Buf, phys: nat, stale: Buf)
    requires FsOK(vol.g, Snap(vol)) && inode.ino in vol.raws && vol.raws[inode.ino] == inode.raw
    requires pos < U32 && Rem(pos, vol.g.bs) + |chunk| <= vol.g.bs == |stale|
    requires phys != 0 && phys == Resolve(V(vol.g, Snap(vol)), inode.ino, Quot(pos, vol.g.bs))
    modifies vol`disk
    ensures FsOK(vol.g, Snap(vol)) && PartDone(vol.g, old(Snap(vol)), Snap(vol), inode.ino, pos, chunk, true)
  {
    hide OwnedOK, Used, UsedInodes;
    ghost var s := Snap(vol);
    var boff := Rem(pos, vol.g.bs);
    PosInMap(vol.g.bs, pos);
    DataSlotIs(V(vol.g, s), inode.ino, Quot(pos, vol.g.bs));
    var base := stale;
    if boff != 0 || |chunk| != vol.g.bs {
      base := vol.disk[phys];
    }
    var blockBuf := Splice(base, boff, chunk);
    vol.disk := vol.disk[phys := blockBuf];
    OverWritten(vol.g, s, Snap(vol), inode.ino, pos, phys, base, chunk);
  }

  lemma OverStep(g: Geom, s: Fs, s': Fs, ino: nat, phys: nat, blk: Buf)
    requires FsOK(g, s) && ino in s.raws && phys in s.owner && Level(s.owner[phys]) == 0 && |blk| == g.bs
    requires phys < |s.m.disk| && s' == s.(m := s.m.(disk := s.m.disk[phys := blk]))
    ensures FsOK(g, s') && FileStep(g, s, s', ino) && PtrsSame(g, s, s') && MetaSame(g, s.m.disk, s'.m.disk)
  {
    hide FsOK, FileStep, PtrsSame, MetaSame, Used;
    Shape(g, s);
    OwnedHalf(g, s, ino);
    DataMetaSame(g, s, phys, blk);
    DataWritten(g, s, s', phys, blk);
    DataStep(g, s, s', ino, phys, blk);
  }

  lemma OwnedHalf(g: Geom, s: Fs, ino: nat)
    requires FsOK(g, s) && ino in s.raws
    ensures OwnedOK(g, s) && |s.raws[ino]| == 128
  {
  }

  lemma OverWritten(g: Geom, s: Fs, s': Fs, ino: nat, pos: nat, phys: nat, base: Buf, chunk: Buf)
    requires FsOK(g, s) && ino in s.raws && pos < U32 && Rem(pos, g.bs) + |chunk| <= g.bs == |base|
    requires phys in s.owner && s.owner[phys] == DataSlot(g.bs / 4, ino, Quot(pos, g.bs)) && Level(s.owner[phys]) == 0
    requires |chunk| == g.bs || base == s.m.disk[phys]
    requires s' == s.(m := s.m.(disk := s.m.disk[phys := Splice(base, Rem(pos, g.bs), chunk)]))
    ensures FsOK(g, s') && PartDone(g, s, s', ino, pos, chunk, true)
  {
    hide MetaOK, OwnedOK, Used, UsedInodes, RawByte, Quot, Rem, Level, DataSlot;
    Shape(g, s);
    var blk := Splice(base, Rem(pos, g.bs), chunk);
    OverStep(g, s, s', ino, phys, blk);
    forall i, q: nat | i in s.raws && q < U32
      ensures RawByte(V(g, s'), i, q) == ByteIfBlock(g, s, ino, pos, blk, i, q)
    {
      BytesAfterWrite(g, s, s', ino, Quot(pos, g.bs), phys, blk, i, q);
    }
    forall q: nat | q < U32 && Quot(q, g.bs) == Quot(pos, g.bs) && |chunk| != g.bs
      ensures base[Rem(q, g.bs)] == RawByte(V(g, s), ino, q)
    {
      MappedByte(g, s, ino, phys, q);
    }
    LaidBy(g, s, s', ino, pos, base, chunk);
    HeldResolve(g, s', ino, Quot(pos, g.bs), phys);
  }

  /** A block under a data slot is where that block of the file is. */
  lemma HeldResolve(g: Geom, s: Fs, ino: nat, l: nat, x: nat)
    requires FsOK(g, s) && x in s.owner && s.owner[x] == DataSlot(g.bs / 4, ino, l)
    ensures Resolve(V(g, s), ino, l) == x != 0
  {
    hide MetaOK, Used, DataSlot;
  }

  lemma MappedByte(g: Geom, s: Fs, ino: nat, phys: nat, q: nat)
    requires SizesOK(g) && DiskOK(g, s.m.disk) && Owns(V(g, s), s.owner) && phys in s.owner
    requires s.owner[phys] == DataSlot(g.bs / 4, ino, Quot(q, g.bs))
    ensures phys < |s.m.disk| && s.m.disk[phys][Rem(q, g.bs)] == RawByte(V(g, s), ino, q)
  {
  }

  // ----- the write loop on a hole -----

  lemma HoleByte(g: Geom, s: Fs, ino: nat, pos: nat, q: nat)
    requires SizesOK(g) && Resolve(V(g, s), ino, Quot(pos, g.bs)) == 0 && Quot(q, g.bs) == Quot(pos, g.bs)
    ensures RawByte(V(g, s), ino, q) == 0
  {
  }

  lemma HeaderByte(g: Geom, s: Fs, s': Fs, i: nat, q: nat)
    requires SizesOK(g) && s'.m == s.m && i in s.raws && q < U32
    requires PtrsSame(g, s, s')
    ensures RawByte(V(g, s'), i, q) == RawByte(V(g, s), i, q)
  {
    PosInMap(g.bs, q);
    DataSlotIs(V(g, s), i, Quot(q, g.bs));
  }

  /** From s to s' no byte of any file changed. */
  ghost predicate SameBytes(g: Geom, s: Fs, s': Fs)
  {
    forall i, q: nat :: i in s.raws && q < U32 ==> RawByte(V(g, s'), i, q) == RawByte(V(g, s), i, q)
  }

  lemma GrewBytes(g: Geom, s: Fs, s': Fs, ino: nat)
    requires FsOK(g, s) && Grew(g, s, s', ino)
    ensures SameBytes(g, s, s')
  {
    forall i, q: nat | i in s.raws && q < U32 ensures RawByte(V(g, s'), i, q) == RawByte(V(g, s), i, q) {
      BytesAfterGrew(g, s, s', ino, i, q);
    }
  }

  /** i_blocks += bs / 512, in the record and in the VFS inode. */
  method CountBlock(vol: Vol, inode: Inode)
    requires FsOK(vol.g, Snap(vol)) && inode.ino in vol.raws && vol.raws[inode.ino] == inode.raw
    modifies vol`raws, inode`raw, inode`blocks
    ensures FsOK(vol.g, Snap(vol)) && inode.ino in vol.raws && vol.raws[inode.ino] == inode.raw
    ensures vol.raws == old(vol.raws)[inode.ino := inode.raw] && RawsWrote(old(vol.raws), vol.raws, inode.ino)
    ensures inode.blocks == IBlocks(inode.raw) == Add32(IBlocks(old(inode.raw)), vol.g.bs / 512)
    ensures PtrsSame(vol.g, old(Snap(vol)), Snap(vol))
  {
    ghost var s := Snap(vol);
    inode.raw := Put32(inode.raw, I_BLOCKS, Add32(Get32(inode.raw, I_BLOCKS), vol.g.bs / 512));
    inode.blocks := Get32(inode.raw, I_BLOCKS);
    vol.raws := vol.raws[inode.ino := inode.raw];
    HeaderFs(vol.g, s, Snap(vol), inode.ino);
  }

  // ----- a fresh block hung on a hole -----

  ghost predicate OwnersOpened(g: Geom, s: Fs, s': Fs, ino: nat, t: Slot, x: nat)
  {
    && (forall b :: b in s.owner ==> b in s'.owner && s'.owner[b] == s.owner[b])
    && (forall b :: b in s'.owner && b !in s.owner ==> Ino(s'.owner[b]) == ino)
    && x in s'.owner && s'.owner[x] == t
    && DataBlocks(s'.owner) == DataBlocks(s.owner) + {x} && x !in DataBlocks(s.owner)
    && Used(g, s.m.disk) <= Used(g, s'.m.disk)
    && UsedInodes(g, s'.m.disk) == UsedInodes(g, s.m.disk)
    && FreeInodesOf(s'.m) == FreeInodesOf(s.m) && DirCounts(s'.m) == DirCounts(s.m)
    && FreeBlocksOf(s'.m) + |s'.owner| == FreeBlocksOf(s.m) + |s.owner|
    && TablesSame(g, s.m.disk, s'.m.disk)
  }

  /** From s to s' a block x was taken and hung on block l of ino; its bytes are not set yet. */
  ghost predicate Opened(g: Geom, s: Fs, s': Fs, ino: nat, l: nat, x: nat)
  {
    && RawsGrew(s.raws, s'.raws, ino)
    && OwnersOpened(g, s, s', ino, DataSlot(g.bs / 4, ino, l), x)
    && MapsKept(g, s, s', ino, l)
    && (forall i, q: nat :: i in s.raws && q < U32 && (i != ino || Quot(q, g.bs) != l) ==>
          RawByte(V(g, s'), i, q) == RawByte(V(g, s), i, q))
  }

  lemma OpenedOwners(g: Geom, s0: Fs, s1: Fs, s2: Fs, ino: nat, t: Slot, x: nat)
    requires GeomOK(g) && TookBlock(g, s0.m, s1.m, x) && s1 == s0.(m := s1.m) && x !in s0.owner
    requires Assigned(g, s1, s2, ino, t, x) && Ino(t) == ino && Level(t) == 0
    ensures OwnersOpened(g, s0, s2, ino, t, x)
  {
    forall b: nat | b < |g.role| && g.role[b].InodeTable? ensures At(s2.m.disk, b) == At(s0.m.disk, b) {
      assert Untouched(g, s1, b);
    }
  }

  lemma OpenedBy(g: Geom, s0: Fs, s1: Fs, s2: Fs, ino: nat, l: nat, x: nat)
    requires FsOK(g, s0) && MetaOK(g, s1.m) && TookBlock(g, s0.m, s1.m, x) && s1 == s0.(m := s1.m)
    requires ino in s0.raws && l < MaxAssign(g.bs / 4)
    requires Assigned(g, s1, s2, ino, DataSlot(g.bs / 4, ino, l), x)
    ensures Opened(g, s0, s2, ino, l, x)
  {
    TookStep(g, s0, s1, x);
    DataSlotIs(V(g, s0), ino, l);
    assert OwnersOpened(g, s0, s2, ino, DataSlot(g.bs / 4, ino, l), x) by {
      OpenedOwners(g, s0, s1, s2, ino, DataSlot(g.bs / 4, ino, l), x);
    }
    assert MapsKept(g, s0, s2, ino, l) by { OpenedMaps(g, s0, s1, s2, ino, l, x); }
    forall i, q: nat | i in s0.raws && q < U32 && (i != ino || Quot(q, g.bs) != l)
      ensures RawByte(V(g, s2), i, q) == RawByte(V(g, s0), i, q)
    {
      BytesAfterAssign(g, s1, s2, ino, l, x, i, q);
    }
  }

  lemma OpenedMaps(g: Geom, s0: Fs, s1: Fs, s2: Fs, ino: nat, l: nat, x: nat)
    requires Assigned(g, s1, s2, ino, DataSlot(g.bs / 4, ino, l), x) && s1.raws == s0.raws
    requires PtrsSame(g, s0, s1)
    ensures MapsKept(g, s0, s2, ino, l)
  {
    forall u | IsSlot(V(g, s0), u) && Level(u) == 0 && u != DataSlot(g.bs / 4, ino, l)
      ensures Ptr(V(g, s2), u) == Ptr(V(g, s0), u)
    {
      IsSlotFrame(V(g, s0), V(g, s1), u);
    }
  }

  lemma FilledByte(g: Geom, s: Fs, s1: Fs, s2: Fs, ino: nat, pos: nat, x: nat, blk: Buf, i: nat, q: nat)
    requires FsOK(g, s1) && i in s.raws && q < U32 && s1.raws.Keys == s.raws.Keys
    requires i != ino || Quot(q, g.bs) != Quot(pos, g.bs) ==> RawByte(V(g, s1), i, q) == RawByte(V(g, s), i, q)
    requires x in s1.owner && s1.owner[x] == DataSlot(g.bs / 4, ino, Quot(pos, g.bs)) && |blk| == g.bs
    requires s2 == s1.(m := s1.m.(disk := s1.m.disk[x := blk]))
    requires PtrsSame(g, s1, s2)
    ensures RawByte(V(g, s2), i, q) == ByteIfBlock(g, s, ino, pos, blk, i, q)
  {
    BytesAfterWrite(g, s1, s2, ino, Quot(pos, g.bs), x, blk, i, q);
  }

  lemma FilledMaps(g: Geom, s: Fs, s1: Fs, s2: Fs, ino: nat, l: nat)
    requires MapsKept(g, s, s1, ino, l) && s1.raws.Keys == s.raws.Keys
    requires PtrsSame(g, s1, s2)
    ensures MapsKept(g, s, s2, ino, l)
  {
    forall u | IsSlot(V(g, s), u) && Level(u) == 0 && u != DataSlot(g.bs / 4, ino, l)
      ensures Ptr(V(g, s2), u) == Ptr(V(g, s), u)
    {
      IsSlotFrame(V(g, s), V(g, s1), u);
    }
  }

  lemma FilledStep(g: Geom, s: Fs, s1: Fs, s2: Fs, ino: nat, l: nat, x: nat)
    requires GeomOK(g) && OwnersOpened(g, s, s1, ino, DataSlot(g.bs / 4, ino, l), x) && RawsWrote(s.raws, s2.raws, ino)
    requires s2.owner == s1.owner && s2.m == s1.m.(disk := s2.m.disk) && MetaSame(g, s1.m.disk, s2.m.disk)
    requires TablesSame(g, s1.m.disk, s2.m.disk)
    ensures FileStep(g, s, s2, ino)
  {
    UsedSame(g, s1.m.disk, s2.m.disk);
  }

  lemma FilledCounts(g: Geom, s: Fs, s1: Fs, s2: Fs, ino: nat, t: Slot, x: nat)
    requires g.bs <= 4096 && OwnersOpened(g, s, s1, ino, t, x) && s2.owner == s1.owner
    requires ino in s.raws && ino in s2.raws && IBlocks(s.raws[ino]) < U32
    requires IBlocks(s2.raws[ino]) == Add32(IBlocks(s.raws[ino]), g.bs / 512)
    ensures CountsData(g, s, s2, ino)
  {
    hide OwnersOpened, DataBlocks, IBlocks;
    OneDataMore(g, s, s1, ino, t, x);
    assert BlocksAfter(IBlocks(s.raws[ino]), g.bs / 512, 0) == IBlocks(s.raws[ino]);
  }

  lemma OneDataMore(g: Geom, s: Fs, s1: Fs, ino: nat, t: Slot, x: nat)
    requires OwnersOpened(g, s, s1, ino, t, x)
    ensures |DataBlocks(s1.owner)| == |DataBlocks(s.owner)| + 1
  {
    hide Used;
    assert DataBlocks(s1.owner) == DataBlocks(s.owner) + {x};
  }

  /** Storing the first bytes of the fresh block completes the write of the chunk. */
  lemma HoleFilled(g: Geom, s: Fs, s1: Fs, s2: Fs, ino: nat, pos: nat, x: nat, chunk: Buf)
    requires FsOK(g, s1) && ino in s.raws && pos < U32 && Rem(pos, g.bs) + |chunk| <= g.bs
    requires Resolve(V(g, s), ino, Quot(pos, g.bs)) == 0
    requires OwnersOpened(g, s, s1, ino, DataSlot(g.bs / 4, ino, Quot(pos, g.bs)), x)
    requires RawsWrote(s.raws, s1.raws, ino) && MapsKept(g, s, s1, ino, Quot(pos, g.bs))
    requires forall i, q: nat :: i in s.raws && q < U32 && (i != ino || Quot(q, g.bs) != Quot(pos, g.bs)) ==>
               RawByte(V(g, s1), i, q) == RawByte(V(g, s), i, q)
    requires x < |s1.m.disk|
    requires s2 == s1.(m := s1.m.(disk := s1.m.disk[x := Splice(Zeros(g.bs), Rem(pos, g.bs), chunk)]))
    ensures FsOK(g, s2) && FileStep(g, s, s2, ino) && Laid(g, s, s2, ino, pos, chunk)
    ensures MapsKept(g, s, s2, ino, Quot(pos, g.bs))
  {
    var blk := Splice(Zeros(g.bs), Rem(pos, g.bs), chunk);
    PosInMap(g.bs, pos);
    DataSlotIs(V(g, s), ino, Quot(pos, g.bs));
    DataWritten(g, s1, s2, x, blk);
    assert FileStep(g, s, s2, ino) by {
      DataMetaSame(g, s1, x, blk);
      FilledStep(g, s, s1, s2, ino, Quot(pos, g.bs), x);
    }
    assert MapsKept(g, s, s2, ino, Quot(pos, g.bs)) by { FilledMaps(g, s, s1, s2, ino, Quot(pos, g.bs)); }
    assert Laid(g, s, s2, ino, pos, chunk) by {
      forall i, q: nat | i in s.raws && q < U32
        ensures RawByte(V(g, s2), i, q) == ByteIfBlock(g, s, ino, pos, blk, i, q)
      {
        FilledByte(g, s, s1, s2, ino, pos, x, blk, i, q);
      }
      FilledLaid(g, s, s2, ino, pos, chunk);
    }
  }

  lemma FilledLaid(g: Geom, s: Fs, s': Fs, ino: nat, pos: nat, chunk: Buf)
    requires SizesOK(g) && Rem(pos, g.bs) + |chunk| <= g.bs && Resolve(V(g, s), ino, Quot(pos, g.bs)) == 0
    requires forall i, q: nat :: i in s.raws && q < U32 ==>
      RawByte(V(g, s'), i, q) == ByteIfBlock(g, s, ino, pos, Splice(Zeros(g.bs), Rem(pos, g.bs), chunk), i, q)
    ensures Laid(g, s, s', ino, pos, chunk)
  {
    var base := Zeros(g.bs);
    forall q: nat | q < U32 && Quot(q, g.bs) == Quot(pos, g.bs) ensures base[Rem(q, g.bs)] == RawByte(V(g, s), ino, q) {
      HoleByte(g, s, ino, pos, q);
    }
    LaidBy(g, s, s', ino, pos, base, chunk);
  }

  /** No data slot but that of block l of ino changed. */
  ghost predicate MapsKept(g: Geom, s: Fs, s': Fs, ino: nat, l: nat)
  {
    forall u {:trigger Ptr(V(g, s'), u)} :: IsSlot(V(g, s), u) && Level(u) == 0 && u != DataSlot(g.bs / 4, ino, l) ==>
      Ptr(V(g, s'), u) == Ptr(V(g, s), u)
  }

  /** No byte and no block mapping of any file but d changed. */
  ghost predicate OthersKept(g: Geom, s: Fs, s': Fs, d: nat)
  {
    && (forall i, q: nat :: i in s.raws && i != d && q < U32 ==> RawByte(V(g, s'), i, q) == RawByte(V(g, s), i, q))
    && (forall i, j: nat {:trigger Resolve(V(g, s'), i, j)} :: i in s.raws && i != d && j < MapEnd(g.bs / 4) ==>
          Resolve(V(g, s'), i, j) == Resolve(V(g, s), i, j))
  }

  lemma ResolveSame(g: Geom, s: Fs, s': Fs, i: nat, j: nat)
    requires SizesOK(g) && PtrsSame(g, s, s') && i in s.raws && j < MapEnd(g.bs / 4)
    ensures Resolve(V(g, s'), i, j) == Resolve(V(g, s), i, j)
  {
    DataSlotIs(V(g, s), i, j);
  }

  lemma ResolveKept(g: Geom, s: Fs, s': Fs, d: nat, l: nat, i: nat, j: nat)
    requires SizesOK(g) && MapsKept(g, s, s', d, l) && i in s.raws && j < MapEnd(g.bs / 4) && (i != d || j != l)
    ensures Resolve(V(g, s'), i, j) == Resolve(V(g, s), i, j)
  {
    DataSlotIs(V(g, s), i, j);
    if DataSlot(g.bs / 4, i, j) == DataSlot(g.bs / 4, d, l) {
      DataSlotInjective(g.bs / 4, i, j, d, l);
    }
  }

  /** Why a write stops short: no block but the one just given back is free, or the position
      is past double indirection. */
  ghost predicate Stuck(g: Geom, m: Meta, pos: nat)
  {
    FreeBlocksOf(m) <= 1 || Quot(pos, g.bs) >= MaxAssign(g.bs / 4)
  }

  /** One turn of the write loop on the block of pos: the chunk laid down, or, when stuck, not
      a byte changed. */
  ghost predicate PartDone(g: Geom, s: Fs, s': Fs, ino: nat, pos: nat, chunk: Buf, ok: bool)
  {
    && FileStep(g, s, s', ino) && CountsData(g, s, s', ino) && MapsKept(g, s, s', ino, Quot(pos, g.bs))
    && (ok ==> Laid(g, s, s', ino, pos, chunk) && Resolve(V(g, s'), ino, Quot(pos, g.bs)) != 0)
    && (!ok ==> SameBytes(g, s, s') && Stuck(g, s'.m, pos))
    && (!ok ==> Resolve(V(g, s'), ino, Quot(pos, g.bs)) == Resolve(V(g, s), ino, Quot(pos, g.bs)))
  }

  lemma PartOthers(g: Geom, s: Fs, s': Fs, ino: nat, pos: nat, chunk: Buf, ok: bool)
    requires SizesOK(g) && PartDone(g, s, s', ino, pos, chunk, ok)
    ensures OthersKept(g, s, s', ino)
  {
    forall i, j: nat | i in s.raws && i != ino && j < MapEnd(g.bs / 4)
      ensures Resolve(V(g, s'), i, j) == Resolve(V(g, s), i, j)
    {
      ResolveKept(g, s, s', ino, Quot(pos, g.bs), i, j);
    }
  }

  lemma OthersKeptTrans(g: Geom, s: Fs, s1: Fs, s2: Fs, ino: nat)
    requires OthersKept(g, s, s1, ino) && OthersKept(g, s1, s2, ino) && s1.raws.Keys == s.raws.Keys
    ensures OthersKept(g, s, s2, ino)
  {
  }

  /** s with nothing under block l of file ino. */
  ghost function Unhung(g: Geom, s: Fs, ino: nat, l: nat): Fs { Cleared(g, s, DataSlot(g.bs / 4, ino, l)) }

  lemma UnhungOK(g: Geom, s: Fs, ino: nat, l: nat)
    requires FsOK(g, s) && ino in s.raws && l < MapEnd(g.bs / 4)
    ensures FsOK(g, Unhung(g, s, ino, l)) && Resolve(V(g, Unhung(g, s, ino, l)), ino, l) == 0
    ensures Unhung(g, s, ino, l).raws.Keys == s.raws.Keys
    ensures Resolve(V(g, s), ino, l) == 0 ==> Unhung(g, s, ino, l) == s
  {
    Shape(g, s);
    DataSlotIs(V(g, s), ino, l);
    ClearedOK(g, s, DataSlot(g.bs / 4, ino, l));
    DataSlotIs(V(g, Unhung(g, s, ino, l)), ino, l);
  }

  /** A fresh block under the block of pos, whatever was there before: allocate, assign,
      zero-fill, copy; on failure give the data block back. */
  method WriteHole(vol: Vol, inode: Inode, pos: nat, chunk: Buf) returns (ok: bool)
    requires FsOK(vol.g, Snap(vol)) && inode.ino in vol.raws && vol.raws[inode.ino] == inode.raw
    requires pos < U32 && Rem(pos, vol.g.bs) + |chunk| <= vol.g.bs && inode.blocks == IBlocks(inode.raw)
    modifies vol, inode`raw, inode`blocks
    ensures FsOK(vol.g, Snap(vol)) && inode.ino in vol.raws && vol.raws[inode.ino] == inode.raw
    ensures inode.blocks == IBlocks(inode.raw)
    ensures ok ==> PartDone(vol.g, Unhung(vol.g, old(Snap(vol)), inode.ino, Quot(pos, vol.g.bs)), Snap(vol),
                            inode.ino, pos, chunk, true)
    ensures ok ==> var c := Unhung(vol.g, old(Snap(vol)), inode.ino, Quot(pos, vol.g.bs));
                   inode.ino in c.raws && inode.blocks == Add32(IBlocks(c.raws[inode.ino]), vol.g.bs / 512)
    ensures !ok ==> inode.blocks == old(inode.blocks)
    ensures !ok ==> PartDone(vol.g, old(Snap(vol)), Snap(vol), inode.ino, pos, chunk, false)
    ensures !ok ==>
      OneRoot(old(vol.owner), vol.owner, inode.ino, Starves(vol.g, old(Snap(vol)), inode.ino, Quot(pos, vol.g.bs)))
    ensures ok <==> Mappable(vol.g, old(Snap(vol)), inode.ino, Quot(pos, vol.g.bs), 1)
  {
    hide PartDone, OneRoot, Starves, Mappable, Opened, Unhung, FsOK;
    ghost var s := Snap(vol);
    Shape(vol.g, s);
    PosInMap(vol.g.bs, pos);
    UnhungOK(vol.g, s, inode.ino, Quot(pos, vol.g.bs));
    var phys := HangBlock(vol, inode, pos, chunk);
    ok := phys != 0;
    if ok {
      FillBlock(vol, inode, pos, chunk, phys, Unhung(vol.g, s, inode.ino, Quot(pos, vol.g.bs)));
    }
  }

  lemma NothingDone(g: Geom, s: Fs, ino: nat, pos: nat, chunk: Buf)
    requires FsOK(g, s) && ino in s.raws && Stuck(g, s.m, pos)
    ensures PartDone(g, s, s, ino, pos, chunk, false)
  {
  }

  /** From s to s' a block x was taken but could not be hung on ino; indirect blocks allocated
      on the way stay. */
  ghost predicate Loose(g: Geom, s: Fs, s': Fs, ino: nat, x: nat)
  {
    && RawsGrew(s.raws, s'.raws, ino) && SameBytes(g, s, s')
    && (forall b :: b in s.owner ==> b in s'.owner && s'.owner[b] == s.owner[b])
    && (forall b :: b in s'.owner && b !in s.owner ==> Ino(s'.owner[b]) == ino && Level(s'.owner[b]) > 0)
    && (forall u {:trigger Ptr(V(g, s'), u)} :: IsSlot(V(g, s), u) && Level(u) == 0 ==>
          Ptr(V(g, s'), u) == Ptr(V(g, s), u))
    && Used(g, s.m.disk) + {x} <= Used(g, s'.m.disk) && x !in Used(g, s.m.disk) && x !in s'.owner
    && InBitmap(g, x) && x < |g.role| && g.role[x] == Data
    && UsedInodes(g, s'.m.disk) == UsedInodes(g, s.m.disk)
    && FreeInodesOf(s'.m) == FreeInodesOf(s.m) && DirCounts(s'.m) == DirCounts(s.m)
    && FreeBlocksOf(s'.m) + |s'.owner| + 1 == FreeBlocksOf(s.m) + |s.owner|
    && TablesSame(g, s.m.disk, s'.m.disk)
  }

  /** Hanging a block at position l of file ino takes both free blocks, one of them for the root
      of the doubly indirect tree, and then fails for want of a third. */
  ghost predicate Starves(g: Geom, s: Fs, ino: nat, l: nat)
  {
    InDouble(g.bs / 4, l) && ino in s.raws && Word(s.raws[ino], IBLOCK_WORD + 13) == 0 && FreeBlocksOf(s.m) == 2
  }

  lemma MissingSame(g: Geom, s: Fs, s': Fs, ino: nat, l: nat)
    requires SizesOK(g) && PtrsSame(g, s, s') && ino in s.raws
    ensures Missing(g, s', ino, l) == Missing(g, s, ino, l)
  {
    var p := g.bs / 4;
    if InDouble(p, l) {
      QuotBelow(l - DIRECT - p, p, p);
      assert Ptrs(V(g, s)) == p && IsSlot(V(g, s), Root(ino, 13));
      assert IsSlot(V(g, s), Child(Root(ino, 13), Quot(l - DIRECT - p, p)));
    }
  }

  /** Taking a block and clearing a slot do not get in each other's way. */
  lemma ClearedTook(g: Geom, s: Fs, s1: Fs, t: Slot, x: nat)
    requires FsOK(g, s) && FsOK(g, s1) && TookBlock(g, s.m, s1.m, x) && s1 == s.(m := s1.m) && PtrsSame(g, s, s1)
    requires IsSlot(V(g, s), t) && IsSlot(V(g, s1), t) && Level(t) == 0
    ensures var c, c1 := Cleared(g, s, t), Cleared(g, s1, t);
            FsOK(g, c) && c1 == c.(m := c1.m) && MetaOK(g, c1.m) && TookBlock(g, c.m, c1.m, x)
  {
    hide MetaOK, Owns, Used, UsedInodes;
    ClearedOK(g, s, t);
    ClearedOK(g, s1, t);
    if Ptr(V(g, s), t) != 0 && t.Child? {
      ClearedIs(g, s, t);
      ClearedIs(g, s1, t);
      ClearedInodes(g, s, t);
      ClearedInodes(g, s1, t);
    }
  }

  lemma ClearedInodes(g: Geom, s: Fs, t: Slot)
    requires FsOK(g, s) && IsSlot(V(g, s), t) && t.Child? && Ptr(V(g, s), t) != 0
    ensures UsedInodes(g, Cleared(g, s, t).m.disk) == UsedInodes(g, s.m.disk)
  {
    hide Resolve, MapEnd, Ptr, IsSlot, Word, OthersKept;
    ClearedIs(g, s, t);
    UsedSame(g, s.m.disk, Cleared(g, s, t).m.disk);
  }

  /** ext2_alloc_block, then ext2_assign_block_num for the block of pos; 0 when either fails. */
  method HangBlock(vol: Vol, inode: Inode, pos: nat, ghost chunk: Buf) returns (phys: nat)
    requires FsOK(vol.g, Snap(vol)) && inode.ino in vol.raws && vol.raws[inode.ino] == inode.raw
    requires pos < U32
    modifies vol, inode`raw
    ensures FsOK(vol.g, Snap(vol)) && inode.ino in vol.raws && vol.raws[inode.ino] == inode.raw
    ensures phys == 0 ==> PartDone(vol.g, old(Snap(vol)), Snap(vol), inode.ino, pos, chunk, false)
    ensures phys == 0 ==> IBlocks(inode.raw) == IBlocks(old(inode.raw))
    ensures phys != 0 ==> Opened(vol.g, Unhung(vol.g, old(Snap(vol)), inode.ino, Quot(pos, vol.g.bs)), Snap(vol),
                                 inode.ino, Quot(pos, vol.g.bs), phys)
    ensures phys == 0 ==>
      OneRoot(old(vol.owner), vol.owner, inode.ino, Starves(vol.g, old(Snap(vol)), inode.ino, Quot(pos, vol.g.bs)))
    ensures phys != 0 <==> Mappable(vol.g, old(Snap(vol)), inode.ino, Quot(pos, vol.g.bs), 1)
  {
    hide FsOK, PartDone, Opened, Loose, Grew, Assigned, OneRoot, Used, UsedInodes, OnlyMeta, Quot, MetaOK, Owns,
         OwnedOK, DiskOK, RolesOK, GeomOK, Synced, PtrsSame, SameBytes, TablesSame, RecordsKept, RecordWritten,
         Cleared, Missing;
    ghost var s := Snap(vol);
    Shape(vol.g, s);
    var l := Quot(pos, vol.g.bs);
    PosInMap(vol.g.bs, pos);
    phys := AllocBlock(vol);
    if phys == 0 {
      assert Snap(vol) == s;
      NothingDone(vol.g, s, inode.ino, pos, chunk);
      NothingGained(s.owner, inode.ino);
      return;
    }
    ghost var s1 := Snap(vol);
    Pending(vol.g, s, s1, inode.ino, l, phys);
    ghost var t := DataSlot(vol.g.bs / 4, inode.ino, l);
    ClearedTook(vol.g, s, s1, t, phys);
    var ok := AssignBlockNum(vol, inode, l, phys);
    if ok {
      UnhungOK(vol.g, s, inode.ino, l);
      OpenedBy(vol.g, Cleared(vol.g, s, t), Cleared(vol.g, s1, t), Snap(vol), inode.ino, l, phys);
    } else {
      LooseBy(vol.g, s, s1, Snap(vol), inode.ino, phys);
      DropBlock(vol, phys, pos, chunk, inode.ino, s);
      phys := 0;
    }
  }

  lemma NothingGained(owner: map<nat, Slot>, ino: nat)
    ensures OneRoot(owner, owner, ino, false)
  {
  }

  /** A block just taken, about to be hung on a file. */
  lemma Pending(g: Geom, s: Fs, s1: Fs, ino: nat, l: nat, x: nat)
    requires FsOK(g, s) && MetaOK(g, s1.m) && TookBlock(g, s.m, s1.m, x) && s1 == s.(m := s1.m)
    requires ino in s.raws && l < MapEnd(g.bs / 4)
    ensures FsOK(g, s1) && x in Used(g, s1.m.disk) && x !in s1.owner && InBitmap(g, x) && g.role[x] == Data
    ensures PtrsSame(g, s, s1) && Missing(g, s1, ino, l) == Missing(g, s, ino, l)
    ensures var t := DataSlot(g.bs / 4, ino, l); IsSlot(V(g, s), t) && IsSlot(V(g, s1), t) && Level(t) == 0
  {
    TookStep(g, s, s1, x);
    DataSlotIs(V(g, s), ino, l);
    DataSlotIs(V(g, s1), ino, l);
    MissingSame(g, s, s1, ino, l);
  }

  lemma LooseBy(g: Geom, s: Fs, s1: Fs, s2: Fs, ino: nat, x: nat)
    requires FsOK(g, s) && MetaOK(g, s1.m) && TookBlock(g, s.m, s1.m, x) && s1 == s.(m := s1.m) && Grew(g, s1, s2, ino)
    ensures Loose(g, s, s2, ino, x)
  {
    hide FsOK, MetaOK, Owns, OwnedOK, Used, UsedInodes;
    TookStep(g, s, s1, x);
    assert SameBytes(g, s, s2) by { GrewBytes(g, s1, s2, ino); }
    forall b: nat | b < |g.role| && g.role[b].InodeTable? ensures At(s2.m.disk, b) == At(s.m.disk, b) {
      assert Untouched(g, s1, b);
    }
    forall u | IsSlot(V(g, s), u) && Level(u) == 0 ensures Ptr(V(g, s2), u) == Ptr(V(g, s), u) {
      IsSlotFrame(V(g, s), V(g, s1), u);
    }
  }

  /** Success: count the block, zero-fill it, copy the chunk in, write it. */
  method FillBlock(vol: Vol, inode: Inode, pos: nat, chunk: Buf, phys: nat, ghost s: Fs)
    requires FsOK(vol.g, Snap(vol)) && inode.ino in vol.raws && vol.raws[inode.ino] == inode.raw && inode.ino in s.raws
    requires pos < U32 && Rem(pos, vol.g.bs) + |chunk| <= vol.g.bs
    requires Resolve(V(vol.g, s), inode.ino, Quot(pos, vol.g.bs)) == 0
    requires Opened(vol.g, s, Snap(vol), inode.ino, Quot(pos, vol.g.bs), phys)
    modifies vol`disk, vol`raws, inode`raw, inode`blocks
    ensures FsOK(vol.g, Snap(vol)) && inode.ino in vol.raws && vol.raws[inode.ino] == inode.raw
    ensures PartDone(vol.g, s, Snap(vol), inode.ino, pos, chunk, true)
    ensures inode.blocks == IBlocks(inode.raw) == Add32(IBlocks(s.raws[inode.ino]), vol.g.bs / 512)
  {
    hide OwnedOK, Used, UsedInodes, Synced, PtrsSame, SameBytes, TablesSame, RecordsKept, RecordWritten;
    ghost var s1 := Snap(vol);
    CountBlock(vol, inode);
    ghost var s1' := Snap(vol);
    var blockBuf := Splice(Zeros(vol.g.bs), Rem(pos, vol.g.bs), chunk);
    assert phys < |vol.disk|;
    vol.disk := vol.disk[phys := blockBuf];
    FillDone(vol.g, s, s1, s1', Snap(vol), inode.ino, pos, phys, chunk);
  }

  lemma FillDone(g: Geom, s: Fs, s1: Fs, s1': Fs, s2: Fs, ino: nat, pos: nat, x: nat, chunk: Buf)
    requires FsOK(g, s1') && ino in s.raws && pos < U32 && Rem(pos, g.bs) + |chunk| <= g.bs
    requires Resolve(V(g, s), ino, Quot(pos, g.bs)) == 0 && Opened(g, s, s1, ino, Quot(pos, g.bs), x)
    requires s1' == s1.(raws := s1'.raws) && RawsWrote(s1.raws, s1'.raws, ino)
    requires PtrsSame(g, s1, s1')
    requires IBlocks(s1'.raws[ino]) == Add32(IBlocks(s1.raws[ino]), g.bs / 512)
    requires x < |s1.m.disk|
    requires s2 == s1'.(m := s1.m.(disk := s1.m.disk[x := Splice(Zeros(g.bs), Rem(pos, g.bs), chunk)]))
    ensures FsOK(g, s2) && PartDone(g, s, s2, ino, pos, chunk, true) && IBlocks(s1.raws[ino]) == IBlocks(s.raws[ino])
  {
    OpenedCounted(g, s, s1, s1', ino, Quot(pos, g.bs), x);
    HoleFilled(g, s, s1', s2, ino, pos, x, chunk);
    FilledCounts(g, s, s1', s2, ino, DataSlot(g.bs / 4, ino, Quot(pos, g.bs)), x);
    HeldResolve(g, s2, ino, Quot(pos, g.bs), x);
  }

  lemma OpenedCounted(g: Geom, s: Fs, s1: Fs, s2: Fs, ino: nat, l: nat, x: nat)
    requires SizesOK(g) && Opened(g, s, s1, ino, l, x) && s2 == s1.(raws := s2.raws) && RawsWrote(s1.raws, s2.raws, ino)
    requires PtrsSame(g, s1, s2)
    ensures OwnersOpened(g, s, s2, ino, DataSlot(g.bs / 4, ino, l), x)
    ensures RawsWrote(s.raws, s2.raws, ino) && MapsKept(g, s, s2, ino, l)
    ensures IBlocks(s1.raws[ino]) == IBlocks(s.raws[ino]) < U32
    ensures forall i, q: nat :: i in s.raws && q < U32 && (i != ino || Quot(q, g.bs) != l) ==>
              RawByte(V(g, s2), i, q) == RawByte(V(g, s), i, q)
  {
    IBlocksKept(s.raws[ino], s1.raws[ino]);
    FilledMaps(g, s, s1, s2, ino, l);
    forall i, q: nat | i in s.raws && q < U32 && (i != ino || Quot(q, g.bs) != l)
      ensures RawByte(V(g, s2), i, q) == RawByte(V(g, s), i, q)
    {
      HeaderByte(g, s1, s2, i, q);
    }
  }

  /** Failure: the data block goes back. */
  method DropBlock(vol: Vol, phys: nat, ghost pos: nat, ghost chunk: Buf, ghost ino: nat, ghost s: Fs)
    requires FsOK(vol.g, Snap(vol)) && Loose(vol.g, s, Snap(vol), ino, phys) && pos < U32
    requires Quot(pos, vol.g.bs) >= MaxAssign(vol.g.bs / 4) || NoSpace(vol.g, vol.M())
    modifies vol`disk, vol`sb, vol`gds
    ensures FsOK(vol.g, Snap(vol)) && PartDone(vol.g, s, Snap(vol), ino, pos, chunk, false)
    ensures IBlocks(vol.raws[ino]) == IBlocks(s.raws[ino])
  {
    ghost var s1 := Snap(vol);
    FreeBlock(vol, phys);
    GaveStep(vol.g, s1, Snap(vol), phys);
    DropDone(vol.g, s, s1, Snap(vol), ino, pos, phys, chunk);
  }

  lemma DropDone(g: Geom, s: Fs, s1: Fs, s2: Fs, ino: nat, pos: nat, x: nat, chunk: Buf)
    requires SizesOK(g) && Loose(g, s, s1, ino, x) && GaveBlock(g, s1.m, s2.m, x) && s2 == s1.(m := s2.m)
    requires SameBytes(g, s1, s2) && PtrsSame(g, s1, s2)
    requires pos < U32 && (Quot(pos, g.bs) >= MaxAssign(g.bs / 4) || NoSpace(g, s1.m))
    ensures PartDone(g, s, s2, ino, pos, chunk, false)
    ensures IBlocks(s2.raws[ino]) == IBlocks(s.raws[ino])
  {
    hide FsOK, MetaOK, Owns, OwnedOK, Used, UsedInodes, Ptr, IsSlot, Word, Zeros, SetWord, Level, Ino, DataSlot,
         TookBlock;
    IBlocksKept(s.raws[ino], s1.raws[ino]);
    assert DataBlocks(s1.owner) == DataBlocks(s.owner);
    forall u | IsSlot(V(g, s), u) && Level(u) == 0 ensures Ptr(V(g, s2), u) == Ptr(V(g, s), u) {
      IsSlotFrame(V(g, s), V(g, s1), u);
    }
    assert FileStep(g, s, s2, ino);
    PosInMap(g.bs, pos);
    DataSlotIs(V(g, s), ino, Quot(pos, g.bs));
  }

  /** One turn of the write loop. */
  method WritePart(vol: Vol, inode: Inode, pos: nat, chunk: Buf, stale: Buf) returns (ok: bool)
    requires FsOK(vol.g, Snap(vol)) && inode.ino in vol.raws && vol.raws[inode.ino] == inode.raw
    requires pos < U32 && Rem(pos, vol.g.bs) + |chunk| <= vol.g.bs == |stale| && inode.blocks == IBlocks(inode.raw)
    modifies vol, inode`raw, inode`blocks
    ensures FsOK(vol.g, Snap(vol)) && inode.ino in vol.raws && vol.raws[inode.ino] == inode.raw
    ensures inode.blocks == IBlocks(inode.raw)
    ensures PartDone(vol.g, old(Snap(vol)), Snap(vol), inode.ino, pos, chunk, ok)
    ensures !ok ==> Resolve(V(vol.g, old(Snap(vol))), inode.ino, Quot(pos, vol.g.bs)) == 0
  {
    hide OwnedOK, Used, UsedInodes;
    PosInMap(vol.g.bs, pos);
    var phys := ResolveBlockNum(vol, inode.raw, Quot(pos, vol.g.bs), inode.ino);
    if phys == 0 {
      UnhungOK(vol.g, Snap(vol), inode.ino, Quot(pos, vol.g.bs));
      ok := WriteHole(vol, inode, pos, chunk);
    } else {
      WriteOver(vol, inode, pos, chunk, phys, stale);
      ok := true;
    }
  }

  /** The loop of ext2_write: bytes laid down in order until done or out of blocks. */
  method WriteLoop(vol: Vol, inode: Inode, buf: Buf, offset: nat) returns (n: nat)
    requires FsOK(vol.g, Snap(vol)) && inode.ino in vol.raws && vol.raws[inode.ino] == inode.raw
    requires |buf| < U32 && offset < U32 && inode.blocks == IBlocks(inode.raw)
    modifies vol, inode`raw, inode`blocks
    ensures inode.blocks == IBlocks(inode.raw) && inode.ino in vol.raws && vol.raws[inode.ino] == inode.raw
    ensures FsOK(vol.g, Snap(vol)) && n <= |buf|
    ensures Progress(vol.g, old(Snap(vol)), Snap(vol), inode.ino, buf, offset, n)
    ensures n < |buf| ==> Stuck(vol.g, vol.M(), Add32(offset, n))
    ensures n < |buf| ==> Resolve(V(vol.g, old(Snap(vol))), inode.ino, Quot(Add32(offset, n), vol.g.bs)) == 0
  {
    hide FsOK, Progress, Stuck, Resolve, Quot;
    ghost var s0 := Snap(vol);
    NothingWritten(vol.g, s0, inode.ino, buf, offset);
    var blockBuf := Zeros(vol.g.bs);
    n := 0;
    while n < |buf|
      invariant n <= |buf|
      invariant FsOK(vol.g, Snap(vol)) && inode.ino in vol.raws && vol.raws[inode.ino] == inode.raw
      invariant inode.blocks == IBlocks(inode.raw) && Progress(vol.g, s0, Snap(vol), inode.ino, buf, offset, n)
    {
      var ok, chunk := WriteTurn(vol, inode, buf, offset, n, blockBuf, s0);
      if !ok { return; }
      n := n + chunk;
    }
  }

  /** How far the write has come: n bytes laid down, everything else in its place. */
  ghost predicate Progress(g: Geom, s0: Fs, s: Fs, ino: nat, buf: Buf, offset: nat, n: nat)
  {
    && FileStep(g, s0, s, ino) && OthersKept(g, s0, s, ino) && CountsData(g, s0, s, ino)
    && Wrote(g, s0, s, ino, buf, offset, n) && MapsGrown(g, s0, s, ino, offset, n)
  }

  /** n bytes from offset on, modulo 2^32, reach into block j. */
  ghost predicate WriteReaches(bs: nat, offset: nat, n: nat, j: nat)
  {
    offset < U32 && exists k: nat {:trigger Add32(offset, k)} :: k < n && k < U32 && Quot(Add32(offset, k), bs) == j
  }

  /** From s0 to s the blocks of ino that n bytes from offset on reach into were mapped, and no other. */
  ghost predicate MapsGrown(g: Geom, s0: Fs, s: Fs, ino: nat, offset: nat, n: nat)
  {
    forall j: nat {:trigger Resolve(V(g, s), ino, j)} :: j < MapEnd(g.bs / 4) ==>
      (Resolve(V(g, s), ino, j) != 0 <==> Resolve(V(g, s0), ino, j) != 0 || WriteReaches(g.bs, offset, n, j))
  }

  lemma WriteReachesMore(bs: nat, offset: nat, n: nat, k: nat, j: nat)
    requires bs > 0 && 0 < k && n + k < U32 && offset < U32
    requires Rem(Add32(offset, n), bs) + k <= bs && Add32(offset, n) + k <= U32
    ensures WriteReaches(bs, offset, n + k, j) <==> WriteReaches(bs, offset, n, j) || j == Quot(Add32(offset, n), bs)
  {
    hide Quot, Rem;
    var p := Add32(offset, n);
    forall m: nat | n <= m < n + k ensures Quot(Add32(offset, m), bs) == Quot(p, bs) {
      assert Add32(offset, m) == p + (m - n);
      QuotRem(p, bs);
      QuotUnique(Quot(p, bs), bs, Rem(p, bs) + (m - n));
    }
    if j == Quot(p, bs) { assert n < n + k && Quot(Add32(offset, n), bs) == j; }
  }

  lemma MapsGrownMore(g: Geom, s0: Fs, s: Fs, s': Fs, ino: nat, offset: nat, n: nat, chunk: Buf, ok: bool)
    requires SizesOK(g) && ino in s0.raws && s.raws.Keys == s0.raws.Keys
    requires 0 < |chunk| && n + |chunk| < U32 && offset < U32
    requires Rem(Add32(offset, n), g.bs) + |chunk| <= g.bs && Add32(offset, n) + |chunk| <= U32
    requires MapsGrown(g, s0, s, ino, offset, n) && PartDone(g, s, s', ino, Add32(offset, n), chunk, ok)
    ensures MapsGrown(g, s0, s', ino, offset, if ok then n + |chunk| else n)
  {
    hide Resolve, WriteReaches, Quot, Rem, Laid, SameBytes, FileStep, CountsData, Stuck, MapsKept;
    var l := Quot(Add32(offset, n), g.bs);
    forall j: nat | j < MapEnd(g.bs / 4)
      ensures Resolve(V(g, s'), ino, j) != 0 <==>
        Resolve(V(g, s0), ino, j) != 0 || WriteReaches(g.bs, offset, if ok then n + |chunk| else n, j)
    {
      WriteReachesMore(g.bs, offset, n, |chunk|, j);
      if j != l { ResolveKept(g, s, s', ino, l, ino, j); }
    }
  }

  /** One turn of the loop: the rest of the block at offset + n, as far as the buffer reaches. */
  method WriteTurn(vol: Vol, inode: Inode, buf: Buf, offset: nat, n: nat, stale: Buf, ghost s0: Fs)
    returns (ok: bool, chunk: nat)
    requires FsOK(vol.g, Snap(vol)) && inode.ino in vol.raws && vol.raws[inode.ino] == inode.raw
    requires n < |buf| < U32 && offset < U32 && inode.blocks == IBlocks(inode.raw) && |stale| == vol.g.bs
    requires Progress(vol.g, s0, Snap(vol), inode.ino, buf, offset, n)
    modifies vol, inode`raw, inode`blocks
    ensures FsOK(vol.g, Snap(vol)) && inode.ino in vol.raws && vol.raws[inode.ino] == inode.raw
    ensures inode.blocks == IBlocks(inode.raw) && 0 < chunk <= |buf| - n
    ensures Progress(vol.g, s0, Snap(vol), inode.ino, buf, offset, if ok then n + chunk else n)
    ensures !ok ==> Stuck(vol.g, vol.M(), Add32(offset, n))
    ensures !ok ==> Resolve(V(vol.g, s0), inode.ino, Quot(Add32(offset, n), vol.g.bs)) == 0
  {
    hide FsOK, Progress, MapsKept, Laid, CountsData, FileStep, SameBytes, Stuck, Resolve;
    ghost var s := Snap(vol);
    Shape(vol.g, s);
    var pos := Add32(offset, n);
    chunk := vol.g.bs - Rem(pos, vol.g.bs);
    if chunk > |buf| - n { chunk := |buf| - n; }
    BlockEnd(vol.g.bs, pos);
    PosInMap(vol.g.bs, pos);
    HoleBefore(vol.g, s0, s, inode.ino, buf, offset, n, Quot(pos, vol.g.bs));
    ok := WritePart(vol, inode, pos, buf[n..n+chunk], stale);
    Progresses(vol.g, s0, s, Snap(vol), inode.ino, buf, offset, n, chunk, ok);
  }

  lemma HoleBefore(g: Geom, s0: Fs, s: Fs, ino: nat, buf: Buf, offset: nat, n: nat, j: nat)
    requires Progress(g, s0, s, ino, buf, offset, n) && j < MapEnd(g.bs / 4)
    ensures Resolve(V(g, s), ino, j) == 0 ==> Resolve(V(g, s0), ino, j) == 0
  {
    hide FileStep, OthersKept, CountsData, Wrote, Resolve, WriteReaches;
  }

  lemma Progresses(g: Geom, s0: Fs, s: Fs, s': Fs, ino: nat, buf: Buf, offset: nat, n: nat, chunk: nat, ok: bool)
    requires SizesOK(g) && n + chunk <= |buf| < U32 && offset < U32 && Add32(offset, n) + chunk <= U32
    requires 0 < chunk && Rem(Add32(offset, n), g.bs) + chunk <= g.bs
    requires Progress(g, s0, s, ino, buf, offset, n)
    requires PartDone(g, s, s', ino, Add32(offset, n), buf[n..n+chunk], ok)
    ensures Progress(g, s0, s', ino, buf, offset, if ok then n + chunk else n)
  {
    hide OthersKept, CountsData, Wrote, Laid, MapsKept, SameBytes, Stuck, Resolve, MapsGrown;
    MapsGrownMore(g, s0, s, s', ino, offset, n, buf[n..n+chunk], ok);
    FileStepTrans(g, s0, s, s', ino);
    PartOthers(g, s, s', ino, Add32(offset, n), buf[n..n+chunk], ok);
    OthersKeptTrans(g, s0, s, s', ino);
    CountsDataTrans(g, s0, s, s', ino);
    if ok {
      WroteMore(g, s0, s, s', ino, buf, offset, n, chunk);
    } else {
      SameWrote(g, s0, s, s', ino, buf, offset, n);
    }
  }

  lemma NothingWritten(g: Geom, s: Fs, ino: nat, buf: Buf, offset: nat)
    requires FsOK(g, s) && ino in s.raws && |buf| < U32 && offset < U32
    ensures Progress(g, s, s, ino, buf, offset, 0) && 0 < g.bs
  {
  }

  lemma SameWrote(g: Geom, s0: Fs, s: Fs, s': Fs, ino: nat, buf: Buf, offset: nat, n: nat)
    requires SizesOK(g) && Wrote(g, s0, s, ino, buf, offset, n) && SameBytes(g, s, s') && s.raws.Keys == s0.raws.Keys
    ensures Wrote(g, s0, s', ino, buf, offset, n)
  {
  }
}
