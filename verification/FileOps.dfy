/** ext2_write and ext2_read as operations on byte-sequence files. */
module FileOps {
  import opened Words
  import opened Bytes
  import opened Arith
  import opened BlockTree
  import opened Layout
  import opened Metadata
  import opened Volume
  import opened FsState
  import opened BlockMap
  import opened InodeTable
  import opened FileData

  function SizeOf(raw: RawInode): nat { if |raw| == 128 then Get32(raw, I_SIZE) else 0 }

  function ModeOf(raw: RawInode): nat { if |raw| == 128 then Get16(raw, I_MODE) else 0 }
  function LinksOf(raw: RawInode): nat { if |raw| == 128 then Get16(raw, I_LINKS) else 0 }

  /** The contents of file i: as many bytes as its recorded size. */
  function Content(v: View, i: nat): (c: Buf)
    requires i in v.raws
    ensures |c| == SizeOf(v.raws[i])
  {
    seq(SizeOf(v.raws[i]), p requires p >= 0 => RawByte(v, i, p))
  }

  /** Bytes past the recorded size are zero, mapped or not. */
  ghost predicate TailZero(v: View, i: nat)
    requires i in v.raws
  {
    forall p: nat :: SizeOf(v.raws[i]) <= p < U32 ==> RawByte(v, i, p) == 0
  }

  /** A byte-sequence file after writing `data` at `offset`: padded with zeros up to offset. */
  function Overlaid(c: Buf, offset: nat, data: Buf): (r: Buf)
    ensures |r| == if offset + |data| > |c| then offset + |data| else |c|
  {
    seq(if offset + |data| > |c| then offset + |data| else |c|,
        p requires p >= 0 => if offset <= p < offset + |data| then data[p - offset] else if p < |c| then c[p] else 0)
  }

  // ----- ext2_write_inode -----

  /** The VFS inode and the record in memory agree with what the volume holds. */
  ghost predicate Open(vol: Vol, inode: Inode)
    reads vol, inode
  {
    && FsOK(vol.g, Snap(vol)) && inode.ino in vol.raws && vol.raws[inode.ino] == inode.raw
    && inode.size < U32 && inode.mode < U32 && inode.nlink < U32 && inode.blocks == IBlocks(inode.raw) < U32
  }

  /** The record with the VFS fields copied in; mode and link count are cut to 16 bits. */
  function Recorded(raw: RawInode, mode: nat, size: nat, nlink: nat, blocks: nat): (r: RawInode)
    requires |raw| == 128 && size < U32 && blocks < U32
    ensures |r| == 128
    ensures SizeOf(r) == size && IBlocks(r) == blocks
    ensures Get16(r, I_MODE) == Low16(mode) && Get16(r, I_LINKS) == Low16(nlink)
    ensures SameRest(raw, r) && forall k :: 40 <= k < 100 ==> r[k] == raw[k]
  {
    Put32(Put16(Put32(Put16(raw, I_MODE, Low16(mode)), I_SIZE, size), I_LINKS, Low16(nlink)), I_BLOCKS, blocks)
  }

  /** From s to s' the record of ino became raw, in force and on the device. */
  ghost predicate RecordStep(g: Geom, s: Fs, s': Fs, ino: nat, raw: RawInode)
  {
    && s'.raws == s.raws[ino := raw] && s'.owner == s.owner
    && s'.m == s.m.(disk := s'.m.disk)
    && Used(g, s'.m.disk) == Used(g, s.m.disk) && UsedInodes(g, s'.m.disk) == UsedInodes(g, s.m.disk)
    && 0 < g.isz <= g.bs && RecordWritten(g, s.m.disk, s'.m.disk, ino, raw)
  }

  lemma RecordBytes(g: Geom, s: Fs, s1: Fs, s2: Fs, ino: nat, raw: RawInode)
    requires FsOK(g, s) && ino in s.raws && |raw| == 128
    requires forall k :: 40 <= k < 100 ==> raw[k] == s.raws[ino][k]
    requires s1 == s.(raws := s.raws[ino := raw])
    requires s2 == s1.(m := s.m.(disk := s2.m.disk)) && RecordWritten(g, s.m.disk, s2.m.disk, ino, raw)
    ensures FsOK(g, s2) && RecordStep(g, s, s2, ino, raw) && SameBytes(g, s, s2) && PtrsSame(g, s, s2)
  {
    HeaderFs(g, s, s1, ino);
    RecordFs(g, s1, s2, ino, raw);
    PtrsSameTrans(g, s, s1, s2);
    UsedSame(g, s.m.disk, s2.m.disk);
    forall i, q: nat | i in s.raws && q < U32 ensures RawByte(V(g, s2), i, q) == RawByte(V(g, s), i, q) {
      HeaderByte(g, s, s1, i, q);
      MetaStepByte(g, s1, s2, i, q);
    }
  }

  /** ext2_write_inode */
  method WriteInode(vol: Vol, inode: Inode)
    requires Open(vol, inode)
    modifies vol`disk, vol`raws, inode`raw
    ensures Open(vol, inode)
    ensures inode.raw == Recorded(old(inode.raw), inode.mode, inode.size, inode.nlink, inode.blocks)
    ensures RecordStep(vol.g, old(Snap(vol)), Snap(vol), inode.ino, inode.raw)
    ensures SameBytes(vol.g, old(Snap(vol)), Snap(vol)) && PtrsSame(vol.g, old(Snap(vol)), Snap(vol))
  {
    hide TablesSame, RecordsKept, RecordWritten, RawByte, Resolve, MapEnd, Ptr, IsSlot, Word, OthersKept, CountsData,
         FileStep, Restrict, OnlyMeta, Counted, WrittenThrough, CountClear, BitSet;
    ghost var s := Snap(vol);
    inode.raw := Recorded(inode.raw, inode.mode, inode.size, inode.nlink, inode.blocks);
    vol.raws := vol.raws[inode.ino := inode.raw];
    ghost var s1 := Snap(vol);
    WriteInodeRaw(vol, inode.ino, inode.raw);
    RecordBytes(vol.g, s, s1, Snap(vol), inode.ino, inode.raw);
  }

  // ----- ext2_write -----

  /** Everything ext2_write does when it returns n. */
  ghost predicate Written(g: Geom, s: Fs, s': Fs, ino: nat, buf: Buf, offset: nat, n: nat)
  {
    && ino in s.raws && s'.raws.Keys == s.raws.Keys
    && Wrote(g, s, s', ino, buf, offset, n) && OthersKept(g, s, s', ino) && MapsGrown(g, s, s', ino, offset, n)
    && (forall i :: i in s.raws && i != ino ==> s'.raws[i] == s.raws[i])
    && SizeOf(s'.raws[ino]) == Max(SizeOf(s.raws[ino]), Add32(offset, n)) && SameRest(s.raws[ino], s'.raws[ino])
    && (forall b :: b in s.owner ==> b in s'.owner && s'.owner[b] == s.owner[b])
    && (forall b :: b in s'.owner && b !in s.owner ==> Ino(s'.owner[b]) == ino)
    && UsedInodes(g, s'.m.disk) == UsedInodes(g, s.m.disk) && FreeInodesOf(s'.m) == FreeInodesOf(s.m)
    && DirCounts(s'.m) == DirCounts(s.m)
    && FreeBlocksOf(s'.m) + |s'.owner| == FreeBlocksOf(s.m) + |s.owner|
    && CountsData(g, s, s', ino)
  }

  lemma StepThenRecord(g: Geom, s: Fs, s1: Fs, s2: Fs, ino: nat, raw: RawInode, buf: Buf, offset: nat, n: nat)
    requires SizesOK(g) && FileStep(g, s, s1, ino) && Wrote(g, s, s1, ino, buf, offset, n)
    requires RecordStep(g, s1, s2, ino, raw) && SameBytes(g, s1, s2) && PtrsSame(g, s1, s2) && OthersKept(g, s, s1, ino)
    requires SizeOf(raw) == Max(SizeOf(s.raws[ino]), Add32(offset, n)) && SameRest(s.raws[ino], raw)
    requires CountsData(g, s, s1, ino) && IBlocks(raw) == IBlocks(s1.raws[ino]) && MapsGrown(g, s, s1, ino, offset, n)
    ensures Written(g, s, s2, ino, buf, offset, n)
  {
    hide Wrote, OthersKept, SameBytes, PtrsSame, RecordWritten, TablesSame, UsedInodes;
    SameWrote(g, s, s1, s2, ino, buf, offset, n);
    assert MapsGrown(g, s, s2, ino, offset, n) by { SameMaps(g, s, s1, s2, ino, offset, n); }
    assert OthersKept(g, s, s2, ino) by { RecordOthers(g, s1, s2, ino); OthersKeptTrans(g, s, s1, s2, ino); }
  }

  lemma SameMaps(g: Geom, s: Fs, s1: Fs, s2: Fs, ino: nat, offset: nat, n: nat)
    requires SizesOK(g) && MapsGrown(g, s, s1, ino, offset, n) && PtrsSame(g, s1, s2) && ino in s1.raws
    ensures MapsGrown(g, s, s2, ino, offset, n)
  {
    hide Resolve, WriteReaches;
    forall j: nat | j < MapEnd(g.bs / 4) ensures Resolve(V(g, s2), ino, j) == Resolve(V(g, s1), ino, j) {
      ResolveSame(g, s1, s2, ino, j);
    }
  }

  lemma RecordOthers(g: Geom, s: Fs, s': Fs, ino: nat)
    requires SizesOK(g) && SameBytes(g, s, s') && PtrsSame(g, s, s')
    ensures OthersKept(g, s, s', ino)
  {
    forall i, j: nat | i in s.raws && j < MapEnd(g.bs / 4) ensures Resolve(V(g, s'), i, j) == Resolve(V(g, s), i, j) {
      ResolveSame(g, s, s', i, j);
    }
  }

  lemma StepSynced(g: Geom, s: Fs, s1: Fs, s2: Fs, ino: nat, raw: RawInode, dirty: set<nat>)
    requires GeomOK(g) && Synced(g, s, dirty + {ino}) && FileStep(g, s, s1, ino) && RecordStep(g, s1, s2, ino, raw)
    requires forall i :: i in s.raws <==> IsIno(g, i)
    ensures Synced(g, s2, dirty)
  {
    SyncedKept(g, s, s1, dirty + {ino}, dirty + {ino});
  }

  lemma SizeKept(s: Fs, s1: Fs, ino: nat)
    requires RawsWrote(s.raws, s1.raws, ino)
    ensures SizeOf(s1.raws[ino]) == SizeOf(s.raws[ino])
  {
    assert forall k :: 4 <= k < 8 ==> s1.raws[ino][k] == s.raws[ino][k];
  }

  /** ext2_write: lays down a prefix of buf, grows the size to cover it, writes the inode
      back; it stops short only when blocks run out or the file would outgrow its map. */
  method Write(vol: Vol, inode: Inode, buf: Buf, offset: nat, ghost dirty: set<nat>) returns (n: nat)
    requires Open(vol, inode) && Synced(vol.g, Snap(vol), dirty + {inode.ino}) && inode.size == SizeOf(inode.raw)
    requires |buf| < U32 && offset < U32
    modifies vol, inode`raw, inode`blocks, inode`size
    ensures Open(vol, inode) && Synced(vol.g, Snap(vol), dirty) && inode.size == SizeOf(inode.raw)
    ensures ModeOf(inode.raw) == Low16(old(inode.mode)) && LinksOf(inode.raw) == Low16(old(inode.nlink))
    ensures n <= |buf| && Written(vol.g, old(Snap(vol)), Snap(vol), inode.ino, buf, offset, n)
    ensures n < |buf| ==> Stuck(vol.g, vol.M(), Add32(offset, n))
    ensures n < |buf| ==> Resolve(V(vol.g, old(Snap(vol))), inode.ino, Quot(Add32(offset, n), vol.g.bs)) == 0
  {
    hide FsOK, Resolve, MapsGrown, Quot, Wrote, OthersKept, CountsData, SameBytes, PtrsSame, Written, Synced, Recorded,
         MetaOK, Owns, OwnedOK, Used, UsedInodes, DiskOK;
    ghost var s := Snap(vol);
    Shape(vol.g, s);
    n := WriteLoop(vol, inode, buf, offset);
    ghost var s1 := Snap(vol);
    SizeKept(s, s1, inode.ino);
    RestKept(s.raws, s1.raws, inode.ino);
    var end := Add32(offset, n);
    if end > inode.size {
      inode.size := end;
    }
    WriteInode(vol, inode);
    SameRestTrans(s.raws[inode.ino], s1.raws[inode.ino], inode.raw);
    StepThenRecord(vol.g, s, s1, Snap(vol), inode.ino, inode.raw, buf, offset, n);
    StepSynced(vol.g, s, s1, Snap(vol), inode.ino, inode.raw, dirty);
  }

  // ----- refinement -----

  lemma ContentAt(v: View, i: nat, p: nat)
    requires i in v.raws && p < SizeOf(v.raws[i])
    ensures Content(v, i)[p] == RawByte(v, i, p)
  {
  }

  /** Below 4 GiB the bytes laid down are those of the overlay, and behind them it is zero. */
  lemma WriteLays(g: Geom, s: Fs, s': Fs, ino: nat, buf: Buf, offset: nat, n: nat)
    requires SizesOK(g) && n <= |buf| && Written(g, s, s', ino, buf, offset, n)
    requires TailZero(V(g, s), ino) && offset + n < U32
    ensures Content(V(g, s'), ino) == Overlaid(Content(V(g, s), ino), offset, buf[..n])
    ensures TailZero(V(g, s'), ino)
  {
    hide OthersKept, CountsData, DirCounts, UsedInodes, RawByte;
    var c := Overlaid(Content(V(g, s), ino), offset, buf[..n]);
    forall p: nat | p < U32 ensures Ahead(offset, p) < n <==> offset <= p < offset + n { }
    forall p: nat | p < |c| ensures Content(V(g, s'), ino)[p] == c[p] {
      ContentAt(V(g, s'), ino, p);
      if p < SizeOf(s.raws[ino]) { ContentAt(V(g, s), ino, p); }
    }
  }

  /** The file written to refines a byte sequence exactly when the write stays below 4 GiB: it
      is the old contents, zero-padded to offset, with the bytes laid over. Every other file
      is untouched, and bytes past the size stay zero, also when the write stopped short. */
  lemma WriteRefines(g: Geom, s: Fs, s': Fs, ino: nat, buf: Buf, offset: nat, n: nat)
    requires SizesOK(g) && n <= |buf| && Written(g, s, s', ino, buf, offset, n)
    requires TailZero(V(g, s), ino)
    ensures Content(V(g, s'), ino) == Overlaid(Content(V(g, s), ino), offset, buf[..n]) <==> offset + n < U32
    ensures offset + n < U32 ==> TailZero(V(g, s'), ino)
    ensures offset + |buf| < U32 ==> Content(V(g, s'), ino) == Overlaid(Content(V(g, s), ino), offset, buf[..n])
    ensures n == |buf| ==>
      (Content(V(g, s'), ino) == Overlaid(Content(V(g, s), ino), offset, buf) <==> offset + |buf| < U32)
  {
    hide Wrote, OthersKept, CountsData, DirCounts, UsedInodes, RawByte, TailZero;
    assert n == |buf| ==> buf[..n] == buf;
    if offset + n < U32 { WriteLays(g, s, s', ino, buf, offset, n); }
  }

  lemma WriteFrames(g: Geom, s: Fs, s': Fs, ino: nat, buf: Buf, offset: nat, n: nat, i: nat)
    requires SizesOK(g) && Written(g, s, s', ino, buf, offset, n) && i in s.raws && i != ino
    ensures Content(V(g, s'), i) == Content(V(g, s), i)
    ensures TailZero(V(g, s), i) ==> TailZero(V(g, s'), i)
  {
    forall p: nat | p < SizeOf(s.raws[i]) ensures Content(V(g, s'), i)[p] == Content(V(g, s), i)[p] {
      ContentAt(V(g, s'), i, p);
      ContentAt(V(g, s), i, p);
      Get32Below(s.raws[i]);
    }
  }

  lemma Get32Below(raw: RawInode)
    ensures SizeOf(raw) < U32
  {
  }

  // ----- reading back -----

  /** Bytes offset..offset+count of a byte sequence, cut at its end. */
  function Slice(c: Buf, offset: nat, count: nat): Buf
  {
    if offset >= |c| then [] else if offset + count > |c| then c[offset..] else c[offset..offset + count]
  }

  /** What ext2_read returns is that slice of the file exactly when the range does not run
      past 2^32; past it the clamp to the file size is skipped. */
  lemma ReadRefines(v: View, i: nat, offset: nat, count: nat, buf: Buf)
    requires i in v.raws && ReadOut(v, i, SizeOf(v.raws[i]), offset, count, buf)
    ensures buf == Slice(Content(v, i), offset, count) <==> offset >= SizeOf(v.raws[i]) || offset + count < U32
  {
    Get32Below(v.raws[i]);
    var c := Content(v, i);
    if offset < |c| && offset + count < U32 {
      forall k | 0 <= k < |buf| ensures buf[k] == Slice(c, offset, count)[k] {
        ContentAt(v, i, offset + k);
      }
    }
  }

  /** Reading back the range just written returns the bytes written, exactly if the write did not
      wrap or the file reached past its offset already. */
  lemma WriteThenRead(g: Geom, s: Fs, s': Fs, ino: nat, buf: Buf, offset: nat, n: nat, r: Buf)
    requires 0 < n <= |buf| && Written(g, s, s', ino, buf, offset, n)
    requires ReadOut(V(g, s'), ino, SizeOf(s'.raws[ino]), offset, n, r)
    ensures r == buf[..n] <==> offset + n < U32 || offset < SizeOf(s.raws[ino])
  {
    hide RawByte, OthersKept, CountsData, DirCounts, UsedInodes;
    forall k | 0 <= k < |r| ensures r[k] == buf[k] { assert Ahead(offset, Add32(offset, k)) == k; }
  }
}
