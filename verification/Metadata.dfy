/** Bitmaps, free counters at two levels, and their write-through copies on the device. */
module Metadata {
  import opened Words
  import opened Bytes
  import opened BlockTree
  import opened Layout
  import opened Arith

  datatype Meta = Meta(disk: seq<Block>, sb: Buf, gds: seq<Buf>)

  function FreeBlocksOf(m: Meta): nat { if |m.sb| == SB_SIZE then Get32(m.sb, SB_FREE_BLOCKS) else 0 }
  function FreeInodesOf(m: Meta): nat { if |m.sb| == SB_SIZE then Get32(m.sb, SB_FREE_INODES) else 0 }

  /** bg_used_dirs_count of every group */
  function DirCounts(m: Meta): seq<nat>
  {
    seq(|m.gds|, k requires 0 <= k < |m.gds| => Half(m.gds[k], GD_USED_DIRS))
  }

  /** The block allocator and the inode allocator run the same protocol. */
  datatype Kind = Blocks | Inodes

  function BitmapOf(g: Geom, kind: Kind, grp: nat): nat
    requires SizesOK(g) && grp < g.groups
  { if kind.Blocks? then g.bbm[grp] else g.ibm[grp] }

  function BitsOf(g: Geom, kind: Kind, grp: nat): (n: nat)
    requires SizesOK(g) && grp < g.groups
    ensures n <= 8 * g.bs
  { if kind.Blocks? then BitsIn(g, grp) else g.ipg }

  function SbOff(kind: Kind): nat { if kind.Blocks? then SB_FREE_BLOCKS else SB_FREE_INODES }
  function GdOff(kind: Kind): nat { if kind.Blocks? then GD_FREE_BLOCKS else GD_FREE_INODES }

  ghost predicate MetaShape(g: Geom, m: Meta)
  {
    && DiskOK(g, m.disk) && |m.sb| == SB_SIZE && |m.gds| == g.groups
    && forall grp :: 0 <= grp < |m.gds| ==> |m.gds[grp]| == GD_SIZE
  }

  /** Each group's free count is its number of clear in-range bits; the superblock's is their sum. */
  ghost predicate Counted(g: Geom, m: Meta, kind: Kind)
    requires GeomOK(g) && MetaShape(g, m)
  {
    && (forall grp :: 0 <= grp < g.groups ==>
          Half(m.gds[grp], GdOff(kind)) == CountClear(m.disk[BitmapOf(g, kind, grp)], BitsOf(g, kind, grp)))
    && Get32(m.sb, SbOff(kind)) == SumField(m.gds, GdOff(kind))
  }

  /** Reading the metadata back from the device yields the in-memory values. */
  ghost predicate WrittenThrough(g: Geom, m: Meta)
    requires GeomOK(g) && MetaShape(g, m)
  {
    && SuperAt(g, m.disk) == m.sb
    && forall grp :: 0 <= grp < g.groups ==> DescAt(g, m.disk, grp) == m.gds[grp]
  }

  /** No metadata block is ever free. */
  ghost predicate MetaReserved(g: Geom, disk: seq<Block>)
    requires SizesOK(g)
  {
    forall b: nat {:trigger b in Used(g, disk)} :: InBitmap(g, b) && g.role[b] != Data ==> b in Used(g, disk)
  }

  /** The bytes of a superblock that hold its two free counts, and those of a descriptor that hold
      its three counts */
  predicate IsSuperCount(k: int) { 12 <= k < 20 }
  predicate IsDescCount(k: int) { 12 <= k < 18 }

  ghost predicate SameSuper(sb: Buf, sb': Buf)
  {
    |sb'| == |sb| && forall k :: 0 <= k < |sb| && !IsSuperCount(k) ==> sb'[k] == sb[k]
  }

  ghost predicate SameDesc(gd: Buf, gd': Buf)
  {
    |gd'| == |gd| && forall k :: 0 <= k < |gd| && !IsDescCount(k) ==> gd'[k] == gd[k]
  }

  /** Superblock and descriptors are those of the volume but for their counts. */
  ghost predicate Frozen(g: Geom, m: Meta)
  {
    && SameSuper(g.super, m.sb) && |m.gds| == |g.descs|
    && forall grp :: 0 <= grp < |m.gds| ==> SameDesc(g.descs[grp], m.gds[grp])
  }

  ghost predicate MetaOK(g: Geom, m: Meta)
  {
    && GeomOK(g) && MetaShape(g, m) && Frozen(g, m)
    && Counted(g, m, Blocks) && Counted(g, m, Inodes)
    && WrittenThrough(g, m) && MetaReserved(g, m.disk)
  }

  /** The counts byte by byte, low byte first: each group's free blocks, free inodes and directories
      at bytes 12, 14 and 16 of its descriptor, the free blocks and inodes at 12 and 16 of the
      superblock. */
  lemma CountFields(g: Geom, m: Meta, grp: nat)
    requires MetaOK(g, m) && grp < g.groups
    ensures var d := m.gds[grp];
      && d[12] as int + 256 * d[13] as int == CountClear(m.disk[g.bbm[grp]], BitsIn(g, grp))
      && d[14] as int + 256 * d[15] as int == CountClear(m.disk[g.ibm[grp]], g.ipg)
      && d[16] as int + 256 * d[17] as int == DirCounts(m)[grp]
    ensures FreeBlocksOf(m) == SumField(m.gds, 12) == Word32(m.sb, 12)
    ensures FreeInodesOf(m) == SumField(m.gds, 14) == Word32(m.sb, 16)
  {
  }

  // ----- flushing -----

  /** ext2_flush_superblock */
  function FlushSuper(g: Geom, disk: seq<Block>, sb: Buf): (r: seq<Block>)
    requires SizesOK(g) && DiskOK(g, disk) && SbBlock(g) < g.blocks && |sb| == SB_SIZE
    ensures DiskOK(g, r) && SuperAt(g, r) == sb
    ensures forall b :: 0 <= b < g.blocks && b != SbBlock(g) ==> r[b] == disk[b]
    ensures forall k :: 0 <= k < g.bs && (k < 1024 || 2048 <= k) && g.bs > 1024 ==> r[0][k] == disk[0][k]
  {
    if g.bs == 1024 then disk[1 := sb]
    else
      var blk := Splice(disk[0], 1024, sb);
      assert blk[1024..2048] == sb;
      disk[0 := blk]
  }

  /** ext2_flush_group_desc */
  function FlushDesc(g: Geom, disk: seq<Block>, grp: nat, gd: Buf): (r: seq<Block>)
    requires SizesOK(g) && DiskOK(g, disk) && DescBlock(g, grp) < g.blocks && |gd| == GD_SIZE
    ensures DiskOK(g, r) && DescAt(g, r, grp) == gd
    ensures forall x: nat :: x != grp && DescBlock(g, x) < g.blocks ==> DescAt(g, r, x) == DescAt(g, disk, x)
    ensures forall b :: 0 <= b < g.blocks && b != DescBlock(g, grp) ==> r[b] == disk[b]
  {
    DescFits(g, grp);
    var k := DescBlock(g, grp);
    var blk := Splice(disk[k], DescOff(g, grp), gd);
    var r := disk[k := blk];
    assert blk[DescOff(g, grp)..DescOff(g, grp) + GD_SIZE] == gd;
    assert forall x: nat :: x != grp && DescBlock(g, x) < g.blocks ==> DescAt(g, r, x) == DescAt(g, disk, x) by {
      forall x: nat | x != grp && DescBlock(g, x) < g.blocks ensures DescAt(g, r, x) == DescAt(g, disk, x) {
        DescFits(g, x);
        if DescBlock(g, x) == k { DescApart(g, x, grp); }
      }
    }
    r
  }

  // ----- one allocator step -----

  /** r is m after: write the bitmap block, store the new counters, flush both. */
  ghost predicate Stepped(g: Geom, m: Meta, r: Meta, kind: Kind, grp: nat, bitmap: Buf, c: nat, n: nat)
    requires GeomOK(g) && MetaShape(g, m) && grp < g.groups && c < U16 && n < U32
  {
    && MetaShape(g, r)
    && r.disk[BitmapOf(g, kind, grp)] == bitmap
    && (forall b :: 0 <= b < g.blocks && b != BitmapOf(g, kind, grp) && !g.role[b].Super? && !g.role[b].Gdt?
          ==> r.disk[b] == m.disk[b])
    && r.gds == m.gds[grp := Put16(m.gds[grp], GdOff(kind), c)]
    && r.sb == Put32(m.sb, SbOff(kind), n)
    && (WrittenThrough(g, m) ==> WrittenThrough(g, r))
  }

  lemma FlushWritesThrough(g: Geom, m: Meta, disk: seq<Block>, grp: nat, gd: Buf, sb: Buf)
    requires GeomOK(g) && MetaShape(g, m) && grp < g.groups && |gd| == GD_SIZE && |sb| == SB_SIZE && DiskOK(g, disk)
    requires forall x :: 0 <= x < g.groups ==> DescAt(g, m.disk, x) == m.gds[x]
    requires forall b :: 0 <= b < g.blocks && g.role[b].Gdt? ==> disk[b] == m.disk[b]
    ensures WrittenThrough(g, Meta(FlushSuper(g, FlushDesc(g, disk, grp, gd), sb), sb, m.gds[grp := gd]))
  {
    var disk' := FlushDesc(g, disk, grp, gd);
    var disk'' := FlushSuper(g, disk', sb);
    forall x | 0 <= x < g.groups ensures DescAt(g, disk'', x) == m.gds[grp := gd][x] {
      assert disk''[DescBlock(g, x)] == disk'[DescBlock(g, x)];
      assert disk[DescBlock(g, x)] == m.disk[DescBlock(g, x)];
    }
  }

  lemma FlushSteps(g: Geom, m: Meta, kind: Kind, grp: nat, bitmap: Buf, c: nat, n: nat)
    requires GeomOK(g) && MetaShape(g, m) && grp < g.groups && |bitmap| == g.bs && c < U16 && n < U32
    ensures var disk := m.disk[BitmapOf(g, kind, grp) := bitmap];
      var gd := Put16(m.gds[grp], GdOff(kind), c); var sb := Put32(m.sb, SbOff(kind), n);
      Stepped(g, m, Meta(FlushSuper(g, FlushDesc(g, disk, grp, gd), sb), sb, m.gds[grp := gd]), kind, grp, bitmap, c, n)
  {
    hide Put16, Put32, SuperAt, DescAt;
    var disk := m.disk[BitmapOf(g, kind, grp) := bitmap];
    var gd := Put16(m.gds[grp], GdOff(kind), c);
    if WrittenThrough(g, m) {
      FlushWritesThrough(g, m, disk, grp, gd, Put32(m.sb, SbOff(kind), n));
    }
  }

  lemma StepFields(g: Geom, m: Meta, r: Meta, kind: Kind, grp: nat, bitmap: Buf, c: nat, n: nat, k: Kind)
    requires GeomOK(g) && MetaShape(g, m) && grp < g.groups && c < U16 && n < U32
    requires Stepped(g, m, r, kind, grp, bitmap, c, n)
    ensures Half(r.gds[grp], GdOff(k)) == if k == kind then c else Half(m.gds[grp], GdOff(k))
    ensures Get32(r.sb, SbOff(k)) == if k == kind then n else Get32(m.sb, SbOff(k))
    ensures DirCounts(r) == DirCounts(m)
  {
    assert Half(r.gds[grp], GD_USED_DIRS) == Half(m.gds[grp], GD_USED_DIRS);
  }

  lemma StepCounts(g: Geom, m: Meta, r: Meta, kind: Kind, grp: nat, bitmap: Buf, c: nat, n: nat, k: Kind)
    requires GeomOK(g) && MetaShape(g, m) && grp < g.groups && c < U16 && n < U32
    requires Stepped(g, m, r, kind, grp, bitmap, c, n) && Counted(g, m, k)
    requires c == CountClear(bitmap, BitsOf(g, kind, grp))
    requires n == Get32(m.sb, SbOff(kind)) - Half(m.gds[grp], GdOff(kind)) + c
    ensures Counted(g, r, k)
  {
    StepFields(g, m, r, kind, grp, bitmap, c, n, k);
    SumUpdate(m.gds, GdOff(k), grp, r.gds[grp], g.groups);
    forall x: nat | x < g.groups
      ensures Half(r.gds[x], GdOff(k)) == CountClear(r.disk[BitmapOf(g, k, x)], BitsOf(g, k, x))
    {
      assert Half(m.gds[x], GdOff(k)) == CountClear(m.disk[BitmapOf(g, k, x)], BitsOf(g, k, x));
    }
  }

  lemma StepReserves(g: Geom, m: Meta, r: Meta, kind: Kind, grp: nat, bitmap: Buf, c: nat, n: nat)
    requires GeomOK(g) && MetaShape(g, m) && grp < g.groups && c < U16 && n < U32
    requires Stepped(g, m, r, kind, grp, bitmap, c, n) && MetaReserved(g, m.disk)
    requires kind.Blocks? ==> ReservesGroup(g, grp, bitmap)
    ensures MetaReserved(g, r.disk)
  {
    forall b: nat | InBitmap(g, b) && g.role[b] != Data ensures b in Used(g, r.disk) {
      GroupIndex(g, b);
      assert b in Used(g, m.disk);
    }
  }

  /** The bitmap keeps every metadata block of the group. */
  ghost predicate ReservesGroup(g: Geom, grp: nat, bitmap: Buf)
    requires SizesOK(g)
  {
    forall b: nat :: InBitmap(g, b) && GroupOf(g, b) == grp && g.role[b] != Data ==> BitSet(bitmap, IndexOf(g, b))
  }

  lemma CountMoved(sb: Buf, gd: Buf, kind: Kind, c: nat, n: nat)
    requires |sb| == SB_SIZE && |gd| == GD_SIZE && c < U16 && n < U32
    ensures SameSuper(sb, Put32(sb, SbOff(kind), n)) && SameDesc(gd, Put16(gd, GdOff(kind), c))
  {
  }

  /** Nothing but counts is written to superblock and descriptors. */
  lemma StepFrozen(g: Geom, m: Meta, r: Meta, kind: Kind, grp: nat, bitmap: Buf, c: nat, n: nat)
    requires GeomOK(g) && MetaShape(g, m) && grp < g.groups && c < U16 && n < U32 && Frozen(g, m)
    requires Stepped(g, m, r, kind, grp, bitmap, c, n)
    ensures Frozen(g, r)
  {
    hide Stepped, Put32, Put16;
    assert r.gds == m.gds[grp := Put16(m.gds[grp], GdOff(kind), c)] && r.sb == Put32(m.sb, SbOff(kind), n) by {
      StepStores(g, m, r, kind, grp, bitmap, c, n);
    }
    CountMoved(m.sb, m.gds[grp], kind, c, n);
    forall x | 0 <= x < |r.gds| ensures SameDesc(g.descs[x], r.gds[x]) { assert SameDesc(g.descs[x], m.gds[x]); }
  }

  lemma StepStores(g: Geom, m: Meta, r: Meta, kind: Kind, grp: nat, bitmap: Buf, c: nat, n: nat)
    requires GeomOK(g) && MetaShape(g, m) && grp < g.groups && c < U16 && n < U32
    requires Stepped(g, m, r, kind, grp, bitmap, c, n)
    ensures r.gds == m.gds[grp := Put16(m.gds[grp], GdOff(kind), c)] && r.sb == Put32(m.sb, SbOff(kind), n)
  {
  }

  /** One allocator step keeps the whole metadata invariant. */
  lemma StepKeeps(g: Geom, m: Meta, r: Meta, kind: Kind, grp: nat, bitmap: Buf, c: nat, n: nat)
    requires MetaOK(g, m) && grp < g.groups && c < U16 && n < U32
    requires Stepped(g, m, r, kind, grp, bitmap, c, n)
    requires c == CountClear(bitmap, BitsOf(g, kind, grp))
    requires n == Get32(m.sb, SbOff(kind)) - Half(m.gds[grp], GdOff(kind)) + c
    requires kind.Blocks? ==> ReservesGroup(g, grp, bitmap)
    ensures MetaOK(g, r)
  {
    assert Counted(g, r, Blocks) by { StepCounts(g, m, r, kind, grp, bitmap, c, n, Blocks); }
    assert Counted(g, r, Inodes) by { StepCounts(g, m, r, kind, grp, bitmap, c, n, Inodes); }
    assert MetaReserved(g, r.disk) by { StepReserves(g, m, r, kind, grp, bitmap, c, n); }
    assert Frozen(g, r) by { StepFrozen(g, m, r, kind, grp, bitmap, c, n); }
  }

  lemma {:induction false} SumBelow(gds: seq<Buf>, o: nat, w: nat, k: nat)
    requires k <= |gds| && forall j :: 0 <= j < k ==> Half(gds[j], o) <= w
    ensures SumTo(gds, o, k) <= Times(k, w)
  {
    if k > 0 { SumBelow(gds, o, w, k - 1); }
  }

  /** The superblock's counters fit 32 bits because they count bits of the volume. */
  lemma SumBound(g: Geom, m: Meta, kind: Kind)
    requires GeomOK(g) && MetaShape(g, m)
    requires forall grp :: 0 <= grp < g.groups ==>
               Half(m.gds[grp], GdOff(kind)) == CountClear(m.disk[BitmapOf(g, kind, grp)], BitsOf(g, kind, grp))
    ensures SumField(m.gds, GdOff(kind)) < U32
  {
    var n := g.groups - 1;
    var w := if kind.Blocks? then g.bpg else g.ipg;
    SumBelow(m.gds, GdOff(kind), w, n);
  }

  // ----- the sets of taken blocks and inodes -----

  lemma StepUsed(g: Geom, m: Meta, r: Meta, grp: nat, i: nat, bitmap: Buf, c: nat, n: nat)
    requires GeomOK(g) && MetaShape(g, m) && grp < g.groups && c < U16 && n < U32 && i < BitsIn(g, grp)
    requires Stepped(g, m, r, Blocks, grp, bitmap, c, n)
    ensures bitmap == SetBit(m.disk[g.bbm[grp]], i) ==> Used(g, r.disk) == Used(g, m.disk) + {BlockNo(g, grp, i)}
    ensures bitmap == ClearBit(m.disk[g.bbm[grp]], i) ==> Used(g, r.disk) == Used(g, m.disk) - {BlockNo(g, grp, i)}
    ensures UsedInodes(g, r.disk) == UsedInodes(g, m.disk)
  {
    var b := BlockNo(g, grp, i);
    BlockNoInRange(g, grp, i);
    forall x: nat | InBitmap(g, x)
      ensures bitmap == SetBit(m.disk[g.bbm[grp]], i) ==> BlockUsed(g, r.disk, x) == (x == b || BlockUsed(g, m.disk, x))
      ensures bitmap == ClearBit(m.disk[g.bbm[grp]], i) ==>
        BlockUsed(g, r.disk, x) == (x != b && BlockUsed(g, m.disk, x))
    {
      GroupIndex(g, x);
    }
    forall x: nat | IsIno(g, x) ensures InodeUsed(g, r.disk, x) == InodeUsed(g, m.disk, x) {
      InoGroupIndex(g, x);
    }
  }

  lemma StepUsedInodes(g: Geom, m: Meta, r: Meta, grp: nat, i: nat, bitmap: Buf, c: nat, n: nat)
    requires GeomOK(g) && MetaShape(g, m) && grp < g.groups && c < U16 && n < U32 && i < g.ipg
    requires Stepped(g, m, r, Inodes, grp, bitmap, c, n)
    ensures bitmap == SetBit(m.disk[g.ibm[grp]], i) ==>
      UsedInodes(g, r.disk) == UsedInodes(g, m.disk) + {InoNo(g, grp, i)}
    ensures bitmap == ClearBit(m.disk[g.ibm[grp]], i) ==>
      UsedInodes(g, r.disk) == UsedInodes(g, m.disk) - {InoNo(g, grp, i)}
    ensures Used(g, r.disk) == Used(g, m.disk)
  {
    var ino := InoNo(g, grp, i);
    InoInRange(g, grp, i);
    forall x: nat | IsIno(g, x)
      ensures bitmap == SetBit(m.disk[g.ibm[grp]], i) ==>
        InodeUsed(g, r.disk, x) == (x == ino || InodeUsed(g, m.disk, x))
      ensures bitmap == ClearBit(m.disk[g.ibm[grp]], i) ==>
        InodeUsed(g, r.disk, x) == (x != ino && InodeUsed(g, m.disk, x))
    {
      InoGroupIndex(g, x);
    }
    forall x: nat | InBitmap(g, x) ensures BlockUsed(g, r.disk, x) == BlockUsed(g, m.disk, x) {
      GroupIndex(g, x);
    }
  }
}
