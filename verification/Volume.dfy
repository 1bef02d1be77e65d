/** The mounted volume (ext2_fs_data_t and its device) and its two bitmap allocators. */
module Volume {
  import opened Words
  import opened Bytes
  import opened BlockTree
  import opened Layout
  import opened Metadata
  import opened Arith

  class Vol {
    const g: Geom
    var disk: seq<Block>   // the device
    var sb: Buf            // fs->sb
    var gds: seq<Buf>      // fs->group_desc
    ghost var raws: map<nat, RawInode>  // the inode records now in force
    ghost var owner: map<nat, Slot>     // who holds each block of file data or indirection

    constructor (g: Geom, disk: seq<Block>, sb: Buf, gds: seq<Buf>)
      ensures this.g == g && this.disk == disk && this.sb == sb && this.gds == gds
    {
      this.g, this.disk, this.sb, this.gds := g, disk, sb, gds;
    }

    ghost function M(): Meta
      reads this
    { Meta(disk, sb, gds) }
  }

  /** What a bitmap allocator may touch: its bitmap, the descriptors, the superblock. */
  ghost predicate OnlyMeta(g: Geom, kind: Kind, disk: seq<Block>, disk': seq<Block>)
  {
    && |disk'| == |disk| == |g.role|
    && forall b :: 0 <= b < |disk| && !g.role[b].Super? && !g.role[b].Gdt?
         && !(if kind.Blocks? then g.role[b].BlockBitmap? else g.role[b].InodeBitmap?)
         ==> disk'[b] == disk[b]
  }

  method FlushSuperblock(vol: Vol)
    requires GeomOK(vol.g) && MetaShape(vol.g, vol.M())
    modifies vol`disk
    ensures vol.disk == FlushSuper(vol.g, old(vol.disk), vol.sb)
  {
    if vol.g.bs == 1024 {
      vol.disk := vol.disk[1 := vol.sb];
    } else {
      var buf := vol.disk[0];
      buf := Splice(buf, 1024, vol.sb);
      vol.disk := vol.disk[0 := buf];
    }
  }

  method FlushGroupDesc(vol: Vol, grp: nat)
    requires GeomOK(vol.g) && MetaShape(vol.g, vol.M()) && grp < vol.g.groups
    modifies vol`disk
    ensures vol.disk == FlushDesc(vol.g, old(vol.disk), grp, vol.gds[grp])
  {
    var perBlock := vol.g.bs / GD_SIZE;
    var blk := vol.g.first + 1 + Quot(grp, perBlock);
    assert blk == DescBlock(vol.g, grp);
    var buf := vol.disk[blk];
    DescFits(vol.g, grp);
    buf := Splice(buf, Rem(grp, perBlock) * GD_SIZE, vol.gds[grp]);
    vol.disk := vol.disk[blk := buf];
  }

  /** The first clear bit among the first n, or n when all are set. */
  method FirstClear(bitmap: Buf, n: nat) returns (i: nat)
    requires n <= 8 * |bitmap|
    ensures i <= n
    ensures i < n ==> !BitSet(bitmap, i)
    ensures forall j: nat :: j < i ==> BitSet(bitmap, j)
    ensures i == n ==> CountClear(bitmap, n) == 0
  {
    i := 0;
    while i < n && BitSet(bitmap, i)
      invariant i <= n
      invariant forall j: nat :: j < i ==> BitSet(bitmap, j)
    {
      i := i + 1;
    }
    CountZero(bitmap, n);
  }

  /** Shared tail of the two allocators and the two deallocators: store the bitmap, move
      both counters by one, flush. */
  method StoreBitmap(vol: Vol, kind: Kind, grp: nat, bitmap: Buf, c: nat, n: nat)
    requires GeomOK(vol.g) && MetaShape(vol.g, vol.M())
    requires grp < vol.g.groups && |bitmap| == vol.g.bs && c < U16 && n < U32
    modifies vol`disk, vol`sb, vol`gds
    ensures Stepped(vol.g, old(vol.M()), vol.M(), kind, grp, bitmap, c, n)
  {
    FlushSteps(vol.g, vol.M(), kind, grp, bitmap, c, n);
    vol.disk := vol.disk[BitmapOf(vol.g, kind, grp) := bitmap];
    vol.gds := vol.gds[grp := Put16(vol.gds[grp], GdOff(kind), c)];
    vol.sb := Put32(vol.sb, SbOff(kind), n);
    FlushGroupDesc(vol, grp);
    FlushSuperblock(vol);
  }

  /** When the superblock or a group counts no free bit, there is none. */
  lemma NoneFree(g: Geom, m: Meta, kind: Kind, grp: nat)
    requires GeomOK(g) && MetaShape(g, m) && Counted(g, m, kind) && grp < g.groups
    requires Get32(m.sb, SbOff(kind)) == 0 || Half(m.gds[grp], GdOff(kind)) == 0
    ensures CountClear(m.disk[BitmapOf(g, kind, grp)], BitsOf(g, kind, grp)) == 0
  {
    SumAtLeast(m.gds, GdOff(kind), grp, g.groups);
  }

  lemma TakeCounts(g: Geom, m: Meta, kind: Kind, grp: nat, i: nat)
    requires GeomOK(g) && MetaShape(g, m) && Counted(g, m, kind)
    requires grp < g.groups && i < BitsOf(g, kind, grp)
    requires !BitSet(m.disk[BitmapOf(g, kind, grp)], i)
    ensures var c := Half(m.gds[grp], GdOff(kind));
      && 0 < c <= Get32(m.sb, SbOff(kind))
      && c - 1 == CountClear(SetBit(m.disk[BitmapOf(g, kind, grp)], i), BitsOf(g, kind, grp))
  {
    var was := m.disk[BitmapOf(g, kind, grp)];
    CountFlip(was, SetBit(was, i), BitsOf(g, kind, grp), i);
    SumAtLeast(m.gds, GdOff(kind), grp, g.groups);
  }

  lemma TakeReserved(g: Geom, m: Meta, grp: nat, i: nat)
    requires GeomOK(g) && MetaShape(g, m) && MetaReserved(g, m.disk)
    requires grp < g.groups && i < BitsIn(g, grp)
    ensures ReservesGroup(g, grp, SetBit(m.disk[g.bbm[grp]], i))
  {
    forall b: nat | InBitmap(g, b) && GroupOf(g, b) == grp && g.role[b] != Data
      ensures BitSet(SetBit(m.disk[g.bbm[grp]], i), IndexOf(g, b))
    {
      GroupIndex(g, b);
      assert b in Used(g, m.disk);
    }
  }

  /** Taking bit i of group grp keeps the metadata invariant. */
  lemma TakeStep(g: Geom, m: Meta, r: Meta, kind: Kind, grp: nat, i: nat, c: nat, n: nat)
    requires MetaOK(g, m) && grp < g.groups && i < BitsOf(g, kind, grp)
    requires !BitSet(m.disk[BitmapOf(g, kind, grp)], i)
    requires c == Half(m.gds[grp], GdOff(kind)) - 1 && n == Get32(m.sb, SbOff(kind)) - 1
    requires Stepped(g, m, r, kind, grp, SetBit(m.disk[BitmapOf(g, kind, grp)], i), c, n)
    ensures MetaOK(g, r)
  {
    var bitmap := SetBit(m.disk[BitmapOf(g, kind, grp)], i);
    TakeCounts(g, m, kind, grp, i);
    if kind.Blocks? { TakeReserved(g, m, grp, i); }
    StepKeeps(g, m, r, kind, grp, bitmap, c, n);
  }

  lemma GiveCounts(g: Geom, m: Meta, kind: Kind, grp: nat, i: nat)
    requires GeomOK(g) && MetaShape(g, m) && Counted(g, m, kind)
    requires grp < g.groups && i < BitsOf(g, kind, grp)
    requires BitSet(m.disk[BitmapOf(g, kind, grp)], i)
    ensures var c := Half(m.gds[grp], GdOff(kind));
      && c + 1 < U16 && Get32(m.sb, SbOff(kind)) + 1 < U32
      && c + 1 == CountClear(ClearBit(m.disk[BitmapOf(g, kind, grp)], i), BitsOf(g, kind, grp))
  {
    hide CountClear, ClearBit, SumTo;
    var k := BitmapOf(g, kind, grp);
    var bitmap := ClearBit(m.disk[k], i);
    CountFlip(bitmap, m.disk[k], BitsOf(g, kind, grp), i);
    var gd := Put16(m.gds[grp], GdOff(kind), Half(m.gds[grp], GdOff(kind)) + 1);
    var m' := Meta(m.disk[k := bitmap], m.sb, m.gds[grp := gd]);
    SumUpdate(m.gds, GdOff(kind), grp, gd, g.groups);
    SumBound(g, m', kind);
  }

  lemma GiveReserved(g: Geom, m: Meta, grp: nat, i: nat)
    requires GeomOK(g) && MetaShape(g, m) && MetaReserved(g, m.disk)
    requires grp < g.groups && i < BitsIn(g, grp) && BlockNo(g, grp, i) < g.blocks && g.role[BlockNo(g, grp, i)] == Data
    ensures ReservesGroup(g, grp, ClearBit(m.disk[g.bbm[grp]], i))
  {
    forall b: nat | InBitmap(g, b) && GroupOf(g, b) == grp && g.role[b] != Data
      ensures BitSet(ClearBit(m.disk[g.bbm[grp]], i), IndexOf(g, b))
    {
      GroupIndex(g, b);
      assert b in Used(g, m.disk);
    }
  }

  /** Giving bit i of group grp back keeps the metadata invariant. */
  lemma GiveStep(g: Geom, m: Meta, r: Meta, kind: Kind, grp: nat, i: nat, c: nat, n: nat)
    requires MetaOK(g, m) && grp < g.groups && i < BitsOf(g, kind, grp)
    requires BitSet(m.disk[BitmapOf(g, kind, grp)], i)
    requires kind.Blocks? ==> BlockNo(g, grp, i) < g.blocks && g.role[BlockNo(g, grp, i)] == Data
    requires c < U16 && n < U32
    requires c == Half(m.gds[grp], GdOff(kind)) + 1 && n == Get32(m.sb, SbOff(kind)) + 1
    requires Stepped(g, m, r, kind, grp, ClearBit(m.disk[BitmapOf(g, kind, grp)], i), c, n)
    ensures MetaOK(g, r)
  {
    var bitmap := ClearBit(m.disk[BitmapOf(g, kind, grp)], i);
    GiveCounts(g, m, kind, grp, i);
    if kind.Blocks? { GiveReserved(g, m, grp, i); }
    StepKeeps(g, m, r, kind, grp, bitmap, c, n);
  }

  // ----- the allocators -----

  /** The effect of taking block b: it was free, now it is used, and nothing else moved. */
  ghost predicate TookBlock(g: Geom, m: Meta, r: Meta, b: nat)
  {
    && OnlyMeta(g, Blocks, m.disk, r.disk)
    && InBitmap(g, b) && b < |g.role| && g.role[b] == Data
    && b !in Used(g, m.disk) && Used(g, r.disk) == Used(g, m.disk) + {b}
    && UsedInodes(g, r.disk) == UsedInodes(g, m.disk)
    && FreeBlocksOf(r) == FreeBlocksOf(m) - 1
    && FreeInodesOf(r) == FreeInodesOf(m) && DirCounts(r) == DirCounts(m)
  }

  ghost predicate GaveBlock(g: Geom, m: Meta, r: Meta, b: nat)
  {
    && OnlyMeta(g, Blocks, m.disk, r.disk)
    && InBitmap(g, b)
    && Used(g, r.disk) == Used(g, m.disk) - {b}
    && UsedInodes(g, r.disk) == UsedInodes(g, m.disk)
    && FreeBlocksOf(r) == FreeBlocksOf(m) + 1
    && FreeInodesOf(r) == FreeInodesOf(m) && DirCounts(r) == DirCounts(m)
  }

  lemma BitOfBlock(g: Geom, m: Meta, b: nat)
    requires GeomOK(g) && MetaShape(g, m) && InBitmap(g, b)
    ensures var grp, i := GroupOf(g, b), IndexOf(g, b);
      grp < g.groups && i < BitsIn(g, grp) && BlockNo(g, grp, i) == b
      && (b in Used(g, m.disk) <==> BitSet(m.disk[g.bbm[grp]], i))
  {
    GroupIndex(g, b);
  }

  lemma TakeBlock(g: Geom, m: Meta, r: Meta, grp: nat, i: nat, c: nat, n: nat)
    requires MetaOK(g, m) && grp < g.groups && i < BitsIn(g, grp) && !BitSet(m.disk[g.bbm[grp]], i)
    requires c == Half(m.gds[grp], GD_FREE_BLOCKS) - 1 && n == Get32(m.sb, SB_FREE_BLOCKS) - 1
    requires Stepped(g, m, r, Blocks, grp, SetBit(m.disk[g.bbm[grp]], i), c, n)
    ensures MetaOK(g, r) && TookBlock(g, m, r, BlockNo(g, grp, i))
  {
    hide Counted, WrittenThrough, ClearBit, SetBit;
    var bitmap := SetBit(m.disk[g.bbm[grp]], i);
    var b := BlockNo(g, grp, i);
    BlockNoInRange(g, grp, i);
    BitOfBlock(g, m, b);
    assert !BlockUsed(g, m.disk, b);
    assert MetaOK(g, r) by { TakeStep(g, m, r, Blocks, grp, i, c, n); }
    StepUsed(g, m, r, grp, i, bitmap, c, n);
    StepFields(g, m, r, Blocks, grp, bitmap, c, n, Inodes);
  }

  lemma GiveBlock(g: Geom, m: Meta, r: Meta, b: nat, c: nat, n: nat)
    requires MetaOK(g, m) && InBitmap(g, b) && g.role[b] == Data && b in Used(g, m.disk)
    requires GroupOf(g, b) < g.groups && IndexOf(g, b) < g.bpg
    requires c < U16 && n < U32
    requires c == Half(m.gds[GroupOf(g, b)], GD_FREE_BLOCKS) + 1 && n == Get32(m.sb, SB_FREE_BLOCKS) + 1
    requires Stepped(g, m, r, Blocks, GroupOf(g, b), ClearBit(m.disk[g.bbm[GroupOf(g, b)]], IndexOf(g, b)), c, n)
    ensures MetaOK(g, r) && GaveBlock(g, m, r, b)
  {
    hide Counted, WrittenThrough, MetaReserved, ClearBit, SetBit;
    var grp, i := GroupOf(g, b), IndexOf(g, b);
    var bitmap := ClearBit(m.disk[g.bbm[grp]], i);
    BitOfBlock(g, m, b);
    GiveStep(g, m, r, Blocks, grp, i, c, n);
    StepUsed(g, m, r, grp, i, bitmap, c, n);
    StepFields(g, m, r, Blocks, grp, bitmap, c, n, Inodes);
  }

  /** No clear in-range bit of this kind is left in groups below upTo. */
  ghost predicate FullBelow(g: Geom, m: Meta, kind: Kind, upTo: nat)
    requires GeomOK(g) && MetaShape(g, m)
  {
    forall grp :: 0 <= grp < upTo && grp < g.groups ==>
      CountClear(m.disk[BitmapOf(g, kind, grp)], BitsOf(g, kind, grp)) == 0
  }

  lemma NoneLeft(g: Geom, m: Meta, kind: Kind)
    requires GeomOK(g) && MetaShape(g, m) && Counted(g, m, kind) && Get32(m.sb, SbOff(kind)) == 0
    ensures FullBelow(g, m, kind, g.groups)
  {
    forall x: nat | x < g.groups ensures CountClear(m.disk[BitmapOf(g, kind, x)], BitsOf(g, kind, x)) == 0 {
      NoneFree(g, m, kind, x);
    }
  }

  /** The scan both allocators start with: the first group and bit that are free. */
  method FindFree(vol: Vol, kind: Kind) returns (grp: nat, i: nat)
    requires GeomOK(vol.g) && MetaShape(vol.g, vol.M()) && Counted(vol.g, vol.M(), kind)
    ensures grp <= vol.g.groups && FullBelow(vol.g, vol.M(), kind, grp)
    ensures grp < vol.g.groups ==> i < BitsOf(vol.g, kind, grp) && !BitSet(vol.disk[BitmapOf(vol.g, kind, grp)], i)
    ensures grp < vol.g.groups ==> forall j: nat :: j < i ==> BitSet(vol.disk[BitmapOf(vol.g, kind, grp)], j)
  {
    var g := vol.g;
    i := 0;
    if Get32(vol.sb, SbOff(kind)) == 0 {
      NoneLeft(g, vol.M(), kind);
      return g.groups, 0;
    }
    grp := 0;
    while grp < g.groups
      invariant grp <= g.groups
      invariant FullBelow(g, vol.M(), kind, grp)
    {
      if Get16(vol.gds[grp], GdOff(kind)) != 0 {
        var bits := BitsOf(g, kind, grp);
        i := FirstClear(vol.disk[BitmapOf(g, kind, grp)], bits);
        if i < bits { return; }
      }
      grp := grp + 1;
    }
  }

  lemma NoBlockLeft(g: Geom, m: Meta, b: nat)
    requires GeomOK(g) && MetaShape(g, m) && FullBelow(g, m, Blocks, g.groups) && InBitmap(g, b)
    ensures b in Used(g, m.disk)
  {
    BitOfBlock(g, m, b);
    var grp := GroupOf(g, b);
    assert CountClear(m.disk[BitmapOf(g, Blocks, grp)], BitsOf(g, Blocks, grp)) == 0;
    CountZero(m.disk[g.bbm[grp]], BitsIn(g, grp));
  }

  lemma NoInodeLeft(g: Geom, m: Meta, ino: nat)
    requires GeomOK(g) && MetaShape(g, m) && FullBelow(g, m, Inodes, g.groups) && IsIno(g, ino)
    ensures ino in UsedInodes(g, m.disk)
  {
    InoGroupIndex(g, ino);
    var grp := InoGroup(g, ino);
    assert CountClear(m.disk[BitmapOf(g, Inodes, grp)], BitsOf(g, Inodes, grp)) == 0;
    CountZero(m.disk[g.ibm[grp]], g.ipg);
  }

  ghost predicate NoSpace(g: Geom, m: Meta)
  {
    FreeBlocksOf(m) == 0 && forall x: nat :: InBitmap(g, x) ==> x in Used(g, m.disk)
  }

  lemma {:induction false} SumOfFull(g: Geom, m: Meta, kind: Kind, k: nat)
    requires GeomOK(g) && MetaShape(g, m) && Counted(g, m, kind) && FullBelow(g, m, kind, g.groups) && k <= g.groups
    ensures SumTo(m.gds, GdOff(kind), k) == 0
  {
    if k > 0 {
      SumOfFull(g, m, kind, k - 1);
      assert CountClear(m.disk[BitmapOf(g, kind, k - 1)], BitsOf(g, kind, k - 1)) == 0;
    }
  }

  /** Every block below b is in use, and every inode below ino. */
  ghost predicate LowestBlock(g: Geom, disk: seq<Block>, b: nat)
  {
    forall x: nat :: InBitmap(g, x) && x < b ==> x in Used(g, disk)
  }

  ghost predicate LowestInode(g: Geom, disk: seq<Block>, ino: nat)
  {
    forall x: nat :: IsIno(g, x) && x < ino ==> x in UsedInodes(g, disk)
  }

  lemma BlocksBelowUsed(g: Geom, m: Meta, grp: nat, i: nat, x: nat)
    requires GeomOK(g) && MetaShape(g, m) && grp < g.groups && i < BitsIn(g, grp) && FullBelow(g, m, Blocks, grp)
    requires forall j: nat :: j < i ==> BitSet(m.disk[g.bbm[grp]], j)
    requires InBitmap(g, x) && x < BlockNo(g, grp, i)
    ensures x in Used(g, m.disk)
  {
    BitOfBlock(g, m, x);
    var h := GroupOf(g, x);
    if h < grp {
      assert CountClear(m.disk[BitmapOf(g, Blocks, h)], BitsOf(g, Blocks, h)) == 0;
      CountZero(m.disk[g.bbm[h]], BitsIn(g, h));
    } else if grp < h {
      TimesLess(grp, h, g.bpg);
    }
  }

  lemma InodesBelowUsed(g: Geom, m: Meta, grp: nat, i: nat, x: nat)
    requires GeomOK(g) && MetaShape(g, m) && grp < g.groups && i < g.ipg && FullBelow(g, m, Inodes, grp)
    requires forall j: nat :: j < i ==> BitSet(m.disk[g.ibm[grp]], j)
    requires IsIno(g, x) && x < InoNo(g, grp, i)
    ensures x in UsedInodes(g, m.disk)
  {
    BitOfInode(g, m, x);
    var h := InoGroup(g, x);
    if h < grp {
      assert CountClear(m.disk[BitmapOf(g, Inodes, h)], BitsOf(g, Inodes, h)) == 0;
      CountZero(m.disk[g.ibm[h]], g.ipg);
    } else if grp < h {
      TimesLess(grp, h, g.ipg);
    }
  }

  lemma AllTaken(g: Geom, m: Meta)
    requires MetaOK(g, m) && FullBelow(g, m, Blocks, g.groups)
    ensures NoSpace(g, m)
  {
    forall x: nat | InBitmap(g, x) ensures x in Used(g, m.disk) {
      NoBlockLeft(g, m, x);
    }
    SumOfFull(g, m, Blocks, g.groups);
  }

  lemma LowestFree(g: Geom, m: Meta, grp: nat, i: nat)
    requires MetaOK(g, m) && grp < g.groups && i < BitsIn(g, grp) && FullBelow(g, m, Blocks, grp)
    requires forall j: nat :: j < i ==> BitSet(m.disk[g.bbm[grp]], j)
    ensures LowestBlock(g, m.disk, BlockNo(g, grp, i))
  {
    forall x: nat | InBitmap(g, x) && x < BlockNo(g, grp, i) ensures x in Used(g, m.disk) {
      BlocksBelowUsed(g, m, grp, i, x);
    }
  }

  /** ext2_alloc_block: the lowest free block, or 0 exactly when none is left. */
  method AllocBlock(vol: Vol) returns (b: nat)
    requires MetaOK(vol.g, vol.M())
    modifies vol`disk, vol`sb, vol`gds
    ensures MetaOK(vol.g, vol.M())
    ensures b == 0 ==> vol.M() == old(vol.M()) && NoSpace(vol.g, vol.M())
    ensures b != 0 ==> TookBlock(vol.g, old(vol.M()), vol.M(), b) && LowestBlock(vol.g, old(vol.disk), b)
  {
    hide Used, UsedInodes, NoSpace, LowestBlock, Frozen, OnlyMeta, FullBelow, Stepped, WrittenThrough, CountClear;
    ghost var m := vol.M();
    var g := vol.g;
    var grp, i := FindFree(vol, Blocks);
    if grp == g.groups {
      AllTaken(g, m);
      return 0;
    }
    LowestFree(g, m, grp, i);
    TakeCounts(g, m, Blocks, grp, i);
    var c := Get16(vol.gds[grp], GD_FREE_BLOCKS) - 1;
    var n := Get32(vol.sb, SB_FREE_BLOCKS) - 1;
    StoreBitmap(vol, Blocks, grp, SetBit(vol.disk[g.bbm[grp]], i), c, n);
    TakeBlock(g, m, vol.M(), grp, i, c, n);
    b := g.first + Times(grp, g.bpg) + i;
  }

  /** Bit i of group grp of this kind is cleared and both counters go up by one, in 16 and 32
      bits, whatever the bit was; everything is written through. */
  ghost predicate Given(g: Geom, m: Meta, r: Meta, kind: Kind, grp: nat, i: nat)
  {
    && GeomOK(g) && MetaShape(g, m) && grp < g.groups && i < 8 * g.bs
    && Stepped(g, m, r, kind, grp, ClearBit(m.disk[BitmapOf(g, kind, grp)], i),
               Inc(Half(m.gds[grp], GdOff(kind)), U16), Inc(Get32(m.sb, SbOff(kind)), U32))
  }

  /** Giving back a bit that is clear already miscounts its group. */
  lemma GivenTwice(g: Geom, m: Meta, r: Meta, kind: Kind, grp: nat, i: nat)
    requires MetaOK(g, m) && Given(g, m, r, kind, grp, i) && i < BitsOf(g, kind, grp)
    requires !BitSet(m.disk[BitmapOf(g, kind, grp)], i)
    ensures !MetaOK(g, r)
  {
    var k := BitmapOf(g, kind, grp);
    var c := Inc(Half(m.gds[grp], GdOff(kind)), U16);
    CountSame(m.disk[k], ClearBit(m.disk[k], i), BitsOf(g, kind, grp));
    assert r.gds[grp] == Put16(m.gds[grp], GdOff(kind), c) && Half(r.gds[grp], GdOff(kind)) == c;
    assert r.disk[k] == ClearBit(m.disk[k], i);
  }

  /** Giving back a metadata block marks it free. */
  lemma GivenReserved(g: Geom, m: Meta, r: Meta, b: nat)
    requires MetaOK(g, m) && InBitmap(g, b) && Given(g, m, r, Blocks, GroupOf(g, b), IndexOf(g, b)) && g.role[b] != Data
    ensures !MetaOK(g, r)
  {
    BitOfBlock(g, r, b);
    assert !BitSet(r.disk[g.bbm[GroupOf(g, b)]], IndexOf(g, b));
  }

  /** ext2_free_block, of any block the bitmaps cover: the metadata stays sound exactly when the
      block was a data block in use. */
  method FreeBlock(vol: Vol, b: nat)
    requires MetaOK(vol.g, vol.M()) && InBitmap(vol.g, b)
    modifies vol`disk, vol`sb, vol`gds
    ensures Given(vol.g, old(vol.M()), vol.M(), Blocks, GroupOf(vol.g, b), IndexOf(vol.g, b))
    ensures MetaOK(vol.g, vol.M()) <==> vol.g.role[b] == Data && b in Used(vol.g, old(vol.disk))
    ensures vol.g.role[b] == Data && b in Used(vol.g, old(vol.disk)) ==> GaveBlock(vol.g, old(vol.M()), vol.M(), b)
  {
    ghost var m := vol.M();
    var g := vol.g;
    var rel := b - g.first;
    var grp := Quot(rel, g.bpg);
    var i := Rem(rel, g.bpg);
    assert grp == GroupOf(g, b) && i == IndexOf(g, b);
    BitOfBlock(g, m, b);
    var c := Inc(Get16(vol.gds[grp], GD_FREE_BLOCKS), U16);
    var n := Inc(Get32(vol.sb, SB_FREE_BLOCKS), U32);
    StoreBitmap(vol, Blocks, grp, ClearBit(vol.disk[g.bbm[grp]], i), c, n);
    GivenBlock(g, m, vol.M(), b);
  }

  lemma GivenBlock(g: Geom, m: Meta, r: Meta, b: nat)
    requires MetaOK(g, m) && InBitmap(g, b) && Given(g, m, r, Blocks, GroupOf(g, b), IndexOf(g, b))
    ensures MetaOK(g, r) <==> g.role[b] == Data && b in Used(g, m.disk)
    ensures g.role[b] == Data && b in Used(g, m.disk) ==> GaveBlock(g, m, r, b)
  {
    hide MetaOK, GaveBlock, GaveInode, Given, Used, UsedInodes, GeomOK, Counted, MetaShape, Stepped, BitSet;
    GivenShape(g, m, r, Blocks, GroupOf(g, b), IndexOf(g, b));
    BitOfBlock(g, m, b);
    if g.role[b] != Data {
      GivenReserved(g, m, r, b);
    } else if b !in Used(g, m.disk) {
      GivenTwice(g, m, r, Blocks, GroupOf(g, b), IndexOf(g, b));
    } else {
      GivenIsStep(g, m, r, Blocks, GroupOf(g, b), IndexOf(g, b));
      GiveBlock(g, m, r, b, Half(m.gds[GroupOf(g, b)], GD_FREE_BLOCKS) + 1, Get32(m.sb, SB_FREE_BLOCKS) + 1);
    }
  }

  lemma GivenShape(g: Geom, m: Meta, r: Meta, kind: Kind, grp: nat, i: nat)
    requires MetaOK(g, m) && Given(g, m, r, kind, grp, i)
    ensures GeomOK(g) && SizesOK(g) && MetaShape(g, m) && |g.role| == g.blocks && Counted(g, m, kind)
  {
  }

  /** No counter wraps when the bit was set. */
  lemma GivenIsStep(g: Geom, m: Meta, r: Meta, kind: Kind, grp: nat, i: nat)
    requires GeomOK(g) && MetaShape(g, m) && Counted(g, m, kind) && Given(g, m, r, kind, grp, i)
    requires i < BitsOf(g, kind, grp)
    requires BitSet(m.disk[BitmapOf(g, kind, grp)], i)
    ensures var c := Half(m.gds[grp], GdOff(kind)) + 1; var n := Get32(m.sb, SbOff(kind)) + 1;
      c < U16 && n < U32 && Stepped(g, m, r, kind, grp, ClearBit(m.disk[BitmapOf(g, kind, grp)], i), c, n)
  {
    hide Counted, Stepped, ClearBit;
    GiveCounts(g, m, kind, grp, i);
  }

  ghost predicate TookInode(g: Geom, m: Meta, r: Meta, ino: nat)
  {
    && OnlyMeta(g, Inodes, m.disk, r.disk)
    && IsIno(g, ino)
    && ino !in UsedInodes(g, m.disk) && UsedInodes(g, r.disk) == UsedInodes(g, m.disk) + {ino}
    && Used(g, r.disk) == Used(g, m.disk)
    && FreeInodesOf(r) == FreeInodesOf(m) - 1 && DirCounts(r) == DirCounts(m)
    && FreeBlocksOf(r) == FreeBlocksOf(m)
  }

  ghost predicate GaveInode(g: Geom, m: Meta, r: Meta, ino: nat)
  {
    && OnlyMeta(g, Inodes, m.disk, r.disk)
    && UsedInodes(g, r.disk) == UsedInodes(g, m.disk) - {ino}
    && Used(g, r.disk) == Used(g, m.disk)
    && FreeInodesOf(r) == FreeInodesOf(m) + 1 && DirCounts(r) == DirCounts(m)
    && FreeBlocksOf(r) == FreeBlocksOf(m)
  }

  lemma BitOfInode(g: Geom, m: Meta, ino: nat)
    requires GeomOK(g) && MetaShape(g, m) && IsIno(g, ino)
    ensures var grp, i := InoGroup(g, ino), InoIndex(g, ino);
      grp < g.groups && i < g.ipg && InoNo(g, grp, i) == ino
      && (ino in UsedInodes(g, m.disk) <==> BitSet(m.disk[g.ibm[grp]], i))
  {
    InoGroupIndex(g, ino);
  }

  lemma TakeInode(g: Geom, m: Meta, r: Meta, grp: nat, i: nat, c: nat, n: nat)
    requires MetaOK(g, m) && grp < g.groups && i < g.ipg && !BitSet(m.disk[g.ibm[grp]], i)
    requires c == Half(m.gds[grp], GD_FREE_INODES) - 1 && n == Get32(m.sb, SB_FREE_INODES) - 1
    requires Stepped(g, m, r, Inodes, grp, SetBit(m.disk[g.ibm[grp]], i), c, n)
    ensures MetaOK(g, r) && TookInode(g, m, r, InoNo(g, grp, i))
  {
    hide Counted, WrittenThrough, MetaReserved, ClearBit, SetBit;
    var bitmap := SetBit(m.disk[g.ibm[grp]], i);
    InoInRange(g, grp, i);
    BitOfInode(g, m, InoNo(g, grp, i));
    assert MetaOK(g, r) by { TakeStep(g, m, r, Inodes, grp, i, c, n); }
    StepUsedInodes(g, m, r, grp, i, bitmap, c, n);
    StepFields(g, m, r, Inodes, grp, bitmap, c, n, Blocks);
  }

  lemma GiveInode(g: Geom, m: Meta, r: Meta, ino: nat, c: nat, n: nat)
    requires MetaOK(g, m) && IsIno(g, ino) && ino in UsedInodes(g, m.disk)
    requires InoGroup(g, ino) < g.groups && InoIndex(g, ino) < g.ipg
    requires c < U16 && n < U32
    requires c == Half(m.gds[InoGroup(g, ino)], GD_FREE_INODES) + 1 && n == Get32(m.sb, SB_FREE_INODES) + 1
    requires Stepped(g, m, r, Inodes, InoGroup(g, ino),
                     ClearBit(m.disk[g.ibm[InoGroup(g, ino)]], InoIndex(g, ino)), c, n)
    ensures MetaOK(g, r) && GaveInode(g, m, r, ino)
  {
    hide Counted, WrittenThrough, MetaReserved, ClearBit, SetBit;
    var grp, i := InoGroup(g, ino), InoIndex(g, ino);
    var bitmap := ClearBit(m.disk[g.ibm[grp]], i);
    BitOfInode(g, m, ino);
    GiveStep(g, m, r, Inodes, grp, i, c, n);
    StepUsedInodes(g, m, r, grp, i, bitmap, c, n);
    StepFields(g, m, r, Inodes, grp, bitmap, c, n, Blocks);
  }

  /** ext2_alloc_inode: the lowest free inode number, or 0 exactly when none is left. */
  method AllocInode(vol: Vol) returns (ino: nat)
    requires MetaOK(vol.g, vol.M())
    modifies vol`disk, vol`sb, vol`gds
    ensures MetaOK(vol.g, vol.M())
    ensures ino == 0 ==>
      vol.M() == old(vol.M()) && forall x: nat :: IsIno(vol.g, x) ==> x in UsedInodes(vol.g, vol.disk)
    ensures ino != 0 ==> TookInode(vol.g, old(vol.M()), vol.M(), ino) && LowestInode(vol.g, old(vol.disk), ino)
  {
    ghost var m := vol.M();
    var g := vol.g;
    var grp, i := FindFree(vol, Inodes);
    if grp == g.groups {
      forall x: nat | IsIno(g, x) ensures x in UsedInodes(g, m.disk) {
        NoInodeLeft(g, m, x);
      }
      return 0;
    }
    forall x: nat | IsIno(g, x) && x < InoNo(g, grp, i) ensures x in UsedInodes(g, m.disk) {
      InodesBelowUsed(g, m, grp, i, x);
    }
    TakeCounts(g, m, Inodes, grp, i);
    var c := Get16(vol.gds[grp], GD_FREE_INODES) - 1;
    var n := Get32(vol.sb, SB_FREE_INODES) - 1;
    StoreBitmap(vol, Inodes, grp, SetBit(vol.disk[g.ibm[grp]], i), c, n);
    TakeInode(g, m, vol.M(), grp, i, c, n);
    ino := Times(grp, g.ipg) + i + 1;
    assert ino == InoNo(g, grp, i);
  }

  /** ext2_free_inode, of any inode number: the metadata stays sound exactly when it was in use. */
  method FreeInode(vol: Vol, ino: nat)
    requires MetaOK(vol.g, vol.M()) && IsIno(vol.g, ino)
    modifies vol`disk, vol`sb, vol`gds
    ensures Given(vol.g, old(vol.M()), vol.M(), Inodes, InoGroup(vol.g, ino), InoIndex(vol.g, ino))
    ensures MetaOK(vol.g, vol.M()) <==> ino in UsedInodes(vol.g, old(vol.disk))
    ensures ino in UsedInodes(vol.g, old(vol.disk)) ==> GaveInode(vol.g, old(vol.M()), vol.M(), ino)
  {
    ghost var m := vol.M();
    var g := vol.g;
    var grp := Quot(ino - 1, g.ipg);
    var i := Rem(ino - 1, g.ipg);
    assert grp == InoGroup(g, ino) && i == InoIndex(g, ino);
    BitOfInode(g, m, ino);
    var c := Inc(Get16(vol.gds[grp], GD_FREE_INODES), U16);
    var n := Inc(Get32(vol.sb, SB_FREE_INODES), U32);
    StoreBitmap(vol, Inodes, grp, ClearBit(vol.disk[g.ibm[grp]], i), c, n);
    GivenInode(g, m, vol.M(), ino);
  }

  lemma GivenInode(g: Geom, m: Meta, r: Meta, ino: nat)
    requires MetaOK(g, m) && IsIno(g, ino) && Given(g, m, r, Inodes, InoGroup(g, ino), InoIndex(g, ino))
    ensures MetaOK(g, r) <==> ino in UsedInodes(g, m.disk)
    ensures ino in UsedInodes(g, m.disk) ==> GaveInode(g, m, r, ino)
  {
    hide MetaOK, GaveBlock, GaveInode, Given, Used, UsedInodes, GeomOK, Counted, MetaShape, Stepped, BitSet;
    GivenShape(g, m, r, Inodes, InoGroup(g, ino), InoIndex(g, ino));
    BitOfInode(g, m, ino);
    if ino !in UsedInodes(g, m.disk) {
      GivenTwice(g, m, r, Inodes, InoGroup(g, ino), InoIndex(g, ino));
    } else {
      GivenIsStep(g, m, r, Inodes, InoGroup(g, ino), InoIndex(g, ino));
      GiveInode(g, m, r, ino, Half(m.gds[InoGroup(g, ino)], GD_FREE_INODES) + 1, Get32(m.sb, SB_FREE_INODES) + 1);
    }
  }

  // ----- free undoes alloc -----

  /** The books agree: the same blocks and inodes in use, the same counts at both levels, and
      every block outside the allocator's own as before. */
  ghost predicate BooksEqual(g: Geom, m: Meta, r: Meta)
    requires SizesOK(g) && MetaShape(g, m) && MetaShape(g, r)
  {
    && Used(g, r.disk) == Used(g, m.disk) && UsedInodes(g, r.disk) == UsedInodes(g, m.disk)
    && FreeBlocksOf(r) == FreeBlocksOf(m) && FreeInodesOf(r) == FreeInodesOf(m) && DirCounts(r) == DirCounts(m)
    && (forall grp :: 0 <= grp < g.groups ==> Half(r.gds[grp], GD_FREE_BLOCKS) == Half(m.gds[grp], GD_FREE_BLOCKS))
    && (forall grp :: 0 <= grp < g.groups ==> Half(r.gds[grp], GD_FREE_INODES) == Half(m.gds[grp], GD_FREE_INODES))
    && forall b :: 0 <= b < g.blocks && g.role[b] == Data ==> r.disk[b] == m.disk[b]
  }

  lemma SameUse(g: Geom, m: Meta, r: Meta, grp: nat)
    requires MetaOK(g, m) && MetaOK(g, r) && grp < g.groups
    requires Used(g, r.disk) == Used(g, m.disk) && UsedInodes(g, r.disk) == UsedInodes(g, m.disk)
    ensures Half(r.gds[grp], GD_FREE_BLOCKS) == Half(m.gds[grp], GD_FREE_BLOCKS)
    ensures Half(r.gds[grp], GD_FREE_INODES) == Half(m.gds[grp], GD_FREE_INODES)
  {
    hide WrittenThrough, MetaReserved, BitSet, CountClear, Used, UsedInodes, Half;
    forall j: nat | j < BitsIn(g, grp) ensures BitSet(r.disk[g.bbm[grp]], j) == BitSet(m.disk[g.bbm[grp]], j) {
      BlockNoInRange(g, grp, j);
      BitOfBlock(g, m, BlockNo(g, grp, j));
      BitOfBlock(g, r, BlockNo(g, grp, j));
    }
    CountSame(m.disk[g.bbm[grp]], r.disk[g.bbm[grp]], BitsIn(g, grp));
    forall j: nat | j < g.ipg ensures BitSet(r.disk[g.ibm[grp]], j) == BitSet(m.disk[g.ibm[grp]], j) {
      InoInRange(g, grp, j);
      BitOfInode(g, m, InoNo(g, grp, j));
      BitOfInode(g, r, InoNo(g, grp, j));
    }
    CountSame(m.disk[g.ibm[grp]], r.disk[g.ibm[grp]], g.ipg);
    assert Half(r.gds[grp], GdOff(Blocks)) == CountClear(r.disk[BitmapOf(g, Blocks, grp)], BitsOf(g, Blocks, grp));
    assert Half(r.gds[grp], GdOff(Inodes)) == CountClear(r.disk[BitmapOf(g, Inodes, grp)], BitsOf(g, Inodes, grp));
  }

  lemma FreeUndoesAlloc(g: Geom, m: Meta, m1: Meta, m2: Meta, b: nat)
    requires MetaOK(g, m) && MetaOK(g, m1) && MetaOK(g, m2) && TookBlock(g, m, m1, b) && GaveBlock(g, m1, m2, b)
    ensures BooksEqual(g, m, m2)
  {
    hide WrittenThrough, MetaReserved, Counted, BitSet, CountClear, Used, UsedInodes, Half;
    assert Used(g, m2.disk) == Used(g, m.disk);
    forall grp: nat | grp < g.groups
      ensures Half(m2.gds[grp], GD_FREE_BLOCKS) == Half(m.gds[grp], GD_FREE_BLOCKS)
      ensures Half(m2.gds[grp], GD_FREE_INODES) == Half(m.gds[grp], GD_FREE_INODES)
    {
      SameUse(g, m, m2, grp);
    }
  }

  lemma FreeUndoesAllocInode(g: Geom, m: Meta, m1: Meta, m2: Meta, ino: nat)
    requires MetaOK(g, m) && MetaOK(g, m1) && MetaOK(g, m2) && TookInode(g, m, m1, ino) && GaveInode(g, m1, m2, ino)
    ensures BooksEqual(g, m, m2)
  {
    hide WrittenThrough, MetaReserved, Counted, BitSet, CountClear, Used, UsedInodes, Half;
    assert UsedInodes(g, m2.disk) == UsedInodes(g, m.disk);
    forall grp: nat | grp < g.groups
      ensures Half(m2.gds[grp], GD_FREE_BLOCKS) == Half(m.gds[grp], GD_FREE_BLOCKS)
      ensures Half(m2.gds[grp], GD_FREE_INODES) == Half(m.gds[grp], GD_FREE_INODES)
    {
      SameUse(g, m, m2, grp);
    }
  }
}
