/** A small volume of one block group, laid out byte by byte: the ground the counterexamples
    stand on. Inodes 1 to 3 are in use: inode 2 is the root directory, and what inode 3 is, the
    one thing named in it, is left open. */
module Sample {
  import opened Words
  import opened Bytes
  import opened Arith
  import opened BlockTree
  import opened Layout
  import opened Metadata
  import opened FsState
  import opened InodeTable
  import opened FileOps
  import opened EntryLists
  import opened DirBlock
  import opened DirOps
  import opened NameOps
  import opened SubDirs
  import opened Tree

  /** The superblock: block 1 for 1 KiB blocks, block 0 for larger ones. */
  function Front(bs: nat): nat { if bs == 1024 then 1 else 0 }

  function RoleAt(f: nat, b: nat): Role
  {
    if b < f then Reserved
    else if b == f then Super
    else if b == f + 1 then Gdt(0)
    else if b == f + 2 then BlockBitmap(0)
    else if b == f + 3 then InodeBitmap(0)
    else if b == f + 4 then Role.InodeTable(0, 0)
    else Data
  }

  /** n data blocks behind the metadata, and eight inodes */
  function Plan(bs: nat, n: nat): Geom
  {
    var f := Front(bs);
    Geom(bs, f, f + 5 + n, 8 * bs, 8, 128, 1, [f + 2], [f + 3], [f + 4],
         seq(f + 5 + n, b requires b >= 0 => RoleAt(f, b)), Zeros(SB_SIZE), [Zeros(GD_SIZE)])
  }

  predicate Fits(bs: nat, n: nat, u: nat) { bs in {1024, 4096} && u <= n <= 100 }

  lemma RowsOf(bs: nat)
    requires bs in {1024, 4096}
    ensures Quot(bs, 128) == bs / 128 && Quot(7, Quot(bs, 128)) == 0
  {
    QuotIs(bs, 128);
  }

  lemma PlanOK(bs: nat, n: nat)
    requires Fits(bs, n, 0)
    ensures GeomOK(Plan(bs, n))
  {
    var g := Plan(bs, n);
    RowsOf(bs);
    TimesIs(1, g.bpg);
    TimesIs(1, 8);
    assert forall b :: 0 <= b < g.blocks ==> g.role[b] == RoleAt(g.first, b);
  }

  // ----- bitmaps -----

  lemma {:induction false} NoBit(k: nat)
    ensures !Bit(0, k)
  {
    if k > 0 { NoBit(k - 1); }
  }

  /** A bitmap whose first n bits are set */
  function Marked(bs: nat, n: nat): (b: Buf)
    requires n <= 8 * bs
    ensures |b| == bs && forall j: nat :: j < 8 * bs ==> BitSet(b, j) == (j < n)
  {
    if n == 0 then
      assert forall j: nat :: j < 8 * bs ==> !BitSet(Zeros(bs), j) by {
        forall j: nat | j < 8 * bs ensures !BitSet(Zeros(bs), j) { NoBit(j % 8); }
      }
      Zeros(bs)
    else SetBit(Marked(bs, n - 1), n - 1)
  }

  lemma {:induction false} CountMarked(b: Buf, n: nat, u: nat)
    requires forall j: nat :: j < n ==> BitSet(b, j) == (j < u)
    ensures CountClear(b, n) == if u <= n then n - u else 0
  {
    if n > 0 { CountMarked(b, n - 1, u); }
  }

  // ----- the root -----

  /** A directory of one block, the first behind the metadata */
  function RootRecord(bs: nat): (r: RawInode)
    requires bs in {1024, 4096}
    ensures |r| == 128 && IsDirMode(ModeOf(r)) && SizeOf(r) == bs
    ensures forall w: nat :: IBLOCK_WORD <= w < IBLOCK_WORD + 15 ==>
      Word(r, w) == if w == IBLOCK_WORD then Front(bs) + 5 else 0
  {
    Pointing(0x4000, 3, bs, Front(bs) + 5)
  }

  /** A record whose only pointer is i_block[0] */
  function Pointing(mode: nat, links: nat, size: nat, blk: nat): (r: RawInode)
    requires mode < U16 && links < U16 && size < U32 && blk < U32
    ensures |r| == 128 && ModeOf(r) == mode && LinksOf(r) == links && SizeOf(r) == size
    ensures forall w: nat :: IBLOCK_WORD <= w < IBLOCK_WORD + 15 ==> Word(r, w) == if w == IBLOCK_WORD then blk else 0
  {
    var h := Put32(NewRecord(mode, links), I_SIZE, size);
    assert Get16(h, I_MODE) == Get16(NewRecord(mode, links), I_MODE);
    assert Get16(h, I_LINKS) == Get16(NewRecord(mode, links), I_LINKS);
    assert NoBlocks(h);
    var r := SetWord(h, IBLOCK_WORD, blk);
    assert Get16(r, I_MODE) == Get16(h, I_MODE) && Get16(r, I_LINKS) == Get16(h, I_LINKS);
    assert Get32(r, I_SIZE) == Get32(h, I_SIZE);
    assert forall w: nat :: IBLOCK_WORD <= w < IBLOCK_WORD + 15 ==> Word(h, w) == 0 by {
      forall w: nat | IBLOCK_WORD <= w < IBLOCK_WORD + 15 ensures Word(h, w) == 0 { NoBlocksWord(h, w - IBLOCK_WORD); }
    }
    r
  }

  /** A record of n bytes */
  function Rec(n: nat, ino: nat, kind: Byte, name: Buf): (c: Buf)
    requires 12 <= n < U16 && n % 4 == 0 && |name| <= 2 && ino < U32
    ensures IsRec(c) && |c| == n && EntryOf(c) == Entry(name, ino, kind) && NameLen(c) == |name| && InodeOf(c) == ino
  {
    Filled(Put16(Zeros(n), DE_REC_LEN, n), ino, kind, name)
  }

  const X_NAME: Buf := [120]

  function RootRecs(bs: nat, kind: Byte): (cs: seq<Buf>)
    requires bs in {1024, 4096}
    ensures |cs| == 3
  {
    [Rec(12, 2, FT_DIR, DOT_NAME), Rec(12, 2, FT_DIR, DOTDOT_NAME), Rec(bs - 24, 3, kind, X_NAME)]
  }

  function RootList(kind: Byte): seq<Entry>
  {
    [DirEntry(DOT_NAME, 2), DirEntry(DOTDOT_NAME, 2), Entry(X_NAME, 3, kind)]
  }

  function RootBlock(bs: nat, kind: Byte): Buf
    requires bs in {1024, 4096}
  {
    Flat(RootRecs(bs, kind))
  }

  lemma FlatThree(cs: seq<Buf>)
    requires |cs| == 3
    ensures |Flat(cs)| == |cs[0]| + |cs[1]| + |cs[2]| && Live(cs) == Alive(cs[0]) + Alive(cs[1]) + Alive(cs[2])
  {
    hide Alive;
    var a := cs[1..];
    assert a[0] == cs[1] && a[1..][0] == cs[2] && |a[1..]| == 1;
    assert Live(a[1..]) == Alive(cs[2]) && Flat(a[1..]) == cs[2];
    assert Live(a) == Alive(cs[1]) + Alive(cs[2]);
  }

  lemma EmptyBlock()
    ensures Chain([]) && Parse([]) == []
  {
  }

  lemma RootBlockIs(bs: nat, kind: Byte)
    requires bs in {1024, 4096}
    ensures |RootBlock(bs, kind)| == bs && Chain(RootBlock(bs, kind)) && Entries(RootBlock(bs, kind)) == RootList(kind)
    ensures Parse(RootBlock(bs, kind)) == RootRecs(bs, kind)
  {
    hide Chain, Parse, Flat, Live, Rec;
    var cs := RootRecs(bs, kind);
    FlatThree(cs);
    assert AllRecs(cs);
    assert Chain([]) && Parse([]) == [] by { EmptyBlock(); }
    ParseFlat(cs, []);
    assert Flat(cs) + [] == Flat(cs) && cs + [] == cs;
  }

  // ----- the image: u of n data blocks in use, d directories -----

  function Sb(free: nat): (b: Buf)
    requires free < U32
    ensures |b| == SB_SIZE && Get32(b, SB_FREE_BLOCKS) == free && Get32(b, SB_FREE_INODES) == 5
  {
    Put32(Put32(Zeros(SB_SIZE), SB_FREE_BLOCKS, free), SB_FREE_INODES, 5)
  }

  function Gd(free: nat, d: nat): (b: Buf)
    requires free < U16 && d < U16
    ensures |b| == GD_SIZE && Half(b, GD_FREE_BLOCKS) == free && Half(b, GD_FREE_INODES) == 5
    ensures Half(b, GD_USED_DIRS) == d
  {
    Put16(Put16(Put16(Zeros(GD_SIZE), GD_FREE_BLOCKS, free), GD_FREE_INODES, 5), GD_USED_DIRS, d)
  }

  /** The inode table: inodes 2 and 3, between empty records */
  function Rows(bs: nat, raw: RawInode): (b: Buf)
    requires bs in {1024, 4096} && |raw| == 128
    ensures |b| == bs
  {
    Zeros(128) + RootRecord(bs) + raw + Zeros(bs - 384)
  }

  /** The five metadata blocks */
  function Head(bs: nat, n: nat, u: nat, d: nat, raw: RawInode): (h: seq<Block>)
    requires Fits(bs, n, u) && |raw| == 128 && d <= 2
    ensures |h| == 5 && forall k :: 0 <= k < 5 ==> |h[k]| == bs
  {
    [if bs == 1024 then Sb(n - u) else Zeros(1024) + Sb(n - u) + Zeros(bs - 2048),
     Gd(n - u, d) + Zeros(bs - GD_SIZE),
     Marked(bs, 5 + u),
     Marked(bs, 3),
     Rows(bs, raw)]
  }

  function Image(bs: nat, n: nat, u: nat, d: nat, raw: RawInode, data: seq<Block>): (disk: seq<Block>)
    requires Fits(bs, n, u) && |raw| == 128 && d <= 2
    ensures |disk| == Front(bs) + 5 + |data|
    ensures forall k :: 0 <= k < 5 ==> disk[Front(bs) + k] == Head(bs, n, u, d, raw)[k]
    ensures forall k :: 0 <= k < |data| ==> disk[Front(bs) + 5 + k] == data[k]
    ensures bs == 1024 ==> |disk[0]| == bs
  {
    (if bs == 1024 then [Zeros(bs)] else []) + Head(bs, n, u, d, raw) + data
  }

  lemma Parts(bs: nat, n: nat, u: nat, d: nat, raw: RawInode, data: seq<Block>)
    requires Fits(bs, n, u) && |raw| == 128 && d <= 2
    ensures var f, h, disk := Front(bs), Head(bs, n, u, d, raw), Image(bs, n, u, d, raw, data);
            && disk[f] == h[0] && disk[f + 1] == h[1] && disk[f + 2] == h[2] == Marked(bs, 5 + u)
            && disk[f + 3] == h[3] == Marked(bs, 3)
            && disk[f + 4] == h[4] == Rows(bs, raw)
  {
    hide Marked, RootRecord;
    var f, disk := Front(bs), Image(bs, n, u, d, raw, data);
    assert disk[f + 0] == disk[f];
  }

  function Facts(bs: nat, n: nat, u: nat, d: nat, raw: RawInode, data: seq<Block>): Meta
    requires Fits(bs, n, u) && |raw| == 128 && d <= 2
  {
    Meta(Image(bs, n, u, d, raw, data), Sb(n - u), [Gd(n - u, d)])
  }

  ghost predicate Whole(bs: nat, n: nat, data: seq<Block>) { |data| == n && forall k :: 0 <= k < n ==> |data[k]| == bs }

  lemma ImageOK(bs: nat, n: nat, u: nat, d: nat, raw: RawInode, data: seq<Block>)
    requires Fits(bs, n, u) && |raw| == 128 && d <= 2 && Whole(bs, n, data)
    ensures DiskOK(Plan(bs, n), Facts(bs, n, u, d, raw, data).disk)
  {
    var disk := Image(bs, n, u, d, raw, data);
    forall b | 0 <= b < |disk| ensures |disk[b]| == bs {
      if b >= Front(bs) + 5 {
        assert disk[Front(bs) + 5 + (b - Front(bs) - 5)] == data[b - Front(bs) - 5];
      } else if b >= Front(bs) {
        assert disk[Front(bs) + (b - Front(bs))] == Head(bs, n, u, d, raw)[b - Front(bs)];
      }
    }
  }

  lemma BlocksInUse(bs: nat, n: nat, u: nat, d: nat, raw: RawInode, data: seq<Block>, b: nat)
    requires Fits(bs, n, u) && |raw| == 128 && d <= 2 && Whole(bs, n, data) && Front(bs) <= b < Front(bs) + 5 + n
    ensures b in Used(Plan(bs, n), Image(bs, n, u, d, raw, data)) <==> b < Front(bs) + 5 + u
  {
    hide Marked, BitSet, Head, Image;
    var g, disk := Plan(bs, n), Image(bs, n, u, d, raw, data);
    Parts(bs, n, u, d, raw, data);
    assert GroupOf(g, b) == 0 && IndexOf(g, b) == b - Front(bs);
  }

  lemma InodesInUse(bs: nat, n: nat, u: nat, d: nat, raw: RawInode, data: seq<Block>, i: nat)
    requires Fits(bs, n, u) && |raw| == 128 && d <= 2 && Whole(bs, n, data)
    ensures i in UsedInodes(Plan(bs, n), Image(bs, n, u, d, raw, data)) <==> i in {1, 2, 3}
    ensures IsIno(Plan(bs, n), i) <==> 1 <= i <= 8
  {
    hide Marked, BitSet, Head, Image;
    var g, disk := Plan(bs, n), Image(bs, n, u, d, raw, data);
    TimesIs(1, 8);
    Parts(bs, n, u, d, raw, data);
    if 1 <= i <= 8 {
      assert InoGroup(g, i) == 0 && InoIndex(g, i) == i - 1;
      assert InodeUsed(g, disk, i) <==> BitSet(Marked(bs, 3), i - 1);
      assert BitSet(Marked(bs, 3), i - 1) <==> i <= 3;
    }
  }

  lemma FactsCounted(bs: nat, n: nat, u: nat, d: nat, raw: RawInode, data: seq<Block>, kind: Kind)
    requires Fits(bs, n, u) && |raw| == 128 && d <= 2 && Whole(bs, n, data)
    requires GeomOK(Plan(bs, n)) && MetaShape(Plan(bs, n), Facts(bs, n, u, d, raw, data))
    ensures Counted(Plan(bs, n), Facts(bs, n, u, d, raw, data), kind)
  {
    hide Marked, CountClear, BitSet, Image, RolesOK, Sb, Gd;
    var m := Facts(bs, n, u, d, raw, data);
    Parts(bs, n, u, d, raw, data);
    assert SumField(m.gds, GdOff(kind)) == SumTo(m.gds, GdOff(kind), 0) + Half(m.gds[0], GdOff(kind));
    if kind == Blocks {
      assert BitsIn(Plan(bs, n), 0) == 5 + n;
      CountMarked(Marked(bs, 5 + u), 5 + n, 5 + u);
    } else {
      CountMarked(Marked(bs, 3), 8, 3);
    }
  }

  lemma FactsThrough(bs: nat, n: nat, u: nat, d: nat, raw: RawInode, data: seq<Block>)
    requires Fits(bs, n, u) && |raw| == 128 && d <= 2 && Whole(bs, n, data)
    requires GeomOK(Plan(bs, n)) && MetaShape(Plan(bs, n), Facts(bs, n, u, d, raw, data))
    ensures WrittenThrough(Plan(bs, n), Facts(bs, n, u, d, raw, data))
  {
    hide Marked, Image, Sb, Gd;
    var m := Facts(bs, n, u, d, raw, data);
    Parts(bs, n, u, d, raw, data);
    assert (Zeros(1024) + Sb(n - u) + Zeros(bs - 1024))[1024..2048] == Sb(n - u);
    assert (Gd(n - u, d) + Zeros(bs - GD_SIZE))[0..GD_SIZE] == Gd(n - u, d);
  }

  lemma FactsFrozen(bs: nat, n: nat, u: nat, d: nat, raw: RawInode, data: seq<Block>)
    requires Fits(bs, n, u) && |raw| == 128 && d <= 2
    ensures Frozen(Plan(bs, n), Facts(bs, n, u, d, raw, data))
  {
    assert SameSuper(Zeros(SB_SIZE), Sb(n - u)) && SameDesc(Zeros(GD_SIZE), Gd(n - u, d));
  }

  lemma FactsOK(bs: nat, n: nat, u: nat, d: nat, raw: RawInode, data: seq<Block>)
    requires Fits(bs, n, u) && |raw| == 128 && d <= 2 && Whole(bs, n, data)
    ensures MetaOK(Plan(bs, n), Facts(bs, n, u, d, raw, data))
  {
    hide Counted, WrittenThrough, Frozen;
    var g, m := Plan(bs, n), Facts(bs, n, u, d, raw, data);
    FactsFrozen(bs, n, u, d, raw, data);
    PlanOK(bs, n);
    ImageOK(bs, n, u, d, raw, data);
    FactsCounted(bs, n, u, d, raw, data, Blocks);
    FactsCounted(bs, n, u, d, raw, data, Inodes);
    FactsThrough(bs, n, u, d, raw, data);
    forall b: nat | InBitmap(g, b) && g.role[b] != Data ensures b in Used(g, m.disk) {
      BlocksInUse(bs, n, u, d, raw, data, b);
    }
  }

  // ----- the volume -----

  function Records(bs: nat, raw: RawInode): map<nat, RawInode>
    requires bs in {1024, 4096}
  {
    var none := Zeros(128);
    map[1 := none, 2 := RootRecord(bs), 3 := raw, 4 := none, 5 := none, 6 := none, 7 := none, 8 := none]
  }

  function Built(bs: nat, n: nat, u: nat, d: nat, raw: RawInode, data: seq<Block>, owner: map<nat, Slot>): Fs
    requires Fits(bs, n, u) && |raw| == 128 && d <= 2
  {
    Fs(Facts(bs, n, u, d, raw, data), Records(bs, raw), owner)
  }

  lemma BuiltOK(bs: nat, n: nat, u: nat, d: nat, raw: RawInode, data: seq<Block>, owner: map<nat, Slot>)
    requires Fits(bs, n, u) && |raw| == 128 && d <= 2 && Whole(bs, n, data)
    requires Owns(V(Plan(bs, n), Built(bs, n, u, d, raw, data, owner)), owner)
    requires forall b :: b in owner ==> Front(bs) + 5 <= b < Front(bs) + 5 + u
    ensures FsOK(Plan(bs, n), Built(bs, n, u, d, raw, data, owner))
  {
    hide Owns, MetaOK, Image, Head, UsedInodes, Used;
    var g, s := Plan(bs, n), Built(bs, n, u, d, raw, data, owner);
    FactsOK(bs, n, u, d, raw, data);
    forall i ensures i in s.raws <==> IsIno(g, i) { if i >= 0 { InodesInUse(bs, n, u, d, raw, data, i); } }
    forall b | b in owner ensures InBitmap(g, b) && g.role[b] == Data && b in Used(g, s.m.disk) {
      BlocksInUse(bs, n, u, d, raw, data, b);
    }
  }

  lemma BuiltSynced(bs: nat, n: nat, u: nat, d: nat, raw: RawInode, data: seq<Block>, owner: map<nat, Slot>)
    requires Fits(bs, n, u) && |raw| == 128 && d <= 2 && Whole(bs, n, data)
    ensures Synced(Plan(bs, n), Built(bs, n, u, d, raw, data, owner), {})
  {
    hide Marked, BitSet, Image, UsedInodes, RolesOK, RootRecord;
    var g, s := Plan(bs, n), Built(bs, n, u, d, raw, data, owner);
    PlanOK(bs, n);
    RowsOf(bs);
    var table := Rows(bs, raw);
    Parts(bs, n, u, d, raw, data);
    assert table[0..128] == Zeros(128) && table[128..256] == RootRecord(bs) && table[256..384] == raw;
    TimesIs(0, 128);
    TimesIs(1, 128);
    TimesIs(2, 128);
    forall i | i in UsedInodes(g, s.m.disk) && i in s.raws ensures DiskInode(g, s.m.disk, i) == s.raws[i] {
      InodesInUse(bs, n, u, d, raw, data, i);
      assert InodeBlock(g, i) == Front(bs) + 4 && InodeOff(g, i) == 128 * (i - 1);
    }
  }
}
