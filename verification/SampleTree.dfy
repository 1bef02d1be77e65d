/** The sample volume's name space: a root that names inode 3 "x", which makes the volume sound
    whatever file or well-formed directory inode 3 is. */
module SampleTree {
  import opened Words
  import opened Bytes
  import opened Arith
  import opened BlockTree
  import opened Layout
  import opened Metadata
  import opened FsState
  import opened BlockMap
  import opened InodeTable
  import opened FileData
  import opened FileOps
  import opened Truncate
  import opened EntryLists
  import opened DirBlock
  import opened Directory
  import opened DirOps
  import opened DirAdd
  import opened NameOps
  import opened SubDirs
  import opened Tree
  import opened Runs
  import opened Sample

  /** What every such volume shows: the root's record and its block. */
  ghost predicate Grounded(v: View, raw: RawInode, kind: Byte)
  {
    && v.bs in {1024, 4096} && |raw| == 128 && v.raws == Records(v.bs, raw)
    && |v.disk| > Front(v.bs) + 5 && v.disk[Front(v.bs) + 5] == RootBlock(v.bs, kind)
  }

  lemma GroundedSize(v: View, raw: RawInode, kind: Byte)
    requires Grounded(v, raw, kind)
    ensures v.bs in {1024, 4096} && 2 in v.raws && 3 in v.raws && v.raws[2] == RootRecord(v.bs) && v.raws[3] == raw
    ensures 1 < MapEnd(v.bs / 4) && Times(1, v.bs) == v.bs && BlockCount(v.bs, v.bs) == 1 && Ptrs(v) == v.bs / 4
  {
    hide RootRecord, RootBlock;
    TimesIs(1, v.bs);
    QuotIs(v.bs + (v.bs - 1), v.bs);
  }

  /** Outside inode 3 the only pointer is i_block[0] of the root. */
  lemma {:induction false} RootPointers(v: View, raw: RawInode, kind: Byte, t: Slot)
    requires Grounded(v, raw, kind) && IsSlot(v, t) && Ino(t) != 3
    ensures Ptr(v, t) == if t == Root(2, 0) then Front(v.bs) + 5 else 0
  {
    hide RootRecord, RootBlock;
    match t
    case Root(i, k) => if i != 2 { NoBlocksWord(v.raws[i], k); }
    case Child(up, j) => RootPointers(v, raw, kind, up);
  }

  lemma RootMap(v: View, raw: RawInode, kind: Byte, i: nat, l: nat)
    requires Grounded(v, raw, kind) && i in v.raws && i != 3 && l < MapEnd(v.bs / 4)
    ensures Resolve(v, i, l) == if i == 2 && l == 0 then Front(v.bs) + 5 else 0
  {
    hide Grounded, MapEnd, Ptr, IsSlot;
    GroundedSize(v, raw, kind);
    DataSlotIs(v, i, l);
    RootPointers(v, raw, kind, DataSlot(v.bs / 4, i, l));
    if DataSlot(v.bs / 4, i, l) == Root(2, 0) { DataSlotInjective(v.bs / 4, i, l, 2, 0); }
  }

  lemma RootBytes(v: View, raw: RawInode, kind: Byte)
    requires Grounded(v, raw, kind)
    ensures BlockBytes(v, 2, 0) == RootBlock(v.bs, kind)
  {
    hide RootRecord, RootBlock, BlockBytes, Resolve, MapEnd;
    GroundedSize(v, raw, kind);
    RootMap(v, raw, kind, 2, 0);
    RootBlockIs(v.bs, kind);
    MappedBlock(v, 2, 0);
  }

  lemma RootIsDir(v: View, raw: RawInode, kind: Byte)
    requires Grounded(v, raw, kind)
    ensures DirOK(v, 2, 1) && DirList(v, 2, 1) == RootList(kind)
  {
    hide Grounded, RootBlock, Chain, BlockBytes, MapEnd, Resolve, Entries, RootList;
    GroundedSize(v, raw, kind);
    forall l: nat | l < MapEnd(v.bs / 4) ensures Resolve(v, 2, l) == if l == 0 then Front(v.bs) + 5 else 0 {
      RootMap(v, raw, kind, 2, l);
    }
    RootBytes(v, raw, kind);
    RootBlockIs(v.bs, kind);
    CatHead(Lists(v, 2, 1));
  }

  lemma {:induction false} CatHead(ls: seq<seq<Entry>>)
    requires ls != [] && forall l :: 0 < l < |ls| ==> ls[l] == []
    ensures Cat(ls) == ls[0]
  {
    var n := |ls| - 1;
    if n == 0 {
      assert ls[..0] == [];
    } else {
      CatHead(ls[..n]);
    }
  }

  /** Not a byte in inodes other than 2 and 3 */
  lemma Elsewhere(v: View, raw: RawInode, kind: Byte, i: nat, p: nat)
    requires Grounded(v, raw, kind) && i in v.raws && i != 2 && i != 3 && p < U32
    ensures RawByte(v, i, p) == 0
  {
    hide Grounded, Resolve;
    GroundedSize(v, raw, kind);
    PosInMap(v.bs, p);
    RootMap(v, raw, kind, i, Quot(p, v.bs));
  }

  // ----- the name space -----

  function SampleDirs(kind: Byte, sub: bool): map<nat, seq<Entry>>
  {
    if sub then map[2 := RootList(kind), 3 := Dots(3, 2)] else map[2 := RootList(kind)]
  }

  function Names3(kind: Byte, sub: bool): Tree { Tree(SampleDirs(kind, sub), {1, 2, 3}, 2) }

  lemma OnlyX(kind: Byte, sub: bool, d: nat, i: nat, x: nat)
    ensures NameAt(Names3(kind, sub), d, i, x) <==> d == 2 && i == 2 && x == 3
  {
  }

  lemma SampleTreeOK(kind: Byte, sub: bool)
    ensures TreeOK(Names3(kind, sub))
  {
    var t := Names3(kind, sub);
    forall d, i: nat, x: nat ensures NameAt(t, d, i, x) <==> d == 2 && i == 2 && x == 3 { OnlyX(kind, sub, d, i, x); }
    assert RootList(kind)[0].name == DOT_NAME && RootList(kind)[1].name == DOTDOT_NAME;
    assert Dots(3, 2)[0].name == DOT_NAME && Dots(3, 2)[1].name == DOTDOT_NAME;
    assert Names(t, 2, 3) by { assert NameAt(t, 2, 2, 3); }
    assert IsRank(t, map[2 := 0, 3 := 1]);
  }

  // ----- the volume -----

  /** The parts of such a volume, inode 3 left open */
  datatype Kit = Kit(bs: nat, n: nat, u: nat, d: nat, raw: RawInode, kind: Byte, data: seq<Block>,
                     owner: map<nat, Slot>)

  ghost predicate KitOK(k: Kit)
  {
    && Fits(k.bs, k.n, k.u) && |k.raw| == 128 && 0 < k.d <= 2 && 0 < k.n && Whole(k.bs, k.n, k.data)
    && k.data[0] == RootBlock(k.bs, k.kind)
  }

  function G(k: Kit): Geom { Plan(k.bs, k.n) }

  ghost function S(k: Kit): Fs
  {
    if KitOK(k) then Built(k.bs, k.n, k.u, k.d, k.raw, k.data, k.owner) else Fs(Meta([], [], []), map[], map[])
  }

  lemma KitGrounded(k: Kit)
    requires KitOK(k)
    ensures Grounded(V(G(k), S(k)), k.raw, k.kind)
  {
    hide RootRecord, Head, RootBlock;
    assert S(k).m.disk[Front(k.bs) + 5 + 0] == k.data[0];
  }

  lemma KitData(k: Kit)
    requires KitOK(k)
    ensures |S(k).m.disk| == Front(k.bs) + 5 + k.n
    ensures forall j :: 0 <= j < k.n ==> S(k).m.disk[Front(k.bs) + 5 + j] == k.data[j]
  {
    hide RootRecord, Head, RootBlock, Image;
  }

  /** Every block in use belongs to a slot, and inode 3 is well formed. */
  ghost predicate Sound3(k: Kit)
    requires KitOK(k)
  {
    && Owns(V(G(k), S(k)), k.owner) && (forall b :: b in k.owner ==> Front(k.bs) + 5 <= b < Front(k.bs) + 5 + k.u)
    && 3 in S(k).raws
    && if IsDirMode(ModeOf(k.raw)) then k.d == 2 && IsDir(G(k), S(k), 3) && ListOf(G(k), S(k), 3) == Dots(3, 2)
       else k.d == 1 && LinksOf(k.raw) == 1 && TailZero(V(G(k), S(k)), 3)
  }

  lemma KitBooks(k: Kit)
    requires KitOK(k) && Sound3(k)
    ensures FsOK(G(k), S(k)) && Synced(G(k), S(k), {}) && FreeBlocksOf(S(k).m) == k.n - k.u
    ensures forall i: nat :: i in UsedInodes(G(k), S(k).m.disk) <==> i in {1, 2, 3}
    ensures forall i: nat :: IsIno(G(k), i) <==> 1 <= i <= 8
    ensures S(k).raws == Records(k.bs, k.raw) && DirCounts(S(k).m) == [k.d] && G(k).groups == 1 && G(k).ipg == 8
  {
    hide FsOK, Synced, Owns, UsedInodes, RootRecord, Head, RootBlock, Image, IsIno, IsDir, ListOf, TailZero;
    BuiltOK(k.bs, k.n, k.u, k.d, k.raw, k.data, k.owner);
    BuiltSynced(k.bs, k.n, k.u, k.d, k.raw, k.data, k.owner);
    forall i: nat
      ensures i in UsedInodes(G(k), S(k).m.disk) <==> i in {1, 2, 3}
      ensures IsIno(G(k), i) <==> 1 <= i <= 8
    {
      InodesInUse(k.bs, k.n, k.u, k.d, k.raw, k.data, i);
    }
  }

  lemma KitInos(k: Kit)
    requires KitOK(k) && Sound3(k)
    ensures forall i: nat :: IsDirIno(G(k), S(k), i) <==> i == 2 || (i == 3 && k.d == 2)
    ensures forall i: nat :: IsFileIno(G(k), S(k), i) <==> i == 1 || (i == 3 && k.d == 1)
    ensures UsedInodes(G(k), S(k).m.disk) == {1, 2, 3}
  {
    hide FsOK, Synced, Owns, UsedInodes, RootRecord, RootBlock, S, IsIno, IsDir, ListOf, TailZero, DirCounts;
    KitBooks(k);
    NoMode();
  }

  lemma NoMode()
    ensures !IsDirMode(ModeOf(Zeros(128))) && SizeOf(Zeros(128)) == 0
  {
  }

  lemma KitTree(k: Kit)
    requires KitOK(k) && Sound3(k)
    ensures TreeOf(G(k), S(k), 2) == Names3(k.kind, k.d == 2) && Formed(G(k), S(k))
  {
    hide FsOK, Synced, Owns, UsedInodes, RootRecord, RootBlock, Grounded, S, DirOK, DirList, TailZero, RootList, Dots;
    var g, s := G(k), S(k);
    KitInos(k);
    KitRoot(k);
    assert TreeOf(g, s, 2).dirs == SampleDirs(k.kind, k.d == 2);
  }

  lemma KitRoot(k: Kit)
    requires KitOK(k)
    ensures IsDir(G(k), S(k), 2) && ListOf(G(k), S(k), 2) == RootList(k.kind)
  {
    hide RootRecord, RootBlock, Grounded, DirOK, DirList, Image;
    KitGrounded(k);
    GroundedSize(V(G(k), S(k)), k.raw, k.kind);
    RootIsDir(V(G(k), S(k)), k.raw, k.kind);
  }

  /** The root has room for a short name. */
  lemma KitRoom(k: Kit, nlen: nat)
    requires KitOK(k) && nlen <= 2
    ensures !Full(G(k), S(k), 2, nlen) && Contained(G(k), S(k), 2, nlen)
  {
    hide RootRecord, RootBlock, Grounded, IsDir, Rec, Parse, NoRoom, S, Resolve, FullAt, Contained;
    var g, s := G(k), S(k);
    KitRoot(k);
    KitGrounded(k);
    GroundedSize(V(g, s), k.raw, k.kind);
    PlanOK(k.bs, k.n);
    DirContained(g, s, 2, nlen);
    RootMap(V(g, s), k.raw, k.kind, 2, 0);
    RootBytes(V(g, s), k.raw, k.kind);
    RootBlockIs(k.bs, k.kind);
    RootRecsRoom(k.bs, k.kind, nlen);
    assert NBlocks(g, s, 2) == 1;
    assert !FullAt(g, s, 2, 0, nlen);
  }

  lemma RootRecsRoom(bs: nat, kind: Byte, nlen: nat)
    requires bs in {1024, 4096} && nlen <= 2
    ensures !NoRoom(RootRecs(bs, kind), Need(nlen))
  {
    hide Rec;
    assert Room(RootRecs(bs, kind)[2], Need(nlen));
  }

  lemma KitTails(k: Kit)
    requires KitOK(k) && Sound3(k)
    ensures Tails(G(k), S(k))
  {
    hide FsOK, Synced, Owns, UsedInodes, RootRecord, RootBlock, S, Grounded, IsDir, ListOf;
    var g, s := G(k), S(k);
    KitInos(k);
    KitBooks(k);
    KitGrounded(k);
    forall i | IsFileIno(g, s, i) ensures TailZero(V(g, s), i) {
      if i != 3 {
        forall p: nat | SizeOf(s.raws[i]) <= p < U32 ensures RawByte(V(g, s), i, p) == 0 {
          Elsewhere(V(g, s), k.raw, k.kind, i, p);
        }
      }
    }
  }

  lemma KitTally(k: Kit)
    requires KitOK(k) && Sound3(k)
    ensures Tallied(G(k), S(k))
  {
    hide FsOK, Synced, Owns, UsedInodes, RootRecord, RootBlock, S, IsDirIno, IsDir, ListOf, TailZero;
    var g, s := G(k), S(k);
    KitBooks(k);
    KitInos(k);
    DirsAre(g, s, 0);
    QuotIs(1, 8);
    QuotIs(2, 8);
    var two := if k.d == 2 then {2, 3} else {2};
    assert DirsOf(g, s, 0) == two;
    assert |two| == k.d;
  }

  lemma KitLinks(k: Kit)
    requires KitOK(k) && Sound3(k)
    ensures OneLink(G(k), S(k), Names3(k.kind, k.d == 2))
  {
    hide FsOK, Synced, Owns, UsedInodes, RootRecord, RootBlock, S, IsDir, ListOf, TailZero, NameAt, Names3;
    KitBooks(k);
    KitInos(k);
    var t := Names3(k.kind, k.d == 2);
    forall d, i: nat, x | NameAt(t, d, i, x) && IsFileIno(G(k), S(k), x) ensures LinksOf(S(k).raws[x]) == 1 {
      OnlyX(k.kind, k.d == 2, d, i, x);
    }
  }

  lemma KitClean(k: Kit)
    requires KitOK(k) && Sound3(k)
    ensures Clean(G(k), S(k))
  {
    hide FsOK, Synced, Owns, UsedInodes, RootRecord, RootBlock, S, IsDir, ListOf, TailZero;
    KitBooks(k);
  }

  /** The volume is sound, whatever inode 3 is. */
  lemma SampleVol(k: Kit)
    requires KitOK(k) && Sound3(k)
    ensures VolOK(G(k), S(k), 2) && Synced(G(k), S(k), {}) && HasInode(G(k), S(k))
  {
    hide Sound3, FsOK, Synced, Clean, Formed, Tails, TreeOf, TreeOK, OneLink, Tallied, S, G, Names3, UsedInodes,
         DirCounts, IsIno;
    KitBooks(k);
    KitTree(k);
    KitTails(k);
    KitTally(k);
    KitLinks(k);
    KitClean(k);
    SampleTreeOK(k.kind, k.d == 2);
    SyncedMore(G(k), S(k), {}, 2);
    assert {} + {2} == {2};
    assert IsIno(G(k), 4) && 4 !in UsedInodes(G(k), S(k).m.disk);
  }
}
