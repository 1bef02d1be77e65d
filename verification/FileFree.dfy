/** Giving blocks back: ext2_delete_inode and ext2_truncate_inode. */
module FileFree {
  import opened Words
  import opened Bytes
  import opened Arith
  import opened BlockTree
  import opened Layout
  import opened Metadata
  import opened Volume
  import opened FsState
  import opened BlockMap
  import opened InodeTable
  import opened FileData

  /** The blocks held by a set of slots. */
  ghost function Held(owner: map<nat, Slot>, slots: iset<Slot>): set<nat>
  {
    set b | b in owner && owner[b] in slots
  }

  ghost function DirectRange(ino: nat, lo: nat, hi: nat): iset<Slot>
  {
    iset t: Slot | t.Root? && t.ino == ino && lo <= t.k < hi
  }

  ghost function SingleRange(ino: nat, lo: nat, hi: nat): iset<Slot>
  {
    iset t: Slot | t.Child? && t.up == Root(ino, 12) && lo <= t.j < hi
  }

  /** One more slot: one more block, unless the slot is a hole. */
  lemma HeldAdd(v: View, owner: map<nat, Slot>, slots: iset<Slot>, t: Slot)
    requires Owns(v, owner) && IsSlot(v, t)
    ensures Held(owner, slots + iset{t}) == Held(owner, slots) + (if Ptr(v, t) != 0 then {Ptr(v, t)} else {})
    ensures t !in slots && Ptr(v, t) != 0 ==> Ptr(v, t) !in Held(owner, slots)
  {
  }

  lemma DirectMore(ino: nat, lo: nat, hi: nat)
    requires lo <= hi
    ensures DirectRange(ino, lo, hi + 1) == DirectRange(ino, lo, hi) + iset{Root(ino, hi)}
    ensures Root(ino, hi) !in DirectRange(ino, lo, hi)
  {
  }

  lemma SingleMore(ino: nat, lo: nat, hi: nat)
    requires lo <= hi
    ensures SingleRange(ino, lo, hi + 1) == SingleRange(ino, lo, hi) + iset{Child(Root(ino, 12), hi)}
    ensures Child(Root(ino, 12), hi) !in SingleRange(ino, lo, hi)
  {
  }

  /** Part-way through freeing: the blocks in `gone` have been given back and counted, the
      rest of the volume is as in s. */
  ghost predicate Freeing(g: Geom, s: Fs, m: Meta, gone: set<nat>)
  {
    && Used(g, m.disk) == Used(g, s.m.disk) - gone
    && gone <= s.owner.Keys
    && FreeBlocksOf(m) == FreeBlocksOf(s.m) + |gone|
    && FreeInodesOf(m) == FreeInodesOf(s.m) && DirCounts(m) == DirCounts(s.m)
    && UsedInodes(g, m.disk) == UsedInodes(g, s.m.disk)
    && OnlyMeta(g, Blocks, s.m.disk, m.disk)
  }

  lemma FreedOne(g: Geom, s: Fs, m: Meta, m': Meta, gone: set<nat>, b: nat)
    requires Freeing(g, s, m, gone) && GaveBlock(g, m, m', b) && b in s.owner && b !in gone
    ensures Freeing(g, s, m', gone + {b})
  {
    assert |gone + {b}| == |gone| + 1;
  }

  /** ext2_free_block on a block some file still points to. */
  method FreeOwned(vol: Vol, b: nat, ghost s: Fs, ghost gone: set<nat>)
    requires FsOK(vol.g, s) && MetaOK(vol.g, vol.M()) && Freeing(vol.g, s, vol.M(), gone)
    requires b in s.owner && b !in gone
    modifies vol`disk, vol`sb, vol`gds
    ensures MetaOK(vol.g, vol.M()) && Freeing(vol.g, s, vol.M(), gone + {b})
  {
    ghost var m := vol.M();
    assert b in Used(vol.g, s.m.disk);
    FreeBlock(vol, b);
    FreedOne(vol.g, s, m, vol.M(), gone, b);
  }

  /** The block in slot t, if any, goes back. */
  method FreeSlot(vol: Vol, b: nat, ghost t: Slot, ghost s: Fs, ghost was: iset<Slot>)
    requires FsOK(vol.g, s) && MetaOK(vol.g, vol.M()) && Freeing(vol.g, s, vol.M(), Held(s.owner, was))
    requires IsSlot(V(vol.g, s), t) && b == Ptr(V(vol.g, s), t) && t !in was
    modifies vol`disk, vol`sb, vol`gds
    ensures MetaOK(vol.g, vol.M()) && Freeing(vol.g, s, vol.M(), Held(s.owner, was + iset{t}))
  {
    HeldAdd(V(vol.g, s), s.owner, was, t);
    if b != 0 {
      FreeOwned(vol, b, s, Held(s.owner, was));
    }
  }

  /** The loop over direct pointers: blocks lo..hi-1 are freed and cleared in the record. */
  method FreeDirect(vol: Vol, raw: RawInode, lo: nat, hi: nat, ghost ino: nat, ghost s: Fs) returns (raw': RawInode)
    requires FsOK(vol.g, s) && MetaOK(vol.g, vol.M()) && Freeing(vol.g, s, vol.M(), {})
    requires ino in s.raws && s.raws[ino] == raw && |raw| == 128 && lo <= hi <= 12
    modifies vol`disk, vol`sb, vol`gds
    ensures MetaOK(vol.g, vol.M()) && Freeing(vol.g, s, vol.M(), Held(s.owner, DirectRange(ino, lo, hi)))
    ensures |raw'| == 128 && SameHeader(raw, raw')
    ensures forall k: nat :: k < 15 ==> IPtr(raw', k) == if lo <= k < hi then 0 else IPtr(raw, k)
  {
    raw' := raw;
    var i := lo;
    ghost var now: iset<Slot> := iset{};
    assert Held(s.owner, now) == {};
    while i < hi
      invariant lo <= i <= hi
      invariant now == DirectRange(ino, lo, i)
      invariant MetaOK(vol.g, vol.M()) && Freeing(vol.g, s, vol.M(), Held(s.owner, now))
      invariant |raw'| == 128 && SameHeader(raw, raw')
      invariant forall k: nat :: k < 15 ==> IPtr(raw', k) == if lo <= k < i then 0 else IPtr(raw, k)
    {
      DirectMore(ino, lo, i);
      var b := IPtr(raw', i);
      assert b == Ptr(V(vol.g, s), Root(ino, i));
      FreeSlot(vol, b, Root(ino, i), s, now);
      now := now + iset{Root(ino, i)};
      if b != 0 {
        raw' := SetIPtr(raw', i, 0);
      }
      i := i + 1;
    }
  }

  /** i_block[k] */
  function IPtr(raw: RawInode, k: nat): nat { Word(raw, IBLOCK_WORD + k) }

  function SetIPtr(raw: RawInode, k: nat, x: nat): (r: RawInode)
    requires |raw| == 128 && k < 15 && x < U32
    ensures |r| == 128 && SameHeader(raw, r)
    ensures forall j: nat :: IPtr(r, j) == if j == k then x else IPtr(raw, j)
  {
    SetWord(raw, IBLOCK_WORD + k, x)
  }

  /** The loop over one singly indirect block: entries from lo on are freed and cleared. */
  method FreeSingle(vol: Vol, ind: Block, lo: nat, ghost ino: nat, ghost s: Fs, ghost gone: iset<Slot>)
    returns (ind': Block)
    requires FsOK(vol.g, s) && MetaOK(vol.g, vol.M()) && Freeing(vol.g, s, vol.M(), Held(s.owner, gone))
    requires ino in s.raws && |ind| == vol.g.bs && lo <= vol.g.bs / 4
    requires forall j: nat :: j < vol.g.bs / 4 ==> Ptr(V(vol.g, s), Child(Root(ino, 12), j)) == Word(ind, j)
    requires forall j: nat :: Child(Root(ino, 12), j) !in gone
    modifies vol`disk, vol`sb, vol`gds
    ensures MetaOK(vol.g, vol.M())
    ensures Freeing(vol.g, s, vol.M(), Held(s.owner, gone + SingleRange(ino, lo, vol.g.bs / 4)))
    ensures |ind'| == vol.g.bs
    ensures forall j: nat :: j < vol.g.bs / 4 ==> Word(ind', j) == if lo <= j then 0 else Word(ind, j)
  {
    hide FsOK, MetaOK, Freeing, Held, Ptr;
    var p := vol.g.bs / 4;
    ind' := ind;
    var i := lo;
    ghost var now := gone;
    while i < p
      invariant lo <= i <= p
      invariant now == gone + SingleRange(ino, lo, i)
      invariant MetaOK(vol.g, vol.M()) && Freeing(vol.g, s, vol.M(), Held(s.owner, now))
      invariant |ind'| == vol.g.bs
      invariant forall j: nat :: j < p ==> Word(ind', j) == if lo <= j < i then 0 else Word(ind, j)
    {
      SingleMore(ino, lo, i);
      var b := Word(ind', i);
      FreeSlot(vol, b, Child(Root(ino, 12), i), s, now);
      now := now + iset{Child(Root(ino, 12), i)};
      if b != 0 {
        ind' := SetWord(ind', i, 0);
      }
      i := i + 1;
    }
  }

  // ----- what freeing leaves behind -----

  /** Slots that survive when the slots of ino outside `keep` go. */
  ghost predicate Cut(g: Geom, s: Fs, s': Fs, ino: nat, keep: iset<Slot>)
  {
    && s'.owner == Restrict(s.owner, keep)
    && (forall t: Slot :: Ino(t) != ino ==> t in keep)
    && Pruned(V(g, s), V(g, s'), s.owner, keep)
  }

  lemma CutOwned(g: Geom, s: Fs, s': Fs, ino: nat, keep: iset<Slot>, dead: iset<Slot>)
    requires SizesOK(g) && OwnedOK(g, s) && s'.owner == Restrict(s.owner, keep)
    requires Used(g, s'.m.disk) == Used(g, s.m.disk) - Held(s.owner, dead)
    requires forall t :: t in dead ==> t !in keep
    ensures OwnedOK(g, s')
  {
  }

  lemma FsCut(g: Geom, s: Fs, s': Fs, ino: nat, keep: iset<Slot>, dead: iset<Slot>)
    requires FsOK(g, s) && MetaOK(g, s'.m) && ino in s.raws && Cut(g, s, s', ino, keep)
    requires s'.raws.Keys == s.raws.Keys && (forall i :: i in s'.raws ==> |s'.raws[i]| == 128)
    requires Used(g, s'.m.disk) == Used(g, s.m.disk) - Held(s.owner, dead)
    requires forall t :: t in dead ==> t !in keep
    ensures FsOK(g, s')
    ensures forall t :: IsSlot(V(g, s'), t) == IsSlot(V(g, s), t)
    ensures forall t {:trigger Ptr(V(g, s'), t)} ::
      IsSlot(V(g, s), t) ==> Ptr(V(g, s'), t) == if t in keep then Ptr(V(g, s), t) else 0
  {
    OwnsPruned(V(g, s), V(g, s'), s.owner, keep);
    CutOwned(g, s, s', ino, keep, dead);
  }

  ghost function Others(ino: nat): iset<Slot> { iset t: Slot | Ino(t) != ino }

  /** Slots whose blocks ext2_delete_inode gives back: direct, singly indirect, and the
      indirect block itself. */
  ghost function Deletable(p: nat, ino: nat): iset<Slot>
  {
    DirectRange(ino, 0, 12) + SingleRange(ino, 0, p) + iset{Root(ino, 12)}
  }

  lemma ZeroedRoots(g: Geom, s: Fs, m: Meta, ino: nat)
    requires SizesOK(g) && OwnedOK(g, s) && OnlyMeta(g, Blocks, s.m.disk, m.disk) && ino in s.raws
    ensures Cut(g, s, Fs(m, s.raws[ino := Zeros(128)], Restrict(s.owner, Others(ino))), ino, Others(ino))
  {
    var s' := Fs(m, s.raws[ino := Zeros(128)], Restrict(s.owner, Others(ino)));
    forall i, k: nat | i in s.raws && k < 15
      ensures RootWord(s'.raws, i, k) == if Root(i, k) in Others(ino) then RootWord(s.raws, i, k) else 0
    {
      ZeroWords(128, IBLOCK_WORD + k);
    }
    forall t | t in Others(ino) && t.Child? ensures t.up in Others(ino) { }
  }

  /** Which blocks of ino the code gives back. */
  lemma {:induction false} InoOfSlots(p: nat, ino: nat, t: Slot)
    requires t in Deletable(p, ino)
    ensures t !in Others(ino)
  {
    if t.Child? { assert Ino(t) == Ino(t.up) == ino; }
  }

  // ----- ext2_delete_inode -----

  lemma NoSingle(g: Geom, s: Fs, ino: nat)
    requires Owns(V(g, s), s.owner) && ino in s.raws && Ptr(V(g, s), Root(ino, 12)) == 0
    ensures Held(s.owner, Deletable(g.bs / 4, ino)) == Held(s.owner, DirectRange(ino, 0, 12))
  {
    forall b | b in s.owner && s.owner[b] in Deletable(g.bs / 4, ino) ensures s.owner[b] in DirectRange(ino, 0, 12) {
      assert Ptr(V(g, s), s.owner[b]) == b != 0;
    }
  }

  /** The first half of ext2_delete_inode: direct blocks, then the singly indirect tree. */
  method FreeFileBlocks(vol: Vol, inode: Inode)
    requires FsOK(vol.g, Snap(vol)) && inode.ino in vol.raws && vol.raws[inode.ino] == inode.raw
    modifies vol`disk, vol`sb, vol`gds
    ensures MetaOK(vol.g, vol.M())
    ensures Freeing(vol.g, old(Snap(vol)), vol.M(), Held(vol.owner, Deletable(vol.g.bs / 4, inode.ino)))
  {
    ghost var s := Snap(vol);
    ghost var ino := inode.ino;
    var q := IPtr(inode.raw, 12);
    assert q == Ptr(V(vol.g, s), Root(ino, 12));
    var raw := FreeDirect(vol, inode.raw, 0, 12, ino, s);
    if q == 0 {
      NoSingle(vol.g, s, ino);
    } else {
      FreeTree(vol, q, ino, s, DirectRange(ino, 0, 12));
    }
  }

  /** The children of i_block[12], then i_block[12] itself. */
  method FreeTree(vol: Vol, q: nat, ghost ino: nat, ghost s: Fs, ghost was: iset<Slot>)
    requires FsOK(vol.g, s) && MetaOK(vol.g, vol.M()) && Freeing(vol.g, s, vol.M(), Held(s.owner, was))
    requires ino in s.raws && q != 0 && q == Ptr(V(vol.g, s), Root(ino, 12))
    requires (forall j: nat :: Child(Root(ino, 12), j) !in was) && Root(ino, 12) !in was
    modifies vol`disk, vol`sb, vol`gds
    ensures MetaOK(vol.g, vol.M())
    ensures Freeing(vol.g, s, vol.M(), Held(s.owner, was + SingleRange(ino, 0, vol.g.bs / 4) + iset{Root(ino, 12)}))
  {
    TreeBlock(vol.g, s, vol.M(), ino, q);
    var ind := vol.disk[q];
    var ind' := FreeSingle(vol, ind, 0, ino, s, was);
    FreeSlot(vol, q, Root(ino, 12), s, was + SingleRange(ino, 0, vol.g.bs / 4));
  }

  lemma TreeBlock(g: Geom, s: Fs, m: Meta, ino: nat, q: nat)
    requires FsOK(g, s) && OnlyMeta(g, Blocks, s.m.disk, m.disk) && ino in s.raws
    requires q != 0 && q == Ptr(V(g, s), Root(ino, 12))
    ensures q < g.blocks == |s.m.disk| == |m.disk| && m.disk[q] == s.m.disk[q] && |s.m.disk[q]| == g.bs
    ensures forall j: nat :: j < g.bs / 4 ==> Ptr(V(g, s), Child(Root(ino, 12), j)) == Word(m.disk[q], j)
  {
    assert q in s.owner;
  }

  /** Everything ext2_delete_inode does. */
  ghost predicate Deleted(g: Geom, s: Fs, s': Fs, ino: nat)
  {
    && ino in s.raws && s'.raws == s.raws[ino := Zeros(128)]
    && s'.owner == Restrict(s.owner, Others(ino))
    && Used(g, s'.m.disk) == Used(g, s.m.disk) - Held(s.owner, Deletable(g.bs / 4, ino))
    && UsedInodes(g, s'.m.disk) == UsedInodes(g, s.m.disk) - {ino}
    && FreeInodesOf(s'.m) == FreeInodesOf(s.m) + 1 && DirCounts(s'.m) == DirCounts(s.m)
    && FreeBlocksOf(s'.m) == FreeBlocksOf(s.m) + |Held(s.owner, Deletable(g.bs / 4, ino))|
    && OthersKept(g, s, s', ino)
  }

  lemma OtherByte(g: Geom, s: Fs, s': Fs, keep: iset<Slot>, i: nat, pos: nat)
    requires SizesOK(g) && DiskOK(g, s.m.disk) && DiskOK(g, s'.m.disk) && OwnedOK(g, s) && Owns(V(g, s), s.owner)
    requires i in s.raws && pos < U32 && DataSlot(g.bs / 4, i, Quot(pos, g.bs)) in keep
    requires forall t {:trigger Ptr(V(g, s'), t)} ::
      IsSlot(V(g, s), t) ==> Ptr(V(g, s'), t) == if t in keep then Ptr(V(g, s), t) else 0
    requires forall b: nat :: b in s.owner && Level(s.owner[b]) == 0 ==> At(s'.m.disk, b) == At(s.m.disk, b)
    ensures RawByte(V(g, s'), i, pos) == RawByte(V(g, s), i, pos)
  {
    PosInMap(g.bs, pos);
    DataSlotIs(V(g, s), i, Quot(pos, g.bs));
  }

  lemma CutBytes(g: Geom, s: Fs, s1: Fs, s2: Fs, ino: nat)
    requires FsOK(g, s) && DiskOK(g, s1.m.disk) && OnlyMeta(g, Blocks, s.m.disk, s1.m.disk)
    requires forall t {:trigger Ptr(V(g, s1), t)} ::
      IsSlot(V(g, s), t) ==> Ptr(V(g, s1), t) == if t in Others(ino) then Ptr(V(g, s), t) else 0
    requires s1.raws.Keys == s.raws.Keys && SameBytes(g, s1, s2) && PtrsSame(g, s1, s2)
    ensures OthersKept(g, s, s2, ino)
  {
    forall i, p: nat | i in s.raws && i != ino && p < U32 ensures RawByte(V(g, s2), i, p) == RawByte(V(g, s), i, p) {
      PosInMap(g.bs, p);
      DataSlotIs(V(g, s), i, Quot(p, g.bs));
      OtherByte(g, s, s1, Others(ino), i, p);
    }
    forall i, j: nat | i in s.raws && i != ino && j < MapEnd(g.bs / 4)
      ensures Resolve(V(g, s2), i, j) == Resolve(V(g, s), i, j)
    {
      DataSlotIs(V(g, s), i, j);
      ResolveSame(g, s1, s2, i, j);
    }
  }

  /** The record of ino on the device is all zeros. */
  ghost predicate Blank(g: Geom, disk: seq<Block>, ino: nat)
  {
    SizesOK(g) && DiskInode(g, disk, ino) == Zeros(128)
  }

  /** From the state after freeing and forgetting the blocks of ino: clear its record on the
      device and release its number. */
  method ReleaseInode(vol: Vol, ino: nat, ghost dirty: set<nat>)
    requires FsOK(vol.g, Snap(vol)) && ino in vol.raws && vol.raws[ino] == Zeros(128)
    requires ino in UsedInodes(vol.g, vol.disk)
    requires Synced(vol.g, Snap(vol), dirty + {ino})
    modifies vol`disk, vol`sb, vol`gds
    ensures FsOK(vol.g, Snap(vol)) && Synced(vol.g, Snap(vol), dirty) && SameBytes(vol.g, old(Snap(vol)), Snap(vol))
    ensures PtrsSame(vol.g, old(Snap(vol)), Snap(vol))
    ensures Used(vol.g, vol.disk) == Used(vol.g, old(vol.disk))
    ensures UsedInodes(vol.g, vol.disk) == UsedInodes(vol.g, old(vol.disk)) - {ino}
    ensures FreeInodesOf(vol.M()) == FreeInodesOf(old(vol.M())) + 1 && DirCounts(vol.M()) == DirCounts(old(vol.M()))
    ensures FreeBlocksOf(vol.M()) == FreeBlocksOf(old(vol.M()))
    ensures Blank(vol.g, vol.disk, ino)
  {
    hide OwnedOK, Used, UsedInodes, OnlyRecord, DiskInode;
    ghost var s := Snap(vol);
    WriteInodeRaw(vol, ino, Zeros(128));
    ghost var s1 := Snap(vol);
    RecordAgain(vol.g, s, s1, ino, dirty);
    FreeInode(vol, ino);
    InodeGiven(vol.g, s1, Snap(vol), ino, dirty);
    PtrsSameTrans(vol.g, s, s1, Snap(vol));
  }

  lemma {:induction false} RecordAgain(g: Geom, s: Fs, s1: Fs, ino: nat, dirty: set<nat>)
    requires FsOK(g, s) && ino in s.raws && s1 == s.(m := s.m.(disk := s1.m.disk))
    requires Synced(g, s, dirty + {ino})
    requires RecordWritten(g, s.m.disk, s1.m.disk, ino, s.raws[ino])
    ensures FsOK(g, s1) && Synced(g, s1, dirty) && SameBytes(g, s, s1) && PtrsSame(g, s, s1)
    ensures Used(g, s1.m.disk) == Used(g, s.m.disk) && UsedInodes(g, s1.m.disk) == UsedInodes(g, s.m.disk)
  {
    hide FsOK, Used, UsedInodes, SameBytes, PtrsSame, OnlyRecord, DiskInode;
    Shape(g, s);
    RecordFs(g, s, s1, ino, s.raws[ino]);
    UsedSame(g, s.m.disk, s1.m.disk);
    StoredSame(g, s, s1, ino);
  }

  /** Storing a record changes no byte of any file. */
  lemma StoredSame(g: Geom, s: Fs, s1: Fs, ino: nat)
    requires FsOK(g, s) && FsOK(g, s1) && ino in s.raws && s1 == s.(m := s.m.(disk := s1.m.disk)) && PtrsSame(g, s, s1)
    requires 0 < g.isz <= g.bs && RecordWritten(g, s.m.disk, s1.m.disk, ino, s.raws[ino])
    ensures SameBytes(g, s, s1)
  {
    hide Used, UsedInodes, PtrsSame, MetaOK;
    Shape(g, s);
    Shape(g, s1);
    forall i, q: nat | i in s.raws && q < U32 ensures RawByte(V(g, s1), i, q) == RawByte(V(g, s), i, q) {
      MetaStepByte(g, s, s1, i, q);
    }
  }

  /** Traffic of the inode allocator leaves every file alone. */
  lemma InodeBitsMoved(g: Geom, s: Fs, s1: Fs)
    requires FsOK(g, s) && MetaOK(g, s1.m) && s1 == s.(m := s1.m)
    requires OnlyMeta(g, Inodes, s.m.disk, s1.m.disk) && Used(g, s1.m.disk) == Used(g, s.m.disk)
    ensures FsOK(g, s1) && SameBytes(g, s, s1) && PtrsSame(g, s, s1) && TablesSame(g, s.m.disk, s1.m.disk)
  {
    FsInodeStep(g, s, s1);
    forall i, q: nat | i in s.raws && q < U32 ensures RawByte(V(g, s1), i, q) == RawByte(V(g, s), i, q) {
      MetaStepByte(g, s, s1, i, q);
    }
  }

  lemma InodeGiven(g: Geom, s: Fs, s1: Fs, ino: nat, dirty: set<nat>)
    requires FsOK(g, s) && MetaOK(g, s1.m) && s1 == s.(m := s1.m) && GaveInode(g, s.m, s1.m, ino) && Synced(g, s, dirty)
    ensures FsOK(g, s1) && Synced(g, s1, dirty) && SameBytes(g, s, s1) && PtrsSame(g, s, s1)
    ensures RecordsKept(g, s.m.disk, s1.m.disk, 0)
  {
    InodeBitsMoved(g, s, s1);
    TablesKeep(g, s.m.disk, s1.m.disk, 0);
    assert Synced(g, s1, dirty) by { SyncedKept(g, s, s1, dirty, dirty); }
  }

  lemma Forgotten(g: Geom, s: Fs, s1: Fs, ino: nat, dirty: set<nat>)
    requires FsOK(g, s) && MetaOK(g, s1.m) && ino in s.raws && Synced(g, s, dirty + {ino})
    requires Freeing(g, s, s1.m, Held(s.owner, Deletable(g.bs / 4, ino)))
    requires s1 == Fs(s1.m, s.raws[ino := Zeros(128)], Restrict(s.owner, Others(ino)))
    ensures FsOK(g, s1) && Synced(g, s1, dirty + {ino})
    ensures forall t {:trigger Ptr(V(g, s1), t)} ::
      IsSlot(V(g, s), t) ==> Ptr(V(g, s1), t) == if t in Others(ino) then Ptr(V(g, s), t) else 0
  {
    ZeroedRoots(g, s, s1.m, ino);
    forall t | t in Deletable(g.bs / 4, ino) ensures t !in Others(ino) { InoOfSlots(g.bs / 4, ino, t); }
    FsCut(g, s, s1, ino, Others(ino), Deletable(g.bs / 4, ino));
    assert Synced(g, s1, dirty + {ino}) by { SyncedKept(g, s, s1, dirty + {ino}, dirty + {ino}); }
  }

  /** ext2_delete_inode */
  method DeleteInode(vol: Vol, inode: Inode, ghost dirty: set<nat>)
    requires FsOK(vol.g, Snap(vol)) && inode.ino in vol.raws && vol.raws[inode.ino] == inode.raw
    requires Synced(vol.g, Snap(vol), dirty + {inode.ino}) && inode.ino in UsedInodes(vol.g, vol.disk)
    modifies vol, inode`raw
    ensures FsOK(vol.g, Snap(vol)) && Synced(vol.g, Snap(vol), dirty) && inode.raw == Zeros(128)
    ensures Deleted(vol.g, old(Snap(vol)), Snap(vol), inode.ino) && Blank(vol.g, vol.disk, inode.ino)
  {
    hide OnlyMeta, Counted, WrittenThrough, CountClear, BitSet, Zeros, Blank;
    ghost var s := Snap(vol);
    FreeFileBlocks(vol, inode);
    inode.raw := Zeros(128);
    vol.raws := vol.raws[inode.ino := inode.raw];
    vol.owner := Restrict(vol.owner, Others(inode.ino));
    ghost var s1 := Snap(vol);
    Forgotten(vol.g, s, s1, inode.ino, dirty);
    ReleaseInode(vol, inode.ino, dirty);
    CutBytes(vol.g, s, s1, Snap(vol), inode.ino);
  }

  /** All blocks of inode ino, data and indirect. */
  ghost function BlocksOf(owner: map<nat, Slot>, ino: nat): set<nat>
  {
    set b | b in owner && Ino(owner[b]) == ino
  }

  lemma {:induction false} RootHeld(v: View, t: Slot)
    requires IsSlot(v, t) && Ptr(v, t) != 0
    ensures t.Child? ==> Ptr(v, t.up) != 0 && IsSlot(v, t.up)
  {
  }

  /** A slot of ino below i_block[k] with k <= 12 is one that deletion gives back. */
  lemma SmallSlot(v: View, ino: nat, t: Slot)
    requires IsSlot(v, t) && Ino(t) == ino && Ptr(v, t) != 0
    requires Ptr(v, Root(ino, 13)) == 0 && Ptr(v, Root(ino, 14)) == 0
    ensures t in Deletable(Ptrs(v), ino)
  {
    Rooted(v, t);
  }

  /** A slot that holds a block hangs from an i_block[] word that is set. */
  lemma {:induction false} Rooted(v: View, t: Slot)
    requires IsSlot(v, t) && Ptr(v, t) != 0
    ensures IsSlot(v, Root(Ino(t), TopOf(t))) && Ptr(v, Root(Ino(t), TopOf(t))) != 0
    ensures Level(Root(Ino(t), TopOf(t))) == Level(t) + Depth(t)
  {
    if t.Child? {
      RootHeld(v, t);
      Rooted(v, t.up);
    }
  }

  /** Deleting a file gives every one of its blocks back exactly when it has no doubly or
      triply indirect tree; otherwise those trees stay marked used with no owner. */
  lemma DeleteLeaks(g: Geom, s: Fs, s': Fs, ino: nat)
    requires FsOK(g, s) && Deleted(g, s, s', ino)
    ensures Held(s.owner, Deletable(g.bs / 4, ino)) == BlocksOf(s.owner, ino)
       <==> IPtr(s.raws[ino], 13) == 0 && IPtr(s.raws[ino], 14) == 0
    ensures FreeBlocksOf(s'.m) + |s'.owner| == FreeBlocksOf(s.m) + |s.owner|
       <==> IPtr(s.raws[ino], 13) == 0 && IPtr(s.raws[ino], 14) == 0
  {
    hide Owns, OwnedOK, MetaOK, Deletable, OthersKept;
    var p := g.bs / 4;
    var freed, mine := Held(s.owner, Deletable(p, ino)), BlocksOf(s.owner, ino);
    assert s'.owner.Keys == s.owner.Keys - mine;
    assert |s'.owner| == |s.owner| - |mine|;
    if IPtr(s.raws[ino], 13) == 0 && IPtr(s.raws[ino], 14) == 0 {
      FreedAll(V(g, s), s.owner, ino);
    } else {
      FreedSome(V(g, s), s.owner, ino);
    }
  }

  lemma FreedAll(v: View, owner: map<nat, Slot>, ino: nat)
    requires Owns(v, owner) && Ptr(v, Root(ino, 13)) == 0 && Ptr(v, Root(ino, 14)) == 0
    ensures Held(owner, Deletable(Ptrs(v), ino)) == BlocksOf(owner, ino)
  {
    forall b | b in owner ensures owner[b] in Deletable(Ptrs(v), ino) <==> Ino(owner[b]) == ino {
      if Ino(owner[b]) == ino {
        SmallSlot(v, ino, owner[b]);
      } else if owner[b] in Deletable(Ptrs(v), ino) {
        InoOfSlots(Ptrs(v), ino, owner[b]);
      }
    }
  }

  lemma FreedSome(v: View, owner: map<nat, Slot>, ino: nat)
    requires Owns(v, owner) && ino in v.raws && (Ptr(v, Root(ino, 13)) != 0 || Ptr(v, Root(ino, 14)) != 0)
    ensures Held(owner, Deletable(Ptrs(v), ino)) != BlocksOf(owner, ino)
    ensures |Held(owner, Deletable(Ptrs(v), ino))| < |BlocksOf(owner, ino)|
  {
    hide Owns, Deletable;
    var freed, mine := Held(owner, Deletable(Ptrs(v), ino)), BlocksOf(owner, ino);
    forall b | b in freed ensures b in mine { InoOfSlots(Ptrs(v), ino, owner[b]); }
    var k := if Ptr(v, Root(ino, 13)) != 0 then 13 else 14;
    LeftBehind(v, owner, ino, k);
    SubsetSize(freed, mine - {Ptr(v, Root(ino, k))});
  }

  /** The root of a doubly or triply indirect tree is not given back. */
  lemma LeftBehind(v: View, owner: map<nat, Slot>, ino: nat, k: nat)
    requires Owns(v, owner) && ino in v.raws && 13 <= k < 15 && Ptr(v, Root(ino, k)) != 0
    ensures Ptr(v, Root(ino, k)) in BlocksOf(owner, ino)
    ensures Ptr(v, Root(ino, k)) !in Held(owner, Deletable(Ptrs(v), ino))
  {
    assert owner[Ptr(v, Root(ino, k))] == Root(ino, k);
  }

  lemma {:induction false} SubsetSize<T>(a: set<T>, b: set<T>)
    requires a <= b
    ensures |a| <= |b|
  {
    if a != {} {
      var x :| x in a;
      SubsetSize(a - {x}, b - {x});
    }
  }
}
