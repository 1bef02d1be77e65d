/** A sound volume with a file "x" that has a block at either end of the 32-bit range: what writing,
    reading, deleting and truncating it do, and making a name below it. */
module Wrapped {
  import opened Words
  import opened Bytes
  import opened Arith
  import opened BlockTree
  import opened Layout
  import opened Metadata
  import opened FsState
  import opened BlockMap
  import opened InodeTable
  import opened FileData
  import opened FileOps
  import opened Truncate
  import opened EntryLists
  import opened DirOps
  import opened NameOps
  import opened Tree
  import opened Runs
  import opened Histories
  import opened Sample
  import opened SampleTree

  const LAST: nat := U32 - 1

  /** Block l of file ino is there. */
  ghost predicate Mapped(g: Geom, s: Fs, ino: nat, l: nat)
  {
    ino in s.raws && Resolve(V(g, s), ino, l) != 0
  }

  /** One byte laid over a block the file has. */
  ghost function Poked(g: Geom, s: Fs, ino: nat, pos: nat, x: Byte): Fs
    requires FsOK(g, s) && pos < U32 && Mapped(g, s, ino, Quot(pos, g.bs))
  {
    MappedOwner(g, s, ino, pos);
    var b := Resolve(V(g, s), ino, Quot(pos, g.bs));
    s.(m := s.m.(disk := s.m.disk[b := Splice(s.m.disk[b], Rem(pos, g.bs), [x])]))
  }

  lemma MappedOwner(g: Geom, s: Fs, ino: nat, pos: nat)
    requires FsOK(g, s) && pos < U32 && Mapped(g, s, ino, Quot(pos, g.bs))
    ensures SizesOK(g) && DiskOK(g, s.m.disk) && Rem(pos, g.bs) < g.bs
    ensures var b := Resolve(V(g, s), ino, Quot(pos, g.bs));
            && b in s.owner && b < g.blocks && Level(s.owner[b]) == 0
            && s.owner[b] == DataSlot(g.bs / 4, ino, Quot(pos, g.bs))
  {
    PosInMap(g.bs, pos);
    DataSlotIs(V(g, s), ino, Quot(pos, g.bs));
  }

  lemma PokeDone(g: Geom, s: Fs, ino: nat, pos: nat, x: Byte)
    requires FsOK(g, s) && pos < U32 && Mapped(g, s, ino, Quot(pos, g.bs))
    ensures FsOK(g, Poked(g, s, ino, pos, x)) && PartDone(g, s, Poked(g, s, ino, pos, x), ino, pos, [x], true)
  {
    hide FsOK, PartDone, Resolve;
    MappedOwner(g, s, ino, pos);
    var b := Resolve(V(g, s), ino, Quot(pos, g.bs));
    OverWritten(g, s, Poked(g, s, ino, pos, x), ino, pos, b, s.m.disk[b], [x]);
  }

  lemma PokeMaps(g: Geom, s: Fs, ino: nat, pos: nat, x: Byte, q: nat)
    requires FsOK(g, s) && pos < U32 && Mapped(g, s, ino, Quot(pos, g.bs))
    requires q < U32 && Mapped(g, s, ino, Quot(q, g.bs))
    ensures Mapped(g, Poked(g, s, ino, pos, x), ino, Quot(q, g.bs))
  {
    var s' := Poked(g, s, ino, pos, x);
    MappedOwner(g, s, ino, pos);
    var b := Resolve(V(g, s), ino, Quot(pos, g.bs));
    DataWritten(g, s, s', b, Splice(s.m.disk[b], Rem(pos, g.bs), [x]));
    PosInMap(g.bs, q);
    ResolveSame(g, s, s', ino, Quot(q, g.bs));
  }

  /** Where a file has blocks at both ends, the write runs to its end. */
  lemma WrapWritten(g: Geom, s: Fs, ino: nat, x: Byte, y: Byte) returns (s': Fs)
    requires FsOK(g, s) && Mapped(g, s, ino, Quot(LAST, g.bs)) && Mapped(g, s, ino, Quot(0, g.bs))
    ensures FsOK(g, s') && Written(g, s, s', ino, [x, y], LAST, 2)
  {
    hide FsOK, Mapped, PartDone, Progress, Poked, Written, Recorded;
    Shape(g, s);
    var buf := [x, y];
    assert ino in s.raws by { InRaws(g, s, ino); }
    NothingWritten(g, s, ino, buf, LAST);
    var s1 := Poked(g, s, ino, LAST, x);
    PokeDone(g, s, ino, LAST, x);
    PokeMaps(g, s, ino, LAST, x, 0);
    assert buf[0..0 + 1] == [x];
    Progresses(g, s, s, s1, ino, buf, LAST, 0, 1, true);
    var s2 := Poked(g, s1, ino, 0, y);
    PokeDone(g, s1, ino, 0, y);
    assert buf[1..1 + 1] == [y];
    Progresses(g, s, s1, s2, ino, buf, LAST, 1, 1, true);
    s' := WrapRecorded(g, s, s2, ino, buf);
  }

  lemma InRaws(g: Geom, s: Fs, ino: nat)
    requires Mapped(g, s, ino, 0) || Mapped(g, s, ino, Quot(0, g.bs))
    ensures ino in s.raws
  {
  }

  /** The record written back: the size is that of the wrapped end. */
  lemma WrapRecorded(g: Geom, s: Fs, s2: Fs, ino: nat, buf: Buf) returns (s': Fs)
    requires FsOK(g, s) && FsOK(g, s2) && ino in s.raws && |buf| == 2 && Progress(g, s, s2, ino, buf, LAST, 2)
    ensures FsOK(g, s') && Written(g, s, s', ino, buf, LAST, 2)
  {
    hide FsOK, Written, Wrote, OthersKept, CountsData, Recorded, SameBytes, PtrsSame, SameRest, MapsGrown, TablesSame,
         Used, UsedInodes;
    Shape(g, s2);
    SizeKept(s, s2, ino);
    RestKept(s.raws, s2.raws, ino);
    var old' := s2.raws[ino];
    Get32Below(s.raws[ino]);
    var raw := Recorded(old', ModeOf(old'), Max(SizeOf(s.raws[ino]), 1), LinksOf(old'), IBlocks(old'));
    InodeSpot(g, ino);
    var blk := InodeBlock(g, ino);
    var disk := s2.m.disk[blk := Splice(s2.m.disk[blk], InodeOff(g, ino), raw)];
    RecordStored(g, s2.m.disk, disk, ino, raw);
    s' := Fs(s2.m.(disk := disk), s2.raws[ino := raw], s2.owner);
    RecordBytes(g, s2, s2.(raws := s2.raws[ino := raw]), s', ino, raw);
    SameRestTrans(s.raws[ino], old', raw);
    StepThenRecord(g, s, s2, s', ino, raw, buf, LAST, 2);
  }

  // ----- such a file, holding c -----

  /** A file with blocks at both ends of the 32-bit range, in units of 4 KiB */
  function EndsRecord(size: nat): (r: RawInode)
    requires size <= 2
    ensures |r| == 128 && SizeOf(r) == size && ModeOf(r) == 0x8000 && LinksOf(r) == 1
    ensures forall w: nat :: IBLOCK_WORD <= w < IBLOCK_WORD + 15 ==>
      Word(r, w) == if w == IBLOCK_WORD then 6 else if w == IBLOCK_WORD + 13 then 7 else 0
  {
    var h := Pointing(0x8000, 1, size, 6);
    var r := SetWord(h, IBLOCK_WORD + 13, 7);
    assert Get16(r, I_MODE) == Get16(h, I_MODE) && Get16(r, I_LINKS) == Get16(h, I_LINKS);
    assert Get32(r, I_SIZE) == Get32(h, I_SIZE);
    r
  }

  /** An indirect block with one pointer */
  function OneWord(j: nat, x: nat): (b: Buf)
    requires j < 1024 && x < U32
    ensures |b| == 4096 && forall k: nat :: Word(b, k) == if k == j then x else 0
  {
    NoWord(Zeros(4096));
    SetWord(Zeros(4096), j, x)
  }

  lemma NoWord(b: Buf)
    requires forall k :: 0 <= k < |b| ==> b[k] == 0
    ensures forall k: nat :: Word(b, k) == 0
  {
  }

  function EndsData(c: Buf): (data: seq<Block>)
    requires |c| <= 2
    ensures |data| == 6 && data[0] == RootBlock(4096, FT_FILE) && data[1] == c + Zeros(4096 - |c|)
    ensures data[2] == OneWord(1022, 8) && data[3] == OneWord(1011, 9) && data[4] == data[5] == Zeros(4096)
  {
    [RootBlock(4096, FT_FILE), c + Zeros(4096 - |c|), OneWord(1022, 8), OneWord(1011, 9), Zeros(4096), Zeros(4096)]
  }

  const UP: Slot := Root(3, 13)
  const MID: Slot := Child(UP, 1022)
  const DEEP: Slot := Child(MID, 1011)

  function EndsOwner(): map<nat, Slot>
  {
    map[5 := Root(2, 0), 6 := Root(3, 0), 7 := UP, 8 := MID, 9 := DEEP]
  }

  function EndsKit(c: Buf): Kit
    requires |c| <= 2
  {
    Kit(4096, 6, 5, 1, EndsRecord(|c|), FT_FILE, EndsData(c), EndsOwner())
  }

  function EndsPlan(): Geom { Plan(4096, 6) }

  ghost function Ends(c: Buf): Fs
    requires |c| <= 2
  {
    S(EndsKit(c))
  }

  lemma EndsKitOK(c: Buf)
    requires |c| <= 2
    ensures KitOK(EndsKit(c)) && G(EndsKit(c)) == EndsPlan()
  {
    hide RootBlock, EndsRecord, OneWord, EndsData;
    RootBlockIs(4096, FT_FILE);
    var data := EndsData(c);
    forall k | 0 <= k < |data| ensures |data[k]| == 4096 { }
  }

  ghost predicate TwoEnds(v: View, c: Buf)
  {
    && |c| <= 2 && v.bs == 4096 && Grounded(v, EndsRecord(|c|), FT_FILE) && |v.disk| > 9
    && v.disk[6] == c + Zeros(4096 - |c|) && v.disk[7] == OneWord(1022, 8) && v.disk[8] == OneWord(1011, 9)
    && v.disk[9] == Zeros(4096)
  }

  lemma EndsTwo(c: Buf)
    requires |c| <= 2
    ensures TwoEnds(V(EndsPlan(), Ends(c)), c)
  {
    hide EndsRecord, OneWord, Grounded, RootBlock, RootRecord, S, KitOK, EndsData;
    EndsKitOK(c);
    var k := EndsKit(c);
    KitGrounded(k);
    KitData(k);
    var disk := Ends(c).m.disk;
    assert disk[5 + 1] == k.data[1] && disk[5 + 2] == k.data[2] && disk[5 + 3] == k.data[3] && disk[5 + 4] == k.data[4];
  }

  function Holds(t: Slot): nat
  {
    if t == Root(2, 0) then 5 else if t == Root(3, 0) then 6 else if t == UP then 7 else if t == MID then 8
    else if t == DEEP then 9 else 0
  }

  lemma {:induction false} FivePointers(v: View, c: Buf, t: Slot)
    requires TwoEnds(v, c) && IsSlot(v, t)
    ensures Ptr(v, t) == Holds(t)
  {
    hide EndsRecord, OneWord, RootRecord, RootBlock;
    if Ino(t) != 3 {
      RootPointers(v, EndsRecord(|c|), FT_FILE, t);
    } else if t.Child? {
      FivePointers(v, c, t.up);
    }
  }

  lemma EndsOwns(v: View, c: Buf)
    requires TwoEnds(v, c)
    ensures Owns(v, EndsOwner())
  {
    hide EndsRecord, OneWord, Ptr, RootRecord, RootBlock;
    assert IsSlot(v, Root(2, 0)) && IsSlot(v, Root(3, 0)) && IsSlot(v, UP) && IsSlot(v, MID) && IsSlot(v, DEEP);
    forall t | IsSlot(v, t) ensures Ptr(v, t) == Holds(t) { FivePointers(v, c, t); }
  }

  lemma LastSlot()
    ensures Quot(LAST, 4096) == 1048575 && DataSlot(1024, 3, 1048575) == DEEP && 1048575 < MapEnd(1024)
    ensures Quot(0, 4096) == 0 && DataSlot(1024, 3, 0) == Root(3, 0)
  {
    QuotIs(LAST, 4096);
    TimesIs(1024, 1024);
    QuotIs(1047539, 1024);
    QuotIs(0, 4096);
  }

  lemma EndsByte(v: View, c: Buf, p: nat)
    requires TwoEnds(v, c) && p < U32
    ensures RawByte(v, 3, p) == if p < |c| then c[p] else 0
  {
    hide EndsRecord, OneWord, Ptr, IsSlot, Grounded, DataSlot;
    GroundedSize(v, EndsRecord(|c|), FT_FILE);
    PosInMap(4096, p);
    QuotRem(p, 4096);
    var t := DataSlot(1024, 3, Quot(p, 4096));
    DataSlotIs(v, 3, Quot(p, 4096));
    FivePointers(v, c, t);
    LastSlot();
    if p < 4096 { QuotIs(p, 4096); }
    if t == Root(3, 0) {
      DataSlotInjective(1024, 3, Quot(p, 4096), 3, 0);
      TimesIs(0, 4096);
    }
  }

  lemma EndsSound(c: Buf)
    requires |c| <= 2
    ensures KitOK(EndsKit(c)) && Sound3(EndsKit(c))
  {
    hide EndsRecord, OneWord, RootRecord, RootBlock, Image, TwoEnds, Owns, RawByte;
    EndsKitOK(c);
    EndsTwo(c);
    var v := V(EndsPlan(), Ends(c));
    EndsOwns(v, c);
    assert 3 in v.raws && SizeOf(v.raws[3]) == |c|;
    forall p: nat | |c| <= p < U32 ensures RawByte(v, 3, p) == 0 { EndsByte(v, c, p); }
  }

  lemma EndsBytes(c: Buf)
    requires |c| <= 2
    ensures Resolve(V(EndsPlan(), Ends(c)), 3, 1048575) == 9 && Resolve(V(EndsPlan(), Ends(c)), 3, 0) == 6
    ensures forall p: nat :: p < U32 ==> RawByte(V(EndsPlan(), Ends(c)), 3, p) == if p < |c| then c[p] else 0
  {
    hide EndsRecord, OneWord, RootRecord, RootBlock, VolOK, FsOK, Owns, IsSlot, Ptr, RawByte, TwoEnds, IsFileIno,
         IsDirIno, ListOf, IsDir, TailZero, S, DataSlot, UsedInodes;
    var v := V(EndsPlan(), Ends(c));
    EndsKitOK(c);
    EndsSound(c);
    KitBooks(EndsKit(c));
    PlanOK(4096, 6);
    EndsTwo(c);
    forall p: nat | p < U32 ensures RawByte(v, 3, p) == if p < |c| then c[p] else 0 { EndsByte(v, c, p); }
    LastSlot();
    EndsSlots(v);
    FivePointers(v, c, DEEP);
    FivePointers(v, c, Root(3, 0));
  }

  /** Everything a caller may know of the volume */
  lemma EndsVol(c: Buf)
    requires |c| <= 2
    ensures VolOK(EndsPlan(), Ends(c), 2) && FsOK(EndsPlan(), Ends(c)) && TailZero(V(EndsPlan(), Ends(c)), 3)
    ensures EndsPlan().bs == 4096 && SizesOK(EndsPlan()) && HasInode(EndsPlan(), Ends(c))
    ensures FreeBlocksOf(Ends(c).m) == 1 && IsFileIno(EndsPlan(), Ends(c), 3) && IsDirIno(EndsPlan(), Ends(c), 2)
    ensures 3 in Ends(c).raws && Ends(c).raws[3] == EndsRecord(|c|)
    ensures Resolve(V(EndsPlan(), Ends(c)), 3, 1048575) == 9 && Resolve(V(EndsPlan(), Ends(c)), 3, 0) == 6
    ensures forall p: nat :: p < U32 ==> RawByte(V(EndsPlan(), Ends(c)), 3, p) == if p < |c| then c[p] else 0
    ensures ListOf(EndsPlan(), Ends(c), 2) == RootList(FT_FILE)
  {
    hide EndsRecord, OneWord, RootRecord, RootBlock, VolOK, FsOK, Owns, IsSlot, Ptr, RawByte, TwoEnds, IsFileIno,
         IsDirIno, ListOf, IsDir, TailZero, S, DataSlot, UsedInodes, Resolve;
    EndsKitOK(c);
    EndsSound(c);
    SampleVol(EndsKit(c));
    KitBooks(EndsKit(c));
    KitInos(EndsKit(c));
    KitRoot(EndsKit(c));
    PlanOK(4096, 6);
    EndsBytes(c);
  }

  lemma EndsSlots(v: View)
    requires v.bs == 4096 && 3 in v.raws
    ensures IsSlot(v, DEEP) && IsSlot(v, Root(3, 0))
  {
  }

  // ----- what happens there -----

  const ONES: Buf := [1, 1]

  /** A write of two bytes at the last position runs to its end, and what is left is not the file with
      the two bytes laid over. */
  lemma WriteCanWrap(x: Byte, y: Byte) returns (s': Fs)
    ensures VolOK(EndsPlan(), Ends(ONES), 2) && FsOK(EndsPlan(), s') && IsFileIno(EndsPlan(), Ends(ONES), 3)
    ensures Written(EndsPlan(), Ends(ONES), s', 3, [x, y], LAST, 2)
    ensures 3 in Ends(ONES).raws && Content(V(EndsPlan(), s'), 3) == [y, 1]
    ensures Content(V(EndsPlan(), s'), 3) != Overlaid(Content(V(EndsPlan(), Ends(ONES)), 3), LAST, [x, y])
  {
    hide VolOK, FsOK, Ends, Written, Plan, RawByte, Overlaid, Resolve, IsFileIno, EndsRecord, ListOf, TailZero;
    EndsVol(ONES);
    LastSlot();
    s' := WrapWritten(EndsPlan(), Ends(ONES), 3, x, y);
    WrapRead(EndsPlan(), Ends(ONES), s', x, y);
    assert |[y, 1 as Byte]| != |Overlaid(Content(V(EndsPlan(), Ends(ONES)), 3), LAST, [x, y])|;
  }

  lemma WrapRead(g: Geom, s: Fs, s': Fs, x: Byte, y: Byte)
    requires 3 in s.raws && SizeOf(s.raws[3]) == 2 && Written(g, s, s', 3, [x, y], LAST, 2)
    requires RawByte(V(g, s), 3, 1) == 1
    ensures Content(V(g, s'), 3) == [y, 1]
  {
    hide RawByte, OthersKept, CountsData, DirCounts, UsedInodes, MapsGrown;
    assert Ahead(LAST, 0) == 1 && Ahead(LAST, 1) == 2;
    ContentAt(V(g, s'), 3, 0);
    ContentAt(V(g, s'), 3, 1);
  }

  /** A read of 2^32 - 1 bytes from the second byte on returns them all, most of them from past the
      end and the last of them the first byte of the file. */
  lemma ReadCanWrap() returns (buf: Buf)
    ensures VolOK(EndsPlan(), Ends(ONES), 2) && 3 in Ends(ONES).raws
    ensures ReadOut(V(EndsPlan(), Ends(ONES)), 3, 2, 1, U32 - 1, buf)
    ensures buf != Slice(Content(V(EndsPlan(), Ends(ONES)), 3), 1, U32 - 1)
  {
    hide VolOK, Ends, Plan, RawByte, Resolve, EndsRecord, ListOf, TailZero, FsOK, IsFileIno, Content;
    EndsVol(ONES);
    var v := V(EndsPlan(), Ends(ONES));
    buf := seq<Byte>(U32 - 1, k requires 0 <= k < U32 - 1 => RawByte(v, 3, Add32(1, k)));
    ReadRefines(v, 3, 1, U32 - 1, buf);
  }

  /** Unlinking "x" loses blocks: its doubly indirect tree is not given back. */
  lemma DeleteCanLeak()
    ensures VolOK(EndsPlan(), Ends(ONES), 2) && Apt(EndsPlan(), Ends(ONES), OpUnlink(2, X_NAME))
    ensures NamesFile(EndsPlan(), Ends(ONES), 2, X_NAME) && TargetOf(EndsPlan(), Ends(ONES), 2, X_NAME) == 3
    ensures !Lossless(EndsPlan(), Ends(ONES), 2, OpUnlink(2, X_NAME))
  {
    hide VolOK, Ends, Plan, RawByte, Resolve, EndsRecord, TailZero, FsOK, UsedInodes, ListOf;
    EndsVol(ONES);
    XIsFirst();
  }

  lemma XIsFirst()
    ensures First(RootList(FT_FILE), X_NAME) == 2 && !Absent(RootList(FT_FILE), X_NAME)
  {
    var es := RootList(FT_FILE);
    assert es[0].name == DOT_NAME && es[1].name == DOTDOT_NAME && es[2].name == X_NAME;
    FirstUnique(es, X_NAME, 2);
  }

  /** Truncated to nothing, the file still has a block at the far end. */
  lemma CutCanStay(s': Fs)
    ensures VolOK(EndsPlan(), Ends(ONES), 2) && 3 in Ends(ONES).raws && SizeOf(Ends(ONES).raws[3]) == 2
    ensures Truncated(EndsPlan(), Ends(ONES), s', 3, 0) ==>
      Resolve(V(EndsPlan(), s'), 3, 1048575) != 0
  {
    hide VolOK, Ends, Plan, RawByte, Resolve, EndsRecord, TailZero, FsOK, IsFileIno, ListOf, Truncated;
    EndsVol(ONES);
    LastSlot();
    if Truncated(EndsPlan(), Ends(ONES), s', 3, 0) {
      CutMaps(EndsPlan(), Ends(ONES), s', 3, 0, 1048575);
    }
  }

  /** Truncated to one byte less than 4 GiB, the file loses the bytes it has. */
  lemma CutCanLose(s': Fs)
    ensures VolOK(EndsPlan(), Ends(ONES), 2) && 3 in Ends(ONES).raws && SizeOf(Ends(ONES).raws[3]) == 2
    ensures Truncated(EndsPlan(), Ends(ONES), s', 3, LAST) ==>
      RawByte(V(EndsPlan(), s'), 3, 0) != RawByte(V(EndsPlan(), Ends(ONES)), 3, 0)
  {
    hide VolOK, Ends, Plan, RawByte, Resolve, EndsRecord, TailZero, FsOK, IsFileIno, ListOf, CutDone, BlockCount;
    EndsVol(ONES);
    if Truncated(EndsPlan(), Ends(ONES), s', 3, LAST) { CutByte(EndsPlan(), Ends(ONES), s', 3, LAST, 0); }
  }

  /** Truncated to one byte, the file keeps the second behind its end. */
  lemma CutCanShow(s': Fs)
    ensures VolOK(EndsPlan(), Ends(ONES), 2) && 3 in Ends(ONES).raws && SizeOf(Ends(ONES).raws[3]) == 2
    ensures Truncated(EndsPlan(), Ends(ONES), s', 3, 1) ==>
      !TailZero(V(EndsPlan(), s'), 3)
  {
    hide VolOK, Ends, Plan, RawByte, Resolve, EndsRecord, TailZero, FsOK, IsFileIno, ListOf, Truncated;
    EndsVol(ONES);
    QuotIs(1, 4096);
    if Truncated(EndsPlan(), Ends(ONES), s', 3, 1) {
      CutTail(EndsPlan(), Ends(ONES), s', 3, 1);
      assert RawByte(V(EndsPlan(), Ends(ONES)), 3, 1) != 0;
    }
  }

  /** Below an empty file that has a block already a create puts another in its place and loses it. */
  lemma AddCanDisplace(name: Buf, mode: nat)
    requires |name| <= 255
    ensures VolOK(EndsPlan(), Ends([]), 2) && Apt(EndsPlan(), Ends([]), OpCreate(3, name, mode))
    ensures CanCreate(EndsPlan(), Ends([]), 3, name)
    ensures !Lossless(EndsPlan(), Ends([]), 2, OpCreate(3, name, mode))
  {
    hide VolOK, Ends, Plan, RawByte, Resolve, EndsRecord, TailZero, FsOK, UsedInodes, ListOf, HasInode;
    EndsVol([]);
    QuotIs(4095, 4096);
  }
}
