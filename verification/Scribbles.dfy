/** A sound volume with an empty file "x" on which a new name below "x", or a write to the root,
    goes through and breaks what it goes over. */
module Scribbles {
  import opened Bytes
  import opened Arith
  import opened BlockTree
  import opened Layout
  import opened Metadata
  import opened FsState
  import opened BlockMap
  import opened InodeTable
  import opened FileData
  import opened FileOps
  import opened EntryLists
  import opened DirBlock
  import opened DirOps
  import opened DirAdd
  import opened NameOps
  import opened SubDirs
  import opened Tree
  import opened Runs
  import opened Soundness
  import opened Histories
  import opened Sample
  import opened SampleTree

  function BlankKit(): Kit
  {
    Kit(1024, 3, 1, 1, NewRecord(0x8000, 1), FT_FILE, BlankData(), map[6 := Root(2, 0)])
  }

  function BlankData(): (data: seq<Block>)
    ensures |data| == 3 && data[0] == RootBlock(1024, FT_FILE) && data[1] == Zeros(1024) && data[2] == Zeros(1024)
  {
    [RootBlock(1024, FT_FILE), Zeros(1024), Zeros(1024)]
  }

  lemma BlankKitOK()
    ensures KitOK(BlankKit()) && !IsDirMode(ModeOf(BlankKit().raw))
  {
    hide RootBlock, NewRecord;
    RootBlockIs(1024, FT_FILE);
    var data := BlankData();
    forall k | 0 <= k < |data| ensures |data[k]| == 1024 { assert k > 0 ==> data[k] == Zeros(1024); }
  }

  lemma {:induction false} BlankPointers(v: View, t: Slot)
    requires Grounded(v, BlankKit().raw, FT_FILE) && v.bs == 1024 && IsSlot(v, t)
    ensures Ptr(v, t) == if t == Root(2, 0) then 6 else 0
  {
    hide NewRecord, RootRecord, RootBlock;
    if Ino(t) != 3 {
      RootPointers(v, BlankKit().raw, FT_FILE, t);
    } else {
      match t
      case Root(i, k) => NoBlocksWord(v.raws[i], k);
      case Child(up, j) => BlankPointers(v, up);
    }
  }

  lemma BlankOwns(v: View)
    requires Grounded(v, BlankKit().raw, FT_FILE) && v.bs == 1024 && |v.disk| > 6
    ensures Owns(v, map[6 := Root(2, 0)])
  {
    hide NewRecord, RootRecord, RootBlock, Ptr;
    assert IsSlot(v, Root(2, 0));
    forall t | IsSlot(v, t) ensures Ptr(v, t) == if t == Root(2, 0) then 6 else 0 { BlankPointers(v, t); }
  }

  lemma BlankSound()
    ensures KitOK(BlankKit()) && Sound3(BlankKit())
  {
    hide NewRecord, RootRecord, RootBlock, Grounded, Owns, Image;
    BlankKitOK();
    var k := BlankKit();
    KitGrounded(k);
    BlankOwns(V(G(k), S(k)));
    NewTail(G(k), S(k), 3);
  }

  /** Everything a caller may know of the volume */
  lemma BlankVol()
    ensures var k := BlankKit();
            && VolOK(G(k), S(k), 2) && HasInode(G(k), S(k)) && FreeBlocksOf(S(k).m) == 2
            && IsFileIno(G(k), S(k), 3) && IsDirIno(G(k), S(k), 2) && G(k).bs == 1024 && SizesOK(G(k))
            && 3 in S(k).raws && SizeOf(S(k).raws[3]) == 0 && 2 in S(k).raws && SizeOf(S(k).raws[2]) == 1024
            && Resolve(V(G(k), S(k)), 2, 0) != 0
  {
    hide VolOK, RootBlock, IsDirIno, IsFileIno, Owns, Resolve, Grounded, RootRecord;
    BlankSound();
    var k := BlankKit();
    SampleVol(k);
    KitBooks(k);
    KitInos(k);
    KitGrounded(k);
    GroundedSize(V(G(k), S(k)), k.raw, k.kind);
    RootMap(V(G(k), S(k)), k.raw, k.kind, 2, 0);
    PlanOK(1024, 3);
  }

  lemma NoBlocksYet(g: Geom, s: Fs, nlen: nat)
    requires SizesOK(g) && 3 in s.raws && SizeOf(s.raws[3]) == 0 && g.bs == 1024
    ensures NBlocks(g, s, 3) == 0 && Full(g, s, 3, nlen) && Contained(g, s, 3, nlen) && Missing(g, s, 3, 0) == 0
    ensures MaxAssign(256) > 0
  {
    QuotIs(1023, 1024);
  }

  /** Under an empty file a create and a mkdir go through, and whatever volume they leave, some file
      reads differently. */
  lemma AddsCanScribble(name: Buf, mode: nat, op: Op, s': Fs)
    requires |name| <= 255 && op in {OpCreate(3, name, mode), OpMkdir(3, name, mode)}
    ensures var k := BlankKit(); VolOK(G(k), S(k), 2) && Apt(G(k), S(k), op)
    ensures var k := BlankKit(); CanCreate(G(k), S(k), 3, name) && CanMkdir(G(k), S(k), 3, name)
    ensures Histories.Step(G(BlankKit()), S(BlankKit()), s', 2, op) ==> !Spares(G(BlankKit()), S(BlankKit()), s')
  {
    hide VolOK, HasInode, IsDirIno, S, G, KitOK, BlankKit, Missing, Contained, Full, FsOK, Synced, Clean, NBlocks,
         Spares, DidCreate, DidMkdir, UsedInodes, Resolve;
    var k := BlankKit();
    BlankVol();
    NoBlocksYet(G(k), S(k), |name|);
    assert !IsDirIno(G(k), S(k), 3) by { FileNotDir(G(k), S(k), 3); }
    if Histories.Step(G(k), S(k), s', 2, op) { StepSpares(G(k), S(k), s', 2, op); }
  }

  /** A second "." or ".." in the root goes through, and whatever volume it leaves is not sound. */
  lemma AddCanDouble(name: Buf, mode: nat, s': Fs)
    requires name in {DOT_NAME, DOTDOT_NAME}
    ensures var k := BlankKit(); VolOK(G(k), S(k), 2) && Apt(G(k), S(k), OpCreate(2, name, mode))
    ensures CanCreate(G(BlankKit()), S(BlankKit()), 2, name)
    ensures Histories.Step(G(BlankKit()), S(BlankKit()), s', 2, OpCreate(2, name, mode)) ==>
      !VolOK(G(BlankKit()), s', 2)
  {
    hide VolOK, HasInode, IsDirIno, S, G, KitOK, BlankKit, Missing, Contained, Full, FsOK, Synced, Clean, NBlocks,
         Planted, Created, UsedInodes, Resolve, Sound3;
    var k := BlankKit();
    BlankVol();
    BlankSound();
    KitRoom(k, |name|);
    UsualCase(G(k), S(k), 2, 2, name, mode, [], 0);
    if Histories.Step(G(k), S(k), s', 2, OpCreate(2, name, mode)) {
      var x: nat, raw: RawInode :| MadeFile(G(k), S(k), s', 2, FileEntry(name, x), raw, mode);
      CreateSound(G(k), S(k), s', 2, 2, FileEntry(name, x), raw);
    }
  }

  lemma FileNotDir(g: Geom, s: Fs, i: nat)
    requires IsFileIno(g, s, i)
    ensures !IsDirIno(g, s, i)
  {
  }

  /** Twelve zeros written to "/" go over the first record of the root. */
  lemma ZeroedRecord(g: Geom, s: Fs)
    requires g.bs == 1024 && 2 in s.raws && SizeOf(s.raws[2]) == 1024 && Resolve(V(g, s), 2, 0) != 0
    ensures !NewDir(g, s, 2, Zeros(12), 0, 12)
  {
    hide Resolve, RawByte;
    QuotIs(2047, 1024);
    TimesIs(0, 1024);
    var b := NewBytes(g, s, 2, Zeros(12), 0, 12, 0);
    assert b[4] == NewByte(g, s, 2, Zeros(12), 0, 12, 4) == 0;
    assert b[5] == NewByte(g, s, 2, Zeros(12), 0, 12, 5) == 0;
    assert RecLen(b) == 0;
  }

  /** A write to a directory goes through, and whatever volume it leaves is not sound. */
  lemma WriteCanBreak(s': Fs)
    ensures var k := BlankKit(); VolOK(G(k), S(k), 2) && Apt(G(k), S(k), OpWrite(2, Zeros(12), 0))
    ensures Histories.Step(G(BlankKit()), S(BlankKit()), s', 2, OpWrite(2, Zeros(12), 0)) ==>
      !VolOK(G(BlankKit()), s', 2)
  {
    hide VolOK, HasInode, S, G, KitOK, BlankKit, FsOK, Synced, Clean, UsedInodes, Resolve, Zeros, Written, Stuck,
         NewDir, NewTree;
    var k := BlankKit();
    BlankVol();
    ZeroedRecord(G(k), S(k));
    if Histories.Step(G(k), S(k), s', 2, OpWrite(2, Zeros(12), 0)) {
      var n: nat :| WroteSome(G(k), S(k), s', 2, Zeros(12), 0, n);
      assert n == 12 by { QuotIs(if n < 12 then n else 0, 1024); }
      WriteSound(G(k), S(k), s', 2, 2, Zeros(12), 0, n);
    }
  }
}
