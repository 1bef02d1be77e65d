/** Create then unlink, and mkdir then rmdir: what comes back. */
module Restore {
  import opened Words
  import opened Bytes
  import opened BlockTree
  import opened Layout
  import opened Metadata
  import opened FsState
  import opened FileData
  import opened FileOps
  import opened FileFree
  import opened EntryLists
  import opened DirOps
  import opened DirAdd
  import opened NameOps
  import opened SubDirs
  import opened Runs

  /** Removing the first entry of a name that was not there before undoes its insertion. */
  lemma InsertRemove(es: seq<Entry>, es1: seq<Entry>, es2: seq<Entry>, p: nat, e: Entry)
    requires Inserted(es, es1, p, e) && Absent(es, e.name) && Removed(es1, es2, e.name)
    ensures First(es1, e.name) == p && es1[p] == e && es2 == es
  {
    assert forall j :: 0 <= j < p ==> es1[j] == es[j];
    FirstUnique(es1, e.name, p);
    assert es1[..p] == es[..p] && es1[p+1..] == es[p..];
  }

  lemma AddedFirst(es: seq<Entry>, es1: seq<Entry>, e: Entry)
    requires Added(es, es1, e) && Absent(es, e.name)
    ensures First(es1, e.name) < |es1| && es1[First(es1, e.name)] == e
  {
    var p: nat :| Inserted(es, es1, p, e);
    assert forall j :: 0 <= j < p ==> es1[j] == es[j];
    FirstUnique(es1, e.name, p);
  }

  lemma AddedRemoved(es: seq<Entry>, es1: seq<Entry>, es2: seq<Entry>, e: Entry)
    requires Added(es, es1, e) && Absent(es, e.name) && Removed(es1, es2, e.name)
    ensures es2 == es
  {
    var p: nat :| Inserted(es, es1, p, e);
    InsertRemove(es, es1, es2, p, e);
  }

  /** Everything but directory d's own blocks is as it was. */
  ghost predicate Restored(g: Geom, s: Fs, s': Fs, d: nat)
  {
    && d in s.raws && d in s'.raws && s'.raws.Keys == s.raws.Keys
    && ListOf(g, s', d) == ListOf(g, s, d)
    && ModeOf(s'.raws[d]) == ModeOf(s.raws[d]) && LinksOf(s'.raws[d]) == LinksOf(s.raws[d])
    && SameRest(s.raws[d], s'.raws[d])
    && (forall i :: i in s.raws && i != d ==> s'.raws[i] == s.raws[i])
    && OthersKept(g, s, s', d)
    && UsedInodes(g, s'.m.disk) == UsedInodes(g, s.m.disk) && FreeInodesOf(s'.m) == FreeInodesOf(s.m)
    && OnlyGained(s, s', d)
  }

  /** The free count fell by exactly the blocks d grew by. */
  ghost predicate OnlyGained(s: Fs, s': Fs, d: nat)
  {
    && (forall b :: b in s.owner ==> b in s'.owner && s'.owner[b] == s.owner[b])
    && (forall b :: b in s'.owner && b !in s.owner ==> Ino(s'.owner[b]) == d)
    && FreeBlocksOf(s'.m) + |s'.owner| == FreeBlocksOf(s.m) + |s.owner|
  }

  lemma NoneHeld(owner: map<nat, Slot>, p: nat, x: nat)
    requires forall b :: b in owner ==> Ino(owner[b]) != x
    ensures Held(owner, Deletable(p, x)) == {} && Restrict(owner, Others(x)) == owner
  {
    forall b | b in owner ensures owner[b] !in Deletable(p, x) {
      if owner[b] in Deletable(p, x) { InoOfSlots(p, x, owner[b]); }
    }
  }

  lemma BackAgain(g: Geom, s: Fs, s1: Fs, s2: Fs, d: nat, x: nat)
    requires Only(g, s, s1, {d, x}) && Only(g, s1, s2, {d, x}) && x != d && x in s.raws
    requires s.raws[x] == Zeros(128) && x in s2.raws && s2.raws[x] == Zeros(128)
    ensures OthersKept(g, s, s2, d) && s2.raws.Keys == s.raws.Keys
    ensures forall i :: i in s.raws && i != d ==> s2.raws[i] == s.raws[i]
  {
    NoBlocksBytes(g, s, s2, x);
  }

  lemma CreateGains(g: Geom, s: Fs, s1: Fs, s2: Fs, d: nat, e: Entry, raw: RawInode)
    requires FsOK(g, s) && Clean(g, s) && Created(g, s, s1, d, e, raw)
    requires !IsDirMode(ModeOf(raw)) && LinksOf(raw) == 1 && NoBlocks(raw)
    requires TargetOf(g, s1, d, e.name) == e.ino
    requires Unlinked(g, s1, s2, d, e.name, TargetOf(g, s1, d, e.name))
    ensures OnlyGained(s, s2, d)
  {
    hide Added, Removed, ListOf, IsDir, OthersKept, First, Deletable, Others, TargetOf, UsedInodes, MetaOK, OwnedOK,
         RawByte, Resolve, MapEnd, DirCounts;
    assert e.ino in s.raws;
    CleanAt(g, s, e.ino);
    FreeOwns(g, s, e.ino);
    NoneHeld(s1.owner, g.bs / 4, e.ino);
  }

  /** Creating a file under a name that was not there and unlinking it. */
  lemma CreateThenUnlink(g: Geom, s: Fs, s1: Fs, s2: Fs, d: nat, e: Entry, raw: RawInode)
    requires FsOK(g, s) && Clean(g, s) && Created(g, s, s1, d, e, raw)
    requires !IsDirMode(ModeOf(raw)) && LinksOf(raw) == 1 && NoBlocks(raw)
    requires Absent(ListOf(g, s, d), e.name)
    requires Unlinked(g, s1, s2, d, e.name, TargetOf(g, s1, d, e.name))
    ensures NamesFile(g, s1, d, e.name) && TargetOf(g, s1, d, e.name) == e.ino
    ensures Restored(g, s, s2, d) && DirCounts(s2.m) == DirCounts(s.m)
  {
    hide Added, Removed, ListOf, IsDir, Only, OthersKept, First, Deletable, Others, OnlyGained;
    AddedFirst(ListOf(g, s, d), ListOf(g, s1, d), e);
    AddedRemoved(ListOf(g, s, d), ListOf(g, s1, d), ListOf(g, s2, d), e);
    CreateGains(g, s, s1, s2, d, e, raw);
    BackAgain(g, s, s1, s2, d, e.ino);
  }

  /** A directory whose one block hangs on i_block[0]: what its deletion gives back. */
  lemma OneHeld(s: Fs, s1: Fs, p: nat, d: nat, x: nat)
    requires x != d && (forall b :: b in s.owner ==> b in s1.owner && s1.owner[b] == s.owner[b] && Ino(s.owner[b]) != x)
    requires forall b :: b in s1.owner && b !in s.owner ==> Ino(s1.owner[b]) == d || s1.owner[b] == Root(x, 0)
    ensures Held(s1.owner, Deletable(p, x)) == BlocksOf(s1.owner, x)
    ensures Restrict(s1.owner, Others(x)).Keys == s1.owner.Keys - BlocksOf(s1.owner, x)
    ensures |Restrict(s1.owner, Others(x))| == |s1.owner| - |BlocksOf(s1.owner, x)|
  {
    forall b | b in s1.owner ensures s1.owner[b] in Deletable(p, x) <==> Ino(s1.owner[b]) == x {
      if s1.owner[b] in Deletable(p, x) { InoOfSlots(p, x, s1.owner[b]); }
    }
  }

  lemma SubGained(g: Geom, s: Fs, s1: Fs, s2: Fs, d: nat, x: nat)
    requires x != d && SubBooks(g, s, s1, d, x) && Erased(g, s1, s2, x)
    requires forall b :: b in s.owner ==> Ino(s.owner[b]) != x
    ensures OnlyGained(s, s2, d)
  {
    OneHeld(s, s1, g.bs / 4, d, x);
  }

  /** One link more and one fewer, through 16 bits. */
  lemma LinksBack(n: nat)
    requires n < U16
    ensures Low16(Dec32(Low16(Inc(n, U32)))) == n
  {
  }

  /** Making a directory under a name that was not there and removing it: the group's directory
      count, which is the number of its directories, comes back too. */
  lemma MkdirThenRmdir(g: Geom, s: Fs, s1: Fs, s2: Fs, d: nat, e: Entry, raw: RawInode)
    requires FsOK(g, s) && Clean(g, s) && Tallied(g, s) && MadeSub(g, s, s1, d, e, raw) && IsDirMode(ModeOf(raw))
    requires Absent(ListOf(g, s, d), e.name)
    requires RemovedSub(g, s1, s2, d, e.name, TargetOf(g, s1, d, e.name))
    ensures CanRmdir(g, s1, d, e.name) && TargetOf(g, s1, d, e.name) == e.ino
    ensures Restored(g, s, s2, d) && DirCounts(s2.m) == DirCounts(s.m)
  {
    hide Added, Removed, ListOf, IsDir, Only, OthersKept, First, Others, Deletable, DiskOK, RolesOK, GeomOK, Tallied;
    AddedFirst(ListOf(g, s, d), ListOf(g, s1, d), e);
    AddedRemoved(ListOf(g, s, d), ListOf(g, s1, d), ListOf(g, s2, d), e);
    assert OnlyGained(s, s2, d) by {
      FreeOwns(g, s, e.ino);
      SubGained(g, s, s1, s2, d, e.ino);
    }
    BackAgain(g, s, s1, s2, d, e.ino);
    LinksBack(LinksOf(s.raws[d]));
    CountFits16(g, s, InoGroup(g, e.ino));
    CountsBack(DirCounts(s.m), InoGroup(g, e.ino));
  }

  lemma CountFits16(g: Geom, s: Fs, grp: nat)
    requires FsOK(g, s) && Tallied(g, s) && grp < |DirCounts(s.m)|
    ensures DirCounts(s.m)[grp] + 1 < U16
  {
    hide FsOK, DirCounts, DirsOf;
    UsedAreInodes(g, s);
    GroupSize(g, s, grp);
  }

  lemma CountsBack(c: seq<nat>, k: nat)
    requires k < |c| && c[k] + 1 < U16
    ensures c[k := Inc(c[k], U16)][k := Less(c[k := Inc(c[k], U16)][k])] == c
  {
  }
}
