/** vfs/dentry.c over an ext2 volume: following a path through its directories. */
module Walks {
  import opened Words
  import opened Bytes
  import opened BlockTree
  import opened Layout
  import opened Metadata
  import opened Volume
  import opened FsState
  import opened BlockMap
  import opened InodeTable
  import opened FileData
  import opened FileOps
  import opened EntryLists
  import opened DirOps
  import opened NameOps
  import opened Tree
  import opened Runs
  import Paths

  /** The inode that name stands for in directory d, if d is one. */
  ghost function Named(t: Tree, d: nat, name: Buf): Option<nat>
  {
    if d in t.dirs && !Absent(t.dirs[d], name) then Some(t.dirs[d][First(t.dirs[d], name)].ino) else None
  }

  /** Following names one by one. */
  ghost function WalkTo(t: Tree, ino: nat, names: seq<Buf>): Option<nat>
    decreases |names|
  {
    if names == [] then Some(ino) else
    match Named(t, ino, names[0])
    case None => None
    case Some(x) => WalkTo(t, x, names[1..])
  }

  lemma WalkStep(t: Tree, ino: nat, name: Buf, rest: seq<Buf>)
    ensures WalkTo(t, ino, []) == Some(ino)
    ensures WalkTo(t, ino, [name] + rest) ==
      match Named(t, ino, name)
      case None => None
      case Some(x) => WalkTo(t, x, rest)
  {
    assert ([name] + rest)[1..] == rest;
  }

  /** One more name is looked up in the directory the others lead to. */
  lemma {:induction false} WalkComposes(t: Tree, ino: nat, names: seq<Buf>, name: Buf)
    ensures WalkTo(t, ino, names + [name]) ==
      match WalkTo(t, ino, names)
      case None => None
      case Some(d) => Named(t, d, name)
    decreases |names|
  {
    if names == [] {
      assert names + [name] == [name] && [name][1..] == [];
    } else if Named(t, ino, names[0]).Some? {
      assert (names + [name])[1..] == names[1..] + [name];
      WalkComposes(t, Named(t, ino, names[0]).value, names[1..], name);
    }
  }

  /** An in-memory inode. */
  datatype Object = Object(ino: nat, refs: nat)

  /** One reference more on h. */
  function Held(objects: map<nat, Object>, h: nat): map<nat, Object>
    requires h in objects
  {
    objects[h := objects[h].(refs := objects[h].refs + 1)]
  }

  /** What a walk that starts at h may leave behind: nothing, or the one inode it returns. */
  ghost predicate Leaves(was: map<nat, Object>, now: map<nat, Object>, h: nat, r: Option<nat>)
  {
    match r
    case None => now == was
    case Some(x) =>
      if x in was then x == h && now == Held(was, h) else x in now && now == was[x := Object(now[x].ino, 1)]
  }

  /** What a lookup needs of the volume, and what it finds there. */
  lemma Opens(g: Geom, s: Fs, root: nat, i: nat)
    requires VolOK(g, s, root) && i in UsedInodes(g, s.m.disk)
    ensures FsOK(g, s) && i in s.raws
    ensures IsDirMode(ModeOf(s.raws[i])) <==> i in TreeOf(g, s, root).dirs
    ensures IsDirMode(ModeOf(s.raws[i])) ==> IsDir(g, s, i) && TreeOf(g, s, root).dirs[i] == ListOf(g, s, i)
  {
    hide Owns, OwnedOK, MetaOK, Synced, Clean, Tails, TreeOK, OneLink, IsDir, ListOf;
    Shape(g, s);
    assert IsIno(g, i);
  }

  /** An entry names an inode in use. */
  lemma Leads(g: Geom, s: Fs, root: nat, d: nat, name: Buf)
    requires VolOK(g, s, root) && Named(TreeOf(g, s, root), d, name).Some?
    ensures Named(TreeOf(g, s, root), d, name).value in UsedInodes(g, s.m.disk)
  {
    hide FsOK, Synced, Clean, Tails, Formed, OneLink;
    var t := TreeOf(g, s, root);
    assert Has(t, d, First(t.dirs[d], name));
  }

  lemma RootUsed(g: Geom, s: Fs, root: nat)
    requires VolOK(g, s, root)
    ensures root in UsedInodes(g, s.m.disk)
  {
    hide FsOK, Synced, Clean, Tails, Formed, OneLink;
    assert root in TreeOf(g, s, root).dirs;
  }

  class Vfs {
    const vol: Vol
    ghost const rootIno: nat
    const root: nat
    var objects: map<nat, Object>   // the inodes in memory, by address
    var top: nat

    constructor (vol: Vol, ino: nat)
      requires VolOK(vol.g, Snap(vol), ino) && Synced(vol.g, Snap(vol), {})
      ensures Valid() && this.vol == vol && rootIno == ino
    {
      hide VolOK, Synced, UsedInodes;
      RootUsed(vol.g, Snap(vol), ino);
      this.vol := vol;
      rootIno := ino;
      root := 0;
      objects := map[0 := Object(ino, 1)];
      top := 1;
    }

    ghost function T(): Tree
      reads vol
    { TreeOf(vol.g, Snap(vol), rootIno) }

    ghost predicate Valid()
      reads this, vol
    {
      && VolOK(vol.g, Snap(vol), rootIno) && Synced(vol.g, Snap(vol), {})
      && (forall h :: h in objects ==> h < top && objects[h].refs > 0 && objects[h].ino in UsedInodes(vol.g, vol.disk))
      && root in objects && objects[root].ino == rootIno
    }

    /** inode_put */
    method Put(h: nat)
      requires Valid() && h in objects && (h == root ==> objects[h].refs > 1)
      modifies `objects
      ensures Valid()
      ensures objects ==
        if old(objects)[h].refs == 1 then old(objects) - {h}
        else old(objects)[h := old(objects)[h].(refs := old(objects)[h].refs - 1)]
    {
      hide VolOK, Synced, UsedInodes;
      var left := objects[h].refs - 1;
      if left == 0 {
        objects := objects - {h};
      } else {
        objects := objects[h := objects[h].(refs := left)];
      }
    }

    /** ext2_lookup: a new inode with one reference. */
    method Lookup(dir: nat, name: Buf) returns (r: Option<nat>)
      requires Valid() && dir in objects
      modifies `objects, `top
      ensures Valid()
      ensures r.Some? <==> Named(T(), old(objects)[dir].ino, name).Some?
      ensures r.None? ==> objects == old(objects)
      ensures r.Some? ==> r.value !in old(objects)
      ensures r.Some? ==> objects == old(objects)[r.value := Object(Named(T(), old(objects)[dir].ino, name).value, 1)]
    {
      hide VolOK, UsedInodes, FsOK, Synced, TreeOf, ListOf, IsDir, Owns;
      var d := objects[dir].ino;
      Opens(vol.g, Snap(vol), rootIno, d);
      var inode := ReadInode(vol, d, {});
      CanRead(vol, inode);
      var found, e := FindDirEntry(vol, inode, name);
      if !found { return None; }
      Leads(vol.g, Snap(vol), rootIno, d, name);
      objects := objects[top := Object(e.ino, 1)];
      r := Some(top);
      top := top + 1;
    }

    /** One turn of the walk: look the name up, then let go of where it was looked up. */
    method StepInto(current: nat, name: Buf, ghost was: map<nat, Object>, ghost start: nat) returns (r: Option<nat>)
      requires Valid() && current in objects && start in was && root in was && forall h :: h in was ==> was[h].refs > 0
      requires Leaves(was, objects, start, Some(current))
      modifies `objects, `top
      ensures Valid() && Leaves(was, objects, start, r)
      ensures match Named(T(), old(objects)[current].ino, name)
              case None => r.None?
              case Some(x) => r.Some? && r.value in objects && objects[r.value].ino == x
    {
      hide VolOK, Synced, UsedInodes, Named, TreeOf;
      r := Lookup(current, name);
      Put(current);
    }

    /** path_lookup_relative */
    method WalkRelative(start: nat, path: Buf) returns (r: Option<nat>)
      requires Valid() && start in objects
      modifies `objects, `top
      ensures Valid() && Leaves(old(objects), objects, start, r)
      ensures Reached(old(objects)[start].ino, Paths.Components(path), r)
    {
      hide VolOK, Synced, UsedInodes, Named, TreeOf, WalkTo;
      var current := start;
      objects := Held(objects, start);
      ghost var goal := WalkTo(T(), objects[start].ino, Paths.Components(path));
      var rest := path;
      while rest != []
        invariant Valid() && Leaves(old(objects), objects, start, Some(current)) && current in objects
        invariant goal == WalkTo(T(), objects[current].ino, Paths.Components(rest))
        decreases |rest|
      {
        rest := Paths.SkipSlashes(rest);
        if rest == [] { break; }
        var component;
        component, rest := Paths.NextComponent(rest);
        WalkStep(T(), objects[current].ino, component, Paths.Components(rest));
        var next := StepInto(current, component, old(objects), start);
        if next.None? { return None; }
        current := next.value;
      }
      WalkStep(T(), objects[current].ino, [], []);
      return Some(current);
    }

    /** path_lookup */
    method Walk(path: Buf) returns (r: Option<nat>)
      requires Valid()
      modifies `objects, `top
      ensures Valid() && Leaves(old(objects), objects, root, r) && Found(path, r)
    {
      hide VolOK, Synced, UsedInodes, TreeOf;
      if path == [] || path[0] != Paths.SLASH { return None; }
      var rest := Paths.SkipSlashes(path[1..]);
      if rest == [] {
        objects := Held(objects, root);
        return Some(root);
      }
      r := WalkRelative(root, rest);
    }

    /** r is the inode that an absolute path leads to in the volume's name space, and no path that
        is not absolute leads anywhere. */
    ghost predicate Found(path: Buf, r: Option<nat>)
      reads this, vol
    {
      if path == [] || path[0] != Paths.SLASH then r.None? else Reached(rootIno, Paths.Components(path), r)
    }

    ghost predicate Reached(ino: nat, names: seq<Buf>, r: Option<nat>)
      reads this, vol
    {
      match WalkTo(T(), ino, names)
      case None => r.None?
      case Some(x) => r.Some? && r.value in objects && objects[r.value].ino == x
    }

    /** resolve_parent: the name is to be looked up in the returned directory, and that is where
        the whole path leads. */
    method ResolveParent(path: Buf) returns (r: Option<(nat, Buf)>)
      requires Valid()
      modifies `objects, `top
      ensures Valid() && Leaves(old(objects), objects, root, if r.Some? then Some(r.value.0) else None)
      ensures r.Some? ==> r.value.0 in objects
      ensures r.Some? ==> WalkTo(T(), rootIno, Paths.Components(path)) == Named(T(), objects[r.value.0].ino, r.value.1)
      ensures r.None? && path != [] && path[0] == Paths.SLASH && Paths.Fits(path, 256, 256) ==>
        WalkTo(T(), rootIno, Paths.Components(path)) == None
    {
      hide VolOK, Synced, UsedInodes, TreeOf, Named;
      var parts := Paths.SplitPath(path, 256, 256);
      if parts.None? { return None; }
      var (parent, name) := parts.value;
      WalkComposes(T(), rootIno, Paths.Components(parent), name);
      var dir := Walk(parent);
      if dir.None? { return None; }
      return Some((dir.value, name));
    }
  }

  lemma CanRead(vol: Vol, inode: Inode)
    requires Loaded(vol, inode)
    ensures Readable(vol, inode) && inode.size == SizeOf(inode.raw)
  {
  }
}
