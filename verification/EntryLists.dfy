/** Directories as ordered lists of entries, block lists joined end to end. */
module EntryLists {
  import opened Bytes

  /** A live directory entry. */
  datatype Entry = Entry(name: Buf, ino: nat, kind: Byte)

  /** The entries of a regular file and of a directory */
  function FileEntry(name: Buf, ino: nat): Entry { Entry(name, ino, 1) }
  function DirEntry(name: Buf, ino: nat): Entry { Entry(name, ino, 2) }

  /** The first position of a name in a list of entries, its length if absent. */
  function First(es: seq<Entry>, name: Buf): (k: nat)
    ensures k <= |es|
    ensures k < |es| ==> es[k].name == name
    ensures forall j :: 0 <= j < k ==> es[j].name != name
  {
    if es == [] then 0 else if es[0].name == name then 0 else 1 + First(es[1..], name)
  }

  lemma FirstUnique(es: seq<Entry>, name: Buf, k: nat)
    requires k < |es| && es[k].name == name && forall j :: 0 <= j < k ==> es[j].name != name
    ensures First(es, name) == k
  {
  }

  /** es' is es with e put in at position k. */
  ghost predicate Inserted(es: seq<Entry>, es': seq<Entry>, k: nat, e: Entry)
  {
    k <= |es| && es' == es[..k] + [e] + es[k..]
  }

  /** es' is es without its first entry of that name. */
  ghost predicate Removed(es: seq<Entry>, es': seq<Entry>, name: Buf)
  {
    var k := First(es, name);
    k < |es| && es' == es[..k] + es[k+1..]
  }

  lemma InsertAt(pre: seq<Entry>, e: Entry, rest: seq<Entry>)
    ensures Inserted(pre + [] + rest, pre + [e] + rest, |pre|, e)
  {
    var es := pre + [] + rest;
    assert es[..|pre|] == pre && es[|pre|..] == rest;
  }

  lemma RemoveAt(pre: seq<Entry>, e: Entry, rest: seq<Entry>, name: Buf)
    requires First(pre + [e] + rest, name) == |pre|
    ensures Removed(pre + [e] + rest, pre + [] + rest, name)
  {
    var es := pre + [e] + rest;
    assert es[..|pre|] == pre && es[|pre|+1..] == rest;
  }

  lemma AssocE(a: seq<Entry>, b: seq<Entry>, c: seq<Entry>)
    ensures (a + b) + c == a + (b + c)
  {
  }

  lemma NilE(a: seq<Entry>)
    ensures a + [] == a
  {
  }

  // ----- joining block lists -----

  function Cat(ls: seq<seq<Entry>>): seq<Entry>
  {
    if ls == [] then [] else Cat(ls[..|ls|-1]) + ls[|ls|-1]
  }

  lemma InsertRight(es: seq<Entry>, t: seq<Entry>, t': seq<Entry>, k: nat, e: Entry)
    requires Inserted(t, t', k, e)
    ensures Inserted(es + t, es + t', |es| + k, e)
  {
    var p := |es| + k;
    assert (es + t)[..p] == es + t[..k] && (es + t)[p..] == t[k..];
    assert es + t' == (es + t[..k]) + [e] + t[k..];
  }

  lemma InsertLeft(es: seq<Entry>, es': seq<Entry>, t: seq<Entry>, k: nat, e: Entry)
    requires Inserted(es, es', k, e)
    ensures Inserted(es + t, es' + t, k, e)
  {
    assert (es + t)[..k] == es[..k] && (es + t)[k..] == es[k..] + t;
    assert es' + t == es[..k] + [e] + (es[k..] + t);
  }

  /** Inserting into one block inserts into the whole. */
  lemma {:induction false} CatInsert(ls: seq<seq<Entry>>, l: nat, t: seq<Entry>, k: nat, e: Entry) returns (p: nat)
    requires l < |ls| && Inserted(ls[l], t, k, e)
    ensures Inserted(Cat(ls), Cat(ls[l := t]), p, e)
  {
    var n := |ls| - 1;
    if l == n {
      assert ls[l := t][..n] == ls[..n];
      InsertRight(Cat(ls[..n]), ls[n], t, k, e);
      p := |Cat(ls[..n])| + k;
    } else {
      assert ls[l := t][..n] == ls[..n][l := t];
      p := CatInsert(ls[..n], l, t, k, e);
      InsertLeft(Cat(ls[..n]), Cat(ls[..n][l := t]), ls[n], p, e);
    }
  }

  lemma {:induction false} FirstConcat(a: seq<Entry>, b: seq<Entry>, name: Buf)
    ensures First(a + b, name) == if First(a, name) < |a| then First(a, name) else |a| + First(b, name)
  {
    if a == [] {
      assert a + b == b;
    } else {
      FirstConcat(a[1..], b, name);
      assert (a + b)[1..] == a[1..] + b;
    }
  }

  ghost predicate Absent(es: seq<Entry>, name: Buf) { First(es, name) == |es| }

  lemma {:induction false} CatAbsent(ls: seq<seq<Entry>>, name: Buf)
    requires forall l :: 0 <= l < |ls| ==> Absent(ls[l], name)
    ensures Absent(Cat(ls), name)
  {
    if ls != [] {
      var n := |ls| - 1;
      CatAbsent(ls[..n], name);
      FirstConcat(Cat(ls[..n]), ls[n], name);
    }
  }

  /** The first match in the whole is the first match of the first block that has one. */
  lemma {:induction false} CatFirst(ls: seq<seq<Entry>>, l: nat, name: Buf)
    requires l < |ls| && First(ls[l], name) < |ls[l]| && forall j :: 0 <= j < l ==> Absent(ls[j], name)
    ensures First(Cat(ls), name) < |Cat(ls)|
    ensures Cat(ls)[First(Cat(ls), name)] == ls[l][First(ls[l], name)]
  {
    var n := |ls| - 1;
    if l == n {
      CatAbsent(ls[..n], name);
    } else {
      CatFirst(ls[..n], l, name);
    }
    FirstConcat(Cat(ls[..n]), ls[n], name);
  }

  lemma RemoveRight(es: seq<Entry>, t: seq<Entry>, t': seq<Entry>, name: Buf)
    requires Absent(es, name) && Removed(t, t', name)
    ensures Removed(es + t, es + t', name)
  {
    FirstConcat(es, t, name);
    CutAt(es, t, First(t, name));
  }

  lemma CutAt(es: seq<Entry>, t: seq<Entry>, k: nat)
    requires k < |t|
    ensures (es + t)[..|es| + k] + (es + t)[|es| + k + 1..] == es + (t[..k] + t[k+1..])
  {
    assert (es + t)[..|es| + k] == es + t[..k];
    assert (es + t)[|es| + k + 1..] == t[k+1..];
    AssocE(es, t[..k], t[k+1..]);
  }

  lemma RemoveLeft(es: seq<Entry>, es': seq<Entry>, t: seq<Entry>, name: Buf)
    requires Removed(es, es', name)
    ensures Removed(es + t, es' + t, name)
  {
    FirstConcat(es, t, name);
    var k := First(es, name);
    assert (es + t)[..k] == es[..k];
    assert (es + t)[k+1..] == es[k+1..] + t;
    AssocE(es[..k], es[k+1..], t);
  }

  /** Removing the first match of its block removes the first match of the whole. */
  lemma {:induction false} CatRemove(ls: seq<seq<Entry>>, l: nat, t: seq<Entry>, name: Buf)
    requires l < |ls| && Removed(ls[l], t, name) && forall j :: 0 <= j < l ==> Absent(ls[j], name)
    ensures Removed(Cat(ls), Cat(ls[l := t]), name)
  {
    var n := |ls| - 1;
    if l == n {
      assert ls[l := t][..n] == ls[..n];
      CatAbsent(ls[..n], name);
      RemoveRight(Cat(ls[..n]), ls[n], t, name);
    } else {
      assert ls[l := t][..n] == ls[..n][l := t];
      CatRemove(ls[..n], l, t, name);
      RemoveLeft(Cat(ls[..n]), Cat(ls[..n][l := t]), ls[n], name);
    }
  }

  lemma CatAppend(ls: seq<seq<Entry>>, t: seq<Entry>)
    ensures Cat(ls + [t]) == Cat(ls) + t
  {
    assert (ls + [t])[..|ls|] == ls;
  }
}
