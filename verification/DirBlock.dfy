/** ext2/directory.c inside one block: variable-length records abstracted to a list of entries. */
module DirBlock {
  import opened Words
  import opened Bytes
  import opened EntryLists

  const DE_INODE := 0
  const DE_REC_LEN := 4
  const DE_NAME_LEN := 6
  const DE_TYPE := 7
  const DE_NAME := 8

  /** ext2_dir_rec_len: header and name, rounded up to four bytes */
  function Need(nameLen: nat): (n: nat)
    ensures n % 4 == 0 && 8 + nameLen <= n < 8 + nameLen + 4
  {
    (8 + nameLen + 3) / 4 * 4
  }

  // ----- one record -----

  function RecLen(c: Buf): nat { if 8 <= |c| then Get16(c, DE_REC_LEN) else 0 }
  function InodeOf(c: Buf): nat { if 8 <= |c| then Get32(c, DE_INODE) else 0 }
  function NameLen(c: Buf): nat { if 8 <= |c| then c[DE_NAME_LEN] as int else 0 }
  function NameOf(c: Buf): Buf { if 8 + NameLen(c) <= |c| then c[8..8 + NameLen(c)] else [] }
  function KindOf(c: Buf): Byte { if 8 <= |c| then c[DE_TYPE] else 0 }

  /** The bytes of one whole record: aligned, its length field right, its name inside. */
  predicate IsRec(c: Buf)
  {
    8 <= |c| && |c| % 4 == 0 && RecLen(c) == |c| && 8 + NameLen(c) <= |c|
  }

  function EntryOf(c: Buf): Entry { Entry(NameOf(c), InodeOf(c), KindOf(c)) }

  // ----- a chain of records -----

  /** Cutting a block at its record lengths. */
  function Parse(b: Buf): seq<Buf>
  {
    var n := RecLen(b);
    if 8 <= n <= |b| then [b[..n]] + Parse(b[n..]) else []
  }

  /** The whole block is records, end to end. */
  predicate Chain(b: Buf)
  {
    b == [] || (8 <= RecLen(b) <= |b| && IsRec(b[..RecLen(b)]) && Chain(b[RecLen(b)..]))
  }

  function Flat(cs: seq<Buf>): Buf
  {
    if cs == [] then [] else cs[0] + Flat(cs[1..])
  }

  /** The live entries of a list of records, in order. */
  function Live(cs: seq<Buf>): seq<Entry>
  {
    if cs == [] then [] else Alive(cs[0]) + Live(cs[1..])
  }

  /** The entry of a record, unless it is dead. */
  function Alive(c: Buf): seq<Entry> { if InodeOf(c) != 0 then [EntryOf(c)] else [] }

  function Entries(b: Buf): seq<Entry> { Live(Parse(b)) }

  ghost predicate AllRecs(cs: seq<Buf>) { forall k :: 0 <= k < |cs| ==> IsRec(cs[k]) }

  lemma RecLenOfPrefix(c: Buf, rest: Buf)
    requires IsRec(c)
    ensures RecLen(c + rest) == |c| && (c + rest)[..|c|] == c && (c + rest)[|c|..] == rest
  {
  }

  /** Records in front of a chain are found again by parsing. */
  lemma {:induction false} ParseFlat(cs: seq<Buf>, rest: Buf)
    requires AllRecs(cs) && Chain(rest)
    ensures Chain(Flat(cs) + rest) && Parse(Flat(cs) + rest) == cs + Parse(rest)
  {
    if cs == [] {
      assert Flat(cs) + rest == rest;
    } else {
      ParseFlat(cs[1..], rest);
      Assoc(cs[0], Flat(cs[1..]), rest);
      RecLenOfPrefix(cs[0], Flat(cs[1..]) + rest);
      assert cs + Parse(rest) == [cs[0]] + (cs[1..] + Parse(rest));
    }
  }

  lemma {:induction false} LiveConcat(xs: seq<Buf>, ys: seq<Buf>)
    ensures Live(xs + ys) == Live(xs) + Live(ys)
  {
    hide Alive;
    if xs == [] {
      assert xs + ys == ys;
    } else {
      LiveConcat(xs[1..], ys);
      assert (xs + ys)[0] == xs[0] && (xs + ys)[1..] == xs[1..] + ys;
      AssocE(Alive(xs[0]), Live(xs[1..]), Live(ys));
    }
  }

  lemma Assoc(a: Buf, b: Buf, c: Buf)
    ensures (a + b) + c == a + (b + c)
  {
  }

  lemma {:induction false} FlatConcat(xs: seq<Buf>, ys: seq<Buf>)
    ensures Flat(xs + ys) == Flat(xs) + Flat(ys)
  {
    if xs == [] {
      assert xs + ys == ys;
    } else {
      FlatConcat(xs[1..], ys);
      assert (xs + ys)[1..] == xs[1..] + ys;
      Assoc(xs[0], Flat(xs[1..]), Flat(ys));
    }
  }

  /** done, then the records `cs`, then the rest: what a block holds after an edit at off. */
  lemma Edited(done: seq<Buf>, cs: seq<Buf>, rest: Buf)
    requires AllRecs(done) && AllRecs(cs) && Chain(rest)
    ensures Chain(Flat(done) + Flat(cs) + rest)
    ensures Entries(Flat(done) + Flat(cs) + rest) == Live(done) + Live(cs) + Entries(rest)
  {
    FlatConcat(done, cs);
    ParseFlat(done + cs, rest);
    LiveConcat(done + cs, Parse(rest));
    LiveConcat(done, cs);
  }

  lemma LiveOne(c: Buf)
    ensures Live([c]) == if InodeOf(c) != 0 then [EntryOf(c)] else []
  {
  }

  lemma LiveTwo(c: Buf, d: Buf)
    ensures Live([c, d]) == Live([c]) + Live([d])
  {
    assert [c, d][1..] == [d];
  }

  lemma FlatOne(c: Buf)
    ensures Flat([c]) == c
  {
  }

  lemma FlatTwo(c: Buf, d: Buf)
    ensures Flat([c, d]) == c + d
  {
    assert [c, d][1..] == [d];
    FlatOne(d);
  }

  // ----- walking a block -----

  /** off has been reached from the front of b over whole records `done`. */
  ghost predicate Reached(b: Buf, off: nat, done: seq<Buf>)
  {
    off <= |b| && AllRecs(done) && b[..off] == Flat(done) && Chain(b[off..])
  }

  /** Where a walk starts, and what it has seen at the end. */
  lemma AtStart(b: Buf, name: Buf)
    requires Chain(b)
    ensures Reached(b, 0, []) && Live([]) == [] && Lacks([], name)
  {
    assert b[0..] == b;
  }

  lemma AtEnd(b: Buf, done: seq<Buf>)
    requires Reached(b, |b|, done)
    ensures Entries(b) == Live(done)
  {
    EntriesAt(b, |b|, done);
    assert b[|b|..] == [];
  }

  /** One step of the walk: off += de->rec_len. */
  lemma Step(b: Buf, off: nat, done: seq<Buf>)
    requires Reached(b, off, done) && off < |b|
    ensures var n := RecLen(b[off..]);
      && 8 <= n && off + n <= |b| && IsRec(b[off..off + n])
      && Reached(b, off + n, done + [b[off..off + n]])
      && InodeOf(b[off..]) == InodeOf(b[off..off + n]) && NameLen(b[off..]) == NameLen(b[off..off + n])
  {
    var n := RecLen(b[off..]);
    var c := b[off..off + n];
    assert b[off..][..n] == c && b[off..][n..] == b[off + n..];
    FlatConcat(done, [c]);
    FlatOne(c);
    assert b[..off + n] == b[..off] + c;
  }

  lemma EntriesAt(b: Buf, off: nat, done: seq<Buf>)
    requires Reached(b, off, done)
    ensures Chain(b) && Entries(b) == Live(done) + Entries(b[off..])
  {
    assert b == Flat(done) + b[off..];
    ParseFlat(done, b[off..]);
    LiveConcat(done, Parse(b[off..]));
  }

  lemma EntriesStep(b: Buf, off: nat, done: seq<Buf>)
    requires Reached(b, off, done) && off < |b|
    ensures var n := RecLen(b[off..]); var c := b[off..off + n];
      off + n <= |b| && Entries(b) == Live(done) + Live([c]) + Entries(b[off + n..])
  {
    hide Reached, Chain, Flat, AllRecs, Live, Parse, Entries;
    Step(b, off, done);
    var n := RecLen(b[off..]);
    EntriesAt(b, off + n, done + [b[off..off + n]]);
    LiveConcat(done, [b[off..off + n]]);
  }

  /** The test in the search loops: a live record with this name. */
  predicate Matches(b: Buf, off: nat, name: Buf)
    requires off < |b|
  {
    && InodeOf(b[off..]) != 0 && NameLen(b[off..]) == |name|
    && off + 8 + |name| <= |b| && b[off + 8..off + 8 + |name|] == name
  }

  lemma MatchesRec(b: Buf, off: nat, done: seq<Buf>, name: Buf)
    requires Reached(b, off, done) && off < |b|
    ensures var c := b[off..][..RecLen(b[off..])];
      Matches(b, off, name) <==> InodeOf(c) != 0 && NameOf(c) == name
  {
    Step(b, off, done);
    var n := RecLen(b[off..]);
    var c := b[off..off + n];
    assert b[off..][..n] == c;
    assert c[8..8 + NameLen(c)] == b[off + 8..off + 8 + NameLen(c)];
  }

  /** No live entry among these records has the name. */
  ghost predicate Lacks(done: seq<Buf>, name: Buf)
  {
    forall k :: 0 <= k < |Live(done)| ==> Live(done)[k].name != name
  }

  /** A record that does not match is passed over. */
  lemma Skip(b: Buf, off: nat, done: seq<Buf>, name: Buf)
    requires Reached(b, off, done) && off < |b| && !Matches(b, off, name) && Lacks(done, name)
    ensures var n := RecLen(b[off..]);
      && 8 <= n && off + n <= |b| && Reached(b, off + n, done + [b[off..off + n]])
      && Lacks(done + [b[off..off + n]], name)
  {
    hide Reached, Chain, Flat, AllRecs, Parse, Entries, Matches, Alive;
    Step(b, off, done);
    MatchesRec(b, off, done, name);
    var n := RecLen(b[off..]);
    assert b[off..][..n] == b[off..off + n];
    LiveConcat(done, [b[off..off + n]]);
    LiveOne(b[off..off + n]);
  }

  /** The inner loop of ext2_find_dir_entry: where the first match is, or the block size. */
  method FindInBlock(b: Buf, name: Buf) returns (off: nat, ghost done: seq<Buf>)
    requires Chain(b)
    ensures Reached(b, off, done)
    ensures Lacks(done, name)
    ensures off < |b| ==> Matches(b, off, name)
    ensures off == |b| <==> First(Entries(b), name) == |Entries(b)|
    ensures off < |b| ==> First(Entries(b), name) == |Live(done)|
    ensures off < |b| ==> Entries(b)[|Live(done)|] == EntryOf(b[off..][..RecLen(b[off..])])
  {
    hide Reached, Chain, Flat, AllRecs, Live, Parse, Entries, Lacks, Matches, First;
    off := 0;
    done := [];
    AtStart(b, name);
    while off < |b| && !Matches(b, off, name)
      invariant off <= |b| && Reached(b, off, done)
      invariant Lacks(done, name)
      decreases |b| - off
    {
      Skip(b, off, done, name);
      var n := RecLen(b[off..]);
      done := done + [b[off..off + n]];
      off := off + n;
    }
    FoundAt(b, off, done, name);
  }

  lemma FoundAt(b: Buf, off: nat, done: seq<Buf>, name: Buf)
    requires Reached(b, off, done) && Lacks(done, name)
    requires off < |b| ==> Matches(b, off, name)
    ensures off == |b| <==> First(Entries(b), name) == |Entries(b)|
    ensures off < |b| ==> First(Entries(b), name) == |Live(done)|
    ensures off < |b| ==> Entries(b)[|Live(done)|] == EntryOf(b[off..][..RecLen(b[off..])])
  {
    EntriesAt(b, off, done);
    if off == |b| {
      assert b[off..] == [];
      assert Entries(b) == Live(done);
    } else {
      MatchesRec(b, off, done, name);
      EntriesStep(b, off, done);
      var n := RecLen(b[off..]);
      assert b[off..][..n] == b[off..off + n];
      LiveOne(b[off..off + n]);
      FirstUnique(Entries(b), name, |Live(done)|);
    }
  }

  // ----- editing a block -----

  /** Replacing the record at off by records of the same total length. */
  lemma EditedAt(b: Buf, off: nat, done: seq<Buf>, cs: seq<Buf>)
    requires Reached(b, off, done) && off < |b| && AllRecs(cs)
    requires off + RecLen(b[off..]) <= |b| && |Flat(cs)| == RecLen(b[off..])
    ensures var b' := Splice(b, off, Flat(cs));
      && Chain(b') && Entries(b') == Live(done) + Live(cs) + Entries(b[off + RecLen(b[off..])..])
  {
    Step(b, off, done);
    var rest := b[off + RecLen(b[off..])..];
    Edited(done, cs, rest);
    assert Splice(b, off, Flat(cs)) == Flat(done) + Flat(cs) + rest;
  }

  /** Fill in inode, name_len, file_type and name; rec_len is left alone. */
  function Filled(c: Buf, ino: nat, kind: Byte, name: Buf): (r: Buf)
    requires 8 + |name| <= |c| && |name| < 256 && ino < U32
    ensures |r| == |c| && RecLen(r) == RecLen(c) && EntryOf(r) == Entry(name, ino, kind) && NameLen(r) == |name|
  {
    var r := Splice(Put32(c, DE_INODE, ino)[DE_NAME_LEN := |name|][DE_TYPE := kind], DE_NAME, name);
    assert r[4] == c[4] && r[5] == c[5];
    assert Get32(r, DE_INODE) == Get32(Put32(c, DE_INODE, ino), DE_INODE);
    assert r[8..8 + |name|] == name;
    r
  }

  /** Room for a new record of `need` bytes: a dead record long enough, or enough slack. */
  predicate Room(c: Buf, need: nat)
  {
    (InodeOf(c) == 0 && |c| >= need) || |c| >= Need(NameLen(c)) + need
  }

  lemma SlackOf(c: Buf)
    requires IsRec(c)
    ensures Need(NameLen(c)) <= |c| && (|c| - Need(NameLen(c))) % 4 == 0
  {
  }

  /** Cut the record down to what its name needs and put a new one in the slack. */
  function Split(c: Buf, ino: nat, kind: Byte, name: Buf): (r: (Buf, Buf))
    requires IsRec(c) && |c| < U16 && |name| < 256 && ino < U32
    requires |c| >= Need(NameLen(c)) + Need(|name|)
    ensures IsRec(r.0) && IsRec(r.1) && |r.0| + |r.1| == |c| && |r.0| == Need(NameLen(c))
    ensures EntryOf(r.0) == EntryOf(c) && EntryOf(r.1) == Entry(name, ino, kind)
  {
    SlackOf(c);
    var actual := Need(NameLen(c));
    var left := Put16(c, DE_REC_LEN, actual)[..actual];
    assert left[6] == c[6] && left[7] == c[7];
    assert left[0] == c[0] && left[1] == c[1] && left[2] == c[2] && left[3] == c[3];
    assert left[8..8 + NameLen(c)] == c[8..8 + NameLen(c)];
    assert RecLen(left) == actual by { assert left[4] == Put16(c, DE_REC_LEN, actual)[4]; }
    var right := Put16(c[actual..], DE_REC_LEN, |c| - actual);
    (left, Filled(right, ino, kind, name))
  }

  ghost predicate NoRoom(cs: seq<Buf>, need: nat)
  {
    forall k :: 0 <= k < |cs| ==> !Room(cs[k], need)
  }

  lemma Reused(b: Buf, off: nat, done: seq<Buf>, c: Buf, c': Buf)
    requires Reached(b, off, done) && off < |b|
    requires off + RecLen(b[off..]) <= |b| && c == b[off..off + RecLen(b[off..])]
    requires InodeOf(c) == 0 && InodeOf(c') != 0 && IsRec(c') && |c'| == |c|
    ensures Chain(Splice(b, off, c'))
    ensures Inserted(Entries(b), Entries(Splice(b, off, c')), |Live(done)|, EntryOf(c'))
  {
    hide Reached, Chain, Flat, Live, Parse, Entries, Inserted, IsRec, Splice;
    EntriesStep(b, off, done);
    LiveOne(c);
    LiveOne(c');
    FlatOne(c');
    EditedAt(b, off, done, [c']);
    InsertAt(Live(done), EntryOf(c'), Entries(b[off + RecLen(b[off..])..]));
  }

  lemma WasSplit(b: Buf, off: nat, done: seq<Buf>, c: Buf, l: Buf, r: Buf)
    requires Reached(b, off, done) && off < |b|
    requires off + RecLen(b[off..]) <= |b| && c == b[off..off + RecLen(b[off..])] && InodeOf(c) != 0
    requires IsRec(l) && IsRec(r) && |l| + |r| == |c| && EntryOf(l) == EntryOf(c) && InodeOf(r) != 0
    ensures Chain(Splice(b, off, l + r))
    ensures Inserted(Entries(b), Entries(Splice(b, off, l + r)), |Live(done)| + 1, EntryOf(r))
  {
    hide Reached, Chain, Flat, Live, Parse, Entries, Inserted, IsRec, Splice;
    var rest := Entries(b[off + RecLen(b[off..])..]);
    EntriesStep(b, off, done);
    LiveOne(c);
    LiveOne(l);
    LiveOne(r);
    LiveTwo(l, r);
    FlatTwo(l, r);
    EditedAt(b, off, done, [l, r]);
    InsertAt(Live(done) + [EntryOf(c)], EntryOf(r), rest);
    AssocE(Live(done), [EntryOf(c)], [EntryOf(r)]);
    NilE(Live(done) + [EntryOf(c)]);
  }

  lemma RoomSeen(b: Buf, off: nat, done: seq<Buf>, need: nat)
    requires Reached(b, off, done) && off < |b| && off + RecLen(b[off..]) <= |b|
    requires Room(b[off..off + RecLen(b[off..])], need)
    ensures !NoRoom(Parse(b), need)
  {
    var c := b[off..off + RecLen(b[off..])];
    Step(b, off, done);
    var cs := done + [c];
    assert b == Flat(cs) + b[off + |c|..];
    ParseFlat(cs, b[off + |c|..]);
    assert Parse(b)[|done|] == c;
  }

  lemma AllSeen(b: Buf, done: seq<Buf>)
    requires Reached(b, |b|, done)
    ensures Parse(b) == done
  {
    assert b == Flat(done) + [];
    ParseFlat(done, []);
  }

  // ----- removing -----

  /** prev->rec_len += de->rec_len: the two records become one. */
  function Merged(prev: Buf, de: Buf): (r: Buf)
    requires IsRec(prev) && IsRec(de) && |prev| + |de| < U16
    ensures IsRec(r) && |r| == |prev| + |de| && EntryOf(r) == EntryOf(prev)
  {
    var r := Put16(prev + de, DE_REC_LEN, |prev| + |de|);
    assert r[0] == prev[0] && r[1] == prev[1] && r[2] == prev[2] && r[3] == prev[3];
    assert r[6] == prev[6] && r[7] == prev[7];
    assert r[8..8 + NameLen(prev)] == prev[8..8 + NameLen(prev)];
    r
  }

  lemma WasMerged(b: Buf, at: nat, off: nat, done: seq<Buf>, prev: Buf, de: Buf, m: Buf, name: Buf)
    requires Reached(b, at, done) && IsRec(prev) && off == at + |prev| && off < |b|
    requires Reached(b, off, done + [prev]) && Matches(b, off, name) && Lacks(done + [prev], name)
    requires off + RecLen(b[off..]) <= |b| && de == b[off..off + RecLen(b[off..])]
    requires IsRec(m) && |m| == |prev| + |de| && EntryOf(m) == EntryOf(prev)
    ensures Chain(Splice(b, at, m)) && Removed(Entries(b), Entries(Splice(b, at, m)), name)
  {
    var rest := b[off + RecLen(b[off..])..];
    Step(b, off, done + [prev]);
    MatchesRec(b, off, done + [prev], name);
    assert b[off..][..RecLen(b[off..])] == de;
    EntriesStep(b, off, done + [prev]);
    LiveOne(de);
    FoundAt(b, off, done + [prev], name);
    MergedEntries(b, at, done, m, rest);
    LiveSame(done, prev, m);
    RemoveAt(Live(done + [prev]), EntryOf(de), Entries(rest), name);
    NilE(Live(done + [prev]));
  }

  lemma LiveSame(done: seq<Buf>, prev: Buf, m: Buf)
    requires EntryOf(m) == EntryOf(prev)
    ensures Live(done + [prev]) == Live(done) + Live([m])
  {
    LiveConcat(done, [prev]);
    LiveOne(prev);
    LiveOne(m);
  }

  lemma MergedEntries(b: Buf, at: nat, done: seq<Buf>, m: Buf, rest: Buf)
    requires Reached(b, at, done) && IsRec(m) && at + |m| <= |b| && rest == b[at + |m|..] && Chain(rest)
    ensures Chain(Splice(b, at, m)) && Entries(Splice(b, at, m)) == Live(done) + Live([m]) + Entries(rest)
  {
    Edited(done, [m], rest);
    FlatOne(m);
    assert Splice(b, at, m) == Flat(done) + Flat([m]) + rest;
  }

  lemma WasZeroed(b: Buf, c: Buf, c': Buf, name: Buf)
    requires Chain(b) && 0 < |b| && Matches(b, 0, name)
    requires RecLen(b) <= |b| && c == b[..RecLen(b)] && IsRec(c') && |c'| == |c| && InodeOf(c') == 0
    ensures Chain(Splice(b, 0, c')) && Removed(Entries(b), Entries(Splice(b, 0, c')), name)
  {
    hide Reached, Chain, Flat, AllRecs, Live, Parse, Entries, Matches, Removed, IsRec;
    AtStart(b, name);
    ZeroedEntries(b, c, c', name);
    RemoveAt([], EntryOf(c), Entries(b[RecLen(b)..]), name);
  }

  lemma ZeroedEntries(b: Buf, c: Buf, c': Buf, name: Buf)
    requires Reached(b, 0, []) && 0 < |b| && Matches(b, 0, name)
    requires RecLen(b) <= |b| && c == b[..RecLen(b)] && IsRec(c') && |c'| == |c| && InodeOf(c') == 0
    ensures NameOf(c) == name && Chain(Splice(b, 0, c'))
    ensures Entries(b) == [] + [EntryOf(c)] + Entries(b[RecLen(b)..])
    ensures Entries(Splice(b, 0, c')) == [] + [] + Entries(b[RecLen(b)..])
  {
    hide Reached, Chain, Flat, Parse, Entries, Matches;
    assert b[0..] == b && b[0..RecLen(b)] == c;
    MatchesRec(b, 0, [], name);
    EntriesStep(b, 0, []);
    LiveOne(c);
    LiveOne(c');
    FlatOne(c');
    EditedAt(b, 0, [], [c']);
  }

  /** The records of a block after those from `at` on were replaced. */
  lemma ParsedAround(b: Buf, at: nat, done: seq<Buf>, cs: seq<Buf>, rest: Buf)
    requires Reached(b, at, done) && AllRecs(cs) && at + |Flat(cs)| <= |b| && rest == b[at + |Flat(cs)|..]
    requires Chain(rest)
    ensures Parse(Splice(b, at, Flat(cs))) == done + cs + Parse(rest)
  {
    hide Chain, Parse;
    assert Splice(b, at, Flat(cs)) == Flat(done) + Flat(cs) + rest;
    FlatConcat(done, cs);
    ParseFlat(done + cs, rest);
  }

  lemma {:induction false} ParsedHere(b: Buf, off: nat, done: seq<Buf>)
    requires Reached(b, off, done) && off < |b|
    ensures var n := RecLen(b[off..]);
            off + n <= |b| && Chain(b[off + n..]) && Parse(b) == done + [b[off..off + n]] + Parse(b[off + n..])
  {
    hide Reached, Chain, Parse, IsRec, Flat, AllRecs;
    Step(b, off, done);
    ParsedFrom(b, off + RecLen(b[off..]), done + [b[off..off + RecLen(b[off..])]]);
  }

  lemma ParsedFrom(b: Buf, off: nat, done: seq<Buf>)
    requires Reached(b, off, done)
    ensures Chain(b[off..]) && Parse(b) == done + Parse(b[off..])
  {
    assert b == Flat(done) + b[off..];
    ParseFlat(done, b[off..]);
  }

  /** Of the records cs the k-th, the first live one of that name, went: it joined the record before
      it, or is dead if there is none. */
  ghost predicate StruckAt(cs: seq<Buf>, cs': seq<Buf>, k: nat, name: Buf)
  {
    && k < |cs| && InodeOf(cs[k]) != 0 && NameOf(cs[k]) == name && Lacks(cs[..k], name)
    && if k == 0
       then |cs'| == |cs| && cs' == cs[0 := cs'[0]] && |cs'[0]| == |cs[0]| && InodeOf(cs'[0]) == 0
       else && |cs'| == |cs| - 1 && cs' == cs[..k - 1] + [cs'[k - 1]] + cs[k + 1..]
            && |cs'[k - 1]| == |cs[k - 1]| + |cs[k]| && EntryOf(cs'[k - 1]) == EntryOf(cs[k - 1])
  }

  lemma StruckMerged(b: Buf, at: nat, off: nat, done: seq<Buf>, m: Buf, name: Buf)
    requires at < off < |b| && Reached(b, at, done) && Reached(b, off, done + [b[at..off]]) && Matches(b, off, name)
    requires Lacks(done + [b[at..off]], name) && IsRec(m) && off + RecLen(b[off..]) <= |b|
    requires |m| == off - at + RecLen(b[off..]) && EntryOf(m) == EntryOf(b[at..off])
    ensures StruckAt(Parse(b), Parse(Splice(b, at, m)), |done| + 1, name)
  {
    hide Chain, Parse, Lacks, Flat, IsRec, Reached, AllRecs, EntryOf;
    var prev, n := b[at..off], RecLen(b[off..]);
    var de, rest := b[off..off + n], b[off + n..];
    MatchesRec(b, off, done + [prev], name);
    assert b[off..][..n] == de;
    ParsedHere(b, off, done + [prev]);
    FlatOne(m);
    assert AllRecs([m]) by { OneIsAll(m); }
    ParsedAround(b, at, done, [m], rest);
    var cs, cs' := Parse(b), Parse(Splice(b, at, m));
    assert cs == done + [prev] + [de] + Parse(rest) && cs' == done + [m] + Parse(rest);
    assert cs[..|done| + 1] == done + [prev] && cs[..|done|] == done && cs[|done| + 2..] == Parse(rest);
  }

  lemma OneIsAll(m: Buf)
    requires IsRec(m)
    ensures AllRecs([m])
  {
  }

  lemma StruckFirst(b: Buf, c': Buf, name: Buf)
    requires Chain(b) && 0 < |b| && Matches(b, 0, name) && RecLen(b) <= |b|
    requires IsRec(c') && |c'| == RecLen(b) && InodeOf(c') == 0
    ensures StruckAt(Parse(b), Parse(Splice(b, 0, c')), 0, name)
  {
    hide Chain, Parse, Flat, IsRec, Reached, AllRecs;
    AtStart(b, name);
    assert b[0..] == b;
    MatchesRec(b, 0, [], name);
    ParsedHere(b, 0, []);
    FlatOne(c');
    assert AllRecs([c']) by { OneIsAll(c'); }
    ParsedAround(b, 0, [], [c'], b[RecLen(b)..]);
    assert Parse(b)[..0] == [];
  }

  /** de->inode = 0 */
  function Zeroed(c: Buf): (r: Buf)
    requires IsRec(c)
    ensures IsRec(r) && |r| == |c| && InodeOf(r) == 0
  {
    var r := Put32(c, DE_INODE, 0);
    assert r[4] == c[4] && r[5] == c[5] && r[6] == c[6];
    r
  }

  /** The inner loop of ext2_remove_dir_entry: the first match is merged into the record
      before it, or zeroed when it comes first. */
  method RemoveInBlock(b: Buf, name: Buf) returns (ok: bool, b': Buf)
    requires Chain(b) && |b| < U16
    ensures |b'| == |b| && Chain(b')
    ensures ok <==> First(Entries(b), name) < |Entries(b)|
    ensures ok ==> Removed(Entries(b), Entries(b'), name)
    ensures ok ==> exists k: nat :: StruckAt(Parse(b), Parse(b'), k, name)
    ensures !ok ==> b' == b
  {
    hide Reached, Chain, Flat, AllRecs, Live, Parse, Entries, Lacks, Matches, First, Removed, StruckAt;
    var off := 0;
    var prev := 0;
    ghost var done: seq<Buf> := [];
    ghost var before: seq<Buf> := [];
    AtStart(b, name);
    while off < |b|
      invariant Reached(b, off, done) && Lacks(done, name)
      invariant off == 0 ==> done == []
      invariant prev <= off <= |b|
      invariant (off > 0 ==> Reached(b, prev, before) && done == before + [b[prev..off]] && IsRec(b[prev..off]))
      decreases |b| - off
    {
      if Matches(b, off, name) {
        FoundAt(b, off, done, name);
        Step(b, off, done);
        var de := b[off..off + RecLen(b[off..])];
        if off > 0 {
          var m := Merged(b[prev..off], de);
          WasMerged(b, prev, off, before, b[prev..off], de, m, name);
          StruckMerged(b, prev, off, before, m, name);
          return true, Splice(b, prev, m);
        }
        WasZeroed(b, de, Zeroed(de), name);
        StruckFirst(b, Zeroed(de), name);
        return true, Splice(b, 0, Zeroed(de));
      }
      Skip(b, off, done, name);
      Step(b, off, done);
      var n := RecLen(b[off..]);
      before := done;
      done := done + [b[off..off + n]];
      prev := off;
      off := off + n;
    }
    FoundAt(b, off, done, name);
    return false, b;
  }

  // ----- fresh blocks -----

  /** A block holding one record that spans it: what a grown directory gets. */
  function Spanning(bs: nat, name: Buf, ino: nat, kind: Byte): (b: Buf)
    requires bs in {1024, 2048, 4096} && |name| < 256 && 0 < ino < U32
    ensures |b| == bs && RecLen(b) == bs && Chain(b) && Entries(b) == [Entry(name, ino, kind)]
  {
    var b := Filled(Put16(Zeros(bs), DE_REC_LEN, bs), ino, kind, name);
    OneRec(b);
    b
  }

  lemma OneRec(b: Buf)
    requires IsRec(b)
    ensures Chain(b) && Entries(b) == Live([b])
  {
    FlatOne(b);
    ParseFlat([b], []);
    assert Flat([b]) + [] == b;
    assert [b] + Parse([]) == [b];
  }

  const DOT: Byte := 46
  const FT_DIR: Byte := 2

  /** The first block of a new directory: "." and "..". */
  function DotBlock(bs: nat, self: nat, parent: nat): (b: Buf)
    requires bs in {1024, 2048, 4096} && 0 < self < U32 && 0 < parent < U32
    ensures |b| == bs && Chain(b) && DotBytes(b, self, parent)
    ensures Entries(b) == [DirEntry([DOT], self), DirEntry([DOT, DOT], parent)]
  {
    var dot := Filled(Put16(Zeros(12), DE_REC_LEN, 12), self, FT_DIR, [DOT]);
    var dotdot := Filled(Put16(Zeros(bs - 12), DE_REC_LEN, bs - 12), parent, FT_DIR, [DOT, DOT]);
    TwoRecs(dot, dotdot);
    assert DotBytes(dot + dotdot, self, parent) by { DotsLaid(bs, self, parent); }
    dot + dotdot
  }

  /** The block byte by byte: 12 bytes for ".", the rest for "..", both of type 2, and zeros. */
  ghost predicate DotBytes(b: Buf, self: nat, parent: nat)
  {
    && |b| >= 24 && Get32(b, 0) == self && Get16(b, 4) == 12 && b[6] == 1 && b[7] == 2 && b[8] == 46
    && Get32(b, 12) == parent && Get16(b, 16) == |b| - 12 && b[18] == 2 && b[19] == 2 && b[20] == 46 && b[21] == 46
    && (forall k :: 9 <= k < 12 || 22 <= k < |b| ==> b[k] == 0)
  }

  lemma DotsLaid(bs: nat, self: nat, parent: nat)
    requires bs in {1024, 2048, 4096} && self < U32 && parent < U32
    ensures var dot := Filled(Put16(Zeros(12), DE_REC_LEN, 12), self, FT_DIR, [DOT]);
            var dotdot := Filled(Put16(Zeros(bs - 12), DE_REC_LEN, bs - 12), parent, FT_DIR, [DOT, DOT]);
            DotBytes(dot + dotdot, self, parent)
  {
    var dot := Filled(Put16(Zeros(12), DE_REC_LEN, 12), self, FT_DIR, [DOT]);
    var dotdot := Filled(Put16(Zeros(bs - 12), DE_REC_LEN, bs - 12), parent, FT_DIR, [DOT, DOT]);
    var b := dot + dotdot;
    assert Get32(dot, 0) == InodeOf(dot) == self && Get32(dotdot, 0) == InodeOf(dotdot) == parent;
    assert forall k :: 0 <= k < 8 ==> b[k] == dot[k] && b[12 + k] == dotdot[k];
    assert Get32(b, 0) == Get32(dot, 0) && Get32(b, 12) == Get32(dotdot, 0);
    assert Get16(b, 4) == RecLen(dot) && Get16(b, 16) == RecLen(dotdot);
  }

  lemma TwoRecs(c: Buf, d: Buf)
    requires IsRec(c) && IsRec(d) && InodeOf(c) != 0 && InodeOf(d) != 0
    ensures Chain(c + d) && Entries(c + d) == [EntryOf(c), EntryOf(d)]
  {
    ParseFlat([c, d], []);
    FlatTwo(c, d);
    LiveTwo(c, d);
    LiveOne(c);
    LiveOne(d);
    assert Flat([c, d]) + [] == c + d;
    assert [c, d] + Parse([]) == [c, d];
  }
}
