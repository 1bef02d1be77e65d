/** The inner loop of ext2_add_dir_entry on a block of any bytes: nothing in the code asks
    whether they are directory records. */
module RecordScan {
  import opened Words
  import opened Bytes
  import opened EntryLists
  import opened DirBlock

  /** Where the walk puts a new record: over a dead one, in the slack of one, nowhere, or it
      leaves the block buffer. */
  datatype Spot = NoSpot | Reuse(off: nat) | SplitAt(off: nat) | Outside

  /** de->rec_len minus what its name needs, in 32 bits. */
  function Slack(c: Buf): (r: nat)
    ensures r < U32
  {
    Sub32(RecLen(c), Need(NameLen(c)))
  }

  /** The walk from off for a name of nlen bytes. */
  function Scan(b: Buf, off: nat, nlen: nat): Spot
    decreases |b| - off
  {
    if off >= |b| then NoSpot
    else if off + 8 > |b| then Outside
    else
      var c := b[off..];
      if RecLen(c) == 0 then NoSpot
      else if InodeOf(c) == 0 && RecLen(c) >= Need(nlen) then (if off + 8 + nlen <= |b| then Reuse(off) else Outside)
      else if Slack(c) >= Need(nlen) then
        (if off + Need(NameLen(c)) + 8 + nlen <= |b| then SplitAt(off) else Outside)
      else Scan(b, off + RecLen(c), nlen)
  }

  /** The spot lies in the block. */
  predicate Fits(b: Buf, spot: Spot, nlen: nat)
  {
    match spot
    case Reuse(off) => off + 8 + nlen <= |b|
    case SplitAt(off) => off + 8 <= |b| && off + Need(NameLen(b[off..])) + 8 + nlen <= |b|
    case _ => true
  }

  lemma {:induction false} ScanFits(b: Buf, off: nat, nlen: nat)
    ensures Fits(b, Scan(b, off, nlen), nlen)
    decreases |b| - off
  {
    if off < |b| && off + 8 <= |b| && RecLen(b[off..]) != 0 { ScanFits(b, off + RecLen(b[off..]), nlen); }
  }

  /** The record at off cut down to what its name needs, and a new one behind it. */
  function Cleft(b: Buf, off: nat, name: Buf, ino: nat, kind: Byte): (r: Buf)
    requires Fits(b, SplitAt(off), |name|) && |name| < 256 && ino < U32
    ensures |r| == |b|
  {
    var actual := Need(NameLen(b[off..]));
    var cut := Put16(b, off + DE_REC_LEN, actual);
    var rest := Put16(b[off + actual..], DE_REC_LEN, Low16(Slack(b[off..])));
    Splice(cut, off + actual, Filled(rest, ino, kind, name))
  }

  /** The block with the new record put there. */
  function Placed(b: Buf, spot: Spot, name: Buf, ino: nat, kind: Byte): (r: Buf)
    requires Fits(b, spot, |name|) && |name| < 256 && ino < U32
    ensures |r| == |b|
  {
    match spot
    case Reuse(off) => Splice(b, off, Filled(b[off..], ino, kind, name))
    case SplitAt(off) => Cleft(b, off, name, ino, kind)
    case _ => b
  }

  /** The inner loop of ext2_add_dir_entry: reuse the first dead record that is long enough or
      split the first with enough slack, as long as the walk stays in the block. */
  method AddInBlock(b: Buf, name: Buf, ino: nat, kind: Byte) returns (ok: bool, b': Buf)
    requires ino < U32 && |name| < 256 && Scan(b, 0, |name|) != Outside
    ensures ok <==> Scan(b, 0, |name|) != NoSpot
    ensures Fits(b, Scan(b, 0, |name|), |name|) && b' == Placed(b, Scan(b, 0, |name|), name, ino, kind)
  {
    hide Need, Slack, Filled, Splice, RecLen, InodeOf, NameLen;
    ScanFits(b, 0, |name|);
    var need := Need(|name|);
    var off := 0;
    while off < |b|
      invariant Scan(b, off, |name|) == Scan(b, 0, |name|)
      decreases |b| - off
    {
      var c := b[off..];
      var n := RecLen(c);
      if n == 0 { break; }
      if InodeOf(c) == 0 && n >= need {
        return true, Splice(b, off, Filled(c, ino, kind, name));
      }
      if Slack(c) >= need {
        return true, Cleft(b, off, name, ino, kind);
      }
      off := off + n;
    }
    return false, b;
  }

  // ----- on a chain of records -----

  /** Filling in a record touches nothing behind its name. */
  lemma FilledPrefix(c: Buf, n: nat, name: Buf, ino: nat, kind: Byte)
    requires 8 + |name| <= n <= |c| && |name| < 256 && ino < U32
    ensures forall k :: 0 <= k < |c| ==>
      Filled(c, ino, kind, name)[k] == if k < n then Filled(c[..n], ino, kind, name)[k] else c[k]
  {
    var x, y := Put32(c, DE_INODE, ino), Put32(c[..n], DE_INODE, ino);
    assert forall k :: 0 <= k < n ==> x[k] == y[k];
    var x', y' := x[DE_NAME_LEN := |name|][DE_TYPE := kind], y[DE_NAME_LEN := |name|][DE_TYPE := kind];
    assert Filled(c, ino, kind, name) == Splice(x', DE_NAME, name);
    assert Filled(c[..n], ino, kind, name) == Splice(y', DE_NAME, name);
  }

  lemma FilledOver(b: Buf, off: nat, n: nat, name: Buf, ino: nat, kind: Byte)
    requires off + n <= |b| && 8 + |name| <= n && |name| < 256 && ino < U32
    ensures Splice(b, off, Filled(b[off..], ino, kind, name)) ==
            Splice(b, off, Filled(b[off..off + n], ino, kind, name))
  {
    hide Filled;
    FilledPrefix(b[off..], n, name, ino, kind);
    assert b[off..][..n] == b[off..off + n];
  }

  lemma HeaderPrefix(b: Buf, off: nat, c: Buf)
    requires off + |c| <= |b| && c == b[off..off + |c|] && 8 <= |c|
    ensures NameLen(b[off..]) == NameLen(c) && RecLen(b[off..]) == RecLen(c) && InodeOf(b[off..]) == InodeOf(c)
  {
  }

  lemma CleftIs(b: Buf, off: nat, c: Buf, name: Buf, ino: nat, kind: Byte)
    requires off + |c| <= |b| && c == b[off..off + |c|] && IsRec(c) && |c| < U16 && |name| < 256 && ino < U32
    requires |c| >= Need(NameLen(c)) + Need(|name|)
    ensures Fits(b, SplitAt(off), |name|) && Slack(b[off..]) == |c| - Need(NameLen(c))
    ensures var a := Need(NameLen(c));
            Cleft(b, off, name, ino, kind) ==
              Splice(Put16(b, off + DE_REC_LEN, a), off + a,
                     Filled(Put16(b[off + a..], DE_REC_LEN, |c| - a), ino, kind, name))
  {
    hide Filled, NameLen, Put16, Need, Splice;
    HeaderPrefix(b, off, c);
  }

  lemma SplitIs(c: Buf, name: Buf, ino: nat, kind: Byte)
    requires IsRec(c) && |c| < U16 && |name| < 256 && ino < U32 && |c| >= Need(NameLen(c)) + Need(|name|)
    ensures var a := Need(NameLen(c));
            Split(c, ino, kind, name) ==
              (Put16(c, DE_REC_LEN, a)[..a], Filled(Put16(c[a..], DE_REC_LEN, |c| - a), ino, kind, name))
  {
    hide Filled, NameLen, Put16, Need;
  }

  lemma {:induction false} CleftOver(b: Buf, off: nat, c: Buf, name: Buf, ino: nat, kind: Byte)
    requires off + |c| <= |b| && c == b[off..off + |c|] && IsRec(c) && |c| < U16 && |name| < 256 && ino < U32
    requires |c| >= Need(NameLen(c)) + Need(|name|)
    ensures Fits(b, SplitAt(off), |name|) && Slack(b[off..]) == |c| - Need(NameLen(c))
    ensures var p := Split(c, ino, kind, name); Cleft(b, off, name, ino, kind) == Splice(b, off, p.0 + p.1)
  {
    hide Filled, NameLen, RecLen, Put16, Need, Splice, Cleft, Split, Slack, IsRec, Fits;
    CleftIs(b, off, c, name, ino, kind);
    SplitIs(c, name, ino, kind);
    var a := Need(NameLen(c));
    CutBytes(b, off, c, a);
    RestBytes(b, off, c, a, name, ino, kind);
    var cut, l := Put16(b, off + DE_REC_LEN, a), Put16(c, DE_REC_LEN, a)[..a];
    var rest := Filled(Put16(b[off + a..], DE_REC_LEN, |c| - a), ino, kind, name);
    var r := Filled(Put16(c[a..], DE_REC_LEN, |c| - a), ino, kind, name);
    assert |rest| == |b| - off - a && |r| == |c| - a;
    Glued(b, cut, off, l, rest, r);
  }

  lemma RestBytes(b: Buf, off: nat, c: Buf, a: nat, name: Buf, ino: nat, kind: Byte)
    requires off + |c| <= |b| && c == b[off..off + |c|] && |name| < 256 && ino < U32
    requires a + 8 + |name| <= |c| < U16
    ensures var rest := Filled(Put16(b[off + a..], DE_REC_LEN, |c| - a), ino, kind, name);
            var right := Filled(Put16(c[a..], DE_REC_LEN, |c| - a), ino, kind, name);
            forall k :: 0 <= k < |rest| ==> rest[k] == if k < |right| then right[k] else b[off + a + k]
  {
    hide Filled;
    assert b[off + a..][..|c| - a] == c[a..];
    TwoBytes(b[off + a..], c[a..], |c| - a);
    FilledPrefix(Put16(b[off + a..], DE_REC_LEN, |c| - a), |c| - a, name, ino, kind);
  }

  /** Two pieces laid down one behind the other. */
  lemma Glued(b: Buf, cut: Buf, off: nat, l: Buf, rest: Buf, r: Buf)
    requires off + |l| + |r| <= |b| == |cut| == off + |l| + |rest|
    requires forall k :: 0 <= k < |b| && !(off <= k < off + |l|) ==> cut[k] == b[k]
    requires forall k :: 0 <= k < |l| ==> cut[off + k] == l[k]
    requires forall k :: 0 <= k < |rest| ==> rest[k] == if k < |r| then r[k] else b[off + |l| + k]
    ensures Splice(cut, off + |l|, rest) == Splice(b, off, l + r)
  {
    forall k | 0 <= k < |b| ensures Splice(cut, off + |l|, rest)[k] == Splice(b, off, l + r)[k] {
      if off <= k < off + |l| { assert cut[off + (k - off)] == l[k - off]; }
      if off + |l| <= k { assert rest[k - off - |l|] == if k - off - |l| < |r| then r[k - off - |l|] else b[k]; }
    }
  }

  lemma TwoBytes(b: Buf, c: Buf, v: nat)
    requires 8 <= |c| <= |b| && c == b[..|c|] && v < U16
    ensures Put16(b, DE_REC_LEN, v)[..|c|] == Put16(c, DE_REC_LEN, v)
  {
  }

  lemma CutBytes(b: Buf, off: nat, c: Buf, a: nat)
    requires off + |c| <= |b| && c == b[off..off + |c|] && 8 <= a <= |c| && a < U16
    ensures var cut := Put16(b, off + DE_REC_LEN, a); var l := Put16(c, DE_REC_LEN, a)[..a];
            && |cut| == |b| && |l| == a
            && (forall k :: 0 <= k < |b| && !(off <= k < off + a) ==> cut[k] == b[k])
            && (forall k :: 0 <= k < a ==> cut[off + k] == l[k])
  {
  }

  /** Of the records cs the k-th, the first with room for e, took it in: over its own entry if it is
      dead and long enough, or else in a record of its own behind it, which gets all of the slack. */
  ghost predicate PutIn(cs: seq<Buf>, cs': seq<Buf>, k: nat, e: Entry)
  {
    && k < |cs| && NoRoom(cs[..k], Need(|e.name|)) && Room(cs[k], Need(|e.name|))
    && if InodeOf(cs[k]) == 0 && |cs[k]| >= Need(|e.name|)
       then |cs'| == |cs| && cs' == cs[k := cs'[k]] && |cs'[k]| == |cs[k]| && EntryOf(cs'[k]) == e
       else && |cs'| == |cs| + 1 && cs' == cs[..k] + [cs'[k], cs'[k + 1]] + cs[k + 1..]
            && |cs'[k]| == Need(NameLen(cs[k])) && |cs'[k]| + |cs'[k + 1]| == |cs[k]|
            && EntryOf(cs'[k]) == EntryOf(cs[k]) && EntryOf(cs'[k + 1]) == e
  }

  lemma PutOver(b: Buf, off: nat, done: seq<Buf>, c: Buf, c': Buf, e: Entry)
    requires Reached(b, off, done) && off < |b| && off + RecLen(b[off..]) <= |b| && c == b[off..off + RecLen(b[off..])]
    requires NoRoom(done, Need(|e.name|)) && InodeOf(c) == 0 && |c| >= Need(|e.name|)
    requires IsRec(c') && |c'| == |c| && EntryOf(c') == e
    ensures PutIn(Parse(b), Parse(Splice(b, off, c')), |done|, e)
  {
    hide Reached, Chain, Parse, Flat, AllRecs, IsRec, Need, EntryOf, NoRoom;
    ParsedHere(b, off, done);
    FlatOne(c');
    assert AllRecs([c']) by { OneIsAll(c'); }
    ParsedAround(b, off, done, [c'], b[off + |c|..]);
    assert Parse(b)[..|done|] == done;
  }

  lemma PutBehind(b: Buf, off: nat, done: seq<Buf>, c: Buf, l: Buf, r: Buf, e: Entry)
    requires Reached(b, off, done) && off < |b| && off + RecLen(b[off..]) <= |b| && c == b[off..off + RecLen(b[off..])]
    requires NoRoom(done, Need(|e.name|)) && !(InodeOf(c) == 0 && |c| >= Need(|e.name|))
    requires |c| >= Need(NameLen(c)) + Need(|e.name|) && IsRec(l) && IsRec(r) && |l| + |r| == |c|
    requires |l| == Need(NameLen(c)) && EntryOf(l) == EntryOf(c) && EntryOf(r) == e
    ensures PutIn(Parse(b), Parse(Splice(b, off, l + r)), |done|, e)
  {
    hide Reached, Chain, Parse, Flat, AllRecs, IsRec, Need, EntryOf, NoRoom;
    ParsedHere(b, off, done);
    FlatTwo(l, r);
    assert AllRecs([l, r]) by { TwoAreAll(l, r); }
    ParsedAround(b, off, done, [l, r], b[off + |c|..]);
    assert Parse(b)[..|done|] == done;
    assert Parse(b)[|done| + 1..] == Parse(b[off + |c|..]);
  }

  lemma TwoAreAll(l: Buf, r: Buf)
    requires IsRec(l) && IsRec(r)
    ensures AllRecs([l, r])
  {
  }

  /** Where the walk stops in a chain of records, the records passed having no room. */
  lemma {:induction false} ScanChain(b: Buf, off: nat, done: seq<Buf>, name: Buf, ino: nat, kind: Byte)
    requires off <= |b| && Reached(b, off, done) && NoRoom(done, Need(|name|))
    requires |b| < U16 && 0 < ino < U32 && |name| < 256
    ensures var spot := Scan(b, off, |name|);
            && spot != Outside && Fits(b, spot, |name|) && Chain(Placed(b, spot, name, ino, kind))
            && (spot == NoSpot <==> NoRoom(Parse(b), Need(|name|)))
            && (spot != NoSpot ==>
                  exists k: nat :: Inserted(Entries(b), Entries(Placed(b, spot, name, ino, kind)), k,
                                            Entry(name, ino, kind)))
            && (spot != NoSpot ==>
                  exists k: nat :: PutIn(Parse(b), Parse(Placed(b, spot, name, ino, kind)), k, Entry(name, ino, kind)))
    decreases |b| - off
  {
    hide Reached, Chain, Flat, AllRecs, Live, Parse, Entries, Inserted, PutIn;
    if off < |b| {
      Step(b, off, done);
      var n := RecLen(b[off..]);
      var c := b[off..off + n];
      SlackOf(c);
      if InodeOf(c) == 0 && n >= Need(|name|) {
        RoomSeen(b, off, done, Need(|name|));
        FilledOver(b, off, n, name, ino, kind);
        Reused(b, off, done, c, Filled(c, ino, kind, name));
        PutOver(b, off, done, c, Filled(c, ino, kind, name), Entry(name, ino, kind));
      } else if n - Need(NameLen(c)) >= Need(|name|) {
        RoomSeen(b, off, done, Need(|name|));
        CleftOver(b, off, c, name, ino, kind);
        var p := Split(c, ino, kind, name);
        WasSplit(b, off, done, c, p.0, p.1);
        PutBehind(b, off, done, c, p.0, p.1, Entry(name, ino, kind));
      } else {
        ScanChain(b, off + n, done + [c], name, ino, kind);
      }
    } else {
      AllSeen(b, done);
      EntriesAt(b, off, done);
    }
  }

  /** In a block of records the walk stays inside, finds room if and only if some record has it,
      and leaves a block of records with that one entry more. */
  lemma ScanRecords(b: Buf, name: Buf, ino: nat, kind: Byte)
    requires Chain(b) && |b| < U16 && 0 < ino < U32 && |name| < 256
    ensures var spot := Scan(b, 0, |name|);
            && spot != Outside && Fits(b, spot, |name|) && Chain(Placed(b, spot, name, ino, kind))
            && (spot == NoSpot <==> NoRoom(Parse(b), Need(|name|)))
            && (spot != NoSpot ==>
                  exists k: nat :: Inserted(Entries(b), Entries(Placed(b, spot, name, ino, kind)), k,
                                            Entry(name, ino, kind)))
            && (spot != NoSpot ==>
                  exists k: nat :: PutIn(Parse(b), Parse(Placed(b, spot, name, ino, kind)), k, Entry(name, ino, kind)))
  {
    AtStart(b, name);
    ScanChain(b, 0, [], name, ino, kind);
  }

  // ----- on bytes that end in zeros -----

  lemma {:induction false} ScanFound(b: Buf, off: nat, nlen: nat)
    ensures var spot := Scan(b, off, nlen);
            && Fits(b, spot, nlen)
            && (spot.Reuse? ==> InodeOf(b[spot.off..]) == 0 < RecLen(b[spot.off..]))
            && (spot.SplitAt? ==> Slack(b[spot.off..]) != 0 < RecLen(b[spot.off..]))
    decreases |b| - off
  {
    if off < |b| && off + 8 <= |b| && RecLen(b[off..]) != 0 { ScanFound(b, off + RecLen(b[off..]), nlen); }
  }

  lemma ReuseDiffers(b: Buf, o: nat, name: Buf, ino: nat, kind: Byte)
    requires Fits(b, Reuse(o), |name|) && 0 < ino < U32 && |name| < 256 && InodeOf(b[o..]) == 0
    ensures exists k: nat :: k < o + 4 && Placed(b, Reuse(o), name, ino, kind)[k] != b[k]
  {
    hide Filled;
    var b' := Placed(b, Reuse(o), name, ino, kind);
    var c' := Filled(b[o..], ino, kind, name);
    assert InodeOf(c') == ino;
    assert b'[o] == c'[0] && b'[o + 1] == c'[1] && b'[o + 2] == c'[2] && b'[o + 3] == c'[3];
    assert b'[o] != b[o] || b'[o + 1] != b[o + 1] || b'[o + 2] != b[o + 2] || b'[o + 3] != b[o + 3];
  }

  lemma CleftDiffers(b: Buf, o: nat, name: Buf, ino: nat, kind: Byte, z: nat)
    requires Fits(b, SplitAt(o), |name|) && ino < U32 && |name| < 256 && o + 4 < z <= |b|
    requires (forall k :: z <= k < |b| ==> b[k] == 0) && Slack(b[o..]) != 0
    ensures exists k: nat :: k < z && Cleft(b, o, name, ino, kind)[k] != b[k]
  {
    hide Filled, Slack, Low16;
    var b', a := Cleft(b, o, name, ino, kind), Need(NameLen(b[o..]));
    assert Get16(b', o + DE_REC_LEN) == a;
    assert Get16(b, o + DE_REC_LEN) == RecLen(b[o..]) != a by { SlackZero(b[o..]); }
    if o + 5 == z {
      assert NameLen(b[o..]) == b[o + 6] as int == 0;
      assert a == 8 && b[o + 5] == 0;
      assert b'[o + 5] == 0;
    }
  }

  lemma SlackZero(c: Buf)
    ensures RecLen(c) == Need(NameLen(c)) <==> Slack(c) == 0
  {
  }

  /** The walk changes a byte in front of the zeros a block ends in. */
  lemma ScanDiffers(b: Buf, name: Buf, ino: nat, kind: Byte, z: nat)
    requires 0 < ino < U32 && |name| < 256 && z <= |b| && (forall k :: z <= k < |b| ==> b[k] == 0)
    requires Scan(b, 0, |name|) != NoSpot && Scan(b, 0, |name|) != Outside
    ensures Fits(b, Scan(b, 0, |name|), |name|)
    ensures exists k: nat :: k < z && Placed(b, Scan(b, 0, |name|), name, ino, kind)[k] != b[k]
  {
    hide Filled, Slack, Low16, Scan, Cleft, Need;
    ScanFits(b, 0, |name|);
    ScanFound(b, 0, |name|);
    var spot := Scan(b, 0, |name|);
    var o := spot.off;
    assert RecLen(b[o..]) == b[o + 4] as int + 256 * b[o + 5] as int;
    if spot.Reuse? {
      ReuseDiffers(b, o, name, ino, kind);
    } else {
      CleftDiffers(b, o, name, ino, kind, z);
    }
  }
}
