/** lib/fs.c and vfs/dentry.c: the components of a path, and splitting off the last one. */
module Paths {
  import opened Bytes
  import opened Words

  const SLASH: Byte := 47
  const CAP: nat := 255   // characters the component buffer takes

  /** Where the component that starts at 0 ends, no further than limit. */
  function RunEnd(p: Buf, limit: nat, k: nat): (n: nat)
    requires k <= |p|
    ensures k <= n <= |p| && (k <= limit ==> n <= limit)
    ensures k < |p| && k < limit && p[k] != SLASH ==> k < n
    decreases |p| - k
  {
    if k < |p| && k < limit && p[k] != SLASH then RunEnd(p, limit, k + 1) else k
  }

  lemma RunIs(p: Buf, limit: nat, k: nat)
    requires k <= |p|
    ensures forall j :: k <= j < RunEnd(p, limit, k) ==> p[j] != SLASH
    ensures RunEnd(p, limit, k) < |p| && RunEnd(p, limit, k) < limit ==> p[RunEnd(p, limit, k)] == SLASH
    decreases |p| - k
  {
    if k < |p| && k < limit && p[k] != SLASH { RunIs(p, limit, k + 1); }
  }

  /** The components the walk sees: slashes dropped, and no component longer than its buffer. */
  function Components(p: Buf): seq<Buf>
    decreases |p|
  {
    if p == [] then []
    else if p[0] == SLASH then Components(p[1..])
    else var n := RunEnd(p, CAP, 0); [p[..n]] + Components(p[n..])
  }

  /** The names between the slashes. */
  function SlashNames(p: Buf): seq<Buf>
    decreases |p|
  {
    if p == [] then []
    else if p[0] == SLASH then SlashNames(p[1..])
    else var n := RunEnd(p, |p|, 0); [p[..n]] + SlashNames(p[n..])
  }

  /** The two agree exactly when every name fits the buffer; a longer one is walked in pieces. */
  lemma {:induction false} WholeNames(p: Buf)
    ensures Components(p) == SlashNames(p) <==> forall c :: c in SlashNames(p) ==> |c| <= 255
    decreases |p|
  {
    if p == [] {
    } else if p[0] == SLASH {
      WholeNames(p[1..]);
    } else {
      var n, m := RunEnd(p, CAP, 0), RunEnd(p, |p|, 0);
      Capped(p, 0);
      var rest := SlashNames(p[m..]);
      assert SlashNames(p) == [p[..m]] + rest && SlashNames(p)[0] == p[..m];
      assert Components(p)[0] == p[..n];
      if m <= CAP {
        WholeNames(p[m..]);
        assert Components(p) == [p[..m]] + Components(p[m..]);
        assert Components(p)[1..] == Components(p[m..]) && SlashNames(p)[1..] == rest;
        assert forall c :: c in SlashNames(p) <==> c == p[..m] || c in rest;
      } else {
        assert p[..m] in SlashNames(p);
      }
    }
  }

  lemma Capped(p: Buf, k: nat)
    requires k <= |p| && k <= CAP
    ensures RunEnd(p, CAP, k) == if RunEnd(p, |p|, k) <= CAP then RunEnd(p, |p|, k) else CAP
    decreases |p| - k
  {
    if k < |p| && k < CAP && p[k] != SLASH { Capped(p, k + 1); }
  }

  lemma RunStops(q: Buf, r: Buf, k: nat)
    requires k <= |q|
    ensures RunEnd(q + [SLASH] + r, CAP, k) == RunEnd(q, CAP, k)
    decreases |q| - k
  {
    var p := q + [SLASH] + r;
    if k < |q| {
      assert p[k] == q[k];
      RunStops(q, r, k + 1);
    } else {
      assert p[k] == SLASH;
    }
  }

  /** A slash separates. */
  lemma {:induction false} Joined(q: Buf, r: Buf)
    ensures Components(q + [SLASH] + r) == Components(q) + Components(r)
    decreases |q|
  {
    var p := q + [SLASH] + r;
    if q == [] {
      assert p[1..] == r;
    } else if q[0] == SLASH {
      assert p[1..] == q[1..] + [SLASH] + r;
      Joined(q[1..], r);
    } else {
      var n := RunEnd(q, CAP, 0);
      RunStops(q, r, 0);
      assert p[..n] == q[..n] && p[n..] == q[n..] + [SLASH] + r;
      Joined(q[n..], r);
    }
  }

  ghost predicate AllSlashes(p: Buf) { forall k :: 0 <= k < |p| ==> p[k] == SLASH }

  lemma {:induction false} NothingIn(p: Buf)
    ensures Components(p) == [] <==> AllSlashes(p)
    decreases |p|
  {
    if p != [] && p[0] == SLASH {
      NothingIn(p[1..]);
      assert p == [p[0]] + p[1..];
    }
  }

  lemma SingleName(name: Buf)
    requires 0 < |name| <= CAP && SLASH !in name
    ensures Components(name) == [name]
  {
    RunIs(name, CAP, 0);
    var n := RunEnd(name, CAP, 0);
    assert n == |name| && name[n..] == [];
    assert name[..n] == name;
  }

  /** The last component is path[slash + 1..end + 1]. */
  ghost predicate LastAt(path: Buf, slash: nat, end: nat)
  {
    && slash < end < |path| && path[slash] == SLASH && SLASH !in path[slash + 1..end + 1] && AllSlashes(path[end + 1..])
  }

  function ParentOf(path: Buf, slash: nat): Buf
    requires slash <= |path|
  {
    if slash == 0 then [SLASH] else path[..slash]
  }

  lemma SplitComposes(path: Buf, slash: nat, end: nat)
    requires LastAt(path, slash, end) && end - slash <= CAP
    ensures Components(path) == Components(ParentOf(path, slash)) + [path[slash + 1..end + 1]]
  {
    var q, name, rest := path[..slash], path[slash + 1..end + 1], path[end + 1..];
    SingleName(name);
    assert path == q + [SLASH] + (name + rest);
    Joined(q, name + rest);
    if rest != [] {
      assert name + rest == name + [SLASH] + rest[1..];
      Joined(name, rest[1..]);
      NothingIn(rest[1..]);
    } else {
      assert name + rest == name;
    }
    if slash == 0 { NothingIn([SLASH]); NothingIn(q); }
  }

  lemma AfterLast(path: Buf, slash: nat, end: nat, k: nat)
    requires LastAt(path, slash, end) && end < k < |path|
    ensures path[k] == SLASH
  {
    assert path[k] == path[end + 1..][k - end - 1];
  }

  lemma InLast(path: Buf, slash: nat, end: nat, k: nat)
    requires LastAt(path, slash, end) && slash < k <= end
    ensures path[k] != SLASH
  {
    assert path[k] == path[slash + 1..end + 1][k - slash - 1];
  }

  lemma LastOnce(path: Buf, s1: nat, e1: nat, s2: nat, e2: nat)
    requires LastAt(path, s1, e1) && LastAt(path, s2, e2)
    ensures s1 == s2 && e1 == e2
  {
    InLast(path, s1, e1, e1);
    InLast(path, s2, e2, e2);
    if e1 < e2 {
      AfterLast(path, s1, e1, e2);
    } else if e2 < e1 {
      AfterLast(path, s2, e2, e1);
    } else if s1 < s2 {
      InLast(path, s1, e1, s2);
    } else if s2 < s1 {
      InLast(path, s2, e2, s1);
    }
  }

  lemma NoLast(path: Buf)
    requires AllSlashes(path)
    ensures forall s: nat, e: nat :: !LastAt(path, s, e)
  {
    forall s: nat, e: nat ensures !LastAt(path, s, e) {
      if s < e < |path| { assert path[s + 1..e + 1][e - s - 1] == path[e]; }
    }
  }

  ghost predicate Fits(path: Buf, pmax: nat, nmax: nat)
  {
    exists slash: nat, end: nat :: LastAt(path, slash, end) && end - slash < nmax && (slash == 0 || slash < pmax)
  }

  ghost predicate TooLong(path: Buf, pmax: nat, nmax: nat)
  {
    exists slash: nat, end: nat :: LastAt(path, slash, end) && (end - slash >= nmax || (slash > 0 && slash >= pmax))
  }

  /** split_absolute_path: succeeds exactly when the path is absolute, has a last component, and
      both parts fit their buffers. */
  method SplitPath(path: Buf, pmax: nat, nmax: nat) returns (r: Option<(Buf, Buf)>)
    requires nmax <= CAP + 1
    ensures r.Some? <==> path != [] && path[0] == SLASH && Fits(path, pmax, nmax)
    ensures r.Some? ==> Components(path) == Components(r.value.0) + [r.value.1] && SLASH !in r.value.1
    ensures r.Some? ==> 0 < |r.value.1| < nmax && r.value.0 <= path && r.value.0 != []
    ensures r.None? ==> path == [] || path[0] != SLASH || Components(path) == [] || TooLong(path, pmax, nmax)
  {
    if |path| <= 1 {
      NothingIn(path);
      return None;
    }
    if path[0] != SLASH { return None; }
    var end := |path| - 1;
    while end > 0 && path[end] == SLASH
      invariant 0 <= end < |path| && AllSlashes(path[end + 1..])
    {
      assert path[end..] == [path[end]] + path[end + 1..];
      end := end - 1;
    }
    var slash := end;
    while slash > 0 && path[slash] != SLASH
      invariant 0 <= slash <= end && SLASH !in path[slash + 1..end + 1]
    {
      assert path[slash..end + 1] == [path[slash]] + path[slash + 1..end + 1];
      slash := slash - 1;
    }
    if end == 0 {
      assert path == [path[0]] + path[1..];
      NothingIn(path);
      NoLast(path);
    } else {
      assert LastAt(path, slash, end);
      OnlySplit(path, slash, end);
    }
    var nlen := end - slash;
    if nlen <= 0 || nlen >= nmax { return None; }
    SplitComposes(path, slash, end);
    var name := path[slash + 1..end + 1];
    if slash == 0 {
      return Some(([SLASH], name));
    }
    if slash >= pmax { return None; }
    return Some((path[..slash], name));
  }

  lemma OnlySplit(path: Buf, slash: nat, end: nat)
    requires LastAt(path, slash, end)
    ensures forall s: nat, e: nat :: LastAt(path, s, e) ==> s == slash && e == end
  {
    forall s: nat, e: nat | LastAt(path, s, e) ensures s == slash && e == end { LastOnce(path, slash, end, s, e); }
  }

  method SkipSlashes(p: Buf) returns (rest: Buf)
    ensures Components(rest) == Components(p) && |rest| <= |p| && (rest != [] ==> rest[0] != SLASH)
  {
    rest := p;
    while rest != [] && rest[0] == SLASH
      invariant Components(rest) == Components(p) && |rest| <= |p|
      decreases |rest|
    {
      rest := rest[1..];
    }
  }

  /** The characters up to the next slash, as many as the buffer takes. */
  method NextComponent(p: Buf) returns (component: Buf, rest: Buf)
    requires p != [] && p[0] != SLASH
    ensures Components(p) == [component] + Components(rest) && |rest| < |p|
  {
    var i := 0;
    while i < |p| && p[i] != SLASH && i < CAP
      invariant i <= |p| && i <= CAP && RunEnd(p, CAP, i) == RunEnd(p, CAP, 0)
    {
      i := i + 1;
    }
    component, rest := p[..i], p[i..];
  }
}
