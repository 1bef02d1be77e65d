/** scheduler.c: the circular process list and the timer tick. */
module Scheduler {

  datatype State = Off | Starting | Running

  class Process {
    var next: Process?

    constructor ()
      ensures next == null
    {
      next := null;
    }
  }

  ghost predicate Distinct(r: seq<Process>) { forall i, j :: 0 <= i < j < |r| ==> r[i] != r[j] }

  function After(n: nat, i: nat): nat { if i + 1 < n then i + 1 else 0 }

  /** The next pointers run once round r. */
  ghost predicate Cycle(r: seq<Process>)
    reads r
  {
    forall i: nat {:trigger Link(r, i)} :: Link(r, i)
  }

  ghost predicate Link(r: seq<Process>, i: nat)
    reads r
  {
    i < |r| ==> After(|r|, i) < |r| && r[i].next == r[After(|r|, i)]
  }

  /** p stands at place i of r. */
  ghost predicate At(r: seq<Process>, i: nat, p: Process?) { i < |r| && r[i] == p }

  lemma SamePlace(r: seq<Process>, i: nat, j: nat, p: Process?)
    requires Distinct(r) && At(r, i, p) && At(r, j, p)
    ensures i == j
  {
  }

  ghost function PlaceOf(r: seq<Process>, p: Process): (i: nat)
    requires p in r
    ensures At(r, i, p)
  {
    var i: nat :| i < |r| && r[i] == p; i
  }

  /** Turned left so that the element after i comes first. */
  function Turned<T>(r: seq<T>, i: nat): (t: seq<T>)
    requires i < |r|
    ensures |t| == |r|
  {
    r[i + 1..] + r[..i + 1]
  }

  lemma TurnedHas<T>(r: seq<T>, i: nat)
    requires i < |r|
    ensures multiset(Turned(r, i)) == multiset(r)
  {
    assert r == r[..i + 1] + r[i + 1..];
  }

  lemma OnceEach(r: seq<Process>, p: Process)
    requires Distinct(r) && p in r
    ensures multiset(r)[p] == 1
  {
    var i :| 0 <= i < |r| && r[i] == p;
    assert r == r[..i] + [p] + r[i + 1..];
    assert p !in r[..i] && p !in r[i + 1..];
  }

  /** r with p taken out */
  function Minus(r: seq<Process>, p: Process): (w: seq<Process>)
    ensures p !in w
    ensures p !in r ==> w == r
  {
    if r == [] then [] else if r[0] == p then Minus(r[1..], p) else [r[0]] + Minus(r[1..], p)
  }

  lemma MinusIs(r: seq<Process>, i: nat, p: Process)
    requires Distinct(r)
    requires At(r, i, p)
    ensures Minus(r, p) == r[..i] + r[i + 1..]
  {
    if i > 0 {
      MinusIs(r[1..], i - 1, p);
      assert r[..i] + r[i + 1..] == [r[0]] + (r[1..][..i - 1] + r[1..][i..]);
    } else {
      assert p !in r[1..];
    }
  }

  lemma MinusHas(r: seq<Process>, m: nat, p: Process, w: seq<Process>)
    requires Distinct(r) && At(r, m, p) && |r| > 1 && w == r[..m] + r[m + 1..]
    ensures Distinct(w) && |w| == |r| - 1
    ensures forall q :: q in w <==> q in r && q != p
    ensures w[0] == if m == 0 then r[1] else r[0]
  {
    assert r == r[..m] + [p] + r[m + 1..];
    assert p !in r[..m] && p !in r[m + 1..];
  }

  /** Making the one before it skip place m closes the cycle without it. */
  lemma CutCycle(r: seq<Process>, k: nat, m: nat, w: seq<Process>)
    requires k < |r| && m == After(|r|, k) && |r| > 1 && w == r[..m] + r[m + 1..]
    requires r[k].next == r[After(|r|, m)] && forall i: nat {:trigger Link(r, i)} :: i != k ==> Link(r, i)
    ensures Cycle(w)
  {
    forall j: nat ensures Link(w, j) {
      if j < |w| {
        var i := if j < m then j else j + 1;
        assert i != k ==> Link(r, i);
      }
    }
  }

  class Ring {
    var processList: Process?
    var current: Process?
    var ticks: nat
    var state: State
    ghost var ring: seq<Process>

    constructor ()
      ensures Valid() && ring == [] && state.Off? && current == null
    {
      processList, current, ticks, state, ring := null, null, 0, Off, [];
    }

    ghost predicate Valid()
      reads this, ring
    {
      && Distinct(ring) && Cycle(ring)
      && (if ring == [] then processList == null else processList == ring[0])
      && (current != null ==> current in ring)
      && (state != Off ==> current != null)
      && ticks == 0
    }

    /** scheduler_add_process: the new process goes in front of the head, at the end of the round. */
    method Add(proc: Process)
      requires Valid() && proc !in ring
      modifies this, ring, proc
      ensures Valid() && ring == old(ring) + [proc]
      ensures current == old(current) && state == old(state)
    {
      ghost var r := ring;
      if processList == null {
        processList := proc;
        proc.next := proc;
        ring := [proc];
      } else {
        var last := FindLast();
        assert forall i: nat :: Link(r, i);
        last.next := proc;
        proc.next := processList;
        ring := ring + [proc];
        forall i: nat ensures Link(ring, i) { assert i < |r| ==> old(Link(r, i)); }
      }
    }

    /** The walk that stops in front of the head. */
    method FindLast() returns (last: Process)
      requires Valid() && processList != null
      ensures last == ring[|ring| - 1]
    {
      last := processList;
      ghost var k := 0;
      assert Link(ring, k);
      while last.next != processList
        invariant k < |ring| && last == ring[k] && Link(ring, k)
        decreases |ring| - k
      {
        assert Link(ring, k);
        k := After(|ring|, k);
        last := last.next;
      }
    }

    /** scheduler_start and scheduler_init, up to where they idle. */
    method Start()
      requires Valid()
      modifies this
      ensures Valid() && ring == old(ring)
      ensures ring == [] ==> current == old(current) && state == old(state)
      ensures ring != [] ==> current == ring[0] && state.Starting?
    {
      if processList == null { return; }
      current := processList;
      state := Starting;
    }

    /** process_exit: unlink, and run the head next when the leaving process was the current one.
        The last process halts the system instead. */
    method Exit(proc: Process) returns (halted: bool)
      requires Valid() && ring != []
      modifies this, ring
      ensures Valid() && state == old(state)
      ensures halted <==> old(proc.next) == proc
      ensures halted || proc !in old(ring) ==> ring == old(ring) && current == old(current)
      ensures !halted ==> ring == Minus(old(ring), proc)
      ensures !halted ==> current == if old(current) == proc then processList else old(current)
    {
      if proc.next == proc { return true; }
      halted := false;
      ghost var r := ring;
      var p, k := FindBefore(proc);
      if p.next == proc {
        Unlink(proc, p, k);
      }
      if proc == current { current := processList; }
    }

    /** Let the one before proc, at place k, skip it. */
    method Unlink(proc: Process, p: Process, ghost k: nat)
      requires Valid() && At(ring, k, p) && p.next == proc && p != proc
      modifies `processList, `ring, p
      ensures Distinct(ring) && Cycle(ring) && ring == Minus(old(ring), proc) && ring != []
      ensures processList == ring[0] && forall q :: q in ring <==> q in old(ring) && q != proc
    {
      ghost var r := ring;
      ghost var m := After(|r|, k);
      assert Link(r, k) && Link(r, m);
      MinusIs(r, m, proc);
      ghost var w := r[..m] + r[m + 1..];
      MinusHas(r, m, proc, w);
      p.next := proc.next;
      if processList == proc { processList := proc.next; }
      forall i: nat | i != k ensures Link(r, i) { assert old(Link(r, i)); }
      CutCycle(r, k, m, w);
      ring := w;
    }

    /** The walk that stops in front of proc, or in front of the head when proc is not there. */
    method FindBefore(proc: Process) returns (p: Process, ghost k: nat)
      requires Valid() && processList != null
      ensures k < |ring| && p == ring[k]
      ensures p.next == proc <==> proc in ring
    {
      p, k := processList, 0;
      assert Link(ring, k);
      while p.next != proc && p.next != processList
        invariant k < |ring| && p == ring[k] && Link(ring, k) && (proc == ring[0] || proc !in ring[..k + 1])
        decreases |ring| - k
      {
        k := After(|ring|, k);
        p := p.next;
        assert Link(ring, k);
      }
    }

    /** schedule, on a timer interrupt */
    method Tick()
      requires Valid()
      modifies this`current, this`ticks, this`state
      ensures Valid()
      ensures state == if old(state) == Off then Off else Running
      ensures old(state) != Running ==> current == old(current)
      ensures old(state) == Running ==>
        forall i: nat :: At(ring, i, old(current)) ==> At(ring, After(|ring|, i), current)
    {
      if state == Starting {
        state := Running;
        return;
      }
      if state != Running || current == null { return; }
      ticks := ticks + 1;
      if ticks >= 1 {
        ticks := 0;
        var next := current.next;
        if next == null { next := processList; }
        current := next;
        ghost var i := PlaceOf(ring, old(current));
        assert Link(ring, i);
        forall j: nat | At(ring, j, old(current)) ensures At(ring, After(|ring|, j), current) {
          SamePlace(ring, i, j, old(current));
        }
      }
    }

    /** n ticks over n processes run each of them once, in ring order from the one after current. */
    method Round(n: nat) returns (ran: seq<Process>)
      requires Valid() && state == Running && n == |ring|
      modifies this`current, this`ticks, this`state
      ensures Valid() && state == Running && current == old(current)
      ensures multiset(ran) == multiset(ring)
      ensures forall i: nat :: At(ring, i, current) ==> ran == Turned(ring, i)
      ensures forall p :: p in ring ==> multiset(ran)[p] == 1
    {
      ghost var i := PlaceOf(ring, current);
      ran := [];
      ghost var t := Turned(ring, i);
      var k: nat := 0;
      while k < n
        invariant k <= n && |ran| == k && Valid() && state == Running
        invariant ran == t[..k]
        invariant At(ring, if i + k < n then i + k else i + k - n, current)
      {
        Tick();
        ran := ran + [current];
        k := k + 1;
      }
      assert t[..n] == t;
      TurnedHas(ring, i);
      forall j: nat | At(ring, j, current) ensures j == i { SamePlace(ring, i, j, current); }
      forall p | p in ring ensures multiset(ran)[p] == 1 { OnceEach(ring, p); }
    }
  }
}
