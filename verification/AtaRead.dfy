/** ata.c, ata_read_sectors: driver, drive and interrupt handler as interleaved steps. */
module AtaRead {
  import opened Words
  import opened Ata

  /** Where the driver is: the statement it runs next. Rearm is the ata_prepare_irq inside the loop. */
  datatype Pc = Top | Arm | Issue | Wait | Data | Rearm | Done | Failed

  /** The drive during READ SECTORS: fetching a sector, or holding one for the driver. */
  datatype Drive = Idle | Fetching | Holding(sector: Sector)

  datatype S = S(pc: Pc, lba: nat, count: nat, got: seq<Sector>, i: nat, chunk: nat, flag: bool, line: bool,
                 drive: Drive, at: nat, left: nat)

  /** Where the driver goes after taking sector i of its chunk. */
  function Taken(s: S, x: Sector): S
  {
    var t := s.(got := s.got + [x]);
    if s.i + 1 < s.chunk then t.(pc := Rearm)
    else t.(pc := Top, count := if s.chunk < s.count then s.count - s.chunk else 0, lba := s.lba + s.chunk)
  }

  /** The drive after its sector was taken: it fetches the next one at once. */
  function Emptied(s: S): S
  {
    if s.left > 1 then s.(drive := Fetching, at := s.at + 1, left := s.left - 1) else s.(drive := Idle, left := 0)
  }

  /** One statement of the driver. Taking data from a drive that holds none yields anything. */
  ghost predicate DriverStep(s: S, t: S)
  {
    match s.pc
    case Top =>
      if s.count == 0 then t == s.(pc := Done)
      else t == s.(pc := Arm, chunk := Min(s.count, MAX_CHUNK)) || t == s.(pc := Failed)
    case Arm => t == s.(pc := Issue, flag := false)
    case Issue => t == s.(pc := Wait, i := 0, drive := Fetching, at := s.lba % LBA_LIMIT, left := s.chunk % 256)
    case Wait => s.flag && t == s.(pc := Data)
    case Data =>
      if s.drive.Holding? then t == Taken(Emptied(s), s.drive.sector) else exists x :: t == Taken(s, x)
    case Rearm => t == s.(pc := Wait, i := s.i + 1, flag := false)
    case Done => false
    case Failed => false
  }

  /** The drive has the sector ready and raises its interrupt. */
  ghost predicate DriveStep(disk: seq<Sector>, s: S, t: S)
  {
    s.drive == Fetching && s.at < |disk| && t == s.(drive := Holding(disk[s.at]), line := true)
  }

  /** ata_primary_irq_handler */
  ghost predicate HandlerStep(s: S, t: S) { s.line && t == s.(line := false, flag := true) }

  ghost predicate Step(disk: seq<Sector>, s: S, t: S) { DriverStep(s, t) || DriveStep(disk, s, t) || HandlerStep(s, t) }

  /** A call for n sectors with a drive at rest; an empty transfer is refused. */
  ghost predicate Init(lba: nat, n: nat, s: S)
  {
    && s.pc == (if n == 0 then Failed else Top) && s.lba == lba && s.count == n
    && s.got == [] && !s.line && s.drive == Idle
  }

  /** The chunk under way started done sectors before the end of what was read. */
  ghost predicate InChunk(lba: nat, n: nat, s: S, done: nat)
  {
    && done <= |s.got| <= n && s.lba == lba + (|s.got| - done) && s.count == n - (|s.got| - done)
    && s.chunk == Min(s.count, MAX_CHUNK) && 0 < s.chunk
  }

  ghost predicate Read(disk: seq<Sector>, lba: nat, n: nat, s: S)
  {
    |s.got| <= n && lba + n <= |disk| && s.got == disk[lba..lba + |s.got|]
  }

  /** The drive is at the sector the driver has to take next, number i of the chunk. */
  ghost predicate Next(disk: seq<Sector>, lba: nat, n: nat, s: S, i: nat)
  {
    && i < s.chunk && InChunk(lba, n, s, i) && |s.got| < n && Read(disk, lba, n, s)
    && s.at == lba + |s.got| && s.left == s.chunk - i
    && (s.drive == Fetching || s.drive == Holding(disk[s.at]))
    && (s.line ==> s.drive.Holding?)
  }

  ghost predicate Inv(disk: seq<Sector>, lba: nat, n: nat, s: S)
  {
    match s.pc
    case Top =>
      !s.line && s.drive == Idle && Read(disk, lba, n, s) && s.lba == lba + |s.got| && s.count == n - |s.got|
    case Arm => !s.line && s.drive == Idle && Read(disk, lba, n, s) && InChunk(lba, n, s, 0)
    case Issue => !s.line && !s.flag && s.drive == Idle && Read(disk, lba, n, s) && InChunk(lba, n, s, 0)
    case Wait => Next(disk, lba, n, s, s.i) && (s.flag ==> s.drive.Holding? && !s.line)
    case Data => Next(disk, lba, n, s, s.i) && s.drive.Holding? && !s.line
    case Rearm => Next(disk, lba, n, s, s.i + 1)
    case Done => !s.line && s.drive == Idle && Read(disk, lba, n, s) && |s.got| == n
    case Failed => !s.line && s.drive == Idle && Read(disk, lba, n, s)
  }

  lemma DriverKeeps(disk: seq<Sector>, lba: nat, n: nat, s: S, t: S)
    requires Inv(disk, lba, n, s) && DriverStep(s, t) && |disk| <= 0x1000_0000
    ensures Inv(disk, lba, n, t)
  {
    if s.pc == Issue {
      Masked(s.lba, s.chunk);
    } else if s.pc == Data {
      DataKeeps(disk, lba, n, s, t);
    }
  }

  lemma DataKeeps(disk: seq<Sector>, lba: nat, n: nat, s: S, t: S)
    requires Inv(disk, lba, n, s) && s.pc == Data && t == Taken(Emptied(s), s.drive.sector)
    ensures Inv(disk, lba, n, t)
  {
    assert disk[lba..lba + |s.got|] + [disk[s.at]] == disk[lba..lba + |s.got| + 1];
  }

  lemma OthersKeep(disk: seq<Sector>, lba: nat, n: nat, s: S, t: S)
    requires Inv(disk, lba, n, s) && (DriveStep(disk, s, t) || HandlerStep(s, t))
    ensures Inv(disk, lba, n, t)
  {
  }

  /** One after another, by any of the three. */
  ghost predicate IsRun(disk: seq<Sector>, run: seq<S>)
  {
    |run| > 0 && forall k :: 0 <= k < |run| - 1 ==> Step(disk, run[k], run[k + 1])
  }

  lemma {:induction false} RunKeeps(disk: seq<Sector>, lba: nat, n: nat, run: seq<S>, k: nat)
    requires IsRun(disk, run) && Init(lba, n, run[0]) && lba + n <= |disk| <= 0x1000_0000 && k < |run|
    ensures Inv(disk, lba, n, run[k])
  {
    if k > 0 {
      RunKeeps(disk, lba, n, run, k - 1);
      if DriverStep(run[k - 1], run[k]) { DriverKeeps(disk, lba, n, run[k - 1], run[k]); }
      else { OthersKeep(disk, lba, n, run[k - 1], run[k]); }
    }
  }

  /** Under every interleaving a call that completes returns the matching slice of the disk. */
  lemma ReadSafe(disk: seq<Sector>, lba: nat, n: nat, run: seq<S>, k: nat)
    requires IsRun(disk, run) && Init(lba, n, run[0]) && lba + n <= |disk| <= 0x1000_0000 && k < |run|
    ensures run[k].pc == Done ==> run[k].got == disk[lba..lba + n]
    ensures run[k].pc == Failed ==> |run[k].got| <= n && run[k].got == disk[lba..lba + |run[k].got|]
  {
    RunKeeps(disk, lba, n, run, k);
  }

  /** The interrupt came and went before the flag was cleared for it: the driver clears it next... */
  ghost predicate Missed(s: S) { s.pc == Rearm && s.drive.Holding? && !s.line }

  /** ...and then waits for an interrupt that will not come. */
  ghost predicate Stuck(s: S) { s.pc == Wait && s.drive.Holding? && !s.line && !s.flag }

  /** The handler runs between the data transfer and the re-arm. */
  ghost predicate Early(s: S, t: S) { s.pc == Rearm && HandlerStep(s, t) }

  /** The only way in is an early interrupt. */
  lemma MissedBy(disk: seq<Sector>, lba: nat, n: nat, s: S, t: S)
    requires Inv(disk, lba, n, s) && Step(disk, s, t)
    ensures Missed(t) <==> Early(s, t)
    ensures Stuck(t) <==> Missed(s)
  {
  }

  lemma StuckStays(disk: seq<Sector>, s: S, t: S)
    requires Stuck(s)
    ensures !Step(disk, s, t)
  {
  }

  /** Any other state short of the return lets someone move. */
  lemma Moves(disk: seq<Sector>, lba: nat, n: nat, s: S)
    requires Inv(disk, lba, n, s) && s.pc != Done && s.pc != Failed && !Stuck(s)
    ensures exists t :: Step(disk, s, t) && t.pc != Failed
  {
    var t :=
      if s.line then s.(line := false, flag := true)
      else if s.drive == Fetching then s.(drive := Holding(disk[s.at]), line := true)
      else match s.pc
      case Top => if s.count == 0 then s.(pc := Done) else s.(pc := Arm, chunk := Min(s.count, MAX_CHUNK))
      case Arm => s.(pc := Issue, flag := false)
      case Issue => s.(pc := Wait, i := 0, drive := Fetching, at := s.lba % LBA_LIMIT, left := s.chunk % 256)
      case Wait => s.(pc := Data)
      case Data => Taken(Emptied(s), s.drive.sector)
      case Rearm => s.(pc := Wait, i := s.i + 1, flag := false)
      case Done => s
      case Failed => s;
    assert Step(disk, s, t);
  }

  /** Steps still to come: sixteen a sector, and where this sector stands. */
  function Remaining(n: nat, s: S): nat
  {
    var sectors := if |s.got| < n then n - |s.got| else 0;
    16 * sectors + (if s.drive == Fetching then 2 else if s.line then 1 else 0) +
    match s.pc
    case Top => 10
    case Arm => 9
    case Issue => 8
    case Rearm => 4
    case Wait => 3
    case Data => 2
    case Done => 0
    case Failed => 0
  }

  lemma EveryStepCounts(disk: seq<Sector>, lba: nat, n: nat, s: S, t: S)
    requires Inv(disk, lba, n, s) && Step(disk, s, t)
    ensures Remaining(n, t) < Remaining(n, s)
  {
  }

  /** No run is longer than what remained at its start. */
  lemma {:induction false} RunEnds(disk: seq<Sector>, lba: nat, n: nat, run: seq<S>, k: nat)
    requires IsRun(disk, run) && Init(lba, n, run[0]) && lba + n <= |disk| <= 0x1000_0000 && k < |run|
    ensures k + Remaining(n, run[k]) <= Remaining(n, run[0])
  {
    hide Inv, Init, Step, Remaining;
    if k > 0 {
      RunEnds(disk, lba, n, run, k - 1);
      RunKeeps(disk, lba, n, run, k - 1);
      assert Step(disk, run[k - 1], run[k - 1 + 1]);
      EveryStepCounts(disk, lba, n, run[k - 1], run[k]);
    }
  }

  /** A run that went on as long as it could. */
  ghost predicate Maximal(disk: seq<Sector>, run: seq<S>) { IsRun(disk, run) && Final(disk, run[|run| - 1]) }

  ghost predicate Final(disk: seq<Sector>, s: S) { forall t :: !Step(disk, s, t) }

  ghost predicate EarlyAt(run: seq<S>, k: nat) { k + 1 < |run| && Early(run[k], run[k + 1]) }

  /** A maximal run returns exactly when no interrupt was handled before the re-arm it was meant for. */
  lemma ReturnsIff(disk: seq<Sector>, lba: nat, n: nat, run: seq<S>)
    requires Maximal(disk, run) && Init(lba, n, run[0]) && lba + n <= |disk| <= 0x1000_0000
    ensures run[|run| - 1].pc in {Done, Failed} <==> forall k: nat :: !EarlyAt(run, k)
  {
    hide Inv, Step;
    var z := |run| - 1;
    RunKeeps(disk, lba, n, run, z);
    if Stuck(run[z]) {
      RunKeeps(disk, lba, n, run, z - 1);
      MissedBy(disk, lba, n, run[z - 1], run[z]);
      RunKeeps(disk, lba, n, run, z - 2);
      MissedBy(disk, lba, n, run[z - 2], run[z - 1]);
      assert EarlyAt(run, z - 2);
    } else {
      if run[z].pc !in {Done, Failed} { Moves(disk, lba, n, run[z]); }
      forall k: nat | EarlyAt(run, k) ensures false {
        EarlySticks(disk, lba, n, run, k);
      }
    }
  }

  lemma EarlySticks(disk: seq<Sector>, lba: nat, n: nat, run: seq<S>, k: nat)
    requires Maximal(disk, run) && Init(lba, n, run[0]) && lba + n <= |disk| <= 0x1000_0000 && EarlyAt(run, k)
    ensures k + 2 == |run| - 1 && Stuck(run[k + 2])
  {
    hide Inv, Init;
    RunKeeps(disk, lba, n, run, k);
    MissedBy(disk, lba, n, run[k], run[k + 1]);
    RunKeeps(disk, lba, n, run, k + 1);
    if k + 2 == |run| {
      Moves(disk, lba, n, run[k + 1]);
    } else {
      MissedBy(disk, lba, n, run[k + 1], run[k + 2]);
      if k + 3 < |run| { StuckStays(disk, run[k + 2], run[k + 3]); }
    }
  }

  /** Such a run exists: two sectors, the second one's interrupt served too soon. */
  lemma EarlyHappens(disk: seq<Sector>, lba: nat) returns (run: seq<S>)
    requires lba + 2 <= |disk| <= 0x1000_0000
    ensures Maximal(disk, run) && Init(lba, 2, run[0]) && run[|run| - 1].pc == Wait
  {
    var s0 := S(Top, lba, 2, [], 0, 0, false, false, Idle, 0, 0);
    var s1 := s0.(pc := Arm, chunk := 2);
    var s2 := s1.(pc := Issue);
    var s3 := s2.(pc := Wait, drive := Fetching, at := lba, left := 2);
    var s4 := s3.(drive := Holding(disk[lba]), line := true);
    var s5 := s4.(line := false, flag := true);
    var s6 := s5.(pc := Data);
    var s7 := s6.(pc := Rearm, got := [disk[lba]], drive := Fetching, at := lba + 1, left := 1);
    var s8 := s7.(drive := Holding(disk[lba + 1]), line := true);
    var s9 := s8.(line := false);
    var s10 := s9.(pc := Wait, i := 1, flag := false);
    Masked(lba, 2);
    run := [s0, s1, s2, s3, s4, s5, s6, s7, s8, s9, s10];
    assert [] + [disk[lba]] == [disk[lba]];
    assert Step(disk, s0, s1) && Step(disk, s1, s2) && Step(disk, s2, s3) && Step(disk, s3, s4) && Step(disk, s4, s5);
    assert Step(disk, s5, s6) && Step(disk, s6, s7) && Step(disk, s7, s8) && Step(disk, s8, s9) && Step(disk, s9, s10);
    forall t ensures !Step(disk, s10, t) { StuckStays(disk, s10, t); }
  }
}
