/** ata.c, ata_write_sectors: driver, drive and interrupt handler as interleaved steps. */
module AtaWrite {
  import opened Words
  import opened Ata

  /** Where the driver is: the statement it runs next. */
  datatype Pc = Top | Issue | Poll | Arm | Data | Wait | Done | Failed

  /** The drive during WRITE SECTORS: accepting the command, asking for a sector, storing one. */
  datatype Drive = Idle | Starting | Asking | Storing(sector: Sector)

  datatype S = S(pc: Pc, lba: nat, count: nat, pos: nat, i: nat, chunk: nat, flag: bool, line: bool,
                 drive: Drive, at: nat, left: nat, disk: seq<Sector>)

  /** One statement of the driver; buf is the caller's buffer. The two loops that watch the drive
      or the flag are steps enabled when they leave, and either poll can give up. */
  ghost predicate DriverStep(buf: seq<Sector>, s: S, t: S)
  {
    match s.pc
    case Top =>
      if s.count == 0 then t == s.(pc := Done)
      else t == s.(pc := Issue, chunk := Min(s.count, MAX_CHUNK)) || t == s.(pc := Failed)
    case Issue =>
      t == s.(pc := Poll, drive := Starting, at := s.lba % LBA_LIMIT, left := s.chunk % 256)
    case Poll =>
      (s.drive.Asking? && t == s.(pc := Arm, i := 0)) || t == s.(pc := Failed)
    case Arm => t == s.(pc := Data, flag := false)
    case Data =>
      s.pos < |buf| && t == s.(pc := Wait, pos := s.pos + 1,
                               drive := if s.drive.Asking? then Storing(buf[s.pos]) else s.drive)
    case Wait =>
      s.flag && s.chunk <= s.count &&
      t == if s.i + 1 < s.chunk then s.(pc := Arm, i := s.i + 1)
           else s.(pc := Top, count := s.count - s.chunk, lba := s.lba + s.chunk)
    case Done => false
    case Failed => false
  }

  /** The drive takes the command in, or stores the sector it holds and raises its interrupt. */
  ghost predicate DriveStep(s: S, t: S)
  {
    match s.drive
    case Starting => t == s.(drive := Asking)
    case Storing(x) =>
      s.at < |s.disk| && 0 < s.left &&
      t == s.(disk := s.disk[s.at := x], at := s.at + 1, left := s.left - 1, line := true,
              drive := if s.left > 1 then Asking else Idle)
    case Idle => false
    case Asking => false
  }

  /** ata_primary_irq_handler */
  ghost predicate HandlerStep(s: S, t: S) { s.line && t == s.(line := false, flag := true) }

  ghost predicate Step(buf: seq<Sector>, s: S, t: S) { DriverStep(buf, s, t) || DriveStep(s, t) || HandlerStep(s, t) }

  /** A call with a drive at rest; what the flag holds from before does not matter. An empty
      transfer is refused. */
  ghost predicate Init(buf: seq<Sector>, lba: nat, disk: seq<Sector>, s: S)
  {
    && s.pc == (if buf == [] then Failed else Top) && s.lba == lba && s.count == |buf| && s.pos == 0
    && !s.line && s.drive == Idle && s.disk == disk
  }

  function Spliced(disk: seq<Sector>, lba: nat, data: seq<Sector>): seq<Sector>
    requires lba + |data| <= |disk|
  {
    disk[..lba] + data + disk[lba + |data|..]
  }

  /** What has reached the disk: the first n sectors of the buffer. */
  ghost predicate Stored(buf: seq<Sector>, lba: nat, disk: seq<Sector>, n: nat, s: S)
  {
    n <= |buf| && lba + |buf| <= |disk| && s.disk == Spliced(disk, lba, buf[..n])
  }

  /** The chunk under way started at place pos - done of the buffer. */
  ghost predicate InChunk(buf: seq<Sector>, lba: nat, s: S, done: nat)
  {
    && done <= s.pos <= |buf| && s.lba == lba + (s.pos - done) && s.count == |buf| - (s.pos - done)
    && s.chunk == Min(s.count, MAX_CHUNK) && 0 < s.chunk
  }

  /** The interrupt the driver waits for is still to come, or is pending, or has set the flag. */
  ghost predicate Coming(s: S) { s.drive.Storing? || s.line || s.flag }

  ghost predicate Inv(buf: seq<Sector>, lba: nat, disk: seq<Sector>, s: S)
  {
    match s.pc
    case Top =>
      && !s.line && s.drive == Idle && Stored(buf, lba, disk, s.pos, s)
      && s.lba == lba + s.pos && s.count == |buf| - s.pos
    case Issue =>
      && !s.line && s.drive == Idle && Stored(buf, lba, disk, s.pos, s) && InChunk(buf, lba, s, 0)
    case Poll =>
      && !s.line && (s.drive == Starting || s.drive == Asking) && Stored(buf, lba, disk, s.pos, s)
      && InChunk(buf, lba, s, 0) && s.at == lba + s.pos && s.left == s.chunk
    case Arm => Asked(buf, lba, disk, s)
    case Data => Asked(buf, lba, disk, s) && !s.flag
    case Wait =>
      && s.i < s.chunk && InChunk(buf, lba, s, s.i + 1)
      && (Sending(buf, lba, disk, s) || Sent(buf, lba, disk, s))
    case Done => !s.line && s.drive == Idle && Stored(buf, lba, disk, |buf|, s)
    case Failed => !s.line && !s.drive.Storing? && Stored(buf, lba, disk, s.pos, s)
  }

  /** The drive still holds the sector the driver sent last. */
  ghost predicate Sending(buf: seq<Sector>, lba: nat, disk: seq<Sector>, s: S)
  {
    && 0 < s.pos <= |buf| && s.drive == Storing(buf[s.pos - 1]) && !s.line && !s.flag
    && s.at == lba + s.pos - 1 && s.left == s.chunk - s.i && Stored(buf, lba, disk, s.pos - 1, s)
  }

  /** It is on the disk, and its one interrupt is either pending or has set the flag. */
  ghost predicate Sent(buf: seq<Sector>, lba: nat, disk: seq<Sector>, s: S)
  {
    && s.drive == (if s.left > 0 then Asking else Idle) && (s.line <==> !s.flag)
    && s.at == lba + s.pos && s.left == s.chunk - s.i - 1 && Stored(buf, lba, disk, s.pos, s)
  }

  /** The drive asks for the sector the driver is about to send. */
  ghost predicate Asked(buf: seq<Sector>, lba: nat, disk: seq<Sector>, s: S)
  {
    && !s.line && s.drive == Asking && Stored(buf, lba, disk, s.pos, s)
    && s.i < s.chunk && InChunk(buf, lba, s, s.i) && s.at == lba + s.pos && s.left == s.chunk - s.i
  }

  lemma Begins(buf: seq<Sector>, lba: nat, disk: seq<Sector>, s: S)
    requires Init(buf, lba, disk, s) && lba + |buf| <= |disk|
    ensures Inv(buf, lba, disk, s)
  {
    assert buf[..0] == [];
  }

  lemma OneMore(buf: seq<Sector>, lba: nat, disk: seq<Sector>, n: nat)
    requires n < |buf| && lba + |buf| <= |disk|
    ensures Spliced(disk, lba, buf[..n])[lba + n := buf[n]] == Spliced(disk, lba, buf[..n + 1])
  {
  }

  lemma DriverKeeps(buf: seq<Sector>, lba: nat, disk: seq<Sector>, s: S, t: S)
    requires Inv(buf, lba, disk, s) && DriverStep(buf, s, t) && |disk| <= 0x1000_0000
    ensures Inv(buf, lba, disk, t)
  {
    if s.pc == Issue {
      Masked(s.lba, s.chunk);
    } else if s.pc == Wait {
      assert s.left == 0 ==> s.i + 1 == s.chunk;
    }
  }

  lemma DriveKeeps(buf: seq<Sector>, lba: nat, disk: seq<Sector>, s: S, t: S)
    requires Inv(buf, lba, disk, s) && DriveStep(s, t)
    ensures Inv(buf, lba, disk, t)
  {
    if s.drive.Storing? {
      assert s.pc == Wait;
      OneMore(buf, lba, disk, s.pos - 1);
    }
  }

  lemma HandlerKeeps(buf: seq<Sector>, lba: nat, disk: seq<Sector>, s: S, t: S)
    requires Inv(buf, lba, disk, s) && HandlerStep(s, t)
    ensures Inv(buf, lba, disk, t)
  {
    assert s.pc == Wait;
  }

  /** One after another, by any of the three. */
  ghost predicate IsRun(buf: seq<Sector>, run: seq<S>)
  {
    |run| > 0 && forall k :: 0 <= k < |run| - 1 ==> Step(buf, run[k], run[k + 1])
  }

  lemma {:induction false} RunKeeps(buf: seq<Sector>, lba: nat, disk: seq<Sector>, run: seq<S>, k: nat)
    requires IsRun(buf, run) && Init(buf, lba, disk, run[0]) && lba + |buf| <= |disk| <= 0x1000_0000 && k < |run|
    ensures Inv(buf, lba, disk, run[k])
  {
    hide Inv, Init, DriverStep, DriveStep, HandlerStep;
    if k == 0 {
      Begins(buf, lba, disk, run[0]);
    } else {
      RunKeeps(buf, lba, disk, run, k - 1);
      var s, t := run[k - 1], run[k];
      if DriverStep(buf, s, t) { DriverKeeps(buf, lba, disk, s, t); }
      else if DriveStep(s, t) { DriveKeeps(buf, lba, disk, s, t); }
      else { HandlerKeeps(buf, lba, disk, s, t); }
    }
  }

  /** Under every interleaving: a waiting driver's interrupt is never lost, a completed call has put
      the whole buffer at consecutive block addresses and nothing else, and a failed one a prefix. */
  lemma WriteSafe(buf: seq<Sector>, lba: nat, disk: seq<Sector>, run: seq<S>, k: nat)
    requires IsRun(buf, run) && Init(buf, lba, disk, run[0]) && lba + |buf| <= |disk| <= 0x1000_0000 && k < |run|
    ensures run[k].pc == Wait ==> Coming(run[k])
    ensures run[k].pc == Done ==> run[k].disk == Spliced(disk, lba, buf)
    ensures run[k].pc == Failed ==> run[k].pos <= |buf| && run[k].disk == Spliced(disk, lba, buf[..run[k].pos])
  {
    RunKeeps(buf, lba, disk, run, k);
    assert buf[..|buf|] == buf;
  }

  /** Some party can always move until the call returns. */
  lemma NoDeadlock(buf: seq<Sector>, lba: nat, disk: seq<Sector>, s: S)
    requires Inv(buf, lba, disk, s) && s.pc != Done && s.pc != Failed
    ensures exists t :: Step(buf, s, t) && t.pc != Failed
  {
    match s.pc
    case Top =>
      assert Step(buf, s, if s.count == 0 then s.(pc := Done) else s.(pc := Issue, chunk := Min(s.count, MAX_CHUNK)));
    case Issue =>
      assert Step(buf, s, s.(pc := Poll, drive := Starting, at := s.lba % LBA_LIMIT, left := s.chunk % 256));
    case Poll => assert Step(buf, s, if s.drive == Starting then s.(drive := Asking) else s.(pc := Arm, i := 0));
    case Arm => assert Step(buf, s, s.(pc := Data, flag := false));
    case Data => assert Step(buf, s, s.(pc := Wait, pos := s.pos + 1, drive := Storing(buf[s.pos])));
    case Wait => WaitMoves(buf, lba, disk, s);
  }

  lemma WaitMoves(buf: seq<Sector>, lba: nat, disk: seq<Sector>, s: S)
    requires Inv(buf, lba, disk, s) && s.pc == Wait
    ensures exists t :: Step(buf, s, t) && t.pc != Failed
  {
    var t := if s.drive.Storing? then
        s.(disk := s.disk[s.at := s.drive.sector], at := s.at + 1, left := s.left - 1, line := true,
           drive := if s.left > 1 then Asking else Idle)
      else if s.line then s.(line := false, flag := true)
      else if s.i + 1 < s.chunk then s.(pc := Arm, i := s.i + 1)
      else s.(pc := Top, count := s.count - s.chunk, lba := s.lba + s.chunk);
    assert Step(buf, s, t);
  }

  /** Steps still to come: sixteen a sector, and where this sector stands. */
  function Remaining(buf: seq<Sector>, s: S): nat
  {
    var sectors := if s.pos < |buf| then |buf| - s.pos else 0;
    16 * sectors +
    match s.pc
    case Top => 9
    case Issue => 8
    case Poll => if s.drive == Starting then 7 else 6
    case Arm => 5
    case Data => 4
    case Wait => if s.drive.Storing? then 12 else if s.line then 11 else 10
    case Done => 0
    case Failed => if s.drive == Starting then 1 else 0
  }

  lemma EveryStepCounts(buf: seq<Sector>, lba: nat, disk: seq<Sector>, s: S, t: S)
    requires Inv(buf, lba, disk, s) && Step(buf, s, t)
    ensures Remaining(buf, t) < Remaining(buf, s)
  {
  }

  /** No run is longer than what remained at its start. */
  lemma {:induction false} RunEnds(buf: seq<Sector>, lba: nat, disk: seq<Sector>, run: seq<S>, k: nat)
    requires IsRun(buf, run) && Init(buf, lba, disk, run[0]) && lba + |buf| <= |disk| <= 0x1000_0000 && k < |run|
    ensures k + Remaining(buf, run[k]) <= Remaining(buf, run[0])
  {
    hide Inv, Init, Step, Remaining;
    if k > 0 {
      RunEnds(buf, lba, disk, run, k - 1);
      RunKeeps(buf, lba, disk, run, k - 1);
      assert Step(buf, run[k - 1], run[k - 1 + 1]);
      EveryStepCounts(buf, lba, disk, run[k - 1], run[k]);
    }
  }

  /** A run that went on as long as it could. */
  ghost predicate Maximal(buf: seq<Sector>, run: seq<S>) { IsRun(buf, run) && Final(buf, run[|run| - 1]) }

  ghost predicate Final(buf: seq<Sector>, s: S) { forall t :: !Step(buf, s, t) }

  /** Every maximal run returns, however the three are interleaved: the drive's interrupt cannot
      slip between arming the flag and waiting for it. */
  lemma Returns(buf: seq<Sector>, lba: nat, disk: seq<Sector>, run: seq<S>)
    requires Maximal(buf, run) && Init(buf, lba, disk, run[0]) && lba + |buf| <= |disk| <= 0x1000_0000
    ensures run[|run| - 1].pc in {Done, Failed}
  {
    hide Inv, Init, Step;
    var s := run[|run| - 1];
    RunKeeps(buf, lba, disk, run, |run| - 1);
    if s.pc != Done && s.pc != Failed { NoDeadlock(buf, lba, disk, s); }
  }
}
