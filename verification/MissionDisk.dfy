/**
 * The mission file as text, stepping exactly as `cloud_comm.c` does with `fprintf`, `wc`, `sed`, `sscanf`, `strncmp`
 * and `rm`: any task is written, and any text is read. What the timer releases without a new boot stamp is decided by
 * the first line alone.
 */
module MissionDisk {
  import opened Bytes
  import opened MissionLog
  import opened MissionText
  import opened Scanning

  /** `upTime` is `base_info->up_time`; `released` is what was read for each task put on the list. */
  datatype Disk = Disk(file: string, upTime: string, phase: Phase, released: seq<Scan>)

  datatype Op = Append(m: Mission) | ReadUpTime(stamp: string) | Wc | Compare | TakeLock | Insert | Rm

  /** Appending under the mutex. */
  function AppendOp(d: Disk, m: Mission): Disk {
    if d.phase.Loading? then d else d.(file := d.file + PrintLine(m, d.upTime) + ['\n'])
  }

  /** A heartbeat's reading of the boot time, whatever it reads. */
  function ReadUpTimeOp(d: Disk, stamp: string): Disk {
    if d.phase.Idle? && Differs(stamp, d.upTime) then d.(upTime := stamp) else d
  }

  function WcOp(d: Disk): Disk {
    if d.phase.Idle? && d.file != [] then d.(phase := Counted(LineCount(d.file) % 0x100, LineCount(d.file))) else d
  }

  /** The stamp read from the first line; empty if the scan does not get that far. */
  function FirstStamp(d: Disk): string {
    StampOf(ScanLine(FirstLine(d.file)))
  }

  function CompareOp(d: Disk): Disk {
    if !d.phase.Counted? then d
    else if Differs(FirstStamp(d), d.upTime) then d.(phase := Ready(d.phase.num, d.phase.counted))
    else d.(phase := Idle)
  }

  function TakeLockOp(d: Disk): Disk {
    if d.phase.Ready? then d.(phase := Loading(d.phase.num, d.phase.counted, 0)) else d
  }

  /** Whatever the line is, a task is put on the list for it. */
  function InsertOp(d: Disk): Disk {
    if !d.phase.Loading? then d
    else if d.phase.i >= d.phase.num then d.(phase := Loaded(d.phase.num, d.phase.counted))
    else d.(released := d.released + [ScanLine(NthLine(d.file, d.phase.i))], phase := d.phase.(i := d.phase.i + 1))
  }

  function RmOp(d: Disk): Disk {
    if d.phase.Loaded? then d.(file := [], phase := Idle) else d
  }

  function Do(d: Disk, o: Op): Disk {
    match o
    case Append(m) => AppendOp(d, m)
    case ReadUpTime(stamp) => ReadUpTimeOp(d, stamp)
    case Wc => WcOp(d)
    case Compare => CompareOp(d)
    case TakeLock => TakeLockOp(d)
    case Insert => InsertOp(d)
    case Rm => RmOp(d)
  }

  function DoAll(d: Disk, ops: seq<Op>): Disk
    decreases ops
  {
    if ops == [] then d else DoAll(Do(d, ops[0]), ops[1..])
  }

  lemma {:induction false} DoAllAppend(d: Disk, a: seq<Op>, b: seq<Op>)
    ensures DoAll(d, a + b) == DoAll(DoAll(d, a), b)
    decreases a
  {
    if a == [] {
      assert a + b == b;
    } else {
      assert (a + b)[1..] == a[1..] + b;
      DoAllAppend(Do(d, a[0]), a[1..], b);
    }
  }

  lemma DoOne(d: Disk, o: Op, rest: seq<Op>)
    ensures DoAll(d, [o] + rest) == DoAll(Do(d, o), rest)
  {
    assert ([o] + rest)[1..] == rest;
  }

  // ---- the first line decides

  predicate Ended(text: string) {
    text == [] || text[|text| - 1] == '\n'
  }

  /** Appending to a file of whole lines leaves its first line alone. */
  lemma FirstLineStays(text: string, more: string)
    requires Ended(text) && text != []
    ensures FirstLine(text + more) == FirstLine(text)
  {
    var line := Until(text, '\n');
    assert text[|text| - 1] in text && |line| < |text|;
    var rest := text[|line| + 1..];
    assert text == line + ['\n'] + rest;
    assert text + more == line + ['\n'] + (rest + more);
    UntilStops(line, '\n', rest + more);
  }

  /** Of any text: whole lines, and a release under way means that the first line carries another stamp. */
  predicate DiskInv(d: Disk) {
    && Ended(d.file) && (!d.phase.Idle? ==> d.file != [])
    && (!d.phase.Idle? && !d.phase.Counted? ==> Differs(FirstStamp(d), d.upTime))
  }

  lemma AppendKeepsFirst(d: Disk, m: Mission)
    requires Ended(d.file) && d.file != []
    ensures Ended(AppendOp(d, m).file) && FirstStamp(AppendOp(d, m)) == FirstStamp(d)
  {
    var line := PrintLine(m, d.upTime) + ['\n'];
    assert d.file + PrintLine(m, d.upTime) + ['\n'] == d.file + line;
    FirstLineStays(d.file, line);
  }

  lemma DoKeepsDiskInv(d: Disk, o: Op)
    requires DiskInv(d)
    ensures DiskInv(Do(d, o))
  {
    if o.Append? && d.file != [] {
      AppendKeepsFirst(d, o.m);
    }
  }

  lemma {:induction false} DoAllKeepsDiskInv(d: Disk, ops: seq<Op>)
    requires DiskInv(d)
    ensures DiskInv(DoAll(d, ops))
    decreases ops
  {
    if ops != [] {
      DoKeepsDiskInv(d, ops[0]);
      DoAllKeepsDiskInv(Do(d, ops[0]), ops[1..]);
    }
  }

  /** Over every run on any text: a task is put on the list only while the stamp read from the first line differs. */
  lemma {:induction false} ReleaseNeedsAnotherStamp(d: Disk, ops: seq<Op>, o: Op)
    requires DiskInv(d) && Do(DoAll(d, ops), o).released != DoAll(d, ops).released
    ensures !(FirstStamp(DoAll(d, ops)) <= DoAll(d, ops).upTime)
  {
    DoAllKeepsDiskInv(d, ops);
  }

  /** What a task's line looks like after its number and comma, up to the first line end. */
  function AfterId(m: Mission, stamp: string): string {
    FirstLine(Join([m.url, m.md5, m.kind, stamp]) + ['\n'])
  }

  /**
   * The task's own line, as the first of a file, reads as one with another stamp than it was written with: of the
   * pieces between its commas the four after the number are nonempty, and the last of them is not how the stamp begins.
   */
  predicate SelfReleasing(m: Mission, stamp: string) {
    var ps := Pieces(AfterId(m, stamp), ',');
    && 4 <= |ps| && (forall i | 0 <= i < 4 :: ps[i] != [])
    && !(ps[3] <= stamp)
  }

  lemma {:induction false} UntilSkips(front: string, c: char, rest: string)
    requires c !in front
    ensures Until(front + rest, c) == front + Until(rest, c)
  {
    if front == [] {
      assert front + rest == rest;
    } else {
      assert (front + rest)[1..] == front[1..] + rest;
      UntilSkips(front[1..], c, rest);
    }
  }

  lemma LineAfterFront(front: string, rest: string)
    requires '\n' !in front
    ensures FirstLine(front + rest) == front + FirstLine(rest)
  {
    UntilSkips(front, '\n', rest);
  }

  lemma OwnScan(m: Mission, stamp: string)
    ensures ScanLine(FirstLine(PrintLine(m, stamp) + ['\n'])) ==
            Scan(Some(m.id), Conversions(AfterId(m, stamp), ',', 4))
  {
    var rest := Join([m.url, m.md5, m.kind, stamp]) + ['\n'];
    var id := Decimal(m.id) + [','];
    assert PrintLine(m, stamp) + ['\n'] == id + rest;
    LineAfterFront(id, rest);
    ScansNumber(m.id, FirstLine(rest));
  }

  /** The stamp read from a task's own line, when that line is the first. */
  lemma OwnStamp(m: Mission, stamp: string)
    ensures SelfReleasing(m, stamp) <==> Differs(StampOf(ScanLine(FirstLine(PrintLine(m, stamp) + ['\n']))), stamp)
  {
    OwnScan(m, stamp);
    ConversionsIff(AfterId(m, stamp), ',', 4);
  }

  lemma FirstWritten(d: Disk, m: Mission)
    requires d.file == [] && !d.phase.Loading?
    ensures AppendOp(d, m).file == PrintLine(m, d.upTime) + ['\n']
    ensures Differs(FirstStamp(AppendOp(d, m)), d.upTime) <==> SelfReleasing(m, d.upTime)
  {
    OwnStamp(m, d.upTime);
    assert d.file + PrintLine(m, d.upTime) + ['\n'] == PrintLine(m, d.upTime) + ['\n'];
  }

  /**
   * Exactly when the next timer call decides to release a file whose first line has just been written, with the boot
   * stamp unchanged.
   */
  lemma ReleasedAtOnceIff(d: Disk, m: Mission)
    requires d.phase.Idle? && d.file == []
    ensures CompareOp(WcOp(AppendOp(d, m))).phase.Ready? <==> SelfReleasing(m, d.upTime)
  {
    FirstWritten(d, m);
  }

  /** A comma in the url shifts the fields: the type is read as the stamp, and the task just written is released. */
  lemma CommaReleasesAtOnce(id: uint16, a: string, b: string, md5: string, kind: string, d: Disk)
    requires CleanField(a) && CleanField(b) && CleanField(md5) && CleanField(kind)
    requires '\n' !in d.upTime && !(kind <= d.upTime) && d.phase.Idle? && d.file == []
    ensures var m := Mission(id, a + [','] + b, md5, kind);
      var e := DoAll(d, [Append(m), Wc, Compare, TakeLock] + [Insert, Insert, Rm]);
      && CompareOp(WcOp(AppendOp(d, m))).phase.Ready?
      && e.released == d.released + [Complete(Mission(id, a, b, md5), kind)] && e.file == []
  {
    var m, stamp := Mission(id, a + [','] + b, md5, kind), d.upTime;
    CommaShifts(id, a, b, md5, kind, stamp);
    LineRoundTripIff(Mission(id, a, b, md5), kind, stamp + [',', '\n']);
    WholeLine(PrintLine(m, stamp));
    FirstWritten(d, m);
    OneLineReleased(d, m);
  }

  lemma OneLineFile(line: string)
    requires '\n' !in line
    ensures LineCount(line + ['\n']) == 1 && NthLine(line + ['\n'], 0) == line + ['\n']
  {
    FileReadsBack([line]);
    assert [line][1..] == [] && FileText([line]) == line + ['\n'] + [] == line + ['\n'];
  }

  lemma DecidesOnOne(d: Disk)
    requires d.phase.Idle? && LineCount(d.file) == 1 && Differs(FirstStamp(d), d.upTime)
    ensures Do(Do(Do(d, Wc), Compare), TakeLock) == d.(phase := Loading(1, 1, 0))
  {
    var counted := d.(phase := Counted(1, 1));
    assert WcOp(d) == counted;
    assert CompareOp(counted) == d.(phase := Ready(1, 1));
  }

  lemma LoadsOne(d: Disk)
    requires d.phase == Loading(1, 1, 0)
    ensures var e := Do(Do(Do(d, Insert), Insert), Rm);
      e.released == d.released + [ScanLine(NthLine(d.file, 0))] && e.file == []
  {
  }

  /** The timer call that releases a file of one line. */
  lemma OneLineReleased(d: Disk, m: Mission)
    requires d.phase.Idle? && d.file == [] && '\n' !in PrintLine(m, d.upTime) && SelfReleasing(m, d.upTime)
    ensures var e := DoAll(d, [Append(m), Wc, Compare, TakeLock] + [Insert, Insert, Rm]);
      e.released == d.released + [ScanLine(PrintLine(m, d.upTime) + ['\n'])] && e.file == []
  {
    OneLineFile(PrintLine(m, d.upTime));
    FirstWritten(d, m);
    FourOps(d, Append(m), Wc, Compare, TakeLock, [Insert, Insert, Rm]);
    DecidesOnOne(Do(d, Append(m)));
    var locked := AppendOp(d, m).(phase := Loading(1, 1, 0));
    ThreeOps(locked, Insert, Insert, Rm);
    LoadsOne(locked);
  }

  lemma TwoOps(d: Disk, o: Op, p: Op, rest: seq<Op>)
    ensures DoAll(d, [o, p] + rest) == DoAll(Do(Do(d, o), p), rest)
  {
    DoOne(d, o, [p] + rest);
    DoOne(Do(d, o), p, rest);
    assert [o] + ([p] + rest) == [o, p] + rest;
  }

  lemma FourOps(d: Disk, o: Op, p: Op, q: Op, r: Op, rest: seq<Op>)
    ensures DoAll(d, [o, p, q, r] + rest) == DoAll(Do(Do(Do(Do(d, o), p), q), r), rest)
  {
    TwoOps(d, o, p, [q, r] + rest);
    TwoOps(Do(Do(d, o), p), q, r, rest);
    assert [o, p] + ([q, r] + rest) == [o, p, q, r] + rest;
  }

  lemma ThreeOps(d: Disk, o: Op, p: Op, q: Op)
    ensures DoAll(d, [o, p, q]) == Do(Do(Do(d, o), p), q)
  {
    DoOne(d, o, [p, q]);
    DoOne(Do(d, o), p, [q]);
    DoOne(Do(Do(d, o), p), q, []);
    assert [o] + [p, q] == [o, p, q] && [p] + [q] == [p, q] && [q] + [] == [q];
  }

  lemma CommaShifts(id: uint16, a: string, b: string, md5: string, kind: string, stamp: string)
    requires '\n' !in a && '\n' !in b && '\n' !in md5 && '\n' !in kind && '\n' !in stamp
    ensures var line := PrintLine(Mission(id, a + [','] + b, md5, kind), stamp);
      line + ['\n'] == PrintLine(Mission(id, a, b, md5), kind) + (stamp + [',', '\n']) && '\n' !in line
  {
    JoinFour(a + [','] + b, md5, kind, stamp);
    JoinFour(a, b, md5, kind);
    ShiftedLine(Decimal(id), a, b, md5, kind, stamp);
  }

  lemma ShiftedLine(id: string, a: string, b: string, c: string, e: string, f: string)
    ensures id + [','] + ((a + [','] + b) + [','] + c + [','] + e + [','] + f + [',']) + ['\n'] ==
            id + [','] + (a + [','] + b + [','] + c + [','] + e + [',']) + (f + [',', '\n'])
  {
  }

  lemma WholeLine(line: string)
    requires '\n' !in line
    ensures FirstLine(line + ['\n']) == line + ['\n']
  {
    UntilStops(line, '\n', []);
    assert line + ['\n'] + [] == line + ['\n'];
  }

  /** A task that the format carries does not release itself. */
  lemma CarriedIsQuiet(m: Mission, stamp: string)
    requires Clean(m) && CleanField(stamp)
    ensures !SelfReleasing(m, stamp)
  {
    LineHasNoLineEnd(m, stamp);
    WholeLine(PrintLine(m, stamp));
    LineRoundTripIff(m, stamp, ['\n']);
    OwnStamp(m, stamp);
  }

  // ---- quiet and stuck files

  predicate KeepsStamp(o: Op, upTime: string) {
    o.ReadUpTime? ==> !Differs(o.stamp, upTime)
  }

  /** Nothing is being released, and the first line, if there is one, carries the present stamp or none. */
  predicate QuietDisk(d: Disk) {
    && Ended(d.file) && (d.phase.Idle? || d.phase.Counted?) && (d.phase.Counted? ==> d.file != [])
    && (d.file != [] ==> !Differs(FirstStamp(d), d.upTime))
  }

  /** The operation writes the first line of a file, and that line reads as one with another stamp. */
  predicate StartsSelfReleasing(d: Disk, o: Op) {
    o.Append? && d.file == [] && SelfReleasing(o.m, d.upTime)
  }

  predicate NeverSelfReleasing(d: Disk, ops: seq<Op>)
    decreases ops
  {
    ops == [] || (!StartsSelfReleasing(d, ops[0]) && NeverSelfReleasing(Do(d, ops[0]), ops[1..]))
  }

  lemma QuietDiskStep(d: Disk, o: Op)
    requires QuietDisk(d) && KeepsStamp(o, d.upTime)
    ensures Do(d, o).released == d.released && Do(d, o).upTime == d.upTime
    ensures QuietDisk(Do(d, o)) <==> !StartsSelfReleasing(d, o)
  {
    if o.Append? {
      if d.file == [] {
        FirstWritten(d, o.m);
      } else {
        AppendKeepsFirst(d, o.m);
      }
    }
  }

  /**
   * While the boot stamp does not change, and no run of text operations starts the file with a line that reads as one
   * with another stamp, nothing is released, whatever else is written.
   */
  lemma {:induction false} QuietOnDisk(d: Disk, ops: seq<Op>)
    requires QuietDisk(d) && NeverSelfReleasing(d, ops)
    requires forall i | 0 <= i < |ops| :: KeepsStamp(ops[i], d.upTime)
    ensures DoAll(d, ops).released == d.released && QuietDisk(DoAll(d, ops))
    decreases ops
  {
    if ops != [] {
      QuietDiskStep(d, ops[0]);
      assert forall i | 0 <= i < |ops[1..]| :: ops[1..][i] == ops[i + 1];
      QuietOnDisk(Do(d, ops[0]), ops[1..]);
    }
  }

  /** The first line gives no stamp: a field before it is empty, or the line ends early. */
  predicate Stuck(d: Disk) {
    && Ended(d.file) && d.file != [] && FirstStamp(d) == []
    && (d.phase.Idle? || d.phase.Counted?)
  }

  lemma StuckStep(d: Disk, o: Op)
    requires Stuck(d)
    ensures Stuck(Do(d, o)) && Do(d, o).released == d.released && d.file <= Do(d, o).file
  {
    if o.Append? {
      AppendKeepsFirst(d, o.m);
    }
  }

  /** Then no timer call ever releases anything again, over any number of reboots, and lines only pile up behind it. */
  lemma {:induction false} StuckForever(d: Disk, ops: seq<Op>)
    requires Stuck(d)
    ensures var e := DoAll(d, ops); Stuck(e) && e.released == d.released && d.file <= e.file
    decreases ops
  {
    if ops != [] {
      StuckStep(d, ops[0]);
      StuckForever(Do(d, ops[0]), ops[1..]);
    }
  }

  /** So it is when the first task written has an empty url, digest or type. */
  lemma EmptyFieldIsStuck(m: Mission, d: Disk)
    requires d.phase.Idle? && d.file == [] && '\n' !in d.upTime
    requires '\n' !in m.url && '\n' !in m.md5 && '\n' !in m.kind
    requires ',' !in m.url && ',' !in m.md5
    requires m.url == [] || m.md5 == [] || m.kind == []
    ensures Stuck(AppendOp(d, m))
  {
    var fields := [m.url, m.md5, m.kind, d.upTime];
    assert forall i | 0 <= i < 4 :: '\n' !in fields[i];
    JoinHasNoLineEnd(fields);
    ScansAfterId(m, d.upTime, ['\n']);
    StopsEarly(m.url, m.md5, m.kind, d.upTime, ['\n']);
    NoStampIsStuck(d, m);
  }

  lemma NoStampIsStuck(d: Disk, m: Mission)
    requires d.phase.Idle? && d.file == [] && '\n' !in PrintLine(m, d.upTime)
    requires |ScanLine(PrintLine(m, d.upTime) + ['\n']).fields| < 4
    ensures Stuck(AppendOp(d, m))
  {
    var line := PrintLine(m, d.upTime);
    assert d.file + line + ['\n'] == line + ['\n'];
    OneLineIsStuck(AppendOp(d, m), line);
  }

  lemma OneLineIsStuck(d: Disk, line: string)
    requires d.phase.Idle? && '\n' !in line && d.file == line + ['\n'] && |ScanLine(d.file).fields| < 4
    ensures Stuck(d)
  {
    WholeLine(line);
  }

  lemma StopsEarly(a: string, b: string, c: string, e: string, tail: string)
    requires ',' !in a && ',' !in b && (a == [] || b == [] || c == [])
    ensures |Conversions(Join([a, b, c, e]) + tail, ',', 4)| < 4
  {
    JoinTail([a, b, c, e], tail);
    ConvertsFirst(a, Join([b, c, e]) + tail, 4);
    if a != [] {
      JoinTail([b, c, e], tail);
      ConvertsFirst(b, Join([c, e]) + tail, 3);
      if b != [] {
        JoinTail([c, e], tail);
        ConvertsFirst(c, Join([e]) + tail, 2);
      }
    }
  }
}
