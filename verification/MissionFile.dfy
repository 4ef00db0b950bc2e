/**
 * As long as every task written is one the line format can carry, the mission file as text is the mission log: each
 * operation on the text is a step on the records, so the log's laws hold of the program's own strings.
 */
module MissionFile {
  import opened MissionDisk
  import opened MissionLog
  import opened MissionText

  /** The line format can carry the task and the stamp. */
  predicate Carried(m: Mission, stamp: string) {
    Clean(m) && CleanField(stamp)
  }

  /** The operation writes nothing that the format cannot carry. */
  predicate CarriedOp(d: Disk, o: Op) {
    o.Append? && !d.phase.Loading? ==> Carried(o.m, d.upTime)
  }

  predicate CarriedRun(d: Disk, ops: seq<Op>)
    decreases ops
  {
    ops == [] || (CarriedOp(d, ops[0]) && CarriedRun(Do(d, ops[0]), ops[1..]))
  }

  // ---- matching

  predicate Printable(es: seq<Entry>) {
    forall i | 0 <= i < |es| :: Carried(es[i].mission, es[i].stamp)
  }

  function Lines(es: seq<Entry>): seq<string> {
    seq(|es|, i requires 0 <= i < |es| => PrintLine(es[i].mission, es[i].stamp))
  }

  /** The scans are of complete lines, and these are their tasks. */
  predicate Read(scans: seq<Scan>, ms: seq<Mission>) {
    |scans| == |ms| && forall i | 0 <= i < |ms| :: scans[i] == Complete(ms[i], StampOf(scans[i]))
  }

  /** The text on disk is the printed form of the records, and everything else is the same. */
  predicate Matches(d: Disk, s: State) {
    && Printable(s.onFile) && d.file == FileText(Lines(s.onFile))
    && d.upTime == s.upTime && d.phase == s.phase && Read(d.released, s.released)
  }

  /** The step on records that an operation amounts to. */
  function Meaning(o: Op): Action {
    match o
    case Append(m) => Record(m)
    case ReadUpTime(stamp) => SetUpTime(stamp)
    case Wc => Count
    case Compare => Check
    case TakeLock => Lock
    case Insert => Load
    case Rm => Remove
  }

  function MeaningAll(ops: seq<Op>): seq<Action> {
    if ops == [] then [] else [Meaning(ops[0])] + MeaningAll(ops[1..])
  }

  /** Reading the text gives the records back: their number, and each task with its stamp. */
  lemma ReadsBack(es: seq<Entry>)
    requires Printable(es)
    ensures LineCount(FileText(Lines(es))) == |es|
    ensures forall k | 0 <= k < |es| ::
              ScanLine(NthLine(FileText(Lines(es)), k)) == Complete(es[k].mission, es[k].stamp)
  {
    var lines := Lines(es);
    forall k | 0 <= k < |es|
      ensures '\n' !in lines[k] && ScanLine(lines[k] + ['\n']) == Complete(es[k].mission, es[k].stamp)
    {
      LineHasNoLineEnd(es[k].mission, es[k].stamp);
      LineRoundTripIff(es[k].mission, es[k].stamp, ['\n']);
    }
    FileReadsBack(lines);
  }

  lemma LineReadsBack(es: seq<Entry>, file: string, k: nat)
    requires Printable(es) && k < |es| && file == FileText(Lines(es))
    ensures ScanLine(NthLine(file, k)) == Complete(es[k].mission, es[k].stamp)
  {
    ReadsBack(es);
  }

  lemma CountsBack(es: seq<Entry>, file: string)
    requires Printable(es) && file == FileText(Lines(es))
    ensures LineCount(file) == |es| && (file == [] <==> es == [])
  {
    ReadsBack(es);
  }

  lemma AppendMatches(d: Disk, s: State, m: Mission)
    requires Matches(d, s) && CarriedOp(d, Append(m))
    ensures Matches(AppendOp(d, m), RecordStep(s, m))
  {
    if !s.phase.Loading? {
      var line := PrintLine(m, d.upTime);
      assert Lines(s.onFile + [Entry(m, s.upTime, s.boot)]) == Lines(s.onFile) + [line];
      FileTextAppend(Lines(s.onFile), line);
    }
  }

  lemma ReadUpTimeMatches(d: Disk, s: State, stamp: string)
    requires Matches(d, s)
    ensures Matches(ReadUpTimeOp(d, stamp), SetUpTimeStep(s, stamp))
  {
  }

  lemma WcMatches(d: Disk, s: State)
    requires Matches(d, s)
    ensures Matches(WcOp(d), CountStep(s))
  {
    CountsBack(s.onFile, d.file);
  }

  lemma CompareMatches(d: Disk, s: State)
    requires Matches(d, s) && Inv(s)
    ensures Matches(CompareOp(d), CheckStep(s))
  {
    if s.phase.Counted? {
      LineReadsBack(s.onFile, d.file, 0);
      assert FirstStamp(d) == s.onFile[0].stamp;
    }
  }

  lemma TakeLockMatches(d: Disk, s: State)
    requires Matches(d, s)
    ensures Matches(TakeLockOp(d), LockStep(s))
  {
  }

  lemma InsertMatches(d: Disk, s: State)
    requires Matches(d, s) && Inv(s)
    ensures Matches(InsertOp(d), LoadStep(s))
  {
    if s.phase.Loading? && s.phase.i < s.phase.num {
      assert s.phase.i < |s.onFile|;
      LineReadsBack(s.onFile, d.file, s.phase.i);
    }
  }

  lemma RmMatches(d: Disk, s: State)
    requires Matches(d, s)
    ensures Matches(RmOp(d), RemoveStep(s))
  {
    assert Lines([]) == [];
  }

  /** What an operation and its meaning do, for each of them. */
  lemma Unfolded(d: Disk, s: State, o: Op)
    ensures match o
      case Append(m) => Do(d, o) == AppendOp(d, m) && Step(s, Meaning(o)) == RecordStep(s, m)
      case ReadUpTime(stamp) => Do(d, o) == ReadUpTimeOp(d, stamp) && Step(s, Meaning(o)) == SetUpTimeStep(s, stamp)
      case Wc => Do(d, o) == WcOp(d) && Step(s, Meaning(o)) == CountStep(s)
      case Compare => Do(d, o) == CompareOp(d) && Step(s, Meaning(o)) == CheckStep(s)
      case TakeLock => Do(d, o) == TakeLockOp(d) && Step(s, Meaning(o)) == LockStep(s)
      case Insert => Do(d, o) == InsertOp(d) && Step(s, Meaning(o)) == LoadStep(s)
      case Rm => Do(d, o) == RmOp(d) && Step(s, Meaning(o)) == RemoveStep(s)
  {
  }

  /** Every operation on the text is matched by its meaning on the records. */
  lemma DoMatches(d: Disk, s: State, o: Op)
    requires Matches(d, s) && Inv(s) && CarriedOp(d, o)
    ensures Matches(Do(d, o), Step(s, Meaning(o)))
  {
    Unfolded(d, s, o);
    match o
    case Append(m) => AppendMatches(d, s, m);
    case ReadUpTime(stamp) => ReadUpTimeMatches(d, s, stamp);
    case Wc => WcMatches(d, s);
    case Compare => CompareMatches(d, s);
    case TakeLock => TakeLockMatches(d, s);
    case Insert => InsertMatches(d, s);
    case Rm => RmMatches(d, s);
  }

  lemma MeaningFirst(ops: seq<Op>)
    requires ops != []
    ensures MeaningAll(ops) != [] && MeaningAll(ops)[0] == Meaning(ops[0])
    ensures MeaningAll(ops)[1..] == MeaningAll(ops[1..])
  {
  }

  lemma {:induction false} RunMatches(d: Disk, s: State, ops: seq<Op>)
    requires Matches(d, s) && Inv(s) && CarriedRun(d, ops)
    ensures Matches(DoAll(d, ops), Exec(s, MeaningAll(ops)))
    decreases ops
  {
    if ops != [] {
      DoMatches(d, s, ops[0]);
      StepKeepsInv(s, Meaning(ops[0]));
      RunMatches(Do(d, ops[0]), Step(s, Meaning(ops[0])), ops[1..]);
      MeaningFirst(ops);
    }
  }

  // ---- the laws of the log, on the text

  /** The tasks of the complete scans. */
  function Understood(scans: seq<Scan>): seq<Mission> {
    if scans == [] then []
    else
      var front, last := scans[..|scans| - 1], scans[|scans| - 1];
      Understood(front) +
      (if last.id.Some? && |last.fields| == 4
       then [Mission(last.id.value, last.fields[0], last.fields[1], last.fields[2])] else [])
  }

  lemma {:induction false} ReadIsUnderstood(scans: seq<Scan>, ms: seq<Mission>)
    requires Read(scans, ms)
    ensures Understood(scans) == ms
  {
    if ms != [] {
      var n := |ms| - 1;
      ReadIsUnderstood(scans[..n], ms[..n]);
      assert scans[n] == Complete(ms[n], StampOf(scans[n]));
      assert ms == ms[..n] + [ms[n]];
    }
  }

  /** Every line of the file, scanned. */
  function ReadAll(file: string): seq<Scan> {
    seq(LineCount(file), k requires 0 <= k < LineCount(file) => ScanLine(NthLine(file, k)))
  }

  /** The tasks that reading the file line by line would yield now. */
  function OnDisk(file: string): seq<Mission> {
    Understood(ReadAll(file))
  }

  lemma {:induction false} UnderstoodIs(scans: seq<Scan>, es: seq<Entry>)
    requires |scans| == |es| && forall i | 0 <= i < |es| :: scans[i] == Complete(es[i].mission, es[i].stamp)
    ensures Understood(scans) == TasksOf(es)
  {
    if es != [] {
      UnderstoodIs(scans[..|scans| - 1], es[..|es| - 1]);
    }
  }

  lemma OnDiskIs(es: seq<Entry>, file: string)
    requires Printable(es) && file == FileText(Lines(es))
    ensures LineCount(file) == |es| && OnDisk(file) == TasksOf(es)
  {
    ReadsBack(es);
    UnderstoodIs(ReadAll(file), es);
  }

  function AppendedBy(d: Disk, o: Op): seq<Mission> {
    if o.Append? && !d.phase.Loading? then [o.m] else []
  }

  /** The tasks a run appends to the file. */
  function Appended(d: Disk, ops: seq<Op>): seq<Mission>
    decreases ops
  {
    if ops == [] then [] else AppendedBy(d, ops[0]) + Appended(Do(d, ops[0]), ops[1..])
  }

  /** A removal of the file for which fewer lines were read than it has by now. */
  predicate UnsafeOp(d: Disk, o: Op) {
    o.Rm? && d.phase.Loaded? && !(d.phase.counted <= 255 && LineCount(d.file) == d.phase.counted)
  }

  /** Over a run the file is only removed when at most 255 lines had been counted and none was appended since. */
  predicate OnlyReadFilesRemoved(d: Disk, ops: seq<Op>)
    decreases ops
  {
    ops == [] || (!UnsafeOp(d, ops[0]) && OnlyReadFilesRemoved(Do(d, ops[0]), ops[1..]))
  }

  lemma UnsafeMatches(d: Disk, s: State, o: Op)
    requires Matches(d, s)
    ensures UnsafeOp(d, o) <==> Unsafe(s, Meaning(o))
  {
    CountsBack(s.onFile, d.file);
  }

  lemma {:induction false} SafetyMatches(d: Disk, s: State, ops: seq<Op>)
    requires Matches(d, s) && Inv(s) && CarriedRun(d, ops)
    ensures OnlyReadFilesRemoved(d, ops) <==> Undisturbed(s, MeaningAll(ops))
    decreases ops
  {
    if ops != [] {
      DoMatches(d, s, ops[0]);
      StepKeepsInv(s, Meaning(ops[0]));
      UnsafeMatches(d, s, ops[0]);
      SafetyMatches(Do(d, ops[0]), Step(s, Meaning(ops[0])), ops[1..]);
      MeaningFirst(ops);
    }
  }

  lemma RecordsOne(d: Disk, s: State, o: Op)
    requires d.phase == s.phase
    ensures Step(s, Meaning(o)).recorded == s.recorded + AppendedBy(d, o)
  {
  }

  lemma {:induction false} RecordsAppended(d: Disk, s: State, ops: seq<Op>)
    requires Matches(d, s) && Inv(s) && CarriedRun(d, ops)
    ensures Exec(s, MeaningAll(ops)).recorded == s.recorded + Appended(d, ops)
    decreases ops
  {
    if ops != [] {
      DoMatches(d, s, ops[0]);
      StepKeepsInv(s, Meaning(ops[0]));
      RecordsOne(d, s, ops[0]);
      RecordsAppended(Do(d, ops[0]), Step(s, Meaning(ops[0])), ops[1..]);
      MeaningFirst(ops);
      Regroup(s.recorded, AppendedBy(d, ops[0]), Appended(Do(d, ops[0]), ops[1..]));
    }
  }

  /** The disk of a process that starts with the file the last one left. */
  function OldDisk(file: seq<Entry>, upTime: string): Disk {
    Disk(FileText(Lines(file)), upTime, Idle, [])
  }

  /**
   * Starting from any file an earlier process left, over every run of the text operations that writes only what the
   * format can carry: it is a run on records, with the same released tasks, phase and readable file, so that the
   * log's laws hold of the program's own strings; and between timer calls the tasks on file at first ++ those appended
   * == those released ++ those on file now if and only if the file was only removed when at most 255 lines had been
   * counted and none was appended since.
   */
  lemma {:induction false} FileRefinesLog(file: seq<Entry>, upTime: string, ops: seq<Op>)
    requires FromEarlier(file) && Printable(file) && CarriedRun(OldDisk(file, upTime), ops)
    ensures var d := OldDisk(file, upTime);
      var e, r := DoAll(d, ops), Exec(Started(file, upTime), MeaningAll(ops));
      && Inv(r) && Read(e.released, r.released) && e.phase == r.phase && e.upTime == r.upTime
      && LineCount(e.file) == |r.onFile| && OnDisk(e.file) == TasksOf(r.onFile)
      && (e.phase.Idle? ==>
            (OnDisk(d.file) + Appended(d, ops) == Understood(e.released) + OnDisk(e.file) <==>
             OnlyReadFilesRemoved(d, ops)))
  {
    var d, s := OldDisk(file, upTime), Started(file, upTime);
    var run := MeaningAll(ops);
    StartedInv(file, upTime);
    RunMatches(d, s, ops);
    ExecKeepsInv(s, run);
    OnDiskIs(file, d.file);
    OnDiskIs(Exec(s, run).onFile, DoAll(d, ops).file);
    ReadIsUnderstood(DoAll(d, ops).released, Exec(s, run).released);
    RecordsAppended(d, s, ops);
    SafetyMatches(d, s, ops);
    MissionsConservedIff(file, upTime, run);
  }
}
