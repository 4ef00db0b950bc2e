/**
 * The way of a `NEXT_REBOOT` task through the whole program: a heartbeat's tasks are drained and written to the mission
 * file, the boot time changes, the timer releases them, and the next drain takes them up.
 */
module MissionCycle {
  import opened MissionDisk
  import opened MissionFile
  import opened MissionLog
  import opened MissionText
  import opened OtaRuns
  import opened OtaSpec

  function MissionOf(t: Task): Mission {
    Mission(t.id, t.url, t.md5, t.kind)
  }

  /** The tasks a log shows to have been written to the mission file, in order. */
  function Written(log: seq<Event>): seq<Mission> {
    if log == [] then []
    else
      var e := log[|log| - 1];
      Written(log[..|log| - 1]) + (if e.MissionLine? then [MissionOf(e.task)] else [])
  }

  lemma {:induction false} WrittenAppend(a: seq<Event>, b: seq<Event>)
    ensures Written(a + b) == Written(a) + Written(b)
  {
    if b == [] {
      assert a + b == a;
    } else {
      assert (a + b)[..|a + b| - 1] == a + b[..|b| - 1];
      WrittenAppend(a, b[..|b| - 1]);
    }
  }

  lemma {:induction false} NoneWritten(log: seq<Event>)
    requires forall e <- log :: !e.MissionLine?
    ensures Written(log) == []
  {
    if log != [] {
      NoneWritten(log[..|log| - 1]);
    }
  }

  predicate Deferrable(t: Task) {
    t.needed && Contains(t.kind, NEXT_REBOOT)
  }

  /** The tasks among these that wait for the next reboot. */
  function Deferred(tasks: seq<Task>): seq<Mission> {
    if tasks == [] then []
    else
      var t := tasks[|tasks| - 1];
      Deferred(tasks[..|tasks| - 1]) + (if Deferrable(t) then [MissionOf(t)] else [])
  }

  lemma WrittenInPrepare(t: Task, env: Env)
    ensures Written(Prepare(t, env)) == if Deferrable(t) then [MissionOf(t)] else []
  {
    var prep := Prepare(t, env);
    if Deferrable(t) {
      NoneWritten(prep[..|prep| - 1]);
    } else {
      NoneWritten(prep);
    }
  }

  lemma WrittenBefore(a: seq<Event>, b: seq<Event>, c: seq<Event>)
    requires (forall e <- b :: !e.MissionLine?) && forall e <- c :: !e.MissionLine?
    ensures Written(a + b + c) == Written(a)
  {
    NoneWritten(b);
    NoneWritten(c);
    WrittenAppend(a, b);
    WrittenAppend(a + b, c);
  }

  lemma WrittenOnce(t: Task, env: Env)
    ensures Written(Attempt(t, env)) == if Deferrable(t) then [MissionOf(t)] else []
  {
    var up := Upgrade(t.id, StartKind(t), t.md5, env);
    var report := if up.ret == 0 then [Report(t.id)] else [];
    UpgradeHasNeither(t.id, StartKind(t), t.md5, env);
    WrittenInPrepare(t, env);
    WrittenBefore(Prepare(t, env), up.events, report);
  }

  lemma {:induction false} WrittenFlat(log: seq<Event>, parts: seq<seq<Event>>, tasks: seq<Task>)
    requires |parts| == |tasks|
    requires forall i | 0 <= i < |parts| ::
               Written(parts[i]) == if Deferrable(tasks[i]) then [MissionOf(tasks[i])] else []
    ensures Written(Flatten(log, parts)) == Written(log) + Deferred(tasks)
  {
    if parts != [] {
      var n := |parts| - 1;
      WrittenFlat(log, parts[..n], tasks[..n]);
      WrittenAppend(Flatten(log, parts[..n]), parts[n]);
      Regroup(Written(log), Deferred(tasks[..n]), Written(parts[n]));
    }
  }

  /** Whatever the environments, the deferred tasks are written, each once, in order, and no others. */
  lemma DeferredAreWritten(log: seq<Event>, tasks: seq<Task>, envs: nat -> Env)
    ensures Written(LogAfter(log, tasks, |tasks|, envs)) == Written(log) + Deferred(tasks)
  {
    LogAfterIsFlat(log, tasks, |tasks|, envs);
    forall i | 0 <= i < |tasks|
      ensures Written(Parts(tasks, |tasks|, envs)[i]) == if Deferrable(tasks[i]) then [MissionOf(tasks[i])] else []
    {
      WrittenOnce(tasks[i], envs(i));
    }
    WrittenFlat(log, Parts(tasks, |tasks|, envs), tasks);
  }

  function Records(ms: seq<Mission>): seq<Action> {
    if ms == [] then [] else Records(ms[..|ms| - 1]) + [Record(ms[|ms| - 1])]
  }

  lemma {:induction false} RecordsRun(s: State, ms: seq<Mission>)
    requires s.phase.Idle? && Inv(s)
    ensures var e := Exec(s, Records(ms));
      && Inv(e) && e == s.(onFile := e.onFile, recorded := s.recorded + ms)
      && |e.onFile| == |s.onFile| + |ms| && TasksOf(e.onFile) == TasksOf(s.onFile) + ms
      && (s.onFile == [] && ms != [] ==> e.onFile[0].stamp == s.upTime)
  {
    if ms != [] {
      var n := |ms| - 1;
      var t := Exec(s, Records(ms[..n]));
      RecordsRun(s, ms[..n]);
      ExecAppend(s, Records(ms[..n]), [Record(ms[n])]);
      FirstStep(t, Record(ms[n]), []);
      assert [Record(ms[n])] + [] == [Record(ms[n])];
      RecordKeepsInv(t, ms[n]);
      TasksAppend(t.onFile, Entry(ms[n], t.upTime, t.boot));
      assert ms == ms[..n] + [ms[n]];
    }
  }

  /** The task put on the list for a line; what the scan did not reach is what `malloc` left there. */
  function ReleasedTask(sc: Scan, junk: Task): Task {
    Task(if sc.id.Some? then sc.id.value else junk.id,
         if |sc.fields| > 0 then sc.fields[0] else junk.url,
         if |sc.fields| > 1 then sc.fields[1] else junk.md5,
         if |sc.fields| > 2 then sc.fields[2] else junk.kind,
         false)
  }

  function ReleasedTasks(scans: seq<Scan>, junk: nat -> Task): seq<Task> {
    seq(|scans|, i requires 0 <= i < |scans| => ReleasedTask(scans[i], junk(i)))
  }

  /** A mission as the task it comes back as. */
  function Returned(ms: seq<Mission>): seq<Task> {
    seq(|ms|, i requires 0 <= i < |ms| => Task(ms[i].id, ms[i].url, ms[i].md5, ms[i].kind, false))
  }

  /** The file as the drain wrote it, then a reading of another boot time, then one timer call. */
  function Reboot(ms: seq<Mission>, after: string): seq<Action> {
    Records(ms) + ([SetUpTime(after)] + ([Count, Check, Lock] + (Loads(|ms|) + [Load, Remove])))
  }

  lemma RebootReleases(ms: seq<Mission>, before: string, after: string)
    requires 0 < |ms| <= 255 && Differs(before, after) && Differs(after, before)
    ensures var e := Exec(Started([], before), Reboot(ms, after));
      e.released == ms && e.onFile == [] && e.upTime == after && e.phase.Idle?
  {
    var s := Started([], before);
    StartedInv([], before);
    RecordsRun(s, ms);
    var t := Exec(s, Records(ms));
    var call := [Count, Check, Lock] + (Loads(|ms|) + [Load, Remove]);
    ExecAppend(s, Records(ms), [SetUpTime(after)] + call);
    FirstStep(t, SetUpTime(after), call);
    StepKeepsInv(t, SetUpTime(after));
    TimerCallReleasesAll(SetUpTimeStep(t, after));
    assert TasksOf([]) == [] && [] + ms == ms;
  }

  // ---- the same on the text

  function Appends(ms: seq<Mission>): seq<Op> {
    if ms == [] then [] else Appends(ms[..|ms| - 1]) + [Append(ms[|ms| - 1])]
  }

  function Inserts(n: nat): seq<Op> {
    if n == 0 then [] else [Insert] + Inserts(n - 1)
  }

  /** The operations on the file: written by the drain, a reading of another boot time, one timer call. */
  function RebootOps(ms: seq<Mission>, after: string): seq<Op> {
    Appends(ms) + TimerCall(|ms|, after)
  }

  /** A reading of another boot time, then one timer call for a file of `n` lines. */
  function TimerCall(n: nat, after: string): seq<Op> {
    [ReadUpTime(after)] + ([Wc, Compare, TakeLock] + (Inserts(n) + [Insert, Rm]))
  }

  lemma {:induction false} MeaningAppend(a: seq<Op>, b: seq<Op>)
    ensures MeaningAll(a + b) == MeaningAll(a) + MeaningAll(b)
  {
    if a == [] {
      assert a + b == b;
    } else {
      assert (a + b)[1..] == a[1..] + b;
      MeaningAppend(a[1..], b);
    }
  }

  lemma {:induction false} AppendsMean(ms: seq<Mission>)
    ensures MeaningAll(Appends(ms)) == Records(ms)
  {
    if ms != [] {
      var m := ms[|ms| - 1];
      AppendsMean(ms[..|ms| - 1]);
      MeaningAppend(Appends(ms[..|ms| - 1]), [Append(m)]);
      assert MeaningAll([Append(m)]) == [Record(m)];
    }
  }

  lemma {:induction false} InsertsMean(n: nat)
    ensures MeaningAll(Inserts(n)) == Loads(n)
  {
    if n != 0 {
      InsertsMean(n - 1);
      assert Inserts(n)[1..] == Inserts(n - 1);
    }
  }

  lemma RebootMeans(ms: seq<Mission>, after: string)
    ensures MeaningAll(RebootOps(ms, after)) == Reboot(ms, after)
  {
    AppendsMean(ms);
    InsertsMean(|ms|);
    MeaningAppend(Appends(ms), [ReadUpTime(after)] + ([Wc, Compare, TakeLock] + (Inserts(|ms|) + [Insert, Rm])));
    MeaningAppend([ReadUpTime(after)], [Wc, Compare, TakeLock] + (Inserts(|ms|) + [Insert, Rm]));
    MeaningAppend([Wc, Compare, TakeLock], Inserts(|ms|) + [Insert, Rm]);
    MeaningAppend(Inserts(|ms|), [Insert, Rm]);
    ShortRuns(after);
  }

  lemma ShortRuns(after: string)
    ensures MeaningAll([ReadUpTime(after)]) == [SetUpTime(after)]
    ensures MeaningAll([Wc, Compare, TakeLock]) == [Count, Check, Lock]
    ensures MeaningAll([Insert, Rm]) == [Load, Remove]
  {
    assert [Wc, Compare, TakeLock][1..] == [Compare, TakeLock] && [Compare, TakeLock][1..] == [TakeLock];
    assert [Insert, Rm][1..] == [Rm];
  }

  predicate NoAppend(ops: seq<Op>) {
    forall o <- ops :: !o.Append?
  }

  lemma {:induction false} NoAppendIsCarried(d: Disk, ops: seq<Op>)
    requires NoAppend(ops)
    ensures CarriedRun(d, ops)
    decreases ops
  {
    if ops != [] {
      assert ops[0] in ops && forall o <- ops[1..] :: o in ops;
      NoAppendIsCarried(Do(d, ops[0]), ops[1..]);
    }
  }

  lemma {:induction false} CarriedAppend(d: Disk, a: seq<Op>, b: seq<Op>)
    ensures CarriedRun(d, a + b) <==> CarriedRun(d, a) && CarriedRun(DoAll(d, a), b)
    decreases a
  {
    if a == [] {
      assert a + b == b;
    } else {
      assert (a + b)[1..] == a[1..] + b;
      CarriedAppend(Do(d, a[0]), a[1..], b);
    }
  }

  lemma {:induction false} AppendsCarried(d: Disk, ms: seq<Mission>)
    requires d.phase.Idle? && forall m <- ms :: Carried(m, d.upTime)
    ensures CarriedRun(d, Appends(ms))
    ensures DoAll(d, Appends(ms)).phase.Idle? && DoAll(d, Appends(ms)).upTime == d.upTime
  {
    if ms != [] {
      var front, m := ms[..|ms| - 1], ms[|ms| - 1];
      assert m in ms && forall x <- front :: x in ms;
      AppendsCarried(d, front);
      CarriedAppend(d, Appends(front), [Append(m)]);
      DoAllAppend(d, Appends(front), [Append(m)]);
      DoOne(DoAll(d, Appends(front)), Append(m), []);
      assert [Append(m)] + [] == [Append(m)];
    }
  }

  lemma {:induction false} InsertsOnly(n: nat)
    ensures NoAppend(Inserts(n))
  {
    if n != 0 {
      InsertsOnly(n - 1);
    }
  }

  lemma RebootCarried(ms: seq<Mission>, before: string, after: string)
    requires forall m <- ms :: Carried(m, before)
    ensures CarriedRun(OldDisk([], before), RebootOps(ms, after))
  {
    var d := OldDisk([], before);
    var rest := [ReadUpTime(after)] + ([Wc, Compare, TakeLock] + (Inserts(|ms|) + [Insert, Rm]));
    AppendsCarried(d, ms);
    InsertsOnly(|ms|);
    NoAppendIsCarried(DoAll(d, Appends(ms)), rest);
    CarriedAppend(d, Appends(ms), rest);
  }

  /** On the text itself: the file written, the boot time changed, one timer call. */
  lemma RebootReleasesText(ms: seq<Mission>, before: string, after: string)
    requires 0 < |ms| <= 255 && Differs(before, after) && Differs(after, before)
    requires forall m <- ms :: Carried(m, before)
    ensures var e := DoAll(OldDisk([], before), RebootOps(ms, after));
      Read(e.released, ms) && e.file == [] && e.upTime == after && e.phase.Idle?
  {
    var d, ops := OldDisk([], before), RebootOps(ms, after);
    RebootCarried(ms, before, after);
    RebootMeans(ms, after);
    StartedInv([], before);
    assert Lines([]) == [];
    RunMatches(d, Started([], before), ops);
    RebootReleases(ms, before, after);
  }

  /** The tasks that wait for the next reboot, as they came. */
  function Waiting(tasks: seq<Task>): seq<Task> {
    if tasks == [] then []
    else
      var t := tasks[|tasks| - 1];
      Waiting(tasks[..|tasks| - 1]) + (if t.needed && Contains(t.kind, "NEXT_REBOOT") then [t] else [])
  }

  /** The same tasks, no longer to be downloaded. */
  function Restored(tasks: seq<Task>): seq<Task> {
    seq(|tasks|, i requires 0 <= i < |tasks| => tasks[i].(needed := false))
  }

  lemma {:induction false} ReturnedAreWaiting(tasks: seq<Task>)
    ensures |Deferred(tasks)| == |Waiting(tasks)| && Returned(Deferred(tasks)) == Restored(Waiting(tasks))
  {
    if tasks != [] {
      var front := tasks[..|tasks| - 1];
      ReturnedAreWaiting(front);
      forall i | 0 <= i < |Waiting(tasks)|
        ensures Returned(Deferred(tasks))[i] == Restored(Waiting(tasks))[i]
      {
        if i < |Waiting(front)| {
          assert Returned(Deferred(front))[i] == Restored(Waiting(front))[i];
        }
      }
    }
  }

  lemma {:induction false} WaitingCarried(tasks: seq<Task>, stamp: string)
    requires CleanField(stamp)
    requires forall t <- Waiting(tasks) :: CleanField(t.url) && CleanField(t.md5) && CleanField(t.kind)
    ensures forall m <- Deferred(tasks) :: Carried(m, stamp)
  {
    if tasks != [] {
      var front := tasks[..|tasks| - 1];
      assert forall t <- Waiting(front) :: t in Waiting(tasks);
      WaitingCarried(front, stamp);
      var t := tasks[|tasks| - 1];
      assert Deferrable(t) ==> t in Waiting(tasks);
    }
  }

  /**
   * The tasks among `tasks` that ask for the next reboot, with fields that the line format can carry, whatever happens
   * to them before: their drain writes them to the file; the first undisturbed timer call after the boot time has
   * changed, to one of the same length, say, or to any that does not go on from the other, reads them back onto the
   * list with every field as it was; the drain after that takes them up once each, in order; and each then starts the
   * script of its own number, the one there is a way to. All on the program's own text.
   */
  lemma {:induction false} DeferredTasksReturn(tasks: seq<Task>, envs: nat -> Env, before: string, after: string,
                                               junk: nat -> Task, later: nat -> Env)
    requires 0 < |Waiting(tasks)| <= 255 && !(before <= after) && !(after <= before)
    requires CleanField(before)
    requires forall t <- Waiting(tasks) :: CleanField(t.url) && CleanField(t.md5) && CleanField(t.kind)
    ensures var e := DoAll(OldDisk([], before), RebootOps(Written(LogAfter([], tasks, |tasks|, envs)), after));
      var again := ReleasedTasks(e.released, junk);
      && again == Restored(Waiting(tasks)) && e.file == [] && e.upTime == after
      && Begun(LogAfter([], again, |again|, later)) == again
      && forall i | 0 <= i < |again| ::
           && (RunSh(again[i].id) in Attempt(again[i], later(i)) <==> later(i).dirAtUpdate)
           && (UpgradeSh(again[i].id) in Attempt(again[i], later(i)) <==>
               !later(i).dirAtUpdate && later(i).connectUpdate)
  {
    var ms := Deferred(tasks);
    ReturnedAreWaiting(tasks);
    WaitingCarried(tasks, before);
    FirstDrainWrites(tasks, envs);
    RebootReleasesText(ms, before, after);
    ReadTasks(DoAll(OldDisk([], before), RebootOps(ms, after)).released, ms, junk);
    NextDrainTakesUp(ms, later);
  }

  lemma ReadTasks(scans: seq<Scan>, ms: seq<Mission>, junk: nat -> Task)
    requires Read(scans, ms)
    ensures ReleasedTasks(scans, junk) == Returned(ms)
  {
    forall i | 0 <= i < |ms|
      ensures ReleasedTask(scans[i], junk(i)) == Returned(ms)[i]
    {
      assert scans[i] == Complete(ms[i], StampOf(scans[i]));
    }
  }

  lemma FirstDrainWrites(tasks: seq<Task>, envs: nat -> Env)
    ensures Written(LogAfter([], tasks, |tasks|, envs)) == Deferred(tasks)
  {
    DeferredAreWritten([], tasks, envs);
    assert [] + Deferred(tasks) == Deferred(tasks);
  }

  lemma NextDrainTakesUp(ms: seq<Mission>, later: nat -> Env)
    ensures var again := Returned(ms);
      && Begun(LogAfter([], again, |again|, later)) == again
      && forall i | 0 <= i < |again| ::
           && (RunSh(again[i].id) in Attempt(again[i], later(i)) <==> later(i).dirAtUpdate)
           && (UpgradeSh(again[i].id) in Attempt(again[i], later(i)) <==>
               !later(i).dirAtUpdate && later(i).connectUpdate)
  {
    var again := Returned(ms);
    EachBegunOnce([], again, |again|, later);
    assert [] + again[..|again|] == again;
    forall i | 0 <= i < |again|
      ensures RunSh(again[i].id) in Attempt(again[i], later(i)) <==> later(i).dirAtUpdate
      ensures UpgradeSh(again[i].id) in Attempt(again[i], later(i)) <==>
              !later(i).dirAtUpdate && later(i).connectUpdate
    {
      StartsIff(again[i], later(i));
    }
  }
}
