/**
 * The OTA side as one machine, over every run: heartbeats put tasks on the list and read the boot time, the drain
 * thread takes them up under the mutex and writes the mission file, the reboot timer releases the file onto the same
 * list.
 */
module OtaProgram {
  import opened MissionCycle
  import opened MissionDisk
  import opened MissionFile
  import opened MissionLog
  import opened MissionText
  import opened OtaRuns
  import opened OtaSpec
  import opened TaskLists

  /** `draining`: the drain thread holds the mutex. `queued` are all tasks ever put on the list. */
  datatype Program = Program(disk: Disk, list: seq<Task>, draining: bool, log: seq<Event>, queued: seq<Task>)

  /** Heartbeats and the timer run on one thread; the timer's own steps are the operations on the file. */
  datatype Move =
    | Heartbeat(ms: seq<Mission>)
    | Timer(o: Op, junk: Task)
    | DrainBegin
    | DrainOne(env: Env)
    | DrainEnd

  function Fresh(ms: seq<Mission>): seq<Task> {
    seq(|ms|, i requires 0 <= i < |ms| => Task(ms[i].id, ms[i].url, ms[i].md5, ms[i].kind, true))
  }

  /** `List_Insert` for each task of a heartbeat, under the mutex. */
  function HeartbeatMove(p: Program, ms: seq<Mission>): Program {
    if p.disk.phase.Idle? && !p.draining then p.(list := p.list + Fresh(ms), queued := p.queued + Fresh(ms)) else p
  }

  /** The operation as far as it is the timer thread's; taking the lock waits for the drain. */
  predicate Allowed(p: Program, o: Op) {
    !o.Append? && (o.TakeLock? ==> !p.draining)
  }

  /** What a timer step puts on the list: the task of the line just read, if it read one. */
  function PutOn(p: Program, o: Op, junk: Task): seq<Task> {
    if o.Insert? && |InsertOp(p.disk).released| > |p.disk.released|
    then [ReleasedTask(InsertOp(p.disk).released[|p.disk.released|], junk)] else []
  }

  function TimerMove(p: Program, o: Op, junk: Task): Program {
    if !Allowed(p, o) then p
    else
      p.(disk := Do(p.disk, o), list := p.list + PutOn(p, o, junk), queued := p.queued + PutOn(p, o, junk))
  }

  /** The line a task leaves in the file. */
  function LineOf(t: Task): seq<Op> {
    if Deferrable(t) then [Append(MissionOf(t))] else []
  }

  /** One turn of the drain loop. */
  function DrainMove(p: Program, env: Env): Program {
    if !p.draining || !Shows(p.list) then p
    else
      p.(disk := DoAll(p.disk, LineOf(p.list[0])), list := AfterDelete(p.list), log := p.log + Attempt(p.list[0], env))
  }

  function Step(p: Program, a: Move): Program {
    match a
    case Heartbeat(ms) => HeartbeatMove(p, ms)
    case Timer(o, junk) => TimerMove(p, o, junk)
    case DrainBegin => if p.disk.phase.Loading? then p else p.(draining := true)
    case DrainOne(env) => DrainMove(p, env)
    case DrainEnd => if Shows(p.list) then p else p.(draining := false)
  }

  function Exec(p: Program, run: seq<Move>): Program
    decreases run
  {
    if run == [] then p else Exec(Step(p, run[0]), run[1..])
  }

  /** The operations on the file that a step amounts to. */
  function OpsOf(p: Program, a: Move): seq<Op> {
    match a
    case Timer(o, _) => if Allowed(p, o) then [o] else []
    case DrainOne(_) => if p.draining && Shows(p.list) then LineOf(p.list[0]) else []
    case _ => []
  }

  function AllOps(p: Program, run: seq<Move>): seq<Op>
    decreases run
  {
    if run == [] then [] else OpsOf(p, run[0]) + AllOps(Step(p, run[0]), run[1..])
  }

  lemma StepsDisk(p: Program, a: Move)
    ensures Step(p, a).disk == DoAll(p.disk, OpsOf(p, a))
  {
    if a.Timer? {
      DoOne(p.disk, a.o, []);
      assert [a.o] + [] == [a.o];
    }
  }

  lemma {:induction false} RunsDisk(p: Program, run: seq<Move>)
    ensures Exec(p, run).disk == DoAll(p.disk, AllOps(p, run))
    decreases run
  {
    if run != [] {
      StepsDisk(p, run[0]);
      RunsDisk(Step(p, run[0]), run[1..]);
      DoAllAppend(p.disk, OpsOf(p, run[0]), AllOps(Step(p, run[0]), run[1..]));
    }
  }

  // ---- the list

  /** The tasks among these that came back from the file. */
  function BackAgain(tasks: seq<Task>): seq<Mission> {
    if tasks == [] then []
    else
      var t := tasks[|tasks| - 1];
      BackAgain(tasks[..|tasks| - 1]) + (if t.needed then [] else [MissionOf(t)])
  }

  lemma {:induction false} BackAgainAppend(a: seq<Task>, b: seq<Task>)
    ensures BackAgain(a + b) == BackAgain(a) + BackAgain(b)
  {
    if b == [] {
      assert a + b == a;
    } else {
      assert (a + b)[..|a + b| - 1] == a + b[..|b| - 1];
      BackAgainAppend(a, b[..|b| - 1]);
    }
  }

  lemma {:induction false} NoneBackAgain(tasks: seq<Task>)
    requires forall t <- tasks :: t.needed
    ensures BackAgain(tasks) == []
  {
    if tasks != [] {
      NoneBackAgain(tasks[..|tasks| - 1]);
    }
  }

  /** The tasks that came back are, one for one, those of the lines read. */
  predicate Tied(back: seq<Mission>, scans: seq<Scan>) {
    && |back| == |scans|
    && forall i | 0 <= i < |back| :: |scans[i].fields| == 4 && scans[i].id.Some? ==>
         back[i] == Mission(scans[i].id.value, scans[i].fields[0], scans[i].fields[1], scans[i].fields[2])
  }

  /** The mutex, the queue discipline of the list, and where its tasks come from. */
  predicate Inv(p: Program) {
    && (p.draining ==> !p.disk.phase.Loading?)
    && p.queued == Begun(p.log) + p.list
    && Tied(BackAgain(p.queued), p.disk.released)
  }

  lemma QueueGrows(p: Program, more: seq<Task>)
    requires p.queued == Begun(p.log) + p.list
    ensures p.queued + more == Begun(p.log) + (p.list + more)
  {
  }

  lemma HeartbeatKeepsInv(p: Program, ms: seq<Mission>)
    requires Inv(p)
    ensures Inv(HeartbeatMove(p, ms))
  {
    QueueGrows(p, Fresh(ms));
    NoneBackAgain(Fresh(ms));
    BackAgainAppend(p.queued, Fresh(ms));
  }

  lemma TiedPush(back: seq<Mission>, scans: seq<Scan>, sc: Scan, junk: Task)
    requires Tied(back, scans)
    ensures Tied(back + [MissionOf(ReleasedTask(sc, junk))], scans + [sc])
  {
  }

  lemma PutOnTied(p: Program, o: Op, junk: Task)
    requires Tied(BackAgain(p.queued), p.disk.released)
    ensures Tied(BackAgain(p.queued + PutOn(p, o, junk)), Do(p.disk, o).released)
  {
    var more := PutOn(p, o, junk);
    BackAgainAppend(p.queued, more);
    if more != [] {
      var sc := InsertOp(p.disk).released[|p.disk.released|];
      assert InsertOp(p.disk).released == p.disk.released + [sc];
      assert more[..0] == [] && BackAgain(more) == [MissionOf(more[0])];
      TiedPush(BackAgain(p.queued), p.disk.released, sc, junk);
    } else {
      assert Do(p.disk, o).released == p.disk.released && p.queued + [] == p.queued;
    }
  }

  lemma TimerKeepsInv(p: Program, o: Op, junk: Task)
    requires Inv(p)
    ensures Inv(TimerMove(p, o, junk))
  {
    QueueGrows(p, PutOn(p, o, junk));
    PutOnTied(p, o, junk);
  }

  lemma TakesUp(p: Program, env: Env)
    requires p.queued == Begun(p.log) + p.list && p.list != []
    ensures p.queued == Begun(p.log + Attempt(p.list[0], env)) + p.list[1..]
  {
    BegunOnce(p.list[0], env);
    BegunAppend(p.log, Attempt(p.list[0], env));
    HeadMoves(Begun(p.log), p.list);
  }

  lemma HeadMoves(a: seq<Task>, b: seq<Task>)
    requires b != []
    ensures a + b == a + [b[0]] + b[1..]
  {
  }

  lemma DropsHead(list: seq<Task>)
    requires Shows(list) && |list| < WRAP
    ensures list != [] && AfterDelete(list) == list[1..]
  {
    assert |list| % WRAP == |list|;
  }

  lemma DrainKeepsInv(p: Program, env: Env)
    requires Inv(p) && |p.list| < WRAP
    ensures Inv(DrainMove(p, env))
  {
    if p.draining && Shows(p.list) {
      DropsHead(p.list);
      TakesUp(p, env);
      LineLeavesReleased(p.disk, p.list[0]);
    }
  }

  lemma LineLeavesReleased(d: Disk, t: Task)
    ensures DoAll(d, LineOf(t)).released == d.released && DoAll(d, LineOf(t)).phase == d.phase
    ensures DoAll(d, LineOf(t)).upTime == d.upTime
  {
    if Deferrable(t) {
      DoOne(d, Append(MissionOf(t)), []);
      assert [Append(MissionOf(t))] + [] == [Append(MissionOf(t))];
    }
  }

  lemma StepKeepsInv(p: Program, a: Move)
    requires Inv(p) && |p.list| < WRAP
    ensures Inv(Step(p, a))
  {
    match a
    case Heartbeat(ms) => HeartbeatKeepsInv(p, ms);
    case Timer(o, junk) => TimerKeepsInv(p, o, junk);
    case DrainBegin =>
    case DrainOne(env) => DrainKeepsInv(p, env);
    case DrainEnd =>
  }

  /** The list never reaches the 65536 nodes at which its count wraps. */
  predicate NeverWraps(p: Program, run: seq<Move>)
    decreases run
  {
    |p.list| < WRAP && (run == [] || NeverWraps(Step(p, run[0]), run[1..]))
  }

  lemma {:induction false} ExecKeepsInv(p: Program, run: seq<Move>)
    requires Inv(p) && NeverWraps(p, run)
    ensures Inv(Exec(p, run))
    decreases run
  {
    if run != [] {
      StepKeepsInv(p, run[0]);
      ExecKeepsInv(Step(p, run[0]), run[1..]);
    }
  }

  // ---- what is written

  lemma TaskWrites(log: seq<Event>, t: Task, env: Env)
    ensures Written(log + Attempt(t, env)) == Written(log) + (if Deferrable(t) then [MissionOf(t)] else [])
  {
    WrittenOnce(t, env);
    WrittenAppend(log, Attempt(t, env));
  }

  lemma LineAppends(d: Disk, t: Task)
    requires !d.phase.Loading?
    ensures Appended(d, LineOf(t)) == if Deferrable(t) then [MissionOf(t)] else []
  {
  }

  lemma StepWrites(p: Program, a: Move)
    requires Inv(p)
    ensures Written(Step(p, a).log) == Written(p.log) + Appended(p.disk, OpsOf(p, a))
  {
    if a.DrainOne? && p.draining && Shows(p.list) {
      TaskWrites(p.log, p.list[0], a.env);
      LineAppends(p.disk, p.list[0]);
    }
  }

  lemma {:induction false} AppendedAppend(d: Disk, a: seq<Op>, b: seq<Op>)
    ensures Appended(d, a + b) == Appended(d, a) + Appended(DoAll(d, a), b)
    decreases a
  {
    if a == [] {
      assert a + b == b;
    } else {
      assert (a + b)[1..] == a[1..] + b;
      AppendedAppend(Do(d, a[0]), a[1..], b);
      Regroup(AppendedBy(d, a[0]), Appended(Do(d, a[0]), a[1..]), Appended(DoAll(d, a), b));
    }
  }

  lemma {:induction false} RunWrites(p: Program, run: seq<Move>)
    requires Inv(p) && NeverWraps(p, run)
    ensures Written(Exec(p, run).log) == Written(p.log) + Appended(p.disk, AllOps(p, run))
    decreases run
  {
    if run != [] {
      var q, ops := Step(p, run[0]), OpsOf(p, run[0]);
      StepKeepsInv(p, run[0]);
      StepWrites(p, run[0]);
      RunWrites(q, run[1..]);
      StepsDisk(p, run[0]);
      AppendedAppend(p.disk, ops, AllOps(q, run[1..]));
      Regroup(Written(p.log), Appended(p.disk, ops), Appended(q.disk, AllOps(q, run[1..])));
    }
  }

  // ---- what the format carries

  /** Heartbeats that defer only tasks the line format can carry, and boot times it can carry. */
  predicate CleanMove(a: Move) {
    match a
    case Heartbeat(ms) => forall m <- ms :: Contains(m.kind, NEXT_REBOOT) ==> Clean(m)
    case Timer(o, _) => o.ReadUpTime? ==> CleanField(o.stamp)
    case _ => true
  }

  predicate CleanList(tasks: seq<Task>) {
    forall t <- tasks :: Deferrable(t) ==> Clean(MissionOf(t))
  }

  predicate CleanState(p: Program) {
    CleanField(p.disk.upTime) && CleanList(p.list)
  }

  lemma DrainStaysClean(p: Program, env: Env)
    requires CleanState(p)
    ensures CleanState(DrainMove(p, env)) && CarriedRun(p.disk, OpsOf(p, DrainOne(env)))
  {
    if p.draining && Shows(p.list) {
      LineLeavesReleased(p.disk, p.list[0]);
      assert forall t <- AfterDelete(p.list) :: t in p.list;
      assert p.list[0] in p.list;
    }
  }

  lemma HeartbeatStaysClean(p: Program, ms: seq<Mission>)
    requires CleanState(p) && CleanMove(Heartbeat(ms))
    ensures CleanState(HeartbeatMove(p, ms))
  {
    forall t <- Fresh(ms)
      ensures Deferrable(t) ==> Clean(MissionOf(t))
    {
      assert MissionOf(t) in ms;
    }
  }

  lemma TimerStaysClean(p: Program, o: Op, junk: Task)
    requires CleanState(p) && CleanMove(Timer(o, junk))
    ensures CleanState(TimerMove(p, o, junk)) && CarriedRun(p.disk, OpsOf(p, Timer(o, junk)))
  {
  }

  lemma {:induction false} CleanRunIsCarried(p: Program, run: seq<Move>)
    requires CleanState(p) && forall a <- run :: CleanMove(a)
    ensures CarriedRun(p.disk, AllOps(p, run))
    decreases run
  {
    if run != [] {
      var a, q := run[0], Step(p, run[0]);
      assert a in run && forall b <- run[1..] :: b in run;
      match a {
        case Heartbeat(ms) => HeartbeatStaysClean(p, ms);
        case Timer(o, junk) => TimerStaysClean(p, o, junk);
        case DrainOne(env) => DrainStaysClean(p, env);
        case _ =>
      }
      StepsDisk(p, a);
      CleanRunIsCarried(q, run[1..]);
      CarriedAppend(p.disk, OpsOf(p, a), AllOps(q, run[1..]));
    }
  }

  // ---- every deferred task comes back

  function Starting(file: seq<Entry>, upTime: string): Program {
    Program(OldDisk(file, upTime), [], false, [], [])
  }

  lemma {:induction false} TiedIsRead(back: seq<Mission>, scans: seq<Scan>, ms: seq<Mission>)
    requires Tied(back, scans) && Read(scans, ms)
    ensures back == ms
  {
    forall i | 0 <= i < |ms|
      ensures back[i] == ms[i]
    {
      assert scans[i] == Complete(ms[i], StampOf(scans[i]));
    }
  }

  /**
   * Over every run that starts with any file an earlier process left: the tasks taken up again, then those waiting on
   * the list to be, then those on file, are exactly the tasks on file at first and those the drain has written since,
   * in order, each once, if and only if the file was only removed when at most 255 lines had been counted and none
   * was written since. It holds between timer calls, for clean heartbeats and a list that never wraps.
   */
  lemma {:induction false} EveryDeferredTaskReturnsIff(file: seq<Entry>, upTime: string, run: seq<Move>)
    requires FromEarlier(file) && Printable(file) && CleanField(upTime) && forall a <- run :: CleanMove(a)
    requires NeverWraps(Starting(file, upTime), run)
    ensures var p := Starting(file, upTime);
      var e := Exec(p, run);
      e.disk.phase.Idle? ==>
        (OnDisk(p.disk.file) + Written(e.log) == BackAgain(Begun(e.log)) + BackAgain(e.list) + OnDisk(e.disk.file) <==>
         OnlyReadFilesRemoved(p.disk, AllOps(p, run)))
  {
    var p := Starting(file, upTime);
    var e, ops := Exec(p, run), AllOps(p, run);
    CleanRunIsCarried(p, run);
    ExecKeepsInv(p, run);
    RunsDisk(p, run);
    RunWrites(p, run);
    assert Written([]) == [] && [] + Appended(p.disk, ops) == Appended(p.disk, ops);
    FileRefinesLog(file, upTime, ops);
    BackAgainAppend(Begun(e.log), e.list);
    ReadIsUnderstood(e.disk.released, MissionLog.Exec(Started(file, upTime), MeaningAll(ops)).released);
    TiedIsRead(BackAgain(e.queued), e.disk.released, Understood(e.disk.released));
  }

  // ---- what the heartbeats brought

  /** The tasks among these that come from a heartbeat. */
  function FromHeartbeats(tasks: seq<Task>): seq<Mission> {
    if tasks == [] then []
    else
      var t := tasks[|tasks| - 1];
      FromHeartbeats(tasks[..|tasks| - 1]) + (if t.needed then [Mission(t.id, t.url, t.md5, t.kind)] else [])
  }

  /** The tasks that a run's heartbeats bring while neither the timer nor the drain is at work. */
  function Brought(p: Program, run: seq<Move>): seq<Mission>
    decreases run
  {
    if run == [] then [] else BroughtBy(p, run[0]) + Brought(Step(p, run[0]), run[1..])
  }

  function BroughtBy(p: Program, a: Move): seq<Mission> {
    if a.Heartbeat? && p.disk.phase.Idle? && !p.draining then a.ms else []
  }

  /** Each task of an accepted heartbeat goes to the end of the list, with its own fields, to be downloaded. */
  lemma HeartbeatAppends(p: Program, ms: seq<Mission>)
    requires p.disk.phase.Idle? && !p.draining
    ensures var q := Step(p, Heartbeat(ms));
      && |q.list| == |p.list| + |ms| && q.list[..|p.list|] == p.list
      && forall i | 0 <= i < |ms| ::
           q.list[|p.list| + i] == Task(ms[i].id, ms[i].url, ms[i].md5, ms[i].kind, true)
  {
  }

  lemma {:induction false} FromHeartbeatsAppend(a: seq<Task>, b: seq<Task>)
    ensures FromHeartbeats(a + b) == FromHeartbeats(a) + FromHeartbeats(b)
  {
    if b == [] {
      assert a + b == a;
    } else {
      assert (a + b)[..|a + b| - 1] == a + b[..|b| - 1];
      FromHeartbeatsAppend(a, b[..|b| - 1]);
    }
  }

  lemma {:induction false} FreshAreBrought(ms: seq<Mission>)
    ensures FromHeartbeats(Fresh(ms)) == ms
  {
    if ms != [] {
      FreshAreBrought(ms[..|ms| - 1]);
      assert Fresh(ms)[..|ms| - 1] == Fresh(ms[..|ms| - 1]);
    }
  }

  lemma StepBrings(p: Program, a: Move)
    ensures FromHeartbeats(Step(p, a).queued) == FromHeartbeats(p.queued) + BroughtBy(p, a)
  {
    if a.Heartbeat? {
      FromHeartbeatsAppend(p.queued, Fresh(a.ms));
      FreshAreBrought(a.ms);
    } else if a.Timer? {
      var more := PutOn(p, a.o, a.junk);
      FromHeartbeatsAppend(p.queued, more);
      assert |more| == 1 ==> more[..0] == [];
      assert FromHeartbeats(more) == [];
    }
  }

  lemma JoinMissions(a: seq<Mission>, b: seq<Mission>, c: seq<Mission>)
    ensures a + b + c == a + (b + c)
  {
  }

  lemma {:induction false} RunBrings(p: Program, run: seq<Move>)
    ensures FromHeartbeats(Exec(p, run).queued) == FromHeartbeats(p.queued) + Brought(p, run)
    decreases run
  {
    if run != [] {
      StepBrings(p, run[0]);
      RunBrings(Step(p, run[0]), run[1..]);
      JoinMissions(FromHeartbeats(p.queued), BroughtBy(p, run[0]), Brought(Step(p, run[0]), run[1..]));
    }
  }

  /**
   * Over every run the tasks that the heartbeats brought are, in order and each once, those taken up and those still
   * waiting on the list to be.
   */
  lemma {:induction false} EveryHeartbeatTaskIsTakenUp(file: seq<Entry>, upTime: string, run: seq<Move>)
    requires NeverWraps(Starting(file, upTime), run)
    ensures var p := Starting(file, upTime); var e := Exec(p, run);
      FromHeartbeats(Begun(e.log)) + FromHeartbeats(e.list) == Brought(p, run)
  {
    var p := Starting(file, upTime);
    ExecKeepsInv(p, run);
    RunBrings(p, run);
    FromHeartbeatsAppend(Begun(Exec(p, run).log), Exec(p, run).list);
  }

  // ---- a whole drain

  function DrainOnes(n: nat, envs: nat -> Env): seq<Move> {
    seq(n, k requires 0 <= k < n => DrainOne(envs(k)))
  }

  lemma {:induction false} ExecAppend(p: Program, a: seq<Move>, b: seq<Move>)
    ensures Exec(p, a + b) == Exec(Exec(p, a), b)
    decreases a
  {
    if a == [] {
      assert a + b == b;
    } else {
      assert (a + b)[1..] == a[1..] + b;
      ExecAppend(Step(p, a[0]), a[1..], b);
    }
  }

  lemma ExecOne(p: Program, a: Move)
    ensures Exec(p, [a]) == Step(p, a)
  {
    assert [a][1..] == [];
  }

  /** The state after `k` turns of an undisturbed drain that began in `p`. */
  function Drained(p: Program, k: nat, envs: nat -> Env): Program
    requires k <= |p.list|
  {
    p.(disk := DoAll(p.disk, Appends(Deferred(p.list[..k]))), list := p.list[k..], draining := true,
       log := LogAfter(p.log, p.list, k, envs))
  }

  /** One turn of the drain, seen from the list. */
  lemma OneTurn(q: Program, env: Env)
    requires q.draining && 0 < |q.list| < WRAP
    ensures Step(q, DrainOne(env)) ==
            q.(disk := DoAll(q.disk, LineOf(q.list[0])), list := q.list[1..], log := q.log + Attempt(q.list[0], env))
  {
    assert |q.list| % WRAP == |q.list|;
    DropsHead(q.list);
  }

  lemma NextDrained(p: Program, k: nat, envs: nat -> Env)
    requires k < |p.list|
    ensures var q := Drained(p, k, envs);
      && q.list != [] && q.list[0] == p.list[k] && q.list[1..] == p.list[k + 1..]
      && DoAll(q.disk, LineOf(p.list[k])) == DoAll(p.disk, Appends(Deferred(p.list[..k + 1])))
  {
    LineExtends(p.disk, p.list[..k], p.list[k]);
    assert p.list[..k] + [p.list[k]] == p.list[..k + 1];
  }

  lemma DrainTurn(p: Program, k: nat, envs: nat -> Env)
    requires k < |p.list| < WRAP
    ensures Step(Drained(p, k, envs), DrainOne(envs(k))) == Drained(p, k + 1, envs)
  {
    NextDrained(p, k, envs);
    OneTurn(Drained(p, k, envs), envs(k));
  }

  lemma LineExtends(d: Disk, tasks: seq<Task>, t: Task)
    ensures DoAll(d, Appends(Deferred(tasks + [t]))) == DoAll(DoAll(d, Appends(Deferred(tasks))), LineOf(t))
  {
    assert (tasks + [t])[..|tasks|] == tasks;
    var ms := Deferred(tasks);
    if Deferrable(t) {
      assert (ms + [MissionOf(t)])[..|ms|] == ms;
      DoAllAppend(d, Appends(ms), [Append(MissionOf(t))]);
    } else {
      assert ms + [] == ms;
    }
  }

  lemma NoneDrained(p: Program, envs: nat -> Env)
    ensures Drained(p, 0, envs) == p.(draining := true)
  {
    assert p.list[..0] == [] && p.list[0..] == p.list;
  }

  /** A run leads along these states. */
  predicate Along(states: seq<Program>, run: seq<Move>) {
    |states| == |run| + 1 && forall k | 0 <= k < |run| :: Step(states[k], run[k]) == states[k + 1]
  }

  lemma {:induction false} ExecAlong(states: seq<Program>, run: seq<Move>)
    requires Along(states, run)
    ensures Exec(states[0], run) == states[|run|]
    decreases run
  {
    if run != [] {
      ExecAlong(states[1..], run[1..]);
    }
  }

  lemma DrainTurns(p: Program, envs: nat -> Env)
    requires |p.list| < WRAP
    ensures Exec(Drained(p, 0, envs), DrainOnes(|p.list|, envs)) == Drained(p, |p.list|, envs)
  {
    var n := |p.list|;
    var states := seq(n + 1, k requires 0 <= k <= n => Drained(p, k, envs));
    forall k | 0 <= k < n
      ensures Step(states[k], DrainOnes(n, envs)[k]) == states[k + 1]
    {
      DrainTurn(p, k, envs);
    }
    ExecAlong(states, DrainOnes(n, envs));
  }

  lemma ExecBetween(p: Program, first: Move, mid: seq<Move>, last: Move, q: Program, r: Program)
    requires Step(p, first) == q && Exec(q, mid) == r
    ensures Exec(p, [first] + mid + [last]) == Step(r, last)
  {
    ExecAppend(p, [first] + mid, [last]);
    ExecAppend(p, [first], mid);
    ExecOne(p, first);
    ExecOne(r, last);
  }

  lemma DrainEnds(p: Program, envs: nat -> Env)
    ensures Step(Drained(p, |p.list|, envs), DrainEnd) ==
            p.(disk := DoAll(p.disk, Appends(Deferred(p.list))), list := [], draining := false,
               log := LogAfter(p.log, p.list, |p.list|, envs))
  {
    assert p.list[..|p.list|] == p.list && p.list[|p.list|..] == [];
  }

  /**
   * An undisturbed drain is the drain loop's own call: every task on the list is attempted in order, the list is left
   * empty and the mutex free, and the deferred tasks are on the file.
   */
  lemma DrainIsOneCall(p: Program, envs: nat -> Env)
    requires !p.disk.phase.Loading? && |p.list| < WRAP
    ensures Exec(p, [DrainBegin] + DrainOnes(|p.list|, envs) + [DrainEnd]) ==
            p.(disk := DoAll(p.disk, Appends(Deferred(p.list))), list := [], draining := false,
               log := LogAfter(p.log, p.list, |p.list|, envs))
  {
    NoneDrained(p, envs);
    DrainTurns(p, envs);
    ExecBetween(p, DrainBegin, DrainOnes(|p.list|, envs), DrainEnd, Drained(p, 0, envs), Drained(p, |p.list|, envs));
    DrainEnds(p, envs);
  }

  // ---- a whole timer call

  function TimerMoves(ops: seq<Op>, junk: Task): seq<Move> {
    seq(|ops|, i requires 0 <= i < |ops| => Timer(ops[i], junk))
  }

  function ReleasedAs(scans: seq<Scan>, junk: Task): seq<Task> {
    seq(|scans|, i requires 0 <= i < |scans| => ReleasedTask(scans[i], junk))
  }

  /** The tasks put on the list are those of the lines read since. */
  predicate Releases(p: Program, e: Program, junk: Task) {
    && p.disk.released <= e.disk.released
    && e.list == p.list + ReleasedAs(e.disk.released[|p.disk.released|..], junk)
    && e.draining == p.draining && e.log == p.log
  }

  lemma TimerStep(p: Program, o: Op, junk: Task)
    requires !o.Append? && (p.draining ==> !o.TakeLock?)
    ensures Step(p, Timer(o, junk)).disk == Do(p.disk, o) && Releases(p, Step(p, Timer(o, junk)), junk)
  {
  }

  lemma ReleasesJoin(p: Program, q: Program, e: Program, junk: Task)
    requires Releases(p, q, junk) && Releases(q, e, junk)
    ensures Releases(p, e, junk)
  {
    var a, b, c := p.disk.released, q.disk.released, e.disk.released;
    assert c[|a|..] == b[|a|..] + c[|b|..];
    assert ReleasedAs(c[|a|..], junk) == ReleasedAs(b[|a|..], junk) + ReleasedAs(c[|b|..], junk);
  }

  /**
   * The timer's operations take their course, though it cannot take the mutex from a drain under way, and each line
   * read puts its task on the list.
   */
  lemma {:induction false} TimerRuns(p: Program, ops: seq<Op>, junk: Task)
    requires NoAppend(ops) && (p.draining ==> forall o <- ops :: !o.TakeLock?)
    ensures var e := Exec(p, TimerMoves(ops, junk)); e.disk == DoAll(p.disk, ops) && Releases(p, e, junk)
    decreases ops
  {
    if ops == [] {
      assert p.list + [] == p.list;
    } else {
      assert ops[0] in ops && forall o <- ops[1..] :: o in ops;
      var q := Step(p, Timer(ops[0], junk));
      TimerStep(p, ops[0], junk);
      TimerRuns(q, ops[1..], junk);
      assert TimerMoves(ops, junk)[1..] == TimerMoves(ops[1..], junk);
      ReleasesJoin(p, q, Exec(q, TimerMoves(ops[1..], junk)), junk);
    }
  }

  // ---- from the heartbeat to the second drain

  function DrainCall(n: nat, envs: nat -> Env): seq<Move> {
    [DrainBegin] + DrainOnes(n, envs) + [DrainEnd]
  }

  /** Between the first drain and the second: the file as the drain wrote it is read back. */
  lemma RebootInProgram(p: Program, tasks: seq<Task>, before: string, after: string, junk: Task)
    requires p.disk == DoAll(OldDisk([], before), Appends(Deferred(tasks))) && !p.draining && p.list == []
    requires 0 < |Waiting(tasks)| <= 255 && !(before <= after) && !(after <= before) && CleanField(before)
    requires forall t <- Waiting(tasks) :: CleanField(t.url) && CleanField(t.md5) && CleanField(t.kind)
    ensures var e := Exec(p, TimerMoves(TimerCall(|Waiting(tasks)|, after), junk));
      && e.list == Restored(Waiting(tasks)) && e.log == p.log && !e.draining
      && e.disk.file == [] && e.disk.upTime == after && e.disk.phase.Idle?
  {
    var ms, d := Deferred(tasks), OldDisk([], before);
    var ops := TimerCall(|ms|, after);
    ReturnedAreWaiting(tasks);
    WaitingCarried(tasks, before);
    InsertsOnly(|ms|);
    TimerRuns(p, ops, junk);
    DoAllAppend(d, Appends(ms), ops);
    AppendsReleaseNothing(d, ms);
    RebootReleasesText(ms, before, after);
    ReadTasks(DoAll(p.disk, ops).released, ms, i => junk);
    assert ReleasedAs(DoAll(p.disk, ops).released, junk) == ReleasedTasks(DoAll(p.disk, ops).released, i => junk);
  }

  lemma {:induction false} AppendsReleaseNothing(d: Disk, ms: seq<Mission>)
    ensures DoAll(d, Appends(ms)).released == d.released
  {
    if ms != [] {
      var front, m := ms[..|ms| - 1], ms[|ms| - 1];
      AppendsReleaseNothing(d, front);
      DoAllAppend(d, Appends(front), [Append(m)]);
      DoOne(DoAll(d, Appends(front)), Append(m), []);
      assert [Append(m)] + [] == [Append(m)];
    }
  }

  /** The moves of a whole cycle: heartbeat, drain, boot change and timer call, drain. */
  function Cycle(ms: seq<Mission>, later: nat, after: string, junk: Task, envs: nat -> Env, again: nat -> Env)
    : seq<Move>
  {
    ([Heartbeat(ms)] + DrainCall(|ms|, envs)) + (TimerMoves(TimerCall(later, after), junk) + DrainCall(later, again))
  }

  lemma FirstHalf(ms: seq<Mission>, before: string, envs: nat -> Env)
    requires |ms| < WRAP
    ensures var tasks, p := Fresh(ms), Starting([], before);
      Exec(p, [Heartbeat(ms)] + DrainCall(|ms|, envs)) ==
      p.(disk := DoAll(p.disk, Appends(Deferred(tasks))), log := LogAfter([], tasks, |ms|, envs), queued := tasks)
  {
    var tasks, p := Fresh(ms), Starting([], before);
    HeartbeatFills(p, ms);
    ExecThen(p, Heartbeat(ms), DrainCall(|ms|, envs));
    DrainIsOneCall(p.(list := tasks, queued := tasks), envs);
  }

  lemma HeartbeatFills(p: Program, ms: seq<Mission>)
    requires p.disk.phase.Idle? && !p.draining && p.list == p.queued == []
    ensures Step(p, Heartbeat(ms)) == p.(list := Fresh(ms), queued := Fresh(ms))
  {
    assert [] + Fresh(ms) == Fresh(ms);
  }

  lemma ExecThen(p: Program, a: Move, rest: seq<Move>)
    ensures Exec(p, [a] + rest) == Exec(Step(p, a), rest)
  {
    assert ([a] + rest)[1..] == rest;
  }

  lemma {:induction false} NoneDeferred(tasks: seq<Task>)
    requires forall t <- tasks :: !t.needed
    ensures Deferred(tasks) == []
  {
    if tasks != [] {
      var t := tasks[|tasks| - 1];
      assert t in tasks && forall u <- tasks[..|tasks| - 1] :: u in tasks;
      NoneDeferred(tasks[..|tasks| - 1]);
    }
  }

  /** A drain of tasks that came back from the file writes nothing. */
  lemma SecondDrain(p: Program, again: nat -> Env)
    requires p.disk.phase.Idle? && |p.list| < WRAP && forall t <- p.list :: !t.needed
    ensures var e := Exec(p, DrainCall(|p.list|, again));
      e.list == [] && Begun(e.log) == Begun(p.log) + p.list && e.disk == p.disk
  {
    NoneDeferred(p.list);
    DrainIsOneCall(p, again);
    EachBegunOnce(p.log, p.list, |p.list|, again);
    assert p.list[..|p.list|] == p.list;
  }

  lemma InThree(p: Program, a: seq<Move>, b: seq<Move>, c: seq<Move>, q: Program, r: Program)
    requires Exec(p, a) == q && Exec(q, b) == r
    ensures Exec(p, a + (b + c)) == Exec(r, c)
  {
    ExecAppend(p, a, b + c);
    ExecAppend(q, b, c);
  }

  lemma FirstBegun(ms: seq<Mission>, envs: nat -> Env)
    ensures Begun(LogAfter([], Fresh(ms), |ms|, envs)) == Fresh(ms)
  {
    EachBegunOnce([], Fresh(ms), |ms|, envs);
    assert Fresh(ms)[..|ms|] == Fresh(ms) && [] + Fresh(ms) == Fresh(ms);
  }

  /**
   * The whole way of a heartbeat's tasks, on one list and one file of text: all of them are taken up by the first
   * drain; those for the next reboot come back with every field as it was when the timer is called after the boot time
   * has changed, and are taken up a second time, in order; then list and file are empty.
   */
  lemma HeartbeatToReboot(ms: seq<Mission>, before: string, after: string, junk: Task,
                          envs: nat -> Env, again: nat -> Env)
    requires |ms| < WRAP && 0 < |Waiting(Fresh(ms))| <= 255
    requires !(before <= after) && !(after <= before) && CleanField(before)
    requires forall t <- Waiting(Fresh(ms)) :: CleanField(t.url) && CleanField(t.md5) && CleanField(t.kind)
    ensures var later := Waiting(Fresh(ms));
      var e := Exec(Starting([], before), Cycle(ms, |later|, after, junk, envs, again));
      Begun(e.log) == Fresh(ms) + Restored(later) && e.list == [] && e.disk.file == [] && e.disk.upTime == after
  {
    var p, later := Starting([], before), Waiting(Fresh(ms));
    var first, second := [Heartbeat(ms)] + DrainCall(|ms|, envs), TimerMoves(TimerCall(|later|, after), junk);
    var q := Exec(p, first);
    FirstHalf(ms, before, envs);
    RebootInProgram(q, Fresh(ms), before, after, junk);
    var r := Exec(q, second);
    SecondDrain(r, again);
    FirstBegun(ms, envs);
    InThree(p, first, second, DrainCall(|later|, again), q, r);
  }
}
