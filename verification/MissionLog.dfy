/**
 * The life of `NEXT_REBOOT` tasks over every run, with lines of the mission file as records: the drain thread
 * appends tasks with the present boot stamp, heartbeats may bring another stamp, and the reboot timer releases the
 * file once the stamp of its oldest line differs. The timer holds the task mutex only while it inserts into the
 * list, so its count, its check and its removal of the file are steps of their own.
 */
module MissionLog {
  import opened MissionText

  /** A line of the file: the task, the stamp it carries, and which reading of the boot time that was. */
  datatype Entry = Entry(mission: Mission, stamp: string, boot: nat)

  /** Where `reboot_upgrade_task_cb` stands; `counted` is how many lines the file had when `wc` ran. */
  datatype Phase =
    | Idle
    | Counted(num: nat, counted: nat)
    | Ready(num: nat, counted: nat)
    | Loading(num: nat, counted: nat, i: nat)
    | Loaded(num: nat, counted: nat)

  /** What became of a task whose line was removed with the file. */
  datatype Fate = Fate(mission: Mission, released: bool)

  /**
   * `upTime` is `base_info->up_time` and `boot` counts how often it has changed; what was recorded and released, and
   * the fates of removed lines, are histories.
   */
  datatype State = State(
    onFile: seq<Entry>, upTime: string, boot: nat, phase: Phase,
    recorded: seq<Mission>, released: seq<Mission>, archive: seq<Fate>)

  datatype Action = Record(m: Mission) | SetUpTime(stamp: string) | Count | Check | Lock | Load | Remove

  /** The drain thread appends a line; it holds the mutex, so never while the timer loads. */
  function RecordStep(s: State, m: Mission): State {
    if s.phase.Loading? then s
    else s.(recorded := s.recorded + [m], onFile := s.onFile + [Entry(m, s.upTime, s.boot)])
  }

  /** A heartbeat reads the boot time, on the timer's own thread; any text, also one that was read before. */
  function SetUpTimeStep(s: State, stamp: string): State {
    if s.phase.Idle? && Differs(stamp, s.upTime) then s.(upTime := stamp, boot := s.boot + 1) else s
  }

  /** `wc -l`, read into an 8-bit number. */
  function CountStep(s: State): State {
    if s.phase.Idle? && s.onFile != [] then s.(phase := Counted(|s.onFile| % 0x100, |s.onFile|)) else s
  }

  /** Does the stamp of the oldest line differ from the present one? */
  function CheckStep(s: State): State {
    if !s.phase.Counted? || s.onFile == [] then s
    else if Differs(s.onFile[0].stamp, s.upTime) then s.(phase := Ready(s.phase.num, s.phase.counted))
    else s.(phase := Idle)
  }

  function LockStep(s: State): State {
    if s.phase.Ready? then s.(phase := Loading(s.phase.num, s.phase.counted, 0)) else s
  }

  /** One turn of the loading loop, or the unlock after it. */
  function LoadStep(s: State): State {
    if !s.phase.Loading? then s
    else if s.phase.i >= s.phase.num then s.(phase := Loaded(s.phase.num, s.phase.counted))
    else if s.phase.i >= |s.onFile| then s
    else s.(released := s.released + [s.onFile[s.phase.i].mission], phase := s.phase.(i := s.phase.i + 1))
  }

  /** The fates decided by removing the file after `num` lines were loaded. */
  function Fates(es: seq<Entry>, num: nat): seq<Fate> {
    seq(|es|, i requires 0 <= i < |es| => Fate(es[i].mission, i < num))
  }

  /** `rm -rf` of the file, whatever it holds by now. */
  function RemoveStep(s: State): State {
    if s.phase.Loaded? then s.(onFile := [], archive := s.archive + Fates(s.onFile, s.phase.num), phase := Idle) else s
  }

  function Step(s: State, a: Action): State {
    match a
    case Record(m) => RecordStep(s, m)
    case SetUpTime(stamp) => SetUpTimeStep(s, stamp)
    case Count => CountStep(s)
    case Check => CheckStep(s)
    case Lock => LockStep(s)
    case Load => LoadStep(s)
    case Remove => RemoveStep(s)
  }

  /** A process starts with whatever file the last one left, its lines counted as recorded and from an earlier boot. */
  function Started(file: seq<Entry>, upTime: string): State {
    State(file, upTime, 1, Idle, TasksOf(file), [], [])
  }

  predicate FromEarlier(file: seq<Entry>) {
    forall i | 0 <= i < |file| :: file[i].boot == 0
  }

  // ---- invariant

  function TasksOf(es: seq<Entry>): seq<Mission> {
    if es == [] then [] else TasksOf(es[..|es| - 1]) + [es[|es| - 1].mission]
  }

  function Archived(fs: seq<Fate>): seq<Mission> {
    if fs == [] then [] else Archived(fs[..|fs| - 1]) + [fs[|fs| - 1].mission]
  }

  function Released(fs: seq<Fate>): seq<Mission> {
    if fs == [] then []
    else Released(fs[..|fs| - 1]) + (if fs[|fs| - 1].released then [fs[|fs| - 1].mission] else [])
  }

  /** Boots along the file never go down, none is from the future, and lines of the present boot carry its stamp. */
  predicate BootsInOrder(es: seq<Entry>, boot: nat, upTime: string) {
    && (forall i | 0 <= i < |es| :: es[i].boot <= boot && (es[i].boot == boot ==> es[i].stamp == upTime))
    && (forall i, j | 0 <= i < j < |es| :: es[i].boot <= es[j].boot)
  }

  predicate PhaseOk(s: State) {
    !s.phase.Idle? ==>
      && 1 <= s.phase.counted <= |s.onFile| && s.phase.num == s.phase.counted % 0x100
      && (!s.phase.Counted? ==> Differs(s.onFile[0].stamp, s.upTime))
      && (s.phase.Loading? ==> s.phase.i <= s.phase.num)
  }

  /** How many lines of the present file are already on the list. */
  function LoadedSoFar(p: Phase): nat {
    match p
    case Loading(_, _, i) => i
    case Loaded(num, _) => num
    case _ => 0
  }

  predicate Inv(s: State) {
    && BootsInOrder(s.onFile, s.boot, s.upTime)
    && PhaseOk(s) && LoadedSoFar(s.phase) <= |s.onFile|
    && s.recorded == Archived(s.archive) + TasksOf(s.onFile)
    && s.released == Released(s.archive) + TasksOf(s.onFile[..LoadedSoFar(s.phase)])
  }

  lemma TasksAppend(a: seq<Entry>, e: Entry)
    ensures TasksOf(a + [e]) == TasksOf(a) + [e.mission]
  {
    assert (a + [e])[..|a|] == a;
  }

  lemma RecordKeepsInv(s: State, m: Mission)
    requires Inv(s)
    ensures Inv(RecordStep(s, m))
  {
    var e, k := Entry(m, s.upTime, s.boot), LoadedSoFar(s.phase);
    TasksAppend(s.onFile, e);
    assert (s.onFile + [e])[..k] == s.onFile[..k];
  }

  lemma TasksNext(es: seq<Entry>, i: nat)
    requires i < |es|
    ensures TasksOf(es[..i + 1]) == TasksOf(es[..i]) + [es[i].mission]
  {
    assert es[..i + 1] == es[..i] + [es[i]];
    TasksAppend(es[..i], es[i]);
  }

  lemma LoadKeepsInv(s: State)
    requires Inv(s)
    ensures Inv(LoadStep(s))
  {
    if s.phase.Loading? && s.phase.i < s.phase.num {
      TasksNext(s.onFile, s.phase.i);
    }
  }

  lemma ArchivePush(a: seq<Fate>, f: Fate)
    ensures Archived(a + [f]) == Archived(a) + [f.mission]
    ensures Released(a + [f]) == Released(a) + (if f.released then [f.mission] else [])
  {
    assert (a + [f])[..|a|] == a;
  }

  lemma FatesPush(archive: seq<Fate>, es: seq<Entry>, num: nat)
    requires es != []
    ensures var k := |es| - 1;
      archive + Fates(es, num) == archive + Fates(es[..k], num) + [Fate(es[k].mission, k < num)]
  {
  }

  lemma {:induction false} FatesArchived(archive: seq<Fate>, es: seq<Entry>, num: nat)
    ensures Archived(archive + Fates(es, num)) == Archived(archive) + TasksOf(es)
  {
    if es == [] {
      assert archive + Fates(es, num) == archive;
    } else {
      var k := |es| - 1;
      FatesArchived(archive, es[..k], num);
      FatesPush(archive, es, num);
      ArchivePush(archive + Fates(es[..k], num), Fate(es[k].mission, k < num));
    }
  }

  /** The first `num` lines, or all of them. */
  function Upto(es: seq<Entry>, num: nat): seq<Entry> {
    es[..if num < |es| then num else |es|]
  }

  lemma UptoPush(es: seq<Entry>, num: nat)
    requires es != []
    ensures var k := |es| - 1;
      TasksOf(Upto(es, num)) == TasksOf(Upto(es[..k], num)) + (if k < num then [es[k].mission] else [])
  {
    var k := |es| - 1;
    if k < num {
      assert Upto(es, num) == es && Upto(es[..k], num) == es[..k];
    } else {
      assert Upto(es, num) == Upto(es[..k], num);
    }
  }

  lemma Regroup(a: seq<Mission>, b: seq<Mission>, c: seq<Mission>)
    ensures a + b + c == a + (b + c)
  {
  }

  lemma {:induction false} FatesReleased(archive: seq<Fate>, es: seq<Entry>, num: nat)
    ensures Released(archive + Fates(es, num)) == Released(archive) + TasksOf(Upto(es, num))
  {
    if es == [] {
      assert archive + Fates(es, num) == archive;
    } else {
      var k := |es| - 1;
      FatesReleased(archive, es[..k], num);
      FatesPush(archive, es, num);
      ArchivePush(archive + Fates(es[..k], num), Fate(es[k].mission, k < num));
      UptoPush(es, num);
      Regroup(Released(archive), TasksOf(Upto(es[..k], num)), if k < num then [es[k].mission] else []);
    }
  }

  lemma RemoveKeepsInv(s: State)
    requires Inv(s)
    ensures Inv(RemoveStep(s))
  {
    if s.phase.Loaded? {
      FatesArchived(s.archive, s.onFile, s.phase.num);
      FatesReleased(s.archive, s.onFile, s.phase.num);
      var none: seq<Entry> := [];
      assert none[..0] == [] && TasksOf(none) == [];
    }
  }

  lemma StepKeepsInv(s: State, a: Action)
    requires Inv(s)
    ensures Inv(Step(s, a))
  {
    match a
    case Record(m) => RecordKeepsInv(s, m);
    case SetUpTime(_) | Count | Check | Lock =>
    case Load => LoadKeepsInv(s);
    case Remove => RemoveKeepsInv(s);
  }

  function Exec(s: State, run: seq<Action>): State
    decreases run
  {
    if run == [] then s else Exec(Step(s, run[0]), run[1..])
  }

  lemma {:induction false} ExecAppend(s: State, a: seq<Action>, b: seq<Action>)
    ensures Exec(s, a + b) == Exec(Exec(s, a), b)
    decreases a
  {
    if a == [] {
      assert a + b == b;
    } else {
      assert (a + b)[1..] == a[1..] + b;
      ExecAppend(Step(s, a[0]), a[1..], b);
    }
  }

  lemma {:induction false} ExecKeepsInv(s: State, run: seq<Action>)
    requires Inv(s)
    ensures Inv(Exec(s, run))
    decreases run
  {
    if run != [] {
      StepKeepsInv(s, run[0]);
      ExecKeepsInv(Step(s, run[0]), run[1..]);
    }
  }

  // ---- conservation

  predicate NothingLost(archive: seq<Fate>) {
    forall i | 0 <= i < |archive| :: archive[i].released
  }

  lemma {:induction false} ReleasedIsArchivedIff(archive: seq<Fate>)
    ensures |Released(archive)| <= |Archived(archive)| == |archive|
    ensures NothingLost(archive) ==> Released(archive) == Archived(archive)
    ensures !NothingLost(archive) ==> |Released(archive)| < |archive|
  {
    if archive != [] {
      var front := archive[..|archive| - 1];
      ReleasedIsArchivedIff(front);
      assert archive == front + [archive[|archive| - 1]];
      assert NothingLost(front) && archive[|archive| - 1].released ==> NothingLost(archive);
      if NothingLost(archive) {
        assert forall i | 0 <= i < |front| :: front[i] == archive[i];
      }
    }
  }

  lemma IdleReleased(s: State)
    requires Inv(s) && s.phase.Idle?
    ensures s.released == Released(s.archive)
  {
    assert s.onFile[..0] == [];
  }

  /** Between timer calls, the account balances exactly when no line was ever removed unread. */
  lemma BalanceIff(s: State)
    requires Inv(s) && s.phase.Idle?
    ensures s.recorded == s.released + TasksOf(s.onFile) <==> NothingLost(s.archive)
  {
    ReleasedIsArchivedIff(s.archive);
    IdleReleased(s);
    if !NothingLost(s.archive) {
      assert |s.released + TasksOf(s.onFile)| < |s.recorded|;
    }
  }

  /**
   * A removal loses nothing exactly when at most 255 lines had been counted and none was recorded since: the 8-bit line
   * counter and the window between `wc` and `rm` are the only two ways to lose a task.
   */
  lemma RemovalLosesNothingIff(s: State)
    requires Inv(s) && s.phase.Loaded?
    ensures NothingLost(Fates(s.onFile, s.phase.num)) <==> s.phase.counted <= 255 && |s.onFile| == s.phase.counted
  {
    var es, num := s.onFile, s.phase.num;
    if num < |es| {
      assert !Fates(es, num)[num].released;
    }
  }

  /** A removal of the file for which fewer lines were loaded than it has by now. */
  predicate Unsafe(s: State, a: Action) {
    a.Remove? && s.phase.Loaded? && !(s.phase.counted <= 255 && |s.onFile| == s.phase.counted)
  }

  /** Over a run the file is only removed when at most 255 lines had been counted and none was recorded since. */
  predicate Undisturbed(s: State, run: seq<Action>)
    decreases run
  {
    run == [] || (!Unsafe(s, run[0]) && Undisturbed(Step(s, run[0]), run[1..]))
  }

  lemma NothingLostAppend(a: seq<Fate>, b: seq<Fate>)
    ensures NothingLost(a + b) <==> NothingLost(a) && NothingLost(b)
  {
    if NothingLost(a + b) {
      assert forall i | 0 <= i < |a| :: a[i] == (a + b)[i];
      assert forall i | 0 <= i < |b| :: b[i] == (a + b)[|a| + i];
    }
  }

  lemma StepLosesIff(s: State, a: Action)
    requires Inv(s)
    ensures NothingLost(Step(s, a).archive) <==> NothingLost(s.archive) && !Unsafe(s, a)
  {
    if a.Remove? && s.phase.Loaded? {
      RemovalLosesNothingIff(s);
      NothingLostAppend(s.archive, Fates(s.onFile, s.phase.num));
    }
  }

  lemma {:induction false} RunLosesIff(s: State, run: seq<Action>)
    requires Inv(s)
    ensures NothingLost(Exec(s, run).archive) <==> NothingLost(s.archive) && Undisturbed(s, run)
    decreases run
  {
    if run != [] {
      StepKeepsInv(s, run[0]);
      StepLosesIff(s, run[0]);
      RunLosesIff(Step(s, run[0]), run[1..]);
    }
  }

  lemma StartedInv(file: seq<Entry>, upTime: string)
    requires FromEarlier(file)
    ensures Inv(Started(file, upTime))
  {
    assert file[..0] == [];
  }

  /**
   * Over every run, whatever the file held at the start: tasks recorded are, in order, those whose lines were removed
   * and those on file; boots along the file never go down; and between timer calls recorded == released ++ on file
   * if and only if the file was only removed when at most 255 lines had been counted and none was added since.
   */
  lemma MissionsConservedIff(file: seq<Entry>, upTime: string, run: seq<Action>)
    requires FromEarlier(file)
    ensures var s := Started(file, upTime); var e := Exec(s, run);
      && BootsInOrder(e.onFile, e.boot, e.upTime)
      && e.recorded == Archived(e.archive) + TasksOf(e.onFile)
      && (e.phase.Idle? ==> (e.recorded == e.released + TasksOf(e.onFile) <==> Undisturbed(s, run)))
  {
    var s := Started(file, upTime);
    StartedInv(file, upTime);
    ExecKeepsInv(s, run);
    RunLosesIff(s, run);
    if Exec(s, run).phase.Idle? {
      BalanceIff(Exec(s, run));
    }
  }

  lemma WindowRun(early: Mission, late: Mission, before: string, after: string)
    requires Differs(before, after) && Differs(after, before)
    ensures var run := [Record(early), SetUpTime(after), Count, Check, Record(late), Lock, Load, Load, Remove];
      var e := Exec(Started([], before), run);
      e.phase.Idle? && e.recorded == [early, late] && e.released == [early] && e.onFile == []
  {
    var start, old1, new1 := Started([], before), Entry(early, before, 1), Entry(late, after, 2);
    var counted := State([old1], after, 2, Counted(1, 1), [early], [], []);
    var locked := State([old1, new1], after, 2, Loading(1, 1, 0), [early, late], [], []);
    var tail3, tail6: seq<Action> := [Load, Load, Remove], [Check, Record(late), Lock, Load, Load, Remove];
    ThreeSteps(start, Record(early), SetUpTime(after), Count, tail6);
    assert CountStep(SetUpTimeStep(RecordStep(start, early), after)) == counted;
    ThreeSteps(counted, Check, Record(late), Lock, tail3);
    assert LockStep(RecordStep(CheckStep(counted), late)) == locked;
    ThreeSteps(locked, Load, Load, Remove, []);
    assert [Record(early), SetUpTime(after), Count] + tail6 ==
           [Record(early), SetUpTime(after), Count, Check, Record(late), Lock, Load, Load, Remove];
    assert [Check, Record(late), Lock] + tail3 == tail6 && [Load, Load, Remove] + [] == tail3;
  }

  /** The smallest loss: one task recorded between the count and the removal is neither released nor on file. */
  lemma WindowLosesATask(early: Mission, late: Mission, before: string, after: string)
    requires !(before <= after) && !(after <= before)
    ensures var run := [Record(early), SetUpTime(after), Count, Check, Record(late), Lock, Load, Load, Remove];
      var e := Exec(Started([], before), run);
      e.phase.Idle? && e.recorded == [early, late] && e.released == [early] && e.onFile == []
  {
    WindowRun(early, late, before, after);
  }

  lemma FirstStep(s: State, a: Action, rest: seq<Action>)
    ensures Exec(s, [a] + rest) == Exec(Step(s, a), rest)
  {
    assert ([a] + rest)[1..] == rest;
  }

  lemma ThreeSteps(s: State, a: Action, b: Action, c: Action, rest: seq<Action>)
    ensures Exec(s, [a, b, c] + rest) == Exec(Step(Step(Step(s, a), b), c), rest)
  {
    FirstStep(s, a, [b, c] + rest);
    FirstStep(Step(s, a), b, [c] + rest);
    FirstStep(Step(Step(s, a), b), c, rest);
    assert [a, b, c] + rest == [a] + ([b, c] + rest) && [b, c] + rest == [b] + ([c] + rest);
  }

  // ---- gating by the boot

  /** Nothing is put on the list unless the oldest line is from an earlier boot, with another stamp than the present. */
  lemma ReleaseOnlyAfterReboot(s: State, a: Action)
    requires Inv(s) && Step(s, a).released != s.released
    ensures s.onFile != [] && s.onFile[0].boot < s.boot && !(s.onFile[0].stamp <= s.upTime)
  {
  }

  /** No line's stamp differs from the present one, and the timer has not decided to release. */
  predicate Quiet(s: State) {
    (s.phase.Idle? || s.phase.Counted?) && forall i | 0 <= i < |s.onFile| :: !Differs(s.onFile[i].stamp, s.upTime)
  }

  /** A heartbeat that brings the stamp already known. */
  predicate KeepsUpTime(a: Action, upTime: string) {
    a.SetUpTime? ==> !Differs(a.stamp, upTime)
  }

  lemma QuietStep(s: State, a: Action)
    requires Quiet(s) && KeepsUpTime(a, s.upTime)
    ensures Quiet(Step(s, a)) && Step(s, a).released == s.released && Step(s, a).upTime == s.upTime
  {
  }

  /** From then on nothing is released until the stamp changes, whatever is recorded meanwhile. */
  lemma {:induction false} QuietUntilReboot(s: State, run: seq<Action>)
    requires Quiet(s) && forall i | 0 <= i < |run| :: KeepsUpTime(run[i], s.upTime)
    ensures Exec(s, run).released == s.released && Quiet(Exec(s, run))
    decreases run
  {
    if run != [] {
      QuietStep(s, run[0]);
      assert forall i | 0 <= i < |run[1..]| :: run[1..][i] == run[i + 1];
      QuietUntilReboot(Step(s, run[0]), run[1..]);
    }
  }

  /** `n` turns of the loading loop. */
  function Loads(n: nat): seq<Action> {
    if n == 0 then [] else [Load] + Loads(n - 1)
  }

  /** The state once every counted line is loaded. */
  function AllLoaded(s: State): State
    requires s.phase.Loading? && s.phase.num <= |s.onFile|
  {
    s.(phase := s.phase.(i := s.phase.num), released := Released(s.archive) + TasksOf(s.onFile[..s.phase.num]))
  }

  lemma LoadAdvances(s: State)
    requires Inv(s) && s.phase.Loading? && s.phase.i < s.phase.num
    ensures var t := LoadStep(s);
      Inv(t) && t.phase == s.phase.(i := s.phase.i + 1) && AllLoaded(t) == AllLoaded(s)
  {
    LoadKeepsInv(s);
  }

  lemma NoneLeft(s: State)
    requires Inv(s) && s.phase.Loading? && s.phase.i == s.phase.num
    ensures AllLoaded(s) == s
  {
  }

  lemma {:induction false} LoadsRun(s: State, n: nat, rest: seq<Action>)
    requires Inv(s) && s.phase.Loading? && s.phase.num - s.phase.i == n
    ensures Exec(s, Loads(n) + rest) == Exec(AllLoaded(s), rest)
    decreases n
  {
    if n == 0 {
      NoneLeft(s);
      assert Loads(n) + rest == rest;
    } else {
      LoadAdvances(s);
      LoadsRun(LoadStep(s), n - 1, rest);
      FirstLoad(s, n, rest);
    }
  }

  lemma FirstLoad(s: State, n: nat, rest: seq<Action>)
    requires n > 0
    ensures Exec(s, Loads(n) + rest) == Exec(LoadStep(s), Loads(n - 1) + rest)
  {
    assert (Loads(n) + rest)[1..] == Loads(n - 1) + rest;
  }

  lemma DecisionSteps(s: State)
    requires Inv(s) && s.phase.Idle? && 0 < |s.onFile| <= 255 && Differs(s.onFile[0].stamp, s.upTime)
    ensures var d := s.(phase := Loading(|s.onFile|, |s.onFile|, 0)); Inv(d) && LockStep(CheckStep(CountStep(s))) == d
  {
  }

  lemma DecisionRun(s: State, rest: seq<Action>)
    requires Inv(s) && s.phase.Idle? && 0 < |s.onFile| <= 255 && Differs(s.onFile[0].stamp, s.upTime)
    ensures var d := s.(phase := Loading(|s.onFile|, |s.onFile|, 0));
      Inv(d) && Exec(s, [Count, Check, Lock] + rest) == Exec(d, rest)
  {
    ThreeSteps(s, Count, Check, Lock, rest);
    DecisionSteps(s);
  }

  lemma RemovalRun(s: State)
    ensures Exec(s, [Load, Remove]) == RemoveStep(LoadStep(s))
  {
    FirstStep(s, Load, [Remove]);
    FirstStep(LoadStep(s), Remove, []);
    assert [Load, Remove] == [Load] + [Remove] && [Remove] == [Remove] + [];
  }

  /** After a reboot, one undisturbed timer call releases every line of the file, in order, and removes the file. */
  lemma TimerCallReleasesAll(s: State)
    requires Inv(s) && s.phase.Idle? && 0 < |s.onFile| <= 255 && !(s.onFile[0].stamp <= s.upTime)
    ensures var e := Exec(s, [Count, Check, Lock] + (Loads(|s.onFile|) + [Load, Remove]));
      e.released == s.released + TasksOf(s.onFile) && e.onFile == [] && e.phase.Idle? && e.upTime == s.upTime
  {
    var n := |s.onFile|;
    var d := s.(phase := Loading(n, n, 0));
    DecisionRun(s, Loads(n) + [Load, Remove]);
    LoadsRun(d, n, [Load, Remove]);
    RemovalRun(AllLoaded(d));
    IdleReleased(s);
    assert s.onFile[..n] == s.onFile;
    AllReleased(d);
  }

  /** From the loaded file to its removal. */
  lemma AllReleased(d: State)
    requires d.phase.Loading? && d.phase.num == |d.onFile|
    ensures var e := RemoveStep(LoadStep(AllLoaded(d)));
      e.released == Released(d.archive) + TasksOf(d.onFile) && e.onFile == [] && e.phase.Idle? && e.upTime == d.upTime
  {
    assert d.onFile[..d.phase.num] == d.onFile;
  }
}
