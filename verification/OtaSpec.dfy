/**
 * One OTA task: download, digest check, upload, start, report. Shell, SSH and file system answers come from an
 * environment that may answer anything; what was done is an event log.
 */
module OtaSpec {
  import opened Bytes
  import opened OtaCollect

  const AT_ONCE := "AT_ONCE"
  const NEXT_REBOOT := "NEXT_REBOOT"
  const REBOOTED := "REBOOTED"

  /** `strstr(s, sub) != NULL`. */
  predicate Contains(s: string, sub: string) {
    sub <= s || (s != [] && Contains(s[1..], sub))
  }

  /** It finds `sub` exactly where `sub` is a contiguous part of `s`. */
  lemma {:induction false} ContainsIff(s: string, sub: string)
    ensures Contains(s, sub) <==> exists i | 0 <= i <= |s| :: sub <= s[i..]
  {
    assert s[0..] == s;
    if s != [] {
      ContainsIff(s[1..], sub);
      if i :| 0 < i <= |s| && sub <= s[i..] {
        assert s[1..][i - 1..] == s[i..];
      }
      if j :| 0 <= j <= |s[1..]| && sub <= s[1..][j..] {
        assert s[j + 1..] == s[1..][j..];
      }
    }
  }

  /** `md5sum` prints the digest, two spaces and the path. */
  function Md5Line(digest: string, path: string): string {
    digest + [' ', ' '] + path
  }

  lemma PartOfPart(s: string, front: string, back: string, sub: string)
    requires Contains(s, sub)
    ensures Contains(front + s + back, sub)
  {
    ContainsIff(s, sub);
    var i :| 0 <= i <= |s| && sub <= s[i..];
    var t := front + s + back;
    assert t[|front| + i..] == s[i..] + back;
    ContainsIff(t, sub);
  }

  /** A text without blanks that is found in the line lies in the digest or in the path. */
  lemma FoundInParts(digest: string, path: string, sub: string)
    requires ' ' !in sub && sub != [] && Contains(Md5Line(digest, path), sub)
    ensures Contains(digest, sub) || Contains(path, sub)
  {
    var line := Md5Line(digest, path);
    ContainsIff(line, sub);
    var i :| 0 <= i <= |line| && sub <= line[i..];
    forall q | i <= q < i + |sub|
      ensures line[q] != ' '
    {
      assert line[q] == line[i..][q - i] == sub[q - i];
    }
    assert line[|digest|] == ' ' && line[|digest| + 1] == ' ';
    assert i + |sub| <= |digest| || |digest| + 2 <= i;
    if i + |sub| <= |digest| {
      assert line[i..i + |sub|] == digest[i..i + |sub|] == sub;
      assert sub <= digest[i..];
      ContainsIff(digest, sub);
    } else {
      var j := i - |digest| - 2;
      assert line[i..] == path[j..];
      ContainsIff(path, sub);
    }
  }

  /** What the gate tests: an expected digest without blanks is part of the computed one or of the path. */
  lemma MatchIff(digest: string, path: string, md5: string)
    requires ' ' !in md5
    ensures Contains(Md5Line(digest, path), md5) <==> Contains(digest, md5) || Contains(path, md5)
  {
    if md5 == [] {
      assert md5 <= digest && md5 <= Md5Line(digest, path);
    } else if Contains(Md5Line(digest, path), md5) {
      FoundInParts(digest, path, md5);
    }
    if Contains(digest, md5) {
      PartOfPart(digest, [], [' ', ' '] + path, md5);
      assert [] + digest + ([' ', ' '] + path) == Md5Line(digest, path);
    }
    if Contains(path, md5) {
      PartOfPart(path, digest + [' ', ' '], [], md5);
      assert digest + [' ', ' '] + path + [] == Md5Line(digest, path);
    }
  }

  /** `struct FwDownInfo`; `needed` stands for `flag == FW_NEED_DOWNLOAD`. */
  datatype Task = Task(id: uint16, url: string, md5: string, kind: string, needed: bool)

  /**
   * What the outside answers while one task is worked on: `md5sum` outputs as text (`None` if the remote command
   * failed), the two separate looks for the `rt-a100` directory, and the success of each command.
   */
  datatype Env = Env(
    downloadOk: bool, localSum: string,
    dirAtTrans: bool, connectTrans: bool, mkdirOk: bool, uploadOk: bool, remoteSum: Option<string>, chattrOk: bool,
    dirAtUpdate: bool, connectUpdate: bool, upgradeOk: bool, collect: Answers)

  datatype Event =
    | Begin(task: Task)
    | Download(ok: bool)
    | MissionLine(task: Task)
    | LocalDigest(ok: bool)
    | RemoteDigest(ok: bool)
    | RunSh(id: uint16)
    | UpgradeSh(id: uint16)
    | Collected(id: uint16, deeds: seq<Deed>)
    | Report(id: uint16)
  {
    predicate Starts() {
      RunSh? || UpgradeSh?
    }
  }

  /** What a call returns, the task type it leaves in `pInfo->type`, and what it did. */
  datatype Outcome = Outcome(ret: int, kind: string, events: seq<Event>)

  /** The SSH part of `fkz9_fw_trans_func`: the first failing command ends it with -1. */
  function Upload(kind: string, md5: string, env: Env): Outcome {
    if !env.connectTrans || !env.mkdirOk || !env.uploadOk || env.remoteSum.None? then Outcome(-1, kind, [])
    else
      var ok := Contains(env.remoteSum.value, md5);
      Outcome(if ok && env.chattrOk then 0 else -1, kind, [RemoteDigest(ok)])
  }

  /** `fkz9_fw_trans_func`. A released task skips every check; a local mismatch clears the type and still returns 0. */
  function Trans(kind: string, md5: string, env: Env): Outcome {
    if Contains(kind, REBOOTED) then Outcome(0, AT_ONCE, [])
    else if !Contains(env.localSum, md5) then Outcome(0, "", [LocalDigest(false)])
    else if env.dirAtTrans then Outcome(0, kind, [LocalDigest(true)])
    else
      var up := Upload(kind, md5, env);
      up.(events := [LocalDigest(true)] + up.events)
  }

  /** `fkz9_fw_update_func`: only an `AT_ONCE` type starts anything. */
  function Update(id: uint16, kind: string, env: Env): Outcome {
    if !Contains(kind, AT_ONCE) then Outcome(0, kind, [])
    else if env.dirAtUpdate then Outcome(0, kind, [RunSh(id)])
    else if !env.connectUpdate then Outcome(-1, kind, [])
    else if !env.upgradeOk then Outcome(-1, kind, [UpgradeSh(id)])
    else
      var (ok, deeds) := Collect(env.collect);
      Outcome(if ok then 0 else -1, kind, [UpgradeSh(id), Collected(id, deeds)])
  }

  /** `do_upgrade_firmware`: a transfer failure ends the task before the update. */
  function Upgrade(id: uint16, kind: string, md5: string, env: Env): Outcome {
    var t := Trans(kind, md5, env);
    if t.ret != 0 then t
    else
      var u := Update(id, t.kind, env);
      u.(events := t.events + u.events)
  }

  /** What is done before the upgrade: download and mission line for a fresh task, nothing for a released one. */
  function Prepare(t: Task, env: Env): seq<Event> {
    [Begin(t)] +
    (if t.needed
     then [Download(env.downloadOk)] + (if Contains(t.kind, NEXT_REBOOT) then [MissionLine(t)] else [])
     else [])
  }

  /** The type a task goes into the upgrade with. */
  function StartKind(t: Task): string {
    if t.needed then t.kind else REBOOTED
  }

  /** One turn of the drain loop of `do_downlaod_firmware`. The download's own result is logged and not looked at. */
  function Attempt(t: Task, env: Env): seq<Event> {
    var up := Upgrade(t.id, StartKind(t), t.md5, env);
    Prepare(t, env) + up.events + (if up.ret == 0 then [Report(t.id)] else [])
  }

  /** A log continued by the first `n` tasks, the k-th in environment `envs(k)`. */
  function LogAfter(log: seq<Event>, tasks: seq<Task>, n: nat, envs: nat -> Env): seq<Event>
    requires n <= |tasks|
  {
    if n == 0 then log else LogAfter(log, tasks, n - 1, envs) + Attempt(tasks[n - 1], envs(n - 1))
  }

  function Flatten(log: seq<Event>, parts: seq<seq<Event>>): seq<Event> {
    if parts == [] then log else Flatten(log, parts[..|parts| - 1]) + parts[|parts| - 1]
  }

  function Parts(tasks: seq<Task>, n: nat, envs: nat -> Env): seq<seq<Event>>
    requires n <= |tasks|
  {
    seq(n, i requires 0 <= i < n => Attempt(tasks[i], envs(i)))
  }

  lemma {:induction false} LogAfterIsFlat(log: seq<Event>, tasks: seq<Task>, n: nat, envs: nat -> Env)
    requires n <= |tasks|
    ensures LogAfter(log, tasks, n, envs) == Flatten(log, Parts(tasks, n, envs))
  {
    if n != 0 {
      LogAfterIsFlat(log, tasks, n - 1, envs);
      assert Parts(tasks, n, envs)[..n - 1] == Parts(tasks, n - 1, envs);
    }
  }

  // ---- one task

  /** The digest is looked at: the task was not released from the mission file and does not call itself `REBOOTED`. */
  predicate Checked(t: Task) {
    t.needed && !Contains(t.kind, REBOOTED)
  }

  /** The task is to run at once, by its own type or because it was released. */
  predicate Immediate(t: Task) {
    Checked(t) ==> Contains(t.kind, AT_ONCE)
  }

  /** The update finds something to start. */
  predicate CanStart(env: Env) {
    env.dirAtUpdate || env.connectUpdate
  }

  /** Whatever the update starts succeeds. */
  predicate Succeeds(env: Env) {
    env.dirAtUpdate || (env.connectUpdate && env.upgradeOk && Collect(env.collect).0)
  }

  predicate LocalMatch(t: Task, env: Env) {
    Contains(env.localSum, t.md5)
  }

  predicate RemoteMatch(t: Task, env: Env) {
    env.remoteSum.Some? && Contains(env.remoteSum.value, t.md5)
  }

  /**
   * What the local gate is worth: for an expected digest of the right length, without blanks, it is passed exactly
   * by the file with that digest, or by any file whose path carries the expected digest itself.
   */
  lemma LocalMatchIff(t: Task, env: Env, digest: string, path: string)
    requires env.localSum == Md5Line(digest, path) && ' ' !in t.md5 && |t.md5| == |digest|
    ensures LocalMatch(t, env) <==> t.md5 == digest || Contains(path, t.md5)
  {
    MatchIff(digest, path, t.md5);
    ContainsIff(digest, t.md5);
    if i :| 0 <= i <= |digest| && t.md5 <= digest[i..] {
      assert i == 0 || t.md5 == [];
    }
  }

  /** The transfer got through: a self-update unpacked locally, or every SSH command succeeded on a matching copy. */
  predicate Transferred(t: Task, env: Env) {
    env.dirAtTrans || (env.connectTrans && env.mkdirOk && env.uploadOk && RemoteMatch(t, env) && env.chattrOk)
  }

  predicate StartsSomething(events: seq<Event>) {
    exists i | 0 <= i < |events| :: events[i].Starts()
  }

  lemma StartsInAppend(a: seq<Event>, b: seq<Event>)
    ensures StartsSomething(a + b) <==> StartsSomething(a) || StartsSomething(b)
  {
    if i :| 0 <= i < |a| && a[i].Starts() {
      assert (a + b)[i] == a[i];
    }
    if i :| 0 <= i < |b| && b[i].Starts() {
      assert (a + b)[|a| + i] == b[i];
    }
  }

  lemma StartsInOne(e: Event)
    ensures StartsSomething([e]) <==> e.Starts()
    ensures !StartsSomething([])
  {
    if e.Starts() {
      assert [e][0].Starts();
    }
  }

  lemma TransStartsNothing(kind: string, md5: string, env: Env)
    ensures !StartsSomething(Trans(kind, md5, env).events)
  {
  }

  lemma PrepareStartsNothing(t: Task, env: Env)
    ensures !StartsSomething(Prepare(t, env))
  {
  }

  lemma AttemptStarts(t: Task, env: Env)
    ensures var kind := StartKind(t);
      StartsSomething(Attempt(t, env)) <==>
      Trans(kind, t.md5, env).ret == 0 && StartsSomething(Update(t.id, Trans(kind, t.md5, env).kind, env).events)
  {
    var kind := StartKind(t);
    var tr, up := Trans(kind, t.md5, env), Upgrade(t.id, kind, t.md5, env);
    var u := Update(t.id, tr.kind, env);
    TransStartsNothing(kind, t.md5, env);
    PrepareStartsNothing(t, env);
    StartsInOne(Report(t.id));
    StartsInAppend(tr.events, u.events);
    StartsInAppend(Prepare(t, env), up.events);
    StartsInAppend(Prepare(t, env) + up.events, if up.ret == 0 then [Report(t.id)] else []);
  }

  lemma KindsAsLiterals()
    ensures !Contains("", AT_ONCE) && Contains(REBOOTED, REBOOTED) && Contains(AT_ONCE, AT_ONCE)
  {
  }

  lemma UpdateStartsIff(id: uint16, kind: string, env: Env)
    ensures StartsSomething(Update(id, kind, env).events) <==> Contains(kind, AT_ONCE) && CanStart(env)
  {
    var events := Update(id, kind, env).events;
    if events == [] {
      StartsInOne(RunSh(id));
    } else {
      assert events[0].Starts();
    }
  }

  /** The task gets as far as the update, with a type to start at once. */
  predicate Reaches(t: Task, env: Env) {
    Immediate(t) && (Checked(t) ==> LocalMatch(t, env) && Transferred(t, env))
  }

  /**
   * Exactly when a task starts a script, in any environment, and which: `run.sh` of its own directory when `rt-a100`
   * is there for the update, else `upgrade.sh` for its own number.
   */
  lemma StartsIff(t: Task, env: Env)
    ensures StartsSomething(Attempt(t, env)) <==> Reaches(t, env) && CanStart(env)
    ensures RunSh(t.id) in Attempt(t, env) <==> Reaches(t, env) && env.dirAtUpdate
    ensures UpgradeSh(t.id) in Attempt(t, env) <==> Reaches(t, env) && !env.dirAtUpdate && env.connectUpdate
  {
    KindsAsLiterals();
    AttemptStarts(t, env);
    UpdateStartsIff(t.id, Trans(StartKind(t), t.md5, env).kind, env);
    StartedIff(RunSh(t.id), t, env);
    StartedIff(UpgradeSh(t.id), t, env);
  }

  /** The events of an update are in the log exactly when the transfer got through. */
  lemma StartedIff(e: Event, t: Task, env: Env)
    requires e.Starts() || e.Collected?
    ensures var tr := Trans(StartKind(t), t.md5, env);
      e in Attempt(t, env) <==> tr.ret == 0 && e in Update(t.id, tr.kind, env).events
  {
  }

  /** What an event of a task's log may say: it is about this task, and true of the environment. */
  predicate OwnEvent(e: Event, t: Task, env: Env) {
    match e
    case Begin(u) => u == t
    case Download(ok) => ok == env.downloadOk && t.needed
    case MissionLine(u) => u == t && t.needed
    case LocalDigest(ok) => ok == Contains(env.localSum, t.md5) && t.needed
    case RemoteDigest(ok) => env.remoteSum.Some? && ok == Contains(env.remoteSum.value, t.md5) && t.needed
    case RunSh(id) => id == t.id && env.dirAtUpdate
    case UpgradeSh(id) => id == t.id && !env.dirAtUpdate && env.connectUpdate
    case Collected(id, deeds) => id == t.id && !env.dirAtUpdate && env.upgradeOk && deeds == Collect(env.collect).1
    case Report(id) => id == t.id
  }

  lemma TransIsOwn(t: Task, env: Env)
    ensures forall e <- Trans(StartKind(t), t.md5, env).events :: OwnEvent(e, t, env)
  {
    KindsAsLiterals();
  }

  lemma UpdateIsOwn(t: Task, kind: string, env: Env)
    ensures forall e <- Update(t.id, kind, env).events :: OwnEvent(e, t, env)
  {
  }

  /** Every event in the log of a task is its own and true: no script, report or collection of another task. */
  lemma EventsAreOwn(t: Task, env: Env)
    ensures forall e <- Attempt(t, env) :: OwnEvent(e, t, env)
  {
    TransIsOwn(t, env);
    UpdateIsOwn(t, Trans(StartKind(t), t.md5, env).kind, env);
  }

  /** Exactly when the local digest is computed. */
  lemma LocalDigestIff(t: Task, env: Env)
    ensures (exists ok :: LocalDigest(ok) in Attempt(t, env)) <==> Checked(t)
  {
    KindsAsLiterals();
    DigestedIff(t, env, LocalDigest(true));
    DigestedIff(t, env, LocalDigest(false));
  }

  /** Exactly when the uploaded copy's digest is: after a local match, without `rt-a100`, when the upload worked. */
  lemma RemoteDigestIff(t: Task, env: Env)
    ensures (exists ok :: RemoteDigest(ok) in Attempt(t, env)) <==>
            && Checked(t) && LocalMatch(t, env) && !env.dirAtTrans
            && env.connectTrans && env.mkdirOk && env.uploadOk && env.remoteSum.Some?
  {
    KindsAsLiterals();
    DigestedIff(t, env, RemoteDigest(true));
    DigestedIff(t, env, RemoteDigest(false));
  }

  /** The files are collected exactly when `upgrade.sh` was started and worked. */
  lemma CollectedIff(t: Task, env: Env)
    ensures Collected(t.id, Collect(env.collect).1) in Attempt(t, env) <==>
            UpgradeSh(t.id) in Attempt(t, env) && env.upgradeOk
  {
    StartedIff(Collected(t.id, Collect(env.collect).1), t, env);
    StartedIff(UpgradeSh(t.id), t, env);
  }

  lemma DigestedIff(t: Task, env: Env, e: Event)
    requires e.LocalDigest? || e.RemoteDigest?
    ensures e in Attempt(t, env) <==> e in Trans(StartKind(t), t.md5, env).events
  {
  }

  /** None of the three type words is part of another. */
  lemma KindsApart()
    ensures !Contains("AT_ONCE", "NEXT_REBOOT") && !Contains("AT_ONCE", "REBOOTED")
    ensures !Contains("NEXT_REBOOT", "AT_ONCE") && !Contains("NEXT_REBOOT", "REBOOTED")
    ensures !Contains("REBOOTED", "AT_ONCE") && !Contains("REBOOTED", "NEXT_REBOOT")
  {
    AtOnceApart();
    NextRebootApart();
    RebootedApart();
  }

  lemma AtOnceApart()
    ensures !Contains("AT_ONCE", "NEXT_REBOOT") && !Contains("AT_ONCE", "REBOOTED")
  {
    NotPart("AT_ONCE", "NEXT_REBOOT");
    NotPart("AT_ONCE", "REBOOTED");
  }

  lemma NextRebootApart()
    ensures !Contains("NEXT_REBOOT", "AT_ONCE") && !Contains("NEXT_REBOOT", "REBOOTED")
  {
    NoAInNextReboot();
    EarlyPartOfNextReboot();
  }

  lemma NoAInNextReboot()
    ensures !Contains("NEXT_REBOOT", "AT_ONCE")
  {
    NotPart("NEXT_REBOOT", "AT_ONCE");
  }

  lemma EarlyPartOfNextReboot()
    ensures !Contains("NEXT_REBOOT", "REBOOTED")
  {
    assert "NEXT_REBOOT"[..4] == "NEXT";
    NotPart("NEXT_REBOOT", "REBOOTED");
  }

  lemma RebootedApart()
    ensures !Contains("REBOOTED", "AT_ONCE") && !Contains("REBOOTED", "NEXT_REBOOT")
  {
    NotPart("REBOOTED", "AT_ONCE");
    NotPart("REBOOTED", "NEXT_REBOOT");
  }

  lemma PartStarts(s: string, sub: string, i: nat)
    requires |sub| > 1 && i <= |s| && sub <= s[i..]
    ensures i <= |s| - |sub| && s[i] == sub[0] && s[i + 1] == sub[1]
  {
    assert s[i] == s[i..][0] && s[i + 1] == s[i..][1];
  }

  lemma NotPart(s: string, sub: string)
    requires |sub| > 1 && forall i | 0 <= i <= |s| - |sub| :: s[i] != sub[0] || s[i + 1] != sub[1]
    ensures !Contains(s, sub)
  {
    ContainsIff(s, sub);
    forall i | 0 <= i <= |s|
      ensures !(sub <= s[i..])
    {
      if sub <= s[i..] {
        PartStarts(s, sub, i);
      }
    }
  }

  /** What the three types are for, on tasks fresh from a heartbeat. */
  lemma ThreeKinds(t: Task, env: Env)
    requires t.needed
    ensures t.kind == "AT_ONCE" ==>
              MissionLine(t) !in Attempt(t, env) &&
              (StartsSomething(Attempt(t, env)) <==> LocalMatch(t, env) && Transferred(t, env) && CanStart(env))
    ensures t.kind == "NEXT_REBOOT" ==>
              MissionLine(t) in Attempt(t, env) && !StartsSomething(Attempt(t, env))
    ensures t.kind == "REBOOTED" ==>
              MissionLine(t) !in Attempt(t, env) && (StartsSomething(Attempt(t, env)) <==> CanStart(env))
  {
    KindsApart();
    KindsAsLiterals();
    StartsIff(t, env);
    RecordedIff(t, env);
  }

  /** A local mismatch starts nothing and is still reported; so is the mismatch itself, once. */
  lemma {:induction false} LocalMismatchIsReported(t: Task, env: Env)
    requires Checked(t) && !LocalMatch(t, env)
    ensures Attempt(t, env) == Prepare(t, env) + [LocalDigest(false), Report(t.id)]
    ensures !StartsSomething(Attempt(t, env))
  {
    StartsIff(t, env);
    KindsAsLiterals();
    assert Prepare(t, env) + [LocalDigest(false)] + [] + [Report(t.id)] ==
           Prepare(t, env) + [LocalDigest(false), Report(t.id)];
  }

  /** A failed transfer starts nothing and sends no report, whatever the type of the task. */
  lemma {:induction false} FailedTransferIsSilent(t: Task, env: Env)
    requires Checked(t) && LocalMatch(t, env) && !Transferred(t, env)
    ensures !StartsSomething(Attempt(t, env)) && Report(t.id) !in Attempt(t, env)
  {
    StartsIff(t, env);
  }

  /** The remote gate fails concretely: the directory is there at the first look and gone at the second. */
  lemma UncheckedUpgradeExists(t: Task)
    requires Checked(t) && Immediate(t)
    ensures exists env :: UpgradeSh(t.id) in Attempt(t, env) && RemoteDigest(true) !in Attempt(t, env)
  {
    var collect := Answers(false, false, [], false, [], false);
    var env := Env(true, t.md5, true, false, false, false, None, false, false, true, false, collect);
    ContainsSelf(t.md5);
    assert Upgrade(t.id, t.kind, t.md5, env).events == [LocalDigest(true), UpgradeSh(t.id)];
    assert Attempt(t, env)[|Prepare(t, env)| + 1] == UpgradeSh(t.id);
  }

  lemma ContainsSelf(s: string)
    ensures Contains(s, s)
  {
  }

  lemma UpgradeHasNeither(id: uint16, kind: string, md5: string, env: Env)
    ensures forall e <- Upgrade(id, kind, md5, env).events :: !e.Begin? && !e.Download? && !e.MissionLine? && !e.Report?
  {
  }

  /**
   * A task is downloaded exactly when it came from a heartbeat, and then written to the mission file exactly when
   * its type asks for the next reboot: whether the download worked, the digest matches or the transfer succeeds
   * plays no part. The line comes after the download, before anything else.
   */
  lemma RecordedIff(t: Task, env: Env)
    ensures Download(env.downloadOk) in Attempt(t, env) <==> t.needed
    ensures MissionLine(t) in Attempt(t, env) <==> t.needed && Contains(t.kind, NEXT_REBOOT)
    ensures MissionLine(t) in Attempt(t, env) ==>
              Attempt(t, env)[..3] == [Begin(t), Download(env.downloadOk), MissionLine(t)]
  {
    UpgradeHasNeither(t.id, StartKind(t), t.md5, env);
    var prep, log := Prepare(t, env), Attempt(t, env);
    assert forall e | e in log :: e in prep || e in Upgrade(t.id, StartKind(t), t.md5, env).events || e == Report(t.id);
    assert forall i | 0 <= i < |prep| :: log[i] == prep[i];
    if t.needed {
      assert prep[1] == Download(env.downloadOk);
      assert Contains(t.kind, NEXT_REBOOT) ==> prep[2] == MissionLine(t);
    }
  }

  /**
   * Exactly when a task is reported: it was refused for its local digest, or everything it needed worked. The report
   * is the last thing done, once.
   */
  lemma ReportedIff(t: Task, env: Env)
    ensures Report(t.id) in Attempt(t, env) <==>
            || (Checked(t) && !LocalMatch(t, env))
            || ((Checked(t) ==> Transferred(t, env)) && (Immediate(t) ==> Succeeds(env)))
    ensures Report(t.id) in Attempt(t, env) ==>
              var log := Attempt(t, env); log[|log| - 1] == Report(t.id) && Report(t.id) !in log[..|log| - 1]
  {
    KindsAsLiterals();
    UpgradeHasNeither(t.id, StartKind(t), t.md5, env);
    var log := Attempt(t, env);
    if Upgrade(t.id, StartKind(t), t.md5, env).ret == 0 {
      assert log[|log| - 1] == Report(t.id);
    }
  }
}
