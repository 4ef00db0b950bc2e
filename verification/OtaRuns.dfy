/**
 * Logs of any sequence of tasks in any environments: every task taken up once, and the two digest gates with their
 * exact conditions.
 */
module OtaRuns {
  import opened Bytes
  import opened OtaSpec

  /** The tasks a log shows to have been taken up, in order. */
  function Begun(log: seq<Event>): seq<Task> {
    if log == [] then []
    else Begun(log[..|log| - 1]) + (if log[|log| - 1].Begin? then [log[|log| - 1].task] else [])
  }

  lemma {:induction false} BegunAppend(a: seq<Event>, b: seq<Event>)
    ensures Begun(a + b) == Begun(a) + Begun(b)
  {
    if b == [] {
      assert a + b == a;
    } else {
      assert (a + b)[..|a + b| - 1] == a + b[..|b| - 1];
      BegunAppend(a, b[..|b| - 1]);
    }
  }

  lemma {:induction false} NoneBegun(log: seq<Event>)
    requires forall e <- log :: !e.Begin?
    ensures Begun(log) == []
  {
    if log != [] {
      NoneBegun(log[..|log| - 1]);
    }
  }

  lemma BeginsOnce(t: Task, env: Env)
    ensures var log := Attempt(t, env);
      log != [] && log[0] == Begin(t) && forall e <- log[1..] :: !e.Begin?
  {
    var rest := Attempt(t, env)[1..];
    UpgradeHasNeither(t.id, StartKind(t), t.md5, env);
    assert Attempt(t, env) == [Begin(t)] + rest;
  }

  lemma BegunOnce(t: Task, env: Env)
    ensures Begun(Attempt(t, env)) == [t]
  {
    BeginsOnce(t, env);
    FirstOnly(Attempt(t, env), t);
  }

  lemma FirstOnly(log: seq<Event>, t: Task)
    requires log != [] && log[0] == Begin(t) && forall e <- log[1..] :: !e.Begin?
    ensures Begun(log) == [t]
  {
    NoneBegun(log[1..]);
    BegunAppend([Begin(t)], log[1..]);
    assert log == [Begin(t)] + log[1..] && [Begin(t)][..0] == [];
  }

  lemma {:induction false} BegunFlat(log: seq<Event>, parts: seq<seq<Event>>, tasks: seq<Task>)
    requires |parts| == |tasks| && forall i | 0 <= i < |parts| :: Begun(parts[i]) == [tasks[i]]
    ensures Begun(Flatten(log, parts)) == Begun(log) + tasks
  {
    if parts != [] {
      var n := |parts| - 1;
      BegunFlat(log, parts[..n], tasks[..n]);
      BegunAppend(Flatten(log, parts[..n]), parts[n]);
      assert tasks == tasks[..n] + [tasks[n]];
    }
  }

  /** Whatever the environments, every task is taken up exactly once, in order. */
  lemma EachBegunOnce(log: seq<Event>, tasks: seq<Task>, n: nat, envs: nat -> Env)
    requires n <= |tasks|
    ensures Begun(LogAfter(log, tasks, n, envs)) == Begun(log) + tasks[..n]
  {
    LogAfterIsFlat(log, tasks, n, envs);
    forall i | 0 <= i < n
      ensures Begun(Parts(tasks, n, envs)[i]) == [tasks[..n][i]]
    {
      BegunOnce(tasks[i], envs(i));
    }
    BegunFlat(log, Parts(tasks, n, envs), tasks[..n]);
  }

  // ---- the gates

  /** The two digest gates: the local one before any script, the remote one before `upgrade.sh`. */
  datatype Gate = Local | Remote
  {
    predicate Guards(e: Event) {
      if Local? then e.Starts() else e.UpgradeSh?
    }

    function Pass(): Event {
      if Local? then LocalDigest(true) else RemoteDigest(true)
    }
  }

  predicate PassedBy(g: Gate, log: seq<Event>, p: nat)
    requires p < |log|
  {
    exists q | 0 <= q < p :: log[q] == g.Pass() && forall r | q < r < p :: !log[r].Begin?
  }

  predicate GuardedTo(g: Gate, log: seq<Event>, n: nat)
    requires n <= |log|
  {
    n == 0 || (GuardedTo(g, log, n - 1) && (g.Guards(log[n - 1]) ==> PassedBy(g, log, n - 1)))
  }

  /** Every start the gate guards is preceded, within the same task, by the digest match it asks for. */
  predicate Guarded(g: Gate, log: seq<Event>) {
    GuardedTo(g, log, |log|)
  }

  lemma {:induction false} GuardedToIff(g: Gate, log: seq<Event>, n: nat)
    requires n <= |log|
    ensures GuardedTo(g, log, n) <==> forall p | 0 <= p < n && g.Guards(log[p]) :: PassedBy(g, log, p)
  {
    if n > 0 {
      GuardedToIff(g, log, n - 1);
    }
  }

  lemma GuardedIff(g: Gate, log: seq<Event>)
    ensures Guarded(g, log) <==> forall p | 0 <= p < |log| && g.Guards(log[p]) :: PassedBy(g, log, p)
  {
    GuardedToIff(g, log, |log|);
  }

  /** A later part of a log is judged by itself when it opens with a task of its own. */
  lemma PassedInTail(g: Gate, a: seq<Event>, b: seq<Event>, p: nat)
    requires 0 < p < |b| && b[0].Begin?
    ensures PassedBy(g, a + b, |a| + p) <==> PassedBy(g, b, p)
  {
    var log := a + b;
    assert forall r | 0 <= r < |b| :: log[|a| + r] == b[r];
    if PassedBy(g, b, p) {
      var q :| 0 <= q < p && b[q] == g.Pass() && forall r | q < r < p :: !b[r].Begin?;
      assert log[|a| + q] == g.Pass();
      assert forall r | |a| + q < r < |a| + p :: log[r] == b[r - |a|];
    }
    if PassedBy(g, log, |a| + p) {
      var q :| 0 <= q < |a| + p && log[q] == g.Pass() && forall r | q < r < |a| + p :: !log[r].Begin?;
      assert log[|a|] == b[0];
      assert q > |a|;
      assert b[q - |a|] == g.Pass();
      assert forall r | q - |a| < r < p :: b[r] == log[|a| + r];
    }
  }

  lemma PassedInFront(g: Gate, a: seq<Event>, b: seq<Event>, p: nat)
    requires p < |a|
    ensures PassedBy(g, a + b, p) <==> PassedBy(g, a, p)
  {
    var log := a + b;
    assert forall r | 0 <= r < |a| :: log[r] == a[r];
    if PassedBy(g, a, p) {
      var q :| 0 <= q < p && a[q] == g.Pass() && forall r | q < r < p :: !a[r].Begin?;
      assert log[q] == g.Pass();
    }
    if PassedBy(g, log, p) {
      var q :| 0 <= q < p && log[q] == g.Pass() && forall r | q < r < p :: !log[r].Begin?;
      assert a[q] == g.Pass();
    }
  }

  lemma GuardedConcat(g: Gate, a: seq<Event>, b: seq<Event>)
    requires b != [] && b[0].Begin?
    ensures Guarded(g, a + b) <==> Guarded(g, a) && Guarded(g, b)
  {
    var log := a + b;
    GuardedIff(g, a);
    GuardedIff(g, b);
    GuardedIff(g, log);
    forall p | 0 <= p < |a|
      ensures log[p] == a[p] && (PassedBy(g, log, p) <==> PassedBy(g, a, p))
    {
      PassedInFront(g, a, b, p);
    }
    forall p | 0 < p < |b|
      ensures log[|a| + p] == b[p] && (PassedBy(g, log, |a| + p) <==> PassedBy(g, b, p))
    {
      PassedInTail(g, a, b, p);
    }
    assert log[|a|] == b[0] && !g.Guards(b[0]);
    if Guarded(g, a) && Guarded(g, b) {
      forall p | 0 <= p < |log| && g.Guards(log[p])
        ensures PassedBy(g, log, p)
      {
        if p >= |a| {
          assert log[|a| + (p - |a|)] == b[p - |a|];
        }
      }
    }
  }

  lemma {:induction false} GuardedFlat(g: Gate, log: seq<Event>, parts: seq<seq<Event>>)
    requires Guarded(g, log) && forall i | 0 <= i < |parts| :: parts[i] != [] && parts[i][0].Begin?
    ensures Guarded(g, Flatten(log, parts)) <==> forall i | 0 <= i < |parts| :: Guarded(g, parts[i])
  {
    if parts != [] {
      var n := |parts| - 1;
      GuardedFlat(g, log, parts[..n]);
      GuardedConcat(g, Flatten(log, parts[..n]), parts[n]);
      assert forall i | 0 <= i < n :: parts[..n][i] == parts[i];
    }
  }

  /** The update is able to run `upgrade.sh`. */
  predicate CanUpgrade(env: Env) {
    !env.dirAtUpdate && env.connectUpdate
  }

  /** When a task cannot get past a gate unchecked. */
  predicate Excused(g: Gate, t: Task, env: Env) {
    match g
    case Local => Checked(t) || !CanStart(env)
    case Remote =>
      !CanUpgrade(env) || (Checked(t) && !(LocalMatch(t, env) && env.dirAtTrans && Contains(t.kind, AT_ONCE)))
  }

  lemma NoDigestBefore(t: Task, env: Env, q: nat)
    requires q < |Prepare(t, env)|
    ensures Attempt(t, env)[q] == Prepare(t, env)[q]
    ensures !Attempt(t, env)[q].LocalDigest? && !Attempt(t, env)[q].RemoteDigest? && !Attempt(t, env)[q].Starts()
  {
  }

  predicate NoStart(events: seq<Event>) {
    forall e <- events :: !e.Starts()
  }

  lemma MiddleAt(a: seq<Event>, b: seq<Event>, c: seq<Event>, d: seq<Event>, p: nat)
    requires p < |a + (b + c) + d|
    ensures var m, n := |a| + |b|, |a| + |b| + |c|;
      (a + (b + c) + d)[p] ==
      if p < |a| then a[p] else if p < m then b[p - |a|] else if p < n then c[p - m] else d[p - n]
  {
  }

  lemma StartInMiddle(a: seq<Event>, b: seq<Event>, c: seq<Event>, d: seq<Event>, p: nat)
    requires NoStart(a) && NoStart(b) && NoStart(d)
    requires p < |a + (b + c) + d| && (a + (b + c) + d)[p].Starts()
    ensures var q := p - |a| - |b|;
      0 <= q < |c| && (a + (b + c) + d)[p] == c[q] && (a + (b + c) + d)[..p] == a + b + c[..q]
  {
    MiddleAt(a, b, c, d, p);
  }

  lemma PartsStartNothing(t: Task, env: Env)
    ensures NoStart(Prepare(t, env)) && NoStart(Trans(StartKind(t), t.md5, env).events)
  {
  }

  lemma UpdateStartsFirst(id: uint16, kind: string, env: Env, q: nat)
    requires q < |Update(id, kind, env).events| && Update(id, kind, env).events[q].Starts()
    ensures q == 0 && Contains(kind, AT_ONCE)
    ensures if Update(id, kind, env).events[q].UpgradeSh? then CanUpgrade(env) else env.dirAtUpdate
  {
  }

  /** Where the start of a task stands in its log: after the preparation and the events of the transfer. */
  lemma StartsAt(t: Task, env: Env, p: nat)
    requires p < |Attempt(t, env)| && Attempt(t, env)[p].Starts()
    ensures var tr := Trans(StartKind(t), t.md5, env);
      && tr.ret == 0 && p == |Prepare(t, env)| + |tr.events|
      && Attempt(t, env)[..p] == Prepare(t, env) + tr.events
      && Contains(tr.kind, AT_ONCE)
      && (if Attempt(t, env)[p].UpgradeSh? then CanUpgrade(env) else env.dirAtUpdate)
  {
    var up, tr := Upgrade(t.id, StartKind(t), t.md5, env), Trans(StartKind(t), t.md5, env);
    var update := if tr.ret == 0 then Update(t.id, tr.kind, env).events else [];
    var report := if up.ret == 0 then [Report(t.id)] else [];
    PartsStartNothing(t, env);
    assert up.events == tr.events + update;
    StartInMiddle(Prepare(t, env), tr.events, update, report, p);
    UpdateStartsFirst(t.id, tr.kind, env, p - |Prepare(t, env)| - |tr.events|);
  }

  /** Without its digest looked at, a task meets neither gate. */
  lemma UncheckedPassesNothing(g: Gate, t: Task, env: Env)
    requires !Checked(t)
    ensures Guarded(g, Attempt(t, env)) <==> Excused(g, t, env)
  {
    var log, p := Attempt(t, env), |Prepare(t, env)|;
    GuardedIff(g, log);
    KindsAsLiterals();
    var up := Upgrade(t.id, StartKind(t), t.md5, env);
    if !Excused(g, t, env) {
      assert log[p] == up.events[0] && g.Guards(log[p]);
      forall q | 0 <= q < p
        ensures log[q] != g.Pass()
      {
        NoDigestBefore(t, env, q);
      }
      assert !PassedBy(g, log, p);
    } else {
      forall q | 0 <= q < |log|
        ensures !g.Guards(log[q])
      {
        if log[q].Starts() {
          StartsAt(t, env, q);
        }
      }
    }
  }

  /** The local gate is passed by every task whose digest is looked at. */
  lemma CheckedPassesLocal(t: Task, env: Env)
    requires Checked(t)
    ensures Guarded(Local, Attempt(t, env))
  {
    var log, base := Attempt(t, env), |Prepare(t, env)|;
    GuardedIff(Local, log);
    KindsAsLiterals();
    forall p | 0 <= p < |log| && log[p].Starts()
      ensures PassedBy(Local, log, p)
    {
      StartsAt(t, env, p);
      assert Trans(t.kind, t.md5, env).events[0] == LocalDigest(true);
      assert log[..p][base] == LocalDigest(true);
      assert forall r | base < r < p :: log[r] == log[..p][r];
    }
  }

  /** The remote gate is passed by it unless the first look for `rt-a100` took the transfer past the upload. */
  lemma CheckedPassesRemoteIff(t: Task, env: Env)
    requires Checked(t)
    ensures Guarded(Remote, Attempt(t, env)) <==> Excused(Remote, t, env)
  {
    var log, base := Attempt(t, env), |Prepare(t, env)|;
    GuardedIff(Remote, log);
    KindsAsLiterals();
    var tr := Trans(t.kind, t.md5, env);
    forall p | 0 <= p < |log| && log[p].UpgradeSh?
      ensures PassedBy(Remote, log, p) <==> !env.dirAtTrans
    {
      StartsAt(t, env, p);
      assert forall r | 0 <= r < p :: log[r] == (Prepare(t, env) + tr.events)[r];
      forall q | 0 <= q < base
        ensures log[q] != RemoteDigest(true)
      {
        NoDigestBefore(t, env, q);
      }
      if !env.dirAtTrans {
        assert tr.events[1] == RemoteDigest(true) && log[base + 1] == tr.events[1] && p == base + 2;
      }
    }
    if !Excused(Remote, t, env) {
      var p := base + 1;
      assert Upgrade(t.id, t.kind, t.md5, env).events[1] == UpgradeSh(t.id);
      assert log[p] == UpgradeSh(t.id);
    } else {
      forall p | 0 <= p < |log| && log[p].UpgradeSh?
        ensures !env.dirAtTrans
      {
        StartsAt(t, env, p);
      }
    }
  }

  lemma AttemptGuardedIff(g: Gate, t: Task, env: Env)
    ensures Guarded(g, Attempt(t, env)) <==> Excused(g, t, env)
  {
    if !Checked(t) {
      UncheckedPassesNothing(g, t, env);
    } else if g.Local? {
      CheckedPassesLocal(t, env);
    } else {
      CheckedPassesRemoteIff(t, env);
    }
  }

  /** Over any sequence of tasks and environments a gate holds exactly when no task gets past it unchecked. */
  lemma GateHoldsIff(g: Gate, log: seq<Event>, tasks: seq<Task>, n: nat, envs: nat -> Env)
    requires n <= |tasks| && Guarded(g, log)
    ensures Guarded(g, LogAfter(log, tasks, n, envs)) <==> forall i | 0 <= i < n :: Excused(g, tasks[i], envs(i))
  {
    var parts := Parts(tasks, n, envs);
    LogAfterIsFlat(log, tasks, n, envs);
    forall i | 0 <= i < n
      ensures parts[i] != [] && parts[i][0] == Begin(tasks[i])
      ensures Guarded(g, parts[i]) <==> Excused(g, tasks[i], envs(i))
    {
      BeginsOnce(tasks[i], envs(i));
      AttemptGuardedIff(g, tasks[i], envs(i));
    }
    GuardedFlat(g, log, parts);
  }

  /**
   * Over every sequence of tasks and every environment, every start of a script is preceded within its own task by
   * a matching local digest if and only if every task that is able to start something is one whose digest is looked
   * at.
   */
  lemma NothingStartsUncheckedIff(log: seq<Event>, tasks: seq<Task>, n: nat, envs: nat -> Env)
    requires n <= |tasks| && Guarded(Local, log)
    ensures Guarded(Local, LogAfter(log, tasks, n, envs)) <==>
            forall i | 0 <= i < n :: Checked(tasks[i]) || !CanStart(envs(i))
  {
    GateHoldsIff(Local, log, tasks, n, envs);
    assert forall i | 0 <= i < n :: Excused(Local, tasks[i], envs(i)) <==> Checked(tasks[i]) || !CanStart(envs(i));
  }

  /** The remote gate is bypassed: the directory is there for the transfer and gone for the update. */
  predicate Bypassed(t: Task, env: Env) {
    LocalMatch(t, env) && env.dirAtTrans && !env.dirAtUpdate && env.connectUpdate
  }

  /**
   * Over every sequence of `AT_ONCE` tasks and every environment, every start of `upgrade.sh` is preceded within its
   * own task by a matching digest of the uploaded copy if and only if no task is bypassed; so it is in all
   * environments in which the two looks for `rt-a100` agree.
   */
  lemma UpgradeCheckedIff(log: seq<Event>, tasks: seq<Task>, n: nat, envs: nat -> Env)
    requires n <= |tasks| && Guarded(Remote, log)
    requires forall i | 0 <= i < n :: Checked(tasks[i]) && Immediate(tasks[i])
    ensures Guarded(Remote, LogAfter(log, tasks, n, envs)) <==> forall i | 0 <= i < n :: !Bypassed(tasks[i], envs(i))
    ensures (forall i | 0 <= i < n :: envs(i).dirAtTrans == envs(i).dirAtUpdate) ==>
              Guarded(Remote, LogAfter(log, tasks, n, envs))
  {
    GateHoldsIff(Remote, log, tasks, n, envs);
    assert forall i | 0 <= i < n :: Excused(Remote, tasks[i], envs(i)) <==> !Bypassed(tasks[i], envs(i));
  }
}
