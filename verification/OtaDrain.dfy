/** `do_downlaod_firmware` and the firmware updater it calls, on the heap list of tasks. */
module OtaDrain {
  import opened Bytes
  import opened OtaCollect
  import opened OtaRuns
  import opened OtaSpec
  import opened TaskLists

  /** `struct FwUpdateInfo`: the type is overwritten by the transfer. */
  class UpdateInfo {
    const id: uint16
    const md5: string
    var kind: string

    constructor (id: uint16, md5: string, kind: string)
      ensures this.id == id && this.md5 == md5 && this.kind == kind
    {
      this.id, this.md5, this.kind := id, md5, kind;
    }
  }

  class Updater {
    var log: seq<Event>

    constructor ()
      ensures log == []
    {
      log := [];
    }

    /** `fkz9_fw_trans_func`. */
    method TransFunc(info: UpdateInfo, env: Env) returns (ret: int)
      modifies this, info
      ensures var o := Trans(old(info.kind), info.md5, env);
        ret == o.ret && info.kind == o.kind && log == old(log) + o.events
    {
      if Contains(info.kind, REBOOTED) {
        info.kind := AT_ONCE;
        return 0;
      }
      var ok := Contains(env.localSum, info.md5);
      log := log + [LocalDigest(ok)];
      if !ok {
        info.kind := "";
        return 0;
      }
      if !env.dirAtTrans {
        if !env.connectTrans {
          return -1;
        }
        if !env.mkdirOk {
          return -1;
        }
        if !env.uploadOk {
          return -1;
        }
        if env.remoteSum.None? {
          return -1;
        }
        ok := Contains(env.remoteSum.value, info.md5);
        log := log + [RemoteDigest(ok)];
        if !ok {
          return -1;
        }
        if !env.chattrOk {
          return -1;
        }
      }
      return 0;
    }

    /** The loop over the list of files to post. */
    method PostFiles(lines: seq<PostLine>) returns (ok: bool, deeds: seq<Deed>)
      ensures deeds == Posts(Leading(lines, PostGood)) && (ok <==> |deeds| == |lines|)
    {
      deeds := [];
      for i := 0 to |lines|
        invariant deeds == Posts(i) && forall k | 0 <= k < i :: PostGood(lines[k])
      {
        if !lines[i].readOk {
          return false, deeds;
        }
        if !lines[i].fetchOk {
          return false, deeds;
        }
        deeds := deeds + [Posted(i)];
      }
      return true, deeds;
    }

    /** The loop over the list of files to replace. */
    method ReplaceFiles(lines: seq<ReplaceLine>) returns (ok: bool, deeds: seq<Deed>)
      ensures deeds == Replacements(Uploads(lines)) && (ok <==> Leading(lines, ReplaceGood) == |lines|)
    {
      deeds := [];
      for i := 0 to |lines|
        invariant deeds == Replacements(i) && forall k | 0 <= k < i :: ReplaceGood(lines[k])
      {
        if !lines[i].readOk {
          return false, deeds;
        }
        if !lines[i].uploadOk {
          return false, deeds;
        }
        deeds := deeds + [Replaced(i)];
        if !lines[i].lockOk {
          return false, deeds;
        }
      }
      return true, deeds;
    }

    /** The part of `fkz9_fw_update_func` after `upgrade.sh`. */
    method CollectFiles(a: Answers) returns (ok: bool, deeds: seq<Deed>)
      ensures (ok, deeds) == Collect(a)
    {
      if !a.logOk {
        return false, [];
      }
      if !a.countOk {
        return false, [];
      }
      ok, deeds := PostFiles(a.posts);
      if !ok {
        return;
      }
      if !a.recountOk {
        return false, deeds;
      }
      var more;
      ok, more := ReplaceFiles(a.changes);
      deeds := deeds + more;
      if !ok {
        return;
      }
      if |a.changes| != 0 {
        deeds := deeds + [Restarted];
        ok := a.restartOk;
      }
    }

    /** `fkz9_fw_update_func`. */
    method UpdateFunc(info: UpdateInfo, env: Env) returns (ret: int)
      modifies this
      ensures var o := Update(info.id, info.kind, env);
        ret == o.ret && log == old(log) + o.events
    {
      if Contains(info.kind, AT_ONCE) {
        if env.dirAtUpdate {
          log := log + [RunSh(info.id)];
        } else {
          if !env.connectUpdate {
            return -1;
          }
          log := log + [UpgradeSh(info.id)];
          if !env.upgradeOk {
            return -1;
          }
          var ok, deeds := CollectFiles(env.collect);
          log := log + [Collected(info.id, deeds)];
          if !ok {
            return -1;
          }
        }
      }
      return 0;
    }

    /** `do_upgrade_firmware`. */
    method DoUpgrade(info: UpdateInfo, env: Env) returns (ret: int)
      modifies this, info
      ensures var o := Upgrade(info.id, old(info.kind), info.md5, env);
        ret == o.ret && log == old(log) + o.events
    {
      ret := TransFunc(info, env);
      if ret != 0 {
        return;
      }
      ret := UpdateFunc(info, env);
    }

    /** What a turn of the drain loop does before the upgrade. */
    method Fetch(t: Task, env: Env) returns (info: UpdateInfo)
      modifies this
      ensures fresh(info) && info.id == t.id && info.md5 == t.md5 && info.kind == StartKind(t)
      ensures log == old(log) + Prepare(t, env)
    {
      log := log + [Begin(t)];
      info := new UpdateInfo(t.id, t.md5, t.kind);
      if t.needed {
        log := log + [Download(env.downloadOk)];
        if Contains(t.kind, NEXT_REBOOT) {
          log := log + [MissionLine(t)];
        }
      } else {
        info.kind := REBOOTED;
      }
    }

    /** One turn of the drain loop. */
    method DoTask(t: Task, env: Env)
      modifies this
      ensures log == old(log) + Attempt(t, env)
    {
      var info := Fetch(t, env);
      var ret := DoUpgrade(info, env);
      if ret == 0 {
        log := log + [Report(t.id)];
      }
    }

    /** One turn of the drain loop: work on the node's task, drop the head, look for the next. */
    method Turn(list: TaskList<Task>, node: ListNode<Task>, env: Env) returns (next: ListNode?<Task>)
      requires list.Valid() && Shows(list.Contents()) && node.arg == list.Contents()[0]
      modifies this, list
      ensures list.Valid() && list.Contents() == AfterDelete(old(list.Contents()))
      ensures log == old(log) + Attempt(old(list.Contents())[0], env)
      ensures next != null <==> Shows(list.Contents())
      ensures next != null ==> next.arg == list.Contents()[0]
    {
      DoTask(node.arg, env);
      var ret := list.DelHead();
      next := list.GetHead();
    }

    /**
     * `do_downlaod_firmware`, for any list and any environment: the tasks the 16-bit count admits to are attempted
     * in FIFO order, each exactly once; it terminates; and unless the count was 0 the list is empty afterwards.
     */
    method Drain(list: TaskList<Task>, envs: nat -> Env)
      requires list.Valid()
      modifies this, list
      ensures list.Valid()
      ensures log == LogAfter(old(log), old(list.Contents()), |old(list.Contents())| % WRAP, envs)
      ensures list.Contents() == if Shows(old(list.Contents())) then [] else old(list.Contents())
    {
      ghost var tasks := list.Contents();
      ghost var due, rest := |tasks| % WRAP, tasks;
      var k: nat := 0;
      if list.count > 0 {
        var node := list.GetHead();
        while node != null
          invariant list.Valid() && rest == list.Contents() && k <= due
          invariant (node != null <==> Shows(rest)) && (node != null ==> node.arg == rest[0])
          invariant if Shows(rest) then k < due && rest == tasks[k..] else k == due && rest == []
          invariant log == LogAfter(old(log), tasks, k, envs)
          decreases due - k
        {
          DropOne(tasks, k);
          node := Turn(list, node, envs(k));
          rest := AfterDelete(rest);
          k := k + 1;
        }
      }
    }

    lemma DropOne<T>(q: seq<T>, k: nat)
      requires k < |q| % WRAP
      ensures var rest := AfterDelete(q[k..]);
        if Shows(rest) then k + 1 < |q| % WRAP && rest == q[k + 1..] else k + 1 == |q| % WRAP && rest == []
    {
      assert |q[k..]| % WRAP == |q| % WRAP - k;
      assert k + 1 < |q| % WRAP ==> |q[k + 1..]| % WRAP == |q| % WRAP - k - 1;
    }
  }

  /** With fewer than 65536 tasks queued: every task taken up once, in order, and the list left empty. */
  method DrainAll(u: Updater, list: TaskList<Task>, envs: nat -> Env)
    requires list.Valid() && |list.Contents()| < WRAP
    modifies u, list
    ensures list.Valid() && list.Contents() == []
    ensures u.log == LogAfter(old(u.log), old(list.Contents()), |old(list.Contents())|, envs)
    ensures Begun(u.log) == Begun(old(u.log)) + old(list.Contents())
  {
    ghost var log, tasks := u.log, list.Contents();
    assert |tasks| % WRAP == |tasks| && tasks[..|tasks|] == tasks;
    u.Drain(list, envs);
    EachBegunOnce(log, tasks, |tasks|, envs);
  }
}
