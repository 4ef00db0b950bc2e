/**
 * What `fkz9_fw_update_func` does after `upgrade.sh`: fetch its log, post the files one list names, replace the remote
 * files another list names, restart the algorithm. The first failing SSH command ends it.
 */
module OtaCollect {

  /** A line of the list of files to post: is it read, is its file fetched. Whether the post succeeds is only logged. */
  datatype PostLine = PostLine(readOk: bool, fetchOk: bool)

  /** One line of the list of files to replace: is it read, is its file uploaded, is it made immutable. */
  datatype ReplaceLine = ReplaceLine(readOk: bool, uploadOk: bool, lockOk: bool)

  datatype Answers = Answers(
    logOk: bool, countOk: bool, posts: seq<PostLine>, recountOk: bool, changes: seq<ReplaceLine>, restartOk: bool)

  datatype Deed = Posted(line: nat) | Replaced(line: nat) | Restarted

  predicate PostGood(l: PostLine) {
    l.readOk && l.fetchOk
  }

  predicate ReplaceGood(l: ReplaceLine) {
    l.readOk && l.uploadOk && l.lockOk
  }

  /** How many lines at the front are good. */
  function Leading<T>(lines: seq<T>, good: T -> bool): (k: nat)
    ensures k <= |lines|
    ensures forall i | 0 <= i < k :: good(lines[i])
    ensures k < |lines| ==> !good(lines[k])
  {
    if lines == [] || !good(lines[0]) then 0 else 1 + Leading(lines[1..], good)
  }

  function Posts(n: nat): seq<Deed> {
    seq(n, i requires 0 <= i => Posted(i))
  }

  function Replacements(n: nat): seq<Deed> {
    seq(n, i requires 0 <= i => Replaced(i))
  }

  /** Files replaced: those of the good lines, and one more if only its lock failed. */
  function Uploads(lines: seq<ReplaceLine>): nat {
    var k := Leading(lines, ReplaceGood);
    if k < |lines| && lines[k].readOk && lines[k].uploadOk then k + 1 else k
  }

  function Collect(a: Answers): (bool, seq<Deed>) {
    if !a.logOk || !a.countOk then (false, [])
    else
      var posted := Posts(Leading(a.posts, PostGood));
      if |posted| < |a.posts| || !a.recountOk then (false, posted)
      else
        var deeds := posted + Replacements(Uploads(a.changes));
        if Leading(a.changes, ReplaceGood) < |a.changes| then (false, deeds)
        else if a.changes == [] then (true, deeds)
        else (a.restartOk, deeds + [Restarted])
  }

  /** Everything before the restart worked. */
  predicate Complete(a: Answers) {
    && a.logOk && a.countOk && a.recountOk
    && (forall l <- a.posts :: PostGood(l)) && (forall l <- a.changes :: ReplaceGood(l))
  }

  lemma LeadingAllIff<T>(lines: seq<T>, good: T -> bool)
    ensures Leading(lines, good) == |lines| <==> forall l <- lines :: good(l)
  {
    var k := Leading(lines, good);
    if k < |lines| {
      assert lines[k] in lines;
    }
  }

  /** It succeeds exactly when every command does. */
  lemma CollectsIff(a: Answers)
    ensures Collect(a).0 <==> Complete(a) && (a.changes != [] ==> a.restartOk)
  {
    LeadingAllIff(a.posts, PostGood);
    LeadingAllIff(a.changes, ReplaceGood);
  }

  /** The algorithm is restarted exactly when there is something new for it, and never on half the replacements. */
  lemma RestartedIff(a: Answers)
    ensures Restarted in Collect(a).1 <==> Complete(a) && a.changes != []
    ensures Restarted in Collect(a).1 ==>
              Collect(a).1 == Posts(|a.posts|) + Replacements(|a.changes|) + [Restarted]
  {
    LeadingAllIff(a.posts, PostGood);
    LeadingAllIff(a.changes, ReplaceGood);
    assert forall n: nat :: Restarted !in Posts(n) && Restarted !in Replacements(n);
    if Complete(a) && a.changes != [] {
      var deeds := Collect(a).1;
      assert deeds[|deeds| - 1] == Restarted;
    }
  }

  /** A file is posted exactly when its line and all lines before it are good; never before the lists are known. */
  lemma PostedIff(a: Answers, i: nat)
    ensures Posted(i) in Collect(a).1 <==>
            a.logOk && a.countOk && i < |a.posts| && forall j | 0 <= j <= i :: PostGood(a.posts[j])
  {
    var n := Leading(a.posts, PostGood);
    PostsHold(n, i);
    assert forall m: nat :: Posted(i) !in Replacements(m);
  }

  /**
   * A file is replaced exactly when every file was posted, every line before it was replaced and locked, and its own
   * upload worked.
   */
  lemma ReplacedIff(a: Answers, i: nat)
    ensures Replaced(i) in Collect(a).1 <==>
            && a.logOk && a.countOk && (forall l <- a.posts :: PostGood(l)) && a.recountOk
            && i < |a.changes| && (forall j | 0 <= j < i :: ReplaceGood(a.changes[j]))
            && a.changes[i].readOk && a.changes[i].uploadOk
  {
    LeadingAllIff(a.posts, PostGood);
    ReplacementsHold(Uploads(a.changes), i);
    assert forall m: nat :: Replaced(i) !in Posts(m);
  }

  lemma PostsHold(n: nat, i: nat)
    ensures Posted(i) in Posts(n) <==> i < n
  {
    if i < n {
      assert Posts(n)[i] == Posted(i);
    }
  }

  lemma ReplacementsHold(n: nat, i: nat)
    ensures Replaced(i) in Replacements(n) <==> i < n
  {
    if i < n {
      assert Replacements(n)[i] == Replaced(i);
    }
  }

  /** Files are posted first, then replaced, each in the order of its list, and the restart comes last. */
  lemma DeedsInOrder(a: Answers, j: nat, k: nat)
    requires j < k < |Collect(a).1|
    ensures var d, e := Collect(a).1[j], Collect(a).1[k];
      || (d.Posted? && e == Posted(k)) || (d.Posted? && !e.Posted?)
      || (d.Replaced? && e.Replaced? && e.line - d.line == k - j) || (d.Replaced? && e.Restarted?)
  {
  }
}
