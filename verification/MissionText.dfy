/** The mission file as text: one comma-separated line per `NEXT_REBOOT` task, read back by line number. */
module MissionText {
  import opened Bytes
  import opened Scanning

  datatype Mission = Mission(id: uint16, url: string, md5: string, kind: string)

  /** A field that one conversion brings back. */
  predicate Scannable(f: string) {
    f != [] && ',' !in f
  }

  /** A field the file can carry. */
  predicate CleanField(f: string) {
    Scannable(f) && '\n' !in f
  }

  predicate Clean(m: Mission) {
    CleanField(m.url) && CleanField(m.md5) && CleanField(m.kind)
  }

  /** `strncmp(a, b, strlen(a)) != 0`. */
  predicate Differs(a: string, b: string) {
    !(a <= b)
  }

  /** It finds a difference exactly when some character of `a` is not there in `b`. */
  lemma DiffersIff(a: string, b: string)
    ensures Differs(a, b) <==> exists i | 0 <= i < |a| :: i >= |b| || a[i] != b[i]
  {
    if |b| < |a| {
      var i := |b|;
      assert a[i] in a;
    } else if a != b[..|a|] {
      var i :| 0 <= i < |a| && a[i] != b[..|a|][i];
    } else {
      assert b == a + b[|a|..];
    }
  }

  /** Between texts of one length it is inequality. */
  lemma EqualLengthDiffers(a: string, b: string)
    requires |a| == |b|
    ensures Differs(a, b) <==> a != b
  {
  }

  /** Fields each followed by a comma, as the format string writes them. */
  function Join(fields: seq<string>): string {
    if fields == [] then [] else fields[0] + [','] + Join(fields[1..])
  }

  /** The `fprintf` of one task with the boot stamp. */
  function PrintLine(m: Mission, stamp: string): string {
    Decimal(m.id) + [','] + Join([m.url, m.md5, m.kind, stamp])
  }

  /** What `sscanf` brings back from a line: the number, and url, digest, type and stamp as far as it gets. */
  datatype Scan = Scan(id: Option<uint16>, fields: seq<string>)

  /** `sscanf(line, "%hd,%[^,],%[^,],%[^,],%[^,],", ...)`. */
  function ScanLine(line: string): Scan {
    match ScanShort(line)
    case None => Scan(None, [])
    case Some((id, rest)) =>
      Scan(Some(id), if rest != [] && rest[0] == ',' then Conversions(rest[1..], ',', 4) else [])
  }

  /** The stamp, in a buffer that was empty before. */
  function StampOf(sc: Scan): string {
    if |sc.fields| == 4 then sc.fields[3] else []
  }

  function Complete(m: Mission, stamp: string): Scan {
    Scan(Some(m.id), [m.url, m.md5, m.kind, stamp])
  }

  lemma ScansNumber(id: uint16, text: string)
    ensures ScanLine(Decimal(id) + [','] + text) == Scan(Some(id), Conversions(text, ',', 4))
  {
    var rest := [','] + text;
    ShortReads(id, rest);
    assert Decimal(id) + [','] + text == Decimal(id) + rest && rest[1..] == text;
  }

  /** Scanning a printed task depends on what follows the number only. */
  lemma ScansAfterId(m: Mission, stamp: string, tail: string)
    ensures ScanLine(PrintLine(m, stamp) + tail) ==
            Scan(Some(m.id), Conversions(Join([m.url, m.md5, m.kind, stamp]) + tail, ',', 4))
  {
    var text := Join([m.url, m.md5, m.kind, stamp]) + tail;
    ScansNumber(m.id, text);
    assert PrintLine(m, stamp) + tail == Decimal(m.id) + [','] + text;
  }

  lemma JoinFirst(f: string, rest: seq<string>)
    ensures Join([f] + rest) == f + [','] + Join(rest)
  {
    assert ([f] + rest)[1..] == rest;
  }

  lemma JoinFour(a: string, b: string, c: string, e: string)
    ensures Join([a, b, c, e]) == a + [','] + b + [','] + c + [','] + e + [',']
  {
    JoinFirst(a, [b, c, e]);
    JoinFirst(b, [c, e]);
    JoinFirst(c, [e]);
    JoinFirst(e, []);
  }

  /** The line that is written, character for character. */
  lemma LineLayout(m: Mission, stamp: string)
    ensures PrintLine(m, stamp) ==
            Decimal(m.id) + "," + m.url + "," + m.md5 + "," + m.kind + "," + stamp + ","
  {
    JoinFour(m.url, m.md5, m.kind, stamp);
  }

  lemma JoinTail(fields: seq<string>, tail: string)
    requires fields != []
    ensures Join(fields) + tail == fields[0] + [','] + (Join(fields[1..]) + tail)
  {
  }

  lemma ConvertsFirst(f: string, rest: string, n: nat)
    requires ',' !in f && n > 0
    ensures Conversions(f + [','] + rest, ',', n) == if f == [] then [] else [f] + Conversions(rest, ',', n - 1)
  {
    UntilStops(f, ',', rest);
    assert (f + [','] + rest)[|f| + 1..] == rest;
  }

  lemma {:induction false} JoinConverts(fields: seq<string>, tail: string)
    requires forall i | 0 <= i < |fields| :: Scannable(fields[i])
    ensures Conversions(Join(fields) + tail, ',', |fields|) == fields
  {
    if fields != [] {
      JoinTail(fields, tail);
      ConvertsFirst(fields[0], Join(fields[1..]) + tail, |fields|);
      JoinConverts(fields[1..], tail);
      assert [fields[0]] + fields[1..] == fields;
    }
  }

  /** A task and its stamp survive printing and scanning exactly when all four strings are nonempty and comma-free. */
  lemma LineRoundTripIff(m: Mission, stamp: string, tail: string)
    ensures ScanLine(PrintLine(m, stamp) + tail) == Complete(m, stamp) <==>
            Scannable(m.url) && Scannable(m.md5) && Scannable(m.kind) && Scannable(stamp)
  {
    var fields := [m.url, m.md5, m.kind, stamp];
    ScansAfterId(m, stamp, tail);
    var got := Conversions(Join(fields) + tail, ',', 4);
    if got == fields {
      assert Scannable(fields[0]) && Scannable(fields[1]) && Scannable(fields[2]) && Scannable(fields[3]);
    }
    if forall i | 0 <= i < 4 :: Scannable(fields[i]) {
      JoinConverts(fields, tail);
    }
  }

  lemma {:induction false} JoinHasNoLineEnd(fields: seq<string>)
    requires forall i | 0 <= i < |fields| :: '\n' !in fields[i]
    ensures '\n' !in Join(fields)
  {
    if fields != [] {
      JoinHasNoLineEnd(fields[1..]);
    }
  }

  lemma LineHasNoLineEnd(m: Mission, stamp: string)
    requires Clean(m) && CleanField(stamp)
    ensures '\n' !in PrintLine(m, stamp)
  {
    var fields := [m.url, m.md5, m.kind, stamp];
    assert forall i | 0 <= i < 4 :: '\n' !in fields[i];
    JoinHasNoLineEnd(fields);
  }

  // ---- lines of a file

  function FileText(lines: seq<string>): string {
    if lines == [] then [] else lines[0] + ['\n'] + FileText(lines[1..])
  }

  lemma {:induction false} FileTextAppend(lines: seq<string>, line: string)
    ensures FileText(lines + [line]) == FileText(lines) + line + ['\n']
  {
    if lines == [] {
      assert [line][1..] == [];
    } else {
      assert (lines + [line])[1..] == lines[1..] + [line];
      FileTextAppend(lines[1..], line);
    }
  }

  /** `wc -l`. */
  function LineCount(text: string): nat {
    if text == [] then 0 else (if text[0] == '\n' then 1 else 0) + LineCount(text[1..])
  }

  /** The first line, with its line end if it has one. */
  function FirstLine(text: string): string {
    var line := Until(text, '\n');
    if |line| == |text| then line else line + ['\n']
  }

  /** `sed -n 'kp'` with `k` counted from 0. */
  function NthLine(text: string, k: nat): string
    decreases k
  {
    var line := FirstLine(text);
    if k == 0 then line else NthLine(text[|line|..], k - 1)
  }

  lemma {:induction false} LineCountSkips(line: string, rest: string)
    requires '\n' !in line
    ensures LineCount(line + ['\n'] + rest) == 1 + LineCount(rest)
  {
    var text := line + ['\n'] + rest;
    if line == [] {
      assert text[1..] == rest;
    } else {
      assert text[1..] == line[1..] + ['\n'] + rest;
      LineCountSkips(line[1..], rest);
    }
  }

  /** `wc` counts the lines written and `sed` finds each of them. */
  lemma {:induction false} FileReadsBack(lines: seq<string>)
    requires forall i | 0 <= i < |lines| :: '\n' !in lines[i]
    ensures LineCount(FileText(lines)) == |lines|
    ensures forall k | 0 <= k < |lines| :: NthLine(FileText(lines), k) == lines[k] + ['\n']
  {
    if lines != [] {
      var rest := FileText(lines[1..]);
      FileReadsBack(lines[1..]);
      LineCountSkips(lines[0], rest);
      UntilStops(lines[0], '\n', rest);
      assert FirstLine(FileText(lines)) == lines[0] + ['\n'];
      assert FileText(lines)[|lines[0]| + 1..] == rest;
      forall k | 0 <= k < |lines|
        ensures NthLine(FileText(lines), k) == lines[k] + ['\n']
      {
        if k > 0 {
          assert NthLine(rest, k - 1) == lines[1..][k - 1] + ['\n'];
        }
      }
    }
  }
}
