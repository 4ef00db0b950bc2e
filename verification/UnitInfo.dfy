/** The `name:sw,hw;` unit list that `get_ota_heartbeat_info` reads in two passes of `strtok`. */
module UnitInfos {
  import opened Bytes
  import opened Scanning

  datatype UnitInfo = UnitInfo(name: string, sw: string, hw: string)

  /** `%s`: skip white space, then a nonempty run without it. */
  function ScanWord(s: string): Option<string> {
    if s == [] then None
    else if IsSpace(s[0]) then ScanWord(s[1..])
    else Some(Run(s))
  }

  function Run(s: string): string {
    if s == [] || IsSpace(s[0]) then [] else [s[0]] + Run(s[1..])
  }

  predicate HasSpace(s: string) {
    exists i | 0 <= i < |s| :: IsSpace(s[i])
  }

  lemma {:induction false} RunAll(s: string)
    requires !HasSpace(s)
    ensures Run(s) == s
  {
    if s != [] {
      assert !IsSpace(s[0]);
      forall i | 0 <= i < |s| - 1
        ensures !IsSpace(s[1..][i])
      {
        assert s[1..][i] == s[i + 1];
      }
      RunAll(s[1..]);
    }
  }

  lemma {:induction false} RunHasNoSpace(s: string)
    ensures !HasSpace(Run(s))
  {
    if s != [] && !IsSpace(s[0]) {
      RunHasNoSpace(s[1..]);
      assert Run(s)[1..] == Run(s[1..]);
      forall i | 0 <= i < |Run(s)|
        ensures !IsSpace(Run(s)[i])
      {
        if i > 0 {
          assert Run(s)[i] == Run(s[1..])[i - 1];
        }
      }
    }
  }

  lemma {:induction false} WordHasNoSpace(s: string)
    ensures ScanWord(s).Some? ==> ScanWord(s).value != [] && !HasSpace(ScanWord(s).value)
  {
    if s != [] {
      if IsSpace(s[0]) {
        WordHasNoSpace(s[1..]);
      } else {
        RunHasNoSpace(s);
      }
    }
  }

  /** A record after `sscanf`: a field no conversion reached keeps what `malloc` left there (`None`). */
  datatype Record = Record(name: Option<string>, sw: Option<string>, hw: Option<string>)

  /** The part `%[^,],%s` of the format, after the colon. */
  function ScanVersions(s: string): (Option<string>, Option<string>) {
    var sw := Until(s, ',');
    if sw == [] then (None, None)
    else if |sw| == |s| then (Some(sw), None)
    else (Some(sw), ScanWord(s[|sw| + 1..]))
  }

  /** `sscanf(token, "%[^:]:%[^,],%s", ...)`: it fills fields until a conversion or a delimiter fails. */
  function ScanUnit(token: string): Record {
    var name := Until(token, ':');
    if name == [] then Record(None, None, None)
    else if |name| == |token| then Record(Some(name), None, None)
    else
      var (sw, hw) := ScanVersions(token[|name| + 1..]);
      Record(Some(name), sw, hw)
  }

  function Filled(u: UnitInfo): Record {
    Record(Some(u.name), Some(u.sw), Some(u.hw))
  }

  /** One record as `updater.sh unit_info` prints it, without the closing semicolon. */
  function PrintUnit(u: UnitInfo): string {
    u.name + [':'] + u.sw + [','] + u.hw
  }

  function PrintUnits(units: seq<UnitInfo>): string {
    if units == [] then [] else PrintUnit(units[0]) + [';'] + PrintUnits(units[1..])
  }

  /** What one `sscanf` can bring back: nonempty fields free of what ends them. */
  predicate Scannable(u: UnitInfo) {
    && u.name != [] && ':' !in u.name
    && u.sw != [] && ',' !in u.sw
    && u.hw != [] && !HasSpace(u.hw)
  }

  /** And free of the semicolon that ends the record. */
  predicate Clean(u: UnitInfo) {
    Scannable(u) && ';' !in u.name && ';' !in u.sw && ';' !in u.hw
  }

  lemma CutAt(a: string, c: char, rest: string)
    requires c !in a
    ensures var s := a + [c] + rest; Until(s, c) == a && |a| < |s| && s[|a| + 1..] == rest
  {
    UntilStops(a, c, rest);
  }

  lemma WordIsAll(s: string)
    requires s != [] && !HasSpace(s)
    ensures ScanWord(s) == Some(s)
  {
    RunAll(s);
    assert !IsSpace(s[0]);
  }

  /** White space before a word is skipped, and white space ends it. */
  lemma {:induction false} WordReads(spaces: string, word: string, rest: string)
    requires forall i | 0 <= i < |spaces| :: spaces[i] == ' ' || 9 <= spaces[i] as int <= 13
    requires word != [] && !HasSpace(word) && (rest == [] || IsSpace(rest[0]))
    ensures ScanWord(spaces + (word + rest)) == Some(word)
  {
    if spaces == [] {
      assert spaces + (word + rest) == word + rest && !IsSpace(word[0]);
      RunStops(word, rest);
    } else {
      assert (spaces + (word + rest))[1..] == spaces[1..] + (word + rest);
      WordReads(spaces[1..], word, rest);
    }
  }

  lemma {:induction false} RunStops(word: string, rest: string)
    requires !HasSpace(word) && (rest == [] || IsSpace(rest[0]))
    ensures Run(word + rest) == word
  {
    if word == [] {
      assert word + rest == rest;
    } else {
      assert !IsSpace(word[0]) && (word + rest)[1..] == word[1..] + rest;
      assert !HasSpace(word[1..]) by {
        assert forall i | 0 <= i < |word| - 1 :: word[1..][i] == word[i + 1];
      }
      RunStops(word[1..], rest);
    }
  }

  lemma VersionsRead(sw: string, hw: string)
    requires sw != [] && ',' !in sw && hw != [] && !HasSpace(hw)
    ensures ScanVersions(sw + [','] + hw) == (Some(sw), Some(hw))
  {
    CutAt(sw, ',', hw);
    WordIsAll(hw);
  }

  lemma ScannableReads(u: UnitInfo)
    requires Scannable(u)
    ensures ScanUnit(PrintUnit(u)) == Filled(u)
  {
    var rest := u.sw + [','] + u.hw;
    assert PrintUnit(u) == u.name + [':'] + rest;
    CutAt(u.name, ':', rest);
    VersionsRead(u.sw, u.hw);
  }

  lemma ReadIsScannable(token: string, u: UnitInfo)
    requires ScanUnit(token) == Filled(u)
    ensures Scannable(u)
  {
    var rest := token[|u.name| + 1..];
    WordHasNoSpace(rest[|u.sw| + 1..]);
  }

  /** A record survives being printed and scanned exactly when its fields are nonempty and free of what ends them. */
  lemma UnitRoundTripIff(u: UnitInfo)
    ensures PrintUnit(u) == u.name + ":" + u.sw + "," + u.hw
    ensures ScanUnit(PrintUnit(u)) == Record(Some(u.name), Some(u.sw), Some(u.hw)) <==> Scannable(u)
  {
    if Scannable(u) {
      ScannableReads(u);
    }
    if ScanUnit(PrintUnit(u)) == Filled(u) {
      ReadIsScannable(PrintUnit(u), u);
    }
  }

  /** A record that breaks off is filled as far as it goes. */
  lemma PartOfUnitReads(name: string, sw: string, rest: string)
    requires name != [] && ':' !in name && sw != [] && ',' !in sw
    ensures ScanUnit(name) == Record(Some(name), None, None)
    ensures ScanUnit(name + [':'] + sw) == Record(Some(name), Some(sw), None)
    ensures ScanUnit(name + [':'] + ([','] + rest)) == Record(Some(name), None, None)
    ensures ScanUnit([':'] + rest) == Record(None, None, None)
  {
    UntilIs(name, |name|, ':');
    UntilIs(sw, |sw|, ',');
    CutAt(name, ':', sw);
    CutAt(name, ':', [','] + rest);
    assert name[..|name|] == name && sw[..|sw|] == sw;
  }

  function ScanAll(tokens: seq<string>): seq<Record> {
    if tokens == [] then [] else [ScanUnit(tokens[0])] + ScanAll(tokens[1..])
  }

  function FilledAll(units: seq<UnitInfo>): seq<Record> {
    if units == [] then [] else [Filled(units[0])] + FilledAll(units[1..])
  }

  /** Printing a list of clean units and reading the text back yields exactly the list. */
  lemma {:induction false} UnitsRoundTrip(units: seq<UnitInfo>)
    requires forall i | 0 <= i < |units| :: Clean(units[i])
    ensures |Tokens(PrintUnits(units), ';')| == |units|
    ensures ScanAll(Tokens(PrintUnits(units), ';')) == FilledAll(units)
  {
    if units != [] {
      UnitsRoundTrip(units[1..]);
      UnitRoundTripIff(units[0]);
      TokensCons(PrintUnit(units[0]), ';', PrintUnits(units[1..]));
    }
  }

  lemma {:induction false} ScanAllAppend(a: seq<string>, b: seq<string>)
    ensures ScanAll(a + b) == ScanAll(a) + ScanAll(b)
  {
    if a == [] {
      assert a + b == b;
    } else {
      assert (a + b)[1..] == a[1..] + b;
      ScanAllAppend(a[1..], b);
    }
  }

  lemma {:induction false} TokensOfTail(units: seq<UnitInfo>, tail: string)
    requires (forall i | 0 <= i < |units| :: Clean(units[i])) && tail != [] && ';' !in tail
    ensures Tokens(PrintUnits(units) + tail, ';') == Tokens(PrintUnits(units), ';') + [tail]
  {
    if units == [] {
      TokensLast(tail, ';');
      assert PrintUnits(units) + tail == tail;
    } else {
      var text, rest := PrintUnit(units[0]), PrintUnits(units[1..]);
      TokensOfTail(units[1..], tail);
      TokensCons(text, ';', rest);
      TokensCons(text, ';', rest + tail);
      assert PrintUnits(units) + tail == text + [';'] + (rest + tail);
      assert [text] + Tokens(rest, ';') + [tail] == [text] + (Tokens(rest, ';') + [tail]);
    }
  }

  /** Anything behind the last semicolon, a line end say, counts as one record more and is scanned like one. */
  lemma TailIsAnotherRecord(units: seq<UnitInfo>, tail: string)
    requires (forall i | 0 <= i < |units| :: Clean(units[i])) && tail != [] && ';' !in tail
    ensures |Tokens(PrintUnits(units) + tail, ';')| == |units| + 1
    ensures ScanAll(Tokens(PrintUnits(units) + tail, ';')) == FilledAll(units) + [ScanUnit(tail)]
  {
    TokensOfTail(units, tail);
    UnitsRoundTrip(units);
    ScanAllAppend(Tokens(PrintUnits(units), ';'), [tail]);
    assert [tail][1..] == [];
  }

  /** The first pass: counting tokens. */
  method CountUnits(text: string) returns (num: nat)
    ensures num == |Tokens(text, ';')|
  {
    num := 0;
    assert text[0..] == text;
    var token, pos := StrTok(text, 0, ';');
    while token.Some?
      invariant pos <= |text|
      invariant |Tokens(text, ';')| == num + (if token.Some? then 1 + |Tokens(text[pos..], ';')| else 0)
      decreases |text| - pos, token.Some?
    {
      num := num + 1;
      token, pos := StrTok(text, pos, ';');
    }
  }

  /**
   * Both passes: the array is allocated for the counted number of records, and the second pass fills exactly that
   * many, each from its token. A token that scans only in part fills its record only in part.
   */
  method ReadUnits(text: string) returns (units: array<Record>)
    ensures fresh(units) && units[..] == ScanAll(Tokens(text, ';'))
  {
    var num := CountUnits(text);
    ghost var all := Tokens(text, ';');
    units := new Record[num](_ => Record(None, None, None));
    var i := 0;
    assert text[0..] == text;
    var token, pos := StrTok(text, 0, ';');
    while token.Some?
      invariant pos <= |text| && i <= num == |all|
      invariant token.Some? ==> all[i..] == [token.value] + Tokens(text[pos..], ';')
      invariant token.None? ==> i == num
      invariant units[..i] == ScanAll(all[..i])
      decreases |text| - pos, token.Some?
    {
      NextToken(all, i, token.value, Tokens(text[pos..], ';'));
      ghost var before := units[..i];
      units[i] := ScanUnit(token.value);
      OneMore(all, i);
      assert units[..i + 1] == before + [ScanUnit(all[i])];
      i := i + 1;
      token, pos := StrTok(text, pos, ';');
      assert token.None? ==> all[i..] == [];
    }
    assert all[..i] == all;
  }

  lemma NextToken(all: seq<string>, i: nat, token: string, rest: seq<string>)
    requires i <= |all| && all[i..] == [token] + rest
    ensures i < |all| && all[i] == token && all[i + 1..] == rest
  {
    assert |all[i..]| == |all| - i && all[i] == all[i..][0];
    assert all[i + 1..] == all[i..][1..];
  }

  lemma OneMore(tokens: seq<string>, i: nat)
    requires i < |tokens|
    ensures ScanAll(tokens[..i + 1]) == ScanAll(tokens[..i]) + [ScanUnit(tokens[i])]
  {
    assert tokens[..i + 1] == tokens[..i] + [tokens[i]];
    ScanAllAppend(tokens[..i], [tokens[i]]);
  }
}
