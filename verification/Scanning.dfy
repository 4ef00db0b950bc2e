/** The pieces of `sscanf`, `strtok` and `printf` that the text formats of `cloud_comm.c` rely on. */
module Scanning {
  import opened Bytes

  /** The longest prefix without the character `c`: what `%[^c]` reads and where `strtok` ends a token. */
  function Until(s: string, c: char): (t: string)
    ensures |t| <= |s| && t == s[..|t|] && c !in t
    ensures |t| < |s| ==> s[|t|] == c
  {
    if s == [] || s[0] == c then [] else [s[0]] + Until(s[1..], c)
  }

  lemma {:induction false} UntilStops(a: string, c: char, rest: string)
    requires c !in a
    ensures Until(a + [c] + rest, c) == a
  {
    if a != [] {
      assert (a + [c] + rest)[1..] == a[1..] + [c] + rest;
      UntilStops(a[1..], c, rest);
    }
  }

  /** The strings between the characters `c`. */
  function Pieces(s: string, c: char): (ps: seq<string>)
    ensures ps != []
    decreases |s|
  {
    var t := Until(s, c);
    if |t| == |s| then [s] else [t] + Pieces(s[|t| + 1..], c)
  }

  /** `%[^c]c` up to `n` times in a row: the strings converted, until one is empty or its `c` is missing. */
  function Conversions(s: string, c: char, n: nat): (fs: seq<string>)
    ensures |fs| <= n
    ensures forall i | 0 <= i < |fs| :: fs[i] != [] && c !in fs[i]
  {
    if n == 0 then []
    else
      var t := Until(s, c);
      if t == [] then []
      else if |t| == |s| then [t]
      else [t] + Conversions(s[|t| + 1..], c, n - 1)
  }

  lemma NextPiece(t: string, rest: seq<string>, got: seq<string>)
    requires got <= rest
    ensures var all := [t] + rest;
      && [t] + got <= all
      && (|got| < |rest| ==> all[|got| + 1] == rest[|got|])
  {
  }

  /**
   * The conversions are the longest run of nonempty pieces at the front, `n` of them at most: a piece that is empty
   * or not there ends them.
   */
  lemma {:induction false} ConversionsExact(s: string, c: char, n: nat)
    ensures var ps, fs := Pieces(s, c), Conversions(s, c, n);
      && fs <= ps && |fs| <= n && (forall i | 0 <= i < |fs| :: fs[i] != [])
      && (|fs| < n ==> |fs| == |ps| || ps[|fs|] == [])
    decreases n
  {
    if n != 0 {
      var t, ps := Until(s, c), Pieces(s, c);
      assert ps[0] == t;
      if t != [] && |t| != |s| {
        var rest := s[|t| + 1..];
        ConversionsExact(rest, c, n - 1);
        NextPiece(t, Pieces(rest, c), Conversions(rest, c, n - 1));
      }
    }
  }

  /** All `n` conversions succeed exactly when the first `n` pieces are there and nonempty; they are those pieces. */
  lemma ConversionsIff(s: string, c: char, n: nat)
    ensures var ps := Pieces(s, c);
      && (|Conversions(s, c, n)| == n <==> n <= |ps| && forall i | 0 <= i < n :: ps[i] != [])
      && (|Conversions(s, c, n)| == n ==> Conversions(s, c, n) == ps[..n])
  {
    ConversionsExact(s, c, n);
    var ps, fs := Pieces(s, c), Conversions(s, c, n);
    assert forall i | 0 <= i < |fs| :: ps[i] == fs[i];
  }

  /** The pieces put together again with `c` between them are the text, and none holds a `c`. */
  lemma {:induction false} PiecesSpell(s: string, c: char)
    ensures Spelled(Pieces(s, c), c) == s && forall p <- Pieces(s, c) :: c !in p
    decreases |s|
  {
    var t := Until(s, c);
    if |t| < |s| {
      var rest := s[|t| + 1..];
      PiecesSpell(rest, c);
      assert s == t + [c] + rest;
      assert Pieces(s, c)[1..] == Pieces(rest, c);
    }
  }

  function Spelled(ps: seq<string>, c: char): string
    requires ps != []
  {
    if |ps| == 1 then ps[0] else ps[0] + [c] + Spelled(ps[1..], c)
  }

  /** The tokens `strtok` yields one by one: the maximal runs without the delimiter. */
  function Tokens(s: string, d: char): seq<string>
    decreases |s|
  {
    if s == [] then []
    else if s[0] == d then Tokens(s[1..], d)
    else
      var t := Until(s, d);
      [t] + Tokens(s[|t|..], d)
  }

  lemma TokensCons(t: string, d: char, rest: string)
    requires t != [] && d !in t
    ensures Tokens(t + [d] + rest, d) == [t] + Tokens(rest, d)
  {
    UntilStops(t, d, rest);
    var s := t + [d] + rest;
    assert s[|t|..] == [d] + rest && ([d] + rest)[1..] == rest;
  }

  /** A last token need not be followed by the delimiter. */
  lemma TokensLast(t: string, d: char)
    requires t != [] && d !in t
    ensures Tokens(t, d) == [t]
  {
    UntilIs(t, |t|, d);
    assert t[..|t|] == t && t[|t|..] == [];
  }

  method SkipDelimiters(s: string, pos: nat, d: char) returns (i: nat)
    requires pos <= |s|
    ensures pos <= i <= |s| && (i < |s| ==> s[i] != d)
    ensures Tokens(s[pos..], d) == Tokens(s[i..], d)
  {
    i := pos;
    while i < |s| && s[i] == d
      invariant pos <= i <= |s|
      invariant Tokens(s[pos..], d) == Tokens(s[i..], d)
    {
      assert s[i..][1..] == s[i + 1..];
      i := i + 1;
    }
  }

  /** `Until` is the prefix before the first `c`. */
  lemma {:induction false} UntilIs(s: string, n: nat, c: char)
    requires n <= |s| && c !in s[..n] && (n < |s| ==> s[n] == c)
    ensures Until(s, c) == s[..n]
  {
    if n > 0 {
      assert s[0] == s[..n][0] && s[1..][..n - 1] == s[..n][1..];
      UntilIs(s[1..], n - 1, c);
    }
  }

  method TokenEnd(s: string, i: nat, d: char) returns (next: nat)
    requires i <= |s|
    ensures i <= next <= |s| && s[i..next] == Until(s[i..], d)
  {
    next := i;
    while next < |s| && s[next] != d
      invariant i <= next <= |s| && d !in s[i..next]
    {
      next := next + 1;
    }
    assert s[i..][..next - i] == s[i..next];
    UntilIs(s[i..], next - i, d);
  }

  /** One `strtok` call at position `pos`: skip delimiters, then take the token. */
  method StrTok(s: string, pos: nat, d: char) returns (token: Option<string>, next: nat)
    requires pos <= |s|
    ensures pos <= next <= |s|
    ensures token.None? ==> Tokens(s[pos..], d) == []
    ensures token.Some? ==> pos < next && Tokens(s[pos..], d) == [token.value] + Tokens(s[next..], d)
  {
    var i := SkipDelimiters(s, pos, d);
    if i == |s| {
      return None, i;
    }
    next := TokenEnd(s, i, d);
    token := Some(s[i..next]);
    assert s[i..][|s[i..next]|..] == s[next..];
  }

  // ---- numbers

  predicate IsSpace(c: char) {
    c == ' ' || '\t' <= c <= '\r'
  }

  function Digit(n: nat): char
    requires n < 10
  {
    '0' + n as char
  }

  predicate IsDigit(c: char) {
    '0' <= c <= '9'
  }

  function DigitValue(c: char): nat
    requires IsDigit(c)
  {
    c as nat - '0' as nat
  }

  /** `%d` of a nonnegative number. */
  function Decimal(n: nat): (s: string)
    ensures s != [] && forall i | 0 <= i < |s| :: IsDigit(s[i])
  {
    if n < 10 then [Digit(n)] else Decimal(n / 10) + [Digit(n % 10)]
  }

  /** The value of a string of digits. */
  function Value(s: string): nat
    requires forall i | 0 <= i < |s| :: IsDigit(s[i])
  {
    if s == [] then 0 else Value(s[..|s| - 1]) * 10 + DigitValue(s[|s| - 1])
  }

  lemma {:induction false} DecimalRoundTrip(n: nat)
    ensures Value(Decimal(n)) == n
  {
    if n >= 10 {
      DecimalRoundTrip(n / 10);
      assert Decimal(n)[..|Decimal(n)| - 1] == Decimal(n / 10);
    } else {
      assert Decimal(n)[..0] == [];
    }
  }

  function SkipSpace(s: string): string {
    if s == [] || !IsSpace(s[0]) then s else SkipSpace(s[1..])
  }

  /** The digits at the front. */
  function Digits(s: string): (t: string)
    ensures |t| <= |s| && forall i | 0 <= i < |t| :: IsDigit(t[i])
  {
    if s == [] || !IsDigit(s[0]) then [] else [s[0]] + Digits(s[1..])
  }

  function ScanDigits(s: string): Option<(nat, string)> {
    var ds := Digits(s);
    if ds == [] then None else Some((Value(ds), s[|ds|..]))
  }

  function Wrap16(negative: bool, n: nat): uint16 {
    var v: int := n;
    (if negative then -v else v) % 0x1_0000
  }

  /** `%hd`: white space, a sign, digits; the number modulo 65536 and what follows it. */
  function ScanShort(s: string): Option<(uint16, string)> {
    var t := SkipSpace(s);
    var signed := t != [] && (t[0] == '-' || t[0] == '+');
    match ScanDigits(if signed then t[1..] else t)
    case None => None
    case Some((n, rest)) => Some((Wrap16(t[0] == '-', n), rest))
  }

  lemma {:induction false} DigitsStop(ds: string, rest: string)
    requires (forall i | 0 <= i < |ds| :: IsDigit(ds[i])) && (rest == [] || !IsDigit(rest[0]))
    ensures Digits(ds + rest) == ds
  {
    if ds == [] {
      assert ds + rest == rest;
    } else {
      assert (ds + rest)[1..] == ds[1..] + rest;
      DigitsStop(ds[1..], rest);
    }
  }

  lemma ScansDigits(ds: string, rest: string)
    requires ds != [] && (forall i | 0 <= i < |ds| :: IsDigit(ds[i])) && (rest == [] || !IsDigit(rest[0]))
    ensures ScanDigits(ds + rest) == Some((Value(ds), rest))
  {
    DigitsStop(ds, rest);
    assert (ds + rest)[|ds|..] == rest;
  }

  /** A number without white space and sign in front. */
  lemma ScansPlain(s: string, n: uint16, rest: string)
    requires s != [] && IsDigit(s[0]) && ScanDigits(s) == Some((n, rest))
    ensures ScanShort(s) == Some((n, rest))
  {
    assert SkipSpace(s) == s;
  }

  /** A 16-bit number printed with `%d` is what `%hd` reads. */
  lemma ShortReads(n: uint16, rest: string)
    requires rest == [] || !IsDigit(rest[0])
    ensures ScanShort(Decimal(n) + rest) == Some((n, rest))
  {
    var ds := Decimal(n);
    DecimalRoundTrip(n);
    ScansDigits(ds, rest);
    assert (ds + rest)[0] == ds[0];
    ScansPlain(ds + rest, n, rest);
  }

  /** White space in front of a number is skipped. */
  lemma {:induction false} SpacesSkipped(spaces: string, s: string)
    requires forall i | 0 <= i < |spaces| :: spaces[i] == ' ' || 9 <= spaces[i] as int <= 13
    ensures ScanShort(spaces + s) == ScanShort(s)
  {
    SkipsAll(spaces, s);
  }

  lemma {:induction false} SkipsAll(spaces: string, s: string)
    requires forall i | 0 <= i < |spaces| :: IsSpace(spaces[i])
    ensures SkipSpace(spaces + s) == SkipSpace(s)
  {
    if spaces == [] {
      assert spaces + s == s;
    } else {
      assert (spaces + s)[1..] == spaces[1..] + s;
      SkipsAll(spaces[1..], s);
    }
  }

  /** A negative number wraps round: what is read and what was printed add up to 0 modulo 65536. */
  lemma NegativeReads(n: nat, rest: string)
    requires rest == [] || !IsDigit(rest[0])
    ensures var r := ScanShort(['-'] + (Decimal(n) + rest));
      r.Some? && r.value.1 == rest && (r.value.0 + n) % 65536 == 0
  {
    var s := ['-'] + (Decimal(n) + rest);
    DecimalRoundTrip(n);
    ScansDigits(Decimal(n), rest);
    assert s[1..] == Decimal(n) + rest;
    NegativeWraps(n);
    ScansNegative(s, n, rest);
  }

  lemma NegativeWraps(n: nat)
    ensures (Wrap16(true, n) + n) % 65536 == 0
  {
  }

  lemma ScansNegative(s: string, n: nat, rest: string)
    requires s != [] && s[0] == '-' && ScanDigits(s[1..]) == Some((n, rest))
    ensures ScanShort(s) == Some((Wrap16(true, n), rest))
  {
    assert SkipSpace(s) == s;
  }
}
