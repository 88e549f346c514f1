/** JSON Pointer (RFC 6901): the string form of a path, and array indices. */
module JsonPointer {
  import opened Common

  type Path = seq<string>

  // ---------------------------------------------------------------- sections 3 and 4: tokens

  function Escape(t: string): string {
    if t == "" then ""
    else (if t[0] == '~' then "~0" else if t[0] == '/' then "~1" else [t[0]]) + Escape(t[1..])
  }

  function Unescape(s: string): Option<string> {
    if s == "" then Some("")
    else if s[0] == '~' then
      if |s| > 1 && (s[1] == '0' || s[1] == '1') then
        Prepend(if s[1] == '0' then '~' else '/', Unescape(s[2..]))
      else None
    else Prepend(s[0], Unescape(s[1..]))
  }

  function Prepend(c: char, rest: Option<string>): Option<string> {
    if rest.Some? then Some([c] + rest.value) else None
  }

  function SegmentLength(s: string): (n: nat)
    ensures n <= |s|
  {
    if s == "" || s[0] == '/' then 0 else 1 + SegmentLength(s[1..])
  }

  /** The path a pointer names, or nothing when the syntax of section 3 does not allow the string. */
  function Parse(s: string): Option<Path>
    decreases |s|
  {
    if s == "" then Some([])
    else if s[0] != '/' then None
    else
      var t := s[1..];
      var n := SegmentLength(t);
      Then(Unescape(t[..n]), Parse(t[n..]))
  }

  function Then(token: Option<string>, rest: Option<Path>): Option<Path> {
    if token.Some? && rest.Some? then Some([token.value] + rest.value) else None
  }

  function Print(p: Path): string { if p == [] then "" else "/" + Escape(p[0]) + Print(p[1..]) }

  lemma {:induction false} UnescapeEscaped(t: string)
    ensures Unescape(Escape(t)) == Some(t)
    ensures forall i :: 0 <= i < |Escape(t)| ==> Escape(t)[i] != '/'
  {
    if t != "" {
      UnescapeEscaped(t[1..]);
      UnescapeStep(t[0], Escape(t[1..]));
      assert t == [t[0]] + t[1..];
    }
  }

  lemma UnescapeStep(c: char, rest: string)
    ensures Unescape((if c == '~' then "~0" else if c == '/' then "~1" else [c]) + rest) == Prepend(c, Unescape(rest))
  {
    var head := if c == '~' then "~0" else if c == '/' then "~1" else [c];
    assert (head + rest)[|head|..] == rest;
    assert (head + rest)[0] == head[0] && (|head| == 2 ==> (head + rest)[1] == head[1]);
  }

  lemma {:induction false} EscapeUnescaped(s: string)
    requires Unescape(s).Some? && forall i :: 0 <= i < |s| ==> s[i] != '/'
    ensures Escape(Unescape(s).value) == s
    decreases |s|
  {
    if s != "" {
      var n := if s[0] == '~' then 2 else 1;
      EscapeUnescaped(s[n..]);
      var t := Unescape(s).value;
      assert t[1..] == Unescape(s[n..]).value;
      assert s == s[..n] + s[n..];
      assert Escape(t) == s[..n] + Escape(t[1..]);
    }
  }

  lemma {:induction false} SegmentEnds(a: string, rest: string)
    requires (forall i :: 0 <= i < |a| ==> a[i] != '/') && (rest == "" || rest[0] == '/')
    ensures SegmentLength(a + rest) == |a|
  {
    if a == "" {
      assert a + rest == rest;
    } else {
      assert (a + rest)[1..] == a[1..] + rest;
      SegmentEnds(a[1..], rest);
    }
  }

  lemma {:induction false} SegmentPlain(s: string)
    ensures var n := SegmentLength(s);
      (forall i :: 0 <= i < n ==> s[i] != '/') && (n < |s| ==> s[n] == '/')
  {
    if s != "" && s[0] != '/' { SegmentPlain(s[1..]); }
  }

  lemma ParseStep(a: string, rest: string)
    requires (forall i :: 0 <= i < |a| ==> a[i] != '/') && (rest == "" || rest[0] == '/')
    ensures Parse("/" + a + rest) == Then(Unescape(a), Parse(rest))
  {
    SegmentEnds(a, rest);
    Pieces(a, rest);
    Pieces("/", a + rest);
    assert "/" + a + rest == "/" + (a + rest);
  }

  lemma Pieces(a: string, rest: string)
    ensures (a + rest)[..|a|] == a && (a + rest)[|a|..] == rest
  {
  }

  lemma {:induction false} ParsePrinted(p: Path)
    ensures Parse(Print(p)) == Some(p)
  {
    if p != [] {
      ParsePrinted(p[1..]);
      UnescapeEscaped(p[0]);
      ParseStep(Escape(p[0]), Print(p[1..]));
      assert p == [p[0]] + p[1..];
    }
  }

  lemma PrintStep(token: string, rest: Path)
    ensures Print([token] + rest) == "/" + Escape(token) + Print(rest)
  {
    assert ([token] + rest)[1..] == rest;
  }

  lemma Rejoin(s: string, n: nat)
    requires s != "" && s[0] == '/' && n <= |s| - 1
    ensures s == "/" + s[1..][..n] + s[1..][n..]
  {
  }

  lemma {:induction false} PrintParsed(s: string)
    requires Parse(s).Some?
    ensures Print(Parse(s).value) == s
    decreases |s|
  {
    if s != "" {
      var t := s[1..];
      var n := SegmentLength(t);
      var a, rest := t[..n], t[n..];
      SegmentPlain(t);
      Rejoin(s, n);
      PrintParsed(rest);
      EscapeUnescaped(a);
      PrintStep(Unescape(a).value, Parse(rest).value);
    }
  }

  /** The syntax is a bijection between paths and the strings it allows. */
  lemma ParseIsPrint(s: string, p: Path)
    ensures Parse(s) == Some(p) <==> s == Print(p)
  {
    ParsePrinted(p);
    if Parse(s).Some? { PrintParsed(s); }
  }

  // ---------------------------------------------------------------- section 4: array indices

  predicate IsDigit(c: char) { '0' <= c <= '9' }

  predicate AllDigits(t: string) { forall i :: 0 <= i < |t| ==> IsDigit(t[i]) }

  function NumberOf(t: string): nat
    requires AllDigits(t)
  {
    if t == "" then 0 else NumberOf(t[..|t| - 1]) * 10 + (t[|t| - 1] as int - '0' as int)
  }

  /** Digits without a leading zero. */
  function Index(t: string): Option<nat> {
    if t != "" && AllDigits(t) && (|t| > 1 ==> t[0] != '0') then Some(NumberOf(t)) else None
  }

  lemma {:induction false} IndexOfDigits(n: nat)
    ensures Index(Digits(n)) == Some(n) && (n > 0 ==> Digits(n)[0] != '0')
  {
    if n >= 10 {
      IndexOfDigits(n / 10);
      var t := Digits(n);
      assert t[..|t| - 1] == Digits(n / 10);
      assert t[0] == Digits(n / 10)[0];
    } else {
      var t := Digits(n);
      assert t == [DigitChar(n)] && AllDigits(t);
      assert t[..0] == "" && NumberOf(t) == n;
    }
  }

  lemma {:induction false} DigitsOfIndex(t: string)
    requires Index(t).Some?
    ensures Digits(Index(t).value) == t && (t[0] != '0' ==> Index(t).value > 0)
  {
    var n, last := Index(t).value, |t| - 1;
    if last == 0 {
      assert t[..last] == "" && NumberOf(t) == t[0] as int - '0' as int;
      assert t == [DigitChar(n)];
    } else {
      DigitsOfIndex(t[..last]);
      assert t == t[..last] + [t[last]];
      assert n / 10 == NumberOf(t[..last]) && DigitChar(n % 10) == t[last];
    }
  }

  /** Every index has exactly one token. */
  lemma IndexIsDigits(t: string, n: nat)
    ensures Index(t) == Some(n) <==> t == Digits(n)
  {
    IndexOfDigits(n);
    if Index(t).Some? { DigitsOfIndex(t); }
  }
}
