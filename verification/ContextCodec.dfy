/**
 * The conversation context of a Prompt: a JSON list of integers (sections 5 and 6 of RFC 8259) in base64
 * (section 4 of RFC 4648), written to .status.context and read back from .spec.context.
 */
module ContextCodec {
  import opened Common

  type Byte = b: int | 0 <= b < 256
  type Sextet = v: int | 0 <= v < 64

  const MAX_INT: int := 0x7fff_ffff_ffff_ffff
  const MIN_INT: int := -0x8000_0000_0000_0000

  predicate Int64(n: int) { MIN_INT <= n <= MAX_INT }

  // ---------------------------------------------------------------- base64

  function Symbol(v: Sextet): char {
    if v < 26 then ('A' as int + v) as char
    else if v < 52 then ('a' as int + (v - 26)) as char
    else if v < 62 then ('0' as int + (v - 52)) as char
    else if v == 62 then '+'
    else '/'
  }

  function Value(c: char): Option<Sextet> {
    if 'A' <= c <= 'Z' then Some(c as int - 'A' as int)
    else if 'a' <= c <= 'z' then Some(c as int - 'a' as int + 26)
    else if '0' <= c <= '9' then Some(c as int - '0' as int + 52)
    else if c == '+' then Some(62)
    else if c == '/' then Some(63)
    else None
  }

  lemma ValueOfSymbol(v: Sextet)
    ensures Value(Symbol(v)) == Some(v)
    ensures Symbol(v) != '=' && Symbol(v) != '\r' && Symbol(v) != '\n'
  {
  }

  function Encode(b: seq<Byte>): string {
    if b == [] then ""
    else if |b| == 1 then [Symbol(b[0] / 4), Symbol(b[0] % 4 * 16), '=', '=']
    else if |b| == 2 then [Symbol(b[0] / 4), Symbol(b[0] % 4 * 16 + b[1] / 16), Symbol(b[1] % 16 * 4), '=']
    else
      [Symbol(b[0] / 4), Symbol(b[0] % 4 * 16 + b[1] / 16), Symbol(b[1] % 16 * 4 + b[2] / 64), Symbol(b[2] % 64)]
      + Encode(b[3..])
  }

  /** Line ends are skipped wherever they stand. */
  function DropLineEnds(s: string): string {
    if s == "" then "" else (if s[0] == '\r' || s[0] == '\n' then "" else [s[0]]) + DropLineEnds(s[1..])
  }

  function Three(a: int, b: int, c: int, d: int): seq<Byte>
    requires 0 <= a < 64 && 0 <= b < 64 && 0 <= c < 64 && 0 <= d < 64
    ensures |Three(a, b, c, d)| == 3
  {
    [a * 4 + b / 16, b % 16 * 16 + c / 4, c % 4 * 64 + d]
  }

  /** Groups of four symbols; padding only in the last group; left-over bits are not checked. */
  function DecodeGroups(s: string): Option<seq<Byte>> {
    if s == "" then Some([])
    else if |s| < 4 then None
    else
      match (Value(s[0]), Value(s[1]), Value(s[2]), Value(s[3]))
      case (Some(a), Some(b), Some(c), Some(d)) =>
        (match DecodeGroups(s[4..])
         case None => None
         case Some(rest) => Some(Three(a, b, c, d) + rest))
      case (Some(a), Some(b), Some(c), None) =>
        if s[3..] == "=" then Some(Three(a, b, c, 0)[..2]) else None
      case (Some(a), Some(b), None, None) =>
        if s[2..] == "==" then Some(Three(a, b, 0, 0)[..1]) else None
      case _ => None
  }

  function Decode(s: string): Option<seq<Byte>> { DecodeGroups(DropLineEnds(s)) }

  predicate NoLineEnds(s: string) { forall i :: 0 <= i < |s| ==> s[i] != '\r' && s[i] != '\n' }

  lemma {:induction false} DropNothing(s: string)
    requires NoLineEnds(s)
    ensures DropLineEnds(s) == s
  {
    if s != "" {
      assert forall i :: 0 <= i < |s[1..]| ==> s[1..][i] == s[i + 1];
      DropNothing(s[1..]);
    }
  }

  lemma Regroup(x: Byte, y: Byte, z: Byte)
    ensures Three(x / 4, x % 4 * 16 + y / 16, y % 16 * 4 + z / 64, z % 64) == [x, y, z]
    ensures Three(x / 4, x % 4 * 16 + y / 16, y % 16 * 4, 0)[..2] == [x, y]
    ensures Three(x / 4, x % 4 * 16, 0, 0)[..1] == [x]
  {
  }

  lemma DecodeFour(a: Sextet, b: Sextet, c: Sextet, d: Sextet, t: string)
    ensures var s := [Symbol(a), Symbol(b), Symbol(c), Symbol(d)] + t;
      DecodeGroups(s) == match DecodeGroups(t) case None => None case Some(rest) => Some(Three(a, b, c, d) + rest)
  {
    ValueOfSymbol(a);
    ValueOfSymbol(b);
    ValueOfSymbol(c);
    ValueOfSymbol(d);
    var s := [Symbol(a), Symbol(b), Symbol(c), Symbol(d)] + t;
    assert s[4..] == t;
  }

  lemma DecodeThree(a: Sextet, b: Sextet, c: Sextet)
    ensures DecodeGroups([Symbol(a), Symbol(b), Symbol(c), '=']) == Some(Three(a, b, c, 0)[..2])
  {
    ValueOfSymbol(a);
    ValueOfSymbol(b);
    ValueOfSymbol(c);
    assert [Symbol(a), Symbol(b), Symbol(c), '='][3..] == "=";
  }

  lemma DecodeTwo(a: Sextet, b: Sextet)
    ensures DecodeGroups([Symbol(a), Symbol(b), '=', '=']) == Some(Three(a, b, 0, 0)[..1])
  {
    ValueOfSymbol(a);
    ValueOfSymbol(b);
    assert [Symbol(a), Symbol(b), '=', '='][2..] == "==";
  }

  lemma OneByte(p: Byte)
    ensures DecodeGroups(Encode([p])) == Some([p])
  {
    var x, y := p / 4, p % 4 * 16;
    var text := Encode([p]);
    assert text == [Symbol(x), Symbol(y), '=', '='];
    DecodeTwo(x, y);
    Regroup(p, 0, 0);
  }

  lemma TwoBytes(p: Byte, q: Byte)
    ensures DecodeGroups(Encode([p, q])) == Some([p, q])
  {
    var x, y, z := p / 4, p % 4 * 16 + q / 16, q % 16 * 4;
    var text := Encode([p, q]);
    assert text == [Symbol(x), Symbol(y), Symbol(z), '='];
    DecodeThree(x, y, z);
    Regroup(p, q, 0);
  }

  lemma ShortGroups(b: seq<Byte>)
    requires 1 <= |b| <= 2
    ensures DecodeGroups(Encode(b)) == Some(b)
  {
    if |b| == 1 {
      assert b == [b[0]];
      OneByte(b[0]);
    } else {
      assert b == [b[0], b[1]];
      TwoBytes(b[0], b[1]);
    }
  }

  lemma {:induction false} EncodedGroups(b: seq<Byte>)
    ensures DecodeGroups(Encode(b)) == Some(b)
  {
    if b == [] {
    } else if |b| <= 2 {
      ShortGroups(b);
    } else {
      var x, y, z, w := b[0] / 4, b[0] % 4 * 16 + b[1] / 16, b[1] % 16 * 4 + b[2] / 64, b[2] % 64;
      var rest := b[3..];
      EncodedGroups(rest);
      DecodeFour(x, y, z, w, Encode(rest));
      Regroup(b[0], b[1], b[2]);
      assert Encode(b) == [Symbol(x), Symbol(y), Symbol(z), Symbol(w)] + Encode(rest);
      assert DecodeGroups(Encode(b)) == Some([b[0], b[1], b[2]] + rest);
      assert b == [b[0], b[1], b[2]] + rest;
    }
  }

  lemma {:induction false} EncodedNoLineEnds(b: seq<Byte>)
    ensures NoLineEnds(Encode(b))
  {
    if |b| >= 3 {
      EncodedNoLineEnds(b[3..]);
    }
  }

  /** Section 4 of RFC 4648: decoding undoes encoding, for every byte string. */
  lemma Base64RoundTrip(b: seq<Byte>)
    ensures Decode(Encode(b)) == Some(b)
    ensures b != [] ==> Encode(b) != ""
  {
    EncodedGroups(b);
    EncodedNoLineEnds(b);
    DropNothing(Encode(b));
  }

  // ---------------------------------------------------------------- the JSON list

  predicate IsDigit(c: char) { '0' <= c <= '9' }

  predicate IsSpace(c: char) { c == ' ' || c == '\t' || c == '\n' || c == '\r' }

  function SkipSpace(s: string): (r: string)
    ensures |r| <= |s|
  {
    if s != "" && IsSpace(s[0]) then SkipSpace(s[1..]) else s
  }

  function PrintElements(xs: seq<int>): string
    requires xs != []
  {
    Decimal(xs[0]) + if |xs| == 1 then "]" else "," + PrintElements(xs[1..])
  }

  /** json.Marshal of a []int; a nil slice prints as null. */
  function Print(context: Option<seq<int>>): string {
    match context
    case None => "null"
    case Some(xs) => if xs == [] then "[]" else "[" + PrintElements(xs)
  }

  function ReadDigits(s: string, acc: nat): (r: (nat, string))
    ensures |r.1| <= |s|
  {
    if s != "" && IsDigit(s[0]) then ReadDigits(s[1..], acc * 10 + (s[0] as int - '0' as int)) else (acc, s)
  }

  function Signed(negative: bool, n: int): int { if negative then -n else n }

  /** An integer without leading zeros; what follows a fraction or an exponent is left over and fails later. */
  function ReadInt(s: string): (r: Option<(int, string)>)
    ensures r.Some? ==> |r.value.1| < |s|
  {
    var negative := s != "" && s[0] == '-';
    var body := if negative then s[1..] else s;
    if body == "" || !IsDigit(body[0]) then None
    else
      var (n, rest) := if body[0] == '0' then (0, body[1..]) else ReadDigits(body[1..], body[0] as int - '0' as int);
      var v := Signed(negative, n);
      if Int64(v) then Some((v, rest)) else None
  }

  /** An element of the list; null leaves the zero value. */
  function ReadElement(s: string): (r: Option<(int, string)>)
    ensures r.Some? ==> |r.value.1| < |s|
  {
    if |s| >= 4 && s[..4] == "null" then Some((0, s[4..])) else ReadInt(s)
  }

  /** The elements up to the closing bracket, and only space behind it. */
  function ReadElements(s: string): Option<seq<int>>
    decreases |s|
  {
    match ReadElement(s)
    case None => None
    case Some((v, rest)) =>
      var r := SkipSpace(rest);
      if r == "" then None
      else if r[0] == ']' then (if SkipSpace(r[1..]) == "" then Some([v]) else None)
      else if r[0] == ',' then
        (match ReadElements(SkipSpace(r[1..]))
         case None => None
         case Some(vs) => Some([v] + vs))
      else None
  }

  /** json.Unmarshal into a []int. */
  function Parse(s: string): Option<Option<seq<int>>> {
    var t := SkipSpace(s);
    if |t| >= 4 && t[..4] == "null" then (if SkipSpace(t[4..]) == "" then Some(None) else None)
    else if t != "" && t[0] == '[' then
      var u := SkipSpace(t[1..]);
      if u != "" && u[0] == ']' then (if SkipSpace(u[1..]) == "" then Some(Some([])) else None)
      else
        match ReadElements(u)
        case None => None
        case Some(xs) => Some(Some(xs))
    else None
  }

  lemma {:induction false} ReadPrintedDigits(n: nat, t: string)
    ensures ReadDigits(Digits(n) + t, 0) == ReadDigits(t, n)
    ensures IsDigit(Digits(n)[0]) && (n > 0 ==> Digits(n)[0] != '0')
  {
    if n < 10 {
      assert (Digits(n) + t)[1..] == t;
    } else {
      var d := [DigitChar(n % 10)];
      assert Digits(n) + t == Digits(n / 10) + (d + t);
      ReadPrintedDigits(n / 10, d + t);
      assert (d + t)[1..] == t;
    }
  }

  predicate EndsNumber(t: string) { t != "" && !IsDigit(t[0]) }

  lemma ReadPrintedInt(n: int, t: string)
    requires Int64(n) && EndsNumber(t)
    ensures ReadInt(Decimal(n) + t) == Some((n, t))
    ensures Decimal(n)[0] == '-' || IsDigit(Decimal(n)[0])
  {
    var k := if n < 0 then -n else n;
    var s, body := Decimal(n) + t, Digits(k) + t;
    ReadPrintedDigits(k, t);
    assert n < 0 ==> s[1..] == body;
    assert body[0] == Digits(k)[0];
    if k == 0 {
      assert body[1..] == t;
    } else {
      assert ReadDigits(body, 0) == ReadDigits(body[1..], body[0] as int - '0' as int);
    }
  }

  lemma SkipNone(s: string)
    requires s != "" && !IsSpace(s[0])
    ensures SkipSpace(s) == s
  {
  }

  lemma ReadPrintedElement(n: int, t: string)
    requires Int64(n) && EndsNumber(t) && !IsSpace(t[0])
    ensures var s := Decimal(n) + t;
      && ReadElement(s) == Some((n, t)) && SkipSpace(t) == t
      && s != "" && !IsSpace(s[0]) && s[0] != ']' && s[0] != 'n'
  {
    ReadPrintedInt(n, t);
    var s := Decimal(n) + t;
    assert s[0] == Decimal(n)[0];
    assert |s| >= 4 ==> s[..4][0] != 'n';
    SkipNone(t);
  }

  lemma {:induction false} ReadPrintedElements(xs: seq<int>)
    requires xs != [] && forall i :: 0 <= i < |xs| ==> Int64(xs[i])
    ensures ReadElements(PrintElements(xs)) == Some(xs)
    ensures var s := PrintElements(xs); s != "" && !IsSpace(s[0]) && s[0] != ']' && s[0] != 'n'
    decreases |xs|
  {
    if |xs| == 1 {
      ReadPrintedElement(xs[0], "]");
      assert "]"[1..] == "";
      assert xs == [xs[0]];
    } else {
      var tail := PrintElements(xs[1..]);
      ReadPrintedElements(xs[1..]);
      ReadPrintedElement(xs[0], "," + tail);
      assert ("," + tail)[1..] == tail;
      SkipNone(tail);
      assert xs == [xs[0]] + xs[1..];
    }
  }

  lemma ParsePrinted(context: Option<seq<int>>)
    requires context.Some? ==> forall i :: 0 <= i < |context.value| ==> Int64(context.value[i])
    ensures Parse(Print(context)) == Some(context)
  {
    var s := Print(context);
    SkipNone(s);
    match context
    case None =>
      assert s[..4] == "null" && s[4..] == "";
    case Some(xs) =>
      assert |s| >= 4 ==> s[..4][0] == '[';
      if xs == [] {
        assert s[1..] == "]";
        assert s[1..][1..] == "";
      } else {
        ReadPrintedElements(xs);
        assert s[1..] == PrintElements(xs);
        SkipNone(s[1..]);
      }
  }

  // ---------------------------------------------------------------- the codec

  function Bytes(s: string): seq<Byte>
    requires forall i :: 0 <= i < |s| ==> s[i] as int < 256
  {
    seq(|s|, i requires 0 <= i < |s| => s[i] as int)
  }

  function Text(b: seq<Byte>): string { seq(|b|, i requires 0 <= i < |b| => b[i] as char) }

  lemma {:induction false} DigitsAscii(n: nat)
    ensures forall i :: 0 <= i < |Digits(n)| ==> Digits(n)[i] as int < 256
  {
    if n >= 10 { DigitsAscii(n / 10); }
  }

  lemma {:induction false} ElementsAscii(xs: seq<int>)
    requires xs != []
    ensures forall i :: 0 <= i < |PrintElements(xs)| ==> PrintElements(xs)[i] as int < 256
    decreases |xs|
  {
    DigitsAscii(if xs[0] < 0 then -xs[0] else xs[0]);
    if |xs| > 1 { ElementsAscii(xs[1..]); }
  }

  lemma PrintAscii(context: Option<seq<int>>)
    ensures forall i :: 0 <= i < |Print(context)| ==> Print(context)[i] as int < 256
  {
    if context.Some? && context.value != [] { ElementsAscii(context.value); }
  }

  /** What a generated response leaves in .status.context. */
  function EncodeContext(context: Option<seq<int>>): string {
    PrintAscii(context);
    Encode(Bytes(Print(context)))
  }

  datatype Decoded = Context(value: Option<seq<int>>) | BadBase64 | BadJson

  /** What a pass makes of .spec.context; the empty string means no context. */
  function DecodeContext(s: string): Decoded {
    if s == "" then Context(None)
    else
      match Decode(s)
      case None => BadBase64
      case Some(b) =>
        match Parse(Text(b))
        case None => BadJson
        case Some(context) => Context(context)
  }

  /** Copying .status.context to .spec.context hands over the same list, empty and nil lists included. */
  lemma ContextRoundTrip(context: Option<seq<int>>)
    requires context.Some? ==> forall i :: 0 <= i < |context.value| ==> Int64(context.value[i])
    ensures EncodeContext(context) != ""
    ensures DecodeContext(EncodeContext(context)) == Context(context)
  {
    PrintAscii(context);
    var s := Print(context);
    Base64RoundTrip(Bytes(s));
    assert s != "";
    assert Text(Bytes(s)) == s;
    ParsePrinted(context);
  }
}
