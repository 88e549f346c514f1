/**
 * The JSON list inside a context, read and written as the grammar of RFC 8259 has it: over the tokens of the text and
 * over numbers by their decimal places, not over the characters as the codec reads them.
 */
module ContextList {
  import opened Common
  import opened ContextCodec
  import F = ContextFormat
  import JP = JsonPointer
  import JT = JsonText
  import S = Scanners

  // ---------------------------------------------------------------- the grammar over tokens

  /** Section 6 of RFC 8259 without fractions and exponents: an optional minus, and digits without a leading zero. */
  function Integer(text: string): Option<int> {
    var negative := text != "" && text[0] == '-';
    match JP.Index(if negative then text[1..] else text)
    case None => None
    case Some(n) =>
      var v := if negative then 0 - n else n;
      if -0x8000_0000_0000_0000 <= v <= 0x7fff_ffff_ffff_ffff then Some(v) else None
  }

  /** An element: a number that fits 64 bits, or null for zero. */
  function Element(text: string): Option<int> { if text == "null" then Some(0) else Integer(text) }

  /** Elements with commas between them, and the closing bracket at the end. */
  function Elements(ts: seq<JT.Token>): Option<seq<int>> {
    if |ts| < 2 || !ts[0].Word? || Element(ts[0].text).None? then None
    else if ts[1..] == [JT.Punct(']')] then Some([Element(ts[0].text).value])
    else if ts[1] == JT.Punct(',') && Elements(ts[2..]).Some? then
      Some([Element(ts[0].text).value] + Elements(ts[2..]).value)
    else None
  }

  function ListOf(ts: seq<JT.Token>): Option<Option<seq<int>>> {
    if ts == [JT.Word("null")] then Some(None)
    else if ts == [JT.Punct('['), JT.Punct(']')] then Some(Some([]))
    else if ts != [] && ts[0] == JT.Punct('[') && Elements(ts[1..]).Some? then Some(Some(Elements(ts[1..]).value))
    else None
  }

  function LexedElements(s: string): Option<seq<int>> {
    var ts := JT.Lex(s);
    if ts.Some? then Elements(ts.value) else None
  }

  function LexedList(s: string): Option<Option<seq<int>>> {
    var ts := JT.Lex(s);
    if ts.Some? then ListOf(ts.value) else None
  }

  // ---------------------------------------------------------------- reading

  lemma SpaceIsWs(c: char)
    ensures IsSpace(c) <==> S.Ws(c)
  {
    S.ScannerTests(c);
  }

  lemma {:induction false} LexSkips(s: string)
    ensures JT.Lex(SkipSpace(s)) == JT.Lex(s)
    ensures SkipSpace(s) != "" ==> !IsSpace(SkipSpace(s)[0])
    ensures SkipSpace(s) == "" <==> JT.Lex(s) == Some([])
  {
    if s != "" {
      SpaceIsWs(s[0]);
      if IsSpace(s[0]) { LexSkips(s[1..]); }
    }
  }

  /** How many digits a text begins with. */
  function DigitRun(s: string): (k: nat)
    ensures k <= |s|
  {
    if s != "" && IsDigit(s[0]) then 1 + DigitRun(s[1..]) else 0
  }

  lemma {:induction false} DigitRunEnds(s: string)
    ensures var k := DigitRun(s); JP.AllDigits(s[..k]) && (k < |s| ==> !JP.IsDigit(s[k]))
  {
    if s != "" && IsDigit(s[0]) {
      DigitRunEnds(s[1..]);
      var k := DigitRun(s[1..]);
      assert s[..k + 1] == [s[0]] + s[1..][..k];
    }
  }

  /** Reading digits one by one adds up their places. */
  lemma {:induction false} DigitsAddUp(pre: string, s: string)
    requires JP.AllDigits(pre)
    ensures var k := DigitRun(s);
      && JP.AllDigits(pre + s[..k])
      && ReadDigits(s, JP.NumberOf(pre)) == (JP.NumberOf(pre + s[..k]), s[k..])
    decreases |s|
  {
    DigitRunEnds(s);
    if s != "" && IsDigit(s[0]) {
      var k, next := DigitRun(s), pre + [s[0]];
      assert next[..|next| - 1] == pre;
      DigitsAddUp(next, s[1..]);
      assert next + s[1..][..k - 1] == pre + s[..k] && s[1..][k - 1..] == s[k..];
    } else {
      assert pre + s[..0] == pre && s[0..] == s;
    }
  }

  lemma WordChars(s: string)
    ensures var w := JT.WordLength(s);
      (forall i :: 0 <= i < w ==> JT.IsWordChar(s[i])) && (w < |s| ==> !JT.IsWordChar(s[w]))
  {
    if s != "" && JT.IsWordChar(s[0]) {
      WordChars(s[1..]);
    }
  }

  /** What was read is the word, or the word goes on behind it and is no element. */
  ghost predicate Reads(s: string, got: Option<(int, string)>, of: Option<int>) {
    var w := JT.WordLength(s);
    match got
    case None => of.None?
    case Some((v, rest)) =>
      |rest| < |s| && var k := |s| - |rest|;
      k <= w && rest == s[k..] && of == if k == w then Some(v) else None
  }

  lemma DigitsAreWord(s: string)
    ensures DigitRun(s) <= JT.WordLength(s)
  {
    if s != "" && IsDigit(s[0]) { DigitsAreWord(s[1..]); }
  }

  /** The digits of an unsigned number that the codec reads, and what is left behind them. */
  function ReadNat(body: string): (r: (nat, string))
    requires body != "" && IsDigit(body[0])
  {
    if body[0] == '0' then (0, body[1..]) else ReadDigits(body[1..], body[0] as int - '0' as int)
  }

  /** How many of its characters were read. */
  function NatRun(body: string): nat
    requires body != "" && IsDigit(body[0])
  {
    if body[0] == '0' then 1 else DigitRun(body)
  }

  lemma ReadNatIs(body: string)
    requires body != "" && IsDigit(body[0])
    ensures var k := NatRun(body);
      && 1 <= k <= |body| && JP.AllDigits(body[..k])
      && ReadNat(body) == (JP.NumberOf(body[..k]), body[k..]) && JP.Index(body[..k]) == Some(ReadNat(body).0)
  {
    var first := [body[0]];
    assert first[..0] == "" && JP.NumberOf(first) == body[0] as int - '0' as int;
    if body[0] == '0' {
      assert body[..1] == first;
    } else {
      var k := DigitRun(body);
      DigitsAddUp(first, body[1..]);
      assert first + body[1..][..k - 1] == body[..k] && body[1..][k - 1..] == body[k..];
    }
  }

  /** A word that goes on behind the number is none. */
  lemma WordGoesOn(body: string, w: nat)
    requires body != "" && IsDigit(body[0]) && NatRun(body) < w <= |body|
    ensures JP.Index(body[..w]).None?
  {
    var t := body[..w];
    assert t[0] == body[0];
    if body[0] != '0' {
      DigitRunEnds(body);
      assert !JP.IsDigit(t[DigitRun(body)]);
    }
  }

  /** An unsigned number at the beginning of a text. */
  lemma Unsigned(body: string)
    requires body != "" && IsDigit(body[0])
    ensures var w := JT.WordLength(body); var k := NatRun(body);
      && 1 <= k <= w <= |body| && ReadNat(body).1 == body[k..]
      && JP.Index(body[..w]) == if k == w then Some(ReadNat(body).0) else None
  {
    ReadNatIs(body);
    DigitsAreWord(body);
    if NatRun(body) < JT.WordLength(body) { WordGoesOn(body, JT.WordLength(body)); }
  }

  lemma NoDigit(s: string)
    requires s == "" || !IsDigit(s[0])
    ensures JP.Index(s[..JT.WordLength(s)]).None?
  {
    var t := s[..JT.WordLength(s)];
    if t != "" { assert !JP.IsDigit(t[0]); }
  }

  lemma IntegerReads(s: string)
    requires s != "" && JT.IsWordChar(s[0])
    ensures Reads(s, ReadInt(s), Integer(s[..JT.WordLength(s)]))
  {
    if s[0] == '-' { NegativeReads(s); } else { PositiveReads(s); }
  }

  /** An index in range, with its sign, or nothing. */
  function WithSign(negative: bool, n: Option<nat>): Option<int> {
    match n
    case None => None
    case Some(k) => var v := if negative then 0 - k else k; if Int64(v) then Some(v) else None
  }

  lemma IntegerSign(t: string)
    ensures t != "" && t[0] == '-' ==> Integer(t) == WithSign(true, JP.Index(t[1..]))
    ensures t == "" || t[0] != '-' ==> Integer(t) == WithSign(false, JP.Index(t))
  {
  }

  /** Reading a sign and digits. */
  lemma ReadIntSign(s: string)
    requires s != ""
    ensures var negative := s[0] == '-'; var body := if negative then s[1..] else s;
      ReadInt(s) ==
        if body == "" || !IsDigit(body[0]) then None
        else
          var v := WithSign(negative, Some(ReadNat(body).0));
          if v.Some? then Some((v.value, ReadNat(body).1)) else None
  {
  }

  lemma PositiveReads(s: string)
    requires s != "" && JT.IsWordChar(s[0]) && s[0] != '-'
    ensures Reads(s, ReadInt(s), Integer(s[..JT.WordLength(s)]))
  {
    var t := s[..JT.WordLength(s)];
    assert t[0] == s[0];
    IntegerSign(t);
    ReadIntSign(s);
    if IsDigit(s[0]) { Unsigned(s); } else { NoDigit(s); }
  }

  lemma NegativeReads(s: string)
    requires s != "" && s[0] == '-'
    ensures Reads(s, ReadInt(s), Integer(s[..JT.WordLength(s)]))
  {
    var body, t := s[1..], s[..JT.WordLength(s)];
    assert JT.WordLength(s) == 1 + JT.WordLength(body) by { SpaceIsWs('-'); }
    assert t[0] == s[0] && t[1..] == body[..JT.WordLength(body)];
    IntegerSign(t);
    ReadIntSign(s);
    if body != "" && IsDigit(body[0]) {
      Unsigned(body);
      assert body[NatRun(body)..] == s[NatRun(body) + 1..];
    } else {
      NoDigit(body);
    }
  }

  lemma LetterIsWord(c: char)
    requires c == 'n' || c == 'u' || c == 'l'
    ensures JT.IsWordChar(c)
  {
  }

  lemma NullLength(s: string)
    requires |s| >= 4 && s[..4] == "null"
    ensures JT.WordLength(s) == 4 + JT.WordLength(s[4..])
  {
    assert s[0] == s[..4][0] && s[1] == s[..4][1] && s[2] == s[..4][2] && s[3] == s[..4][3];
    LetterIsWord(s[0]);
    LetterIsWord(s[1]);
    LetterIsWord(s[2]);
    LetterIsWord(s[3]);
    assert s[1..][1..] == s[2..] && s[2..][1..] == s[3..] && s[3..][1..] == s[4..];
    assert JT.WordLength(s[3..]) == 1 + JT.WordLength(s[4..]);
    assert JT.WordLength(s[2..]) == 1 + JT.WordLength(s[3..]);
    assert JT.WordLength(s[1..]) == 1 + JT.WordLength(s[2..]);
  }

  lemma NullIsWord(s: string)
    requires |s| >= 4 && s[..4] == "null"
    ensures JT.WordLength(s) >= 4 && (JT.WordLength(s) > 4 ==> Element(s[..JT.WordLength(s)]).None?)
    ensures JT.WordLength(s) > 4 ==> JT.IsWordChar(s[4])
  {
    NullLength(s);
    var w := JT.WordLength(s);
    if w > 4 { LongWord(s[..w]); }
  }

  lemma LongWord(t: string)
    requires |t| > 4 && t[..4] == "null"
    ensures Element(t).None?
  {
    assert t[0] == t[..4][0] == 'n';
    assert !JP.IsDigit(t[0]);
    assert |"null"| == 4;
  }

  lemma NotNull(s: string, w: nat)
    requires w <= |s|
    ensures s[..w] == "null" ==> |s| >= 4 && s[..4] == "null"
  {
    if s[..w] == "null" { assert w == 4; }
  }

  lemma ElementReads(s: string)
    requires s != "" && JT.IsWordChar(s[0])
    ensures Reads(s, ReadElement(s), Element(s[..JT.WordLength(s)]))
  {
    var w := JT.WordLength(s);
    IntegerReads(s);
    if |s| >= 4 && s[..4] == "null" {
      NullIsWord(s);
    } else {
      NotNull(s, w);
    }
  }

  lemma NoElement(s: string)
    requires s == "" || !JT.IsWordChar(s[0])
    ensures ReadElement(s).None?
  {
    if |s| >= 4 && s[..4] == "null" {
      NullIsWord(s);
    } else if s != "" {
      SpaceIsWs(s[0]);
    }
  }

  /** The first token of a text that begins with no white space, and what follows it. */
  lemma FirstToken(s: string)
    requires s != "" && !IsSpace(s[0])
    ensures JT.IsWordChar(s[0]) ==>
      var w := JT.WordLength(s); w > 0 && JT.Lex(s) == JT.Cons(JT.Word(s[..w]), JT.Lex(s[w..]))
    ensures JT.IsPunct(s[0]) ==> JT.Lex(s) == JT.Cons(JT.Punct(s[0]), JT.Lex(s[1..]))
    ensures !JT.IsWordChar(s[0]) && !JT.IsPunct(s[0]) ==>
      JT.Lex(s).None? || (JT.Lex(s).value != [] && JT.Lex(s).value[0].Str?)
  {
    SpaceIsWs(s[0]);
  }

  lemma {:induction false} ElementsRead(s: string)
    requires s != "" ==> !IsSpace(s[0])
    ensures ReadElements(s) == LexedElements(s)
    decreases |s|
  {
    if s == "" || !JT.IsWordChar(s[0]) {
      NoElement(s);
      if s != "" { FirstToken(s); }
    } else {
      var w := JT.WordLength(s);
      ElementReads(s);
      FirstToken(s);
      WordChars(s);
      match ReadElement(s)
      case None =>
      case Some((v, rest)) =>
        if |s| - |rest| < w {
          assert JT.IsWordChar(rest[0]);
          SpaceIsWs(rest[0]);
        } else {
          assert rest == s[w..];
          ElementFollowed(s, v, rest);
        }
    }
  }

  lemma {:induction false} ElementFollowed(s: string, v: int, rest: string)
    requires s != "" && |rest| < |s| && ReadElement(s) == Some((v, rest))
    requires exists word :: Element(word) == Some(v) && JT.Lex(s) == JT.Cons(JT.Word(word), JT.Lex(rest))
    ensures ReadElements(s) == LexedElements(s)
    decreases |s|, 0
  {
    var word :| Element(word) == Some(v) && JT.Lex(s) == JT.Cons(JT.Word(word), JT.Lex(rest));
    var r := SkipSpace(rest);
    LexSkips(rest);
    if r != "" {
      FirstToken(r);
      var after := SkipSpace(r[1..]);
      LexSkips(r[1..]);
      if r[0] == ',' { ElementsRead(after); }
      TokensFollow(s, word, v, r, after);
    }
  }

  /** What the tokens behind an element decide. */
  lemma TokensFollow(s: string, word: string, v: int, r: string, after: string)
    requires r != "" && Element(word) == Some(v) && JT.Lex(s) == JT.Cons(JT.Word(word), JT.Lex(r))
    requires JT.IsPunct(r[0]) ==> JT.Lex(r) == JT.Cons(JT.Punct(r[0]), JT.Lex(after))
    requires !JT.IsPunct(r[0]) && JT.Lex(r).Some? ==> JT.Lex(r).value != [] && !JT.Lex(r).value[0].Punct?
    requires after == "" <==> JT.Lex(after) == Some([])
    ensures LexedElements(s) ==
      if r[0] == ']' then (if after == "" then Some([v]) else None)
      else if r[0] == ',' then
        (match LexedElements(after)
         case None => None
         case Some(vs) => Some([v] + vs))
      else None
  {
    if JT.Lex(r).Some? {
      var ts := JT.Lex(s).value;
      assert ts[0] == JT.Word(word) && ts[1..] == JT.Lex(r).value;
      if JT.IsPunct(r[0]) {
        assert ts[1] == JT.Punct(r[0]) && ts[2..] == JT.Lex(after).value;
        assert ts[1..] == [JT.Punct(r[0])] + ts[2..];
      }
    }
  }

  /**
   * Reading a context gives exactly the list that the grammar gives the tokens of the text, and fails where it does.
   */
  lemma ParseIsGrammar(s: string)
    ensures Parse(s) == LexedList(s)
  {
    var t := SkipSpace(s);
    LexSkips(s);
    if t != "" {
      FirstToken(t);
      if |t| >= 4 && t[..4] == "null" {
        ParseNull(t);
      } else if t[0] == '[' {
        ParseBracket(t);
      } else {
        ParseOther(t);
      }
    }
  }

  lemma ParseNull(t: string)
    requires |t| >= 4 && t[..4] == "null"
    ensures LexedList(t) == if SkipSpace(t[4..]) == "" then Some(None) else None
  {
    assert !IsSpace(t[0]) by { assert t[0] == t[..4][0]; }
    NullIsWord(t);
    FirstToken(t);
    WordChars(t);
    LexSkips(t[4..]);
    var w := JT.WordLength(t);
    if w > 4 {
      assert t[4..][0] == t[4];
      SpaceIsWs(t[4]);
      assert |t[..w]| != |"null"|;
    }
    if JT.Lex(t).Some? { assert JT.Lex(t).value[1..] == JT.Lex(t[w..]).value; }
  }

  lemma ParseBracket(t: string)
    requires t != "" && t[0] == '['
    ensures LexedList(t) ==
      var u := SkipSpace(t[1..]);
      if u != "" && u[0] == ']' then (if SkipSpace(u[1..]) == "" then Some(Some([])) else None)
      else
        match ReadElements(u)
        case None => None
        case Some(xs) => Some(Some(xs))
  {
    var u := SkipSpace(t[1..]);
    FirstToken(t);
    LexSkips(t[1..]);
    ElementsRead(u);
    assert LexedList(t) == if JT.Lex(u).Some? then ListOf([JT.Punct('[')] + JT.Lex(u).value) else None;
    if JT.Lex(u).Some? {
      AfterBracket(JT.Lex(u).value);
      if u != "" && u[0] == ']' {
        FirstToken(u);
        LexSkips(u[1..]);
        assert JT.Lex(u).value == [JT.Punct(']')] + JT.Lex(u[1..]).value;
      } else if u != "" {
        FirstToken(u);
        assert JT.Lex(u).value[0] != JT.Punct(']');
      }
    } else if u != "" && u[0] == ']' {
      FirstToken(u);
      LexSkips(u[1..]);
    }
  }

  lemma AfterBracket(ts: seq<JT.Token>)
    ensures ListOf([JT.Punct('[')] + ts) ==
      if ts == [JT.Punct(']')] then Some(Some([]))
      else if Elements(ts).Some? then Some(Some(Elements(ts).value))
      else None
    ensures ts != [] && ts[0] == JT.Punct(']') ==> Elements(ts).None?
  {
    var all := [JT.Punct('[')] + ts;
    assert all[1..] == ts && all[0] == JT.Punct('[');
    if ts == [JT.Punct(']')] { assert all == [JT.Punct('['), JT.Punct(']')]; }
  }

  lemma ParseOther(t: string)
    requires t != "" && !IsSpace(t[0]) && t[0] != '[' && !(|t| >= 4 && t[..4] == "null")
    ensures LexedList(t) == None
  {
    FirstToken(t);
    NotNull(t, JT.WordLength(t));
    if JT.Lex(t).Some? {
      var ts := JT.Lex(t).value;
      assert ts != [] && ts[0] != JT.Punct('[') && ts[0] != JT.Word("null");
    }
  }

  // ---------------------------------------------------------------- writing

  /** A number is written in decimal: an optional minus, and digits without a leading zero that add up to it. */
  lemma DecimalIs(n: int)
    ensures var t := if n < 0 then Decimal(n)[1..] else Decimal(n);
      && JP.Index(t) == Some(if n < 0 then -n else n)
      && (n < 0 ==> Decimal(n)[0] == '-')
  {
    JP.IndexOfDigits(if n < 0 then -n else n);
  }

  function ElementTokens(xs: seq<int>): seq<JT.Token>
    requires xs != []
  {
    [JT.Word(Decimal(xs[0]))] + if |xs| == 1 then [JT.Punct(']')] else [JT.Punct(',')] + ElementTokens(xs[1..])
  }

  predicate NoSpace(s: string) { forall i :: 0 <= i < |s| ==> !S.Ws(s[i]) }

  lemma DecimalIsWord(n: int)
    ensures JT.Word(Decimal(n)).Valid() && NoSpace(Decimal(n))
  {
    DecimalIs(n);
    var d := Decimal(n);
    forall i | 0 <= i < |d|
      ensures JT.IsWordChar(d[i])
    {
      if n < 0 && i > 0 { assert JP.IsDigit(d[1..][i - 1]); }
    }
  }

  lemma {:induction false} ElementsLexed(xs: seq<int>)
    requires xs != []
    ensures JT.Lex(PrintElements(xs)) == Some(ElementTokens(xs)) && NoSpace(PrintElements(xs))
    decreases |xs|
  {
    var word := Decimal(xs[0]);
    var tail := if |xs| == 1 then "]" else "," + PrintElements(xs[1..]);
    DecimalIsWord(xs[0]);
    if |xs| > 1 { ElementsLexed(xs[1..]); }
    assert tail[1..] == if |xs| == 1 then "" else PrintElements(xs[1..]);
    assert JT.Lex(tail) == Some(ElementTokens(xs)[1..]) by { LexTail(xs, tail); }
    JT.LexWord(word, tail);
    assert ElementTokens(xs) == [JT.Word(word)] + ElementTokens(xs)[1..];
    assert PrintElements(xs) == word + tail;
  }

  lemma LexTail(xs: seq<int>, tail: string)
    requires xs != [] && tail == if |xs| == 1 then "]" else "," + PrintElements(xs[1..])
    requires |xs| > 1 ==> JT.Lex(PrintElements(xs[1..])) == Some(ElementTokens(xs[1..]))
    ensures JT.Lex(tail) == Some(ElementTokens(xs)[1..])
  {
    var ts := ElementTokens(xs);
    if |xs| == 1 {
      LexBracket();
      assert ts[1..] == [JT.Punct(']')];
    } else {
      assert tail[0] == ',' && tail[1..] == PrintElements(xs[1..]);
      assert ts[1..] == [JT.Punct(',')] + ElementTokens(xs[1..]);
      CommaFirst(tail);
    }
  }

  lemma CommaFirst(s: string)
    requires s != "" && s[0] == ','
    ensures JT.Lex(s) == JT.Cons(JT.Punct(','), JT.Lex(s[1..]))
  {
    FirstToken(s);
  }

  lemma LexBracket()
    ensures JT.Lex("]") == Some([JT.Punct(']')])
  {
    var s := "]";
    assert s[0] == ']' && s[1..] == "";
    FirstToken(s);
    assert JT.Lex("") == Some([]);
    assert [JT.Punct(']')] + [] == [JT.Punct(']')];
  }

  /** A context is written as the tokens of its list, numbers in decimal, with nothing between them; nil as null. */
  lemma PrintIsList(xs: seq<int>)
    ensures Print(None) == "null"
    ensures JT.Lex(Print(Some(xs))) == Some([JT.Punct('[')] + if xs == [] then [JT.Punct(']')] else ElementTokens(xs))
    ensures NoSpace(Print(Some(xs)))
  {
    var s := Print(Some(xs));
    FirstToken(s);
    if xs == [] {
      LexBracket();
      assert s[1..] == "]";
    } else {
      ElementsLexed(xs);
      assert s[1..] == PrintElements(xs);
    }
  }

  // ---------------------------------------------------------------- the whole codec

  /**
   * A .spec.context from anywhere: the empty string is no context; a text that stands for bytes is the list that their
   * JSON tokens make, or an error if they make none.
   */
  lemma DecodeContextIsStandard(s: string, b: seq<Byte>)
    requires F.StandsFor(F.ALPHABET, DropLineEnds(s), b, false)
    ensures DecodeContext("") == Context(None)
    ensures s != "" ==>
      DecodeContext(s) == match LexedList(Text(b)) case None => BadJson case Some(context) => Context(context)
  {
    F.DecodeIsStandard(s, b);
    ParseIsGrammar(Text(b));
  }

  /** Any other text is an error. */
  lemma BadBase64IsStandard(s: string)
    requires s != ""
    ensures DecodeContext(s) == BadBase64 <==>
      forall b: seq<Byte> :: !F.StandsFor(F.ALPHABET, DropLineEnds(s), b, false)
  {
    match Decode(s)
    case None =>
      forall b: seq<Byte>
        ensures !F.StandsFor(F.ALPHABET, DropLineEnds(s), b, false)
      {
        F.DecodeIsStandard(s, b);
      }
    case Some(b) => F.DecodeIsStandard(s, b);
  }

  /**
   * What a response leaves is the exact base64 of a text without white space whose tokens are those of the list,
   * numbers in decimal.
   */
  lemma EncodeContextIsStandard(xs: seq<int>) returns (b: seq<Byte>)
    ensures F.StandsFor(F.ALPHABET, EncodeContext(Some(xs)), b, true)
    ensures JT.Lex(Text(b)) == Some([JT.Punct('[')] + if xs == [] then [JT.Punct(']')] else ElementTokens(xs))
    ensures NoSpace(Text(b))
  {
    var s := Print(Some(xs));
    PrintAscii(Some(xs));
    b := Bytes(s);
    F.EncodeIsStandard(b);
    PrintIsList(xs);
    assert Text(b) == s;
  }

  /** And of the text null for a nil list. */
  lemma EncodeNilIsStandard() returns (b: seq<Byte>)
    ensures F.StandsFor(F.ALPHABET, EncodeContext(None), b, true) && Text(b) == "null"
  {
    PrintAscii(None);
    b := Bytes("null");
    F.EncodeIsStandard(b);
    assert Text(b) == "null";
  }

  /** A text of the stored form of a context. */
  ghost predicate IsContext(context: Option<seq<int>>, s: string) {
    exists b: seq<Byte> :: F.StandsFor(F.ALPHABET, s, b, true) && Writes(context, Text(b))
  }

  ghost predicate Writes(context: Option<seq<int>>, text: string) {
    match context
    case None => text == "null"
    case Some(xs) =>
      && JT.Lex(text) == Some([JT.Punct('[')] + if xs == [] then [JT.Punct(']')] else ElementTokens(xs))
      && NoSpace(text)
  }

  lemma EncodeContextIs(context: Option<seq<int>>)
    ensures IsContext(context, EncodeContext(context))
  {
    match context
    case None => var b := EncodeNilIsStandard();
    case Some(xs) => var b := EncodeContextIsStandard(xs);
  }

  lemma VectorSymbols()
    ensures Symbol(22) == 'W' && Symbol(51) == 'z' && Symbol(5) == 'F' && Symbol(29) == 'd'
  {
  }

  lemma VectorText()
    ensures Print(Some([1])) == "[1]"
  {
    assert Digits(1) == "1";
  }

  lemma VectorBytes(s: string)
    requires s == "[1]"
    ensures Bytes(s) == [91, 49, 93]
  {
  }

  lemma VectorEncoded(b: seq<Byte>)
    requires b == [91, 49, 93]
    ensures Encode(b) == "WzFd"
  {
    F.EncodeThree(91, 49, 93, []);
    assert b == [91, 49, 93] + [];
    VectorSymbols();
  }

  /** The context [1], as base64 of its JSON text. */
  lemma ContextVector()
    ensures EncodeContext(Some([1])) == "WzFd"
  {
    VectorText();
    PrintAscii(Some([1]));
    VectorBytes(Print(Some([1])));
    VectorEncoded([91, 49, 93]);
  }
}
