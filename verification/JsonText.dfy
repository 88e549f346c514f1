/**
 * JSON texts (sections 2 to 7 of RFC 8259) decorated with comments, whitespace and trailing commas, and the proof that
 * the scanners take the decoration away without changing a token.
 */
module JsonText {
  import opened Common
  import opened Scanners

  /** A token: a structural character, a string literal with its quotes, or a number or literal name. */
  datatype Token = Punct(c: char) | Str(body: string) | Word(text: string)
  {
    function Text(): string {
      match this
      case Punct(c) => [c]
      case Str(body) => "\"" + body + "\""
      case Word(text) => text
    }

    predicate Valid() {
      match this
      case Punct(c) => IsPunct(c)
      case Str(body) => BodyOk(body)
      case Word(text) => text != "" && forall i :: 0 <= i < |text| ==> IsWordChar(text[i])
    }
  }

  predicate IsPunct(c: char) { c == '{' || c == '}' || c == '[' || c == ']' || c == ',' || c == ':' }

  predicate IsWordChar(c: char) { !IsPunct(c) && !Ws(c) && c != '"' && c != '/' }

  /** The inside of a string literal: quotes are escaped and no escape is cut off. */
  predicate BodyOk(b: string) {
    b == "" || if b[0] == '\\' then |b| > 1 && BodyOk(b[2..]) else b[0] != '"' && BodyOk(b[1..])
  }

  // ---------------------------------------------------------------- values

  /** A JSON value; containers that are not empty may be written with a trailing comma. */
  datatype Value =
    | Text(body: string)
    | Atom(text: string)
    | Array(items: seq<Value>, trailing: bool)
    | Object(members: seq<Member>, trailing: bool)

  datatype Member = Member(key: string, value: Value)

  predicate ValueOk(v: Value) {
    match v
    case Text(body) => BodyOk(body)
    case Atom(text) => Word(text).Valid()
    case Array(items, _) => forall i :: 0 <= i < |items| ==> ValueOk(items[i])
    case Object(members, _) => forall i :: 0 <= i < |members| ==> BodyOk(members[i].key) && ValueOk(members[i].value)
  }

  const COMMA: Token := Punct(',')

  /** The tokens of a value, with the trailing commas it is written with or without any. */
  function Tokens(v: Value, commas: bool): seq<Token>
    decreases v
  {
    match v
    case Text(body) => [Str(body)]
    case Atom(text) => [Word(text)]
    case Array(items, trailing) =>
      [Punct('[')] + ItemTokens(v, items, commas) + (if commas && trailing && items != [] then [COMMA] else [])
        + [Punct(']')]
    case Object(members, trailing) =>
      [Punct('{')] + MemberTokens(v, members, commas) + (if commas && trailing && members != [] then [COMMA] else [])
        + [Punct('}')]
  }

  function ItemTokens(v: Value, items: seq<Value>, commas: bool): seq<Token>
    requires forall i :: 0 <= i < |items| ==> items[i] < v
    decreases v, |items|
  {
    if items == [] then []
    else Tokens(items[0], commas) + if |items| == 1 then [] else [COMMA] + ItemTokens(v, items[1..], commas)
  }

  function MemberTokens(v: Value, members: seq<Member>, commas: bool): seq<Token>
    requires forall i :: 0 <= i < |members| ==> members[i] < v
    decreases v, |members|
  {
    if members == [] then []
    else
      [Str(members[0].key), Punct(':')] + Tokens(members[0].value, commas)
      + if |members| == 1 then [] else [COMMA] + MemberTokens(v, members[1..], commas)
  }

  // ---------------------------------------------------------------- decoration

  /** What may stand between tokens: a whitespace character, a comment to the end of its line, or a block comment. */
  datatype Piece = Space(c: char) | Line(text: string) | Block(text: string)
  {
    predicate Valid() {
      match this
      case Space(c) => Ws(c)
      case Line(text) => forall i :: 0 <= i < |text| ==> text[i] != '\n'
      case Block(text) => forall i :: 0 <= i < |text| - 1 ==> !(text[i] == '*' && text[i + 1] == '/')
    }

    function Shown(): string {
      match this
      case Space(c) => [c]
      case Line(text) => "//" + text + "\n"
      case Block(text) => "/*" + text + "*/"
    }

    /** What is left of it without comments. */
    function Blank(): string {
      match this
      case Space(c) => [c]
      case Line(_) => "\n"
      case Block(_) => ""
    }
  }

  function GapText(gap: seq<Piece>): string { if gap == [] then "" else gap[0].Shown() + GapText(gap[1..]) }

  function GapBlank(gap: seq<Piece>): string { if gap == [] then "" else gap[0].Blank() + GapBlank(gap[1..]) }

  predicate GapOk(gap: seq<Piece>) { forall i :: 0 <= i < |gap| ==> gap[i].Valid() }

  /** A token with the gap before it. */
  datatype Placed = Placed(gap: seq<Piece>, token: Token)

  predicate PlacedOk(ps: seq<Placed>) { forall i :: 0 <= i < |ps| ==> GapOk(ps[i].gap) && ps[i].token.Valid() }

  /** The end of a document: a gap, and perhaps a line comment that the end of the text cuts off. */
  datatype End = End(gap: seq<Piece>, comment: Option<string>)
  {
    predicate Valid() {
      GapOk(gap) && (comment.Some? ==> forall i :: 0 <= i < |comment.value| ==> comment.value[i] != '\n')
    }

    function Shown(): string { GapText(gap) + if comment.Some? then "//" + comment.value else "" }
  }

  function Render(ps: seq<Placed>, end: End): string {
    if ps == [] then end.Shown() else GapText(ps[0].gap) + ps[0].token.Text() + Render(ps[1..], end)
  }

  function TokensOf(ps: seq<Placed>): seq<Token> { if ps == [] then [] else [ps[0].token] + TokensOf(ps[1..]) }

  /** The same with whitespace only in the gaps. */
  datatype Spaced = Spaced(gap: string, token: Token)

  predicate AllSpace(s: string) { forall i :: 0 <= i < |s| ==> Ws(s[i]) }

  predicate SpacedOk(ss: seq<Spaced>) { forall i :: 0 <= i < |ss| ==> AllSpace(ss[i].gap) && ss[i].token.Valid() }

  function Show(ss: seq<Spaced>, end: string): string {
    if ss == [] then end else ss[0].gap + ss[0].token.Text() + Show(ss[1..], end)
  }

  function SpacedTokens(ss: seq<Spaced>): seq<Token> { if ss == [] then [] else [ss[0].token] + SpacedTokens(ss[1..]) }

  function Blanked(ps: seq<Placed>): seq<Spaced> {
    if ps == [] then [] else [Spaced(GapBlank(ps[0].gap), ps[0].token)] + Blanked(ps[1..])
  }

  // ---------------------------------------------------------------- comments go

  lemma {:induction false} StripLine(text: string, rest: string)
    requires forall i :: 0 <= i < |text| ==> text[i] != '\n'
    ensures SkipLine(text + "\n" + rest) == "\n" + rest
    ensures SkipLine(text) == ""
  {
    var s := text + "\n" + rest;
    if text == "" {
      assert s == "\n" + rest;
    } else {
      assert s[1..] == text[1..] + "\n" + rest;
      StripLine(text[1..], rest);
    }
  }

  lemma {:induction false} StripBlock(text: string, rest: string)
    requires Block(text).Valid()
    ensures SkipBlock(text + "*/" + rest) == rest
  {
    var s := text + "*/" + rest;
    if text == "" {
      assert s == "*/" + rest && s[2..] == rest;
    } else {
      assert s[1..] == text[1..] + "*/" + rest;
      var t := text[1..];
      assert Block(t).Valid() by {
        forall i | 0 <= i < |t| - 1
          ensures !(t[i] == '*' && t[i + 1] == '/')
        {
          assert t[i] == text[i + 1] && t[i + 1] == text[i + 2];
        }
      }
      StripBlock(text[1..], rest);
      if |text| == 1 { assert s[1] == '*'; }
    }
  }

  lemma StripLinePiece(text: string, rest: string)
    requires Line(text).Valid()
    ensures Strip("//" + text + "\n" + rest, false) == "\n" + Strip(rest, false)
  {
    var s, t, u := "//" + text + "\n" + rest, "/" + text, "\n" + rest;
    assert s[0] == '/' && s[1] == '/' && s[1..] == t + "\n" + rest;
    StripLine(t, rest);
    assert Strip(s, false) == Strip(u, false);
    assert u[1..] == rest;
  }

  lemma StripBlockPiece(text: string, rest: string)
    requires Block(text).Valid()
    ensures Strip("/*" + text + "*/" + rest, false) == Strip(rest, false)
  {
    var s := "/*" + text + "*/" + rest;
    assert s[0] == '/' && s[1] == '*' && s[2..] == text + "*/" + rest;
    StripBlock(text, rest);
  }

  lemma StripPiece(p: Piece, rest: string)
    requires p.Valid()
    ensures Strip(p.Shown() + rest, false) == p.Blank() + Strip(rest, false)
  {
    match p
    case Space(c) => assert ([c] + rest)[1..] == rest;
    case Line(text) => StripLinePiece(text, rest);
    case Block(text) =>
      StripBlockPiece(text, rest);
      assert "" + Strip(rest, false) == Strip(rest, false);
  }

  lemma {:induction false} StripGap(gap: seq<Piece>, rest: string)
    requires GapOk(gap)
    ensures Strip(GapText(gap) + rest, false) == GapBlank(gap) + Strip(rest, false)
  {
    if gap == [] {
      assert GapText(gap) + rest == rest;
      assert GapBlank(gap) + Strip(rest, false) == Strip(rest, false);
    } else {
      var tail := GapText(gap[1..]) + rest;
      assert GapText(gap) + rest == gap[0].Shown() + tail;
      StripPiece(gap[0], tail);
      StripGap(gap[1..], rest);
      assert gap[0].Blank() + (GapBlank(gap[1..]) + Strip(rest, false)) == GapBlank(gap) + Strip(rest, false);
    }
  }

  lemma CopyInside(head: string, tail: string)
    requires (|head| == 2 && head[0] == '\\') || (|head| == 1 && head[0] != '\\' && head[0] != '"')
    ensures Strip(head + tail, true) == head + Strip(tail, true)
    ensures Uncomma(head + tail, true) == head + Uncomma(tail, true)
  {
    assert (head + tail)[..|head|] == head && (head + tail)[|head|..] == tail;
  }

  /** The quote that ends it. */
  lemma CopyQuote(rest: string)
    ensures Strip("\"" + rest, true) == "\"" + Strip(rest, false)
    ensures Uncomma("\"" + rest, true) == "\"" + Uncomma(rest, false)
  {
    assert ("\"" + rest)[1..] == rest;
  }

  lemma Regroup(a: string, b: string, c: string, d: string)
    ensures a + b + c + d == a + (b + c + d)
  {
  }

  lemma {:induction false} StripBody(body: string, rest: string)
    requires BodyOk(body)
    ensures Strip(body + "\"" + rest, true) == body + "\"" + Strip(rest, false)
    decreases |body|
  {
    if body == "" {
      CopyQuote(rest);
      assert "" + "\"" == "\"";
    } else {
      var n := if body[0] == '\\' then 2 else 1;
      var head, more := body[..n], body[n..];
      assert body == head + more;
      StripBody(more, rest);
      CopyInside(head, more + "\"" + rest);
      Regroup(head, more, "\"", rest);
      Regroup(head, more, "\"", Strip(rest, false));
    }
  }

  lemma {:induction false} UncommaBody(body: string, rest: string)
    requires BodyOk(body)
    ensures Uncomma(body + "\"" + rest, true) == body + "\"" + Uncomma(rest, false)
    decreases |body|
  {
    if body == "" {
      CopyQuote(rest);
      assert "" + "\"" == "\"";
    } else {
      var n := if body[0] == '\\' then 2 else 1;
      var head, more := body[..n], body[n..];
      assert body == head + more;
      UncommaBody(more, rest);
      CopyInside(head, more + "\"" + rest);
      Regroup(head, more, "\"", rest);
      Regroup(head, more, "\"", Uncomma(rest, false));
    }
  }

  lemma CopyStr(body: string, rest: string)
    requires BodyOk(body)
    ensures Strip("\"" + body + "\"" + rest, false) == "\"" + body + "\"" + Strip(rest, false)
    ensures Uncomma("\"" + body + "\"" + rest, false) == "\"" + body + "\"" + Uncomma(rest, false)
  {
    var s, u := "\"" + body + "\"" + rest, body + "\"" + rest;
    assert s[0] == '"' && s[1..] == u;
    StripBody(body, rest);
    UncommaBody(body, rest);
    assert Strip(s, false) == ['"'] + Strip(u, true);
    assert Uncomma(s, false) == ['"'] + Uncomma(u, true);
  }

  lemma CopyChar(c: char, rest: string)
    ensures c != '"' && c != '/' ==> Strip([c] + rest, false) == [c] + Strip(rest, false)
    ensures c != '"' && c != ',' ==> Uncomma([c] + rest, false) == [c] + Uncomma(rest, false)
  {
    assert ([c] + rest)[1..] == rest;
  }

  lemma {:induction false} CopyWord(text: string, rest: string)
    requires forall i :: 0 <= i < |text| ==> IsWordChar(text[i])
    ensures Strip(text + rest, false) == text + Strip(rest, false)
    ensures Uncomma(text + rest, false) == text + Uncomma(rest, false)
  {
    if text == "" {
      assert text + rest == rest;
      assert text + Strip(rest, false) == Strip(rest, false);
      assert text + Uncomma(rest, false) == Uncomma(rest, false);
    } else {
      var first, more := [text[0]], text[1..];
      assert text == first + more;
      CopyWord(more, rest);
      CopyChar(text[0], more + rest);
      Assoc(first, more, rest);
      Assoc(first, more, Strip(rest, false));
      Assoc(first, more, Uncomma(rest, false));
    }
  }

  lemma StripToken(t: Token, rest: string)
    requires t.Valid()
    ensures Strip(t.Text() + rest, false) == t.Text() + Strip(rest, false)
  {
    match t
    case Punct(c) => assert ([c] + rest)[1..] == rest;
    case Str(body) => CopyStr(body, rest);
    case Word(text) => CopyWord(text, rest);
  }

  lemma StripPlaced(p: Placed, tail: string)
    requires GapOk(p.gap) && p.token.Valid()
    ensures Strip(GapText(p.gap) + p.token.Text() + tail, false)
         == GapBlank(p.gap) + p.token.Text() + Strip(tail, false)
  {
    var gap, text := GapText(p.gap), p.token.Text();
    StripToken(p.token, tail);
    StripGap(p.gap, text + tail);
    Assoc(gap, text, tail);
    Assoc(GapBlank(p.gap), text, Strip(tail, false));
  }

  lemma StripCutLine(text: string)
    requires Line(text).Valid()
    ensures Strip("//" + text, false) == ""
  {
    var s, t := "//" + text, "/" + text;
    assert s[0] == '/' && s[1] == '/' && s[1..] == t;
    StripLine(t, "");
  }

  lemma StripEnd(end: End)
    requires end.Valid()
    ensures Strip(end.Shown(), false) == GapBlank(end.gap)
  {
    match end.comment
    case None => StripGap(end.gap, "");
    case Some(text) =>
      StripGap(end.gap, "//" + text);
      StripCutLine(text);
  }

  lemma {:induction false} BlankedOk(ps: seq<Placed>)
    requires PlacedOk(ps)
    ensures SpacedOk(Blanked(ps)) && SpacedTokens(Blanked(ps)) == TokensOf(ps)
  {
    if ps != [] {
      var ss := Blanked(ps);
      assert PlacedOk(ps[1..]) && ss[1..] == Blanked(ps[1..]);
      BlankedOk(ps[1..]);
      BlankIsSpace(ps[0].gap);
    }
  }

  /** stripComments turns every gap of a document into whitespace and copies every token. */
  lemma {:induction false} StripRender(ps: seq<Placed>, end: End)
    requires PlacedOk(ps) && end.Valid()
    ensures Strip(Render(ps, end), false) == Show(Blanked(ps), GapBlank(end.gap))
  {
    if ps == [] {
      StripEnd(end);
    } else {
      assert PlacedOk(ps[1..]);
      StripRender(ps[1..], end);
      StripPlaced(ps[0], Render(ps[1..], end));
      assert Blanked(ps)[1..] == Blanked(ps[1..]);
    }
  }

  lemma {:induction false} BlankIsSpace(gap: seq<Piece>)
    requires GapOk(gap)
    ensures AllSpace(GapBlank(gap))
  {
    if gap != [] {
      BlankIsSpace(gap[1..]);
      assert gap[0].Valid();
    }
  }

  // ---------------------------------------------------------------- trailing commas go

  predicate IsCloserToken(t: Token) { t == Punct(']') || t == Punct('}') }

  /** Without the commas that stand directly before a closer; their gaps move to the closer. */
  function Squeeze(ss: seq<Spaced>): seq<Spaced>
    decreases |ss|
  {
    if |ss| < 2 then ss
    else if ss[0].token == COMMA && IsCloserToken(ss[1].token) then
      Squeeze([Spaced(ss[0].gap + ss[1].gap, ss[1].token)] + ss[2..])
    else [ss[0]] + Squeeze(ss[1..])
  }

  function SqueezeTokens(ts: seq<Token>): seq<Token> {
    if |ts| < 2 then ts
    else if ts[0] == COMMA && IsCloserToken(ts[1]) then SqueezeTokens(ts[1..])
    else [ts[0]] + SqueezeTokens(ts[1..])
  }

  lemma {:induction false} UncommaGap(gap: string, rest: string)
    requires AllSpace(gap)
    ensures Uncomma(gap + rest, false) == gap + Uncomma(rest, false)
    ensures SkipWhitespace(gap + rest) == SkipWhitespace(rest)
  {
    if gap == "" {
      assert gap + rest == rest;
      assert gap + Uncomma(rest, false) == Uncomma(rest, false);
    } else {
      var s := gap + rest;
      assert s[0] == gap[0] && s[1..] == gap[1..] + rest;
      UncommaGap(gap[1..], rest);
      assert gap == [gap[0]] + gap[1..];
    }
  }

  lemma TokenStart(t: Token)
    requires t.Valid()
    ensures t.Text() != "" && !IsWhitespace(t.Text()[0])
    ensures IsCloser(t.Text()[0]) <==> IsCloserToken(t)
  {
  }

  /** Whether a text of spaced tokens closes depends on its first token. */
  lemma ShowCloses(ss: seq<Spaced>, end: string)
    requires SpacedOk(ss) && AllSpace(end)
    ensures Closes(Show(ss, end)) <==> ss != [] && IsCloserToken(ss[0].token)
  {
    if ss == [] {
      UncommaGap(end, "");
      assert end + "" == end;
    } else {
      var rest := ss[0].token.Text() + Show(ss[1..], end);
      assert Show(ss, end) == ss[0].gap + rest;
      UncommaGap(ss[0].gap, rest);
      TokenStart(ss[0].token);
      assert rest[0] == ss[0].token.Text()[0];
    }
  }

  lemma UncommaToken(t: Token, rest: string)
    requires t.Valid() && (t == COMMA ==> !Closes(rest))
    ensures Uncomma(t.Text() + rest, false) == t.Text() + Uncomma(rest, false)
  {
    match t
    case Punct(c) => assert ([c] + rest)[1..] == rest;
    case Str(body) => CopyStr(body, rest);
    case Word(text) => CopyWord(text, rest);
  }

  /** stripTrailingCommas on spaced tokens removes exactly the commas before closers. */
  lemma {:induction false} UncommaShow(ss: seq<Spaced>, end: string)
    requires SpacedOk(ss) && AllSpace(end)
    ensures Uncomma(Show(ss, end), false) == Show(Squeeze(ss), end)
    ensures SpacedOk(Squeeze(ss)) && SpacedTokens(Squeeze(ss)) == SqueezeTokens(SpacedTokens(ss))
    decreases |ss|
  {
    if ss == [] {
      UncommaGap(end, "");
      assert end + "" == end;
    } else if |ss| > 1 && ss[0].token == COMMA && IsCloserToken(ss[1].token) {
      DropComma(ss, end);
    } else {
      UncommaShow(ss[1..], end);
      KeepFirst(ss, end);
      SqueezeKeep(ss);
    }
  }

  lemma UncommaPlaced(gap: string, t: Token, tail: string)
    requires AllSpace(gap) && t.Valid() && (t == COMMA ==> !Closes(tail))
    ensures Uncomma(gap + t.Text() + tail, false) == gap + t.Text() + Uncomma(tail, false)
  {
    var text := t.Text();
    UncommaToken(t, tail);
    UncommaGap(gap, text + tail);
    Assoc(gap, text, tail);
    Assoc(gap, text, Uncomma(tail, false));
  }

  lemma KeepFirst(ss: seq<Spaced>, end: string)
    requires ss != [] && !(|ss| > 1 && ss[0].token == COMMA && IsCloserToken(ss[1].token))
    requires SpacedOk(ss) && AllSpace(end)
    ensures Uncomma(Show(ss, end), false) == ss[0].gap + ss[0].token.Text() + Uncomma(Show(ss[1..], end), false)
  {
    ShowCloses(ss[1..], end);
    UncommaPlaced(ss[0].gap, ss[0].token, Show(ss[1..], end));
  }

  lemma SqueezeKeep(ss: seq<Spaced>)
    requires ss != [] && !(|ss| > 1 && ss[0].token == COMMA && IsCloserToken(ss[1].token))
    ensures Squeeze(ss) == [ss[0]] + Squeeze(ss[1..])
    ensures SqueezeTokens(SpacedTokens(ss)) == [ss[0].token] + SqueezeTokens(SpacedTokens(ss[1..]))
    ensures SpacedTokens([ss[0]] + Squeeze(ss[1..])) == [ss[0].token] + SpacedTokens(Squeeze(ss[1..]))
  {
    assert ([ss[0]] + Squeeze(ss[1..]))[1..] == Squeeze(ss[1..]);
    var ts := SpacedTokens(ss);
    assert ts[1..] == SpacedTokens(ss[1..]);
    if |ss| > 1 { assert ts[1] == ss[1].token; }
  }

  lemma {:induction false} DropComma(ss: seq<Spaced>, end: string)
    requires SpacedOk(ss) && AllSpace(end) && |ss| > 1 && ss[0].token == COMMA && IsCloserToken(ss[1].token)
    ensures Uncomma(Show(ss, end), false) == Show(Squeeze(ss), end)
    ensures SpacedOk(Squeeze(ss)) && SpacedTokens(Squeeze(ss)) == SqueezeTokens(SpacedTokens(ss))
    decreases |ss|, 0
  {
    var first, tail := ss[0], Show(ss[1..], end);
    var merged := [Spaced(ss[0].gap + ss[1].gap, ss[1].token)] + ss[2..];
    assert SpacedOk(ss[1..]);
    ShowCloses(ss[1..], end);
    assert Show(ss, end) == first.gap + (first.token.Text() + tail);
    UncommaGap(first.gap, first.token.Text() + tail);
    assert (first.token.Text() + tail)[1..] == tail;
    assert Uncomma(Show(ss, end), false) == first.gap + Uncomma(tail, false);
    assert merged[1..] == ss[2..] && ss[1..][1..] == ss[2..];
    UncommaGap(first.gap, tail);
    assert Show(merged, end) == first.gap + tail;
    assert SpacedOk(merged);
    UncommaShow(merged, end);
    assert SpacedTokens(merged) == [ss[1].token] + SpacedTokens(ss[2..]) == SpacedTokens(ss[1..]);
    assert SpacedTokens(ss)[1..] == SpacedTokens(ss[1..]);
  }

  // ---------------------------------------------------------------- a lexer as the reference

  function BodyLength(s: string): (n: Option<nat>)
    ensures n.Some? ==> n.value < |s| && s[n.value] == '"'
  {
    if s == "" then None
    else if s[0] == '"' then Some(0)
    else if s[0] == '\\' then
      (if |s| > 1 && BodyLength(s[2..]).Some? then Some(BodyLength(s[2..]).value + 2) else None)
    else if BodyLength(s[1..]).Some? then Some(BodyLength(s[1..]).value + 1)
    else None
  }

  function WordLength(s: string): (n: nat)
    ensures n <= |s|
  {
    if s != "" && IsWordChar(s[0]) then 1 + WordLength(s[1..]) else 0
  }

  function Cons(t: Token, rest: Option<seq<Token>>): Option<seq<Token>> {
    if rest.Some? then Some([t] + rest.value) else None
  }

  /** The tokens of a JSON text; a comment or a stray slash is an error. */
  function Lex(s: string): Option<seq<Token>>
    decreases |s|
  {
    if s == "" then Some([])
    else if Ws(s[0]) then Lex(s[1..])
    else if IsPunct(s[0]) then Cons(Punct(s[0]), Lex(s[1..]))
    else if s[0] == '"' then
      var n := BodyLength(s[1..]);
      if n.Some? then Cons(Str(s[1..][..n.value]), Lex(s[n.value + 2..])) else None
    else if IsWordChar(s[0]) then Cons(Word(s[..WordLength(s)]), Lex(s[WordLength(s)..]))
    else None
  }

  lemma {:induction false} LexGap(gap: string, rest: string)
    requires AllSpace(gap)
    ensures Lex(gap + rest) == Lex(rest)
  {
    if gap == "" {
      assert gap + rest == rest;
    } else {
      assert (gap + rest)[1..] == gap[1..] + rest;
      LexGap(gap[1..], rest);
    }
  }

  lemma {:induction false} BodyEnds(body: string, rest: string)
    requires BodyOk(body)
    ensures BodyLength(body + "\"" + rest) == Some(|body|)
    decreases |body|
  {
    var s := body + "\"" + rest;
    if body == "" {
    } else if body[0] == '\\' {
      assert s[2..] == body[2..] + "\"" + rest;
      BodyEnds(body[2..], rest);
    } else {
      assert s[1..] == body[1..] + "\"" + rest;
      BodyEnds(body[1..], rest);
    }
  }

  lemma {:induction false} WordEnds(text: string, rest: string)
    requires forall i :: 0 <= i < |text| ==> IsWordChar(text[i])
    requires rest != "" ==> !IsWordChar(rest[0])
    ensures WordLength(text + rest) == |text|
  {
    if text == "" {
      assert text + rest == rest;
    } else {
      assert (text + rest)[1..] == text[1..] + rest;
      WordEnds(text[1..], rest);
    }
  }

  lemma LexStr(body: string, rest: string)
    requires BodyOk(body)
    ensures Lex("\"" + body + "\"" + rest) == Cons(Str(body), Lex(rest))
  {
    var u := body + "\"" + rest;
    var s := "\"" + body + "\"" + rest;
    assert s[0] == '"' && s[1..] == u;
    BodyEnds(body, rest);
    var n := |body|;
    assert u[..n] == body && s[n + 2..] == rest;
  }

  lemma LexWord(text: string, rest: string)
    requires Word(text).Valid() && (rest != "" ==> !IsWordChar(rest[0]))
    ensures Lex(text + rest) == Cons(Word(text), Lex(rest))
  {
    var s, n := text + rest, |text|;
    WordEnds(text, rest);
    assert s[0] == text[0] && IsWordChar(s[0]) && s[..n] == text && s[n..] == rest;
  }

  lemma LexToken(t: Token, rest: string)
    requires t.Valid() && (t.Word? && rest != "" ==> !IsWordChar(rest[0]))
    ensures Lex(t.Text() + rest) == Cons(t, Lex(rest))
  {
    match t
    case Punct(c) => assert ([c] + rest)[1..] == rest;
    case Str(body) => LexStr(body, rest);
    case Word(text) => LexWord(text, rest);
  }

  /** Two words are never neighbours in a JSON text. */
  predicate WordsApart(ts: seq<Token>) { forall i :: 0 <= i < |ts| - 1 ==> !(ts[i].Word? && ts[i + 1].Word?) }

  /** A text of spaced tokens begins with a word character only if its first token is a word. */
  lemma HeadOf(gap: string, t: Token, tail: string)
    requires AllSpace(gap) && t.Valid() && !t.Word?
    ensures var s := gap + t.Text() + tail; s != "" && !IsWordChar(s[0])
  {
    if gap == "" {
      assert (gap + t.Text() + tail)[0] == t.Text()[0];
    } else {
      assert (gap + t.Text() + tail)[0] == gap[0];
    }
  }

  lemma ShowHead(ss: seq<Spaced>, end: string)
    requires SpacedOk(ss) && AllSpace(end) && (ss != [] ==> !ss[0].token.Word?)
    ensures Show(ss, end) != "" ==> !IsWordChar(Show(ss, end)[0])
  {
    if ss != [] {
      HeadOf(ss[0].gap, ss[0].token, Show(ss[1..], end));
    }
  }

  lemma {:induction false} LexShow(ss: seq<Spaced>, end: string)
    requires SpacedOk(ss) && AllSpace(end) && WordsApart(SpacedTokens(ss))
    ensures Lex(Show(ss, end)) == Some(SpacedTokens(ss))
  {
    if ss == [] {
      LexGap(end, "");
      assert end + "" == end;
    } else {
      var first, tail := ss[0], Show(ss[1..], end);
      var ts := SpacedTokens(ss);
      assert ts[1..] == SpacedTokens(ss[1..]);
      assert forall i :: 0 <= i < |ts[1..]| ==> ts[1..][i] == ts[i + 1];
      LexShow(ss[1..], end);
      if first.token.Word? {
        if |ss| > 1 { assert ts[0] == first.token && ts[1] == ss[1].token && !(ts[0].Word? && ts[1].Word?); }
        ShowHead(ss[1..], end);
      }
      LexToken(first.token, tail);
      LexGap(first.gap, first.token.Text() + tail);
      assert Show(ss, end) == first.gap + (first.token.Text() + tail);
    }
  }

  // ---------------------------------------------------------------- the tokens of a value

  predicate Inner(ts: seq<Token>) {
    ts != [] && !IsCloserToken(ts[0]) && ts[0] != COMMA && ts[|ts| - 1] != COMMA
  }

  lemma {:induction false} SqueezeConcat(a: seq<Token>, b: seq<Token>)
    requires a != [] && !(a[|a| - 1] == COMMA && b != [] && IsCloserToken(b[0]))
    ensures SqueezeTokens(a + b) == SqueezeTokens(a) + SqueezeTokens(b)
  {
    if |a| == 1 {
      assert (a + b)[1..] == b;
      if b == [] { assert a + b == a; }
    } else {
      assert (a + b)[1..] == a[1..] + b && (a + b)[1] == a[1];
      SqueezeConcat(a[1..], b);
    }
  }

  predicate AllValid(ts: seq<Token>) { forall i :: 0 <= i < |ts| ==> ts[i].Valid() }

  /** The shape of the tokens of a value, and that squeezing takes exactly its trailing commas. */
  ghost predicate Shaped(with: seq<Token>, without: seq<Token>) {
    && Inner(with) && SqueezeTokens(with) == without
    && AllValid(with)
    && WordsApart(with) && WordsApart(without)
  }

  lemma ApartConcat(a: seq<Token>, b: seq<Token>)
    requires WordsApart(a) && WordsApart(b)
    requires a != [] && b != [] ==> !(a[|a| - 1].Word? && b[0].Word?)
    ensures WordsApart(a + b)
  {
    var c := a + b;
    forall i | 0 <= i < |c| - 1
      ensures !(c[i].Word? && c[i + 1].Word?)
    {
      if i + 1 < |a| {
        assert c[i] == a[i] && c[i + 1] == a[i + 1];
      } else if i + 1 > |a| {
        assert c[i] == b[i - |a|] && c[i + 1] == b[i + 1 - |a|];
      }
    }
  }

  /** Squeezing does not change the first and the last token of a list that starts with no comma. */
  lemma {:induction false} SqueezeEnds(ts: seq<Token>)
    requires ts != []
    ensures SqueezeTokens(ts) != [] && SqueezeTokens(ts)[|SqueezeTokens(ts)| - 1] == ts[|ts| - 1]
    ensures ts[0] != COMMA ==> SqueezeTokens(ts)[0] == ts[0]
  {
    if |ts| > 1 { SqueezeEnds(ts[1..]); }
  }

  lemma JoinSqueeze(a: seq<Token>, t: Token, b: seq<Token>)
    requires Inner(a) && Inner(b) && !IsCloserToken(t)
    ensures SqueezeTokens(a + [t] + b) == SqueezeTokens(a) + [t] + SqueezeTokens(b)
  {
    JoinAssoc(a, t, b);
    JoinAssoc(SqueezeTokens(a), t, SqueezeTokens(b));
    assert SqueezeTokens([t]) == [t];
    SqueezeConcat([t], b);
    SqueezeConcat(a, [t] + b);
  }

  lemma JoinApart(a: seq<Token>, t: Token, b: seq<Token>)
    requires WordsApart(a) && WordsApart(b) && t.Punct?
    ensures WordsApart(a + [t] + b)
  {
    ApartConcat(a, [t]);
    ApartConcat(a + [t], b);
  }

  lemma JoinValid(a: seq<Token>, t: Token, b: seq<Token>)
    requires AllValid(a) && AllValid(b) && t.Valid()
    ensures AllValid(a + [t] + b)
  {
    ValidConcat(a, [t]);
    ValidConcat(a + [t], b);
  }

  lemma JoinInner(a: seq<Token>, t: Token, b: seq<Token>)
    requires Inner(a) && Inner(b)
    ensures Inner(a + [t] + b)
  {
    var c := a + [t] + b;
    assert c[0] == a[0] && c[|c| - 1] == b[|b| - 1];
  }

  lemma ShapedJoin(a: seq<Token>, a': seq<Token>, t: Token, b: seq<Token>, b': seq<Token>)
    requires Shaped(a, a') && Shaped(b, b') && t.Punct? && t.Valid() && !IsCloserToken(t)
    ensures Shaped(a + [t] + b, a' + [t] + b')
  {
    JoinInner(a, t, b);
    JoinSqueeze(a, t, b);
    JoinValid(a, t, b);
    JoinApart(a, t, b);
    JoinApart(a', t, b');
  }

  lemma ValidConcat(a: seq<Token>, b: seq<Token>)
    requires AllValid(a) && AllValid(b)
    ensures AllValid(a + b)
  {
  }

  lemma WrapSqueeze(open: Token, c: seq<Token>, tail: seq<Token>, close: Token)
    requires !IsCloserToken(open) && open != COMMA && IsCloserToken(close)
    requires tail == [close] || tail == [COMMA, close]
    requires c == [] ==> tail == [close]
    requires c != [] ==> Inner(c)
    ensures SqueezeTokens([open] + c + tail) == [open] + SqueezeTokens(c) + [close]
  {
    assert [COMMA, close][1..] == [close];
    assert SqueezeTokens(tail) == [close];
    assert SqueezeTokens([open]) == [open];
    if c == [] {
      SqueezeConcat([open], tail);
      assert [open] + c == [open] && [open] + SqueezeTokens(c) == [open];
    } else {
      SqueezeConcat([open], c);
      SqueezeConcat([open] + c, tail);
    }
  }

  lemma WrapApart(open: Token, c: seq<Token>, tail: seq<Token>)
    requires open.Punct? && WordsApart(c) && WordsApart(tail) && tail != [] && tail[0].Punct?
    ensures WordsApart([open] + c + tail)
  {
    ApartConcat([open], c);
    ApartConcat([open] + c, tail);
  }

  /** Brackets around shaped contents, which may end in a comma. */
  lemma ShapedWrap(open: Token, c: seq<Token>, c': seq<Token>, tail: seq<Token>, close: Token)
    requires open.Punct? && open.Valid() && !IsCloserToken(open) && open != COMMA
    requires IsCloserToken(close) && close.Valid()
    requires tail == [close] || tail == [COMMA, close]
    requires if c == [] then c' == [] && tail == [close] else Shaped(c, c')
    ensures Shaped([open] + c + tail, [open] + c' + [close])
  {
    WrapSqueeze(open, c, tail, close);
    WrapApart(open, c, tail);
    WrapApart(open, c', [close]);
    ValidConcat([open], c);
    ValidConcat([open] + c, tail);
  }

  lemma {:induction false} TokensShaped(v: Value, commas: bool)
    requires ValueOk(v)
    ensures Shaped(Tokens(v, commas), Tokens(v, false))
    decreases v
  {
    match v
    case Text(body) =>
    case Atom(text) =>
    case Array(items, trailing) =>
      if items != [] { ItemsShaped(v, items, commas); }
      ArrayShaped(v, commas);
    case Object(members, trailing) =>
      if members != [] { MembersShaped(v, members, commas); }
      ObjectShaped(v, commas);
  }

  lemma ArrayShaped(v: Value, commas: bool)
    requires v.Array? && (v.items != [] ==> Shaped(ItemTokens(v, v.items, commas), ItemTokens(v, v.items, false)))
    ensures Shaped(Tokens(v, commas), Tokens(v, false))
  {
    var c, c' := ItemTokens(v, v.items, commas), ItemTokens(v, v.items, false);
    var open, close := Punct('['), Punct(']');
    var comma := if commas && v.trailing && v.items != [] then [COMMA] else [];
    ShapedWrap(open, c, c', comma + [close], close);
    assert [open] + c + comma + [close] == [open] + c + (comma + [close]);
    assert [open] + c' + [] + [close] == [open] + c' + [close];
  }

  lemma ObjectShaped(v: Value, commas: bool)
    requires v.Object? && (v.members != [] ==>
      Shaped(MemberTokens(v, v.members, commas), MemberTokens(v, v.members, false)))
    ensures Shaped(Tokens(v, commas), Tokens(v, false))
  {
    var c, c' := MemberTokens(v, v.members, commas), MemberTokens(v, v.members, false);
    var open, close := Punct('{'), Punct('}');
    var comma := if commas && v.trailing && v.members != [] then [COMMA] else [];
    ShapedWrap(open, c, c', comma + [close], close);
    assert [open] + c + comma + [close] == [open] + c + (comma + [close]);
    assert [open] + c' + [] + [close] == [open] + c' + [close];
  }

  lemma {:induction false} ItemsShaped(v: Value, items: seq<Value>, commas: bool)
    requires items != [] && forall i :: 0 <= i < |items| ==> items[i] < v && ValueOk(items[i])
    ensures Shaped(ItemTokens(v, items, commas), ItemTokens(v, items, false))
    decreases v, |items|
  {
    var one, one' := Tokens(items[0], commas), Tokens(items[0], false);
    TokensShaped(items[0], commas);
    if |items| > 1 {
      var rest, rest' := ItemTokens(v, items[1..], commas), ItemTokens(v, items[1..], false);
      ItemsShaped(v, items[1..], commas);
      ShapedJoin(one, one', COMMA, rest, rest');
      JoinAssoc(one, COMMA, rest);
      JoinAssoc(one', COMMA, rest');
    } else {
      assert one + [] == one && one' + [] == one';
    }
  }

  lemma JoinAssoc(a: seq<Token>, t: Token, b: seq<Token>)
    ensures a + ([t] + b) == a + [t] + b
  {
  }

  lemma {:induction false} MembersShaped(v: Value, members: seq<Member>, commas: bool)
    requires members != []
    requires forall i :: 0 <= i < |members| ==> members[i] < v && BodyOk(members[i].key) && ValueOk(members[i].value)
    ensures Shaped(MemberTokens(v, members, commas), MemberTokens(v, members, false))
    decreases v, |members|
  {
    var m := members[0];
    var key := [Str(m.key)];
    TokensShaped(m.value, commas);
    var one, one' := key + [Punct(':')] + Tokens(m.value, commas), key + [Punct(':')] + Tokens(m.value, false);
    ShapedJoin(key, key, Punct(':'), Tokens(m.value, commas), Tokens(m.value, false));
    assert key + [Punct(':')] == [Str(m.key), Punct(':')];
    if |members| > 1 {
      var rest, rest' := MemberTokens(v, members[1..], commas), MemberTokens(v, members[1..], false);
      MembersShaped(v, members[1..], commas);
      ShapedJoin(one, one', COMMA, rest, rest');
      JoinAssoc(one, COMMA, rest);
      JoinAssoc(one', COMMA, rest');
    } else {
      assert one + [] == one && one' + [] == one';
    }
  }

  // ---------------------------------------------------------------- the theorem

  /**
   * Take any JSON value, written with trailing commas in any non-empty containers and with any whitespace and comments
   * between its tokens: the text that toJson makes of it has the tokens of the plain value, string literals included.
   */
  lemma JsonKeepsMeaning(v: Value, ps: seq<Placed>, end: End)
    requires ValueOk(v) && TokensOf(ps) == Tokens(v, true)
    requires (forall i :: 0 <= i < |ps| ==> GapOk(ps[i].gap)) && end.Valid()
    ensures Lex(Json(Render(ps, end))) == Some(Tokens(v, false))
  {
    TokensShaped(v, true);
    PlacedTokens(ps);
    StripRender(ps, end);
    BlankedOk(ps);
    var ss, tail := Blanked(ps), GapBlank(end.gap);
    BlankIsSpace(end.gap);
    UncommaShow(ss, tail);
    LexShow(Squeeze(ss), tail);
  }

  lemma {:induction false} PlacedTokens(ps: seq<Placed>)
    ensures |TokensOf(ps)| == |ps| && forall i :: 0 <= i < |ps| ==> ps[i].token == TokensOf(ps)[i]
  {
    if ps != [] { PlacedTokens(ps[1..]); }
  }

  /** On plain JSON text, with whitespace only and no trailing commas, toJson is the identity. */
  lemma JsonKeepsPlainText(v: Value, ss: seq<Spaced>, end: string)
    requires ValueOk(v) && SpacedTokens(ss) == Tokens(v, false)
    requires (forall i :: 0 <= i < |ss| ==> AllSpace(ss[i].gap)) && AllSpace(end)
    ensures Json(Show(ss, end)) == Show(ss, end)
  {
    TokensShaped(v, false);
    SpacedAt(ss);
    StripShow(ss, end);
    UncommaShow(ss, end);
    SqueezeNothing(ss);
  }

  lemma {:induction false} SpacedAt(ss: seq<Spaced>)
    ensures |SpacedTokens(ss)| == |ss| && forall i :: 0 <= i < |ss| ==> ss[i].token == SpacedTokens(ss)[i]
  {
    if ss != [] { SpacedAt(ss[1..]); }
  }

  lemma {:induction false} SqueezeShorter(ts: seq<Token>)
    ensures |SqueezeTokens(ts)| <= |ts|
  {
    if |ts| > 1 { SqueezeShorter(ts[1..]); }
  }

  lemma {:induction false} SqueezeNothing(ss: seq<Spaced>)
    requires SqueezeTokens(SpacedTokens(ss)) == SpacedTokens(ss)
    ensures Squeeze(ss) == ss
  {
    if |ss| > 1 {
      var ts := SpacedTokens(ss);
      SpacedAt(ss);
      assert ts[1..] == SpacedTokens(ss[1..]);
      SqueezeFixed(ts);
      SqueezeNothing(ss[1..]);
      assert ss == [ss[0]] + ss[1..];
    }
  }

  lemma SqueezeFixed(ts: seq<Token>)
    requires |ts| > 1 && SqueezeTokens(ts) == ts
    ensures !(ts[0] == COMMA && IsCloserToken(ts[1])) && SqueezeTokens(ts[1..]) == ts[1..]
  {
    SqueezeShorter(ts[1..]);
    assert SqueezeTokens(ts)[1..] == SqueezeTokens(ts[1..]);
  }

  lemma {:induction false} StripSpace(gap: string, rest: string)
    requires AllSpace(gap)
    ensures Strip(gap + rest, false) == gap + Strip(rest, false)
  {
    if gap == "" {
      assert gap + rest == rest;
      assert gap + Strip(rest, false) == Strip(rest, false);
    } else {
      assert (gap + rest)[1..] == gap[1..] + rest;
      StripSpace(gap[1..], rest);
      assert gap == [gap[0]] + gap[1..];
    }
  }

  lemma {:induction false} StripShow(ss: seq<Spaced>, end: string)
    requires SpacedOk(ss) && AllSpace(end)
    ensures Strip(Show(ss, end), false) == Show(ss, end)
  {
    if ss == [] {
      StripSpace(end, "");
      assert end + "" == end;
    } else {
      var first, tail := ss[0], Show(ss[1..], end);
      assert SpacedOk(ss[1..]);
      StripShow(ss[1..], end);
      assert Show(ss, end) == first.gap + (first.token.Text() + tail);
      StripSpace(first.gap, first.token.Text() + tail);
      StripToken(first.token, tail);
    }
  }
}
