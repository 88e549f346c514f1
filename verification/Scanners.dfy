/** The two string-aware scanners that turn JSON with comments and trailing commas into JSON. */
module Scanners {

  predicate IsWhitespace(c: char) { c == ' ' || c == '\t' || c == '\n' || c == '\r' }

  predicate IsCloser(c: char) { c == '}' || c == ']' }

  /** White space in section 2 of RFC 8259, by code point: space, horizontal tab, line feed and carriage return. */
  predicate Ws(c: char) { c as int in {0x20, 0x09, 0x0A, 0x0D} }

  /** end-array and end-object there. */
  predicate Ends(c: char) { c as int in {0x5D, 0x7D} }

  /** The scanner's tests are those of the RFC. */
  lemma ScannerTests(c: char)
    ensures IsWhitespace(c) <==> Ws(c)
    ensures IsCloser(c) <==> Ends(c)
  {
    assert Ws(c) ==> c == 0x20 as char || c == 0x09 as char || c == 0x0A as char || c == 0x0D as char;
    assert Ends(c) ==> c == 0x5D as char || c == 0x7D as char;
  }

  /** The text from position i on; a position behind the end has no text. */
  function From(src: string, i: nat): string { if i <= |src| then src[i..] else "" }

  predicate OpensLine(s: string) { |s| > 1 && s[0] == '/' && s[1] == '/' }

  predicate OpensBlock(s: string) { |s| > 1 && s[0] == '/' && s[1] == '*' }

  predicate OpensComment(s: string) { OpensLine(s) || OpensBlock(s) }

  function SkipLine(s: string): (r: string)
    ensures |r| <= |s|
  {
    if s == "" || s[0] == '\n' then s else SkipLine(s[1..])
  }

  /** Behind the end of a block comment, or the empty text when it has no end. */
  function SkipBlock(s: string): (r: string)
    ensures |r| <= |s|
  {
    if s == "" then "" else if |s| > 1 && s[0] == '*' && s[1] == '/' then s[2..] else SkipBlock(s[1..])
  }

  function SkipWhitespace(s: string): (r: string)
    ensures |r| <= |s|
    ensures r != "" ==> !IsWhitespace(r[0])
  {
    if s != "" && IsWhitespace(s[0]) then SkipWhitespace(s[1..]) else s
  }

  /** An escape sequence in a string literal: two characters that are copied together. */
  predicate Escapes(s: string) { |s| > 1 && s[0] == '\\' }

  /** What stripComments makes of a text that starts inside or outside a string literal. */
  function Strip(s: string, inString: bool): string
    decreases |s|
  {
    if s == "" then ""
    else if inString then
      if Escapes(s) then s[..2] + Strip(s[2..], true) else [s[0]] + Strip(s[1..], s[0] != '"')
    else if s[0] == '"' then ['"'] + Strip(s[1..], true)
    else if OpensLine(s) then Strip(SkipLine(s[1..]), false)
    else if OpensBlock(s) then Strip(SkipBlock(s[2..]), false)
    else [s[0]] + Strip(s[1..], false)
  }

  /** The next character that is not whitespace closes an array or an object. */
  predicate Closes(s: string) {
    var r := SkipWhitespace(s);
    r != "" && IsCloser(r[0])
  }

  /** What stripTrailingCommas makes of a text. */
  function Uncomma(s: string, inString: bool): string
    decreases |s|
  {
    if s == "" then ""
    else if inString then
      if Escapes(s) then s[..2] + Uncomma(s[2..], true) else [s[0]] + Uncomma(s[1..], s[0] != '"')
    else if s[0] == '"' then ['"'] + Uncomma(s[1..], true)
    else if s[0] == ',' && Closes(s[1..]) then Uncomma(s[1..], false)
    else [s[0]] + Uncomma(s[1..], false)
  }

  // ---------------------------------------------------------------- the loops

  /** One turn of the loop of stripComments at position i, as an equation about the rest of the text. */
  lemma StripAt(src: string, i: nat, inString: bool)
    requires i < |src|
    ensures var s := src[i..];
      var rest := Strip(s, inString);
      && s[0] == src[i] && (|s| > 1 <==> i + 1 < |src|) && (|s| > 1 ==> s[1] == src[i + 1])
      && (inString && Escapes(s) ==> rest == [src[i], src[i + 1]] + Strip(src[i + 2..], true))
      && (inString && !Escapes(s) ==> rest == [src[i]] + Strip(src[i + 1..], src[i] != '"'))
      && (!inString && OpensLine(s) ==> rest == Strip(SkipLine(src[i..]), false))
      && (!inString && OpensBlock(s) ==> rest == Strip(SkipBlock(src[i + 2..]), false))
      && (!inString && !OpensComment(s) ==> rest == [src[i]] + Strip(src[i + 1..], src[i] == '"'))
  {
    var s := src[i..];
    assert s[1..] == src[i + 1..];
    if |s| > 1 {
      assert s[2..] == src[i + 2..] && s[..2] == [src[i], src[i + 1]];
    }
  }

  /** The same for stripTrailingCommas. */
  lemma UncommaAt(src: string, i: nat, inString: bool)
    requires i < |src|
    ensures var s := src[i..];
      var rest := Uncomma(s, inString);
      && (|s| > 1 <==> i + 1 < |src|) && s[0] == src[i]
      && (inString && Escapes(s) ==> rest == [src[i], src[i + 1]] + Uncomma(src[i + 2..], true))
      && (inString && !Escapes(s) ==> rest == [src[i]] + Uncomma(src[i + 1..], src[i] != '"'))
      && (!inString && src[i] == ',' && Closes(src[i + 1..]) ==> rest == Uncomma(src[i + 1..], false))
      && (!inString && !(src[i] == ',' && Closes(src[i + 1..])) ==>
            rest == [src[i]] + Uncomma(src[i + 1..], src[i] == '"'))
  {
    var s := src[i..];
    assert s[1..] == src[i + 1..];
    if |s| > 1 {
      assert s[2..] == src[i + 2..] && s[..2] == [src[i], src[i + 1]];
    }
  }

  /** The turn, carried over to the loop's invariant: what was written so far and the rest still make up the whole. */
  lemma StripTurn(src: string, i: nat, inString: bool, out: string, whole: string)
    requires i < |src| && out + Strip(From(src, i), inString) == whole
    ensures var s := src[i..];
      && s[0] == src[i] && (|s| > 1 <==> i + 1 < |src|) && (|s| > 1 ==> s[1] == src[i + 1])
      && (inString && Escapes(s) ==> out + [src[i]] + [src[i + 1]] + Strip(From(src, i + 2), true) == whole)
      && (inString && !Escapes(s) ==> out + [src[i]] + Strip(From(src, i + 1), src[i] != '"') == whole)
      && (!inString && OpensLine(s) ==> out + Strip(SkipLine(src[i..]), false) == whole)
      && (!inString && OpensBlock(s) ==> out + Strip(SkipBlock(src[i + 2..]), false) == whole)
      && (!inString && !OpensComment(s) ==> out + [src[i]] + Strip(From(src, i + 1), src[i] == '"') == whole)
  {
    StripAt(src, i, inString);
    var s := src[i..];
    if inString && Escapes(s) {
      assert [src[i]] + [src[i + 1]] == [src[i], src[i + 1]];
      Assoc(out, [src[i]], [src[i + 1]]);
      Assoc(out, [src[i], src[i + 1]], Strip(From(src, i + 2), true));
    } else if inString {
      Assoc(out, [src[i]], Strip(From(src, i + 1), src[i] != '"'));
    } else {
      Assoc(out, [src[i]], Strip(From(src, i + 1), src[i] == '"'));
    }
  }

  lemma Assoc(a: string, b: string, c: string)
    ensures (a + b) + c == a + (b + c)
  {
  }

  /** The inner loop over a line comment. */
  method PassLine(src: string, from: nat) returns (i: nat)
    requires from < |src|
    ensures i <= |src| && From(src, i) == SkipLine(src[from..])
    ensures src[from] != '\n' ==> i > from
  {
    i := from;
    while i < |src| && src[i] != '\n'
      invariant from <= i <= |src| && SkipLine(src[i..]) == SkipLine(src[from..])
      invariant i == from ==> src[i] == src[from]
    {
      assert src[i..][1..] == src[i + 1..];
      i := i + 1;
    }
  }

  /** The inner loop over a block comment; without an end it runs behind the text. */
  method PassBlock(src: string, from: nat) returns (i: nat)
    requires from <= |src|
    ensures i >= from && From(src, i) == SkipBlock(src[from..])
  {
    i := from;
    while i < |src| && !(src[i] == '*' && i + 1 < |src| && src[i + 1] == '/')
      invariant from <= i <= |src| && SkipBlock(src[i..]) == SkipBlock(src[from..])
    {
      assert src[i..][1..] == src[i + 1..];
      i := i + 1;
    }
    assert i < |src| ==> src[i..][2..] == src[i + 2..];
    i := i + 2;
  }

  method StripComments(src: string) returns (out: string)
    ensures out == Strip(src, false)
  {
    out := "";
    var inString := false;
    var i := 0;
    ghost var whole := Strip(src, false);
    while i < |src|
      invariant out + Strip(From(src, i), inString) == whole
      decreases |src| - i
    {
      var c := src[i];
      StripTurn(src, i, inString, out, whole);
      if inString {
        out := out + [c];
        if c == '\\' && i + 1 < |src| {
          out := out + [src[i + 1]];
          i := i + 2;
          continue;
        }
        if c == '"' {
          inString := false;
        }
        i := i + 1;
        continue;
      }
      if c == '"' {
        inString := true;
        out := out + [c];
        i := i + 1;
        continue;
      }
      if c == '/' && i + 1 < |src| && src[i + 1] == '/' {
        i := PassLine(src, i);
        continue;
      }
      if c == '/' && i + 1 < |src| && src[i + 1] == '*' {
        i := PassBlock(src, i + 2);
        continue;
      }
      out := out + [c];
      i := i + 1;
    }
  }

  method StripTrailingCommas(src: string) returns (out: string)
    ensures out == Uncomma(src, false)
  {
    out := "";
    var inString := false;
    var i := 0;
    while i < |src|
      invariant i <= |src| && out + Uncomma(src[i..], inString) == Uncomma(src, false)
      decreases |src| - i
    {
      var c := src[i];
      UncommaAt(src, i, inString);
      if inString {
        ghost var before := out;
        out := out + [c];
        if c == '\\' && i + 1 < |src| {
          out := out + [src[i + 1]];
          assert out == before + [c, src[i + 1]];
          Assoc(before, [c, src[i + 1]], Uncomma(src[i + 2..], true));
          i := i + 2;
          continue;
        }
        if c == '"' {
          inString := false;
        }
        Assoc(before, [c], Uncomma(src[i + 1..], inString));
        i := i + 1;
        continue;
      }
      if c == '"' {
        inString := true;
        Assoc(out, [c], Uncomma(src[i + 1..], true));
        out := out + [c];
        i := i + 1;
        continue;
      }
      if c == ',' {
        var j := i + 1;
        while j < |src| && IsWhitespace(src[j])
          invariant i < j <= |src| && SkipWhitespace(src[j..]) == SkipWhitespace(src[i + 1..])
        {
          assert src[j..][1..] == src[j + 1..];
          j := j + 1;
        }
        assert j < |src| ==> src[j..][0] == src[j];
        if j < |src| && (src[j] == '}' || src[j] == ']') {
          i := i + 1;
          continue;
        }
      }
      Assoc(out, [c], Uncomma(src[i + 1..], false));
      out := out + [c];
      i := i + 1;
    }
  }

  function Json(src: string): string { Uncomma(Strip(src, false), false) }

  method ToJson(src: string) returns (out: string)
    ensures out == Json(src)
  {
    out := StripComments(src);
    out := StripTrailingCommas(out);
  }

  // ---------------------------------------------------------------- stripComments

  /** No comment opens outside string literals. */
  predicate CommentFree(s: string, inString: bool)
    decreases |s|
  {
    if s == "" then true
    else if inString then
      if Escapes(s) then CommentFree(s[2..], true) else CommentFree(s[1..], s[0] != '"')
    else if s[0] == '"' then CommentFree(s[1..], true)
    else !OpensComment(s) && CommentFree(s[1..], false)
  }

  /** A slash that is kept keeps its own neighbour, so that removing a comment never forms another one. */
  lemma SlashKeepsNeighbour(s: string)
    requires s != "" && s[0] != '"' && !OpensComment(s)
    ensures s[0] == '/' ==> !OpensComment([s[0]] + Strip(s[1..], false))
  {
    if s[0] == '/' && |s| > 1 {
      var t := s[1..];
      assert t[0] != '/' && t[0] != '*';
      assert Strip(t, false)[0] == t[0];
    }
  }

  lemma {:induction false} StripLeavesNoComment(s: string, inString: bool)
    ensures CommentFree(Strip(s, inString), inString)
    decreases |s|
  {
    if s == "" {
    } else if inString {
      if Escapes(s) {
        StripLeavesNoComment(s[2..], true);
        var out := Strip(s, true);
        assert out[2..] == Strip(s[2..], true);
      } else {
        StripLeavesNoComment(s[1..], s[0] != '"');
        var out := Strip(s, true);
        assert out[1..] == Strip(s[1..], s[0] != '"');
      }
    } else if s[0] == '"' {
      StripLeavesNoComment(s[1..], true);
      assert Strip(s, false)[1..] == Strip(s[1..], true);
    } else if OpensLine(s) {
      StripLeavesNoComment(SkipLine(s[1..]), false);
    } else if OpensBlock(s) {
      StripLeavesNoComment(SkipBlock(s[2..]), false);
    } else {
      StripLeavesNoComment(s[1..], false);
      SlashKeepsNeighbour(s);
      assert Strip(s, false)[1..] == Strip(s[1..], false);
    }
  }

  lemma {:induction false} StripKeepsCommentFree(s: string, inString: bool)
    requires CommentFree(s, inString)
    ensures Strip(s, inString) == s
    decreases |s|
  {
    if s == "" {
    } else if inString && Escapes(s) {
      StripKeepsCommentFree(s[2..], true);
      assert s == s[..2] + s[2..];
    } else {
      StripKeepsCommentFree(s[1..], if inString then s[0] != '"' else s[0] == '"');
      assert s == [s[0]] + s[1..];
    }
  }

  /**
   * stripComments leaves no comment opener outside strings, changes exactly the texts that have one, and is idempotent.
   */
  lemma StripCommentsCorrect(s: string)
    ensures CommentFree(Strip(s, false), false)
    ensures Strip(s, false) == s <==> CommentFree(s, false)
    ensures Strip(Strip(s, false), false) == Strip(s, false)
  {
    StripLeavesNoComment(s, false);
    StripKeepsCommentFree(Strip(s, false), false);
    if CommentFree(s, false) { StripKeepsCommentFree(s, false); }
  }

  // ---------------------------------------------------------------- stripComments, position by position

  /** Where a position stands; at Open and Close the second character of a comment's opener or end comes next. */
  datatype Place = Code | Literal | Escape | LineComment | Open | BlockComment | Close

  /** The character at position i and the one behind it. */
  predicate Pair(s: string, i: nat, a: char, b: char) { i + 1 < |s| && s[i] == a && s[i + 1] == b }

  function NextPlace(p: Place, s: string, i: nat): Place
    requires i < |s|
  {
    match p
    case Code =>
      if s[i] == '"' then Literal
      else if Pair(s, i, '/', '/') then LineComment
      else if Pair(s, i, '/', '*') then Open
      else Code
    case Literal => if s[i] == '\\' then Escape else if s[i] == '"' then Code else Literal
    case Escape => Literal
    case LineComment => if s[i] == '\n' then Code else LineComment
    case Open => BlockComment
    case BlockComment => if Pair(s, i, '*', '/') then Close else BlockComment
    case Close => Code
  }

  /** Read from the start of the text. */
  function PlaceAt(s: string, i: nat): Place
    requires i <= |s|
  {
    if i == 0 then Code else NextPlace(PlaceAt(s, i - 1), s, i - 1)
  }

  /** The position belongs to a comment: the line end behind a line comment does not. */
  predicate InComment(s: string, i: nat)
    requires i < |s|
  {
    match PlaceAt(s, i)
    case Code => Pair(s, i, '/', '/') || Pair(s, i, '/', '*')
    case LineComment => s[i] != '\n'
    case Literal | Escape => false
    case _ => true
  }

  /** The text from position i on without the characters of comments. */
  function Uncommented(s: string, i: nat): string
    requires i <= |s|
    decreases |s| - i
  {
    if i == |s| then "" else (if InComment(s, i) then "" else [s[i]]) + Uncommented(s, i + 1)
  }

  /** What the scanner makes of the rest of a text, from where it stands. */
  ghost predicate Rests(s: string, i: nat)
    requires i <= |s|
  {
    match PlaceAt(s, i)
    case Code => Strip(s[i..], false) == Uncommented(s, i)
    case Literal => Strip(s[i..], true) == Uncommented(s, i)
    case LineComment => Strip(SkipLine(s[i..]), false) == Uncommented(s, i)
    case BlockComment => Strip(SkipBlock(s[i..]), false) == Uncommented(s, i)
    case _ => true
  }

  lemma {:induction false} StripIsUncommented(s: string, i: nat)
    requires i <= |s|
    ensures Rests(s, i)
    decreases |s| - i
  {
    if i < |s| {
      var t := s[i..];
      StripIsUncommented(s, i + 1);
      assert t[0] == s[i] && t[1..] == s[i + 1..];
      assert PlaceAt(s, i + 1) == NextPlace(PlaceAt(s, i), s, i);
      if i + 1 < |s| {
        StripIsUncommented(s, i + 2);
        assert t[1] == s[i + 1] && t[2..] == s[i + 2..] && t[..2] == [s[i], s[i + 1]];
        assert PlaceAt(s, i + 2) == NextPlace(PlaceAt(s, i + 1), s, i + 1);
        StripTwo(s, i);
      } else {
        StripLast(s, i);
      }
    }
  }

  /** The last character. */
  lemma StripLast(s: string, i: nat)
    requires i + 1 == |s|
    ensures Rests(s, i)
  {
    var t := s[i..];
    assert t == [s[i]] && t[1..] == "";
  }

  lemma StripTwo(s: string, i: nat)
    requires i + 1 < |s| && Rests(s, i + 1) && Rests(s, i + 2)
    ensures Rests(s, i)
  {
    var t := s[i..];
    assert t[0] == s[i] && t[1] == s[i + 1];
    assert t[1..] == s[i + 1..] && t[2..] == s[i + 2..] && t[..2] == [s[i], s[i + 1]];
    assert PlaceAt(s, i + 1) == NextPlace(PlaceAt(s, i), s, i);
    assert PlaceAt(s, i + 2) == NextPlace(PlaceAt(s, i + 1), s, i + 1);
  }

  /** stripComments deletes exactly the characters of comments, the ends of block comments included. */
  lemma StripDeletesExactly(s: string)
    ensures Strip(s, false) == Uncommented(s, 0)
  {
    StripIsUncommented(s, 0);
    assert s[0..] == s;
  }

  // ---------------------------------------------------------------- stripTrailingCommas, position by position

  datatype Mode = Plain | Quoted | Escaped

  function Next(m: Mode, c: char): Mode {
    match m
    case Plain => if c == '"' then Quoted else Plain
    case Quoted => if c == '\\' then Escaped else if c == '"' then Plain else Quoted
    case Escaped => Quoted
  }

  /** Whether position i stands outside or inside a string literal, read from the start of the text. */
  function ModeAt(s: string, i: nat): Mode
    requires i <= |s|
  {
    if i == 0 then Plain else Next(ModeAt(s, i - 1), s[i - 1])
  }

  ghost predicate OnlySpaceBetween(s: string, i: nat, j: nat)
    requires j <= |s|
  {
    forall k :: i < k < j ==> Ws(s[k])
  }

  /** A comma outside string literals whose next character that is not whitespace is a closer. */
  ghost predicate TrailingAt(s: string, i: nat)
    requires i < |s|
  {
    && s[i] == ',' && ModeAt(s, i) == Plain
    && exists j :: i < j < |s| && OnlySpaceBetween(s, i, j) && Ends(s[j])
  }

  /** The text from position i on without its trailing commas, and with everything else. */
  ghost function Kept(s: string, i: nat): string
    requires i <= |s|
    decreases |s| - i
  {
    if i == |s| then ""
    else (if TrailingAt(s, i) then "" else [s[i]]) + Kept(s, i + 1)
  }

  lemma {:induction false} ClosesAt(s: string, i: nat)
    requires i < |s|
    ensures Closes(s[i + 1..]) <==> exists j :: i < j < |s| && OnlySpaceBetween(s, i, j) && Ends(s[j])
  {
    var j := i + 1;
    while j < |s| && IsWhitespace(s[j])
      invariant i < j <= |s| && OnlySpaceBetween(s, i, j)
      invariant SkipWhitespace(s[j..]) == SkipWhitespace(s[i + 1..])
    {
      ScannerTests(s[j]);
      assert s[j..][1..] == s[j + 1..];
      j := j + 1;
    }
    if j < |s| { ScannerTests(s[j]); }
    if Closes(s[i + 1..]) {
      assert s[j..][0] == s[j];
      assert OnlySpaceBetween(s, i, j) && Ends(s[j]);
    }
    if k :| i < k < |s| && OnlySpaceBetween(s, i, k) && Ends(s[k]) {
      ScannerTests(s[k]);
      assert k == j;
      assert s[j..][0] == s[j];
    }
  }

  lemma {:induction false} UncommaIsKept(s: string, i: nat)
    requires i <= |s|
    ensures ModeAt(s, i) != Escaped ==> Uncomma(s[i..], ModeAt(s, i) == Quoted) == Kept(s, i)
    decreases |s| - i
  {
    if i < |s| && ModeAt(s, i) != Escaped {
      var t := s[i..];
      assert t[1..] == s[i + 1..];
      UncommaIsKept(s, i + 1);
      ClosesAt(s, i);
      assert ModeAt(s, i + 1) == Next(ModeAt(s, i), s[i]);
      if ModeAt(s, i) == Quoted && s[i] == '\\' {
        if i + 1 < |s| {
          assert t[2..] == s[i + 2..] && t[..2] == [s[i], s[i + 1]];
          UncommaIsKept(s, i + 2);
          assert ModeAt(s, i + 2) == Next(ModeAt(s, i + 1), s[i + 1]) == Quoted;
          assert Kept(s, i) == [s[i]] + ([s[i + 1]] + Kept(s, i + 2));
        } else {
          assert t[1..] == "";
          assert Uncomma(t, true) == [s[i]] + Uncomma("", true);
        }
      }
    }
  }

  /** stripTrailingCommas deletes exactly the trailing commas outside string literals, and nothing else. */
  lemma UncommaDeletesExactly(s: string)
    ensures Uncomma(s, false) == Kept(s, 0)
  {
    UncommaIsKept(s, 0);
    assert s[0..] == s;
  }

  // ---------------------------------------------------------------- when stripTrailingCommas is idempotent

  predicate NoTrailing(s: string, inString: bool)
    decreases |s|
  {
    if s == "" then true
    else if inString then
      if Escapes(s) then NoTrailing(s[2..], true) else NoTrailing(s[1..], s[0] != '"')
    else if s[0] == '"' then NoTrailing(s[1..], true)
    else !(s[0] == ',' && Closes(s[1..])) && NoTrailing(s[1..], false)
  }

  /** Behind whitespace comes a comma that is itself a trailing comma. */
  predicate ThenTrailing(s: string) {
    var r := SkipWhitespace(s);
    r != "" && r[0] == ',' && Closes(r[1..])
  }

  /** No comma outside string literals is followed, past whitespace, by a trailing comma. */
  predicate NoDouble(s: string, inString: bool)
    decreases |s|
  {
    if s == "" then true
    else if inString then
      if Escapes(s) then NoDouble(s[2..], true) else NoDouble(s[1..], s[0] != '"')
    else if s[0] == '"' then NoDouble(s[1..], true)
    else !(s[0] == ',' && ThenTrailing(s[1..])) && NoDouble(s[1..], false)
  }

  /** Leading whitespace is copied. */
  lemma {:induction false} UncommaSpace(s: string)
    ensures SkipWhitespace(Uncomma(s, false)) == SkipWhitespace(Uncomma(SkipWhitespace(s), false))
  {
    if s != "" && IsWhitespace(s[0]) {
      UncommaSpace(s[1..]);
      assert Uncomma(s, false)[1..] == Uncomma(s[1..], false);
    }
  }

  /** What follows a kept comma closes in the output exactly when a trailing comma followed it in the input. */
  lemma UncommaCloses(s: string)
    requires !Closes(s)
    ensures Closes(Uncomma(s, false)) <==> ThenTrailing(s)
  {
    var r := SkipWhitespace(s);
    UncommaSpace(s);
    if r != "" {
      var out := Uncomma(r, false);
      if r[0] == ',' && Closes(r[1..]) {
        var q := SkipWhitespace(r[1..]);
        UncommaSpace(r[1..]);
        assert Uncomma(q, false)[0] == q[0];
      } else {
        assert out[0] == r[0];
      }
    }
  }

  lemma {:induction false} UncommaTrailing(s: string, inString: bool)
    ensures NoTrailing(Uncomma(s, inString), inString) <==> NoDouble(s, inString)
    decreases |s|
  {
    if s == "" {
    } else if inString {
      if Escapes(s) {
        UncommaTrailing(s[2..], true);
        assert Uncomma(s, true)[2..] == Uncomma(s[2..], true);
      } else {
        UncommaTrailing(s[1..], s[0] != '"');
        assert Uncomma(s, true)[1..] == Uncomma(s[1..], s[0] != '"');
      }
    } else if s[0] == '"' {
      UncommaTrailing(s[1..], true);
      assert Uncomma(s, false)[1..] == Uncomma(s[1..], true);
    } else if s[0] == ',' && Closes(s[1..]) {
      UncommaTrailing(s[1..], false);
    } else {
      UncommaTrailing(s[1..], false);
      if s[0] == ',' { UncommaCloses(s[1..]); }
      assert Uncomma(s, false)[1..] == Uncomma(s[1..], false);
    }
  }

  lemma {:induction false} UncommaKeepsClean(s: string, inString: bool)
    ensures |Uncomma(s, inString)| <= |s|
    ensures Uncomma(s, inString) == s <==> NoTrailing(s, inString)
    decreases |s|
  {
    if s == "" {
    } else if inString && Escapes(s) {
      UncommaKeepsClean(s[2..], true);
      assert s == s[..2] + s[2..];
      assert Uncomma(s, true)[2..] == Uncomma(s[2..], true);
    } else {
      var next := if inString then s[0] != '"' else s[0] == '"';
      UncommaKeepsClean(s[1..], next);
      assert s == [s[0]] + s[1..];
      if inString || s[0] != ',' || !Closes(s[1..]) {
        assert Uncomma(s, inString)[1..] == Uncomma(s[1..], next);
      }
    }
  }

  /**
   * The output has no trailing comma, and a second run changes nothing, exactly when no comma precedes a trailing
   * comma.
   */
  lemma UncommaIdempotent(s: string)
    ensures NoTrailing(Uncomma(s, false), false) <==> NoDouble(s, false)
    ensures Uncomma(Uncomma(s, false), false) == Uncomma(s, false) <==> NoDouble(s, false)
  {
    UncommaTrailing(s, false);
    UncommaKeepsClean(Uncomma(s, false), false);
  }

  /** A text on which one run is not enough. */
  lemma TwoCommasNeedTwoRuns()
    ensures Uncomma("[1,,]", false) == "[1,]"
    ensures Uncomma("[1,]", false) == "[1]"
  {
    assert "[1,,]"[1..] == "1,,]" && "1,,]"[1..] == ",,]" && ",,]"[1..] == ",]" && ",]"[1..] == "]" && "]"[1..] == "";
    assert "[1,]"[1..] == "1,]" && "1,]"[1..] == ",]";
    assert Uncomma("]", false) == "]";
    assert Uncomma(",]", false) == "]";
    assert Uncomma(",,]", false) == ",]";
    assert Uncomma("1,,]", false) == "1,]";
    assert Uncomma("1,]", false) == "1]";
  }
}
