/**
 * What the context is on the outside: base64 over the alphabet of RFC 4648 and a JSON list of decimal numbers, stated
 * without the tables and the arithmetic of the codec.
 */
module ContextFormat {
  import opened Common
  import opened ContextCodec
  import JP = JsonPointer
  import JT = JsonText

  /** Table 1 of RFC 4648. */
  const ALPHABET: string :=
    "ABCDEFGHIJKLMNOPQRSTUVWXYZ" + "abcdefghijklmnopqrstuvwxyz" + "0123456789" + "+/"

  lemma UpperAt(v: nat)
    requires v < 26
    ensures "ABCDEFGHIJKLMNOPQRSTUVWXYZ"[v] == ('A' as int + v) as char
  {
  }

  lemma LowerAt(v: nat)
    requires v < 26
    ensures "abcdefghijklmnopqrstuvwxyz"[v] == ('a' as int + v) as char
  {
  }

  lemma DecimalAt(v: nat)
    requires v < 10
    ensures "0123456789"[v] == ('0' as int + v) as char
  {
  }

  /** Symbols and values are those of the alphabet. */
  lemma SymbolIsEntry(v: Sextet)
    ensures |ALPHABET| == 64 && ALPHABET[v] == Symbol(v)
  {
    if v < 26 {
      UpperAt(v);
    } else if v < 52 {
      LowerAt(v - 26);
    } else if v < 62 {
      DecimalAt(v - 52);
    }
  }

  /** The place of a character in a table of symbols; -1 for other characters. */
  ghost function Place(table: string, c: char): (v: int)
    ensures v == -1 <==> c !in table
    ensures v != -1 ==> 0 <= v < |table| && table[v] == c
  {
    if c in table then var v :| 0 <= v < |table| && table[v] == c; v else -1
  }

  /** The table that the codec computes. */
  ghost predicate Table(table: string) {
    |table| == 64 && forall v: nat :: v < 64 ==> table[v] == Symbol(v)
  }

  lemma AlphabetIsTable()
    ensures Table(ALPHABET)
  {
    SymbolIsEntry(0);
    forall v: nat | v < 64
      ensures ALPHABET[v] == Symbol(v)
    {
      SymbolIsEntry(v);
    }
  }

  lemma PlaceIsValue(table: string, c: char)
    requires Table(table)
    ensures Place(table, c) == if Value(c).Some? then Value(c).value else -1
  {
    var v := Place(table, c);
    if v != -1 { ValueOfSymbol(v); }
    if Value(c).Some? { assert table[Value(c).value] == Symbol(Value(c).value) == c; }
  }

  lemma PlaceOfSymbol(table: string, v: Sextet)
    requires Table(table)
    ensures Place(table, Symbol(v)) == v
  {
    ValueOfSymbol(v);
    PlaceIsValue(table, Symbol(v));
  }

  // ---------------------------------------------------------------- groups as numbers

  function Base2(a: int, b: int): int { a * 64 + b }

  function Base3(a: int, b: int, c: int): int { (a * 64 + b) * 64 + c }

  function Base4(a: int, b: int, c: int, d: int): int { ((a * 64 + b) * 64 + c) * 64 + d }

  function Big2(p: int, q: int): int { p * 256 + q }

  function Big3(p: int, q: int, r: int): int { (p * 256 + q) * 256 + r }

  /** The first k characters are symbols. */
  ghost predicate Symbols(table: string, s: string, k: nat)
    requires k <= |s|
  {
    forall i :: 0 <= i < k ==> Place(table, s[i]) != -1
  }

  /**
   * The text stands for the bytes: each group of four symbols, as a number in base 64, is the big-endian number of
   * three bytes; the last group may be padded, and its left-over bits are zero if this is to be exact.
   */
  ghost predicate StandsFor(table: string, s: string, b: seq<Byte>, exact: bool) {
    if b == [] then s == ""
    else if |s| < 4 then false
    else if |b| == 1 then
      s[2..] == "==" && Symbols(table, s, 2)
      && var n := Base2(Place(table, s[0]), Place(table, s[1]));
         n / 16 == b[0] && (exact ==> n % 16 == 0)
    else if |b| == 2 then
      s[3..] == "=" && Symbols(table, s, 3)
      && var n := Base3(Place(table, s[0]), Place(table, s[1]), Place(table, s[2]));
         n / 4 == Big2(b[0], b[1]) && (exact ==> n % 4 == 0)
    else
      Symbols(table, s, 4)
      && Base4(Place(table, s[0]), Place(table, s[1]), Place(table, s[2]), Place(table, s[3])) == Big3(b[0], b[1], b[2])
      && StandsFor(table, s[4..], b[3..], exact)
  }

  lemma Arithmetic(p: int, q: int, r: int)
    requires 0 <= p < 256 && 0 <= q < 256 && 0 <= r < 256
    ensures Base2(p / 4, p % 4 * 16) == p * 16
    ensures Base3(p / 4, p % 4 * 16 + q / 16, q % 16 * 4) == Big2(p, q) * 4
    ensures Base4(p / 4, p % 4 * 16 + q / 16, q % 16 * 4 + r / 64, r % 64) == Big3(p, q, r)
  {
  }

  lemma OneByteGroup(table: string, p: Byte)
    requires Table(table)
    ensures StandsFor(table, Encode([p]), [p], true)
  {
    var s := Encode([p]);
    PlaceOfSymbol(table, p / 4);
    PlaceOfSymbol(table, p % 4 * 16);
    Arithmetic(p, 0, 0);
    assert s == [Symbol(p / 4), Symbol(p % 4 * 16), '=', '='] && s[2..] == "==";
  }

  lemma TwoByteGroup(table: string, p: Byte, q: Byte)
    requires Table(table)
    ensures StandsFor(table, Encode([p, q]), [p, q], true)
  {
    var s := Encode([p, q]);
    PlaceOfSymbol(table, p / 4);
    PlaceOfSymbol(table, p % 4 * 16 + q / 16);
    PlaceOfSymbol(table, q % 16 * 4);
    Arithmetic(p, q, 0);
    assert s == [Symbol(p / 4), Symbol(p % 4 * 16 + q / 16), Symbol(q % 16 * 4), '='] && s[3..] == "=";
  }

  lemma ThreeByteGroup(table: string, s: string, p: Byte, q: Byte, r: Byte)
    requires Table(table) && |s| >= 4 && s[0] == Symbol(p / 4) && s[1] == Symbol(p % 4 * 16 + q / 16)
    requires s[2] == Symbol(q % 16 * 4 + r / 64) && s[3] == Symbol(r % 64)
    ensures Symbols(table, s, 4)
    ensures
      Base4(Place(table, s[0]), Place(table, s[1]), Place(table, s[2]), Place(table, s[3])) == Big3(p, q, r)
  {
    PlaceOfSymbol(table, p / 4);
    PlaceOfSymbol(table, p % 4 * 16 + q / 16);
    PlaceOfSymbol(table, q % 16 * 4 + r / 64);
    PlaceOfSymbol(table, r % 64);
    Arithmetic(p, q, r);
  }

  lemma {:induction false} EncodedGroupsStandard(table: string, b: seq<Byte>)
    requires Table(table)
    ensures StandsFor(table, Encode(b), b, true)
  {
    var s := Encode(b);
    if |b| == 1 {
      OneByteGroup(table, b[0]);
      assert b == [b[0]];
    } else if |b| == 2 {
      TwoByteGroup(table, b[0], b[1]);
      assert b == [b[0], b[1]];
    } else if |b| > 2 {
      ThreeByteGroup(table, s, b[0], b[1], b[2]);
      assert s[4..] == Encode(b[3..]);
      EncodedGroupsStandard(table, b[3..]);
    }
  }

  /** What is encoded stands for the bytes over the alphabet of section 4 of RFC 4648, padded groups included. */
  lemma EncodeIsStandard(b: seq<Byte>)
    ensures StandsFor(ALPHABET, Encode(b), b, true)
  {
    AlphabetIsTable();
    EncodedGroupsStandard(ALPHABET, b);
  }

  // ---------------------------------------------------------------- decoding any text

  lemma ThreeIs(a: Sextet, b: Sextet, c: Sextet, d: Sextet, p: Byte, q: Byte, r: Byte)
    ensures Three(a, b, c, d) == [p, q, r] <==> Base4(a, b, c, d) == Big3(p, q, r)
    ensures Three(a, b, c, 0)[..2] == [p, q] <==> Base3(a, b, c) / 4 == Big2(p, q)
    ensures Three(a, b, 0, 0)[..1] == [p] <==> Base2(a, b) / 16 == p
  {
    var x, y, z := a * 4 + b / 16, b % 16 * 16 + c / 4, c % 4 * 64 + d;
    ThreeParts(a, b, c, d);
    assert Three(a, b, c, d) == [x, y, z];
    assert Three(a, b, c, 0)[..2] == [x, y];
    assert Three(a, b, 0, 0)[..1] == [x];
    BigIsUnique(x, y, z, p, q, r);
  }

  lemma ThreeParts(a: int, b: int, c: int, d: int)
    requires 0 <= a < 64 && 0 <= b < 64 && 0 <= c < 64 && 0 <= d < 64
    ensures Big3(a * 4 + b / 16, b % 16 * 16 + c / 4, c % 4 * 64 + d) == Base4(a, b, c, d)
    ensures Big2(a * 4 + b / 16, b % 16 * 16 + c / 4) == Base3(a, b, c) / 4
    ensures a * 4 + b / 16 == Base2(a, b) / 16
  {
  }

  lemma BigIsUnique(x: Byte, y: Byte, z: Byte, p: Byte, q: Byte, r: Byte)
    ensures Big3(x, y, z) == Big3(p, q, r) <==> x == p && y == q && z == r
    ensures Big2(x, y) == Big2(p, q) <==> x == p && y == q
  {
  }

  lemma Places(table: string, s: string)
    requires Table(table) && |s| >= 4
    ensures forall i :: 0 <= i < 4 ==> Place(table, s[i]) == if Value(s[i]).Some? then Value(s[i]).value else -1
  {
    PlaceIsValue(table, s[0]);
    PlaceIsValue(table, s[1]);
    PlaceIsValue(table, s[2]);
    PlaceIsValue(table, s[3]);
  }

  /** Padding is no symbol, so the three shapes of a group exclude each other. */
  lemma {:induction false} GroupsAreStandard(table: string, s: string, b: seq<Byte>)
    requires Table(table)
    ensures DecodeGroups(s) == Some(b) <==> StandsFor(table, s, b, false)
    decreases |s|
  {
    if |s| >= 4 {
      Places(table, s);
      if Value(s[0]).Some? && Value(s[1]).Some? {
        if Value(s[2]).None? {
          LastOne(table, s, b);
        } else if Value(s[3]).None? {
          LastTwo(table, s, b);
        } else {
          if |b| >= 3 { GroupsAreStandard(table, s[4..], b[3..]); }
          FullGroup(table, s, b);
        }
      }
    }
  }

  lemma LastOne(table: string, s: string, b: seq<Byte>)
    requires Table(table) && |s| >= 4 && Value(s[0]).Some? && Value(s[1]).Some? && Value(s[2]).None?
    ensures DecodeGroups(s) == Some(b) <==> StandsFor(table, s, b, false)
  {
    DecodeLastOne(s);
    OneOrNot(b, Value(s[0]).value, Value(s[1]).value);
    StandsLastOne(table, s, b);
  }

  lemma DecodeLastOne(s: string)
    requires |s| >= 4 && Value(s[0]).Some? && Value(s[1]).Some? && Value(s[2]).None?
    ensures DecodeGroups(s) ==
      if s[2..] == "==" then Some(Three(Value(s[0]).value, Value(s[1]).value, 0, 0)[..1]) else None
  {
    if s[2..] == "==" { assert s[3] == s[2..][1] == '='; }
  }

  lemma StandsLastOne(table: string, s: string, b: seq<Byte>)
    requires Table(table) && |s| >= 4 && Value(s[0]).Some? && Value(s[1]).Some? && Value(s[2]).None?
    ensures StandsFor(table, s, b, false) <==>
      |b| == 1 && s[2..] == "==" && Base2(Value(s[0]).value, Value(s[1]).value) / 16 == b[0]
  {
    Places(table, s);
  }

  lemma OneOrNot(b: seq<Byte>, x: Sextet, y: Sextet)
    ensures Three(x, y, 0, 0)[..1] == b <==> |b| == 1 && Base2(x, y) / 16 == b[0]
  {
    if |b| == 1 {
      ThreeIs(x, y, 0, 0, b[0], 0, 0);
      assert b == [b[0]];
    }
  }

  lemma LastTwo(table: string, s: string, b: seq<Byte>)
    requires Table(table) && |s| >= 4
    requires Value(s[0]).Some? && Value(s[1]).Some? && Value(s[2]).Some? && Value(s[3]).None?
    ensures DecodeGroups(s) == Some(b) <==> StandsFor(table, s, b, false)
  {
    var x, y, z := Value(s[0]).value, Value(s[1]).value, Value(s[2]).value;
    DecodeLastTwo(s);
    TwoOrNot(b, x, y, z);
    StandsLastTwo(table, s, b);
  }

  lemma DecodeLastTwo(s: string)
    requires |s| >= 4 && Value(s[0]).Some? && Value(s[1]).Some? && Value(s[2]).Some? && Value(s[3]).None?
    ensures DecodeGroups(s) ==
      if s[3..] == "=" then Some(Three(Value(s[0]).value, Value(s[1]).value, Value(s[2]).value, 0)[..2]) else None
  {
  }

  lemma StandsLastTwo(table: string, s: string, b: seq<Byte>)
    requires Table(table) && |s| >= 4
    requires Value(s[0]).Some? && Value(s[1]).Some? && Value(s[2]).Some? && Value(s[3]).None?
    ensures StandsFor(table, s, b, false) <==>
      && |b| == 2 && s[3..] == "="
      && Base3(Value(s[0]).value, Value(s[1]).value, Value(s[2]).value) / 4 == Big2(b[0], b[1])
  {
    Places(table, s);
    assert s[2..] != "==" by { assert s[2..][0] == s[2] != '='; }
  }

  lemma TwoOrNot(b: seq<Byte>, x: Sextet, y: Sextet, z: Sextet)
    ensures Three(x, y, z, 0)[..2] == b <==> |b| == 2 && Base3(x, y, z) / 4 == Big2(b[0], b[1])
  {
    if |b| == 2 {
      ThreeIs(x, y, z, 0, b[0], b[1], 0);
      assert b == [b[0], b[1]];
    }
  }

  lemma FullGroup(table: string, s: string, b: seq<Byte>)
    requires Table(table) && |s| >= 4 && forall i :: 0 <= i < 4 ==> Value(s[i]).Some?
    requires |b| >= 3 ==> (DecodeGroups(s[4..]) == Some(b[3..]) <==> StandsFor(table, s[4..], b[3..], false))
    ensures DecodeGroups(s) == Some(b) <==> StandsFor(table, s, b, false)
  {
    StandsFull(table, s, b);
    if |b| >= 3 {
      ThreeIs(Value(s[0]).value, Value(s[1]).value, Value(s[2]).value, Value(s[3]).value, b[0], b[1], b[2]);
      assert b == [b[0], b[1], b[2]] + b[3..];
    }
  }

  lemma StandsFull(table: string, s: string, b: seq<Byte>)
    requires Table(table) && |s| >= 4 && forall i :: 0 <= i < 4 ==> Value(s[i]).Some?
    ensures StandsFor(table, s, b, false) <==>
      && |b| >= 3
      && Base4(Value(s[0]).value, Value(s[1]).value, Value(s[2]).value, Value(s[3]).value) == Big3(b[0], b[1], b[2])
      && StandsFor(table, s[4..], b[3..], false)
  {
    Places(table, s);
    assert s[2..] != "==" by { assert s[2..][0] == s[2] != '='; }
    assert s[3..] != "=" by { assert s[3..][0] == s[3] != '='; }
  }

  /** A text without its line ends: what is left of two texts is left of their concatenation. */
  lemma {:induction false} DropConcat(a: string, b: string)
    ensures DropLineEnds(a + b) == DropLineEnds(a) + DropLineEnds(b)
  {
    if a == "" {
      assert a + b == b;
    } else {
      assert (a + b)[1..] == a[1..] + b;
      DropConcat(a[1..], b);
    }
  }

  lemma DropOne(c: char)
    ensures DropLineEnds([c]) == if c == '\r' || c == '\n' then "" else [c]
  {
    assert [c][1..] == "";
  }

  /**
   * Whatever its origin, a text decodes to exactly the bytes that it stands for once its line ends are dropped; bits
   * that a padded group leaves over are ignored, and every other text is an error.
   */
  lemma DecodeIsStandard(s: string, b: seq<Byte>)
    ensures Decode(s) == Some(b) <==> StandsFor(ALPHABET, DropLineEnds(s), b, false)
  {
    AlphabetIsTable();
    GroupsAreStandard(ALPHABET, DropLineEnds(s), b);
  }

  lemma EncodeThree(p: Byte, q: Byte, r: Byte, rest: seq<Byte>)
    ensures Encode([p, q, r] + rest) ==
      [Symbol(p / 4), Symbol(p % 4 * 16 + q / 16), Symbol(q % 16 * 4 + r / 64), Symbol(r % 64)] + Encode(rest)
  {
    assert ([p, q, r] + rest)[3..] == rest;
  }

  lemma Foo(rest: seq<Byte>)
    ensures Encode([102, 111, 111] + rest) == "Zm9v" + Encode(rest)
  {
    EncodeThree(102, 111, 111, rest);
  }

  lemma VectorBytes()
    ensures Bytes("f") == [102] && Bytes("fo") == [102, 111] && Bytes("foo") == [102, 111, 111] + []
    ensures Bytes("foob") == [102, 111, 111] + [98] && Bytes("fooba") == [102, 111, 111] + [98, 97]
    ensures Bytes("foobar") == [102, 111, 111] + [98, 97, 114]
  {
  }

  lemma ShortVectors()
    ensures Encode([102]) == "Zg==" && Encode([102, 111]) == "Zm8="
    ensures Encode([98]) == "Yg==" && Encode([98, 97]) == "YmE="
  {
  }

  lemma Bar()
    ensures Encode([98, 97, 114]) == "YmFy"
  {
    EncodeThree(98, 97, 114, []);
    assert [98, 97, 114] + [] == [98, 97, 114];
  }

  /** Section 10 of RFC 4648. */
  lemma Vectors()
    ensures Encode([]) == ""
    ensures Encode(Bytes("f")) == "Zg==" && Encode(Bytes("fo")) == "Zm8=" && Encode(Bytes("foo")) == "Zm9v"
    ensures Encode(Bytes("foob")) == "Zm9v" + "Yg==" && Encode(Bytes("fooba")) == "Zm9v" + "YmE="
    ensures Encode(Bytes("foobar")) == "Zm9v" + "YmFy"
  {
    VectorBytes();
    ShortVectors();
    Bar();
    Foo([]);
    Foo([98]);
    Foo([98, 97]);
    Foo([98, 97, 114]);
  }
}
