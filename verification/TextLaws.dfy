/** Laws of the texts and numbers that the controllers write. */
module TextLaws {
  import opened Common

  /** The %q verb puts a backslash before each quote and each backslash, and quotes around the whole. */
  lemma {:induction false} EscapedConcat(a: string, b: string)
    ensures Escaped(a + b) == Escaped(a) + Escaped(b)
  {
    if a == "" {
      assert a + b == b;
    } else {
      assert (a + b)[1..] == a[1..] + b;
      EscapedConcat(a[1..], b);
    }
  }

  lemma QuotedChar(c: char)
    ensures Quoted([c]) == if c == '"' then "\"\\\"\"" else if c == '\\' then "\"\\\\\"" else ['"', c, '"']
  {
    assert [c][1..] == "";
    assert Escaped([c]) == if c == '"' || c == '\\' then ['\\', c] else [c];
  }

  /** A name without either is quoted as it is. */
  lemma {:induction false} QuotedPlain(s: string)
    requires forall i :: 0 <= i < |s| ==> s[i] != '"' && s[i] != '\\'
    ensures Escaped(s) == s && Quoted(s) == "\"" + s + "\""
  {
    if s != "" {
      QuotedPlain(s[1..]);
      assert s == [s[0]] + s[1..];
    }
  }

  /** A suffix is cut off once; a text without it stays as it is. */
  lemma TrimSuffixIs(s: string, t: string, suffix: string)
    ensures TrimSuffix(t + suffix, suffix) == t
    ensures (forall u :: s != u + suffix) ==> TrimSuffix(s, suffix) == s
  {
    assert (t + suffix)[|t|..] == suffix && (t + suffix)[..|t|] == t;
    if |suffix| <= |s| && s[|s| - |suffix|..] == suffix {
      assert s == s[..|s| - |suffix|] + suffix;
    }
  }

  /** The nearest integer, and the even one of two that are equally near. */
  lemma RoundToEvenIs(x: real, n: int)
    ensures RoundToEven(x) == n <==> -0.5 <= x - n as real <= 0.5 && (x - n as real in {-0.5, 0.5} ==> n % 2 == 0)
  {
    var f := x.Floor;
    assert f as real <= x < f as real + 1.0;
    if n < f {
      assert x - n as real >= 1.0;
    } else if n > f + 1 {
      assert (n as real) >= f as real + 2.0;
    }
  }
}
