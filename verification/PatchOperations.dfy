/**
 * What each operation of a patch does to a document, for pointer strings, in terms of what is read at which location
 * before and after: sections 4.1 to 4.5 of RFC 6902.
 */
module PatchOperations {
  import opened Common
  import opened JsonPointer
  import opened JsonPatch

  // ---------------------------------------------------------------- what a location is

  /** Section 3 of RFC 6901: a tilde is written ~0, a slash ~1, and any other character as itself. */
  lemma EscapeOne(c: char)
    ensures Escape([c]) == if c == '~' then "~0" else if c == '/' then "~1" else [c]
  {
    assert [c][1..] == "";
  }

  lemma {:induction false} EscapeConcat(a: string, b: string)
    ensures Escape(a + b) == Escape(a) + Escape(b)
  {
    if a == "" {
      assert a + b == b;
    } else {
      assert (a + b)[1..] == a[1..] + b;
      EscapeConcat(a[1..], b);
    }
  }

  /** A pointer is the whole document, or a slash and an escaped token before a further pointer; nothing else is one. */
  lemma PointerMeans(s: string, t: string, path: Path)
    ensures Parse(s) == Some([]) <==> s == ""
    ensures Parse(s) == Some([t] + path) <==> s == "/" + Escape(t) + Print(path)
    ensures Parse(Print(path)) == Some(path)
  {
    ParseIsPrint(s, []);
    ParseIsPrint(s, [t] + path);
    PrintStep(t, path);
    ParsePrinted(path);
  }

  lemma OneToken(t: string)
    ensures Parse("/" + Escape(t)) == Some([t])
  {
    PointerMeans("/" + Escape(t), t, []);
    assert [t] + [] == [t];
    assert "/" + Escape(t) + "" == "/" + Escape(t);
  }

  /** Examples of section 5, and the escaped escape of section 4. */
  lemma PointerVectors()
    ensures Parse("/") == Some([""]) && Parse("/a~1b") == Some(["a/b"]) && Parse("/m~0n") == Some(["m~n"])
    ensures Parse("/~01") == Some(["~1"])
  {
    OneToken("");
    OneToken("a/b");
    OneToken("m~n");
    OneToken("~1");
    ThreeEscaped('a', '/', 'b');
    ThreeEscaped('m', '~', 'n');
    EscapeConcat("~", "1");
    EscapeOne('~');
    EscapeOne('1');
    assert "/" + Escape("a/b") == "/a~1b" && "/" + Escape("m~n") == "/m~0n" && "/" + Escape("~" + "1") == "/~01";
  }

  lemma ThreeEscaped(a: char, b: char, c: char)
    ensures Escape([a, b, c]) == Escape([a]) + Escape([b]) + Escape([c])
    ensures forall x :: x in {a, b, c} ==> Escape([x]) == if x == '~' then "~0" else if x == '/' then "~1" else [x]
  {
    EscapeConcat([a, b], [c]);
    EscapeConcat([a], [b]);
    assert [a, b] + [c] == [a, b, c] && [a] + [b] == [a, b];
    EscapeOne(a);
    EscapeOne(b);
    EscapeOne(c);
  }

  ghost predicate IsElement(xs: seq<Json>, t: string) { exists k: nat :: k < |xs| && t == Digits(k) }

  /** Section 4 of RFC 6901: a member by its name, an element by the decimal digits of its index, and nothing else. */
  lemma GetMeans(doc: Json, p: Path, t: string, n: nat)
    ensures Get(doc, []) == Some(doc)
    ensures Get(doc, p).None? ==> Get(doc, p + [t]) == None
    ensures Get(doc, p).Some? ==>
      var c := Get(doc, p).value;
      && (c.Obj? ==> Get(doc, p + [t]) == if t in c.members then Some(c.members[t]) else None)
      && (c.Arr? && t == Digits(n) ==> Get(doc, p + [t]) == if n < |c.items| then Some(c.items[n]) else None)
      && (c.Arr? && Get(doc, p + [t]).Some? ==> IsElement(c.items, t))
      && (!c.Obj? && !c.Arr? ==> Get(doc, p + [t]) == None)
  {
    GetLast(doc, p, t);
    IndexIsDigits(t, n);
    if Index(t).Some? { IndexIsDigits(t, Index(t).value); }
  }

  /** A location that an edit at a path does not concern: apart from it, and in no array whose elements shift. */
  predicate Elsewhere(doc: Json, path: Path, q: Path) {
    && path != [] && Apart(path, q)
    && (Apart(Parent(path), q) || Get(doc, Parent(path)).None? || !Get(doc, Parent(path)).value.Arr?)
  }

  /** An existing container takes a new value at the path, or the path is the whole document. */
  ghost predicate Room(doc: Json, path: Path) {
    path == [] || (Get(doc, Parent(path)).Some? && Takes(Get(doc, Parent(path)).value, Last(path)))
  }

  lemma InsertHasRoom(doc: Json, path: Path, v: Json)
    ensures if Room(doc, path) then Insert(doc, path, v).Ok? else Insert(doc, path, v) == Err(NotFound)
  {
  }

  // ---------------------------------------------------------------- pointers that are none

  /** An operation with a string that is no pointer fails. */
  lemma BadPointers(doc: Json, s: string, f: string, v: Json)
    requires Parse(s).None?
    ensures Run(doc, [Add(s, v)]) == Run(doc, [Remove(s)]) == Run(doc, [Replace(s, v)]) == Err(BadPointer)
    ensures Run(doc, [Move(f, s)]) == Run(doc, [Move(s, f)]) == Err(BadPointer)
    ensures Run(doc, [Copy(f, s)]) == Run(doc, [Copy(s, f)]) == Err(BadPointer)
  {
    RunOne(doc, Add(s, v));
    RunOne(doc, Remove(s));
    RunOne(doc, Replace(s, v));
    RunOne(doc, Move(f, s));
    RunOne(doc, Move(s, f));
    RunOne(doc, Copy(f, s));
    RunOne(doc, Copy(s, f));
  }

  // ---------------------------------------------------------------- add

  /**
   * An add succeeds exactly where there is room or parents can be created. Its value is then read where it landed, and
   * every location elsewhere reads as before.
   */
  lemma AddOperation(doc: Json, s: string, path: Path, v: Json)
    requires Parse(s) == Some(path)
    ensures var r := Run(doc, [Add(s, v)]);
      && (r.Ok? <==> CanAdd(doc, path))
      && (r.Ok? ==> Get(r.doc, Landing(doc, path)) == Some(v))
      && (r.Ok? ==> forall q :: Elsewhere(doc, path, q) ==> Get(r.doc, q) == Get(doc, q))
  {
    RunOne(doc, Add(s, v));
    AddSucceeds(doc, path, v);
    if AddAt(doc, path, v).Ok? {
      AddReadsBack(doc, path, v);
      forall q | Elsewhere(doc, path, q)
        ensures Get(AddAt(doc, path, v).doc, q) == Get(doc, q)
      {
        AddKeepsOthers(doc, path, v, q);
      }
    }
  }

  /** Into an array: the elements from the new one's place on move up by one. */
  lemma AddToArray(doc: Json, s: string, path: Path, v: Json, i: nat, j: nat, r: Path)
    requires Parse(s) == Some(path) && path != [] && Run(doc, [Add(s, v)]).Ok?
    requires Get(doc, Parent(path)).Some? && Get(doc, Parent(path)).value.Arr?
    requires Landing(doc, path) == Parent(path) + [Digits(i)]
    ensures Get(Run(doc, [Add(s, v)]).doc, Parent(path) + ([Digits(j)] + r)) ==
        if j < i then Get(doc, Parent(path) + ([Digits(j)] + r))
        else if j == i then Get(v, r)
        else Get(doc, Parent(path) + ([Digits(j - 1)] + r))
  {
    RunOne(doc, Add(s, v));
    EnsureNothing(doc, path);
    InsertShifts(doc, path, v, i, j, r);
  }

  // ---------------------------------------------------------------- remove

  /**
   * A remove succeeds exactly on an existing location below the root. A removed member is gone, elements behind a
   * removed one move down by one, and every location elsewhere reads as before.
   */
  lemma RemoveOperation(doc: Json, s: string, path: Path)
    requires Parse(s) == Some(path)
    ensures var r := Run(doc, [Remove(s)]);
      && (r.Ok? <==> path != [] && Get(doc, path).Some?)
      && (r.Err? ==> r.fault == if path == [] then NoDocument else NotFound)
      && (r.Ok? && Get(doc, Parent(path)).value.Obj? ==> Get(r.doc, path).None?)
      && (r.Ok? ==> forall q :: Elsewhere(doc, path, q) ==> Get(r.doc, q) == Get(doc, q))
    ensures Run(doc, [Remove(s)]) == RemoveAt(doc, path)
  {
    RunOne(doc, Remove(s));
    RemoveSucceeds(doc, path);
    if path != [] {
      ParentLast(path);
      GetLast(doc, Parent(path), Last(path));
    }
    if RemoveAt(doc, path).Ok? {
      if Get(doc, Parent(path)).value.Obj? { RemovedIsGone(doc, path); }
      forall q | Elsewhere(doc, path, q)
        ensures Get(RemoveAt(doc, path).doc, q) == Get(doc, q)
      {
        OffPathIsUntouched(doc, path, Null, q);
      }
    }
  }

  lemma RemoveFromArray(doc: Json, s: string, path: Path, i: nat, j: nat, r: Path)
    requires Parse(s) == Some(path) && path != [] && Run(doc, [Remove(s)]).Ok?
    requires Get(doc, Parent(path)).Some? && Get(doc, Parent(path)).value.Arr? && Last(path) == Digits(i)
    ensures Get(Run(doc, [Remove(s)]).doc, Parent(path) + ([Digits(j)] + r)) ==
        Get(doc, Parent(path) + ([Digits(if j < i then j else j + 1)] + r))
  {
    RunOne(doc, Remove(s));
    RemoveShifts(doc, path, j, r);
    IndexIsDigits(Last(path), i);
  }

  // ---------------------------------------------------------------- replace

  /** A replace succeeds exactly on an existing location, reads back, and leaves every location apart as it was. */
  lemma ReplaceOperation(doc: Json, s: string, path: Path, v: Json)
    requires Parse(s) == Some(path)
    ensures var r := Run(doc, [Replace(s, v)]);
      && (if Get(doc, path).Some? then r.Ok? else r == Err(NotFound))
      && (r.Ok? ==> Get(r.doc, path) == Some(v) && forall q :: Apart(path, q) ==> Get(r.doc, q) == Get(doc, q))
  {
    RunOne(doc, Replace(s, v));
    if Get(doc, path).Some? {
      GetSetSame(doc, path, v);
      forall q | Apart(path, q)
        ensures Get(SetAt(doc, path, v), q) == Get(doc, q)
      {
        SetApart(doc, path, v, q);
      }
    }
  }

  // ---------------------------------------------------------------- copy

  /**
   * A copy succeeds exactly when its source exists and its target has room. The value of the source is then read at the
   * target, and every location elsewhere, the source included, reads as before.
   */
  lemma CopyOperation(doc: Json, f: string, from: Path, s: string, path: Path)
    requires Parse(f) == Some(from) && Parse(s) == Some(path)
    ensures var r := Run(doc, [Copy(f, s)]);
      && (if Get(doc, from).Some? && Room(doc, path) then r.Ok? else r == Err(NotFound))
      && (r.Ok? ==> Get(r.doc, Landing(doc, path)) == Get(doc, from))
      && (r.Ok? ==> forall q :: Elsewhere(doc, path, q) ==> Get(r.doc, q) == Get(doc, q))
  {
    RunOne(doc, Copy(f, s));
    if Get(doc, from).Some? {
      var v := Get(doc, from).value;
      InsertHasRoom(doc, path, v);
      if Insert(doc, path, v).Ok? {
        InsertReadsBack(doc, path, v);
        forall q | Elsewhere(doc, path, q)
          ensures Get(Insert(doc, path, v).doc, q) == Get(doc, q)
        {
          OffPathIsUntouched(doc, path, v, q);
        }
      }
    }
  }

  /** Into an array, as with an add. */
  lemma CopyToArray(doc: Json, f: string, from: Path, s: string, path: Path, i: nat, j: nat, r: Path)
    requires Parse(f) == Some(from) && Parse(s) == Some(path) && path != [] && Run(doc, [Copy(f, s)]).Ok?
    requires Get(doc, Parent(path)).Some? && Get(doc, Parent(path)).value.Arr?
    requires Landing(doc, path) == Parent(path) + [Digits(i)]
    ensures Get(Run(doc, [Copy(f, s)]).doc, Parent(path) + ([Digits(j)] + r)) ==
        if j < i then Get(doc, Parent(path) + ([Digits(j)] + r))
        else if j == i then Get(doc, from + r)
        else Get(doc, Parent(path) + ([Digits(j - 1)] + r))
  {
    RunOne(doc, Copy(f, s));
    InsertShifts(doc, path, Get(doc, from).value, i, j, r);
    GetBelow(doc, from, r);
  }

  // ---------------------------------------------------------------- move

  /**
   * A move succeeds exactly when its source is an existing location below the root, its target is not below the
   * source, and the target has room once the source is removed. The value is then read at the target. A source that
   * was a member and is not concerned by the insertion is gone, and what neither the removal nor the insertion
   * concerns reads as before.
   */
  lemma MoveOperation(doc: Json, f: string, from: Path, s: string, path: Path)
    requires Parse(f) == Some(from) && Parse(s) == Some(path)
    ensures var r, less := Run(doc, [Move(f, s)]), Run(doc, [Remove(f)]);
      && (r.Ok? <==> less.Ok? && !ProperPrefix(from, path) && Room(less.doc, path))
      && (ProperPrefix(from, path) ==> r == Err(IntoItself))
      && (r.Ok? ==> Get(r.doc, Landing(less.doc, path)) == Get(doc, from))
      && (r.Ok? && Get(doc, Parent(from)).value.Obj? && Elsewhere(less.doc, path, from) ==> Get(r.doc, from).None?)
      && (r.Ok? ==> forall q :: Elsewhere(doc, from, q) && Elsewhere(less.doc, path, q) ==>
            Get(r.doc, q) == Get(doc, q))
  {
    RunOne(doc, Move(f, s));
    RemoveOperation(doc, f, from);
    var less := RemoveAt(doc, from);
    if less.Ok? && !ProperPrefix(from, path) {
      var v := Get(doc, from).value;
      InsertHasRoom(less.doc, path, v);
      if Insert(less.doc, path, v).Ok? {
        InsertReadsBack(less.doc, path, v);
        MoveKeepsOthers(less.doc, path, v);
      }
    }
  }

  lemma MoveKeepsOthers(less: Json, path: Path, v: Json)
    requires Insert(less, path, v).Ok?
    ensures forall q :: Elsewhere(less, path, q) ==> Get(Insert(less, path, v).doc, q) == Get(less, q)
  {
    forall q | Elsewhere(less, path, q)
      ensures Get(Insert(less, path, v).doc, q) == Get(less, q)
    {
      OffPathIsUntouched(less, path, v, q);
    }
  }

  /** A move is the removal of its source followed by an insertion, also where elements shift. */
  lemma MoveToArray(doc: Json, f: string, from: Path, s: string, path: Path, i: nat, j: nat, r: Path)
    requires Parse(f) == Some(from) && Parse(s) == Some(path) && path != [] && Run(doc, [Move(f, s)]).Ok?
    requires Run(doc, [Remove(f)]).Ok?
    requires var less := Run(doc, [Remove(f)]).doc;
      && Get(less, Parent(path)).Some? && Get(less, Parent(path)).value.Arr?
      && Landing(less, path) == Parent(path) + [Digits(i)]
    ensures var less := Run(doc, [Remove(f)]).doc;
      Get(Run(doc, [Move(f, s)]).doc, Parent(path) + ([Digits(j)] + r)) ==
        if j < i then Get(less, Parent(path) + ([Digits(j)] + r))
        else if j == i then Get(doc, from + r)
        else Get(less, Parent(path) + ([Digits(j - 1)] + r))
  {
    RunOne(doc, Move(f, s));
    RunOne(doc, Remove(f));
    InsertShifts(RemoveAt(doc, from).doc, path, Get(doc, from).value, i, j, r);
    GetBelow(doc, from, r);
  }

  /** A member with a copy beside it, and the same member moved there. */
  lemma CopyVector()
    ensures Run(Obj(map["a" := Null]), [Copy("/a", "/b")]) == Ok(Obj(map["a" := Null, "b" := Null]))
    ensures Run(Obj(map["a" := Null]), [Move("/a", "/b")]) == Ok(Obj(map["b" := Null]))
  {
    var doc := Obj(map["a" := Null]);
    OneToken("a");
    OneToken("b");
    EscapeOne('a');
    EscapeOne('b');
    assert "/" + Escape("a") == "/a" && "/" + Escape("b") == "/b";
    RunOne(doc, Copy("/a", "/b"));
    RunOne(doc, Move("/a", "/b"));
    GetOne(doc, "a");
    CopyBeside(doc);
  }

  lemma CopyBeside(doc: Json)
    requires doc == Obj(map["a" := Null]) && Get(doc, ["a"]) == Some(Null)
    ensures CopyTo(doc, ["a"], ["b"]) == Ok(Obj(map["a" := Null, "b" := Null]))
    ensures MoveTo(doc, ["a"], ["b"]) == Ok(Obj(map["b" := Null]))
  {
    assert Parent(["a"]) == [] && Parent(["b"]) == [];
    assert map["a" := Null]["b" := Null] == map["a" := Null, "b" := Null];
    assert map["a" := Null] - {"a"} == map[];
    assert map[]["b" := Null] == map["b" := Null];
  }
}
