/**
 * JSON Patch (sections 4.1 to 4.5 of RFC 6902) with the options the operator fixes: an add creates missing parent
 * objects, a remove needs its target, indices are not negative.
 */
module JsonPatch {
  import opened Common
  import opened JsonPointer

  datatype Json =
    | Null
    | Bool(b: bool)
    | Number(literal: string)
    | Text(text: string)
    | Arr(items: seq<Json>)
    | Obj(members: map<string, Json>)

  /** ArrayParent stands for an add that would have to create or extend an array on its way; see README. */
  datatype Fault = BadPointer | NotFound | IntoItself | NoDocument | ArrayParent

  datatype Patched = Ok(doc: Json) | Err(fault: Fault)
  {
    predicate IsFailure() { Err? }

    function PropagateFailure(): Patched
      requires Err?
    {
      this
    }

    function Extract(): Json
      requires Ok?
    {
      doc
    }
  }

  datatype Op =
    | Add(path: string, value: Json)
    | Remove(path: string)
    | Replace(path: string, value: Json)
    | Move(from: string, path: string)
    | Copy(from: string, path: string)

  // ---------------------------------------------------------------- locations

  function Child(c: Json, t: string): Option<Json> {
    match c
    case Obj(m) => if t in m then Some(m[t]) else None
    case Arr(xs) => var i := Index(t); if i.Some? && i.value < |xs| then Some(xs[i.value]) else None
    case _ => None
  }

  function WithChild(c: Json, t: string, v: Json): Json
    requires Child(c, t).Some?
  {
    match c
    case Obj(m) => Obj(m[t := v])
    case Arr(xs) => Arr(xs[Index(t).value := v])
  }

  /** Section 4 of RFC 6901. */
  function Get(doc: Json, path: Path): Option<Json> {
    if path == [] then Some(doc)
    else
      var c := Child(doc, path[0]);
      if c.Some? then Get(c.value, path[1..]) else None
  }

  function SetAt(doc: Json, path: Path, v: Json): Json
    requires Get(doc, path).Some?
    decreases |path|
  {
    if path == [] then v else WithChild(doc, path[0], SetAt(Child(doc, path[0]).value, path[1..], v))
  }

  function Parent(path: Path): Path
    requires path != []
  {
    path[..|path| - 1]
  }

  function Last(path: Path): string
    requires path != []
  {
    path[|path| - 1]
  }

  // ---------------------------------------------------------------- operations on a container

  /** Where an array takes a new element: at an index up to its length, or behind its end. */
  function Slot(xs: seq<Json>, t: string): (i: Option<nat>)
    ensures i.Some? ==> i.value <= |xs|
  {
    if t == "-" then Some(|xs|)
    else var i := Index(t); if i.Some? && i.value <= |xs| then i else None
  }

  function InsertIn(c: Json, t: string, v: Json): Patched {
    match c
    case Obj(m) => Ok(Obj(m[t := v]))
    case Arr(xs) =>
      var i := Slot(xs, t);
      if i.Some? then Ok(Arr(xs[..i.value] + [v] + xs[i.value..])) else Err(NotFound)
    case _ => Err(NotFound)
  }

  function RemoveIn(c: Json, t: string): Patched {
    if Child(c, t).None? then Err(NotFound)
    else
      match c
      case Obj(m) => Ok(Obj(m - {t}))
      case Arr(xs) => var i := Index(t).value; Ok(Arr(xs[..i] + xs[i + 1..]))
  }

  // ---------------------------------------------------------------- operations on a document

  /** Add without the creation of parents. */
  function Insert(doc: Json, path: Path, v: Json): Patched {
    if path == [] then Ok(v)
    else
      var c := Get(doc, Parent(path));
      if c.None? then Err(NotFound)
      else
        var edited :- InsertIn(c.value, Last(path), v);
        Ok(SetAt(doc, Parent(path), edited))
  }

  function RemoveAt(doc: Json, path: Path): Patched {
    if path == [] then Err(NoDocument)
    else
      var c := Get(doc, Parent(path));
      if c.None? then Err(NotFound)
      else
        var edited :- RemoveIn(c.value, Last(path));
        Ok(SetAt(doc, Parent(path), edited))
  }

  predicate Numeric(t: string) {
    var d := if t != "" && (t[0] == '-' || t[0] == '+') then t[1..] else t;
    d != "" && AllDigits(d)
  }

  predicate ArrayLike(t: string) { t == "-" || Numeric(t) }

  const EMPTY: Json := Obj(map[])

  /** Walks along the path and creates an empty object for every parent that is missing. */
  function EnsureParents(doc: Json, path: Path): Patched
    decreases |path|
  {
    if |path| <= 1 then Ok(doc)
    else
      var c := Child(doc, path[0]);
      if c.Some? then
        var d :- EnsureParents(c.value, path[1..]);
        Ok(WithChild(doc, path[0], d))
      else if doc.Obj? then
        if ArrayLike(path[1]) then Err(ArrayParent)
        else
          var d :- EnsureParents(EMPTY, path[1..]);
          Ok(Obj(doc.members[path[0] := d]))
      else if doc.Arr? && ArrayLike(path[0]) then Err(ArrayParent)
      else Err(NotFound)
  }

  function AddAt(doc: Json, path: Path, v: Json): Patched {
    var d :- EnsureParents(doc, path);
    Insert(d, path, v)
  }

  function ReplaceAt(doc: Json, path: Path, v: Json): Patched {
    if Get(doc, path).None? then Err(NotFound) else Ok(SetAt(doc, path, v))
  }

  predicate ProperPrefix(p: Path, q: Path) { |p| < |q| && p == q[..|p|] }

  function MoveTo(doc: Json, from: Path, path: Path): Patched {
    if ProperPrefix(from, path) then Err(IntoItself)
    else
      var v := Get(doc, from);
      if v.None? then Err(NotFound)
      else
        var d :- RemoveAt(doc, from);
        Insert(d, path, v.value)
  }

  function CopyTo(doc: Json, from: Path, path: Path): Patched {
    var v := Get(doc, from);
    if v.None? then Err(NotFound) else Insert(doc, path, v.value)
  }

  function Step(doc: Json, op: Op): Patched {
    var path := Parse(op.path);
    if path.None? then Err(BadPointer)
    else
      match op
      case Add(_, v) => AddAt(doc, path.value, v)
      case Remove(_) => RemoveAt(doc, path.value)
      case Replace(_, v) => ReplaceAt(doc, path.value, v)
      case Move(f, _) =>
        var from := Parse(f);
        if from.None? then Err(BadPointer) else MoveTo(doc, from.value, path.value)
      case Copy(f, _) =>
        var from := Parse(f);
        if from.None? then Err(BadPointer) else CopyTo(doc, from.value, path.value)
  }

  /** A patch: the operations in order, up to the first that fails. */
  function Run(doc: Json, ops: seq<Op>): Patched
    decreases |ops|
  {
    if ops == [] then Ok(doc)
    else
      var d :- Step(doc, ops[0]);
      Run(d, ops[1..])
  }

  // ---------------------------------------------------------------- laws of locations

  lemma ChildOfWith(c: Json, t: string, v: Json, u: string)
    requires Child(c, t).Some?
    ensures Child(WithChild(c, t, v), u) == if u == t then Some(v) else Child(c, u)
  {
    if c.Arr? && Index(u).Some? {
      IndexIsDigits(t, Index(t).value);
      IndexIsDigits(u, Index(u).value);
    }
  }

  lemma {:induction false} GetBelow(doc: Json, p: Path, q: Path)
    ensures Get(doc, p + q) == if Get(doc, p).Some? then Get(Get(doc, p).value, q) else None
  {
    if p == [] {
      assert p + q == q;
    } else {
      assert (p + q)[1..] == p[1..] + q;
      if Child(doc, p[0]).Some? { GetBelow(Child(doc, p[0]).value, p[1..], q); }
    }
  }

  /** Reading below a location that was set reads from what was put there. */
  lemma {:induction false} GetSet(doc: Json, p: Path, v: Json, q: Path)
    requires Get(doc, p).Some?
    ensures Get(SetAt(doc, p, v), p + q) == Get(v, q)
  {
    if p == [] {
      assert p + q == q;
    } else {
      var c := Child(doc, p[0]).value;
      assert (p + q)[1..] == p[1..] + q;
      GetSet(c, p[1..], v, q);
      ChildOfWith(doc, p[0], SetAt(c, p[1..], v), p[0]);
    }
  }

  lemma GetSetSame(doc: Json, p: Path, v: Json)
    requires Get(doc, p).Some?
    ensures Get(SetAt(doc, p, v), p) == Some(v)
  {
    GetSet(doc, p, v, []);
    assert p + [] == p;
  }

  lemma {:induction false} SetSet(doc: Json, p: Path, v: Json, w: Json)
    requires Get(doc, p).Some? && Get(SetAt(doc, p, v), p).Some?
    ensures SetAt(SetAt(doc, p, v), p, w) == SetAt(doc, p, w)
  {
    if p != [] {
      var c := Child(doc, p[0]).value;
      GetSetSame(c, p[1..], v);
      SetSet(c, p[1..], v, w);
      ChildOfWith(doc, p[0], SetAt(c, p[1..], v), p[0]);
    }
  }

  lemma {:induction false} SetSame(doc: Json, p: Path)
    requires Get(doc, p).Some?
    ensures SetAt(doc, p, Get(doc, p).value) == doc
  {
    if p != [] { SetSame(Child(doc, p[0]).value, p[1..]); }
  }

  /** Neither path leads to the other: they part at some token. */
  predicate Apart(p: Path, q: Path) {
    p != [] && q != [] && (p[0] != q[0] || Apart(p[1..], q[1..]))
  }

  lemma {:induction false} SetApart(doc: Json, p: Path, v: Json, q: Path)
    requires Get(doc, p).Some? && Apart(p, q)
    ensures Get(SetAt(doc, p, v), q) == Get(doc, q)
  {
    var c := Child(doc, p[0]).value;
    ChildOfWith(doc, p[0], SetAt(c, p[1..], v), q[0]);
    if p[0] == q[0] { SetApart(c, p[1..], v, q[1..]); }
  }

  /** A path apart from another one is apart from its parent, or parts from it at its last token. */
  lemma {:induction false} ApartSplit(p: Path, t: string, q: Path)
    requires Apart(p + [t], q)
    ensures Apart(p, q) || (|p| < |q| && q[..|p|] == p && q[|p|] != t)
  {
    if p != [] && p[0] == q[0] {
      assert (p + [t])[1..] == p[1..] + [t];
      ApartSplit(p[1..], t, q[1..]);
      if !Apart(p[1..], q[1..]) {
        assert q[1..][..|p| - 1] == p[1..];
        assert q[..|p|] == [q[0]] + p[1..];
      }
    }
  }

  // ---------------------------------------------------------------- insert, remove, replace

  /** The location an insertion fills: behind the end of an array, "-" means its length. */
  function Landing(doc: Json, path: Path): Path {
    if path == [] then path
    else
      var c := Get(doc, Parent(path));
      if c.Some? && c.value.Arr? && Last(path) == "-" then Parent(path) + [Digits(|c.value.items|)] else path
  }

  lemma ParentLast(path: Path)
    requires path != []
    ensures path == Parent(path) + [Last(path)]
  {
  }

  lemma GetOne(c: Json, t: string)
    ensures Get(c, [t]) == Child(c, t)
  {
  }

  lemma GetLast(doc: Json, p: Path, t: string)
    ensures Get(doc, p + [t]) == if Get(doc, p).Some? then Child(Get(doc, p).value, t) else None
  {
    GetBelow(doc, p, [t]);
    if Get(doc, p).Some? { GetOne(Get(doc, p).value, t); }
  }

  /** The token under which an inserted value is found, and that removing it undoes the insertion. */
  lemma InsertInContainer(c: Json, t: string, v: Json)
    requires InsertIn(c, t, v).Ok?
    ensures var u := if c.Arr? && t == "-" then Digits(|c.items|) else t;
      var d := InsertIn(c, t, v).doc;
      && Child(d, u) == Some(v)
      && (RemoveIn(d, u) == Ok(c) <==> c.Arr? || Child(c, t).None?)
  {
    var u := if c.Arr? && t == "-" then Digits(|c.items|) else t;
    var d := InsertIn(c, t, v).doc;
    match c
    case Arr(xs) =>
      IndexIsDigits(u, |xs|);
      var i := Index(u).value;
      assert d.items == xs[..i] + [v] + xs[i..];
      assert d.items[..i] == xs[..i] && d.items[i + 1..] == xs[i..];
      assert xs[..i] + xs[i..] == xs;
    case Obj(m) =>
      if t in m {
        assert t !in RemoveIn(d, t).doc.members;
      } else {
        assert m[t := v] - {t} == m;
      }
    case _ =>
  }

  /** Removing and then inserting at the same token replaces; with the old value it changes nothing. */
  lemma RemoveInContainer(c: Json, t: string, v: Json)
    requires RemoveIn(c, t).Ok?
    ensures InsertIn(RemoveIn(c, t).doc, t, v) == Ok(WithChild(c, t, v))
    ensures v == Child(c, t).value ==> WithChild(c, t, v) == c
  {
    match c
    case Arr(xs) =>
      var i := Index(t).value;
      var ys := xs[..i] + xs[i + 1..];
      assert t != "-" by { assert !IsDigit("-"[0]); }
      assert ys[..i] == xs[..i] && ys[i..] == xs[i + 1..];
      assert ys[..i] + [v] + ys[i..] == xs[i := v];
    case Obj(m) => assert (m - {t})[t := v] == m[t := v];
    case _ =>
  }

  lemma InsertReadsBack(doc: Json, path: Path, v: Json)
    requires Insert(doc, path, v).Ok?
    ensures Get(Insert(doc, path, v).doc, Landing(doc, path)) == Some(v)
  {
    if path != [] {
      var p, t := Parent(path), Last(path);
      var c := Get(doc, p).value;
      var d := InsertIn(c, t, v).doc;
      var u := if c.Arr? && t == "-" then Digits(|c.items|) else t;
      ParentLast(path);
      InsertInContainer(c, t, v);
      GetSet(doc, p, d, [u]);
      GetOne(d, u);
    }
  }

  /** Remove succeeds exactly on an existing location other than the whole document. */
  lemma RemoveSucceeds(doc: Json, path: Path)
    ensures RemoveAt(doc, path).Ok? <==> path != [] && Get(doc, path).Some?
  {
    if path != [] {
      ParentLast(path);
      GetLast(doc, Parent(path), Last(path));
    }
  }

  /** Removing what was just inserted restores the document exactly when nothing was overwritten. */
  lemma RemoveUndoesInsert(doc: Json, path: Path, v: Json)
    requires path != [] && Insert(doc, path, v).Ok?
    ensures RemoveAt(Insert(doc, path, v).doc, Landing(doc, path)) == Ok(doc)
      <==> Get(doc, Parent(path)).value.Arr? || Get(doc, path).None?
  {
    var p, t := Parent(path), Last(path);
    var c := Get(doc, p).value;
    var d := InsertIn(c, t, v).doc;
    var u := if c.Arr? && t == "-" then Digits(|c.items|) else t;
    var landing := Landing(doc, path);
    ParentLast(path);
    assert landing == p + [u] && Parent(landing) == p && Last(landing) == u;
    InsertInContainer(c, t, v);
    GetLast(doc, p, t);
    GetSetSame(doc, p, d);
    var back := RemoveIn(d, u).doc;
    SetSet(doc, p, d, back);
    GetSetSame(doc, p, back);
    SetSame(doc, p);
  }

  /** Inserting at a location that was just removed is a replacement; with the old value it restores the document. */
  lemma InsertAfterRemove(doc: Json, path: Path, v: Json)
    requires path != [] && Get(doc, path).Some?
    ensures RemoveAt(doc, path).Ok? && Get(RemoveAt(doc, path).doc, Parent(path)).Some?
    ensures Insert(RemoveAt(doc, path).doc, path, v) == ReplaceAt(doc, path, v)
    ensures v == Get(doc, path).value ==> ReplaceAt(doc, path, v) == Ok(doc)
  {
    var p, t := Parent(path), Last(path);
    ParentLast(path);
    GetLast(doc, p, t);
    var c := Get(doc, p).value;
    var less := RemoveIn(c, t).doc;
    RemoveInContainer(c, t, v);
    GetSetSame(doc, p, less);
    SetSet(doc, p, less, WithChild(c, t, v));
    SetBelow(doc, p, t, v);
    SetSame(doc, path);
  }

  /** Replace is remove and then add at the same location, failures included, exactly below the root. */
  lemma ReplaceIsRemoveThenAdd(doc: Json, path: Path, v: Json)
    ensures (ReplaceAt(doc, path, v) == var d :- RemoveAt(doc, path); AddAt(d, path, v)) <==> path != []
    ensures path == [] ==> ReplaceAt(doc, path, v) == Ok(v) && RemoveAt(doc, path) == Err(NoDocument)
  {
    RemoveSucceeds(doc, path);
    if path == [] {
    } else if Get(doc, path).Some? {
      InsertAfterRemove(doc, path, v);
      EnsureNothing(RemoveAt(doc, path).doc, path);
    } else {
      ParentLast(path);
      GetLast(doc, Parent(path), Last(path));
    }
  }

  lemma {:induction false} SetBelow(doc: Json, p: Path, t: string, v: Json)
    requires Get(doc, p).Some? && Child(Get(doc, p).value, t).Some?
    ensures Get(doc, p + [t]).Some?
    ensures SetAt(doc, p + [t], v) == SetAt(doc, p, WithChild(Get(doc, p).value, t, v))
  {
    GetLast(doc, p, t);
    if p != [] {
      assert (p + [t])[1..] == p[1..] + [t];
      SetBelow(Child(doc, p[0]).value, p[1..], t, v);
    }
  }

  /** With its parent present, an add is an insertion. */
  lemma {:induction false} EnsureNothing(doc: Json, path: Path)
    requires path != [] && Get(doc, Parent(path)).Some?
    ensures EnsureParents(doc, path) == Ok(doc)
  {
    if |path| > 1 {
      assert Parent(path)[1..] == Parent(path[1..]);
      EnsureNothing(Child(doc, path[0]).value, path[1..]);
      SetSame(doc, [path[0]]);
      GetOne(doc, path[0]);
    }
  }

  // ---------------------------------------------------------------- add

  /** How many tokens of a path lead to existing locations. */
  function Depth(doc: Json, path: Path): (k: nat)
    ensures k <= |path|
  {
    if path == [] || Child(doc, path[0]).None? then 0 else 1 + Depth(Child(doc, path[0]).value, path[1..])
  }

  lemma {:induction false} DepthReaches(doc: Json, path: Path)
    ensures var k := Depth(doc, path);
      && Get(doc, path[..k]).Some?
      && (k < |path| ==> Child(Get(doc, path[..k]).value, path[k]).None?)
      && (Get(doc, path).Some? <==> k == |path|)
  {
    if path != [] && Child(doc, path[0]).Some? {
      var k := Depth(doc, path);
      assert path[..k][1..] == path[1..][..k - 1];
      DepthReaches(Child(doc, path[0]).value, path[1..]);
    }
  }

  /** A value under a chain of objects with one member each. */
  function Nest(path: Path, v: Json): Json { if path == [] then v else Obj(map[path[0] := Nest(path[1..], v)]) }

  predicate Decimals(s: string) { s != "" && forall i :: 0 <= i < |s| ==> '0' <= s[i] <= '9' }

  /** A token that could stand for an element: "-", or decimal digits that may have a sign. */
  predicate IndexLike(t: string): (r: bool)
    ensures r <==> ArrayLike(t)
  {
    t == "-" || Decimals(t) || (t != "" && (t[0] == '-' || t[0] == '+') && Decimals(t[1..]))
  }

  predicate NoArrays(path: Path) { forall i :: 0 <= i < |path| ==> !IndexLike(path[i]) }

  /** Creating parents in an empty object and inserting makes a chain. */
  lemma {:induction false} AddToEmpty(path: Path, v: Json)
    requires path != []
    ensures AddAt(EMPTY, path, v).Ok? <==> NoArrays(path[1..])
    ensures AddAt(EMPTY, path, v).Ok? ==> AddAt(EMPTY, path, v) == Ok(Nest(path, v))
  {
    if |path| == 1 {
      assert Parent(path) == [] && Nest(path[1..], v) == v;
      assert EMPTY.members[path[0] := v] == map[path[0] := v];
    } else {
      var rest := path[1..];
      if ArrayLike(path[1]) {
        assert rest[0] == path[1];
      } else {
        AddToEmpty(rest, v);
        assert NoArrays(rest) <==> NoArrays(rest[1..]) by {
          assert forall i :: 0 < i < |rest| ==> rest[i] == rest[1..][i - 1];
        }
        AddBelow(EMPTY, path, v);
        assert map[][path[0] := Nest(rest, v)] == map[path[0] := Nest(rest, v)];
      }
    }
  }

  /** An add with more than one token works in the child, or in the object that is created for it. */
  lemma AddBelow(doc: Json, path: Path, v: Json)
    requires |path| > 1
    requires Child(doc, path[0]).Some? || (doc.Obj? && !ArrayLike(path[1]))
    ensures var c := Child(doc, path[0]);
      AddAt(doc, path, v) ==
        var d :- AddAt(if c.Some? then c.value else EMPTY, path[1..], v);
        Ok(if c.Some? then WithChild(doc, path[0], d) else Obj(doc.members[path[0] := d]))
  {
    var t, rest := path[0], path[1..];
    var c := if Child(doc, t).Some? then Child(doc, t).value else EMPTY;
    var ensured := EnsureParents(c, rest);
    if ensured.Ok? {
      var whole := EnsureParents(doc, path).doc;
      assert Child(whole, t) == Some(ensured.doc) by {
        if Child(doc, t).Some? { ChildOfWith(doc, t, ensured.doc, t); }
      }
      InsertBelow(whole, path, v);
      var d := Insert(ensured.doc, rest, v);
      if d.Ok? { WithTwice(doc, t, ensured.doc, d.doc); }
    }
  }

  lemma InsertBelow(doc: Json, path: Path, v: Json)
    requires |path| > 1 && Child(doc, path[0]).Some?
    ensures Insert(doc, path, v) ==
      var d :- Insert(Child(doc, path[0]).value, path[1..], v);
      Ok(WithChild(doc, path[0], d))
  {
    assert Parent(path)[1..] == Parent(path[1..]) && Last(path[1..]) == Last(path);
  }

  lemma WithTwice(doc: Json, t: string, v: Json, w: Json)
    ensures Child(doc, t).Some? ==>
      && Child(WithChild(doc, t, v), t).Some?
      && WithChild(WithChild(doc, t, v), t, w) == WithChild(doc, t, w)
    ensures doc.Obj? ==> WithChild(Obj(doc.members[t := v]), t, w) == Obj(doc.members[t := w])
  {
    if doc.Obj? { assert doc.members[t := v][t := w] == doc.members[t := w]; }
  }

  ghost predicate IndexUpTo(t: string, max: nat) { exists n: nat :: n <= max && t == Digits(n) }

  /** Where an array takes a new element: an index up to its length, or "-". */
  ghost predicate EndOrIndex(xs: seq<Json>, t: string): (r: bool)
    ensures r <==> Slot(xs, t).Some?
  {
    SlotIsIndex(xs, t);
    t == "-" || IndexUpTo(t, |xs|)
  }

  lemma SlotIsIndex(xs: seq<Json>, t: string)
    ensures Slot(xs, t).Some? <==> t == "-" || IndexUpTo(t, |xs|)
  {
    if Index(t).Some? { IndexIsDigits(t, Index(t).value); }
    if IndexUpTo(t, |xs|) {
      var n: nat :| n <= |xs| && t == Digits(n);
      IndexIsDigits(t, n);
    }
  }

  /** Whether a container takes a new element or member at a token. */
  ghost predicate Takes(c: Json, t: string) { c.Obj? || (c.Arr? && EndOrIndex(c.items, t)) }

  /** The deepest existing location above a path. */
  function Spot(doc: Json, path: Path): (p: Path)
    requires path != []
    ensures |p| < |path| && p == path[..|p|] && Get(doc, p).Some?
    ensures Get(doc, Parent(path)).Some? <==> p == Parent(path)
    ensures p != Parent(path) ==> Child(Get(doc, p).value, path[|p|]).None?
  {
    DepthReaches(doc, Parent(path));
    var k := Depth(doc, Parent(path));
    assert Parent(path)[..k] == path[..k];
    path[..k]
  }

  /**
   * When an add succeeds: its parent exists and takes the token, or the deepest existing location above it is an
   * object, and no token below that would make a new parent an array.
   */
  ghost predicate CanAdd(doc: Json, path: Path) {
    path == [] ||
    var p := Spot(doc, path);
    var c := Get(doc, p).value;
    if |p| == |path| - 1 then Takes(c, Last(path)) else c.Obj? && NoArrays(path[|p| + 1..])
  }

  /** The new contents of that location: the value in its place, or a chain of new objects that ends in it. */
  ghost function Grown(c: Json, below: Path, v: Json): Json
    requires below != [] && if |below| == 1 then Takes(c, below[0]) else c.Obj?
  {
    if |below| == 1 then InsertIn(c, below[0], v).doc else Obj(c.members[below[0] := Nest(below[1..], v)])
  }

  ghost function Added(doc: Json, path: Path, v: Json): Json
    requires CanAdd(doc, path)
  {
    if path == [] then v
    else
      var p := Spot(doc, path);
      SetAt(doc, p, Grown(Get(doc, p).value, path[|p|..], v))
  }

  lemma SpotBelow(doc: Json, path: Path)
    requires |path| > 1 && Child(doc, path[0]).Some?
    ensures Spot(doc, path) == [path[0]] + Spot(Child(doc, path[0]).value, path[1..])
  {
    assert Parent(path)[1..] == Parent(path[1..]);
  }

  lemma AddedBelow(doc: Json, path: Path, v: Json)
    requires |path| > 1 && Child(doc, path[0]).Some?
    ensures var c := Child(doc, path[0]).value;
      && (CanAdd(doc, path) <==> CanAdd(c, path[1..]))
      && (CanAdd(doc, path) ==> Added(doc, path, v) == WithChild(doc, path[0], Added(c, path[1..], v)))
  {
    var c, rest := Child(doc, path[0]).value, path[1..];
    var p, q := Spot(doc, path), Spot(c, rest);
    SpotBelow(doc, path);
    assert p[1..] == q && Get(doc, p) == Get(c, q);
    assert path[|p| + 1..] == rest[|q| + 1..] && path[|p|..] == rest[|q|..];
    if CanAdd(doc, path) {
      var w := Grown(Get(c, q).value, rest[|q|..], v);
      assert SetAt(doc, p, w) == WithChild(doc, path[0], SetAt(c, q, w));
    }
  }

  /** Exactly when an add succeeds, and what it makes of the document. */
  lemma {:induction false} AddSucceeds(doc: Json, path: Path, v: Json)
    ensures AddAt(doc, path, v).Ok? <==> CanAdd(doc, path)
    ensures CanAdd(doc, path) ==> AddAt(doc, path, v) == Ok(Added(doc, path, v))
    decreases |path|
  {
    if |path| == 1 {
      assert path[0..] == path && Parent(path) == [];
    } else if |path| > 1 {
      var c := Child(doc, path[0]);
      if c.Some? {
        AddSucceeds(c.value, path[1..], v);
        AddBelow(doc, path, v);
        AddedBelow(doc, path, v);
      } else {
        AddToObject(doc, path, v);
      }
    }
  }

  lemma AddToObject(doc: Json, path: Path, v: Json)
    requires |path| > 1 && Child(doc, path[0]).None?
    ensures AddAt(doc, path, v).Ok? <==> CanAdd(doc, path)
    ensures CanAdd(doc, path) ==> AddAt(doc, path, v) == Ok(Added(doc, path, v))
  {
    var rest := path[1..];
    assert Spot(doc, path) == [] && path[0..] == path;
    assert NoArrays(rest) <==> !ArrayLike(path[1]) && NoArrays(rest[1..]) by {
      assert forall i :: 0 < i < |rest| ==> rest[i] == rest[1..][i - 1];
      assert rest[0] == path[1];
    }
    if doc.Obj? && !ArrayLike(path[1]) {
      AddToEmpty(rest, v);
      AddBelow(doc, path, v);
    }
  }

  lemma GrownReadsBack(c: Json, below: Path, v: Json)
    requires |below| > 1 && c.Obj?
    ensures Get(Grown(c, below, v), below) == Some(v)
  {
    GetNest(below[1..], v);
  }

  lemma ChainReadsBack(doc: Json, path: Path, v: Json)
    requires path != [] && CanAdd(doc, path) && Spot(doc, path) != Parent(path)
    ensures Get(Added(doc, path, v), path) == Some(v)
  {
    var p := Spot(doc, path);
    var below := path[|p|..];
    assert path == p + below;
    GetSet(doc, p, Grown(Get(doc, p).value, below, v), below);
    GrownReadsBack(Get(doc, p).value, below, v);
  }

  /** A successful add reads back its value. */
  lemma AddReadsBack(doc: Json, path: Path, v: Json)
    requires AddAt(doc, path, v).Ok?
    ensures Get(AddAt(doc, path, v).doc, Landing(doc, path)) == Some(v)
  {
    if path != [] {
      if Spot(doc, path) == Parent(path) {
        EnsureNothing(doc, path);
        InsertReadsBack(doc, path, v);
      } else {
        AddSucceeds(doc, path, v);
        ChainReadsBack(doc, path, v);
      }
    }
  }

  lemma {:induction false} GetNest(path: Path, v: Json)
    ensures Get(Nest(path, v), path) == Some(v)
  {
    if path != [] { GetNest(path[1..], v); }
  }

  /** Removing what was just added restores the document exactly when the parent existed and nothing was overwritten. */
  lemma RemoveUndoesAdd(doc: Json, path: Path, v: Json)
    requires AddAt(doc, path, v).Ok?
    ensures RemoveAt(AddAt(doc, path, v).doc, Landing(doc, path)) == Ok(doc)
      <==> path != [] && Get(doc, Parent(path)).Some? && (Get(doc, Parent(path)).value.Arr? || Get(doc, path).None?)
  {
    if path != [] {
      var p := Parent(path);
      if Get(doc, p).Some? {
        EnsureNothing(doc, path);
        RemoveUndoesInsert(doc, path, v);
      } else {
        var back := RemoveAt(AddAt(doc, path, v).doc, path);
        if back.Ok? {
          var d := AddAt(doc, path, v).doc;
          GetSetSame(d, p, RemoveIn(Get(d, p).value, Last(path)).doc);
        }
      }
    }
  }

  /** An add that overwrites a member, and one that creates a parent: removing does not restore either document. */
  lemma RemoveDoesNotRestore()
    ensures var doc := Obj(map["a" := Null]);
      AddAt(doc, ["a"], Bool(true)).Ok? && RemoveAt(AddAt(doc, ["a"], Bool(true)).doc, ["a"]) == Ok(EMPTY) != Ok(doc)
    ensures AddAt(EMPTY, ["b", "c"], Null).Ok? && RemoveAt(AddAt(EMPTY, ["b", "c"], Null).doc, ["b", "c"]) != Ok(EMPTY)
  {
    var doc := Obj(map["a" := Null]);
    assert Parent(["a"]) == [];
    assert map["a" := Null]["a" := Bool(true)] - {"a"} == map[];
    assert "a" in doc.members && "a" !in EMPTY.members;
    var path := ["b", "c"];
    assert Parent(path) == ["b"] && path[1..] == ["c"] && path[1..][1..] == [];
    assert !Numeric("c") by { assert !IsDigit("c"[0]); }
    AddToEmpty(path, Null);
    GetOne(EMPTY, "b");
    RemoveUndoesAdd(EMPTY, path, Null);
    assert Landing(EMPTY, path) == path;
  }

  // ---------------------------------------------------------------- move and copy

  /** Removing a location and then adding what was there somewhere else. */
  function RemoveThenAdd(doc: Json, from: Path, path: Path): Patched {
    var v := Get(doc, from);
    if v.None? then Err(NotFound)
    else
      var d :- RemoveAt(doc, from);
      AddAt(d, path, v.value)
  }

  /** The same document, or a failure both times. */
  predicate Agree(a: Patched, b: Patched) { if a.Ok? then a == b else b.Err? }

  /**
   * Move is remove and then add of the removed value exactly when the removal fails, or the add then fails as well, or
   * the target is not below the source and its parent is there after the removal: a move neither creates parents nor
   * goes into its own child.
   */
  lemma MoveIsRemoveThenAdd(doc: Json, from: Path, path: Path)
    ensures Agree(MoveTo(doc, from, path), RemoveThenAdd(doc, from, path)) <==>
      || RemoveAt(doc, from).Err?
      || var less := RemoveAt(doc, from).doc;
         || !CanAdd(less, path)
         || (!ProperPrefix(from, path) && (path == [] || Get(less, Parent(path)).Some?))
    ensures ProperPrefix(from, path) ==> MoveTo(doc, from, path) == Err(IntoItself)
  {
    RemoveSucceeds(doc, from);
    if RemoveAt(doc, from).Ok? {
      var less, v := RemoveAt(doc, from).doc, Get(doc, from).value;
      AddSucceeds(less, path, v);
      if path != [] && Get(less, Parent(path)).Some? { EnsureNothing(less, path); }
    }
  }

  /** A move whose target lacks a parent fails where remove and then add succeeds. */
  lemma MoveCreatesNoParent()
    ensures var doc := Obj(map["a" := Null]);
      && MoveTo(doc, ["a"], ["b", "c"]).Err?
      && RemoveThenAdd(doc, ["a"], ["b", "c"]) == Ok(Obj(map["b" := Obj(map["c" := Null])]))
  {
    var doc, path := Obj(map["a" := Null]), ["b", "c"];
    assert Parent(["a"]) == [] && Parent(path) == ["b"];
    assert map["a" := Null] - {"a"} == map[];
    assert RemoveAt(doc, ["a"]) == Ok(EMPTY);
    GetOne(EMPTY, "b");
    assert path[1..] == ["c"] && path[1..][1..] == [];
    assert !Numeric("c") by { assert !IsDigit("c"[0]); }
    AddToEmpty(path, Null);
    assert Nest(path, Null) == Obj(map["b" := Nest(["c"], Null)]);
    assert ["c"][1..] == [];
    assert Nest(["c"], Null) == Obj(map["c" := Nest([], Null)]);
  }

  /** What was moved or copied is found where it was put. */
  lemma MovedReadsBack(doc: Json, from: Path, path: Path)
    ensures MoveTo(doc, from, path).Ok? ==>
      Get(MoveTo(doc, from, path).doc, Landing(RemoveAt(doc, from).doc, path)) == Get(doc, from)
    ensures CopyTo(doc, from, path).Ok? ==> Get(CopyTo(doc, from, path).doc, Landing(doc, path)) == Get(doc, from)
  {
    if MoveTo(doc, from, path).Ok? { InsertReadsBack(RemoveAt(doc, from).doc, path, Get(doc, from).value); }
    if CopyTo(doc, from, path).Ok? { InsertReadsBack(doc, path, Get(doc, from).value); }
  }

  // ---------------------------------------------------------------- what stays as it was

  lemma SetKeepsOthers(doc: Json, p: Path, t: string, c: Json, q: Path)
    requires Get(doc, p).Some? && Apart(p + [t], q)
    requires Apart(p, q) || forall u :: u != t ==> Child(c, u) == Child(Get(doc, p).value, u)
    ensures Get(SetAt(doc, p, c), q) == Get(doc, q)
  {
    if Apart(p, q) {
      SetApart(doc, p, c, q);
    } else {
      ApartSplit(p, t, q);
      var r := q[|p|..];
      assert q == p + r;
      GetSet(doc, p, c, r);
      GetBelow(doc, p, r);
    }
  }

  /** Locations off the target path are untouched, unless they stand in the array whose elements shift. */
  lemma OffPathIsUntouched(doc: Json, path: Path, v: Json, q: Path)
    requires path != [] && Apart(path, q)
    requires Apart(Parent(path), q) || (Get(doc, Parent(path)).Some? ==> !Get(doc, Parent(path)).value.Arr?)
    ensures Insert(doc, path, v).Ok? ==> Get(Insert(doc, path, v).doc, q) == Get(doc, q)
    ensures RemoveAt(doc, path).Ok? ==> Get(RemoveAt(doc, path).doc, q) == Get(doc, q)
  {
    ParentLast(path);
    var p, t := Parent(path), Last(path);
    if Get(doc, p).Some? {
      var c := Get(doc, p).value;
      if InsertIn(c, t, v).Ok? { SetKeepsOthers(doc, p, t, InsertIn(c, t, v).doc, q); }
      if RemoveIn(c, t).Ok? { SetKeepsOthers(doc, p, t, RemoveIn(c, t).doc, q); }
    }
  }

  /** A replacement leaves every location off its path as it was. */
  lemma ReplaceKeepsOthers(doc: Json, path: Path, v: Json, q: Path)
    requires Apart(path, q) && ReplaceAt(doc, path, v).Ok?
    ensures Get(ReplaceAt(doc, path, v).doc, q) == Get(doc, q)
  {
    SetApart(doc, path, v, q);
  }

  lemma {:induction false} NestIsThin(path: Path, v: Json, q: Path)
    requires Apart(path, q)
    ensures Get(Nest(path, v), q) == None
  {
    if path[0] == q[0] { NestIsThin(path[1..], v, q[1..]); }
  }

  /** So does an add, parents that it creates included. */
  lemma AddKeepsOthers(doc: Json, path: Path, v: Json, q: Path)
    requires path != [] && Apart(path, q) && AddAt(doc, path, v).Ok?
    requires Apart(Parent(path), q) || (Get(doc, Parent(path)).Some? ==> !Get(doc, Parent(path)).value.Arr?)
    ensures Get(AddAt(doc, path, v).doc, q) == Get(doc, q)
  {
    if Get(doc, Parent(path)).Some? {
      EnsureNothing(doc, path);
      OffPathIsUntouched(doc, path, v, q);
    } else {
      AddSucceeds(doc, path, v);
      ChainKeepsOthers(doc, path, v, q);
    }
  }

  lemma ChainKeepsOthers(doc: Json, path: Path, v: Json, q: Path)
    requires path != [] && Apart(path, q) && CanAdd(doc, path) && Spot(doc, path) != Parent(path)
    ensures Get(Added(doc, path, v), q) == Get(doc, q)
  {
    var p := Spot(doc, path);
    var k := |p|;
    var below := path[k..];
    var c := Get(doc, p).value;
    var d := Grown(c, below, v);
    assert path == p + below;
    if Apart(p, q) {
      SetApart(doc, p, d, q);
    } else {
      ApartBelow(p, below, q);
      var r := q[k..];
      assert q == p + r;
      GetSet(doc, p, d, r);
      GetBelow(doc, p, r);
      if below[0] == r[0] { NestIsThin(below[1..], v, r[1..]); }
    }
  }

  lemma {:induction false} ApartBelow(p: Path, below: Path, q: Path)
    requires Apart(p + below, q) && !Apart(p, q)
    ensures |p| < |q| && q[..|p|] == p && Apart(below, q[|p|..])
  {
    if p == [] {
      assert p + below == below;
    } else {
      assert (p + below)[1..] == p[1..] + below;
      ApartBelow(p[1..], below, q[1..]);
      assert q[..|p|] == [q[0]] + q[1..][..|p| - 1];
      assert q[|p|..] == q[1..][|p| - 1..];
    }
  }

  /** Inside that array the elements before the new one keep their indices, and the others move by one. */
  lemma InsertShifts(doc: Json, path: Path, v: Json, i: nat, j: nat, r: Path)
    requires path != [] && Insert(doc, path, v).Ok? && Get(doc, Parent(path)).value.Arr?
    requires Landing(doc, path) == Parent(path) + [Digits(i)]
    ensures Get(Insert(doc, path, v).doc, Parent(path) + ([Digits(j)] + r)) ==
        if j < i then Get(doc, Parent(path) + ([Digits(j)] + r))
        else if j == i then Get(v, r)
        else Get(doc, Parent(path) + ([Digits(j - 1)] + r))
  {
    var p := Parent(path);
    var c := Get(doc, p).value;
    LandingSlot(doc, path, i);
    GetSet(doc, p, InsertIn(c, Last(path), v).doc, [Digits(j)] + r);
    IndexIsDigits(Digits(j), j);
    GetBelow(doc, p, [Digits(j)] + r);
    if j > i {
      IndexIsDigits(Digits(j - 1), j - 1);
      GetBelow(doc, p, [Digits(j - 1)] + r);
    }
  }

  lemma LandingSlot(doc: Json, path: Path, i: nat)
    requires path != [] && Get(doc, Parent(path)).Some? && Get(doc, Parent(path)).value.Arr?
    requires Slot(Get(doc, Parent(path)).value.items, Last(path)).Some?
    requires Landing(doc, path) == Parent(path) + [Digits(i)]
    ensures Slot(Get(doc, Parent(path)).value.items, Last(path)) == Some(i)
  {
    var n := |Get(doc, Parent(path)).value.items|;
    ParentLast(path);
    assert Last(Landing(doc, path)) == Digits(i);
    IndexIsDigits(Digits(i), i);
    IndexIsDigits(Digits(i), n);
  }

  lemma RemoveShifts(doc: Json, path: Path, j: nat, r: Path)
    requires path != [] && RemoveAt(doc, path).Ok? && Get(doc, Parent(path)).value.Arr?
    ensures Index(Last(path)).Some?
    ensures Get(RemoveAt(doc, path).doc, Parent(path) + ([Digits(j)] + r)) ==
        Get(doc, Parent(path) + ([Digits(if j < Index(Last(path)).value then j else j + 1)] + r))
  {
    var p := Parent(path);
    var c := Get(doc, p).value;
    var k := if j < Index(Last(path)).value then j else j + 1;
    GetSet(doc, p, RemoveIn(c, Last(path)).doc, [Digits(j)] + r);
    IndexIsDigits(Digits(j), j);
    IndexIsDigits(Digits(k), k);
    GetBelow(doc, p, [Digits(k)] + r);
  }

  // ---------------------------------------------------------------- moving back

  /** Nothing is overwritten: the value goes into an array, or becomes a member that was not there. */
  predicate IsNew(doc: Json, path: Path)
    requires path != [] && Get(doc, Parent(path)).Some?
  {
    Get(doc, Parent(path)).value.Arr? || Get(doc, path).None?
  }

  lemma {:induction false} PrefixOrApart(p: Path, q: Path)
    ensures Apart(p, q) || p <= q || q <= p
  {
    if p != [] && q != [] && p[0] == q[0] {
      PrefixOrApart(p[1..], q[1..]);
      assert p == [p[0]] + p[1..] && q == [q[0]] + q[1..];
    }
  }

  /** Removing a member of an object creates no location. */
  lemma RemovalCreatesNothing(doc: Json, path: Path, q: Path)
    requires path != [] && RemoveAt(doc, path).Ok? && Get(doc, Parent(path)).value.Obj?
    requires Get(RemoveAt(doc, path).doc, q).Some?
    ensures Get(doc, q).Some?
  {
    var less, p, t := RemoveAt(doc, path).doc, Parent(path), Last(path);
    PrefixOrApart(path, q);
    if Apart(path, q) {
      OffPathIsUntouched(doc, path, Null, q);
    } else if path <= q {
      RemovedIsGone(doc, path);
      GetBelow(less, path, q[|path|..]);
      assert q == path + q[|path|..];
    } else {
      RemoveSucceeds(doc, path);
      GetBelow(doc, q, path[|q|..]);
      assert path == q + path[|q|..];
    }
  }

  lemma RemovedIsGone(doc: Json, path: Path)
    requires path != [] && RemoveAt(doc, path).Ok? && Get(doc, Parent(path)).value.Obj?
    ensures Get(RemoveAt(doc, path).doc, path).None?
  {
    var p, t := Parent(path), Last(path);
    ParentLast(path);
    var c := RemoveIn(Get(doc, p).value, t).doc;
    GetSetSame(doc, p, c);
    GetLast(RemoveAt(doc, path).doc, p, t);
  }

  /** Removing what overwrote a member leaves what removing the member would have left. */
  lemma RemoveOverwritten(doc: Json, path: Path, v: Json)
    requires path != [] && Insert(doc, path, v).Ok? && !IsNew(doc, path)
    ensures RemoveAt(Insert(doc, path, v).doc, path) == RemoveAt(doc, path) && RemoveAt(doc, path).Ok?
    ensures Landing(doc, path) == path
  {
    var p, t := Parent(path), Last(path);
    ParentLast(path);
    var c := Get(doc, p).value;
    var d := InsertIn(c, t, v).doc;
    GetLast(doc, p, t);
    if c.Obj? { assert c.members[t := v] - {t} == c.members - {t}; }
    GetSetSame(doc, p, d);
    SetSet(doc, p, d, RemoveIn(d, t).doc);
  }

  /**
   * A document comes from at most one other by insertion at a location that can be removed from it, unless it
   * overwrote.
   */
  lemma InsertedFrom(before: Json, doc: Json, from: Path, v: Json)
    requires from != [] && Insert(before, from, v) == Ok(doc) && RemoveAt(doc, from).Ok? && IsNew(before, from)
    ensures RemoveAt(doc, from) == Ok(before)
  {
    LandsThere(before, doc, from, v);
    RemoveUndoesInsert(before, from, v);
  }

  lemma LandsThere(before: Json, doc: Json, from: Path, v: Json)
    requires from != [] && Insert(before, from, v) == Ok(doc) && RemoveAt(doc, from).Ok?
    ensures Landing(before, from) == from
  {
    var p, t := Parent(from), Last(from);
    GetSetSame(before, p, InsertIn(Get(before, p).value, t, v).doc);
    assert Index("-").None? by { assert !IsDigit("-"[0]); }
  }

  /** Had it overwritten, the member would be there before and after the removal of another one. */
  lemma OverwritesNothing(doc: Json, from: Path, path: Path, v: Json)
    requires path != [] && RemoveAt(doc, from).Ok?
    requires var less := RemoveAt(doc, from).doc;
      && RemoveAt(less, path).Ok? && Get(less, Parent(path)).value.Obj?
      && Insert(RemoveAt(less, path).doc, from, v) == Ok(doc)
    ensures IsNew(RemoveAt(RemoveAt(doc, from).doc, path).doc, from)
  {
    var less := RemoveAt(doc, from).doc;
    var before := RemoveAt(less, path).doc;
    var p, t := Parent(from), Last(from);
    var c := Get(before, p).value;
    GetSetSame(before, p, InsertIn(c, t, v).doc);
    if c.Obj? && Get(before, from).Some? {
      RemovedIsGone(doc, from);
      RemovalCreatesNothing(less, path, from);
    }
  }

  /**
   * Moving back undoes a move exactly when the move overwrote nothing and did not land on a location above its source:
   * moving from there back would be a move into its own child.
   */
  lemma MoveBack(doc: Json, from: Path, path: Path)
    requires MoveTo(doc, from, path).Ok?
    ensures RemoveAt(doc, from).Ok? && (path != [] ==> Get(RemoveAt(doc, from).doc, Parent(path)).Some?)
    ensures var less := RemoveAt(doc, from).doc;
      MoveTo(MoveTo(doc, from, path).doc, Landing(less, path), from) == Ok(doc)
      <==> path != [] && IsNew(less, path) && !ProperPrefix(Landing(less, path), from)
  {
    var less, v := RemoveAt(doc, from).doc, Get(doc, from).value;
    RemoveSucceeds(doc, from);
    if path != [] {
      InsertReadsBack(less, path, v);
      InsertAfterRemove(doc, from, v);
      if IsNew(less, path) {
        RemoveUndoesInsert(less, path, v);
      } else {
        RemoveOverwritten(less, path, v);
        var before := RemoveAt(less, path).doc;
        if Insert(before, from, v) == Ok(doc) {
          OverwritesNothing(doc, from, path, v);
          InsertedFrom(before, doc, from, v);
          RemovedIsGone(less, path);
          RemoveSucceeds(less, path);
        }
      }
    }
  }

  /** A move that overwrites nothing and cannot be moved back. */
  lemma MoveAboveItself()
    ensures var doc := Arr([Null, Obj(map["a" := Bool(true)])]);
      && MoveTo(doc, ["1", "a"], ["1"]) == Ok(Arr([Null, Bool(true), EMPTY]))
      && MoveTo(Arr([Null, Bool(true), EMPTY]), ["1"], ["1", "a"]) == Err(IntoItself)
  {
    var doc := Arr([Null, Obj(map["a" := Bool(true)])]);
    assert Digits(1) == "1";
    IndexIsDigits("1", 1);
    GetOne(doc, "1");
    var from := ["1", "a"];
    assert from == ["1"] + ["a"] && Parent(from) == ["1"] && Parent(["1"]) == [];
    GetLast(doc, ["1"], "a");
    assert map["a" := Bool(true)] - {"a"} == map[];
    var less := Arr([Null, EMPTY]);
    assert from[1..] == ["a"] && ["1"][1..] == [];
    assert SetAt(doc, ["1"], EMPTY) == less;
    assert RemoveAt(doc, from) == Ok(less);
    assert less.items[..1] + [Bool(true)] + less.items[1..] == [Null, Bool(true), EMPTY];
    assert from[..1] == ["1"];
  }

  // ---------------------------------------------------------------- whole patches

  /** The empty patch changes nothing, and one patch after the other is their concatenation. */
  lemma {:induction false} RunConcat(doc: Json, a: seq<Op>, b: seq<Op>)
    ensures Run(doc, []) == Ok(doc)
    ensures Run(doc, a + b) == var d :- Run(doc, a); Run(d, b)
    decreases |a|
  {
    if a == [] {
      assert a + b == b;
    } else {
      assert (a + b)[1..] == a[1..] + b;
      if Step(doc, a[0]).Ok? { RunConcat(Step(doc, a[0]).doc, a[1..], b); }
    }
  }

  ghost predicate FailsAt(doc: Json, ops: seq<Op>, k: nat, fault: Fault)
    requires k < |ops|
  {
    Run(doc, ops[..k]).Ok? && Run(Run(doc, ops[..k]).doc, [ops[k]]) == Err(fault)
  }

  lemma RunOne(doc: Json, op: Op)
    ensures Run(doc, [op]) == Step(doc, op)
  {
    assert [op][1..] == [];
    if Step(doc, op).Ok? { assert Run(Step(doc, op).doc, []) == Step(doc, op); }
  }

  lemma {:induction false} FailureHasPlace(doc: Json, ops: seq<Op>, fault: Fault) returns (k: nat)
    requires Run(doc, ops) == Err(fault)
    ensures k < |ops| && FailsAt(doc, ops, k, fault)
    decreases |ops|
  {
    if Step(doc, ops[0]).Err? {
      k := 0;
      RunOne(doc, ops[0]);
      assert ops[..0] == [];
    } else {
      var d := Step(doc, ops[0]).doc;
      var j := FailureHasPlace(d, ops[1..], fault);
      k := j + 1;
      assert ops[..k][1..] == ops[1..][..j];
    }
  }

  lemma PlaceMeansFailure(doc: Json, ops: seq<Op>, k: nat, fault: Fault)
    requires k < |ops| && FailsAt(doc, ops, k, fault)
    ensures Run(doc, ops) == Err(fault)
  {
    RunConcat(doc, ops[..k], ops[k..]);
    RunOne(Run(doc, ops[..k]).doc, ops[k]);
    assert ops == ops[..k] + ops[k..];
  }

  /** A patch fails exactly with the fault of its first operation that fails on what the ones before made. */
  lemma RunFails(doc: Json, ops: seq<Op>, fault: Fault)
    ensures Run(doc, ops) == Err(fault) <==> exists k :: 0 <= k < |ops| && FailsAt(doc, ops, k, fault)
  {
    if Run(doc, ops) == Err(fault) { var k := FailureHasPlace(doc, ops, fault); }
    if k :| 0 <= k < |ops| && FailsAt(doc, ops, k, fault) { PlaceMeansFailure(doc, ops, k, fault); }
  }
}
