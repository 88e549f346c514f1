/** Status conditions and ConditionedStatus: a list used as a map keyed by condition type. */
module Conditions {

  const TYPE_READY: string := "Ready"
  const TYPE_SYNCED: string := "Synced"

  const REASON_AVAILABLE: string := "Available"
  const REASON_UNAVAILABLE: string := "Unavailable"
  const REASON_CREATING: string := "Creating"
  const REASON_RECONCILE_SUCCESS: string := "ReconcileSuccess"
  const REASON_RECONCILE_ERROR: string := "ReconcileError"

  datatype ConditionStatus = True | False | Unknown

  datatype Condition = Condition(
    ctype: string,
    status: ConditionStatus,
    reason: string,
    message: string,
    observedGeneration: int,
    lastTransitionTime: int)
  {
    function WithMessage(m: string): Condition { this.(message := m) }

    function WithObservedGeneration(g: int): Condition { this.(observedGeneration := g) }

    /** Everything that the library's Condition.Equal compares besides the type. */
    function Content(): Content { Payload(status, reason, message) }
  }

  datatype Content = Payload(status: ConditionStatus, reason: string, message: string)

  /** The library's Condition.Equal: observed generation and transition time are ignored. */
  predicate Same(a: Condition, b: Condition) {
    a.ctype == b.ctype && a.Content() == b.Content()
  }

  // The library's condition constructors; each reads the clock for its transition time.
  function Available(now: int): Condition { Condition(TYPE_READY, True, REASON_AVAILABLE, "", 0, now) }

  function Unavailable(now: int): Condition { Condition(TYPE_READY, False, REASON_UNAVAILABLE, "", 0, now) }

  function Creating(now: int): Condition { Condition(TYPE_READY, False, REASON_CREATING, "", 0, now) }

  function ReconcileSuccess(now: int): Condition { Condition(TYPE_SYNCED, True, REASON_RECONCILE_SUCCESS, "", 0, now) }

  function ReconcileError(message: string, now: int): Condition {
    Condition(TYPE_SYNCED, False, REASON_RECONCILE_ERROR, message, 0, now)
  }

  // ---------------------------------------------------------------- the list as a map

  predicate HasType(cs: seq<Condition>, t: string) {
    exists i :: 0 <= i < |cs| && cs[i].ctype == t
  }

  predicate DistinctTypes(cs: seq<Condition>) {
    forall i, j :: 0 <= i < j < |cs| ==> cs[i].ctype != cs[j].ctype
  }

  /** What GetCondition finds: the first condition of a type, or an Unknown one. */
  function Lookup(cs: seq<Condition>, t: string): (r: Condition)
    ensures r.ctype == t
    ensures r in cs || (!HasType(cs, t) && r == Condition(t, Unknown, "", "", 0, 0))
  {
    if cs == [] then Condition(t, Unknown, "", "", 0, 0)
    else if cs[0].ctype == t then cs[0]
    else
      var r := Lookup(cs[1..], t);
      assert r !in cs[1..] ==> forall i :: 0 < i < |cs| ==> cs[i] == cs[1..][i - 1];
      r
  }

  /** The abstract map: types to contents, the first condition of a type winning. */
  function AsMap(cs: seq<Condition>): map<string, Content> {
    if cs == [] then map[] else AsMap(cs[1..])[cs[0].ctype := cs[0].Content()]
  }

  /** Assigning a list of conditions to a map, left to right. */
  function Assign(m: map<string, Content>, news: seq<Condition>): map<string, Content>
    decreases |news|
  {
    if news == [] then m else Assign(m[news[0].ctype := news[0].Content()], news[1..])
  }

  /** One stored condition after one supplied condition was set. */
  function Cell(old_: Condition, c: Condition): Condition {
    if old_.ctype == c.ctype && !Same(old_, c) then c else old_
  }

  function Overwrite(cs: seq<Condition>, c: Condition): (r: seq<Condition>)
    ensures |r| == |cs|
    ensures forall i :: 0 <= i < |cs| ==> r[i] == Cell(cs[i], c)
  {
    seq(|cs|, i requires 0 <= i < |cs| => Cell(cs[i], c))
  }

  function SetOne(cs: seq<Condition>, c: Condition): seq<Condition> {
    Overwrite(cs, c) + if HasType(cs, c.ctype) then [] else [c]
  }

  /** The list that SetConditions leaves behind. */
  function SetAll(cs: seq<Condition>, news: seq<Condition>): seq<Condition>
    decreases |news|
  {
    if news == [] then cs else SetAll(SetOne(cs, news[0]), news[1..])
  }

  function Stamp(news: seq<Condition>, generation: int): (r: seq<Condition>)
    ensures |r| == |news|
  {
    seq(|news|, i requires 0 <= i < |news| => news[i].WithObservedGeneration(generation))
  }

  // ---------------------------------------------------------------- refinement of the map

  lemma {:induction false} AsMapDomain(cs: seq<Condition>, t: string)
    ensures t in AsMap(cs) <==> HasType(cs, t)
    ensures HasType(cs, t) ==> AsMap(cs)[t] == Lookup(cs, t).Content()
  {
    if cs != [] {
      AsMapDomain(cs[1..], t);
      if HasType(cs, t) && cs[0].ctype != t {
        var i :| 0 <= i < |cs| && cs[i].ctype == t;
        assert cs[1..][i - 1].ctype == t;
      }
      if HasType(cs[1..], t) {
        var i :| 0 <= i < |cs[1..]| && cs[1..][i].ctype == t;
        assert cs[i + 1].ctype == t;
      }
    }
  }

  /** Appending acts on the map only where the type was missing. */
  lemma {:induction false} AsMapAppend(cs: seq<Condition>, c: Condition)
    ensures AsMap(cs + [c]) == if HasType(cs, c.ctype) then AsMap(cs) else AsMap(cs)[c.ctype := c.Content()]
  {
    AsMapDomain(cs, c.ctype);
    if cs == [] {
      assert (cs + [c])[1..] == [];
    } else {
      assert (cs + [c])[1..] == cs[1..] + [c];
      AsMapAppend(cs[1..], c);
      AsMapDomain(cs[1..], c.ctype);
    }
  }

  lemma {:induction false} OverwriteMap(cs: seq<Condition>, c: Condition)
    ensures AsMap(Overwrite(cs, c)) == if HasType(cs, c.ctype) then AsMap(cs)[c.ctype := c.Content()] else AsMap(cs)
  {
    AsMapDomain(cs, c.ctype);
    if cs != [] {
      assert Overwrite(cs, c)[1..] == Overwrite(cs[1..], c);
      OverwriteMap(cs[1..], c);
      AsMapDomain(cs[1..], c.ctype);
    }
  }

  lemma OverwriteTypes(cs: seq<Condition>, c: Condition, t: string)
    ensures HasType(Overwrite(cs, c), t) <==> HasType(cs, t)
  {
    if HasType(cs, t) {
      var i :| 0 <= i < |cs| && cs[i].ctype == t;
      assert Overwrite(cs, c)[i].ctype == t;
    }
  }

  lemma SetOneMap(cs: seq<Condition>, c: Condition)
    ensures AsMap(SetOne(cs, c)) == AsMap(cs)[c.ctype := c.Content()]
  {
    OverwriteMap(cs, c);
    OverwriteTypes(cs, c, c.ctype);
    if HasType(cs, c.ctype) {
      assert SetOne(cs, c) == Overwrite(cs, c);
    } else {
      AsMapAppend(Overwrite(cs, c), c);
    }
  }

  /** SetConditions refines assignment into a map, for any list and any arguments. */
  lemma {:induction false} SetAllRefinesMap(cs: seq<Condition>, news: seq<Condition>)
    ensures AsMap(SetAll(cs, news)) == Assign(AsMap(cs), news)
    decreases |news|
  {
    if news != [] {
      SetOneMap(cs, news[0]);
      SetAllRefinesMap(SetOne(cs, news[0]), news[1..]);
    }
  }

  /** Existing entries keep their positions and distinct types stay distinct. */
  lemma {:induction false} SetAllKeepsPositions(cs: seq<Condition>, news: seq<Condition>)
    ensures |cs| <= |SetAll(cs, news)|
    ensures forall i :: 0 <= i < |cs| ==> SetAll(cs, news)[i].ctype == cs[i].ctype
    ensures DistinctTypes(cs) ==> DistinctTypes(SetAll(cs, news))
    decreases |news|
  {
    if news != [] {
      var c := news[0];
      var one := SetOne(cs, c);
      SetAllKeepsPositions(one, news[1..]);
      assert forall i :: 0 <= i < |cs| ==> one[i].ctype == cs[i].ctype;
      if DistinctTypes(cs) {
        assert DistinctTypes(one);
      }
    }
  }

  function LastOfType(news: seq<Condition>, t: string): (r: Condition)
    requires HasType(news, t)
    ensures r in news && r.ctype == t
  {
    if news[|news| - 1].ctype == t then news[|news| - 1]
    else
      assert forall i :: 0 <= i < |news| && news[i].ctype == t ==> news[..|news| - 1][i].ctype == t;
      LastOfType(news[..|news| - 1], t)
  }

  lemma {:induction false} AssignSnoc(m: map<string, Content>, news: seq<Condition>, c: Condition)
    ensures Assign(m, news + [c]) == Assign(m, news)[c.ctype := c.Content()]
    decreases |news|
  {
    if news == [] {
      assert [c][1..] == [];
      assert news + [c] == [c];
    } else {
      assert (news + [c])[1..] == news[1..] + [c];
      AssignSnoc(m[news[0].ctype := news[0].Content()], news[1..], c);
    }
  }

  /** After an assignment a type holds the last supplied content, or what it held before. */
  lemma {:induction false} AssignLookup(m: map<string, Content>, news: seq<Condition>, t: string)
    ensures HasType(news, t) ==> t in Assign(m, news) && Assign(m, news)[t] == LastOfType(news, t).Content()
    ensures !HasType(news, t) ==> (t in Assign(m, news) <==> t in m)
    ensures !HasType(news, t) && t in m ==> Assign(m, news)[t] == m[t]
    decreases |news|
  {
    if news != [] {
      var front, c := news[..|news| - 1], news[|news| - 1];
      assert news == front + [c];
      AssignSnoc(m, front, c);
      AssignLookup(m, front, t);
      if HasType(front, t) {
        var i :| 0 <= i < |front| && front[i].ctype == t;
        assert news[i].ctype == t;
      }
      if HasType(news, t) && c.ctype != t {
        var i :| 0 <= i < |news| && news[i].ctype == t;
        assert front[i].ctype == t;
      }
    }
  }

  /** GetCondition after SetConditions: Equal to the last supplied condition of the type, or to the old answer. */
  lemma SetThenGet(cs: seq<Condition>, news: seq<Condition>, t: string)
    ensures HasType(news, t) ==> Same(Lookup(SetAll(cs, news), t), LastOfType(news, t))
    ensures !HasType(news, t) ==> Same(Lookup(SetAll(cs, news), t), Lookup(cs, t))
  {
    SetAllRefinesMap(cs, news);
    AssignLookup(AsMap(cs), news, t);
    AsMapDomain(cs, t);
    AsMapDomain(SetAll(cs, news), t);
  }

  /** The list stores this condition at its type's place, or one of the same contents with a generation as high. */
  predicate Raises(cs: seq<Condition>, c: Condition) {
    || !HasType(cs, c.ctype)
    || !Same(Lookup(cs, c.ctype), c)
    || Lookup(cs, c.ctype).observedGeneration >= c.observedGeneration
  }

  /**
   * The documentation of SetConditions promises that the observed generation rises to that of a supplied condition. For
   * the last supplied condition of a type it does exactly when, in the list that the arguments before it left, the type
   * is new, or the contents differ, or the stored generation is as high already. If no argument before it has its type
   * either, that is a question about the original list.
   */
  lemma GenerationRises(cs: seq<Condition>, news: seq<Condition>, i: nat)
    requires i < |news| && !HasType(news[i + 1..], news[i].ctype)
    ensures Lookup(SetAll(cs, news), news[i].ctype).observedGeneration >= news[i].observedGeneration
      <==> Raises(SetAll(cs, news[..i]), news[i])
    ensures !HasType(news[..i], news[i].ctype) ==> (Raises(SetAll(cs, news[..i]), news[i]) <==> Raises(cs, news[i]))
  {
    var c, before := news[i], SetAll(cs, news[..i]);
    assert news == news[..i] + ([c] + news[i + 1..]);
    SetAllConcat(cs, news[..i], [c] + news[i + 1..]);
    assert ([c] + news[i + 1..])[1..] == news[i + 1..];
    LookupAfterOne(before, c);
    OtherTypesStay(SetOne(before, c), news[i + 1..], c.ctype);
    if !HasType(news[..i], c.ctype) { OtherTypesStay(cs, news[..i], c.ctype); }
  }

  lemma {:induction false} SetAllConcat(cs: seq<Condition>, a: seq<Condition>, b: seq<Condition>)
    ensures SetAll(cs, a + b) == SetAll(SetAll(cs, a), b)
    decreases |a|
  {
    if a == [] {
      assert a + b == b;
    } else {
      assert (a + b)[1..] == a[1..] + b;
      SetAllConcat(SetOne(cs, a[0]), a[1..], b);
    }
  }

  /** Arguments of other types leave the lookup of a type as it is. */
  lemma {:induction false} OtherTypesStay(cs: seq<Condition>, news: seq<Condition>, t: string)
    requires !HasType(news, t)
    ensures HasType(SetAll(cs, news), t) <==> HasType(cs, t)
    ensures Lookup(SetAll(cs, news), t) == Lookup(cs, t)
    decreases |news|
  {
    if news != [] {
      assert news[0].ctype != t;
      if HasType(news[1..], t) { TailHas(news, t); }
      OneOther(cs, news[0], t);
      OneHasTypes(cs, news[0], t);
      OtherTypesStay(SetOne(cs, news[0]), news[1..], t);
    }
  }

  lemma TailHas(cs: seq<Condition>, t: string)
    requires cs != [] && HasType(cs[1..], t)
    ensures HasType(cs, t)
  {
    var i :| 0 <= i < |cs[1..]| && cs[1..][i].ctype == t;
    assert cs[i + 1].ctype == t;
  }

  lemma {:induction false} OneOther(cs: seq<Condition>, c: Condition, t: string)
    requires c.ctype != t
    ensures Lookup(SetOne(cs, c), t) == Lookup(cs, t)
  {
    var one := SetOne(cs, c);
    if cs == [] {
      assert one == [c] && [c][1..] == [];
    } else {
      assert one[0] == Cell(cs[0], c);
      if cs[0].ctype != t {
        if cs[0].ctype == c.ctype {
          assert HasType(cs, c.ctype);
          assert one[1..] == Overwrite(cs[1..], c);
          OverwriteOther(cs[1..], c, t);
        } else {
          TailHasType(cs, c.ctype);
          assert one[1..] == SetOne(cs[1..], c);
          OneOther(cs[1..], c, t);
        }
      }
    }
  }

  lemma {:induction false} OverwriteOther(cs: seq<Condition>, c: Condition, t: string)
    requires c.ctype != t
    ensures Lookup(Overwrite(cs, c), t) == Lookup(cs, t)
  {
    if cs != [] {
      assert Overwrite(cs, c)[1..] == Overwrite(cs[1..], c);
      OverwriteOther(cs[1..], c, t);
    }
  }

  lemma {:induction false} LookupAfterOne(cs: seq<Condition>, c: Condition)
    ensures Lookup(SetOne(cs, c), c.ctype) ==
      if HasType(cs, c.ctype) && Same(Lookup(cs, c.ctype), c) then Lookup(cs, c.ctype) else c
  {
    var one := SetOne(cs, c);
    if cs != [] {
      assert one[0] == Cell(cs[0], c);
      if cs[0].ctype != c.ctype {
        TailHasType(cs, c.ctype);
        assert one[1..] == SetOne(cs[1..], c);
        LookupAfterOne(cs[1..], c);
      } else {
        assert HasType(cs, c.ctype);
      }
    }
  }

  lemma TailHasType(cs: seq<Condition>, t: string)
    requires cs != [] && cs[0].ctype != t
    ensures HasType(cs[1..], t) <==> HasType(cs, t)
  {
    if HasType(cs, t) {
      var i :| 0 <= i < |cs| && cs[i].ctype == t;
      assert cs[1..][i - 1].ctype == t;
    }
    if HasType(cs[1..], t) {
      var i :| 0 <= i < |cs[1..]| && cs[1..][i].ctype == t;
      assert cs[i + 1].ctype == t;
    }
  }

  /** A repeated condition of a later generation leaves the earlier generation stored. */
  lemma GenerationStays()
    ensures var before := [Available(0).WithObservedGeneration(1)];
      SetAll(before, [Available(0).WithObservedGeneration(2)]) == before
  {
    var before, c := [Available(0).WithObservedGeneration(1)], Available(0).WithObservedGeneration(2);
    assert [c][1..] == [];
    assert SetAll(before, [c]) == SetOne(before, c);
    assert before[0].ctype == c.ctype;
    assert SetOne(before, c) == before;
  }

  // ---------------------------------------------------------------- setting twice

  /** One stored condition after a whole argument list. */
  function CellAll(x: Condition, news: seq<Condition>): (r: Condition)
    ensures r.ctype == x.ctype
    decreases |news|
  {
    if news == [] then x else CellAll(Cell(x, news[0]), news[1..])
  }

  lemma {:induction false} CellAllSnoc(x: Condition, news: seq<Condition>, c: Condition)
    ensures CellAll(x, news + [c]) == Cell(CellAll(x, news), c)
    decreases |news|
  {
    if news == [] {
      assert [c][1..] == [];
      assert news + [c] == [c];
    } else {
      assert (news + [c])[1..] == news[1..] + [c];
      CellAllSnoc(Cell(x, news[0]), news[1..], c);
    }
  }

  ghost predicate AllSame(news: seq<Condition>, x: Condition) {
    forall i :: 0 <= i < |news| && news[i].ctype == x.ctype ==> Same(news[i], x)
  }

  lemma {:induction false} UntouchedCell(x: Condition, news: seq<Condition>)
    requires AllSame(news, x)
    ensures CellAll(x, news) == x
    decreases |news|
  {
    if news != [] {
      UntouchedCell(x, news[1..]);
    }
  }

  /** Once some argument differs from the final value, the value the cell started with is forgotten. */
  lemma {:induction false} CellForgets(x: Condition, z: Condition, news: seq<Condition>)
    requires x.ctype == z.ctype
    requires !AllSame(news, CellAll(x, news))
    ensures CellAll(z, news) == CellAll(x, news)
    decreases |news|
  {
    var front, c := news[..|news| - 1], news[|news| - 1];
    assert news == front + [c];
    CellAllSnoc(x, front, c);
    CellAllSnoc(z, front, c);
    var u, v := CellAll(x, front), CellAll(z, front);
    var k :| 0 <= k < |news| && news[k].ctype == x.ctype && !Same(news[k], CellAll(x, news));
    assert k < |front| ==> front[k] == news[k];
    if c.ctype != x.ctype || Same(u, c) {
      assert k < |front| && !AllSame(front, u);
      CellForgets(x, z, front);
    } else if Same(v, c) {
      assert k < |front| && !AllSame(front, v);
      CellForgets(z, x, front);
    }
  }

  lemma CellAllIdempotent(x: Condition, news: seq<Condition>)
    ensures CellAll(CellAll(x, news), news) == CellAll(x, news)
  {
    if AllSame(news, CellAll(x, news)) {
      UntouchedCell(CellAll(x, news), news);
    } else {
      CellForgets(x, CellAll(x, news), news);
    }
  }

  ghost predicate IsCell(r: Condition, news: seq<Condition>) {
    exists z: Condition :: r == CellAll(z, news)
  }

  /** Every entry that SetConditions leaves is the fate of one cell, an appended one too. */
  lemma {:induction false} SetAllCells(cs: seq<Condition>, news: seq<Condition>)
    ensures |cs| <= |SetAll(cs, news)|
    ensures forall i :: 0 <= i < |cs| ==> SetAll(cs, news)[i] == CellAll(cs[i], news)
    ensures forall i :: |cs| <= i < |SetAll(cs, news)| ==>
      IsCell(SetAll(cs, news)[i], news) && !HasType(cs, SetAll(cs, news)[i].ctype)
    ensures forall i :: 0 <= i < |news| ==> HasType(SetAll(cs, news), news[i].ctype)
    decreases |news|
  {
    if news != [] {
      var c, rest := news[0], news[1..];
      var one, all := SetOne(cs, c), SetAll(cs, news);
      SetAllCells(one, rest);
      assert forall i :: 0 <= i < |cs| ==> one[i] == Cell(cs[i], c);
      forall i | |cs| <= i < |all|
        ensures IsCell(all[i], news) && !HasType(cs, all[i].ctype)
      {
        if i < |one| {
          assert all[i] == CellAll(c, rest) == CellAll(c, news);
        } else {
          var z :| all[i] == CellAll(z, rest);
          assert one[|cs|..] != [] ==> one[|cs|] == c;
          OneHasTypes(cs, c, z.ctype);
          assert Cell(z, c) == z;
          assert all[i] == CellAll(z, news);
        }
      }
      OneHasTypes(cs, c, c.ctype);
      var k :| 0 <= k < |one| && one[k].ctype == c.ctype;
      assert all[k].ctype == c.ctype;
      forall i | 0 <= i < |news|
        ensures HasType(all, news[i].ctype)
      {
        if i > 0 { assert rest[i - 1] == news[i]; }
      }
    }
  }

  lemma OneHasTypes(cs: seq<Condition>, c: Condition, t: string)
    ensures HasType(SetOne(cs, c), t) <==> HasType(cs, t) || t == c.ctype
  {
    OverwriteTypes(cs, c, t);
    var one := SetOne(cs, c);
    if HasType(cs, t) {
      var i :| 0 <= i < |cs| && cs[i].ctype == t;
      assert one[i].ctype == t;
    } else if t == c.ctype {
      assert one[|cs|].ctype == t;
    }
  }

  lemma {:induction false} SetAllPresent(cs: seq<Condition>, news: seq<Condition>)
    requires forall i :: 0 <= i < |news| ==> HasType(cs, news[i].ctype)
    ensures |SetAll(cs, news)| == |cs|
    decreases |news|
  {
    if news != [] {
      var one := SetOne(cs, news[0]);
      forall i | 0 <= i < |news[1..]|
        ensures HasType(one, news[1..][i].ctype)
      {
        assert HasType(cs, news[i + 1].ctype);
        OneHasTypes(cs, news[0], news[i + 1].ctype);
      }
      SetAllPresent(one, news[1..]);
    }
  }

  /** Setting the same conditions a second time changes nothing, not even a generation or a transition time. */
  lemma SetAllTwice(cs: seq<Condition>, news: seq<Condition>)
    ensures SetAll(SetAll(cs, news), news) == SetAll(cs, news)
  {
    var once := SetAll(cs, news);
    SetAllCells(cs, news);
    SetAllCells(once, news);
    SetAllPresent(once, news);
    forall i | 0 <= i < |once|
      ensures SetAll(once, news)[i] == once[i]
    {
      var z := if i < |cs| then cs[i] else var z :| once[i] == CellAll(z, news); z;
      CellAllIdempotent(z, news);
    }
  }

  // ---------------------------------------------------------------- order of types, sorting, equality

  /** The order of Go strings. */
  predicate Less(a: string, b: string) {
    if b == "" then false
    else if a == "" then true
    else a[0] < b[0] || (a[0] == b[0] && Less(a[1..], b[1..]))
  }

  lemma {:induction false} LessTotal(a: string, b: string)
    ensures Less(a, b) || Less(b, a) || a == b
    ensures !(Less(a, b) && Less(b, a))
    ensures !Less(a, a)
  {
    if a != "" {
      LessTotal(a[1..], if b == "" then b else b[1..]);
      if b != "" {
        assert a == [a[0]] + a[1..] && b == [b[0]] + b[1..];
      }
    }
  }

  lemma {:induction false} LessTransitive(a: string, b: string, c: string)
    requires !Less(b, a) && !Less(c, b)
    ensures !Less(c, a)
    decreases |a|
  {
    if a != "" && b != "" && c != "" {
      if a[0] == b[0] == c[0] { LessTransitive(a[1..], b[1..], c[1..]); }
    }
  }

  ghost predicate Sorted(cs: seq<Condition>) {
    forall i, j :: 0 <= i < j < |cs| ==> !Less(cs[j].ctype, cs[i].ctype)
  }

  /** Two sorted lists without repeated types that have the same types have them in the same places. */
  lemma {:induction false} SortedUnique(a: seq<Condition>, b: seq<Condition>)
    requires Sorted(a) && Sorted(b) && DistinctTypes(a) && DistinctTypes(b)
    requires forall t :: HasType(a, t) <==> HasType(b, t)
    ensures |a| == |b| && forall i :: 0 <= i < |a| ==> a[i].ctype == b[i].ctype
  {
    if a == [] {
      if b != [] { assert HasType(b, b[0].ctype); }
    } else {
      assert HasType(a, a[0].ctype);
      var j :| 0 <= j < |b| && b[j].ctype == a[0].ctype;
      assert HasType(b, b[0].ctype);
      var k :| 0 <= k < |a| && a[k].ctype == b[0].ctype;
      LessTotal(a[0].ctype, b[0].ctype);
      assert a[0].ctype == b[0].ctype;
      forall t
        ensures HasType(a[1..], t) <==> HasType(b[1..], t)
      {
        TailTypes(a, t);
        TailTypes(b, t);
      }
      SortedUnique(a[1..], b[1..]);
    }
  }

  lemma TailTypes(cs: seq<Condition>, t: string)
    requires cs != [] && DistinctTypes(cs)
    ensures HasType(cs[1..], t) <==> HasType(cs, t) && t != cs[0].ctype
  {
    if HasType(cs, t) && t != cs[0].ctype {
      var i :| 0 <= i < |cs| && cs[i].ctype == t;
      assert cs[1..][i - 1].ctype == t;
    }
    if HasType(cs[1..], t) {
      var i :| 0 <= i < |cs[1..]| && cs[1..][i].ctype == t;
      assert cs[i + 1].ctype == t;
    }
  }

  /** With distinct types a lookup finds the one entry of that type. */
  lemma {:induction false} LookupFinds(cs: seq<Condition>, i: nat)
    requires DistinctTypes(cs) && i < |cs|
    ensures Lookup(cs, cs[i].ctype) == cs[i]
  {
    if i > 0 {
      LookupFinds(cs[1..], i - 1);
    }
  }

  lemma MultisetHas(a: seq<Condition>, b: seq<Condition>, i: nat) returns (k: nat)
    requires multiset(a) == multiset(b) && i < |a|
    ensures k < |b| && b[k] == a[i]
  {
    assert a[i] in multiset(b);
    k :| 0 <= k < |b| && b[k] == a[i];
  }

  lemma TwiceInMultiset(a: seq<Condition>, i: nat, j: nat)
    requires i < j < |a| && a[i] == a[j]
    ensures multiset(a)[a[i]] >= 2
  {
    assert a == a[..j] + a[j..];
    assert a[..j][i] == a[i] && a[j..][0] == a[j];
    assert a[i] in multiset(a[..j]) && a[i] in multiset(a[j..]);
  }

  lemma {:induction false} DistinctOnce(b: seq<Condition>, x: Condition)
    requires DistinctTypes(b)
    ensures multiset(b)[x] <= 1
  {
    if b != [] {
      var rest := b[1..];
      DistinctOnce(rest, x);
      assert b == [b[0]] + rest;
      assert forall i :: 0 <= i < |rest| ==> rest[i].ctype == b[i + 1].ctype;
      assert b[0] !in rest;
    }
  }

  lemma PermutedDistinct(a: seq<Condition>, b: seq<Condition>)
    requires multiset(a) == multiset(b) && DistinctTypes(a)
    ensures DistinctTypes(b)
  {
    forall i, j | 0 <= i < j < |b|
      ensures b[i].ctype != b[j].ctype
    {
      if b[i].ctype == b[j].ctype {
        var p := MultisetHas(b, a, i);
        var q := MultisetHas(b, a, j);
        assert p == q;
        TwiceInMultiset(b, i, j);
        DistinctOnce(a, b[i]);
      }
    }
  }

  lemma PermutedMap(a: seq<Condition>, b: seq<Condition>)
    requires multiset(a) == multiset(b) && DistinctTypes(a)
    ensures DistinctTypes(b) && AsMap(a) == AsMap(b)
  {
    PermutedDistinct(a, b);
    forall t
      ensures t in AsMap(a) <==> t in AsMap(b)
      ensures t in AsMap(a) ==> AsMap(a)[t] == AsMap(b)[t]
    {
      AsMapDomain(a, t);
      AsMapDomain(b, t);
      if HasType(a, t) {
        var i :| 0 <= i < |a| && a[i].ctype == t;
        var k := MultisetHas(a, b, i);
        LookupFinds(a, i);
        LookupFinds(b, k);
      }
      if HasType(b, t) {
        var i :| 0 <= i < |b| && b[i].ctype == t;
        var k := MultisetHas(b, a, i);
        assert a[k].ctype == t;
      }
    }
  }

  lemma {:induction false} MapSize(cs: seq<Condition>)
    requires DistinctTypes(cs)
    ensures |AsMap(cs)| == |cs|
  {
    if cs != [] {
      MapSize(cs[1..]);
      AsMapDomain(cs[1..], cs[0].ctype);
      assert forall i :: 0 <= i < |cs[1..]| ==> cs[1..][i].ctype == cs[i + 1].ctype;
    }
  }

  /** Comparing sorted copies position by position decides equality of the maps, whatever order the sort chose. */
  lemma SortedCopiesDecide(s: seq<Condition>, o: seq<Condition>, sc: seq<Condition>, oc: seq<Condition>)
    requires DistinctTypes(s) && DistinctTypes(o) && |s| == |o|
    requires multiset(s) == multiset(sc) && multiset(o) == multiset(oc) && |sc| == |s| && |oc| == |o|
    requires Sorted(sc) && Sorted(oc)
    ensures (forall i :: 0 <= i < |sc| ==> Same(sc[i], oc[i])) <==> AsMap(s) == AsMap(o)
  {
    PermutedMap(s, sc);
    PermutedMap(o, oc);
    if AsMap(sc) == AsMap(oc) {
      forall t
        ensures HasType(sc, t) <==> HasType(oc, t)
      {
        AsMapDomain(sc, t);
        AsMapDomain(oc, t);
      }
      SortedUnique(sc, oc);
      forall i | 0 <= i < |sc|
        ensures Same(sc[i], oc[i])
      {
        EntryContent(sc, i);
        EntryContent(oc, i);
      }
    }
    if forall i :: 0 <= i < |sc| ==> Same(sc[i], oc[i]) {
      PointwiseMap(sc, oc);
    }
  }

  /** One list without repeated types is enough: the other has none either if the copies agree. */
  lemma CopiesDecide(s: seq<Condition>, o: seq<Condition>, sc: seq<Condition>, oc: seq<Condition>)
    requires |s| == |o| && multiset(s) == multiset(sc) && multiset(o) == multiset(oc) && |sc| == |s| && |oc| == |o|
    requires Sorted(sc) && Sorted(oc)
    ensures DistinctTypes(s) || DistinctTypes(o) ==>
      ((forall i :: 0 <= i < |sc| ==> Same(sc[i], oc[i]))
       <==> DistinctTypes(s) && DistinctTypes(o) && AsMap(s) == AsMap(o))
  {
    if DistinctTypes(s) && DistinctTypes(o) {
      SortedCopiesDecide(s, o, sc, oc);
    } else if forall i :: 0 <= i < |sc| ==> Same(sc[i], oc[i]) {
      if DistinctTypes(s) {
        PermutedDistinct(s, sc);
        PermutedDistinct(oc, o);
      }
      if DistinctTypes(o) {
        PermutedDistinct(o, oc);
        PermutedDistinct(sc, s);
      }
    }
  }

  lemma EntryContent(cs: seq<Condition>, i: nat)
    requires DistinctTypes(cs) && i < |cs|
    ensures cs[i].ctype in AsMap(cs) && AsMap(cs)[cs[i].ctype] == cs[i].Content()
  {
    assert HasType(cs, cs[i].ctype);
    AsMapDomain(cs, cs[i].ctype);
    LookupFinds(cs, i);
  }

  lemma {:induction false} PointwiseMap(a: seq<Condition>, b: seq<Condition>)
    requires |a| == |b| && forall i :: 0 <= i < |a| ==> Same(a[i], b[i])
    ensures AsMap(a) == AsMap(b)
  {
    if a != [] {
      PointwiseMap(a[1..], b[1..]);
      assert Same(a[0], b[0]);
    }
  }

  // ---------------------------------------------------------------- the object

  method Swap(a: array<Condition>, i: nat, j: nat)
    requires i < a.Length && j < a.Length
    modifies a
    ensures a[..] == old(a[..])[i := old(a[j])][j := old(a[i])]
    ensures multiset(a[..]) == multiset(old(a[..]))
  {
    a[i], a[j] := a[j], a[i];
  }

  /** Stands for the library's sort.Slice: callers may rely on the order and the elements only, not on stability. */
  method SortByType(a: array<Condition>)
    modifies a
    ensures Sorted(a[..]) && multiset(a[..]) == multiset(old(a[..]))
  {
    var n := 0;
    while n < a.Length
      invariant n <= a.Length
      invariant Sorted(a[..n])
      invariant multiset(a[..]) == multiset(old(a[..]))
    {
      var k := n;
      while k > 0 && Less(a[k].ctype, a[k - 1].ctype)
        invariant k <= n < a.Length
        invariant forall i, j :: 0 <= i < j <= n && j != k ==> !Less(a[j].ctype, a[i].ctype)
        invariant multiset(a[..]) == multiset(old(a[..]))
      {
        LessTotal(a[k].ctype, a[k - 1].ctype);
        Swap(a, k - 1, k);
        k := k - 1;
      }
      forall i | 0 <= i < k
        ensures !Less(a[k].ctype, a[i].ctype)
      {
        if i < k - 1 { LessTransitive(a[i].ctype, a[k - 1].ctype, a[k].ctype); }
      }
      n := n + 1;
    }
    assert a[..n] == a[..];
  }

  class ConditionedStatus {
    var conditions: seq<Condition>

    /** NewConditionedStatus. */
    constructor (news: seq<Condition>)
      ensures conditions == SetAll([], news)
    {
      conditions := [];
      new;
      SetConditions(news);
    }

    method GetCondition(t: string) returns (r: Condition)
      ensures r == Lookup(conditions, t)
    {
      for n := 0 to |conditions|
        invariant forall i :: 0 <= i < n ==> conditions[i].ctype != t
      {
        if conditions[n].ctype == t {
          LookupAt(conditions, n);
          return conditions[n];
        }
      }
      return Condition(t, Unknown, "", "", 0, 0);
    }

    method SetConditions(news: seq<Condition>)
      modifies this
      ensures conditions == SetAll(old(conditions), news)
    {
      for n := 0 to |news|
        invariant SetAll(conditions, news[n..]) == SetAll(old(conditions), news)
      {
        var newC := news[n];
        var exists_ := false;
        var length := |conditions|;
        ghost var before := conditions;
        for i := 0 to length
          invariant |conditions| == length
          invariant forall j :: 0 <= j < i ==> conditions[j] == Cell(before[j], newC)
          invariant forall j :: i <= j < length ==> conditions[j] == before[j]
          invariant exists_ <==> exists j :: 0 <= j < i && before[j].ctype == newC.ctype
        {
          var existing := conditions[i];
          if existing.ctype != newC.ctype {
            continue;
          }
          if Same(existing, newC) {
            exists_ := true;
            if existing.observedGeneration < newC.observedGeneration {
              // assigns to the copy that the loop made: the stored condition keeps its generation
              existing := existing.(observedGeneration := newC.observedGeneration);
            }
            continue;
          }
          conditions := conditions[i := newC];
          exists_ := true;
        }
        assert conditions == Overwrite(before, newC);
        if !exists_ {
          conditions := conditions + [newC];
        }
        assert conditions == SetOne(before, newC);
        assert news[n..][0] == newC && news[n..][1..] == news[n + 1..];
      }
    }

    method CopyOfConditions() returns (a: array<Condition>)
      ensures fresh(a) && a[..] == conditions
    {
      var cs := conditions;
      a := new Condition[|cs|](i requires 0 <= i < |cs| => cs[i]);
    }

    /** The receiver may be nil in the source, so it is a parameter here. */
    static method Equal(s: ConditionedStatus?, other: ConditionedStatus?) returns (r: bool)
      ensures s == null || other == null ==> r == (s == null && other == null)
      ensures s != null && other != null && (DistinctTypes(s.conditions) || DistinctTypes(other.conditions)) ==>
        (r <==>
           && DistinctTypes(s.conditions) && DistinctTypes(other.conditions)
           && AsMap(s.conditions) == AsMap(other.conditions))
    {
      if s == null || other == null {
        return s == null && other == null;
      }
      if |other.conditions| != |s.conditions| {
        if DistinctTypes(s.conditions) && DistinctTypes(other.conditions) {
          MapSize(s.conditions);
          MapSize(other.conditions);
        }
        return false;
      }
      var sc := s.CopyOfConditions();
      var oc := other.CopyOfConditions();
      SortByType(sc);
      SortByType(oc);
      CopiesDecide(s.conditions, other.conditions, sc[..], oc[..]);
      for i := 0 to sc.Length
        invariant forall j :: 0 <= j < i ==> Same(sc[j], oc[j])
      {
        if !Same(sc[i], oc[i]) {
          assert !Same(sc[..][i], oc[..][i]);
          return false;
        }
      }
      return true;
    }
  }

  lemma {:induction false} LookupAt(cs: seq<Condition>, n: nat)
    requires n < |cs| && forall i :: 0 <= i < n ==> cs[i].ctype != cs[n].ctype
    ensures Lookup(cs, cs[n].ctype) == cs[n]
  {
    if n > 0 { LookupAt(cs[1..], n - 1); }
  }
}
