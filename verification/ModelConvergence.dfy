/** The Model controller settles: a measure falls with every undisturbed pass until passes change nothing. */
module ModelConvergence {
  import opened Common
  import opened Conditions
  import opened ModelPass
  import opened VersionedStore
  import P = ModelProtocol

  /** The list has a condition of c's type, and every condition of that type is Equal to c. */
  ghost predicate Holds(cs: seq<Condition>, c: Condition) { HasType(cs, c.ctype) && AllSame(cs, c) }

  lemma SetOneHolds(cs: seq<Condition>, c: Condition)
    ensures Holds(SetOne(cs, c), c)
    ensures Holds(cs, c) ==> SetOne(cs, c) == cs
  {
    OneHasTypes(cs, c, c.ctype);
    var one := SetOne(cs, c);
    forall i | 0 <= i < |one| && one[i].ctype == c.ctype
      ensures Same(one[i], c)
    {
      if i < |cs| { assert one[i] == Cell(cs[i], c); }
    }
  }

  lemma SetOneKeeps(cs: seq<Condition>, c: Condition, d: Condition)
    requires Holds(cs, d) && c.ctype != d.ctype
    ensures Holds(SetOne(cs, c), d)
  {
    OneHasTypes(cs, c, d.ctype);
    var one := SetOne(cs, c);
    forall i | 0 <= i < |one| && one[i].ctype == d.ctype
      ensures Same(one[i], d)
    {
      if i < |cs| { assert one[i] == Cell(cs[i], c); }
    }
  }

  lemma HoldsLookup(cs: seq<Condition>, c: Condition)
    requires Holds(cs, c)
    ensures Same(Lookup(cs, c.ctype), c)
  {
    var i :| 0 <= i < |cs| && cs[i].ctype == c.ctype;
    if Lookup(cs, c.ctype) in cs {
      var k :| 0 <= k < |cs| && cs[k] == Lookup(cs, c.ctype);
    }
  }

  lemma OneStamped(m: Model, c: Condition)
    ensures m.With([c]).status.conditions == SetOne(m.status.conditions, c.WithObservedGeneration(m.generation))
  {
    P.OneMap(m.status.conditions, c, m.generation);
  }

  // ---------------------------------------------------------------- passes in which everything but the pull is well

  /**
   * Everything but a pull is well: nothing fails up to it, the StatefulSet is ready, the write is accepted, and nobody
   * else writes. In the pull, if the pass comes to it, patches may be rejected or lost and the context cancelled.
   */
  ghost predicate Unhindered(m: Model, s: Script, models: seq<string>) {
    && s.answers.resources.Done? && FirstFailure(s.answers.resources.value).None?
    && s.answers.sts.StsState? && s.answers.sts.ready
    && s.answers.list == Done(models)
    && s.answers.write.Accepted? && s.foreign == []
    && (Pulls(m, s) ==> forall i :: 0 <= i < |s.beats| ==> s.beats[i].foreign == [])
  }

  /** A pass that pulls. */
  predicate Pulls(m: Model, s: Script) { Probe(m, s.answers).MustPull? }

  datatype StreamResult = Over(err: Option<string>, status: string)

  /** How a stream of responses ends, from the clock readings and the outcomes alone. */
  function StreamEnd(since: int, status: string, beats: seq<Beat>): StreamResult
    decreases |beats|
  {
    if beats == [] then Over(None, status)
    else
      var e := beats[0].event;
      var due := e.total != 0 && e.now - since > 5_000_000_000;
      var err := if !due then e.cancelled else if e.reply.Accepted? then None else Some(e.reply.error);
      if err.Some? then Over(err, e.status) else StreamEnd(if due then e.restart else since, e.status, beats[1..])
  }

  /** The callback never fails, the call of Pull does not fail, and the last response says success. */
  predicate PullSucceeds(s: Script) {
    StreamEnd(s.pullStart, "", s.beats) == Over(None, "success") && s.answers.pullEnd.None?
  }

  /** Nothing fails, and a pull, if the pass comes to it, succeeds; conditions may be stored in any shape. */
  ghost predicate Undisturbed(m: Model, s: Script, models: seq<string>, details: Details) {
    Unhindered(m, s, models) && s.answers.show == Done(details) && (Pulls(m, s) ==> PullSucceeds(s))
  }

  function Fresh(h: History): Copy { Copy(|h| - 1, Last(h).obj) }

  lemma {:induction false} StreamEnds(h: History, p: Pulling, beats: seq<Beat>)
    ensures var r := Stream(h, p, beats); StreamEnd(p.since, p.status, beats) == Over(r.err, r.pulling.status)
    decreases |beats|
  {
    if beats != [] {
      var r := OnProgress(Extend(h, beats[0].foreign), p, beats[0].event);
      if r.err.None? { StreamEnds(r.history, r.pulling, beats[1..]); }
    }
  }

  /** A Ready condition that is False and announces no pull. */
  predicate Down(m: Model) {
    && m.Ready().status == False
    && (m.Ready().reason == REASON_UNAVAILABLE || P.IsProgressText(m.Ready().message))
  }

  lemma DownAnnouncesNothing(m: Model, model: string)
    requires Down(m)
    ensures !Announces(m.Ready(), model)
  {
    assert PullingMessage(model)[..2] == "Pu" != "Pr";
  }

  /** What a stream leaves: the copy is fresh, or a lost patch ended the stream and left a progress report stored. */
  ghost predicate Streams(h: History, p: Pulling, r: Streamed) {
    && r.pulling.copy.obj.spec == Last(r.history).obj.spec == Last(h).obj.spec
    && r.pulling.copy.obj.generation == Last(r.history).obj.generation
    && (r.pulling.copy == Fresh(r.history)
        || (r.err.Some? && r.pulling.copy.version < |r.history| - 1 && Down(Last(r.history).obj)))
  }

  lemma BeatStreams(h: History, p: Pulling, e: Progress)
    requires p.copy == Fresh(h)
    ensures Streams(h, p, OnProgress(h, p, e))
  {
    if Due(p, e) {
      var m, generation := Last(h).obj, p.copy.obj.generation;
      var ready := Creating(e.readyTime).WithObservedGeneration(generation).WithMessage(ProgressMessage(e));
      var synced := ReconcileSuccess(e.syncedTime).WithObservedGeneration(generation);
      P.ProgressText(e);
      assert TYPE_READY != TYPE_SYNCED;
      P.UpsertLookup(Upsert(m.status.conditions, ready), synced, TYPE_READY);
      P.UpsertLookup(m.status.conditions, ready, TYPE_READY);
      assert Down(Patched(m, generation, e));
    }
  }

  lemma {:induction false} StreamStreams(h: History, p: Pulling, beats: seq<Beat>)
    requires p.copy == Fresh(h) && forall i :: 0 <= i < |beats| ==> beats[i].foreign == []
    ensures Streams(h, p, Stream(h, p, beats))
    decreases |beats|
  {
    if beats != [] {
      assert Extend(h, beats[0].foreign) == h;
      BeatStreams(h, p, beats[0].event);
      var r := OnProgress(h, p, beats[0].event);
      if r.err.None? { StreamStreams(r.history, r.pulling, beats[1..]); }
    }
  }

  lemma LookupSet(m: Model, c: Condition, t: string)
    ensures Same(Lookup(m.With([c]).status.conditions, t), if t == c.ctype then c else Lookup(m.status.conditions, t))
  {
    var news := Stamp([c], m.generation);
    SetThenGet(m.status.conditions, news, t);
    if t == c.ctype { assert news[0].ctype == t; }
  }

  lemma DownHolds(m: Model, c: Condition, err: Option<string>, a: Answers)
    requires c.ctype == TYPE_READY && c.status == False && c.reason == REASON_UNAVAILABLE
    ensures var f := Deferred(if err.Some? then m else m.With([c]), err, a);
      Down(f) && f.spec == m.spec && f.generation == m.generation
  {
    assert TYPE_READY != TYPE_SYNCED;
    match err
    case Some(e) =>
      var m1 := m.Observed();
      LookupSet(m1.With([ReconcileError(e, a.syncedTime)]), Unavailable(a.failedTime), TYPE_READY);
    case None =>
      var m2 := m.With([c]);
      var m3 := m2.Observed();
      LookupSet(m, c, TYPE_READY);
      LookupSet(m3, ReconcileSuccess(a.syncedTime), TYPE_READY);
  }

  /** The body of a pass that pulls. */
  lemma PullBody(h: History, s: Script, models: seq<string>)
    requires Unhindered(Last(h).obj, s, models) && Pulls(Last(h).obj, s)
    ensures var b := RunBody(h, Fresh(h), s); var m := Last(h).obj;
      && b.copy.obj.spec == Last(b.history).obj.spec == m.spec
      && b.copy.obj.generation == Last(b.history).obj.generation
      && (PullSucceeds(s) ==> b.copy == Fresh(b.history) && b.stage == AfterShow(b.copy.obj, s.answers))
      && (!PullSucceeds(s) ==>
            && (b.copy == Fresh(b.history) || (b.copy.version < |b.history| - 1 && Down(Last(b.history).obj)))
            && FailedStage(b.copy.obj, b.stage, s.answers))
  {
    var p := Pulling(Fresh(h), s.pullStart, "");
    StreamStreams(h, p, s.beats);
    StreamEnds(h, p, s.beats);
    var r := Stream(h, p, s.beats);
    var err := if r.err.Some? then r.err else s.answers.pullEnd;
    var got := r.pulling.copy.obj;
    var stage := AfterPull(got, r.pulling.status, err, s.answers);
    assert RunBody(h, Fresh(h), s) == Body(r.history, r.pulling.copy, Closed(stage, s.answers));
  }

  /** The end of a pull that does not succeed: the error, or the condition that asks for another attempt. */
  ghost predicate FailedStage(got: Model, stage: Stage, a: Answers) {
    var c := Unavailable(a.readyTime).WithMessage("Model hasn't been pulled successfully, retrying");
    stage.Ended? && stage.obj == if stage.err.Some? then got else got.With([c])
  }

  // ---------------------------------------------------------------- how such a pass ends

  /** What stays fixed while the controller settles: the details that ollama shows for the model. */
  ghost predicate Settled(m: Model, models: seq<string>, details: Details) {
    && m.spec.model in models
    && m.status.observedGeneration == m.generation
    && m.status.ollamaImage == Or(m.spec.ollamaImage, DEFAULT_IMAGE)
    && m.status.details == Some(details)
    && Holds(m.status.conditions, Available(0))
    && Holds(m.status.conditions, ReconcileSuccess(0))
  }

  /** Ready and Synced are both True. */
  predicate Up(m: Model) {
    && Lookup(m.status.conditions, TYPE_READY).status == True
    && Lookup(m.status.conditions, TYPE_SYNCED).status == True
  }

  lemma SettledIsUp(m: Model, models: seq<string>, details: Details)
    requires Settled(m, models, details)
    ensures Up(m)
  {
    HoldsLookup(m.status.conditions, Available(0));
    HoldsLookup(m.status.conditions, ReconcileSuccess(0));
  }

  /** The stored result of a pass that reached its end, and that it is stable. */
  lemma FinalHolds(m: Model, a: Answers, models: seq<string>, details: Details)
    requires a.show == Done(details) && m.spec.model in models
    ensures var f := Deferred(AfterShow(m, a).obj, None, a);
      && Settled(f, models, details) && f.spec == m.spec && f.generation == m.generation
      && (Settled(m, models, details) ==> f == m)
  {
    var m1 := m.(status := m.status.(details := Some(details)));
    var ready := Available(a.readyTime);
    OneStamped(m1, ready);
    SetOneHolds(m1.status.conditions, ready.WithObservedGeneration(m.generation));
    var m2 := m1.With([ready]);
    var m3 := m2.Observed();
    var synced := ReconcileSuccess(a.syncedTime);
    OneStamped(m3, synced);
    SetOneHolds(m3.status.conditions, synced.WithObservedGeneration(m.generation));
    assert TYPE_READY != TYPE_SYNCED;
    SetOneKeeps(m3.status.conditions, synced.WithObservedGeneration(m.generation),
      ready.WithObservedGeneration(m.generation));
  }

  lemma AnnouncedHolds(m: Model, a: Answers)
    ensures var f := Deferred(m.With([Announcement(m.spec.model, a.readyTime)]), None, a);
      Announces(f.Ready(), f.spec.model) && f.spec == m.spec
  {
    var ready := Announcement(m.spec.model, a.readyTime);
    OneStamped(m, ready);
    SetOneHolds(m.status.conditions, ready.WithObservedGeneration(m.generation));
    var m2 := m.With([ready]);
    var m3 := m2.Observed();
    var synced := ReconcileSuccess(a.syncedTime);
    OneStamped(m3, synced);
    assert TYPE_READY != TYPE_SYNCED;
    SetOneKeeps(m3.status.conditions, synced.WithObservedGeneration(m.generation),
      ready.WithObservedGeneration(m.generation));
    HoldsLookup(m3.With([synced]).status.conditions, ready.WithObservedGeneration(m.generation));
  }

  /** A fresh write replaces the status of the latest version. */
  lemma FreshWrite(h: History, final: Model, how: Ending)
    requires final.spec == Last(h).obj.spec && final.generation == Last(h).obj.generation
    ensures var w := Update(h, |h| - 1, final.status, how, Accepted);
      && w.err.None? && Last(w.history).obj == final && (final == Last(h).obj ==> w.history == h)
  {
  }

  lemma ListedPass(h: History, s: Script, models: seq<string>, details: Details)
    requires Unhindered(Last(h).obj, s, models) && Last(h).obj.spec.model in models && s.answers.show == Done(details)
    ensures var out := RunPass(h, Fresh(h), s); var m, m' := Last(h).obj, Last(out.history).obj;
      && out.err.None? && out.requeue == NoRequeue && m'.spec == m.spec
      && Settled(m', models, details)
      && (Settled(m, models, details) ==> out.history == h)
  {
    var m, a := Last(h).obj, s.answers;
    assert Probe(m, a) == MustShow(m);
    FinalHolds(m, a, models, details);
    FreshWrite(h, Deferred(AfterShow(m, a).obj, None, a), BecameAvailable);
    assert Extend(h, s.foreign) == h;
  }

  lemma AnnouncingPass(h: History, s: Script, models: seq<string>)
    requires Unhindered(Last(h).obj, s, models)
    requires Last(h).obj.spec.model !in models && !Announces(Last(h).obj.Ready(), Last(h).obj.spec.model)
    ensures var out := RunPass(h, Fresh(h), s); var m, m' := Last(h).obj, Last(out.history).obj;
      && out.err.None? && out.requeue == Immediately && m'.spec == m.spec && Announces(m'.Ready(), m'.spec.model)
      && !Pulls(m, s)
  {
    var m, a := Last(h).obj, s.answers;
    AnnouncedHolds(m, a);
    var told := m.With([Announcement(m.spec.model, a.readyTime)]);
    assert RunBody(h, Fresh(h), s) == Body(h, Fresh(h), Ended(told, None, Immediately, Announced(m.spec.model)));
    FreshWrite(h, Deferred(told, None, a), Announced(m.spec.model));
    assert Extend(h, s.foreign) == h;
  }

  lemma PullingPass(h: History, s: Script, models: seq<string>, details: Details)
    requires Unhindered(Last(h).obj, s, models) && Pulls(Last(h).obj, s) && PullSucceeds(s)
    requires s.answers.show == Done(details)
    ensures var out := RunPass(h, Fresh(h), s); var m, m' := Last(h).obj, Last(out.history).obj;
      && out.err.None? && out.requeue == NoRequeue && m'.spec == m.spec
      && Settled(m', models + [m.spec.model], details)
  {
    PullBody(h, s, models);
    var b := RunBody(h, Fresh(h), s);
    FinalHolds(b.copy.obj, s.answers, models + [Last(h).obj.spec.model], details);
    FreshWrite(b.history, Deferred(b.stage.obj, None, s.answers), BecameAvailable);
    assert Extend(b.history, s.foreign) == b.history;
  }

  lemma PullFails(h: History, s: Script, models: seq<string>)
    requires Unhindered(Last(h).obj, s, models) && Pulls(Last(h).obj, s) && !PullSucceeds(s)
    ensures var m' := Last(RunPass(h, Fresh(h), s).history).obj; Down(m') && m'.spec == Last(h).obj.spec
  {
    PullBody(h, s, models);
    var b, a := RunBody(h, Fresh(h), s), s.answers;
    var c := Unavailable(a.readyTime).WithMessage("Model hasn't been pulled successfully, retrying");
    DownHolds(b.copy.obj, c, b.stage.err, a);
    assert Extend(b.history, s.foreign) == b.history;
    if b.copy == Fresh(b.history) { FreshWrite(b.history, Deferred(b.stage.obj, b.stage.err, a), b.stage.how); }
  }

  // ---------------------------------------------------------------- undisturbed passes settle

  /** How many passes are left at most. */
  ghost function PassesLeft(m: Model, models: seq<string>, details: Details): nat {
    if Settled(m, models, details) then 0
    else if m.spec.model in models || Announces(m.Ready(), m.spec.model) then 1
    else 2
  }

  /** What List answers after the pass: a pass that pulled made the model local. */
  function ListAfter(m: Model, models: seq<string>): seq<string> {
    if m.spec.model in models || !Announces(m.Ready(), m.spec.model) then models else models + [m.spec.model]
  }

  /**
   * One undisturbed pass over any stored status, ordered or not: no error; the measure falls; while it is not yet
   * zero the pass asks to be run again at once; at zero the pass stores no version at all.
   */
  lemma PassConverges(h: History, s: Script, models: seq<string>, details: Details)
    requires Undisturbed(Last(h).obj, s, models, details)
    ensures
      var m := Last(h).obj;
      var out := RunPass(h, Fresh(h), s);
      var m' := Last(out.history).obj;
      var left, left' := PassesLeft(m, models, details), PassesLeft(m', ListAfter(m, models), details);
      && out.err.None?
      && m'.spec == m.spec
      && (left > 0 ==> left' < left)
      && (left == 0 ==> out.history == h && left' == 0)
      && (left' > 0 <==> out.requeue == Immediately)
  {
    var m := Last(h).obj;
    if m.spec.model in models {
      ListedPass(h, s, models, details);
    } else if !Announces(m.Ready(), m.spec.model) {
      AnnouncingPass(h, s, models);
    } else {
      PullingPass(h, s, models, details);
    }
  }

  /** From any stored status two undisturbed passes store Ready and Synced, and a third stores nothing. */
  lemma TwoPassesSuffice(h: History, s1: Script, s2: Script, s3: Script, models: seq<string>, details: Details)
    requires Undisturbed(Last(h).obj, s1, models, details)
    requires var l2 := ListAfter(Last(h).obj, models);
      var h1 := RunPass(h, Fresh(h), s1).history;
      var h2 := RunPass(h1, Fresh(h1), s2).history;
      && Undisturbed(Last(h1).obj, s2, l2, details)
      && Undisturbed(Last(h2).obj, s3, ListAfter(Last(h1).obj, l2), details)
    ensures
      var h1 := RunPass(h, Fresh(h), s1).history;
      var h2 := RunPass(h1, Fresh(h1), s2).history;
      && Up(Last(h2).obj)
      && RunPass(h2, Fresh(h2), s3).history == h2
  {
    var l2 := ListAfter(Last(h).obj, models);
    PassConverges(h, s1, models, details);
    var h1 := RunPass(h, Fresh(h), s1).history;
    PassConverges(h1, s2, l2, details);
    var h2 := RunPass(h1, Fresh(h1), s2).history;
    var l3 := ListAfter(Last(h1).obj, l2);
    PassConverges(h2, s3, l3, details);
    SettledIsUp(Last(h2).obj, l3, details);
  }

  // ---------------------------------------------------------------- pulls, successful or not

  /**
   * One pass in which everything but the pull is well stores Ready=True exactly when ollama has the model, or the
   * stored status announces the pull and the pull succeeds; it leaves an announcement exactly when neither was there
   * before.
   */
  lemma PassOutcome(h: History, s: Script, models: seq<string>, details: Details)
    requires Unhindered(Last(h).obj, s, models) && s.answers.show == Done(details)
    ensures var m, m' := Last(h).obj, Last(RunPass(h, Fresh(h), s).history).obj;
      var here, announced := m.spec.model in models, Announces(m.Ready(), m.spec.model);
      && m'.spec == m.spec
      && (Up(m') <==> here || (announced && PullSucceeds(s)))
      && (m'.Ready().status == True <==> Up(m'))
      && (Announces(m'.Ready(), m'.spec.model) <==> !here && !announced)
  {
    var m, m' := Last(h).obj, Last(RunPass(h, Fresh(h), s).history).obj;
    if m.spec.model in models {
      ListedPass(h, s, models, details);
      SettledIsUp(m', models, details);
    } else if !Announces(m.Ready(), m.spec.model) {
      AnnouncingPass(h, s, models);
    } else if PullSucceeds(s) {
      PullingPass(h, s, models, details);
      SettledIsUp(m', models + [m.spec.model], details);
    } else {
      PullFails(h, s, models);
      DownAnnouncesNothing(m', m.spec.model);
    }
  }

  /**
   * With everything but the pull well, two passes over any stored status make the Model Ready and Synced if and only if
   * ollama has the model, or the pull succeeds in the pass that pulls: the first if the stored status announces
   * already, the second otherwise. Ollama lists the model afterwards if it did before or that first pull succeeded.
   */
  lemma TwoPassesReady(h: History, s1: Script, s2: Script, models: seq<string>, later: seq<string>, details: Details)
    requires Unhindered(Last(h).obj, s1, models) && s1.answers.show == Done(details)
    requires var h1 := RunPass(h, Fresh(h), s1).history;
      Unhindered(Last(h1).obj, s2, later) && s2.answers.show == Done(details)
    requires var m := Last(h).obj;
      m.spec.model in later <==> m.spec.model in models || (Announces(m.Ready(), m.spec.model) && PullSucceeds(s1))
    ensures
      var m := Last(h).obj;
      var h1 := RunPass(h, Fresh(h), s1).history;
      var h2 := RunPass(h1, Fresh(h1), s2).history;
      Up(Last(h2).obj) <==>
        || m.spec.model in models
        || PullSucceeds(if Announces(m.Ready(), m.spec.model) then s1 else s2)
  {
    PassOutcome(h, s1, models, details);
    PassOutcome(RunPass(h, Fresh(h), s1).history, s2, later, details);
  }

  /** A sequence of passes, each over what the one before stored. */
  function Passes(h: History, scripts: seq<Script>): History
    decreases |scripts|
  {
    if scripts == [] then h else Passes(RunPass(h, Fresh(h), scripts[0]).history, scripts[1..])
  }

  function PullsAmong(h: History, scripts: seq<Script>): nat
    decreases |scripts|
  {
    if scripts == [] then 0
    else
      (if Pulls(Last(h).obj, scripts[0]) then 1 else 0)
        + PullsAmong(RunPass(h, Fresh(h), scripts[0]).history, scripts[1..])
  }

  /** Passes in which ollama lacks the model and the pull, where a pass comes to it, does not succeed. */
  ghost predicate Fruitless(h: History, scripts: seq<Script>, models: seq<string>)
    decreases |scripts|
  {
    scripts == [] ||
    ( && Unhindered(Last(h).obj, scripts[0], models) && Last(h).obj.spec.model !in models
      && (Pulls(Last(h).obj, scripts[0]) ==> !PullSucceeds(scripts[0]))
      && Fruitless(RunPass(h, Fresh(h), scripts[0]).history, scripts[1..], models))
  }

  lemma FruitlessPass(h: History, s: Script, models: seq<string>)
    requires Unhindered(Last(h).obj, s, models) && Last(h).obj.spec.model !in models
    requires Pulls(Last(h).obj, s) ==> !PullSucceeds(s)
    ensures var m, m' := Last(h).obj, Last(RunPass(h, Fresh(h), s).history).obj;
      && m'.spec == m.spec && m'.Ready().status == False
      && (Announces(m.Ready(), m.spec.model) <==> Pulls(m, s))
      && (Announces(m'.Ready(), m'.spec.model) <==> !Pulls(m, s))
  {
    var m, m' := Last(h).obj, Last(RunPass(h, Fresh(h), s).history).obj;
    if Announces(m.Ready(), m.spec.model) {
      PullFails(h, s, models);
      DownAnnouncesNothing(m', m.spec.model);
    } else {
      AnnouncingPass(h, s, models);
    }
  }

  /**
   * With pulls that never succeed the controller never settles: announcing and pulling alternate without end, and after
   * any number of passes the Model is not Ready.
   */
  lemma {:induction false} FruitlessNeverSettles(h: History, scripts: seq<Script>, models: seq<string>)
    requires Fruitless(h, scripts, models)
    ensures scripts != [] ==> Last(Passes(h, scripts)).obj.Ready().status == False
    ensures PullsAmong(h, scripts) ==
      if Announces(Last(h).obj.Ready(), Last(h).obj.spec.model) then (|scripts| + 1) / 2 else |scripts| / 2
    decreases |scripts|
  {
    if scripts != [] {
      FruitlessPass(h, scripts[0], models);
      FruitlessNeverSettles(RunPass(h, Fresh(h), scripts[0]).history, scripts[1..], models);
    }
  }

  /** A script whose pull fails at once. */
  const UNKNOWN_MODEL: Script := Script(
    Answers(Done([]), StsState(true, ""), Done([]), Some("pull model manifest: file does not exist"),
            Failed("not asked"), Accepted, 1, 1, 1),
    0, [], [])

  lemma {:induction false} UnknownIsFruitless(h: History, n: nat)
    ensures Fruitless(h, seq(n, i => UNKNOWN_MODEL), [])
    decreases n
  {
    if n > 0 {
      var scripts := seq(n, i => UNKNOWN_MODEL);
      assert scripts[1..] == seq(n - 1, i => UNKNOWN_MODEL);
      UnknownIsFruitless(RunPass(h, Fresh(h), UNKNOWN_MODEL).history, n - 1);
    }
  }

  /** A Model that ollama does not know stays down: no number of passes makes it Ready. */
  lemma UnknownModelStaysDown(n: nat)
    ensures var h := [Entry(Model(1, ModelSpec("", "nope"), ModelStatus([], 0, "", None)), Created)];
      Last(Passes(h, seq(n, i => UNKNOWN_MODEL))).obj.Ready().status != True
  {
    var h: History := [Entry(Model(1, ModelSpec("", "nope"), ModelStatus([], 0, "", None)), Created)];
    UnknownIsFruitless(h, n);
    FruitlessNeverSettles(h, seq(n, i => UNKNOWN_MODEL), []);
  }

  // ---------------------------------------------------------------- how often a pull patches

  /** How many progress patches a pull sends. */
  function Patches(h: History, p: Pulling, beats: seq<Beat>): nat
    decreases |beats|
  {
    if beats == [] then 0
    else
      var s := OnProgress(Extend(h, beats[0].foreign), p, beats[0].event);
      (if Due(p, beats[0].event) then 1 else 0) + if s.err.Some? then 0 else Patches(s.history, s.pulling, beats[1..])
  }

  /** Readings of one clock that does not go back: from `from`, through the beats, up to `until`. */
  predicate Monotone(from: int, beats: seq<Beat>, until: int)
    decreases |beats|
  {
    if beats == [] then from <= until
    else from <= beats[0].event.now <= beats[0].event.restart && Monotone(beats[0].event.restart, beats[1..], until)
  }

  lemma {:induction false} MonotoneBounds(from: int, beats: seq<Beat>, until: int)
    requires Monotone(from, beats, until)
    ensures from <= until
    decreases |beats|
  {
    if beats != [] { MonotoneBounds(beats[0].event.restart, beats[1..], until); }
  }

  /** A pull that sent n > 0 progress patches has run for more than 5n seconds, whatever ollama streamed. */
  lemma {:induction false} PatchRate(h: History, p: Pulling, beats: seq<Beat>, from: int, until: int)
    requires p.since <= from && Monotone(from, beats, until)
    ensures var n := Patches(h, p, beats); n > 0 ==> until - p.since > n * 5_000_000_000
    decreases |beats|
  {
    if beats != [] {
      MonotoneBounds(from, beats, until);
      MonotoneBounds(beats[0].event.restart, beats[1..], until);
      var s := OnProgress(Extend(h, beats[0].foreign), p, beats[0].event);
      PatchRate(s.history, s.pulling, beats[1..], beats[0].event.restart, until);
    }
  }
}
