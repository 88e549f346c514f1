/**
 * Any number of passes over one stored Model, as a state machine. A step is one interaction with the API server or
 * with ollama; a run is any sequence of steps, so it may read stale versions, interleave passes, lose replies, drop
 * passes at any point and edit the spec at any time.
 */
module ModelProtocol {
  import opened Common
  import opened Conditions
  import opened ModelPass
  import opened VersionedStore

  /** A pass on its way: in its pull, or with a final status that it has not yet written. */
  datatype Flight =
    | InPull(pulling: Pulling, read: nat)
    | AtWrite(version: nat, status: ModelStatus, how: Ending, err: Option<string>, requeue: Requeue,
      pulledFrom: Option<nat>)

  /** A call of Pull: the model asked for and the version the pass had read. */
  datatype PullCall = PullCall(model: string, read: nat)

  datatype Sys = Sys(
    history: History,
    flights: map<nat, Flight>,
    pulls: seq<PullCall>,
    pullers: map<nat, nat>)  // versions stored by passes that pulled, with the version such a pass had read

  datatype Step =
    | Begin(id: nat, version: nat, answers: Answers, pullStart: int)
    | Callback(id: nat, event: Progress, answers: Answers)
    | EndPull(id: nat, answers: Answers)
    | Write(id: nat, reply: Reply)
    | Crash(id: nat)
    | Edit(spec: ModelSpec)
    | Touch

  function InitSys(spec: ModelSpec): Sys {
    Sys([Entry(Model(1, spec, ModelStatus([], 0, "", None)), Created)], map[], [], map[])
  }

  function ToWrite(version: nat, stage: Stage, a: Answers, pulledFrom: Option<nat>): Flight
    requires stage.Ended?
  {
    AtWrite(version, Deferred(stage.obj, stage.err, a).status, stage.how, stage.err, stage.requeue, pulledFrom)
  }

  function DoBegin(s: Sys, st: Step): Sys
    requires st.Begin? && st.version < |s.history|
  {
    var copy := Copy(st.version, s.history[st.version].obj);
    var probe := Probe(copy.obj, st.answers);
    if probe.MustPull? then
      s.(flights := s.flights[st.id := InPull(Pulling(copy, st.pullStart, ""), st.version)],
         pulls := s.pulls + [PullCall(copy.obj.spec.model, st.version)])
    else
      s.(flights := s.flights[st.id := ToWrite(st.version, Closed(probe, st.answers), st.answers, None)])
  }

  function FinishPull(s: Sys, id: nat, f: Flight, err: Option<string>, a: Answers): Sys
    requires f.InPull?
  {
    var stage := AfterPull(f.pulling.copy.obj, f.pulling.status, err, a);
    s.(flights := s.flights[id := ToWrite(f.pulling.copy.version, Closed(stage, a), a, Some(f.read))])
  }

  function DoCallback(s: Sys, st: Step): Sys
    requires st.Callback? && st.id in s.flights && s.flights[st.id].InPull?
  {
    var f := s.flights[st.id];
    var streamed := OnProgress(s.history, f.pulling, st.event);
    var f' := InPull(streamed.pulling, f.read);
    var s' := s.(history := streamed.history, flights := s.flights[st.id := f']);
    if streamed.err.Some? then FinishPull(s', st.id, f', streamed.err, st.answers) else s'
  }

  function DoWrite(s: Sys, st: Step): Sys
    requires st.Write? && st.id in s.flights && s.flights[st.id].AtWrite?
  {
    var f := s.flights[st.id];
    var w := Update(s.history, f.version, f.status, f.how, st.reply);
    s.(history := w.history, flights := s.flights - {st.id},
       pullers := if |w.history| > |s.history| && f.pulledFrom.Some?
                  then s.pullers[|s.history| := f.pulledFrom.value] else s.pullers)
  }

  function DoEdit(s: Sys, spec: ModelSpec): Sys {
    var m := Last(s.history).obj;
    if m.spec == spec then s
    else s.(history := s.history + [Entry(m.(spec := spec, generation := m.generation + 1), SpecEdited)])
  }

  /** One step; a step that is not possible in a state changes nothing. */
  function Apply(s: Sys, st: Step): Sys {
    match st
    case Begin(id, version, _, _) => if version < |s.history| && id !in s.flights then DoBegin(s, st) else s
    case Callback(id, _, _) => if id in s.flights && s.flights[id].InPull? then DoCallback(s, st) else s
    case EndPull(id, a) =>
      if id in s.flights && s.flights[id].InPull? then FinishPull(s, id, s.flights[id], a.pullEnd, a) else s
    case Write(id, _) => if id in s.flights && s.flights[id].AtWrite? then DoWrite(s, st) else s
    case Crash(id) => s.(flights := s.flights - {id})
    case Edit(spec) => DoEdit(s, spec)
    case Touch => s.(history := s.history + [Entry(Last(s.history).obj, Touched)])
  }

  function Run(s: Sys, steps: seq<Step>): Sys
    decreases |steps|
  {
    if steps == [] then s else Run(Apply(s, steps[0]), steps[1..])
  }

  // ---------------------------------------------------------------- what a status says about its writer

  const GOOD_SYNC: Content := Payload(True, REASON_RECONCILE_SUCCESS, "")
  const OPEN: map<string, Content> := map[TYPE_READY := Payload(True, REASON_AVAILABLE, ""), TYPE_SYNCED := GOOD_SYNC]

  function Two(ready: Content, synced: Content): map<string, Content> {
    map[TYPE_READY := ready, TYPE_SYNCED := synced]
  }

  /** The Ready condition a pass leaves, by its ending; two endings carry a free message. */
  predicate ReadyFits(how: Ending, ready: Content) {
    match how
    case Errored => ready == Payload(False, REASON_UNAVAILABLE, "")
    case StsMissing => ready == Payload(False, REASON_CREATING, "")
    case StsWaiting => ready.status == False && ready.reason == REASON_UNAVAILABLE
    case Announced(model) => ready == Payload(False, REASON_CREATING, PullingMessage(model))
    case PullIncomplete => ready.status == False && ready.reason == REASON_UNAVAILABLE
    case BecameAvailable => ready == Payload(True, REASON_AVAILABLE, "")
  }

  predicate SyncedFits(how: Ending, synced: Content) {
    if how.Errored? then synced.status == False && synced.reason == REASON_RECONCILE_ERROR else synced == GOOD_SYNC
  }

  predicate PassFits(how: Ending, m: map<string, Content>) {
    m.Keys == {TYPE_READY, TYPE_SYNCED} && ReadyFits(how, m[TYPE_READY]) && SyncedFits(how, m[TYPE_SYNCED])
  }

  predicate IsProgressText(s: string) { |s| > 1 && s[..2] == "Pr" }

  /** What the conditions look like after a write of the given origin. */
  predicate Fits(origin: Origin, m: map<string, Content>) {
    match origin
    case Created => m == map[]
    case Progressed =>
      && m.Keys == {TYPE_READY, TYPE_SYNCED} && m[TYPE_SYNCED] == GOOD_SYNC
      && m[TYPE_READY].status == False && m[TYPE_READY].reason == REASON_CREATING
      && IsProgressText(m[TYPE_READY].message)
    case PassEnded(how) => PassFits(how, m)
    case _ => false
  }

  /** The version at or before v whose writer stored the status that v carries: edits of the rest do not count. */
  function Writer(h: seq<Version>, v: nat): (w: nat)
    requires v < |h|
    ensures w <= v
  {
    if v > 0 && (h[v].origin.SpecEdited? || h[v].origin.Touched?) then Writer(h, v - 1) else v
  }

  lemma {:induction false} WriterPrefix(h: seq<Version>, k: seq<Version>, v: nat)
    requires v < |h|
    ensures Writer(h + k, v) == Writer(h, v)
  {
    assert (h + k)[v] == h[v];
    if v > 0 { WriterPrefix(h, k, v - 1); }
  }

  /** Generations: conditions are never ahead of the status, the status never ahead of the object. */
  ghost predicate StatusOk(st: ModelStatus, generation: int) {
    && DistinctTypes(st.conditions)
    && st.observedGeneration <= generation
    && forall i :: 0 <= i < |st.conditions| ==> CondOk(st.conditions[i], st.observedGeneration)
  }

  predicate CondOk(c: Condition, bound: int) { c.ctype in {TYPE_READY, TYPE_SYNCED} && c.observedGeneration <= bound }

  ghost predicate EntryOk(h: seq<Version>, v: nat)
    requires v < |h|
  {
    var w := h[Writer(h, v)];
    && h[v].obj.status == w.obj.status
    && Fits(w.origin, AsMap(h[v].obj.status.conditions))
    && StatusOk(h[v].obj.status, h[v].obj.generation)
    && (v > 0 ==> h[v - 1].obj.generation <= h[v].obj.generation)
  }

  ghost predicate HistoryOk(h: seq<Version>) { forall v :: 0 <= v < |h| ==> EntryOk(h, v) }

  ghost predicate FlightOk(h: seq<Version>, f: Flight) {
    match f
    case InPull(p, read) =>
      && p.copy.version < |h| && p.copy.obj == h[p.copy.version].obj
      && read < |h| && (exists m :: Announces(h[read].obj.Ready(), m))
    case AtWrite(version, status, how, _, _, pulledFrom) =>
      && version < |h|
      && StatusOk(status, h[version].obj.generation)
      && PassFits(how, AsMap(status.conditions))
      && (pulledFrom.Some? ==>
            pulledFrom.value < |h| && !how.Announced? && exists m :: Announces(h[pulledFrom.value].obj.Ready(), m))
  }

  ghost predicate PullOk(h: seq<Version>, c: PullCall) {
    c.read < |h| && c.model == h[c.read].obj.spec.model && Announces(h[c.read].obj.Ready(), c.model)
  }

  ghost predicate PullerOk(h: seq<Version>, v: nat, read: nat) {
    && v < |h| && h[v].origin.PassEnded? && !h[v].origin.how.Announced?
    && read < v && exists m :: Announces(h[read].obj.Ready(), m)
  }

  ghost predicate Inv(s: Sys) {
    && HistoryOk(s.history)
    && (forall id :: id in s.flights ==> FlightOk(s.history, s.flights[id]))
    && (forall i :: 0 <= i < |s.pulls| ==> PullOk(s.history, s.pulls[i]))
    && (forall v :: v in s.pullers ==> PullerOk(s.history, v, s.pullers[v]))
  }

  // ---------------------------------------------------------------- preservation

  lemma OneMap(cs: seq<Condition>, c: Condition, generation: int)
    ensures AsMap(SetAll(cs, Stamp([c], generation))) == AsMap(cs)[c.ctype := c.Content()]
    ensures SetAll(cs, Stamp([c], generation)) == SetOne(cs, c.WithObservedGeneration(generation))
  {
    var news := Stamp([c], generation);
    assert news[1..] == [];
    SetOneMap(cs, news[0]);
    assert SetAll(SetOne(cs, news[0]), news[1..]) == SetOne(cs, news[0]);
  }

  /** Setting a stamped condition keeps a status in order. */
  lemma WithOk(m: Model, c: Condition)
    requires StatusOk(m.status, m.generation) && c.ctype in {TYPE_READY, TYPE_SYNCED}
    requires m.status.observedGeneration == m.generation
    ensures StatusOk(m.With([c]).status, m.generation)
    ensures AsMap(m.With([c]).status.conditions) == AsMap(m.status.conditions)[c.ctype := c.Content()]
  {
    var stamped := c.WithObservedGeneration(m.generation);
    OneMap(m.status.conditions, c, m.generation);
    SetAllKeepsPositions(m.status.conditions, Stamp([c], m.generation));
    var cs, one := m.status.conditions, SetOne(m.status.conditions, stamped);
    forall i | 0 <= i < |one|
      ensures CondOk(one[i], m.generation)
    {
      if i < |cs| { assert one[i] == Cell(cs[i], stamped); }
    }
  }

  /** The same before the observed generation has been raised: nothing overtakes the object's generation. */
  ghost predicate LooseOk(m: Model) {
    && DistinctTypes(m.status.conditions)
    && forall i :: 0 <= i < |m.status.conditions| ==> CondOk(m.status.conditions[i], m.generation)
  }

  lemma WithLoose(m: Model, c: Condition)
    requires LooseOk(m) && c.ctype in {TYPE_READY, TYPE_SYNCED}
    ensures LooseOk(m.With([c])) && m.With([c]).generation == m.generation
    ensures AsMap(m.With([c]).status.conditions) == AsMap(m.status.conditions)[c.ctype := c.Content()]
  {
    var raised := m.(status := m.status.(observedGeneration := m.generation));
    WithOk(raised, c);
    assert raised.With([c]).status.conditions == m.With([c]).status.conditions;
  }

  lemma DeferredOk(m: Model, err: Option<string>, a: Answers)
    requires LooseOk(m)
    ensures var st := Deferred(m, err, a).status;
      && StatusOk(st, m.generation)
      && AsMap(st.conditions) ==
           if err.Some? then
             AsMap(m.status.conditions)[TYPE_SYNCED := Payload(False, REASON_RECONCILE_ERROR, err.value)]
                                                       [TYPE_READY := Payload(False, REASON_UNAVAILABLE, "")]
           else AsMap(m.status.conditions)[TYPE_SYNCED := GOOD_SYNC]
  {
    var m1 := m.Observed();
    match err
    case Some(e) =>
      WithOk(m1, ReconcileError(e, a.syncedTime));
      WithOk(m1.With([ReconcileError(e, a.syncedTime)]), Unavailable(a.failedTime));
    case None =>
      WithOk(m1, ReconcileSuccess(a.syncedTime));
  }

  ghost predicate OnlyTwo(m: map<string, Content>) { m.Keys <= {TYPE_READY, TYPE_SYNCED} }

  /** A stage that ended: an error, or a Ready condition that fits the ending. */
  ghost predicate StageOk(stage: Stage, generation: int) {
    && stage.obj.generation == generation
    && LooseOk(stage.obj) && OnlyTwo(AsMap(stage.obj.status.conditions))
    && (stage.Ended? ==>
          && (stage.err.Some? <==> stage.how.Errored?)
          && (stage.err.None? ==>
                TYPE_READY in AsMap(stage.obj.status.conditions)
                && ReadyFits(stage.how, AsMap(stage.obj.status.conditions)[TYPE_READY])))
  }

  lemma ToWriteOk(version: nat, stage: Stage, a: Answers, pulledFrom: Option<nat>, generation: int)
    requires stage.Ended? && StageOk(stage, generation)
    ensures var f := ToWrite(version, stage, a, pulledFrom);
      StatusOk(f.status, generation) && PassFits(f.how, AsMap(f.status.conditions))
  {
    DeferredOk(stage.obj, stage.err, a);
    assert TYPE_READY != TYPE_SYNCED;
  }

  lemma WithStage(m: Model, c: Condition, how: Ending)
    requires LooseOk(m) && OnlyTwo(AsMap(m.status.conditions)) && c.ctype == TYPE_READY
    requires ReadyFits(how, c.Content()) && !how.Errored?
    ensures forall r: Requeue :: StageOk(Ended(m.With([c]), None, r, how), m.generation)
    ensures forall e: string :: StageOk(Fail(m.With([c]), e), m.generation)
  {
    WithLoose(m, c);
  }

  lemma ProbeOk(m: Model, a: Answers)
    requires LooseOk(m) && OnlyTwo(AsMap(m.status.conditions))
    ensures StageOk(Probe(m, a), m.generation)
    ensures Probe(m, a).MustPull? ==> Announces(m.Ready(), m.spec.model) && Probe(m, a).obj == m
  {
    if a.resources.Done? && FirstFailure(a.resources.value).None? {
      match a.sts
      case StsNotFound => WithStage(m, Creating(a.readyTime), StsMissing);
      case StsGetFailed(e) =>
      case StsViewFailed(e) => WithStage(m, Unavailable(a.readyTime), StsWaiting);
      case StsState(ready, message) =>
        if ready {
          WithStage(m, Announcement(m.spec.model, a.readyTime), Announced(m.spec.model));
        } else {
          WithStage(m, Unavailable(a.readyTime).WithMessage(TrimSuffix(message, "...\n")), StsWaiting);
        }
    }
  }

  lemma ClosedOk(stage: Stage, a: Answers, generation: int)
    requires !stage.MustPull? && StageOk(stage, generation)
    ensures StageOk(Closed(stage, a), generation)
    ensures Closed(stage, a).how.Announced? ==> stage == Closed(stage, a)
  {
    if stage.MustShow? {
      var m := stage.obj;
      WithStage(m, Unavailable(a.readyTime), StsWaiting);
      if a.show.Done? {
        var m1 := m.(status := m.status.(details := Some(a.show.value)));
        WithStage(m1, Available(a.readyTime), BecameAvailable);
      }
    }
  }

  lemma AfterPullOk(m: Model, status: string, err: Option<string>, a: Answers)
    requires LooseOk(m) && OnlyTwo(AsMap(m.status.conditions))
    ensures StageOk(Closed(AfterPull(m, status, err, a), a), m.generation)
    ensures !Closed(AfterPull(m, status, err, a), a).how.Announced?
  {
    WithStage(m, Unavailable(a.readyTime).WithMessage("Model hasn't been pulled successfully, retrying"),
      PullIncomplete);
    ClosedOk(AfterPull(m, status, err, a), a, m.generation);
  }

  lemma StoredLoose(h: seq<Version>, v: nat)
    requires HistoryOk(h) && v < |h|
    ensures LooseOk(h[v].obj) && OnlyTwo(AsMap(h[v].obj.status.conditions))
  {
    assert EntryOk(h, v);
    var cs := h[v].obj.status.conditions;
    forall t | t in AsMap(cs)
      ensures t in {TYPE_READY, TYPE_SYNCED}
    {
      AsMapDomain(cs, t);
      var i :| 0 <= i < |cs| && cs[i].ctype == t;
    }
  }

  lemma {:induction false} GenerationsRise(h: seq<Version>, u: nat, v: nat)
    requires HistoryOk(h) && u <= v < |h|
    ensures h[u].obj.generation <= h[v].obj.generation
    decreases v
  {
    if u < v {
      GenerationsRise(h, u, v - 1);
      assert EntryOk(h, v);
    }
  }

  /** A new version in order keeps the history in order. */
  lemma AppendOk(h: History, e: Version)
    requires HistoryOk(h) && Last(h).obj.generation <= e.obj.generation
    requires StatusOk(e.obj.status, e.obj.generation)
    requires if e.origin.SpecEdited? || e.origin.Touched? then e.obj.status == Last(h).obj.status
             else Fits(e.origin, AsMap(e.obj.status.conditions))
    ensures HistoryOk(h + [e])
  {
    var k := h + [e];
    forall v | 0 <= v < |k|
      ensures EntryOk(k, v)
    {
      if v < |h| {
        assert EntryOk(h, v);
        WriterPrefix(h, [e], v);
      } else {
        assert EntryOk(h, |h| - 1);
        WriterPrefix(h, [e], |h| - 1);
      }
    }
  }

  lemma GrowFlight(h: seq<Version>, k: seq<Version>, f: Flight)
    requires FlightOk(h, f) && |h| <= |k| && h == k[..|h|]
    ensures FlightOk(k, f)
  {
    assert forall v :: 0 <= v < |h| ==> k[v] == h[v];
  }

  lemma GrowRecords(s: Sys, k: seq<Version>)
    requires Inv(s) && |s.history| <= |k| && s.history == k[..|s.history|]
    ensures forall i :: 0 <= i < |s.pulls| ==> PullOk(k, s.pulls[i])
    ensures forall v :: v in s.pullers ==> PullerOk(k, v, s.pullers[v])
  {
    var h := s.history;
    assert forall v :: 0 <= v < |h| ==> k[v] == h[v];
    forall i | 0 <= i < |s.pulls|
      ensures PullOk(k, s.pulls[i])
    {
      assert PullOk(h, s.pulls[i]);
    }
    forall v | v in s.pullers
      ensures PullerOk(k, v, s.pullers[v])
    {
      assert PullerOk(h, v, s.pullers[v]);
    }
  }

  /** Everything that is said of versions stays true when further versions are stored. */
  lemma Grow(s: Sys, k: History)
    requires Inv(s) && HistoryOk(k) && |s.history| <= |k| && s.history == k[..|s.history|]
    ensures Inv(s.(history := k))
  {
    GrowRecords(s, k);
    forall id | id in s.flights
      ensures FlightOk(k, s.flights[id])
    {
      GrowFlight(s.history, k, s.flights[id]);
    }
  }

  lemma SetFlight(s: Sys, id: nat, f: Flight)
    requires Inv(s) && FlightOk(s.history, f)
    ensures Inv(s.(flights := s.flights[id := f]))
  {
  }

  lemma {:induction false} UpsertMap(cs: seq<Condition>, c: Condition)
    ensures AsMap(Upsert(cs, c)) == AsMap(cs)[c.ctype := c.Content()]
  {
    if cs == [] {
      assert Upsert(cs, c)[1..] == [];
    } else if cs[0].ctype == c.ctype {
      assert Upsert(cs, c)[1..] == cs[1..];
    } else {
      assert Upsert(cs, c)[1..] == Upsert(cs[1..], c);
      UpsertMap(cs[1..], c);
    }
  }

  lemma {:induction false} UpsertLookup(cs: seq<Condition>, c: Condition, t: string)
    ensures Lookup(Upsert(cs, c), t) == if t == c.ctype then c else Lookup(cs, t)
  {
    if cs == [] {
      assert Upsert(cs, c)[1..] == [];
    } else if cs[0].ctype == c.ctype {
      assert Upsert(cs, c)[1..] == cs[1..];
    } else {
      assert Upsert(cs, c)[1..] == Upsert(cs[1..], c);
      UpsertLookup(cs[1..], c, t);
    }
  }

  lemma {:induction false} UpsertDistinct(cs: seq<Condition>, c: Condition)
    requires DistinctTypes(cs)
    ensures DistinctTypes(Upsert(cs, c))
  {
    if cs != [] {
      if cs[0].ctype == c.ctype {
        assert Upsert(cs, c)[1..] == cs[1..];
      } else {
        var up := Upsert(cs, c);
        var rest := Upsert(cs[1..], c);
        UpsertDistinct(cs[1..], c);
        UpsertMap(cs[1..], c);
        AsMapDomain(cs[1..], cs[0].ctype);
        AsMapDomain(rest, cs[0].ctype);
        assert !HasType(cs[1..], cs[0].ctype);
        assert !HasType(rest, cs[0].ctype);
        forall i, j | 0 <= i < j < |up|
          ensures up[i].ctype != up[j].ctype
        {
          assert up[j] == rest[j - 1];
          if i > 0 { assert up[i] == rest[i - 1]; }
        }
      }
    }
  }

  lemma ProgressText(e: Progress)
    requires e.total != 0
    ensures IsProgressText(ProgressMessage(e))
  {
    var text := ProgressMessage(e);
    assert text[0] == 'P' && text[1] == 'r' && text[..2] == [text[0], text[1]];
  }

  /** Over a list with these two types only, applying both leaves exactly the two supplied conditions. */
  lemma UpsertBoth(cs: seq<Condition>, ready: Condition, synced: Condition)
    requires DistinctTypes(cs) && OnlyTwo(AsMap(cs))
    requires ready.ctype == TYPE_READY && synced.ctype == TYPE_SYNCED
    ensures var two := Upsert(Upsert(cs, ready), synced);
      && DistinctTypes(two) && AsMap(two) == Two(ready.Content(), synced.Content())
      && forall i :: 0 <= i < |two| ==> two[i] == ready || two[i] == synced
  {
    var one := Upsert(cs, ready);
    var two := Upsert(one, synced);
    UpsertMap(cs, ready);
    UpsertMap(one, synced);
    UpsertDistinct(cs, ready);
    UpsertDistinct(one, synced);
    assert AsMap(two).Keys == {TYPE_READY, TYPE_SYNCED};
    forall i | 0 <= i < |two|
      ensures two[i] == ready || two[i] == synced
    {
      LookupFinds(two, i);
      assert HasType(two, two[i].ctype);
      AsMapDomain(two, two[i].ctype);
      UpsertLookup(one, synced, two[i].ctype);
      UpsertLookup(cs, ready, two[i].ctype);
    }
  }

  lemma PatchedOk(stored: Model, generation: int, e: Progress)
    requires StatusOk(stored.status, stored.generation) && generation <= stored.generation && e.total != 0
    requires OnlyTwo(AsMap(stored.status.conditions))
    ensures var p := Patched(stored, generation, e);
      && p.generation == stored.generation && p.spec == stored.spec
      && StatusOk(p.status, p.generation)
      && Fits(Progressed, AsMap(p.status.conditions))
  {
    var ready := Creating(e.readyTime).WithObservedGeneration(generation).WithMessage(ProgressMessage(e));
    var synced := ReconcileSuccess(e.syncedTime).WithObservedGeneration(generation);
    UpsertBoth(stored.status.conditions, ready, synced);
    ProgressText(e);
  }

  lemma PatchOk(h: History, copy: Copy, e: Progress)
    requires HistoryOk(h) && e.total != 0 && copy.version < |h| && copy.obj == h[copy.version].obj
    ensures var k := Patch(h, copy, e); HistoryOk(k) && |h| <= |k| && k[..|h|] == h
  {
    if !e.reply.Rejected? {
      StoredLoose(h, |h| - 1);
      GenerationsRise(h, copy.version, |h| - 1);
      assert EntryOk(h, |h| - 1);
      PatchedOk(Last(h).obj, copy.obj.generation, e);
      AppendOk(h, Entry(Patched(Last(h).obj, copy.obj.generation, e), Progressed));
    }
  }

  lemma BeginFlight(h: seq<Version>, version: nat, a: Answers)
    requires HistoryOk(h) && version < |h|
    ensures var probe := Probe(h[version].obj, a);
      if probe.MustPull? then Announces(h[version].obj.Ready(), h[version].obj.spec.model)
      else FlightOk(h, ToWrite(version, Closed(probe, a), a, None))
  {
    var obj := h[version].obj;
    StoredLoose(h, version);
    ProbeOk(obj, a);
    var probe := Probe(obj, a);
    if !probe.MustPull? {
      ClosedOk(probe, a, obj.generation);
      ToWriteOk(version, Closed(probe, a), a, None, obj.generation);
    }
  }

  lemma AddPull(s: Sys, c: PullCall)
    requires Inv(s) && PullOk(s.history, c)
    ensures Inv(s.(pulls := s.pulls + [c]))
  {
  }

  lemma BeginInv(s: Sys, st: Step)
    requires Inv(s) && st.Begin? && st.version < |s.history|
    ensures Inv(DoBegin(s, st))
  {
    var copy := Copy(st.version, s.history[st.version].obj);
    BeginFlight(s.history, st.version, st.answers);
    var probe := Probe(copy.obj, st.answers);
    if probe.MustPull? {
      AddPull(s, PullCall(copy.obj.spec.model, st.version));
      SetFlight(s.(pulls := s.pulls + [PullCall(copy.obj.spec.model, st.version)]), st.id,
                InPull(Pulling(copy, st.pullStart, ""), st.version));
    } else {
      SetFlight(s, st.id, ToWrite(st.version, Closed(probe, st.answers), st.answers, None));
    }
  }

  lemma FinishPullInv(s: Sys, id: nat, f: Flight, err: Option<string>, a: Answers)
    requires Inv(s) && f.InPull? && FlightOk(s.history, f)
    ensures Inv(FinishPull(s, id, f, err, a))
  {
    var copy := f.pulling.copy;
    StoredLoose(s.history, copy.version);
    AfterPullOk(copy.obj, f.pulling.status, err, a);
    var stage := Closed(AfterPull(copy.obj, f.pulling.status, err, a), a);
    ToWriteOk(copy.version, stage, a, Some(f.read), copy.obj.generation);
    SetFlight(s, id, ToWrite(copy.version, stage, a, Some(f.read)));
  }

  lemma OnProgressOk(h: History, f: Flight, e: Progress)
    requires HistoryOk(h) && f.InPull? && FlightOk(h, f)
    ensures var r := OnProgress(h, f.pulling, e);
      && HistoryOk(r.history) && |h| <= |r.history| && r.history[..|h|] == h
      && FlightOk(r.history, InPull(r.pulling, f.read))
  {
    var r := OnProgress(h, f.pulling, e);
    if Due(f.pulling, e) {
      PatchOk(h, f.pulling.copy, e);
    }
    assert r.history[f.read] == h[f.read];
    assert r.history[f.pulling.copy.version] == h[f.pulling.copy.version];
  }

  lemma CallbackInv(s: Sys, st: Step)
    requires Inv(s) && st.Callback? && st.id in s.flights && s.flights[st.id].InPull?
    ensures Inv(DoCallback(s, st))
  {
    var f := s.flights[st.id];
    assert FlightOk(s.history, f);
    var streamed := OnProgress(s.history, f.pulling, st.event);
    OnProgressOk(s.history, f, st.event);
    Grow(s, streamed.history);
    var f' := InPull(streamed.pulling, f.read);
    SetFlight(s.(history := streamed.history), st.id, f');
    var s' := s.(history := streamed.history, flights := s.flights[st.id := f']);
    if streamed.err.Some? {
      FinishPullInv(s', st.id, f', streamed.err, st.answers);
    }
  }

  lemma UpdateOk(h: History, f: Flight, reply: Reply)
    requires HistoryOk(h) && f.AtWrite? && FlightOk(h, f)
    ensures var k := Update(h, f.version, f.status, f.how, reply).history;
      && HistoryOk(k) && |h| <= |k| <= |h| + 1 && k[..|h|] == h
      && (|k| > |h| ==> k[|h|].origin == PassEnded(f.how) && f.version == |h| - 1)
  {
    var k := Update(h, f.version, f.status, f.how, reply).history;
    if k != h {
      var e := Entry(Last(h).obj.(status := f.status), PassEnded(f.how));
      assert k == h + [e];
      AppendOk(h, e);
    }
  }

  lemma WriteInv(s: Sys, st: Step)
    requires Inv(s) && st.Write? && st.id in s.flights && s.flights[st.id].AtWrite?
    ensures Inv(DoWrite(s, st))
  {
    var f := s.flights[st.id];
    assert FlightOk(s.history, f);
    UpdateOk(s.history, f, st.reply);
    var k := Update(s.history, f.version, f.status, f.how, st.reply).history;
    Grow(s, k);
    DropFlight(s.(history := k), st.id);
    if |k| > |s.history| && f.pulledFrom.Some? {
      assert k[f.pulledFrom.value] == s.history[f.pulledFrom.value];
      assert PullerOk(k, |s.history|, f.pulledFrom.value);
      AddPuller(s.(history := k, flights := s.flights - {st.id}), |s.history|, f.pulledFrom.value);
    }
  }

  lemma DropFlight(s: Sys, id: nat)
    requires Inv(s)
    ensures Inv(s.(flights := s.flights - {id}))
  {
  }

  lemma AddPuller(s: Sys, v: nat, read: nat)
    requires Inv(s) && PullerOk(s.history, v, read)
    ensures Inv(s.(pullers := s.pullers[v := read]))
  {
  }

  lemma EditInv(s: Sys, spec: ModelSpec)
    requires Inv(s)
    ensures Inv(DoEdit(s, spec))
  {
    var m := Last(s.history).obj;
    if m.spec != spec {
      assert EntryOk(s.history, |s.history| - 1);
      AppendOk(s.history, Entry(m.(spec := spec, generation := m.generation + 1), SpecEdited));
      Grow(s, DoEdit(s, spec).history);
    }
  }

  lemma TouchInv(s: Sys)
    requires Inv(s)
    ensures Inv(s.(history := s.history + [Entry(Last(s.history).obj, Touched)]))
  {
    assert EntryOk(s.history, |s.history| - 1);
    AppendOk(s.history, Entry(Last(s.history).obj, Touched));
    Grow(s, s.history + [Entry(Last(s.history).obj, Touched)]);
  }

  lemma StepInv(s: Sys, st: Step)
    requires Inv(s)
    ensures Inv(Apply(s, st))
  {
    match st
    case Begin(id, version, _, _) => if version < |s.history| && id !in s.flights { BeginInv(s, st); }
    case Callback(id, _, _) => if id in s.flights && s.flights[id].InPull? { CallbackInv(s, st); }
    case EndPull(id, a) =>
      if id in s.flights && s.flights[id].InPull? { FinishPullInv(s, id, s.flights[id], a.pullEnd, a); }
    case Write(id, _) => if id in s.flights && s.flights[id].AtWrite? { WriteInv(s, st); }
    case Crash(id) => DropFlight(s, id);
    case Edit(spec) => EditInv(s, spec);
    case Touch => TouchInv(s);
  }

  /** Versions are only ever added. */
  lemma StepGrows(s: Sys, st: Step)
    ensures |s.history| <= |Apply(s, st).history| && Apply(s, st).history[..|s.history|] == s.history
  {
  }

  lemma InitInv(spec: ModelSpec)
    ensures Inv(InitSys(spec))
  {
    assert EntryOk(InitSys(spec).history, 0);
  }

  lemma {:induction false} RunInv(s: Sys, steps: seq<Step>)
    requires Inv(s)
    ensures Inv(Run(s, steps))
    ensures |s.history| <= |Run(s, steps).history| && Run(s, steps).history[..|s.history|] == s.history
    decreases |steps|
  {
    if steps != [] {
      StepInv(s, steps[0]);
      StepGrows(s, steps[0]);
      RunInv(Apply(s, steps[0]), steps[1..]);
    }
  }

  // ---------------------------------------------------------------- theorems over all runs

  lemma GateIsOpen(m: Model, now: int, later: int)
    ensures AsMap(SetAll([], [Available(now), ReconcileSuccess(later)])) == OPEN
    ensures GateOpen(m) <==> DistinctTypes(m.status.conditions) && AsMap(m.status.conditions) == OPEN
  {
    var news := [Available(now), ReconcileSuccess(later)];
    var zero := [Available(0), ReconcileSuccess(0)];
    SetAllRefinesMap([], news);
    SetAllRefinesMap([], zero);
    assert news[1..] == [news[1]] && zero[1..] == [zero[1]] && news[1..][1..] == [] && zero[1..][1..] == [];
    assert Assign(map[], news) == map[TYPE_READY := news[0].Content()][TYPE_SYNCED := news[1].Content()] == OPEN;
    assert Assign(map[], zero) == map[TYPE_READY := zero[0].Content()][TYPE_SYNCED := zero[1].Content()] == OPEN;
  }

  /**
   * Every version that any run stores carries an open gate exactly when the last status stored up to it is the final
   * write of a pass that ended in Available. Progress patches and all other endings close the gate.
   */
  lemma GateTheorem(spec: ModelSpec, steps: seq<Step>, v: nat)
    requires v < |Run(InitSys(spec), steps).history|
    ensures var h := Run(InitSys(spec), steps).history;
      GateOpen(h[v].obj) <==> h[Writer(h, v)].origin == PassEnded(BecameAvailable)
  {
    InitInv(spec);
    RunInv(InitSys(spec), steps);
    var h := Run(InitSys(spec), steps).history;
    assert EntryOk(h, v);
    GateIsOpen(h[v].obj, 0, 0);
    FitsDecidesGate(h[Writer(h, v)].origin, AsMap(h[v].obj.status.conditions));
  }

  lemma FitsDecidesGate(origin: Origin, m: map<string, Content>)
    requires Fits(origin, m)
    ensures m == OPEN <==> origin == PassEnded(BecameAvailable)
  {
    assert TYPE_READY != TYPE_SYNCED;
    assert m == OPEN ==> TYPE_READY in m && m[TYPE_READY].status == True;
    if origin == PassEnded(BecameAvailable) {
      assert m[TYPE_READY] == OPEN[TYPE_READY] && m[TYPE_SYNCED] == OPEN[TYPE_SYNCED];
    }
  }

  /** In every stored version: Ready implies Synced, and generations are ordered. */
  lemma StoreInvariant(spec: ModelSpec, steps: seq<Step>, v: nat)
    requires v < |Run(InitSys(spec), steps).history|
    ensures var m := Run(InitSys(spec), steps).history[v].obj;
      && (Lookup(m.status.conditions, TYPE_READY).status == True ==>
            Lookup(m.status.conditions, TYPE_SYNCED).status == True)
      && (forall i :: 0 <= i < |m.status.conditions| ==>
            m.status.conditions[i].observedGeneration <= m.status.observedGeneration)
      && m.status.observedGeneration <= m.generation
      && DistinctTypes(m.status.conditions)
      && (forall i :: 0 <= i < |m.status.conditions| ==> m.status.conditions[i].ctype in {TYPE_READY, TYPE_SYNCED})
  {
    InitInv(spec);
    RunInv(InitSys(spec), steps);
    var h := Run(InitSys(spec), steps).history;
    assert EntryOk(h, v);
    var cs := h[v].obj.status.conditions;
    AsMapDomain(cs, TYPE_READY);
    AsMapDomain(cs, TYPE_SYNCED);
    forall i | 0 <= i < |cs|
      ensures cs[i].observedGeneration <= h[v].obj.status.observedGeneration && cs[i].ctype in {TYPE_READY, TYPE_SYNCED}
    {
      assert CondOk(cs[i], h[v].obj.status.observedGeneration);
    }
  }

  // Quoting is injective, so an announcement names one model.

  lemma {:induction false} EscapedInjective(s: string, t: string)
    requires Escaped(s) == Escaped(t)
    ensures s == t
  {
    if s == "" || t == "" {
    } else {
      var a, b := Escaped(s), Escaped(t);
      assert a[0] == b[0];
      var n := if s[0] == '"' || s[0] == '\\' then 2 else 1;
      assert s[0] == t[0] && a[n..] == Escaped(s[1..]) && b[n..] == Escaped(t[1..]);
      EscapedInjective(s[1..], t[1..]);
      assert s == [s[0]] + s[1..] && t == [t[0]] + t[1..];
    }
  }

  lemma PullingMessageInjective(m: string, n: string)
    requires PullingMessage(m) == PullingMessage(n)
    ensures m == n
  {
    var a, b := PullingMessage(m), PullingMessage(n);
    var i, j := |a| - 7, |b| - 7;
    assert a[9..i] == Escaped(m) && b[9..j] == Escaped(n);
    EscapedInjective(m, n);
  }

  /** A stored Ready condition that announces a model was stored by a pass that ended announcing that model. */
  lemma AnnouncedBy(h: History, v: nat, model: string)
    requires HistoryOk(h) && v < |h| && Announces(h[v].obj.Ready(), model)
    ensures h[Writer(h, v)].origin == PassEnded(Announced(model))
  {
    assert EntryOk(h, v);
    var cs := h[v].obj.status.conditions;
    var m := AsMap(cs);
    AsMapDomain(cs, TYPE_READY);
    assert m[TYPE_READY] == Payload(False, REASON_CREATING, PullingMessage(model));
    assert PullingMessage(model)[..2] == "Pu" != "Pr";
    var o := h[Writer(h, v)].origin;
    assert o.PassEnded?;
    if o.how.Announced? {
      PullingMessageInjective(o.how.model, model);
    }
  }

  /** Each Pull for a model, in any run, was announced: a pass stored the announcement at or before the version read. */
  lemma AnnounceBeforePull(spec: ModelSpec, steps: seq<Step>, i: nat)
    requires i < |Run(InitSys(spec), steps).pulls|
    ensures var s := Run(InitSys(spec), steps); var c := s.pulls[i];
      && c.read < |s.history|
      && Announces(s.history[c.read].obj.Ready(), c.model)
      && s.history[Writer(s.history, c.read)].origin == PassEnded(Announced(c.model))
  {
    InitInv(spec);
    RunInv(InitSys(spec), steps);
    var s := Run(InitSys(spec), steps);
    assert PullOk(s.history, s.pulls[i]);
    AnnouncedBy(s.history, s.pulls[i].read, s.pulls[i].model);
  }

  /**
   * Two passes that pulled and stored their final status at versions i < j, the second having read version i or a
   * later one, are separated by a pass that announced: reading afresh never pulls twice on one announcement.
   */
  lemma AnnouncedBetweenPulls(spec: ModelSpec, steps: seq<Step>, i: nat, j: nat)
    requires var s := Run(InitSys(spec), steps); i in s.pullers && j in s.pullers && i < j && i <= s.pullers[j]
    ensures var s := Run(InitSys(spec), steps);
      && j < |s.history| && s.pullers[j] < j
      && var w := Writer(s.history, s.pullers[j]);
         i < w < j && s.history[w].origin.PassEnded? && s.history[w].origin.how.Announced?
  {
    InitInv(spec);
    RunInv(InitSys(spec), steps);
    BetweenPullers(Run(InitSys(spec), steps), i, j);
  }

  lemma BetweenPullers(s: Sys, i: nat, j: nat)
    requires Inv(s) && i in s.pullers && j in s.pullers && i < j && i <= s.pullers[j]
    ensures j < |s.history| && s.pullers[j] < j
    ensures var w := Writer(s.history, s.pullers[j]);
      i < w < j && s.history[w].origin.PassEnded? && s.history[w].origin.how.Announced?
  {
    var h, r := s.history, s.pullers[j];
    assert PullerOk(h, i, s.pullers[i]) && PullerOk(h, j, r);
    var m :| Announces(h[r].obj.Ready(), m);
    AnnouncedBy(h, r, m);
    WriterReaches(h, i, r);
  }

  /** A version stored by a pass is never skipped on the way back to a writer. */
  lemma {:induction false} WriterReaches(h: seq<Version>, i: nat, v: nat)
    requires i <= v < |h| && !h[i].origin.SpecEdited? && !h[i].origin.Touched?
    ensures i <= Writer(h, v)
    decreases v
  {
    if i < v { WriterReaches(h, i, v - 1); }
  }
}
