/** Any number of passes over one stored Prompt, as a state machine; the Models they read are arguments of the steps. */
module PromptProtocol {
  import opened Common
  import opened Conditions
  import opened ContextCodec
  import opened VersionedStore
  import opened PromptPass
  import M = ModelPass
  import L = ContextList
  import MP = ModelProtocol

  /** A pass with a final status that it has not yet written. */
  datatype Flight = AtWrite(version: nat, status: PromptStatus, how: Ending, err: Option<string>, requeue: Requeue)

  /** A call of Generate: the Prompt version and the Model the pass had read, and what ollama answered. */
  datatype GenerateCall = GenerateCall(version: nat, model: M.Model, request: Request, answers: Answers)

  datatype Sys = Sys(history: History, flights: map<nat, Flight>, calls: seq<GenerateCall>)

  datatype Step =
    | Begin(id: nat, version: nat, read: ModelRead, answers: Answers)
    | Write(id: nat, reply: Reply)
    | Crash(id: nat)
    | Edit(spec: PromptSpec)
    | Touch

  function InitSys(spec: PromptSpec): Sys {
    Sys([Entry(Prompt(1, spec, PromptStatus([], 0, "", "", None, None)), Created)], map[], [])
  }

  function ToWrite(version: nat, b: Body, a: Answers): Flight {
    AtWrite(version, Deferred(b.obj, b.err, a).status, b.how, b.err, b.requeue)
  }

  function DoBegin(s: Sys, st: Step): Sys
    requires st.Begin? && st.version < |s.history|
  {
    var b := RunBody(s.history[st.version].obj, st.read, st.answers);
    s.(flights := s.flights[st.id := ToWrite(st.version, b, st.answers)],
       calls := if b.request.Some? && st.read.Found?
                then s.calls + [GenerateCall(st.version, st.read.model, b.request.value, st.answers)]
                else s.calls)
  }

  function DoWrite(s: Sys, st: Step): Sys
    requires st.Write? && st.id in s.flights
  {
    var f := s.flights[st.id];
    s.(history := Update(s.history, f.version, f.status, f.how, st.reply).history, flights := s.flights - {st.id})
  }

  function DoEdit(s: Sys, spec: PromptSpec): Sys {
    var p := Last(s.history).obj;
    if p.spec == spec then s
    else s.(history := s.history + [Entry(p.(spec := spec, generation := p.generation + 1), SpecEdited)])
  }

  /** One step; a step that is not possible in a state changes nothing. */
  function Apply(s: Sys, st: Step): Sys {
    match st
    case Begin(id, version, _, _) => if version < |s.history| && id !in s.flights then DoBegin(s, st) else s
    case Write(id, _) => if id in s.flights then DoWrite(s, st) else s
    case Crash(id) => s.(flights := s.flights - {id})
    case Edit(spec) => DoEdit(s, spec)
    case Touch => s.(history := s.history + [Entry(Last(s.history).obj, Touched)])
  }

  function Run(s: Sys, steps: seq<Step>): Sys
    decreases |steps|
  {
    if steps == [] then s else Run(Apply(s, steps[0]), steps[1..])
  }

  // ---------------------------------------------------------------- invariants

  /** The part of a status that an answer fills. */
  datatype AnswerPart = AnswerPart(response: string, context: string, meta: Option<int>, metrics: Option<Metrics>)

  function AnswerOf(st: PromptStatus): AnswerPart { AnswerPart(st.response, st.context, st.meta, st.metrics) }

  function AnswerFrom(r: Response): AnswerPart {
    AnswerPart(Trimmed(r.text), EncodeContext(r.context), Some(r.createdAt), Some(r.metrics))
  }

  ghost predicate StatusOk(st: PromptStatus) {
    && DistinctTypes(st.conditions)
    && MP.OnlyTwo(AsMap(st.conditions))
    && (st.response != "" ==> AsMap(st.conditions) == MP.OPEN)
  }

  /** Some call of Generate returned this answer. */
  ghost predicate Generated(calls: seq<GenerateCall>, answer: AnswerPart) {
    exists i :: 0 <= i < |calls| && calls[i].answers.generate.Done?
             && AnswerFrom(calls[i].answers.generate.value) == answer
  }

  /** What one version owes to the one before. */
  ghost predicate Follows(before: Version, e: Version) {
    && (before.obj.status.response != "" ==> AnswerOf(e.obj.status) == AnswerOf(before.obj.status))
    && (IsWaiting(e.obj) ==>
          e.origin == PassEnded(Waiting) || (IsWaiting(before.obj) && e.origin != PassEnded(Answered)))
  }

  ghost predicate EntryOk(h: seq<Version>, v: nat)
    requires v < |h|
  {
    StatusOk(h[v].obj.status) && if v == 0 then !IsWaiting(h[0].obj) else Follows(h[v - 1], h[v])
  }

  ghost predicate HistoryOk(h: seq<Version>, calls: seq<GenerateCall>) {
    && (forall v :: 0 <= v < |h| ==> EntryOk(h, v))
    && (forall v :: 0 <= v < |h| && h[v].obj.status.response != "" ==> Generated(calls, AnswerOf(h[v].obj.status)))
  }

  ghost predicate FlightOk(h: seq<Version>, calls: seq<GenerateCall>, f: Flight) {
    && f.version < |h|
    && StatusOk(f.status)
    && (h[f.version].obj.status.response != "" ==> AnswerOf(f.status) == AnswerOf(h[f.version].obj.status))
    && (f.status.response != "" ==> Generated(calls, AnswerOf(f.status)))
    && (WaitingIn(f.status.conditions) ==> f.how == Waiting || (IsWaiting(h[f.version].obj) && f.how != Answered))
  }

  ghost predicate CallOk(h: seq<Version>, c: GenerateCall) {
    && c.version < |h|
    && h[c.version].obj.status.response == "" && IsWaiting(h[c.version].obj)
    && M.GateOpen(c.model) && Asks(h[c.version].obj, c.model, c.answers, c.request)
  }

  ghost predicate Inv(s: Sys) {
    && HistoryOk(s.history, s.calls)
    && (forall id :: id in s.flights ==> FlightOk(s.history, s.calls, s.flights[id]))
    && (forall i :: 0 <= i < |s.calls| ==> CallOk(s.history, s.calls[i]))
  }

  // ---------------------------------------------------------------- preservation

  lemma WithMap(p: Prompt, c: Condition)
    requires DistinctTypes(p.status.conditions)
    ensures AsMap(p.With([c]).status.conditions) == AsMap(p.status.conditions)[c.ctype := c.Content()]
    ensures DistinctTypes(p.With([c]).status.conditions)
    ensures AnswerOf(p.With([c]).status) == AnswerOf(p.status)
  {
    MP.OneMap(p.status.conditions, c, p.generation);
    SetAllKeepsPositions(p.status.conditions, Stamp([c], p.generation));
  }

  lemma DeferredOk(p: Prompt, err: Option<string>, a: Answers)
    requires DistinctTypes(p.status.conditions) && MP.OnlyTwo(AsMap(p.status.conditions))
    ensures var st := Deferred(p, err, a).status;
      && DistinctTypes(st.conditions) && AnswerOf(st) == AnswerOf(p.status)
      && st.observedGeneration == p.generation
      && AsMap(st.conditions) == AsMap(p.status.conditions)[TYPE_SYNCED :=
           if err.Some? then Payload(False, REASON_RECONCILE_ERROR, err.value) else MP.GOOD_SYNC]
  {
    var p1 := p.(status := p.status.(observedGeneration := p.generation));
    match err
    case Some(e) => WithMap(p1, ReconcileError(e, a.syncedTime));
    case None => WithMap(p1, ReconcileSuccess(a.syncedTime));
  }

  lemma ReadyFromMap(p: Prompt)
    ensures IsWaiting(p) <==>
      && TYPE_READY in AsMap(p.status.conditions)
      && AsMap(p.status.conditions)[TYPE_READY] == WaitingCondition(0).Content()
  {
    AsMapDomain(p.status.conditions, TYPE_READY);
  }

  /** What every ending of a body leaves. */
  ghost predicate BodyOk(p: Prompt, b: Body, read: ModelRead, a: Answers) {
    && DistinctTypes(b.obj.status.conditions) && MP.OnlyTwo(AsMap(b.obj.status.conditions))
    && b.obj.generation == p.generation && b.obj.spec == p.spec
    && (p.status.response != "" ==> b == Body(p, None, NoRequeue, Kept, None))
    && (p.status.response == "" ==>
          if b.how == Answered then
            a.generate.Done? && AnswerOf(b.obj.status) == AnswerFrom(a.generate.value) && b.err.None? && b.request.Some?
            && TYPE_READY in AsMap(b.obj.status.conditions)
            && AsMap(b.obj.status.conditions)[TYPE_READY] == Payload(True, REASON_AVAILABLE, "")
          else AnswerOf(b.obj.status) == AnswerOf(p.status))
    && (IsWaiting(b.obj) ==> b.how == Waiting || (IsWaiting(p) && b.how != Answered))
    && (b.request.Some? ==>
          && p.status.response == "" && read.Found? && M.GateOpen(read.model) && IsWaiting(p)
          && Asks(p, read.model, a, b.request.value))
  }

  lemma WithReady(p: Prompt, c: Condition)
    requires DistinctTypes(p.status.conditions) && MP.OnlyTwo(AsMap(p.status.conditions)) && c.ctype == TYPE_READY
    ensures DistinctTypes(p.With([c]).status.conditions) && MP.OnlyTwo(AsMap(p.With([c]).status.conditions))
    ensures TYPE_READY in AsMap(p.With([c]).status.conditions)
    ensures AsMap(p.With([c]).status.conditions)[TYPE_READY] == c.Content()
    ensures AnswerOf(p.With([c]).status) == AnswerOf(p.status)
    ensures IsWaiting(p.With([c])) <==> c.Content() == WaitingCondition(0).Content()
  {
    WithMap(p, c);
    ReadyFromMap(p.With([c]));
  }

  /** The shapes of body that asking the model can leave. */
  ghost predicate Asked(p: Prompt, b: Body, model: M.Model, a: Answers) {
    && (if b.how == Answered then
          a.generate.Done? && b.err.None? && b.request.Some?
          && b.obj == Answer(p, a.generate.value).With([Available(a.readyTime)])
        else b.obj == p && b.how in {Errored, Panicked})
    && (b.request.Some? ==> Asks(p, model, a, b.request.value))
  }

  lemma AskModelAsked(p: Prompt, model: M.Model, a: Answers)
    ensures Asked(p, AskModel(p, model, a), model, a)
  {
    AskModelAsks(p, model, a);
  }

  lemma AskedOk(p: Prompt, b: Body, model: M.Model, a: Answers)
    requires DistinctTypes(p.status.conditions) && MP.OnlyTwo(AsMap(p.status.conditions))
    requires p.status.response == "" && IsWaiting(p) && M.GateOpen(model)
    requires Asked(p, b, model, a)
    ensures BodyOk(p, b, Found(model), a)
  {
    if b.how == Answered {
      WithReady(Answer(p, a.generate.value), Available(a.readyTime));
    }
  }

  /** A body that only set the Ready condition. */
  lemma SetReadyOk(p: Prompt, c: Condition, r: Requeue, how: Ending, read: ModelRead, a: Answers)
    requires DistinctTypes(p.status.conditions) && MP.OnlyTwo(AsMap(p.status.conditions))
    requires p.status.response == "" && c.ctype == TYPE_READY && how != Answered
    requires c.Content() == WaitingCondition(0).Content() ==> how == Waiting
    ensures BodyOk(p, Body(p.With([c]), None, r, how, None), read, a)
  {
    WithReady(p, c);
  }

  lemma RunBodyOk(p: Prompt, read: ModelRead, a: Answers)
    requires DistinctTypes(p.status.conditions) && MP.OnlyTwo(AsMap(p.status.conditions))
    ensures BodyOk(p, RunBody(p, read, a), read, a)
  {
    if p.status.response == "" {
      match read
      case Missing =>
        SetReadyOk(p, Unavailable(a.readyTime).WithMessage("Referenced model does not exist"), NoRequeue, NoModel, read,
          a);
      case Unreadable(e) =>
      case Found(model) =>
        if !M.GateOpen(model) {
          SetReadyOk(p, Unavailable(a.readyTime).WithMessage("Model is not ready and synced"), NoRequeue, GateClosed,
            read, a);
        } else if !IsWaiting(p) {
          SetReadyOk(p, WaitingCondition(a.readyTime), Immediately, Waiting, read, a);
        } else {
          AskModelAsked(p, model, a);
          AskedOk(p, AskModel(p, model, a), model, a);
        }
    }
  }

  /** The deferred block does not touch whether a Prompt waits. */
  lemma DeferredWaiting(q: Prompt, err: Option<string>, a: Answers)
    requires DistinctTypes(q.status.conditions) && MP.OnlyTwo(AsMap(q.status.conditions))
    ensures WaitingIn(Deferred(q, err, a).status.conditions) <==> IsWaiting(q)
  {
    DeferredOk(q, err, a);
    assert TYPE_READY != TYPE_SYNCED;
    ReadyFromMap(q);
    ReadyFromMap(Deferred(q, err, a));
  }

  lemma DeferredStatusOk(p: Prompt, b: Body, read: ModelRead, a: Answers)
    requires StatusOk(p.status) && BodyOk(p, b, read, a)
    ensures StatusOk(Deferred(b.obj, b.err, a).status)
    ensures AnswerOf(Deferred(b.obj, b.err, a).status) == AnswerOf(b.obj.status)
  {
    var status := Deferred(b.obj, b.err, a).status;
    DeferredOk(b.obj, b.err, a);
    assert TYPE_READY != TYPE_SYNCED;
    assert AnswerOf(status).response == AnswerOf(b.obj.status).response;
    if p.status.response == "" && status.response != "" {
      assert b.how == Answered;
      OpenMap(AsMap(b.obj.status.conditions));
    }
  }

  lemma OpenMap(m: map<string, Content>)
    requires MP.OnlyTwo(m) && TYPE_READY in m && m[TYPE_READY] == Payload(True, REASON_AVAILABLE, "")
    ensures m[TYPE_SYNCED := MP.GOOD_SYNC] == MP.OPEN
  {
    assert TYPE_READY != TYPE_SYNCED;
    var n := m[TYPE_SYNCED := MP.GOOD_SYNC];
    assert n.Keys == {TYPE_READY, TYPE_SYNCED};
  }

  lemma FlightFromBody(h: seq<Version>, calls: seq<GenerateCall>, version: nat, b: Body, read: ModelRead, a: Answers)
    requires version < |h| && StatusOk(h[version].obj.status) && BodyOk(h[version].obj, b, read, a)
    requires h[version].obj.status.response != "" ==> Generated(calls, AnswerOf(h[version].obj.status))
    requires b.how == Answered && a.generate.Done? ==> Generated(calls, AnswerFrom(a.generate.value))
    ensures FlightOk(h, calls, ToWrite(version, b, a))
  {
    var p := h[version].obj;
    var status := Deferred(b.obj, b.err, a).status;
    DeferredStatusOk(p, b, read, a);
    DeferredWaiting(b.obj, b.err, a);
    assert AnswerOf(status).response == status.response && AnswerOf(p.status).response == p.status.response;
  }

  lemma BeginFlight(s: Sys, st: Step)
    requires Inv(s) && st.Begin? && st.version < |s.history|
    ensures var s' := DoBegin(s, st); FlightOk(s.history, s'.calls, s'.flights[st.id])
  {
    var p := s.history[st.version].obj;
    assert EntryOk(s.history, st.version);
    RunBodyOk(p, st.read, st.answers);
    var b := RunBody(p, st.read, st.answers);
    var calls := DoBegin(s, st).calls;
    if p.status.response != "" {
      assert calls == s.calls;
    } else if b.how == Answered {
      assert calls[|s.calls|].answers == st.answers;
    }
    FlightFromBody(s.history, calls, st.version, b, st.read, st.answers);
  }

  lemma GrowCalls(s: Sys, c: GenerateCall)
    requires Inv(s) && CallOk(s.history, c)
    ensures Inv(s.(calls := s.calls + [c]))
  {
    var calls := s.calls + [c];
    forall answer | Generated(s.calls, answer)
      ensures Generated(calls, answer)
    {
      var i :| 0 <= i < |s.calls| && s.calls[i].answers.generate.Done?
            && AnswerFrom(s.calls[i].answers.generate.value) == answer;
      assert calls[i] == s.calls[i];
    }
    forall id | id in s.flights
      ensures FlightOk(s.history, calls, s.flights[id])
    {
      assert FlightOk(s.history, s.calls, s.flights[id]);
    }
  }

  lemma SetFlight(s: Sys, id: nat, f: Flight)
    requires Inv(s) && FlightOk(s.history, s.calls, f)
    ensures Inv(s.(flights := s.flights[id := f]))
  {
  }

  lemma BeginCall(h: seq<Version>, version: nat, b: Body, read: ModelRead, a: Answers)
    requires version < |h| && BodyOk(h[version].obj, b, read, a) && b.request.Some?
    ensures read.Found? && CallOk(h, GenerateCall(version, read.model, b.request.value, a))
  {
  }

  lemma BeginInv(s: Sys, st: Step)
    requires Inv(s) && st.Begin? && st.version < |s.history|
    ensures Inv(DoBegin(s, st))
  {
    BeginFlight(s, st);
    var p := s.history[st.version].obj;
    assert EntryOk(s.history, st.version);
    RunBodyOk(p, st.read, st.answers);
    var b := RunBody(p, st.read, st.answers);
    var f := ToWrite(st.version, b, st.answers);
    if b.request.Some? {
      BeginCall(s.history, st.version, b, st.read, st.answers);
      var c := GenerateCall(st.version, st.read.model, b.request.value, st.answers);
      GrowCalls(s, c);
      SetFlight(s.(calls := s.calls + [c]), st.id, f);
    } else {
      SetFlight(s, st.id, f);
    }
  }

  lemma GrowFlights(s: Sys, k: seq<Version>)
    requires Inv(s) && |s.history| <= |k| && k[..|s.history|] == s.history
    ensures forall id :: id in s.flights ==> FlightOk(k, s.calls, s.flights[id])
    ensures forall i :: 0 <= i < |s.calls| ==> CallOk(k, s.calls[i])
  {
    var h := s.history;
    assert forall v :: 0 <= v < |h| ==> k[v] == h[v];
    forall id | id in s.flights
      ensures FlightOk(k, s.calls, s.flights[id])
    {
      assert FlightOk(h, s.calls, s.flights[id]);
    }
    forall i | 0 <= i < |s.calls|
      ensures CallOk(k, s.calls[i])
    {
      assert CallOk(h, s.calls[i]);
    }
  }

  lemma GrowHistory(h: History, calls: seq<GenerateCall>, e: Version)
    requires HistoryOk(h, calls) && StatusOk(e.obj.status) && Follows(Last(h), e)
    requires e.obj.status.response != "" ==> Generated(calls, AnswerOf(e.obj.status))
    ensures HistoryOk(h + [e], calls)
  {
    var k := h + [e];
    forall v | 0 <= v < |k|
      ensures EntryOk(k, v)
    {
      if v < |h| {
        assert EntryOk(h, v);
        EntryPrefix(h, e, v);
      } else {
        NewEntry(h, e);
      }
    }
    forall v | 0 <= v < |k| && k[v].obj.status.response != ""
      ensures Generated(calls, AnswerOf(k[v].obj.status))
    {
      if v < |h| { assert k[v] == h[v]; }
    }
  }

  lemma NewEntry(h: History, e: Version)
    requires StatusOk(e.obj.status) && Follows(Last(h), e)
    ensures EntryOk(h + [e], |h|)
  {
    assert (h + [e])[|h|] == e && (h + [e])[|h| - 1] == Last(h);
  }

  lemma EntryPrefix(h: History, e: Version, v: nat)
    requires v < |h| && EntryOk(h, v)
    ensures EntryOk(h + [e], v)
  {
    assert (h + [e])[v] == h[v] && (v > 0 ==> (h + [e])[v - 1] == h[v - 1]);
  }

  /** A new version in order keeps everything in order. */
  lemma Grow(s: Sys, e: Version)
    requires Inv(s) && StatusOk(e.obj.status) && Follows(Last(s.history), e)
    requires e.obj.status.response != "" ==> Generated(s.calls, AnswerOf(e.obj.status))
    ensures Inv(s.(history := s.history + [e]))
  {
    GrowHistory(s.history, s.calls, e);
    GrowFlights(s, s.history + [e]);
  }

  lemma DropFlight(s: Sys, id: nat)
    requires Inv(s)
    ensures Inv(s.(flights := s.flights - {id}))
  {
  }

  /** What a write may store. */
  lemma UpdateEntry(h: History, calls: seq<GenerateCall>, f: Flight, reply: Reply)
    requires FlightOk(h, calls, f)
    ensures var e := Entry(Last(h).obj.(status := f.status), PassEnded(f.how));
      var k := Update(h, f.version, f.status, f.how, reply).history;
      k != h ==>
        && k == h + [e] && StatusOk(e.obj.status) && Follows(Last(h), e)
        && (e.obj.status.response != "" ==> Generated(calls, AnswerOf(e.obj.status)))
  {
  }

  lemma WriteInv(s: Sys, st: Step)
    requires Inv(s) && st.Write? && st.id in s.flights
    ensures Inv(DoWrite(s, st))
  {
    var f := s.flights[st.id];
    assert FlightOk(s.history, s.calls, f);
    UpdateEntry(s.history, s.calls, f, st.reply);
    var k := Update(s.history, f.version, f.status, f.how, st.reply).history;
    if k != s.history { Grow(s, Entry(Last(s.history).obj.(status := f.status), PassEnded(f.how))); }
    DropFlight(s.(history := k), st.id);
  }

  /** A version that carries the status of the one before. */
  lemma Carried(h: History, calls: seq<GenerateCall>, e: Version)
    requires HistoryOk(h, calls) && e.obj.status == Last(h).obj.status && !e.origin.PassEnded?
    ensures StatusOk(e.obj.status) && Follows(Last(h), e)
    ensures e.obj.status.response != "" ==> Generated(calls, AnswerOf(e.obj.status))
  {
    assert EntryOk(h, |h| - 1);
    assert IsWaiting(e.obj) <==> IsWaiting(Last(h).obj);
  }

  lemma CarryInv(s: Sys, e: Version, s': Sys)
    requires Inv(s) && e.obj.status == Last(s.history).obj.status && !e.origin.PassEnded?
    requires s' == s.(history := s.history + [e])
    ensures Inv(s')
  {
    Carried(s.history, s.calls, e);
    Grow(s, e);
  }

  lemma EditInv(s: Sys, spec: PromptSpec)
    requires Inv(s)
    ensures Inv(DoEdit(s, spec))
  {
    var s' := DoEdit(s, spec);
    if s' != s { CarryInv(s, Last(s'.history), s'); }
  }

  lemma StepInv(s: Sys, st: Step)
    requires Inv(s)
    ensures Inv(Apply(s, st))
  {
    match st
    case Begin(id, version, _, _) => if version < |s.history| && id !in s.flights { BeginInv(s, st); }
    case Write(id, _) => if id in s.flights { WriteInv(s, st); }
    case Crash(id) => DropFlight(s, id);
    case Edit(spec) => EditInv(s, spec);
    case Touch => CarryInv(s, Entry(Last(s.history).obj, Touched), Apply(s, Touch));
  }

  lemma StepGrows(s: Sys, st: Step)
    ensures |s.history| <= |Apply(s, st).history| && Apply(s, st).history[..|s.history|] == s.history
    ensures |s.calls| <= |Apply(s, st).calls| && Apply(s, st).calls[..|s.calls|] == s.calls
  {
  }

  lemma InitInv(spec: PromptSpec)
    ensures Inv(InitSys(spec))
  {
    ReadyFromMap(InitSys(spec).history[0].obj);
    assert EntryOk(InitSys(spec).history, 0);
  }

  lemma {:induction false} RunInv(s: Sys, steps: seq<Step>)
    requires Inv(s)
    ensures Inv(Run(s, steps))
    decreases |steps|
  {
    if steps != [] {
      StepInv(s, steps[0]);
      RunInv(Apply(s, steps[0]), steps[1..]);
    }
  }

  // ---------------------------------------------------------------- theorems over all runs

  /**
   * A status holds what a response says: its text without the white space around it, its context in the stored form,
   * its time and its metrics.
   */
  ghost predicate Holds(st: PromptStatus, r: Response) {
    && IsTrim(r.text, st.response)
    && L.IsContext(r.context, st.context)
    && st.meta == Some(r.createdAt) && st.metrics == Some(r.metrics)
  }

  lemma AnswerHolds(st: PromptStatus, r: Response)
    requires AnswerOf(st) == AnswerFrom(r)
    ensures Holds(st, r)
  {
    var part := AnswerOf(st);
    assert part.response == st.response && part.context == st.context;
    assert part.meta == st.meta && part.metrics == st.metrics;
    TrimmedIs(r.text);
    L.EncodeContextIs(r.context);
  }

  lemma {:induction false} AnswersStay(h: seq<Version>, u: nat, v: nat)
    requires u <= v < |h| && forall w :: 0 <= w < |h| ==> EntryOk(h, w)
    requires h[u].obj.status.response != ""
    ensures AnswerOf(h[v].obj.status) == AnswerOf(h[u].obj.status)
    decreases v
  {
    if u < v {
      AnswersStay(h, u, v - 1);
      assert EntryOk(h, v);
    }
  }

  /**
   * In every run, once a stored version has a non-empty response, every later version has the same response,
   * context, meta and metrics, and its conditions are Available and ReconcileSuccess.
   */
  lemma AnswerIsFinal(spec: PromptSpec, steps: seq<Step>, u: nat, v: nat)
    requires u <= v < |Run(InitSys(spec), steps).history|
    requires Run(InitSys(spec), steps).history[u].obj.status.response != ""
    ensures var h := Run(InitSys(spec), steps).history;
      && AnswerOf(h[v].obj.status) == AnswerOf(h[u].obj.status)
      && Same(Lookup(h[v].obj.status.conditions, TYPE_READY), Available(0))
      && Same(Lookup(h[v].obj.status.conditions, TYPE_SYNCED), ReconcileSuccess(0))
  {
    InitInv(spec);
    RunInv(InitSys(spec), steps);
    var h := Run(InitSys(spec), steps).history;
    AnswersStay(h, u, v);
    assert EntryOk(h, v);
    AsMapDomain(h[v].obj.status.conditions, TYPE_READY);
    AsMapDomain(h[v].obj.status.conditions, TYPE_SYNCED);
  }

  lemma {:induction false} WaitingAnnounced(h: seq<Version>, v: nat) returns (w: nat)
    requires v < |h| && (forall u :: 0 <= u < |h| ==> EntryOk(h, u)) && IsWaiting(h[v].obj)
    ensures w <= v && h[w].origin == PassEnded(Waiting)
  {
    assert EntryOk(h, v);
    if h[v].origin == PassEnded(Waiting) {
      w := v;
    } else {
      w := WaitingAnnounced(h, v - 1);
    }
  }

  /**
   * Every call of Generate, in any run, was made for a version without a response, through an open gate, after some
   * pass had stored the announcement that the Prompt waits; the request carries the Model's name and the decoded
   * context.
   */
  lemma AnnounceBeforeGenerate(spec: PromptSpec, steps: seq<Step>, i: nat)
    requires i < |Run(InitSys(spec), steps).calls|
    ensures var s := Run(InitSys(spec), steps);
      && CallOk(s.history, s.calls[i])
      && exists w :: 0 <= w <= s.calls[i].version && s.history[w].origin == PassEnded(Waiting)
  {
    InitInv(spec);
    RunInv(InitSys(spec), steps);
    var s := Run(InitSys(spec), steps);
    assert CallOk(s.history, s.calls[i]);
    var w := WaitingAnnounced(s.history, s.calls[i].version);
  }

  lemma {:induction false} WaitingSince(h: seq<Version>, v: nat, u: nat) returns (w: nat)
    requires v <= u < |h| && (forall x :: 0 <= x < |h| ==> EntryOk(h, x))
    requires !IsWaiting(h[v].obj) && IsWaiting(h[u].obj)
    ensures v < w <= u && h[w].origin == PassEnded(Waiting)
    decreases u
  {
    assert EntryOk(h, u);
    if h[u].origin == PassEnded(Waiting) {
      w := u;
    } else {
      w := WaitingSince(h, v, u - 1);
    }
  }

  /**
   * Between a stored final status of a pass that was answered and any call of Generate that read that version or a
   * later one, a pass stored the announcement anew: reading afresh never asks twice on one announcement that was
   * answered.
   */
  lemma AnnouncedBetweenAnswers(spec: PromptSpec, steps: seq<Step>, v: nat, i: nat)
    requires var s := Run(InitSys(spec), steps);
      && v < |s.history| && s.history[v].origin == PassEnded(Answered)
      && i < |s.calls| && v <= s.calls[i].version
    ensures var s := Run(InitSys(spec), steps);
      && s.calls[i].version < |s.history|
      && exists w :: v < w <= s.calls[i].version && s.history[w].origin == PassEnded(Waiting)
  {
    InitInv(spec);
    RunInv(InitSys(spec), steps);
    var s := Run(InitSys(spec), steps);
    assert CallOk(s.history, s.calls[i]);
    assert EntryOk(s.history, v) && (v == 0 ==> !IsWaiting(s.history[0].obj));
    AnsweredStopsWaiting(s, v);
    var w := WaitingSince(s.history, v, s.calls[i].version);
  }

  lemma AnsweredStopsWaiting(s: Sys, v: nat)
    requires Inv(s) && v < |s.history| && s.history[v].origin == PassEnded(Answered)
    ensures !IsWaiting(s.history[v].obj)
  {
    assert EntryOk(s.history, v);
  }

  /**
   * Every stored response, with the context, time and metrics beside it, is what some call of Generate in the run
   * answered.
   */
  lemma ResponsesAreGenerated(spec: PromptSpec, steps: seq<Step>, v: nat) returns (i: nat)
    requires v < |Run(InitSys(spec), steps).history|
    requires Run(InitSys(spec), steps).history[v].obj.status.response != ""
    ensures var s := Run(InitSys(spec), steps);
      && i < |s.calls| && s.calls[i].answers.generate.Done?
      && Holds(s.history[v].obj.status, s.calls[i].answers.generate.value)
  {
    InitInv(spec);
    RunInv(InitSys(spec), steps);
    var s := Run(InitSys(spec), steps);
    i := StoredAnswer(s, v);
  }

  lemma StoredAnswer(s: Sys, v: nat) returns (i: nat)
    requires Inv(s) && v < |s.history| && s.history[v].obj.status.response != ""
    ensures i < |s.calls| && s.calls[i].answers.generate.Done?
    ensures Holds(s.history[v].obj.status, s.calls[i].answers.generate.value)
  {
    var st := s.history[v].obj.status;
    assert Generated(s.calls, AnswerOf(st));
    i :| 0 <= i < |s.calls| && s.calls[i].answers.generate.Done?
      && AnswerFrom(s.calls[i].answers.generate.value) == AnswerOf(st);
    AnswerHolds(st, s.calls[i].answers.generate.value);
  }

  // ---------------------------------------------------------------- the method's pass as a run

  predicate IsOther(st: Step, id: nat) { st.Edit? || st.Touch? || st.id != id }

  lemma {:induction false} OthersKeepFlight(s: Sys, steps: seq<Step>, id: nat)
    requires id in s.flights && forall i :: 0 <= i < |steps| ==> IsOther(steps[i], id)
    ensures id in Run(s, steps).flights && Run(s, steps).flights[id] == s.flights[id]
    decreases |steps|
  {
    if steps != [] {
      assert IsOther(steps[0], id);
      OthersKeepFlight(Apply(s, steps[0]), steps[1..], id);
    }
  }

  lemma {:induction false} RunConcat(s: Sys, a: seq<Step>, b: seq<Step>)
    ensures Run(s, a + b) == Run(Run(s, a), b)
    decreases |a|
  {
    if a == [] {
      assert a + b == b;
    } else {
      assert (a + b)[0] == a[0] && (a + b)[1..] == a[1..] + b;
      RunConcat(Apply(s, a[0]), a[1..], b);
    }
  }

  lemma RunOne(s: Sys, st: Step)
    ensures Run(s, [st]) == Apply(s, st)
  {
    assert [st][1..] == [];
    assert Run(Apply(s, st), []) == Apply(s, st);
  }

  /**
   * The outcome that the method Reconcile guarantees is the outcome of a run, whatever steps others take before its
   * write: the history; the requeue, error and panic, which are those of the flight and of its write; and the request,
   * which is the call of Generate that the run records, or none.
   */
  lemma PassIsRun(s: Sys, id: nat, version: nat, read: ModelRead, a: Answers, others: seq<Step>, foreign: seq<Version>,
    reply: Reply)
    requires id !in s.flights && version < |s.history|
    requires forall i :: 0 <= i < |others| ==> IsOther(others[i], id)
    requires Run(Apply(s, Begin(id, version, read, a)), others).history == s.history + foreign
    ensures Run(s, [Begin(id, version, read, a)] + others + [Write(id, reply)]).history
         == RunPass(s.history, Copy(version, s.history[version].obj), read, a, foreign, reply).history
    ensures
      var out := RunPass(s.history, Copy(version, s.history[version].obj), read, a, foreign, reply);
      var s1 := Apply(s, Begin(id, version, read, a));
      && id in s1.flights
      && var f := s1.flights[id];
      && id in Run(s1, others).flights && Run(s1, others).flights[id] == f
      && out.requeue == f.requeue && out.panicked == f.how.Panicked?
      && out.err == Join(f.err, Update(Run(s1, others).history, f.version, f.status, f.how, reply).err)
      && (out.request.Some? ==> read.Found?)
      && s1.calls == s.calls +
           if out.request.Some? then [GenerateCall(version, read.model, out.request.value, a)] else []
  {
    assert s.calls + [] == s.calls;
    var begin, write := Begin(id, version, read, a), Write(id, reply);
    var s1 := Apply(s, begin);
    RunOne(s, begin);
    OthersKeepFlight(s1, others, id);
    RunConcat(s, [begin], others);
    RunConcat(s, [begin] + others, [write]);
    RunOne(Run(s1, others), write);
  }
}
