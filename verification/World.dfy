/** Models and Prompts together: Prompt passes read Models from the stored histories, however stale. */
module World {
  import opened Common
  import opened VersionedStore
  import C = Conditions
  import M = ModelPass
  import P = PromptPass
  import MP = ModelProtocol
  import PP = PromptProtocol

  datatype State = State(models: map<Key, MP.Sys>, prompts: map<Key, PP.Sys>)

  datatype Step =
    | CreateModel(key: Key, mspec: M.ModelSpec)
    | CreatePrompt(key: Key, pspec: P.PromptSpec)
    | OfModel(key: Key, mstep: MP.Step)
    | OfPrompt(key: Key, pstep: PP.Step)  // any step but the beginning of a pass
    | Reads(key: Key, id: nat, version: nat, at: Option<nat>, failure: Option<string>, answers: P.Answers)

  /** The Model that a Prompt refers to; the namespace defaults to the Prompt's. */
  function ModelKey(key: Key, spec: P.PromptSpec): Key {
    Key(Or(spec.modelRef.namespace, key.namespace), spec.modelRef.name)
  }

  /** What a pass gets for the Model: an error, a stored version, or nothing. */
  function ReadModel(w: State, m: Key, at: Option<nat>, failure: Option<string>): P.ModelRead {
    if failure.Some? then P.Unreadable(failure.value)
    else if at.Some? && m in w.models && at.value < |w.models[m].history| then
      P.Found(w.models[m].history[at.value].obj)
    else P.Missing
  }

  function DoReads(w: State, st: Step): State
    requires st.Reads? && st.key in w.prompts && st.version < |w.prompts[st.key].history|
  {
    var s := w.prompts[st.key];
    var m := ModelKey(st.key, s.history[st.version].obj.spec);
    w.(prompts := w.prompts[st.key :=
      PP.Apply(s, PP.Begin(st.id, st.version, ReadModel(w, m, st.at, st.failure), st.answers))])
  }

  function Apply(w: State, st: Step): State {
    match st
    case CreateModel(k, spec) => if k in w.models then w else w.(models := w.models[k := MP.InitSys(spec)])
    case CreatePrompt(k, spec) => if k in w.prompts then w else w.(prompts := w.prompts[k := PP.InitSys(spec)])
    case OfModel(k, step) => if k in w.models then w.(models := w.models[k := MP.Apply(w.models[k], step)]) else w
    case OfPrompt(k, step) =>
      if k in w.prompts && !step.Begin? then w.(prompts := w.prompts[k := PP.Apply(w.prompts[k], step)]) else w
    case Reads(k, _, version, _, _, _) =>
      if k in w.prompts && version < |w.prompts[k].history| then DoReads(w, st) else w
  }

  function Run(w: State, steps: seq<Step>): State
    decreases |steps|
  {
    if steps == [] then w else Run(Apply(w, steps[0]), steps[1..])
  }

  const EMPTY: State := State(map[], map[])

  // ---------------------------------------------------------------- invariant

  /** The Model a call of Generate had read is a stored version of the Model that the Prompt refers to. */
  ghost predicate Served(w: State, k: Key, c: PP.GenerateCall)
    requires k in w.prompts
  {
    && c.version < |w.prompts[k].history|
    && var m := ModelKey(k, w.prompts[k].history[c.version].obj.spec);
       m in w.models && exists v :: 0 <= v < |w.models[m].history| && w.models[m].history[v].obj == c.model
  }

  ghost predicate Inv(w: State) {
    && (forall k :: k in w.models ==> MP.Inv(w.models[k]))
    && (forall k :: k in w.prompts ==> PP.Inv(w.prompts[k]))
    && (forall k, i :: k in w.prompts && 0 <= i < |w.prompts[k].calls| ==> Served(w, k, w.prompts[k].calls[i]))
  }

  /** Nothing stored is ever lost. */
  ghost predicate Grows(w: State, w': State) {
    && (forall k :: k in w.models ==> k in w'.models && w.models[k].history <= w'.models[k].history)
    && (forall k :: k in w.prompts ==> k in w'.prompts && w.prompts[k].history <= w'.prompts[k].history)
  }

  lemma ModelGrows(w: State, k: Key, s: MP.Sys)
    requires k in w.models && w.models[k].history <= s.history
    ensures Grows(w, w.(models := w.models[k := s]))
  {
  }

  lemma PromptGrows(w: State, k: Key, step: PP.Step)
    requires k in w.prompts
    ensures Grows(w, w.(prompts := w.prompts[k := PP.Apply(w.prompts[k], step)]))
  {
    PP.StepGrows(w.prompts[k], step);
  }

  lemma StepGrows(w: State, st: Step)
    ensures Grows(w, Apply(w, st))
  {
    match st
    case CreateModel(k, spec) =>
    case CreatePrompt(k, spec) =>
    case OfModel(k, step) =>
      if k in w.models {
        MP.StepGrows(w.models[k], step);
        ModelGrows(w, k, MP.Apply(w.models[k], step));
      }
    case OfPrompt(k, step) => if k in w.prompts { PromptGrows(w, k, step); }
    case Reads(k, id, version, at, failure, a) =>
      if k in w.prompts && version < |w.prompts[k].history| {
        var m := ModelKey(k, w.prompts[k].history[version].obj.spec);
        PromptGrows(w, k, PP.Begin(id, version, ReadModel(w, m, at, failure), a));
      }
  }

  lemma ServedGrows(w: State, w': State, k: Key, c: PP.GenerateCall)
    requires Grows(w, w') && k in w.prompts && Served(w, k, c)
    ensures k in w'.prompts && Served(w', k, c)
  {
    var h, h' := w.prompts[k].history, w'.prompts[k].history;
    var m := ModelKey(k, h[c.version].obj.spec);
    var g, g' := w.models[m].history, w'.models[m].history;
    var v :| 0 <= v < |g| && g[v].obj == c.model;
    assert g'[v] == g[v];
  }

  /** Only the beginning of a pass calls Generate, and then with the Model it read. */
  lemma NewCalls(s: PP.Sys, st: PP.Step)
    ensures !st.Begin? ==> PP.Apply(s, st).calls == s.calls
    ensures st.Begin? ==> forall i :: |s.calls| <= i < |PP.Apply(s, st).calls| ==>
      NewCall(s, st, PP.Apply(s, st).calls[i])
  {
    if st.Begin? && st.version < |s.history| && st.id !in s.flights {
      var b := P.RunBody(s.history[st.version].obj, st.read, st.answers);
      assert PP.Apply(s, st) == PP.DoBegin(s, st);
    }
  }

  predicate NewCall(s: PP.Sys, st: PP.Step, c: PP.GenerateCall)
    requires st.Begin?
  {
    c.version == st.version && st.version < |s.history| && st.read == P.Found(c.model)
  }

  lemma PromptStepInv(w: State, k: Key, step: PP.Step, w': State)
    requires Inv(w) && k in w.prompts && w' == w.(prompts := w.prompts[k := PP.Apply(w.prompts[k], step)])
    requires Grows(w, w')
    requires step.Begin? && step.version < |w.prompts[k].history| ==>
      step.read == P.Missing || step.read.Unreadable?
      || (var m := ModelKey(k, w.prompts[k].history[step.version].obj.spec);
          && m in w.models
          && exists v :: 0 <= v < |w.models[m].history| && P.Found(w.models[m].history[v].obj) == step.read)
    ensures Inv(w')
  {
    var s, s' := w.prompts[k], w'.prompts[k];
    PP.StepInv(s, step);
    PP.StepGrows(s, step);
    NewCalls(s, step);
    forall q, i | q in w'.prompts && 0 <= i < |w'.prompts[q].calls|
      ensures Served(w', q, w'.prompts[q].calls[i])
    {
      if q != k {
        ServedGrows(w, w', q, w.prompts[q].calls[i]);
      } else if i < |s.calls| {
        assert s'.calls[i] == s.calls[i];
        ServedGrows(w, w', q, s.calls[i]);
      } else {
        var c := s'.calls[i];
        assert s'.history[c.version] == s.history[c.version];
      }
    }
  }

  lemma KeepServed(w: State, w': State)
    requires Inv(w) && Grows(w, w') && w'.prompts == w.prompts
    ensures forall k, i :: k in w'.prompts && 0 <= i < |w'.prompts[k].calls| ==> Served(w', k, w'.prompts[k].calls[i])
  {
    forall k, i | k in w'.prompts && 0 <= i < |w'.prompts[k].calls|
      ensures Served(w', k, w'.prompts[k].calls[i])
    {
      ServedGrows(w, w', k, w.prompts[k].calls[i]);
    }
  }

  lemma CreatePromptInv(w: State, k: Key, spec: P.PromptSpec)
    requires Inv(w) && k !in w.prompts
    ensures Inv(w.(prompts := w.prompts[k := PP.InitSys(spec)]))
  {
    PP.InitInv(spec);
    var w' := w.(prompts := w.prompts[k := PP.InitSys(spec)]);
    forall q, i | q in w'.prompts && 0 <= i < |w'.prompts[q].calls|
      ensures Served(w', q, w'.prompts[q].calls[i])
    {
      assert q != k;
      ServedGrows(w, w', q, w.prompts[q].calls[i]);
    }
  }

  lemma ModelsInv(w: State, k: Key, s: MP.Sys)
    requires Inv(w) && MP.Inv(s) && (k in w.models ==> w.models[k].history <= s.history)
    ensures Inv(w.(models := w.models[k := s]))
  {
    KeepServed(w, w.(models := w.models[k := s]));
  }

  lemma StepInv(w: State, st: Step)
    requires Inv(w)
    ensures Inv(Apply(w, st))
  {
    match st
    case CreateModel(k, spec) =>
      MP.InitInv(spec);
      if k !in w.models { ModelsInv(w, k, MP.InitSys(spec)); }
    case CreatePrompt(k, spec) => if k !in w.prompts { CreatePromptInv(w, k, spec); }
    case OfModel(k, step) =>
      if k in w.models {
        MP.StepInv(w.models[k], step);
        MP.StepGrows(w.models[k], step);
        ModelsInv(w, k, MP.Apply(w.models[k], step));
      }
    case OfPrompt(k, step) =>
      if k in w.prompts && !step.Begin? {
        StepGrows(w, st);
        PromptStepInv(w, k, step, Apply(w, st));
      }
    case Reads(k, id, version, at, failure, a) =>
      if k in w.prompts && version < |w.prompts[k].history| {
        StepGrows(w, st);
        var m := ModelKey(k, w.prompts[k].history[version].obj.spec);
        PromptStepInv(w, k, PP.Begin(id, version, ReadModel(w, m, at, failure), a), Apply(w, st));
      }
  }

  lemma {:induction false} RunInv(w: State, steps: seq<Step>)
    requires Inv(w)
    ensures Inv(Run(w, steps))
    decreases |steps|
  {
    if steps != [] {
      StepInv(w, steps[0]);
      RunInv(Apply(w, steps[0]), steps[1..]);
    }
  }

  // ---------------------------------------------------------------- across the controllers

  /**
   * The Model version v was stored, apart from later edits, by a pass of the Model controller that ended in Available.
   */
  ghost predicate ReadyVersion(w: State, m: Key, v: nat, model: M.Model) {
    && m in w.models && v < |w.models[m].history|
    && w.models[m].history[v].obj == model
    && w.models[m].history[MP.Writer(w.models[m].history, v)].origin == M.PassEnded(M.BecameAvailable)
  }

  /**
   * Every call of Generate in every run of both controllers was made for the Model that the Prompt refers to, in a
   * version whose status a pass of the Model controller had stored after it ended in Available; the request asks for
   * the model of that version.
   */
  lemma GenerateNeedsReadyModel(steps: seq<Step>, k: Key, i: nat) returns (v: nat)
    requires var w := Run(EMPTY, steps); k in w.prompts && i < |w.prompts[k].calls|
    ensures var w := Run(EMPTY, steps);
      var c := w.prompts[k].calls[i];
      && c.version < |w.prompts[k].history|
      && c.request.model == c.model.spec.model
      && var ref := w.prompts[k].history[c.version].obj.spec.modelRef;
         var m := Key(if ref.namespace != "" then ref.namespace else k.namespace, ref.name);
         ReadyVersion(w, m, v, c.model)
  {
    RunInv(EMPTY, steps);
    var w := Run(EMPTY, steps);
    var c := w.prompts[k].calls[i];
    assert Served(w, k, c) && PP.Inv(w.prompts[k]) && PP.CallOk(w.prompts[k].history, c);
    var spec := w.prompts[k].history[c.version].obj.spec;
    ModelKeyIs(k, spec);
    v := ServedIsReady(w, k, c, ModelKey(k, spec));
  }

  /** A given namespace wins over the Prompt's own. */
  lemma ModelKeyIs(k: Key, spec: P.PromptSpec)
    ensures var ref := spec.modelRef;
      ModelKey(k, spec) == Key(if ref.namespace != "" then ref.namespace else k.namespace, ref.name)
  {
  }

  lemma ServedIsReady(w: State, k: Key, c: PP.GenerateCall, m: Key) returns (v: nat)
    requires k in w.prompts && Served(w, k, c) && m == ModelKey(k, w.prompts[k].history[c.version].obj.spec)
    requires MP.Inv(w.models[m]) && M.GateOpen(c.model)
    ensures ReadyVersion(w, m, v, c.model)
  {
    v :| v < |w.models[m].history| && w.models[m].history[v].obj == c.model;
    GateMeansReady(w.models[m], v);
  }

  lemma GateMeansReady(s: MP.Sys, v: nat)
    requires MP.Inv(s) && v < |s.history| && M.GateOpen(s.history[v].obj)
    ensures s.history[MP.Writer(s.history, v)].origin == M.PassEnded(M.BecameAvailable)
  {
    assert MP.EntryOk(s.history, v);
    MP.GateIsOpen(s.history[v].obj, 0, 0);
    MP.FitsDecidesGate(s.history[MP.Writer(s.history, v)].origin, C.AsMap(s.history[v].obj.status.conditions));
  }

  /**
   * Every stored response is the answer to a call that such a Model version allowed; the context, time and metrics
   * stored with it are those of the answer.
   */
  lemma ResponsesComeFromReadyModels(steps: seq<Step>, k: Key, u: nat) returns (i: nat, v: nat)
    requires var w := Run(EMPTY, steps);
      k in w.prompts && u < |w.prompts[k].history| && w.prompts[k].history[u].obj.status.response != ""
    ensures var w := Run(EMPTY, steps);
      var s := w.prompts[k];
      && i < |s.calls| && s.calls[i].answers.generate.Done? && s.calls[i].version < |s.history|
      && PP.Holds(s.history[u].obj.status, s.calls[i].answers.generate.value)
      && var ref := s.history[s.calls[i].version].obj.spec.modelRef;
         var m := Key(if ref.namespace != "" then ref.namespace else k.namespace, ref.name);
         ReadyVersion(w, m, v, s.calls[i].model)
  {
    RunInv(EMPTY, steps);
    var w := Run(EMPTY, steps);
    var s := w.prompts[k];
    i := PP.StoredAnswer(s, u);
    v := GenerateNeedsReadyModel(steps, k, i);
  }
}
