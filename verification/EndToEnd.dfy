/** From any state that the two controllers can reach, undisturbed passes lead to an answer. */
module EndToEnd {
  import opened Common
  import opened VersionedStore
  import C = Conditions
  import M = ModelPass
  import P = PromptPass
  import MP = ModelProtocol
  import MR = ModelRefinement
  import MC = ModelConvergence
  import PP = PromptProtocol
  import PC = PromptConvergence
  import W = World
  import Codec = ContextCodec

  /** A number that no pass under way has. */
  ghost function Unused(ids: set<nat>): (n: nat)
    ensures forall i :: i in ids ==> i < n
  {
    if ids == {} then 0
    else
      var i :| i in ids;
      var n := Unused(ids - {i});
      assert forall j :: j in ids ==> j == i || j in ids - {i};
      if i < n then n else i + 1
  }

  // ---------------------------------------------------------------- a pass nobody interferes with

  function Nobody(n: nat): seq<seq<MP.Step>> { seq(n, i => []) }

  /** The steps of a Model pass that reads the latest version and meets no other writer. */
  function ModelSteps(s: MP.Sys, id: nat, script: M.Script): seq<MP.Step> {
    MR.UpToWrite(s, id, |s.history| - 1, script, Nobody(|script.beats|)) + [MP.Write(id, script.answers.write)]
  }

  lemma {:induction false} NobodyMatches(s: MP.Sys, id: nat, beats: seq<M.Beat>, a: M.Answers)
    requires forall i :: 0 <= i < |beats| ==> beats[i].foreign == []
    ensures MR.BeatsMatch(s, id, beats, Nobody(|beats|), a)
    decreases |beats|
  {
    if beats != [] {
      var others := Nobody(|beats|);
      assert others[0] == [] && others[1..] == Nobody(|beats[1..]|);
      assert MP.Run(s, []) == s && M.Extend(s.history, []) == s.history;
      NobodyMatches(MR.AfterBeat(s, id, beats[0], [], a), id, beats[1..], a);
    }
  }

  lemma ModelStepsRun(s: MP.Sys, id: nat, script: M.Script)
    requires id !in s.flights && script.foreign == []
    requires forall i :: 0 <= i < |script.beats| ==> script.beats[i].foreign == []
    ensures MP.Run(s, ModelSteps(s, id, script)).history == M.RunPass(s.history, MC.Fresh(s.history), script).history
  {
    var others, v := Nobody(|script.beats|), |s.history| - 1;
    var upTo := MR.UpToWrite(s, id, v, script, others);
    NobodyMatches(MP.Apply(s, MP.Begin(id, v, script.answers, script.pullStart)), id, script.beats, script.answers);
    NothingHappens(MP.Run(s, upTo));
    NoOthers(s, id, v, script, others);
    assert upTo + [] + [MP.Write(id, script.answers.write)] == ModelSteps(s, id, script);
  }

  lemma NothingHappens(s: MP.Sys)
    ensures MP.Run(s, []) == s && M.Extend(s.history, []) == s.history
  {
  }

  /** PassIsRun without other writers. */
  lemma NoOthers(s: MP.Sys, id: nat, version: nat, script: M.Script, others: seq<seq<MP.Step>>)
    requires id !in s.flights && version < |s.history| && |script.beats| == |others| && script.foreign == []
    requires var s1 := MP.Apply(s, MP.Begin(id, version, script.answers, script.pullStart));
      MR.BeatsMatch(s1, id, script.beats, others, script.answers)
    requires var s2 := MP.Run(s, MR.UpToWrite(s, id, version, script, others));
      M.Extend(s2.history, []) == s2.history && MP.Run(s2, []) == s2
    ensures MP.Run(s, MR.UpToWrite(s, id, version, script, others) + [] + [MP.Write(id, script.answers.write)]).history
         == M.RunPass(s.history, M.Copy(version, s.history[version].obj), script).history
  {
    MR.PassIsRun(s, id, version, script, others, []);
  }

  // ---------------------------------------------------------------- the same in the world

  predicate Alone(s: M.Script) { s.foreign == [] && forall i :: 0 <= i < |s.beats| ==> s.beats[i].foreign == [] }

  function OfModel(m: Key, steps: seq<MP.Step>): seq<W.Step> {
    seq(|steps|, i requires 0 <= i < |steps| => W.OfModel(m, steps[i]))
  }

  lemma {:induction false} OfModelRuns(w: W.State, m: Key, steps: seq<MP.Step>)
    requires m in w.models
    ensures W.Run(w, OfModel(m, steps)) == w.(models := w.models[m := MP.Run(w.models[m], steps)])
    decreases |steps|
  {
    if steps == [] {
      assert w.models[m := w.models[m]] == w.models;
    } else {
      var w1 := W.Apply(w, W.OfModel(m, steps[0]));
      assert OfModel(m, steps)[1..] == OfModel(m, steps[1..]);
      OfModelRuns(w1, m, steps[1..]);
      assert w1.models[m := MP.Run(w1.models[m], steps[1..])] == w.models[m := MP.Run(w.models[m], steps)];
    }
  }

  lemma {:induction false} RunConcat(w: W.State, a: seq<W.Step>, b: seq<W.Step>)
    ensures W.Run(w, a + b) == W.Run(W.Run(w, a), b)
    decreases |a|
  {
    if a == [] {
      assert a + b == b;
    } else {
      assert (a + b)[0] == a[0] && (a + b)[1..] == a[1..] + b;
      RunConcat(W.Apply(w, a[0]), a[1..], b);
    }
  }

  /** The world after a Model pass that reads the latest version and meets no other writer. */
  ghost function AfterModelPass(w: W.State, m: Key, script: M.Script): W.State {
    if m in w.models then W.Run(w, OfModel(m, ModelSteps(w.models[m], Unused(w.models[m].flights.Keys), script))) else w
  }

  function PromptSteps(w: W.State, k: Key, m: Key, id: nat, a: P.Answers): seq<W.Step>
    requires k in w.prompts && m in w.models
  {
    [W.Reads(k, id, |w.prompts[k].history| - 1, Some(|w.models[m].history| - 1), None, a),
     W.OfPrompt(k, PP.Write(id, Accepted))]
  }

  /** The same for a Prompt pass, which also reads the latest version of its Model and whose write is accepted. */
  ghost function AfterPromptPass(w: W.State, k: Key, m: Key, a: P.Answers): W.State {
    if k in w.prompts && m in w.models then W.Run(w, PromptSteps(w, k, m, Unused(w.prompts[k].flights.Keys), a)) else w
  }

  lemma ModelPassRuns(w: W.State, m: Key, script: M.Script)
    requires W.Inv(w) && m in w.models && Alone(script)
    ensures var w' := AfterModelPass(w, m, script); var h := w.models[m].history;
      && W.Inv(w') && w'.prompts == w.prompts && m in w'.models
      && w'.models[m].history == M.RunPass(h, MC.Fresh(h), script).history
  {
    var id := Unused(w.models[m].flights.Keys);
    assert id !in w.models[m].flights;
    var steps := ModelSteps(w.models[m], id, script);
    OfModelRuns(w, m, steps);
    ModelStepsRun(w.models[m], id, script);
    W.RunInv(w, OfModel(m, steps));
  }

  /** The pass under way over the latest version. */
  predicate Flying(s: PP.Sys, h: P.History, id: nat, read: P.ModelRead, a: P.Answers) {
    s.history == h && id in s.flights && s.flights[id] == PP.ToWrite(|h| - 1, P.RunBody(Last(h).obj, read, a), a)
  }

  lemma ReadsWorld(w: W.State, k: Key, m: Key, id: nat, a: P.Answers) returns (s: PP.Sys)
    requires k in w.prompts && m in w.models && m == W.ModelKey(k, Last(w.prompts[k].history).obj.spec)
    requires id !in w.prompts[k].flights
    ensures W.Apply(w, PromptSteps(w, k, m, id, a)[0]) == w.(prompts := w.prompts[k := s])
    ensures Flying(s, w.prompts[k].history, id, P.Found(Last(w.models[m].history).obj), a)
  {
    var read := P.Found(Last(w.models[m].history).obj);
    assert W.ReadModel(w, m, Some(|w.models[m].history| - 1), None) == read;
    s := BeginFlies(w.prompts[k], id, read, a);
  }

  lemma BeginFlies(s: PP.Sys, id: nat, read: P.ModelRead, a: P.Answers) returns (s': PP.Sys)
    requires id !in s.flights
    ensures s' == PP.Apply(s, PP.Begin(id, |s.history| - 1, read, a)) && Flying(s', s.history, id, read, a)
  {
    s' := PP.Apply(s, PP.Begin(id, |s.history| - 1, read, a));
  }

  lemma WritesWorld(w: W.State, k: Key, s: PP.Sys, h: P.History, id: nat, read: P.ModelRead, a: P.Answers)
    returns (s': PP.Sys)
    requires Flying(s, h, id, read, a)
    ensures W.Apply(w.(prompts := w.prompts[k := s]), W.OfPrompt(k, PP.Write(id, Accepted)))
      == w.(prompts := w.prompts[k := s'])
    ensures s'.history == PC.Pass(h, read, a).history
  {
    s' := PP.Apply(s, PP.Write(id, Accepted));
    assert w.prompts[k := s][k := s'] == w.prompts[k := s'];
    assert h + [] == h;
  }

  lemma PromptPassWorld(w: W.State, k: Key, m: Key, id: nat, a: P.Answers)
    requires k in w.prompts && m in w.models && m == W.ModelKey(k, Last(w.prompts[k].history).obj.spec)
    requires id !in w.prompts[k].flights
    ensures var w' := W.Run(w, PromptSteps(w, k, m, id, a)); var h := w.prompts[k].history;
      && w'.models == w.models && k in w'.prompts
      && w'.prompts[k].history == PC.Pass(h, P.Found(Last(w.models[m].history).obj), a).history
  {
    var s := ReadsWorld(w, k, m, id, a);
    var s' := WritesWorld(w, k, s, w.prompts[k].history, id, P.Found(Last(w.models[m].history).obj), a);
    RunTwo(w, PromptSteps(w, k, m, id, a), w.(prompts := w.prompts[k := s]), w.(prompts := w.prompts[k := s']));
  }

  lemma RunTwo(w: W.State, steps: seq<W.Step>, w1: W.State, w2: W.State)
    requires |steps| == 2 && W.Apply(w, steps[0]) == w1 && W.Apply(w1, steps[1]) == w2
    ensures W.Run(w, steps) == w2
  {
    assert steps[1..] == [steps[1]] && steps[1..][1..] == [];
    assert W.Run(w2, []) == w2;
  }

  lemma PromptPassRuns(w: W.State, k: Key, m: Key, a: P.Answers)
    requires k in w.prompts && m in w.models && m == W.ModelKey(k, Last(w.prompts[k].history).obj.spec)
    ensures var w' := AfterPromptPass(w, k, m, a); var h := w.prompts[k].history;
      && w'.models == w.models && k in w'.prompts
      && w'.prompts[k].history == PC.Pass(h, P.Found(Last(w.models[m].history).obj), a).history
  {
    var id := Unused(w.prompts[k].flights.Keys);
    assert id !in w.prompts[k].flights;
    PromptPassWorld(w, k, m, id, a);
  }

  // ---------------------------------------------------------------- the theorem

  /** In a reachable history, Ready means an open gate. */
  lemma ReadyMeansOpen(s: MP.Sys)
    requires MP.Inv(s) && C.Lookup(Last(s.history).obj.status.conditions, C.TYPE_READY).status == C.True
    ensures M.GateOpen(Last(s.history).obj)
  {
    var v := |s.history| - 1;
    var m := s.history[v].obj;
    assert MP.EntryOk(s.history, v);
    C.AsMapDomain(m.status.conditions, C.TYPE_READY);
    MP.GateIsOpen(m, 0, 0);
    MP.FitsDecidesGate(s.history[MP.Writer(s.history, v)].origin, C.AsMap(m.status.conditions));
  }

  /** Two undisturbed Model passes, the second of which meets what ollama lists after the first. */
  ghost predicate ModelCooperates(h: M.History, s1: M.Script, s2: M.Script, models: seq<string>, details: M.Details) {
    && MC.Undisturbed(Last(h).obj, s1, models, details)
    && var h1 := M.RunPass(h, MC.Fresh(h), s1).history;
       MC.Undisturbed(Last(h1).obj, s2, MC.ListAfter(Last(h).obj, models), details)
  }

  lemma TwoModelPasses(w: W.State, m: Key, s1: M.Script, s2: M.Script, models: seq<string>, details: M.Details)
    requires W.Inv(w) && m in w.models && Alone(s1) && Alone(s2)
    requires ModelCooperates(w.models[m].history, s1, s2, models, details)
    ensures var w2 := AfterModelPass(AfterModelPass(w, m, s1), m, s2);
      W.Inv(w2) && w2.prompts == w.prompts && m in w2.models && M.GateOpen(Last(w2.models[m].history).obj)
  {
    var h := w.models[m].history;
    var w1 := AfterModelPass(w, m, s1);
    var w2 := AfterModelPass(w1, m, s2);
    ModelPassRuns(w, m, s1);
    ModelPassRuns(w1, m, s2);
    MC.PassConverges(h, s1, models, details);
    MC.PassConverges(w1.models[m].history, s2, MC.ListAfter(Last(h).obj, models), details);
    MC.HoldsLookup(Last(w2.models[m].history).obj.status.conditions, C.Available(0));
    ReadyMeansOpen(w2.models[m]);
  }

  /** Options, images and context are valid and ollama answers something that is not blank. */
  ghost predicate PromptCooperates(p: P.Prompt, a: P.Answers) {
    && P.Options(p.spec.options, a).Done?
    && P.LoadImages(0, |p.spec.images|, a.image).Loaded?
    && Codec.DecodeContext(p.spec.context).Context?
    && a.generate.Done? && !P.Blank(a.generate.value.text)
  }

  lemma TwoPromptPasses(w: W.State, k: Key, m: Key, a1: P.Answers, a2: P.Answers)
    requires k in w.prompts && m in w.models
    requires m == W.ModelKey(k, Last(w.prompts[k].history).obj.spec) && M.GateOpen(Last(w.models[m].history).obj)
    requires PromptCooperates(Last(w.prompts[k].history).obj, a1)
    requires PromptCooperates(Last(w.prompts[k].history).obj, a2)
    ensures var w2 := AfterPromptPass(AfterPromptPass(w, k, m, a1), k, m, a2);
      k in w2.prompts && Last(w2.prompts[k].history).obj.status.response != ""
  {
    var h, read := w.prompts[k].history, P.Found(Last(w.models[m].history).obj);
    var w1 := AfterPromptPass(w, k, m, a1);
    PromptPassRuns(w, k, m, a1);
    PC.PassConverges(h, read, a1);
    var h1 := w1.prompts[k].history;
    PromptPassRuns(w1, k, m, a2);
    if Last(h).obj.status.response == "" {
      PC.TwoPassesAnswer(h, read, read, a1, a2);
    } else {
      PC.KeptPass(h, read, a1);
      PC.KeptPass(h1, read, a2);
    }
  }

  /**
   * From every state that any run of both controllers reaches, whatever passes are under way: two undisturbed passes
   * over the Model that a Prompt refers to, and then two over the Prompt, store a response.
   */
  lemma AnsweredInTheEnd(start: seq<W.Step>, k: Key, s1: M.Script, s2: M.Script,
                         models: seq<string>, details: M.Details, a1: P.Answers, a2: P.Answers)
    requires
      var w := W.Run(W.EMPTY, start);
      && k in w.prompts
      && var p := Last(w.prompts[k].history).obj;
         var m := W.ModelKey(k, p.spec);
         && m in w.models && Alone(s1) && Alone(s2)
         && ModelCooperates(w.models[m].history, s1, s2, models, details)
         && PromptCooperates(p, a1) && PromptCooperates(p, a2)
    ensures
      var w := W.Run(W.EMPTY, start);
      var m := W.ModelKey(k, Last(w.prompts[k].history).obj.spec);
      var w2 := AfterModelPass(AfterModelPass(w, m, s1), m, s2);
      var w4 := AfterPromptPass(AfterPromptPass(w2, k, m, a1), k, m, a2);
      k in w4.prompts && Last(w4.prompts[k].history).obj.status.response != ""
  {
    W.RunInv(W.EMPTY, start);
    var w := W.Run(W.EMPTY, start);
    var m := W.ModelKey(k, Last(w.prompts[k].history).obj.spec);
    TwoModelPasses(w, m, s1, s2, models, details);
    TwoPromptPasses(AfterModelPass(AfterModelPass(w, m, s1), m, s2), k, m, a1, a2);
  }
}
