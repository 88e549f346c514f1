/** A run in which the watch on Models loses a wake-up: the list of Prompts fails when the Model becomes ready. */
module LostWakeUp {
  import opened Common
  import opened VersionedStore
  import C = Conditions
  import M = ModelPass
  import P = PromptPass
  import MP = ModelProtocol
  import PP = PromptProtocol
  import PC = PromptConvergence
  import Q = Quiet
  import W = World
  import opened WakeUp

  const MODEL: Key := Key("default", "llama")
  const PROMPT: Key := Key("default", "question")

  const MODEL_SPEC: M.ModelSpec := M.ModelSpec("", "llama3")
  const PROMPT_SPEC: P.PromptSpec := P.PromptSpec(P.ModelRef("llama", ""), "why?", "", "", "", "", "", [])

  const DETAILS: M.Details := M.Details("8B", "Q4", "", "gguf", "llama", [])

  /** The model is there already, so the pass needs no pull. */
  const MODEL_ANSWERS: M.Answers :=
    M.Answers(Done([]), M.StsState(true, ""), Done(["llama3"]), None, Done(DETAILS), Accepted, 1, 1, 1)

  const PROMPT_ANSWERS: P.Answers := P.Answers(Done(""), (n: nat) => P.Panics, "", Failed("not asked"), 1, 1)

  // ---------------------------------------------------------------- the Prompt parks

  const PROMPT_0: PP.Sys := PP.InitSys(PROMPT_SPEC)

  function Begun(s: PP.Sys): PP.Sys { PP.Apply(s, PP.Begin(0, |s.history| - 1, P.Missing, PROMPT_ANSWERS)) }

  function Parking(s: PP.Sys): PP.Sys { PP.Apply(Begun(s), PP.Write(0, Accepted)) }

  const PROMPT_1: PP.Sys := Parking(PROMPT_0)

  /** A pass that finds no Model. */
  lemma ParkingPass(s: PP.Sys)
    requires s.flights == map[] && s.calls == [] && Last(s.history).obj.status.response == ""
    ensures Begun(s).flights.Keys == {0} && Begun(s).history == s.history
    ensures
      var f := Begun(s).flights[0];
      && f.err.None? && f.requeue == NoRequeue && f.how == P.NoModel
      && P.Update(s.history, f.version, f.status, f.how, Accepted).err.None?
    ensures Parking(s) == PP.Sys(PC.Pass(s.history, P.Missing, PROMPT_ANSWERS).history, map[], [])
  {
    var h := s.history;
    var b := P.RunBody(Last(h).obj, P.Missing, PROMPT_ANSWERS);
    var f := PP.ToWrite(|h| - 1, b, PROMPT_ANSWERS);
    assert Begun(s) == PP.Sys(h, map[0 := f], []);
    assert map[0 := f] - {0} == map[];
    assert h + [] == h;
  }

  /** The first pass stores a version, the second none. */
  lemma ParkedTwice()
    ensures |PROMPT_1.history| == 2 && PROMPT_1.flights == map[] && PROMPT_1.calls == []
    ensures Last(PROMPT_1.history).obj.status.response == "" && Last(PROMPT_1.history).obj.spec == PROMPT_SPEC
    ensures Parking(PROMPT_1) == PROMPT_1
  {
    var h := PROMPT_0.history;
    ParkingPass(PROMPT_0);
    Q.PromptPass(h, P.Missing, PROMPT_ANSWERS);
    Q.BodyKeepsSpec(h[0].obj, P.Missing, PROMPT_ANSWERS);
    var f := Q.PromptFinal(h[0].obj, P.Missing, PROMPT_ANSWERS);
    assert f.status.response == "" && f.status.observedGeneration == 1;
    assert h[0].obj.status.observedGeneration == 0;
    ParkingPass(PROMPT_1);
    Q.PromptPassRepeats(h, P.Missing, PROMPT_ANSWERS, PROMPT_ANSWERS);
  }

  // ---------------------------------------------------------------- the Model becomes ready

  const MODEL_0: MP.Sys := MP.InitSys(MODEL_SPEC)
  const MODEL_1: MP.Sys := MP.Apply(MODEL_0, MP.Begin(0, 0, MODEL_ANSWERS, 0))
  const MODEL_2: MP.Sys := MP.Apply(MODEL_1, MP.Write(0, Accepted))

  lemma ModelBecomesReady()
    ensures |MODEL_2.history| == 2 && M.GateOpen(Last(MODEL_2.history).obj)
  {
    var m := MODEL_0.history[0].obj;
    assert M.Probe(m, MODEL_ANSWERS) == M.MustShow(m);
    var f := MODEL_1.flights[0];
    assert f.AtWrite? && f.version == 0 && f.how == M.BecameAvailable && f.status.observedGeneration == 1;
    assert m.status.observedGeneration == 0;
    var steps := [MP.Begin(0, 0, MODEL_ANSWERS, 0), MP.Write(0, Accepted)];
    assert steps[1..] == [steps[1]] && steps[1..][1..] == [];
    assert MP.Run(MODEL_1, steps[1..]) == MP.Run(MODEL_2, []) == MODEL_2;
    assert MP.Run(MODEL_0, steps) == MODEL_2;
    MP.GateTheorem(MODEL_SPEC, steps, 1);
  }

  // ---------------------------------------------------------------- the run

  /** A state with this Model, this Prompt, what the caches hold of the Prompt, the queue, and the last pass over it. */
  function Only(m: MP.Sys, p: PP.Sys, cached: map<Key, nat>, queue: set<Key>, seen: map<Key, Seen>): State {
    State(W.State(map[MODEL := m], map[PROMPT := p]), map[], cached, {}, {}, queue, map[], seen)
  }

  function SeenAt(n: nat): map<Key, Seen> { map[PROMPT := Seen(n, MODEL, 0, P.NoModel)] }

  function Worlds(m: MP.Sys, p: PP.Sys): W.State { W.State(map[MODEL := m], map[PROMPT := p]) }

  lemma ReadsWorld(p: PP.Sys)
    requires Last(p.history).obj.spec == PROMPT_SPEC
    ensures W.Apply(Worlds(MODEL_0, p), W.Reads(PROMPT, 0, |p.history| - 1, None, None, PROMPT_ANSWERS))
      == Worlds(MODEL_0, Begun(p))
  {
    var w := Worlds(MODEL_0, p);
    var st := W.Reads(PROMPT, 0, |p.history| - 1, None, None, PROMPT_ANSWERS);
    assert W.ModelKey(PROMPT, PROMPT_SPEC) == MODEL;
    assert W.ReadModel(w, MODEL, None, None) == P.Missing;
    assert W.DoReads(w, st).prompts == map[PROMPT := p][PROMPT := Begun(p)];
    assert map[PROMPT := p][PROMPT := Begun(p)] == map[PROMPT := Begun(p)];
  }

  lemma WritesWorld(p: PP.Sys)
    ensures W.Apply(Worlds(MODEL_0, Begun(p)), W.OfPrompt(PROMPT, PP.Write(0, Accepted))) == Worlds(MODEL_0, Parking(p))
  {
    assert map[PROMPT := Begun(p)][PROMPT := Parking(p)] == map[PROMPT := Parking(p)];
  }

  lemma ModelWorld(m: MP.Sys, p: PP.Sys, step: MP.Step)
    ensures W.Apply(Worlds(m, p), W.OfModel(MODEL, step)) == Worlds(MP.Apply(m, step), p)
  {
    assert map[MODEL := m][MODEL := MP.Apply(m, step)] == map[MODEL := MP.Apply(m, step)];
  }

  lemma TakeParks(s: State, p: PP.Sys)
    requires s.world == Worlds(MODEL_0, p) && s.modelCache == map[]
    requires s.promptCache == map[PROMPT := |p.history|] && s.queue == {PROMPT}
    requires s.busy == map[] && s.seen.Keys <= {PROMPT}
    requires p.flights == map[] && p.calls == [] && Last(p.history).obj.status.response == ""
    requires Last(p.history).obj.spec == PROMPT_SPEC
    ensures WakeUp.Apply(s, Take(PROMPT, 0, None, PROMPT_ANSWERS)) ==
      s.(world := Worlds(MODEL_0, Begun(p)), queue := {}, busy := map[PROMPT := 0], seen := SeenAt(|p.history|))
  {
    TakeReads(s, p);
    ReadsWorld(p);
    assert s.queue - {PROMPT} == {};
    assert s.busy[PROMPT := 0] == map[PROMPT := 0];
    assert s.seen[PROMPT := Seen(|p.history|, MODEL, 0, P.NoModel)] == SeenAt(|p.history|);
  }

  lemma TakeReads(s: State, p: PP.Sys)
    requires s.world == Worlds(MODEL_0, p) && s.modelCache == map[] && s.promptCache == map[PROMPT := |p.history|]
    requires Last(p.history).obj.status.response == "" && Last(p.history).obj.spec == PROMPT_SPEC
    ensures InCache(s, PROMPT)
    ensures Reading(s, Take(PROMPT, 0, None, PROMPT_ANSWERS))
      == W.Reads(PROMPT, 0, |p.history| - 1, None, None, PROMPT_ANSWERS)
    ensures Look(s, PROMPT, None, PROMPT_ANSWERS) == Seen(|p.history|, MODEL, 0, P.NoModel)
  {
    assert Cached(s, PROMPT) == Last(p.history).obj;
    assert W.ModelKey(PROMPT, PROMPT_SPEC) == MODEL;
  }

  lemma SettleParks(s: State, p: PP.Sys)
    requires s.world == Worlds(MODEL_0, Begun(p)) && s.busy == map[PROMPT := 0]
    requires p.flights == map[] && p.calls == [] && Last(p.history).obj.status.response == ""
    ensures WakeUp.Apply(s, Settle(PROMPT, Accepted)) == s.(world := Worlds(MODEL_0, Parking(p)), busy := map[])
  {
    ParkingPass(p);
    WritesWorld(p);
    assert map[PROMPT := 0] - {PROMPT} == map[];
    assert WakeUp.Apply(s, Settle(PROMPT, Accepted)) == DoSettle(s, Settle(PROMPT, Accepted));
  }

  /** The cache receives the latest version of the Prompt, and a pass over it finds no Model and writes. */
  function Round(n: nat): seq<Step> {
    [DeliverPrompt(PROMPT, n), Take(PROMPT, 0, None, PROMPT_ANSWERS), Settle(PROMPT, Accepted)]
  }

  lemma RoundTrip(p: PP.Sys, cached: map<Key, nat>, seen: map<Key, Seen>)
    requires p.flights == map[] && p.calls == [] && Last(p.history).obj.status.response == ""
    requires Last(p.history).obj.spec == PROMPT_SPEC
    requires cached.Keys <= {PROMPT} && Count(cached, PROMPT) < |p.history| && seen.Keys <= {PROMPT}
    ensures Run(Only(MODEL_0, p, cached, {}, seen), Round(|p.history|))
         == Only(MODEL_0, Parking(p), map[PROMPT := |p.history|], {}, SeenAt(|p.history|))
  {
    var n := |p.history|;
    var s := Only(MODEL_0, p, cached, {}, seen);
    var s1 := WakeUp.Apply(s, DeliverPrompt(PROMPT, n));
    assert cached[PROMPT := n] == map[PROMPT := n];
    assert s1 == Only(MODEL_0, p, map[PROMPT := n], {PROMPT}, seen);
    TakeParks(s1, p);
    SettleParks(WakeUp.Apply(s1, Round(n)[1]), p);
    RunThree(s, Round(n));
  }

  lemma RunThree(s: State, steps: seq<Step>)
    requires |steps| == 3
    ensures Run(s, steps) == WakeUp.Apply(WakeUp.Apply(WakeUp.Apply(s, steps[0]), steps[1]), steps[2])
  {
    assert steps[1..][1..] == [steps[2]] && steps[1..][1..][1..] == [];
    assert steps[1..][0] == steps[1];
    RunTwo(WakeUp.Apply(s, steps[0]), steps[1..]);
  }

  lemma RunTwo(s: State, steps: seq<Step>)
    requires |steps| == 2
    ensures Run(s, steps) == WakeUp.Apply(WakeUp.Apply(s, steps[0]), steps[1])
  {
    var s2 := WakeUp.Apply(WakeUp.Apply(s, steps[0]), steps[1]);
    assert steps[1..] == [steps[1]] && steps[1..][1..] == [];
    assert Run(s2, []) == s2;
  }

  lemma {:induction false} RunConcat(s: State, a: seq<Step>, b: seq<Step>)
    ensures Run(s, a + b) == Run(Run(s, a), b)
    decreases |a|
  {
    if a == [] {
      assert a + b == b;
    } else {
      assert (a + b)[0] == a[0] && (a + b)[1..] == a[1..] + b;
      RunConcat(WakeUp.Apply(s, a[0]), a[1..], b);
    }
  }

  const CREATION: seq<Step> := [
    WorldMoves(W.CreateModel(MODEL, MODEL_SPEC)), WorldMoves(W.CreatePrompt(PROMPT, PROMPT_SPEC))
  ]

  const READINESS: seq<Step> := [
    WorldMoves(W.OfModel(MODEL, MP.Begin(0, 0, MODEL_ANSWERS, 0))), WorldMoves(W.OfModel(MODEL, MP.Write(0, Accepted)))
  ]

  const MISSED: seq<Step> := [DeliverModel(MODEL, 2), HandleModel(MODEL, false)]

  const STEPS: seq<Step> := CREATION + Round(1) + Round(2) + READINESS + MISSED

  lemma Created()
    ensures Run(WakeUp.EMPTY, CREATION) == Only(MODEL_0, PROMPT_0, map[], {}, map[])
  {
    var w1 := W.Apply(W.EMPTY, W.CreateModel(MODEL, MODEL_SPEC));
    assert w1 == W.State(map[MODEL := MODEL_0], map[]);
    var w2 := W.Apply(w1, W.CreatePrompt(PROMPT, PROMPT_SPEC));
    assert w2 == Worlds(MODEL_0, PROMPT_0);
    RunTwo(WakeUp.EMPTY, CREATION);
  }

  function Ready(): State { Only(MODEL_2, PROMPT_1, map[PROMPT := 2], {}, SeenAt(2)) }

  lemma Readied()
    ensures Run(Only(MODEL_0, PROMPT_1, map[PROMPT := 2], {}, SeenAt(2)), READINESS) == Ready()
  {
    var s := Only(MODEL_0, PROMPT_1, map[PROMPT := 2], {}, SeenAt(2));
    ModelWorld(MODEL_0, PROMPT_1, MP.Begin(0, 0, MODEL_ANSWERS, 0));
    ModelWorld(MODEL_1, PROMPT_1, MP.Write(0, Accepted));
    RunTwo(s, READINESS);
  }

  function Lost(): State { Ready().(modelCache := map[MODEL := 2], missed := {PROMPT}) }

  lemma DeliverAndMiss(s: State, n: nat)
    requires MODEL in s.world.models && 0 < n <= |s.world.models[MODEL].history|
    requires s.modelCache == map[] && s.events == {} && s.missed == {} && s.queue == {}
    requires s.promptCache.Keys == {PROMPT} && InCache(s, PROMPT) && Cached(s, PROMPT).spec == PROMPT_SPEC
    requires PROMPT in s.seen && Parked(s.seen[PROMPT].how)
    ensures WakeUp.Apply(WakeUp.Apply(s, DeliverModel(MODEL, n)), HandleModel(MODEL, false))
         == s.(modelCache := map[MODEL := n], missed := {PROMPT})
  {
    var s1 := WakeUp.Apply(s, DeliverModel(MODEL, n));
    assert map[][MODEL := n] == map[MODEL := n];
    assert s1 == s.(modelCache := map[MODEL := n], events := {MODEL});
    assert Cached(s1, PROMPT) == Cached(s, PROMPT);
    assert PassedOver(s1, MODEL) == {PROMPT};
    assert s1.events - {MODEL} == {} && s1.missed + {PROMPT} == {PROMPT};
  }

  lemma Missed()
    ensures Run(Ready(), MISSED) == Lost()
  {
    ModelBecomesReady();
    ParkedTwice();
    DeliverAndMiss(Ready(), 2);
    RunTwo(Ready(), MISSED);
  }

  lemma EndsLost()
    ensures Run(WakeUp.EMPTY, STEPS) == Lost()
  {
    ParkedTwice();
    Created();
    RoundTrip(PROMPT_0, map[], map[]);
    RoundTrip(PROMPT_1, map[PROMPT := 1], SeenAt(1));
    Readied();
    Missed();
    RunConcat(WakeUp.EMPTY, CREATION, Round(1));
    RunConcat(WakeUp.EMPTY, CREATION + Round(1), Round(2));
    RunConcat(WakeUp.EMPTY, CREATION + Round(1) + Round(2), READINESS);
    RunConcat(WakeUp.EMPTY, CREATION + Round(1) + Round(2) + READINESS, MISSED);
  }

  /**
   * At the end of this run the gate is open, the caches are up to date and no event, request or pass is left, but the
   * Prompt is asleep.
   */
  lemma WakeUpCanBeLost()
    ensures var s := Run(WakeUp.EMPTY, STEPS);
      && OpenFor(s, PROMPT) && Asleep(s, PROMPT)
      && s.events == {} && s.queue == {} && s.busy == map[]
  {
    EndsLost();
    ParkedTwice();
    ModelBecomesReady();
    assert W.ModelKey(PROMPT, PROMPT_SPEC) == MODEL;
  }
}
