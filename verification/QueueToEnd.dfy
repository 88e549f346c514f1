/**
 * From any state of caches, events and work queue, some bounded schedule of Model passes, deliveries, takes and settles
 * ends in an answer: directly if the Prompt is queued, after a restart of the controller in any case.
 */
module QueueToEnd {
  import opened Common
  import opened VersionedStore
  import M = ModelPass
  import P = PromptPass
  import MP = ModelProtocol
  import MR = ModelRefinement
  import PP = PromptProtocol
  import PC = PromptConvergence
  import W = World
  import E = EndToEnd
  import U = WakeUp

  // ---------------------------------------------------------------- steps of the world, seen from the queue

  function Moves(steps: seq<W.Step>): seq<U.Step> {
    seq(|steps|, i requires 0 <= i < |steps| => U.WorldMoves(steps[i]))
  }

  lemma {:induction false} MovesRun(s: U.State, steps: seq<W.Step>)
    requires forall i :: 0 <= i < |steps| ==> U.Outside(steps[i])
    ensures U.Run(s, Moves(steps)) == s.(world := W.Run(s.world, steps))
    decreases |steps|
  {
    if steps != [] {
      assert U.Outside(steps[0]);
      assert Moves(steps)[1..] == Moves(steps[1..]);
      MovesRun(U.Apply(s, Moves(steps)[0]), steps[1..]);
    }
  }

  lemma {:induction false} RunConcat(s: U.State, a: seq<U.Step>, b: seq<U.Step>)
    ensures U.Run(s, a + b) == U.Run(U.Run(s, a), b)
    decreases |a|
  {
    if a == [] {
      assert a + b == b;
    } else {
      assert (a + b)[0] == a[0] && (a + b)[1..] == a[1..] + b;
      RunConcat(U.Apply(s, a[0]), a[1..], b);
    }
  }

  lemma RunOne(s: U.State, st: U.Step)
    ensures U.Run(s, [st]) == U.Apply(s, st)
  {
    assert [st][1..] == [];
    assert U.Run(U.Apply(s, st), []) == U.Apply(s, st);
  }

  lemma WorldInv(s: U.State, st: U.Step)
    requires W.Inv(s.world)
    ensures W.Inv(U.Apply(s, st).world)
  {
    match st
    case WorldMoves(step) => W.StepInv(s.world, step);
    case Take(k, id, _, _) =>
      if k in s.queue && k !in s.busy && U.InCache(s, k) && id !in s.world.prompts[k].flights {
        W.StepInv(s.world, U.Reading(s, st));
      }
    case Settle(k, reply) =>
      if k in s.busy && k in s.world.prompts { W.StepInv(s.world, W.OfPrompt(k, PP.Write(s.busy[k], reply))); }
    case _ =>
  }

  lemma {:induction false} RunWorldInv(s: U.State, steps: seq<U.Step>)
    requires W.Inv(s.world)
    ensures W.Inv(U.Run(s, steps).world)
    decreases |steps|
  {
    if steps != [] {
      WorldInv(s, steps[0]);
      RunWorldInv(U.Apply(s, steps[0]), steps[1..]);
    }
  }

  // ---------------------------------------------------------------- a pass from the queue

  /** The caches have the latest versions of a Prompt and its Model, and no pass over the Prompt is under way. */
  ghost predicate Current(s: U.State, k: Key, m: Key) {
    && k in s.world.prompts && m in s.world.models
    && m == W.ModelKey(k, Last(s.world.prompts[k].history).obj.spec)
    && U.Count(s.promptCache, k) == |s.world.prompts[k].history|
    && U.Count(s.modelCache, m) == |s.world.models[m].history|
    && k !in s.busy
  }

  /** What a pass from the queue reads, and the history it leaves. */
  function Reads(w: W.State, m: Key): P.ModelRead
    requires m in w.models
  {
    P.Found(Last(w.models[m].history).obj)
  }

  function Outcome(w: W.State, k: Key, m: Key, a: P.Answers): P.Outcome
    requires k in w.prompts && m in w.models
  {
    PC.Pass(w.prompts[k].history, Reads(w, m), a)
  }

  lemma TakeCurrent(s: U.State, k: Key, m: Key, id: nat, a: P.Answers)
    requires Current(s, k, m) && k in s.queue && id !in s.world.prompts[k].flights
    ensures var s' := U.Apply(s, U.Take(k, id, None, a));
      && s'.world == W.Apply(s.world, E.PromptSteps(s.world, k, m, id, a)[0])
      && s'.busy == s.busy[k := id] && s'.promptCache == s.promptCache && s'.modelCache == s.modelCache
  {
    assert U.InCache(s, k) && U.Cached(s, k) == Last(s.world.prompts[k].history).obj;
    assert U.ModelAt(s, m) == Some(|s.world.models[m].history| - 1);
  }

  lemma SettleCurrent(s: U.State, w: W.State, k: Key, p: PP.Sys, h: P.History, id: nat, read: P.ModelRead, a: P.Answers)
    requires s.world == w.(prompts := w.prompts[k := p]) && k in s.busy && s.busy[k] == id
    requires E.Flying(p, h, id, read, a)
    ensures var s' := U.Apply(s, U.Settle(k, Accepted));
      && s'.world == W.Apply(s.world, W.OfPrompt(k, PP.Write(id, Accepted)))
      && s'.busy == s.busy - {k} && s'.promptCache == s.promptCache && s'.modelCache == s.modelCache
      && (P.RunBody(Last(h).obj, read, a).requeue != NoRequeue ==> k in s'.queue)
  {
  }

  /** The steps of a pass from the queue, and the delivery of what it stored. */
  function Round(k: Key, id: nat, a: P.Answers, n: nat): seq<U.Step> {
    [U.Take(k, id, None, a), U.Settle(k, Accepted), U.DeliverPrompt(k, n)]
  }

  lemma RunThree(s: U.State, steps: seq<U.Step>)
    requires |steps| == 3
    ensures U.Run(s, steps) == U.Apply(U.Apply(U.Apply(s, steps[0]), steps[1]), steps[2])
  {
    assert steps == [steps[0]] + ([steps[1]] + [steps[2]]);
    RunConcat(s, [steps[0]], [steps[1]] + [steps[2]]);
    RunOne(s, steps[0]);
    RunConcat(U.Apply(s, steps[0]), [steps[1]], [steps[2]]);
    RunOne(U.Apply(s, steps[0]), steps[1]);
    RunOne(U.Apply(U.Apply(s, steps[0]), steps[1]), steps[2]);
  }

  /** A pass in the world, taken from the queue. */
  lemma PassFromQueue(s: U.State, k: Key, m: Key, id: nat, a: P.Answers) returns (p: PP.Sys)
    requires Current(s, k, m) && k in s.queue && id !in s.world.prompts[k].flights
    ensures var s2 := U.Apply(U.Apply(s, U.Take(k, id, None, a)), U.Settle(k, Accepted));
      && s2.world == s.world.(prompts := s.world.prompts[k := p])
      && p.history == Outcome(s.world, k, m, a).history
      && k !in s2.busy && s2.promptCache == s.promptCache && s2.modelCache == s.modelCache
      && (Outcome(s.world, k, m, a).requeue != NoRequeue ==> k in s2.queue)
  {
    var h, read := s.world.prompts[k].history, Reads(s.world, m);
    var s1 := U.Apply(s, U.Take(k, id, None, a));
    TakeCurrent(s, k, m, id, a);
    var flying := E.ReadsWorld(s.world, k, m, id, a);
    SettleCurrent(s1, s.world, k, flying, h, id, read, a);
    p := E.WritesWorld(s.world, k, flying, h, id, read, a);
  }

  lemma DeliverLatest(s: U.State, k: Key)
    requires k in s.world.prompts && U.Count(s.promptCache, k) <= |s.world.prompts[k].history|
    ensures var n := |s.world.prompts[k].history|; var s' := U.Apply(s, U.DeliverPrompt(k, n));
      && s'.world == s.world && s'.busy == s.busy && s'.modelCache == s.modelCache
      && U.Count(s'.promptCache, k) == n
      && (k in s'.queue <==> k in s.queue || U.Count(s.promptCache, k) < n)
  {
  }

  lemma RoundRuns(s: U.State, k: Key, m: Key, id: nat, a: P.Answers)
    requires Current(s, k, m) && k in s.queue && id !in s.world.prompts[k].flights
    ensures
      var out := Outcome(s.world, k, m, a);
      var s' := U.Run(s, Round(k, id, a, |out.history|));
      && k in s'.world.prompts && s'.world.prompts[k].history == out.history
      && s'.world.models == s.world.models
      && (Last(out.history).obj.spec == Last(s.world.prompts[k].history).obj.spec ==> Current(s', k, m))
      && (out.requeue != NoRequeue ==> k in s'.queue)
  {
    var out := Outcome(s.world, k, m, a);
    var steps := Round(k, id, a, |out.history|);
    var p := PassFromQueue(s, k, m, id, a);
    var s2 := U.Apply(U.Apply(s, steps[0]), steps[1]);
    PassGrows(s.world.prompts[k].history, Reads(s.world, m), a);
    DeliverLatest(s2, k);
    RunThree(s, steps);
  }

  lemma PassGrows(h: P.History, read: P.ModelRead, a: P.Answers)
    ensures |h| <= |PC.Pass(h, read, a).history|
  {
    assert h + [] == h;
  }

  ghost predicate IsAnswered(s: U.State, k: Key) {
    k in s.world.prompts && Last(s.world.prompts[k].history).obj.status.response != ""
  }

  predicate NoRestart(steps: seq<U.Step>) { forall i :: 0 <= i < |steps| ==> !steps[i].Restart? }

  /** Two schedules one after the other. */
  lemma Join(s: U.State, a: seq<U.Step>, b: seq<U.Step>, k: Key)
    requires IsAnswered(U.Run(U.Run(s, a), b), k)
    ensures IsAnswered(U.Run(s, a + b), k)
    ensures NoRestart(a) && NoRestart(b) ==> NoRestart(a + b)
  {
    RunConcat(s, a, b);
  }

  /** With current caches and an open gate, at most two passes from the queue answer a queued Prompt. */
  lemma TwoRounds(s: U.State, k: Key, m: Key, a1: P.Answers, a2: P.Answers) returns (steps: seq<U.Step>)
    requires Current(s, k, m) && k in s.queue && M.GateOpen(Last(s.world.models[m].history).obj)
    requires E.PromptCooperates(Last(s.world.prompts[k].history).obj, a1)
    requires E.PromptCooperates(Last(s.world.prompts[k].history).obj, a2)
    ensures |steps| <= 6 && IsAnswered(U.Run(s, steps), k) && NoRestart(steps)
  {
    if Last(s.world.prompts[k].history).obj.status.response != "" {
      steps := [];
    } else {
      var id := E.Unused(s.world.prompts[k].flights.Keys);
      assert id !in s.world.prompts[k].flights;
      steps := OneRound(s, k, m, id, a1);
      var s1 := U.Run(s, steps);
      if Last(s1.world.prompts[k].history).obj.status.response == "" {
        PC.TwoPassesAnswer(s.world.prompts[k].history, Reads(s.world, m), Reads(s.world, m), a1, a2);
        var id' := E.Unused(s1.world.prompts[k].flights.Keys);
        assert id' !in s1.world.prompts[k].flights;
        var more := OneRound(s1, k, m, id', a2);
        Join(s, steps, more, k);
        steps := steps + more;
      }
    }
  }

  lemma OneRound(s: U.State, k: Key, m: Key, id: nat, a: P.Answers) returns (steps: seq<U.Step>)
    requires Current(s, k, m) && k in s.queue && id !in s.world.prompts[k].flights
    requires M.GateOpen(Last(s.world.models[m].history).obj)
    requires E.PromptCooperates(Last(s.world.prompts[k].history).obj, a)
    requires Last(s.world.prompts[k].history).obj.status.response == ""
    ensures |steps| == 3 && NoRestart(steps)
    ensures var s' := U.Run(s, steps); var h := s.world.prompts[k].history;
      && Current(s', k, m) && s'.world.models == s.world.models
      && s'.world.prompts[k].history == PC.Pass(h, Reads(s.world, m), a).history
      && Last(s'.world.prompts[k].history).obj.spec == Last(h).obj.spec
      && (Last(s'.world.prompts[k].history).obj.status.response == "" ==> k in s'.queue)
  {
    steps := Round(k, id, a, |Outcome(s.world, k, m, a).history|);
    PassKeeps(s.world.prompts[k].history, Reads(s.world, m), a);
    RoundRuns(s, k, m, id, a);
  }

  /** A good pass keeps the spec, and it answers or asks to come back. */
  lemma PassKeeps(h: P.History, read: P.ModelRead, a: P.Answers)
    requires PC.Undisturbed(Last(h).obj, read, a) && !P.Blank(a.generate.value.text)
    requires Last(h).obj.status.response == ""
    ensures var out := PC.Pass(h, read, a);
      && Last(out.history).obj.spec == Last(h).obj.spec
      && (Last(out.history).obj.status.response == "" ==> out.requeue != NoRequeue)
  {
    P.TrimmedEmpty(a.generate.value.text);
    if P.IsWaiting(Last(h).obj) { PC.AnsweredPass(h, read, a); } else { PC.WaitingPass(h, read, a); }
  }

  // ---------------------------------------------------------------- the whole schedule

  /** How many steps a Model pass has. */
  lemma {:induction false} PullLength(s: MP.Sys, id: nat, beats: seq<M.Beat>, a: M.Answers)
    ensures |MR.PullSteps(s, id, beats, E.Nobody(|beats|), a)| <= |beats| + 1
    decreases |beats|
  {
    if beats != [] {
      var others := E.Nobody(|beats|);
      assert others[0] == [] && others[1..] == E.Nobody(|beats[1..]|);
      PullLength(MR.AfterBeat(s, id, beats[0], [], a), id, beats[1..], a);
    }
  }

  /** The steps of a Model pass with nobody else around, as moves of the world. */
  ghost function ModelMoves(w: W.State, m: Key, script: M.Script): seq<W.Step>
    requires m in w.models
  {
    E.OfModel(m, E.ModelSteps(w.models[m], E.Unused(w.models[m].flights.Keys), script))
  }

  lemma ModelMovesRun(s: U.State, m: Key, script: M.Script)
    requires m in s.world.models
    ensures U.Run(s, Moves(ModelMoves(s.world, m, script))) == s.(world := E.AfterModelPass(s.world, m, script))
    ensures |ModelMoves(s.world, m, script)| <= |script.beats| + 3
  {
    var sys, id := s.world.models[m], E.Unused(s.world.models[m].flights.Keys);
    MovesRun(s, ModelMoves(s.world, m, script));
    PullLength(MP.Apply(sys, MP.Begin(id, |sys.history| - 1, script.answers, script.pullStart)), id, script.beats,
      script.answers);
  }

  /** The Model of a Prompt and what the surroundings do: two good Model passes, two good answers. */
  ghost predicate Cooperates(w: W.State, k: Key, s1: M.Script, s2: M.Script, models: seq<string>, details: M.Details,
                             a1: P.Answers, a2: P.Answers)
  {
    && k in w.prompts
    && var p := Last(w.prompts[k].history).obj;
       var m := W.ModelKey(k, p.spec);
       && m in w.models && E.Alone(s1) && E.Alone(s2)
       && E.ModelCooperates(w.models[m].history, s1, s2, models, details)
       && E.PromptCooperates(p, a1) && E.PromptCooperates(p, a2)
  }

  /** The queue holds the Prompt, or is about to: its cache lacks a version. */
  ghost predicate Within(s: U.State, k: Key) {
    && k in s.world.prompts && k !in s.busy
    && (k in s.queue || U.Count(s.promptCache, k) < |s.world.prompts[k].history|)
  }

  lemma DeliverModelLatest(s: U.State, m: Key)
    requires m in s.world.models && U.Count(s.modelCache, m) <= |s.world.models[m].history|
    ensures var n := |s.world.models[m].history|; var s' := U.Apply(s, U.DeliverModel(m, n));
      && s'.world == s.world && s'.busy == s.busy && s'.queue == s.queue && s'.promptCache == s.promptCache
      && U.Count(s'.modelCache, m) == n
  {
  }

  lemma Deliveries(s: U.State, k: Key, m: Key)
    requires U.CachesOk(s) && Within(s, k) && m in s.world.models
    requires m == W.ModelKey(k, Last(s.world.prompts[k].history).obj.spec)
    ensures
      var steps := [U.DeliverModel(m, |s.world.models[m].history|), U.DeliverPrompt(k, |s.world.prompts[k].history|)];
      var s' := U.Run(s, steps);
      s'.world == s.world && Current(s', k, m) && k in s'.queue
  {
    var model, prompt := U.DeliverModel(m, |s.world.models[m].history|),
      U.DeliverPrompt(k, |s.world.prompts[k].history|);
    var s1 := U.Apply(s, model);
    DeliverModelLatest(s, m);
    DeliverLatest(s1, k);
    assert [model, prompt] == [model] + [prompt];
    RunConcat(s, [model], [prompt]);
    RunOne(s, model);
    RunOne(s1, prompt);
  }

  lemma CachesGrow(s: U.State, w: W.State)
    requires U.CachesOk(s) && W.Grows(s.world, w)
    ensures U.CachesOk(s.(world := w))
  {
    var s' := s.(world := w);
    forall k | k in s'.promptCache
      ensures U.InCache(s', k)
    {
      assert U.InCache(s, k);
    }
  }

  lemma {:induction false} RunGrows(w: W.State, steps: seq<W.Step>)
    ensures W.Grows(w, W.Run(w, steps))
    decreases |steps|
  {
    if steps != [] {
      W.StepGrows(w, steps[0]);
      RunGrows(W.Apply(w, steps[0]), steps[1..]);
    }
  }

  lemma OneModelPass(s: U.State, m: Key, script: M.Script) returns (steps: seq<U.Step>)
    requires W.Inv(s.world) && U.CachesOk(s) && m in s.world.models && E.Alone(script)
    ensures var w := E.AfterModelPass(s.world, m, script);
      U.Run(s, steps) == s.(world := w) && m in w.models && w.prompts == s.world.prompts && W.Inv(w)
    ensures U.CachesOk(U.Run(s, steps))
    ensures |steps| <= |script.beats| + 3 && NoRestart(steps)
  {
    var moves := ModelMoves(s.world, m, script);
    steps := Moves(moves);
    ModelMovesRun(s, m, script);
    RunGrows(s.world, moves);
    CachesGrow(s, E.AfterModelPass(s.world, m, script));
    E.ModelPassRuns(s.world, m, script);
  }

  lemma JoinQuiet(s: U.State, a: seq<U.Step>, b: seq<U.Step>, t: U.State)
    requires U.Run(U.Run(s, a), b) == t && NoRestart(a) && NoRestart(b)
    ensures U.Run(s, a + b) == t && NoRestart(a + b)
  {
    RunConcat(s, a, b);
  }

  lemma ModelsFirst(s: U.State, m: Key, s1: M.Script, s2: M.Script, models: seq<string>, details: M.Details)
    returns (steps: seq<U.Step>)
    requires W.Inv(s.world) && U.CachesOk(s) && m in s.world.models && E.Alone(s1) && E.Alone(s2)
    requires E.ModelCooperates(s.world.models[m].history, s1, s2, models, details)
    ensures |steps| <= |s1.beats| + |s2.beats| + 6 && NoRestart(steps)
    ensures var t := U.Run(s, steps);
      && t == s.(world := t.world) && t.world.prompts == s.world.prompts && U.CachesOk(t)
      && m in t.world.models && M.GateOpen(Last(t.world.models[m].history).obj)
  {
    E.TwoModelPasses(s.world, m, s1, s2, models, details);
    var first := OneModelPass(s, m, s1);
    var second := OneModelPass(U.Run(s, first), m, s2);
    JoinQuiet(s, first, second, U.Run(U.Run(s, first), second));
    steps := first + second;
  }

  lemma PromptSecond(s: U.State, k: Key, m: Key, a1: P.Answers, a2: P.Answers) returns (steps: seq<U.Step>)
    requires U.CachesOk(s) && Within(s, k) && m in s.world.models && M.GateOpen(Last(s.world.models[m].history).obj)
    requires m == W.ModelKey(k, Last(s.world.prompts[k].history).obj.spec)
    requires E.PromptCooperates(Last(s.world.prompts[k].history).obj, a1)
    requires E.PromptCooperates(Last(s.world.prompts[k].history).obj, a2)
    ensures |steps| <= 8 && IsAnswered(U.Run(s, steps), k) && NoRestart(steps)
  {
    var deliver := [U.DeliverModel(m, |s.world.models[m].history|), U.DeliverPrompt(k, |s.world.prompts[k].history|)];
    Deliveries(s, k, m);
    var rounds := TwoRounds(U.Run(s, deliver), k, m, a1, a2);
    Join(s, deliver, rounds, k);
    steps := deliver + rounds;
  }

  lemma StillWithin(s: U.State, w: W.State, k: Key)
    requires Within(s, k) && w.prompts == s.world.prompts
    ensures Within(s.(world := w), k)
  {
  }

  lemma Schedule(s: U.State, k: Key, s1: M.Script, s2: M.Script, models: seq<string>, details: M.Details,
                 a1: P.Answers, a2: P.Answers) returns (steps: seq<U.Step>)
    requires W.Inv(s.world) && U.CachesOk(s) && Within(s, k) && Cooperates(s.world, k, s1, s2, models, details, a1, a2)
    ensures |steps| <= |s1.beats| + |s2.beats| + 14
    ensures IsAnswered(U.Run(s, steps), k) && NoRestart(steps)
  {
    var m := W.ModelKey(k, Last(s.world.prompts[k].history).obj.spec);
    var first := ModelsFirst(s, m, s1, s2, models, details);
    var t := U.Run(s, first);
    StillWithin(s, t.world, k);
    var second := PromptSecond(t, k, m, a1, a2);
    Join(s, first, second, k);
    steps := first + second;
  }

  // ---------------------------------------------------------------- the theorems

  lemma Reachable(start: seq<U.Step>)
    ensures var s := U.Run(U.EMPTY, start); W.Inv(s.world) && U.Inv(s)
  {
    RunWorldInv(U.EMPTY, start);
    U.RunInv(U.EMPTY, start);
  }

  /**
   * From every reachable state in which a Prompt is queued, or a version of it is on its way to the cache, and no pass
   * over it is under way: some schedule of bounded length, without a restart, ends with a stored response.
   */
  lemma QueuedIsAnswered(start: seq<U.Step>, k: Key, s1: M.Script, s2: M.Script, models: seq<string>,
    details: M.Details, a1: P.Answers, a2: P.Answers)
    requires var s := U.Run(U.EMPTY, start); Within(s, k) && Cooperates(s.world, k, s1, s2, models, details, a1, a2)
    ensures
      var s := U.Run(U.EMPTY, start);
      exists steps :: |steps| <= |s1.beats| + |s2.beats| + 14 && NoRestart(steps) && IsAnswered(U.Run(s, steps), k)
  {
    Reachable(start);
    var steps := Schedule(U.Run(U.EMPTY, start), k, s1, s2, models, details, a1, a2);
  }

  lemma RestartReady(s: U.State, k: Key)
    requires k in s.world.prompts
    ensures var s' := U.Apply(s, U.Restart); s'.world == s.world && U.CachesOk(s') && Within(s', k)
  {
  }

  /** From every reachable state whatsoever, asleep or not, a schedule that begins with a restart does. */
  lemma RestartedIsAnswered(start: seq<U.Step>, k: Key, s1: M.Script, s2: M.Script, models: seq<string>,
    details: M.Details, a1: P.Answers, a2: P.Answers)
    requires Cooperates(U.Run(U.EMPTY, start).world, k, s1, s2, models, details, a1, a2)
    ensures
      var s := U.Run(U.EMPTY, start);
      exists steps :: |steps| <= |s1.beats| + |s2.beats| + 14 && IsAnswered(U.Run(s, [U.Restart] + steps), k)
  {
    Reachable(start);
    var s := U.Run(U.EMPTY, start);
    RestartReady(s, k);
    var steps := Schedule(U.Apply(s, U.Restart), k, s1, s2, models, details, a1, a2);
    After(s, U.Restart, steps, k);
  }

  lemma After(s: U.State, st: U.Step, steps: seq<U.Step>, k: Key)
    requires IsAnswered(U.Run(U.Apply(s, st), steps), k)
    ensures IsAnswered(U.Run(s, [st] + steps), k)
  {
    RunOne(s, st);
    Join(s, [st], steps, k);
  }
}
