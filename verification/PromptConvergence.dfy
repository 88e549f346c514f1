/** The Prompt controller settles exactly when ollama's answer is not blank. */
module PromptConvergence {
  import opened Common
  import opened Conditions
  import opened ContextCodec
  import opened VersionedStore
  import opened PromptPass
  import M = ModelPass
  import MP = ModelProtocol
  import MC = ModelConvergence

  /** The Prompt was answered and a further pass has nothing to change. */
  ghost predicate Settled(p: Prompt) {
    && p.status.response != ""
    && p.status.observedGeneration == p.generation
    && MC.Holds(p.status.conditions, ReconcileSuccess(0))
  }

  ghost function PassesLeft(p: Prompt): nat {
    if Settled(p) then 0 else if p.status.response != "" || IsWaiting(p) then 1 else 2
  }

  /** The Model's gate is open, and options, images and context are valid: the pass may ask. */
  ghost predicate MayAsk(p: Prompt, read: ModelRead, a: Answers) {
    && read.Found? && M.GateOpen(read.model)
    && Options(p.spec.options, a).Done?
    && LoadImages(0, |p.spec.images|, a.image).Loaded?
    && DecodeContext(p.spec.context).Context?
  }

  /** And ollama answers. */
  ghost predicate Undisturbed(p: Prompt, read: ModelRead, a: Answers) { MayAsk(p, read, a) && a.generate.Done? }

  /** The parts of the status that only an answer fills. */
  predicate SameAnswer(p: Prompt, q: Prompt) {
    && p.status.response == q.status.response && p.status.context == q.status.context
    && p.status.meta == q.status.meta && p.status.metrics == q.status.metrics
  }

  lemma SameSpec(p: Prompt, q: Prompt, read: ModelRead, a: Answers)
    requires p.spec == q.spec && Undisturbed(p, read, a)
    ensures Undisturbed(q, read, a)
  {
  }

  function Fresh(h: History): Copy { Copy(|h| - 1, Last(h).obj) }

  /** One undisturbed pass that reads the latest version and whose write is accepted. */
  function Pass(h: History, read: ModelRead, a: Answers): Outcome { RunPass(h, Fresh(h), read, a, [], Accepted) }

  lemma OneStamped(p: Prompt, c: Condition)
    ensures p.With([c]).status.conditions == SetOne(p.status.conditions, c.WithObservedGeneration(p.generation))
  {
    MP.OneMap(p.status.conditions, c, p.generation);
  }

  lemma DeferredHolds(p: Prompt, a: Answers, ready: Condition)
    ensures var f := Deferred(p, None, a);
      && f.generation == p.generation && f.spec == p.spec && f.status.response == p.status.response
      && f.status.observedGeneration == p.generation
      && MC.Holds(f.status.conditions, ReconcileSuccess(0))
      && (Settled(p) ==> f == p)
      && (ready.ctype == TYPE_READY && MC.Holds(p.status.conditions, ready) ==> MC.Holds(f.status.conditions, ready))
  {
    var p1 := p.(status := p.status.(observedGeneration := p.generation));
    var synced := ReconcileSuccess(a.syncedTime);
    var stamped := synced.WithObservedGeneration(p.generation);
    OneStamped(p1, synced);
    MC.SetOneHolds(p1.status.conditions, stamped);
    assert TYPE_READY != TYPE_SYNCED;
    if ready.ctype == TYPE_READY && MC.Holds(p.status.conditions, ready) {
      MC.SetOneKeeps(p1.status.conditions, stamped, ready);
    }
  }

  lemma FreshWrite(h: History, final: Prompt, how: Ending)
    requires final.spec == Last(h).obj.spec && final.generation == Last(h).obj.generation
    ensures var w := Update(h + [], |h| - 1, final.status, how, Accepted);
      && w.err.None? && Last(w.history).obj == final && (final == Last(h).obj ==> w.history == h)
  {
    assert h + [] == h;
  }

  lemma AnsweredPass(h: History, read: ModelRead, a: Answers)
    requires Undisturbed(Last(h).obj, read, a) && Last(h).obj.status.response == "" && IsWaiting(Last(h).obj)
    ensures var out := Pass(h, read, a); var p' := Last(out.history).obj;
      && out.err.None? && out.requeue == NoRequeue && out.request.Some? && p'.spec == Last(h).obj.spec
      && p'.status.response == Trimmed(a.generate.value.text)
      && (p'.status.response != "" ==> Settled(p'))
      && !IsWaiting(p')
  {
    var p := Last(h).obj;
    var b := AskModel(p, read.model, a);
    var p1 := Answer(p, a.generate.value);
    var ready := Available(a.readyTime);
    var stamped := ready.WithObservedGeneration(p.generation);
    OneStamped(p1, ready);
    MC.SetOneHolds(p1.status.conditions, stamped);
    DeferredHolds(b.obj, a, stamped);
    var final := Deferred(b.obj, None, a);
    FreshWrite(h, final, b.how);
    MC.HoldsLookup(final.status.conditions, stamped);
  }

  lemma WaitingPass(h: History, read: ModelRead, a: Answers)
    requires Undisturbed(Last(h).obj, read, a) && Last(h).obj.status.response == "" && !IsWaiting(Last(h).obj)
    ensures var out := Pass(h, read, a); var p' := Last(out.history).obj;
      && out.err.None? && out.requeue == Immediately && out.request.None? && p'.spec == Last(h).obj.spec
      && p'.status.response == "" && IsWaiting(p')
  {
    var p := Last(h).obj;
    var ready := WaitingCondition(a.readyTime);
    var stamped := ready.WithObservedGeneration(p.generation);
    OneStamped(p, ready);
    MC.SetOneHolds(p.status.conditions, stamped);
    DeferredHolds(p.With([ready]), a, stamped);
    var final := Deferred(p.With([ready]), None, a);
    FreshWrite(h, final, Waiting);
    MC.HoldsLookup(final.status.conditions, stamped);
  }

  lemma KeptPass(h: History, read: ModelRead, a: Answers)
    requires Last(h).obj.status.response != ""
    ensures var out := Pass(h, read, a); var p' := Last(out.history).obj;
      && out.err.None? && out.requeue == NoRequeue && out.request.None?
      && p'.spec == Last(h).obj.spec && p'.status.response == Last(h).obj.status.response
      && Settled(p') && (Settled(Last(h).obj) ==> out.history == h)
  {
    var p := Last(h).obj;
    DeferredHolds(p, a, Available(0));
    FreshWrite(h, Deferred(p, None, a), Kept);
  }

  /**
   * One undisturbed pass with an answer that is not blank: no error; the measure falls; while it is not yet zero the
   * pass asks to be run again at once; at zero the pass stores no version and does not call Generate.
   */
  lemma PassConverges(h: History, read: ModelRead, a: Answers)
    requires Undisturbed(Last(h).obj, read, a) && !Blank(a.generate.value.text)
    ensures
      var p := Last(h).obj;
      var out := Pass(h, read, a);
      var p' := Last(out.history).obj;
      && out.err.None? && p'.spec == p.spec
      && (PassesLeft(p) > 0 ==> PassesLeft(p') < PassesLeft(p))
      && (PassesLeft(p) == 0 ==> out.history == h && out.request.None?)
      && (PassesLeft(p') > 0 <==> out.requeue == Immediately)
  {
    TrimmedEmpty(a.generate.value.text);
    var p := Last(h).obj;
    if p.status.response != "" {
      KeptPass(h, read, a);
    } else if IsWaiting(p) {
      AnsweredPass(h, read, a);
    } else {
      WaitingPass(h, read, a);
    }
  }

  /**
   * From any unanswered status, two undisturbed passes store a response if and only if the text that ollama answers to
   * the one pass that asks is not blank: the first pass if the Prompt waits already, the second otherwise.
   */
  lemma TwoPassesAnswer(h: History, read1: ModelRead, read2: ModelRead, a1: Answers, a2: Answers)
    requires Last(h).obj.status.response == ""
    requires Undisturbed(Last(h).obj, read1, a1) && Undisturbed(Last(h).obj, read2, a2)
    ensures
      var h1 := Pass(h, read1, a1).history;
      var h2 := Pass(h1, read2, a2).history;
      var answer := if IsWaiting(Last(h).obj) then a1.generate.value.text else a2.generate.value.text;
      Last(h2).obj.status.response != "" <==> !Blank(answer)
  {
    TrimmedEmpty(a1.generate.value.text);
    TrimmedEmpty(a2.generate.value.text);
    var h1 := Pass(h, read1, a1).history;
    if IsWaiting(Last(h).obj) {
      AnsweredPass(h, read1, a1);
      SameSpec(Last(h).obj, Last(h1).obj, read2, a2);
      if Last(h1).obj.status.response != "" {
        KeptPass(h1, read2, a2);
      } else {
        WaitingPass(h1, read2, a2);
      }
    } else {
      WaitingPass(h, read1, a1);
      SameSpec(Last(h).obj, Last(h1).obj, read2, a2);
      AnsweredPass(h1, read2, a2);
    }
  }

  /**
   * A call of Generate that fails keeps the announcement: the pass after it calls Generate again at once, and so on
   * until one call is answered.
   */
  lemma FailedGenerateRepeats(h: History, read: ModelRead, a: Answers)
    requires Last(h).obj.status.response == "" && IsWaiting(Last(h).obj)
    requires MayAsk(Last(h).obj, read, a) && a.generate.Failed?
    ensures var out := Pass(h, read, a); var p' := Last(out.history).obj;
      && out.request.Some? && out.err.Some?
      && p'.spec == Last(h).obj.spec && p'.status.response == "" && IsWaiting(p')
  {
    var p := Last(h).obj;
    var b := AskModel(p, read.model, a);
    assert b.obj == p && b.err.Some? && b.request.Some?;
    FailedKeepsWaiting(p, b.err.value, a);
    FreshWrite(h, Deferred(p, b.err, a), b.how);
  }

  lemma FailedKeepsWaiting(p: Prompt, e: string, a: Answers)
    ensures var f := Deferred(p, Some(e), a);
      && f.spec == p.spec && f.generation == p.generation && f.status.response == p.status.response
      && (IsWaiting(f) <==> IsWaiting(p))
  {
    assert TYPE_READY != TYPE_SYNCED;
    var news := Stamp([ReconcileError(e, a.syncedTime)], p.generation);
    assert !HasType(news, TYPE_READY);
    SetThenGet(p.status.conditions, news, TYPE_READY);
  }

  /** A sequence of undisturbed passes. */
  function Passes(h: History, read: ModelRead, answers: seq<Answers>): History
    decreases |answers|
  {
    if answers == [] then h else Passes(Pass(h, read, answers[0]).history, read, answers[1..])
  }

  /** How many of these passes call Generate. */
  function Calls(h: History, read: ModelRead, answers: seq<Answers>): nat
    decreases |answers|
  {
    if answers == [] then 0
    else
      var out := Pass(h, read, answers[0]);
      (if out.request.Some? then 1 else 0) + Calls(out.history, read, answers[1..])
  }

  /** With a blank answer a pass leaves no response and changes sides between waiting and not waiting. */
  lemma BlankPass(h: History, read: ModelRead, a: Answers)
    requires Last(h).obj.status.response == ""
    requires Undisturbed(Last(h).obj, read, a) && Blank(a.generate.value.text)
    ensures var out := Pass(h, read, a); var p, p' := Last(h).obj, Last(out.history).obj;
      && p'.spec == p.spec && p'.status.response == ""
      && (IsWaiting(p') <==> !IsWaiting(p)) && (out.request.Some? <==> IsWaiting(p))
  {
    TrimmedEmpty(a.generate.value.text);
    if IsWaiting(Last(h).obj) {
      AnsweredPass(h, read, a);
    } else {
      WaitingPass(h, read, a);
    }
  }

  /**
   * With blank answers the controller never settles: after any number of passes there is no response, and half of them
   * called Generate.
   */
  lemma {:induction false} BlankNeverSettles(h: History, read: ModelRead, answers: seq<Answers>)
    requires Last(h).obj.status.response == ""
    requires forall i :: 0 <= i < |answers| ==>
      Undisturbed(Last(h).obj, read, answers[i]) && Blank(answers[i].generate.value.text)
    ensures Last(Passes(h, read, answers)).obj.status.response == ""
    ensures Calls(h, read, answers) == if IsWaiting(Last(h).obj) then (|answers| + 1) / 2 else |answers| / 2
    decreases |answers|
  {
    if answers != [] {
      BlankPass(h, read, answers[0]);
      var h' := Pass(h, read, answers[0]).history;
      forall i | 0 <= i < |answers[1..]|
        ensures Undisturbed(Last(h').obj, read, answers[1..][i])
      {
        SameSpec(Last(h).obj, Last(h').obj, read, answers[i + 1]);
      }
      BlankNeverSettles(h', read, answers[1..]);
    }
  }

  const NEWLINE: Answers :=
    Answers(Done(""), (n: nat) => Panics, "", Done(Response("\n", None, 1, Metrics(1, 1, 1, 1, "", 1, 1, ""))), 1, 1)

  const QUESTION: PromptSpec := PromptSpec(ModelRef("llama", ""), "why?", "", "", "", "", "", [])

  /** For a Prompt whose every answer is a line end: no number of passes answers it. */
  lemma NewlineNeverSettles(model: M.Model, n: nat)
    requires M.GateOpen(model)
    ensures var h := [Entry(Prompt(1, QUESTION, PromptStatus([], 0, "", "", None, None)), Created)];
      Last(Passes(h, Found(model), seq(n, i => NEWLINE))).obj.status.response == ""
  {
    var h: History := [Entry(Prompt(1, QUESTION, PromptStatus([], 0, "", "", None, None)), Created)];
    var answers := seq(n, i => NEWLINE);
    assert Blank("\n");
    assert Undisturbed(h[0].obj, Found(model), NEWLINE);
    BlankNeverSettles(h, Found(model), answers);
  }
}
