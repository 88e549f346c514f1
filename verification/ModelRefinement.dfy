/**
 * A whole pass, as the reconciler's method executes it, is a run of the protocol: its interactions are steps of the
 * state machine, and what other writers store in between may come from any steps of other passes and users.
 */
module ModelRefinement {
  import opened Common
  import opened Conditions
  import opened ModelPass
  import opened VersionedStore
  import opened ModelProtocol

  predicate IsOther(st: Step, id: nat) {
    match st
    case Begin(i, _, _, _) => i != id
    case Callback(i, _, _) => i != id
    case EndPull(i, _) => i != id
    case Write(i, _) => i != id
    case Crash(i) => i != id
    case Edit(_) => true
    case Touch => true
  }

  predicate OthersOnly(steps: seq<Step>, id: nat) { forall i :: 0 <= i < |steps| ==> IsOther(steps[i], id) }

  lemma {:induction false} OthersKeepFlight(s: Sys, steps: seq<Step>, id: nat)
    requires OthersOnly(steps, id) && id in s.flights
    ensures id in Run(s, steps).flights && Run(s, steps).flights[id] == s.flights[id]
    decreases |steps|
  {
    if steps != [] {
      assert IsOther(steps[0], id);
      OthersKeepFlight(Apply(s, steps[0]), steps[1..], id);
    }
  }

  lemma {:induction false} RunConcat(s: Sys, a: seq<Step>, b: seq<Step>)
    ensures Run(s, a + b) == Run(Run(s, a), b)
    decreases |a|
  {
    if a == [] {
      assert a + b == b;
    } else {
      assert (a + b)[0] == a[0] && (a + b)[1..] == a[1..] + b;
      RunConcat(Apply(s, a[0]), a[1..], b);
    }
  }

  lemma RunOne(s: Sys, st: Step)
    ensures Run(s, [st]) == Apply(s, st)
  {
    assert [st][1..] == [];
    assert Run(Apply(s, st), []) == Apply(s, st);
  }

  function AfterBeat(s: Sys, id: nat, beat: Beat, others: seq<Step>, a: Answers): Sys {
    Apply(Run(s, others), Callback(id, beat.event, a))
  }

  predicate StillPulling(s: Sys, id: nat) { id in s.flights && s.flights[id].InPull? }

  /** The others' steps store exactly the foreign versions that the script of the pass mentions. */
  predicate BeatsMatch(s: Sys, id: nat, beats: seq<Beat>, others: seq<seq<Step>>, a: Answers)
    requires |beats| == |others|
    decreases |beats|
  {
    beats == [] ||
    ( && OthersOnly(others[0], id)
      && Run(s, others[0]).history == Extend(s.history, beats[0].foreign)
      && (StillPulling(AfterBeat(s, id, beats[0], others[0], a), id) ==>
            BeatsMatch(AfterBeat(s, id, beats[0], others[0], a), id, beats[1..], others[1..], a)))
  }

  /** The steps of a pull, interleaved with the others' steps; it stops at the callback that fails. */
  function PullSteps(s: Sys, id: nat, beats: seq<Beat>, others: seq<seq<Step>>, a: Answers): seq<Step>
    requires |beats| == |others|
    decreases |beats|
  {
    if beats == [] then [EndPull(id, a)]
    else
      var next := AfterBeat(s, id, beats[0], others[0], a);
      others[0] + [Callback(id, beats[0].event, a)]
        + if StillPulling(next, id) then PullSteps(next, id, beats[1..], others[1..], a) else []
  }

  lemma {:induction false} PullRefines(s: Sys, id: nat, beats: seq<Beat>, others: seq<seq<Step>>, a: Answers)
    requires |beats| == |others| && StillPulling(s, id) && BeatsMatch(s, id, beats, others, a)
    ensures
      var f := s.flights[id];
      var streamed := Stream(s.history, f.pulling, beats);
      var err := if streamed.err.Some? then streamed.err else a.pullEnd;
      var copy := streamed.pulling.copy;
      var s' := Run(s, PullSteps(s, id, beats, others, a));
      && s'.history == streamed.history
      && id in s'.flights
      && s'.flights[id] ==
           ToWrite(copy.version, Closed(AfterPull(copy.obj, streamed.pulling.status, err, a), a), a, Some(f.read))
    decreases |beats|
  {
    if beats == [] {
      RunOne(s, EndPull(id, a));
    } else {
      var call := Callback(id, beats[0].event, a);
      var mid := Run(s, others[0]);
      var next := AfterBeat(s, id, beats[0], others[0], a);
      OthersKeepFlight(s, others[0], id);
      RunConcat(s, others[0], [call]);
      RunOne(mid, call);
      assert next == DoCallback(mid, call);
      if StillPulling(next, id) {
        RunConcat(s, others[0] + [call], PullSteps(next, id, beats[1..], others[1..], a));
        PullRefines(next, id, beats[1..], others[1..], a);
      } else {
        assert PullSteps(s, id, beats, others, a) == others[0] + [call];
      }
    }
  }

  /** All steps of a pass: read, pull if need be, and write after the others' last steps. */
  function UpToWrite(s: Sys, id: nat, version: nat, script: Script, others: seq<seq<Step>>): seq<Step>
    requires |script.beats| == |others|
  {
    var begin := Begin(id, version, script.answers, script.pullStart);
    var s1 := Apply(s, begin);
    [begin] + if StillPulling(s1, id) then PullSteps(s1, id, script.beats, others, script.answers) else []
  }

  lemma BodyIsRun(s: Sys, id: nat, version: nat, script: Script, others: seq<seq<Step>>)
    requires id !in s.flights && version < |s.history| && |script.beats| == |others|
    requires var s1 := Apply(s, Begin(id, version, script.answers, script.pullStart));
      StillPulling(s1, id) ==> BeatsMatch(s1, id, script.beats, others, script.answers)
    ensures
      var s2 := Run(s, UpToWrite(s, id, version, script, others));
      var b := RunBody(s.history, Copy(version, s.history[version].obj), script);
      && s2.history == b.history && id in s2.flights && s2.flights[id].AtWrite?
      && s2.flights[id].version == b.copy.version && s2.flights[id].how == b.stage.how
      && s2.flights[id].err == b.stage.err && s2.flights[id].requeue == b.stage.requeue
      && s2.flights[id].status == Deferred(b.stage.obj, b.stage.err, script.answers).status
  {
    var begin := Begin(id, version, script.answers, script.pullStart);
    var s1 := Apply(s, begin);
    RunOne(s, begin);
    if StillPulling(s1, id) {
      RunConcat(s, [begin], PullSteps(s1, id, script.beats, others, script.answers));
      PullRefines(s1, id, script.beats, others, script.answers);
    } else {
      assert UpToWrite(s, id, version, script, others) == [begin];
    }
  }

  /** The call of Pull that the beginning of a pass records, for the model of the version read, or none. */
  lemma BeginRecordsPull(s: Sys, id: nat, version: nat, a: Answers, pullStart: int)
    requires id !in s.flights && version < |s.history|
    ensures var obj := s.history[version].obj;
      Apply(s, Begin(id, version, a, pullStart)).pulls ==
        s.pulls + if Probe(obj, a).MustPull? then [PullCall(obj.spec.model, version)] else []
  {
    assert s.pulls + [] == s.pulls;
  }

  /**
   * The outcome that the method Reconcile guarantees (RunPass) is the outcome of a run of the protocol, for every
   * state, every version read, every script and every interleaving of others that stores the script's foreign versions:
   * the history, the requeue and the error, which are those of the flight and of its write, and the recorded pull.
   */
  lemma PassIsRun(s: Sys, id: nat, version: nat, script: Script, others: seq<seq<Step>>, last: seq<Step>)
    requires id !in s.flights && version < |s.history| && |script.beats| == |others|
    requires var s1 := Apply(s, Begin(id, version, script.answers, script.pullStart));
      StillPulling(s1, id) ==> BeatsMatch(s1, id, script.beats, others, script.answers)
    requires OthersOnly(last, id)
    requires var s2 := Run(s, UpToWrite(s, id, version, script, others));
      Run(s2, last).history == Extend(s2.history, script.foreign)
    ensures
      var steps := UpToWrite(s, id, version, script, others) + last + [Write(id, script.answers.write)];
      var obj := s.history[version].obj;
      var out := RunPass(s.history, Copy(version, obj), script);
      var before := Run(Run(s, UpToWrite(s, id, version, script, others)), last);
      && id in before.flights && before.flights[id].AtWrite?
      && var f := before.flights[id];
      && Run(s, steps).history == out.history
      && out.requeue == f.requeue
      && out.err == WithWriteError(f.err, Update(before.history, f.version, f.status, f.how, script.answers.write).err)
      && Apply(s, Begin(id, version, script.answers, script.pullStart)).pulls ==
           s.pulls + if Probe(obj, script.answers).MustPull? then [PullCall(obj.spec.model, version)] else []
  {
    BeginRecordsPull(s, id, version, script.answers, script.pullStart);
    var upTo := UpToWrite(s, id, version, script, others);
    var s2 := Run(s, upTo);
    var write := Write(id, script.answers.write);
    BodyIsRun(s, id, version, script, others);
    OthersKeepFlight(s2, last, id);
    RunConcat(s, upTo, last);
    RunConcat(s, upTo + last, [write]);
    RunOne(Run(s, upTo + last), write);
  }
}
