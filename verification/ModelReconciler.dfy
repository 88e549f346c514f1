/** The Model controller in the form it has: objects whose fields a pass rewrites, and a server that stores versions. */
module ModelReconciler {
  import opened Common
  import opened Conditions
  import opened ModelPass
  import opened VersionedStore

  /** The in-memory Model object of a pass. */
  class ModelObject {
    var version: nat
    var generation: int
    var spec: ModelSpec
    const conditioned: ConditionedStatus
    var observedGeneration: int
    var ollamaImage: string
    var details: Option<Details>

    ghost function Value(): Model
      reads this, conditioned
    {
      Model(generation, spec, ModelStatus(conditioned.conditions, observedGeneration, ollamaImage, details))
    }

    ghost function AsCopy(): Copy
      reads this, conditioned
    {
      Copy(version, Value())
    }

    constructor (copy: Copy)
      ensures AsCopy() == copy && fresh(conditioned)
    {
      conditioned := new ConditionedStatus([]);
      new;
      Load(copy);
    }

    /** Decoding a stored object into this one. */
    method Load(copy: Copy)
      modifies this, conditioned
      ensures AsCopy() == copy
    {
      version, generation, spec := copy.version, copy.obj.generation, copy.obj.spec;
      conditioned.conditions := copy.obj.status.conditions;
      observedGeneration, ollamaImage, details :=
        copy.obj.status.observedGeneration, copy.obj.status.ollamaImage, copy.obj.status.details;
    }

    method SetConditionsWithObservedGeneration(news: seq<Condition>)
      modifies this, conditioned
      ensures version == old(version) && Value() == old(Value()).With(news)
    {
      var c := news;
      for i := 0 to |c|
        invariant |c| == |news|
        invariant forall j :: 0 <= j < i ==> c[j] == news[j].WithObservedGeneration(generation)
        invariant forall j :: i <= j < |c| ==> c[j] == news[j]
      {
        c := c[i := c[i].WithObservedGeneration(generation)];
      }
      assert c == Stamp(news, generation);
      conditioned.SetConditions(c);
    }

    method GetCondition(t: string) returns (r: Condition)
      ensures r == Lookup(Value().status.conditions, t)
    {
      r := conditioned.GetCondition(t);
    }

    method StatusValue() returns (s: ModelStatus)
      ensures s == Value().status
    {
      s := ModelStatus(conditioned.conditions, observedGeneration, ollamaImage, details);
    }
  }

  class Reconciler {
    const server: ApiServer<Model, Origin>

    constructor (server: ApiServer<Model, Origin>)
      ensures this.server == server
    {
      this.server := server;
    }

    method ApplyResources(rs: seq<Resource>) returns (err: Option<string>)
      ensures err == FirstFailure(rs)
    {
      for i := 0 to |rs|
        invariant FirstFailure(rs[i..]) == FirstFailure(rs)
      {
        assert rs[i..][0] == rs[i] && rs[i..][1..] == rs[i + 1..];
        if rs[i].applied.Failed? {
          return Some("while applying " + rs[i].kind + " " + rs[i].name + ": " + rs[i].applied.error);
        }
      }
      return None;
    }

    /** patchModelStatusOnPullingProgress: no version is checked, and the answer is decoded into the model. */
    method PatchProgress(model: ModelObject, e: Progress) returns (err: Option<string>)
      requires server.Valid() && e.total != 0
      modifies server, model, model.conditioned
      ensures server.Valid() && server.history == Patch(old(server.history), old(model.AsCopy()), e)
      ensures e.reply.Accepted? ==> err.None? && model.AsCopy() == Copy(|server.history| - 1, Last(server.history).obj)
      ensures !e.reply.Accepted? ==> err == Some(e.reply.error) && model.AsCopy() == old(model.AsCopy())
    {
      if e.reply.Rejected? {
        return Some(e.reply.error);
      }
      server.StoreVersion(Patched(server.history[|server.history| - 1].obj, model.generation, e), Progressed);
      if e.reply.Lost? {
        return Some(e.reply.error);
      }
      model.Load(Copy(|server.history| - 1, server.history[|server.history| - 1].obj));
      return None;
    }

    /** The callback of the pull; it hands back the clock reading that it keeps between responses. */
    method OnResponse(model: ModelObject, since: int, e: Progress) returns (pullInitialTime: int, err: Option<string>)
      requires server.Valid()
      modifies server, model, model.conditioned
      ensures server.Valid()
      ensures Streamed(server.history, Pulling(model.AsCopy(), pullInitialTime, e.status), err)
           == OnProgress(old(server.history), Pulling(old(model.AsCopy()), since, ""), e)
    {
      pullInitialTime := since;
      if e.total != 0 {
        if e.now - pullInitialTime > 5 * SECOND {
          pullInitialTime := e.restart;
          err := PatchProgress(model, e);
          return;
        }
      }
      err := e.cancelled;
    }

    /** The pull: ollama streams responses into the callback until one call fails. */
    method PullModel(model: ModelObject, s: Script) returns (status: string, err: Option<string>)
      requires server.Valid()
      modifies server, model, model.conditioned
      ensures server.Valid()
      ensures
        var streamed := Stream(old(server.history), Pulling(old(model.AsCopy()), s.pullStart, ""), s.beats);
        && server.history == streamed.history
        && model.AsCopy() == streamed.pulling.copy
        && status == streamed.pulling.status
        && err == if streamed.err.Some? then streamed.err else s.answers.pullEnd
    {
      status := "";
      var pullInitialTime := s.pullStart;
      ghost var start := Stream(server.history, Pulling(model.AsCopy(), s.pullStart, ""), s.beats);
      for i := 0 to |s.beats|
        invariant server.Valid()
        invariant Stream(server.history, Pulling(model.AsCopy(), pullInitialTime, status), s.beats[i..]) == start
      {
        var beat := s.beats[i];
        ghost var h, p := server.history, Pulling(model.AsCopy(), pullInitialTime, status);
        assert s.beats[i..][0] == beat && s.beats[i..][1..] == s.beats[i + 1..];
        server.Foreign(beat.foreign);
        var failure: Option<string>;
        status := beat.event.status;
        pullInitialTime, failure := OnResponse(model, pullInitialTime, beat.event);
        assert Streamed(server.history, Pulling(model.AsCopy(), pullInitialTime, status), failure)
            == OnProgress(Extend(h, beat.foreign), p, beat.event);
        if failure.Some? {
          return status, failure;
        }
      }
      err := s.answers.pullEnd;
    }

    /** The statements of Reconcile that follow its deferred block. */
    method ReconcileBody(model: ModelObject, s: Script) returns (requeue: Requeue, err: Option<string>, how: Ending)
      requires server.Valid()
      modifies server, model, model.conditioned
      ensures server.Valid()
      ensures
        var b := RunBody(old(server.history), old(model.AsCopy()), s);
        && server.history == b.history
        && model.version == b.copy.version
        && Ended(model.Value(), err, requeue, how) == b.stage
    {
      requeue, err, how := NoRequeue, None, Errored;
      var a := s.answers;
      if a.resources.Failed? {
        err := Some(Wrap(a.resources.error, "while creating resources"));
        return;
      }
      err := ApplyResources(a.resources.value);
      if err.Some? {
        return;
      }
      match a.sts {
        case StsNotFound =>
          model.SetConditionsWithObservedGeneration([Creating(a.readyTime)]);
          how := StsMissing;
          return;
        case StsGetFailed(e) =>
          err := Some(Wrap(e, "failed to fetch statefulset to check its readiness"));
          return;
        case StsViewFailed(e) =>
          model.SetConditionsWithObservedGeneration([Unavailable(a.readyTime)]);
          err := Some(e);
          return;
        case StsState(ready, message) =>
          if !ready {
            model.SetConditionsWithObservedGeneration(
              [Unavailable(a.readyTime).WithMessage(TrimSuffix(message, "...\n"))]);
            how := StsWaiting;
            return;
          }
      }
      if a.list.Failed? {
        err := Some(Wrap(a.list.error, "failed to list local models"));
        return;
      }
      if model.spec.model !in a.list.value {
        var pullingModelCondition := Announcement(model.spec.model, a.readyTime);
        var cond := model.GetCondition(TYPE_READY);
        if !Same(cond, pullingModelCondition) {
          model.SetConditionsWithObservedGeneration([pullingModelCondition]);
          requeue, how := Immediately, Announced(model.spec.model);
          return;
        }
        var status;
        status, err := PullModel(model, s);
        if err.Some? {
          err := Some(Wrap(err.value, "failed to pull " + Quoted(model.spec.model) + " model"));
          return;
        }
        if status != "success" {
          model.SetConditionsWithObservedGeneration(
            [Unavailable(a.readyTime).WithMessage("Model hasn't been pulled successfully, retrying")]);
          requeue, how := After(5 * SECOND), PullIncomplete;
          return;
        }
      }
      if a.show.Failed? {
        model.SetConditionsWithObservedGeneration([Unavailable(a.readyTime)]);
        err := Some(Wrap(a.show.error, "while fetching ollama model details"));
        return;
      }
      model.details := Some(a.show.value);
      model.SetConditionsWithObservedGeneration([Available(a.readyTime)]);
      how := BecameAvailable;
    }

    /** Reconcile: the body, then the deferred block, which may still turn the result into an error. */
    method Reconcile(model: ModelObject, s: Script) returns (requeue: Requeue, retErr: Option<string>)
      requires server.Valid()
      modifies server, model, model.conditioned
      ensures server.Valid()
      ensures Outcome(server.history, requeue, retErr) == RunPass(old(server.history), old(model.AsCopy()), s)
    {
      var how;
      requeue, retErr, how := ReconcileBody(model, s);
      model.observedGeneration := model.generation;
      model.ollamaImage := Or(model.spec.ollamaImage, DEFAULT_IMAGE);
      if retErr.Some? {
        model.SetConditionsWithObservedGeneration([ReconcileError(retErr.value, s.answers.syncedTime)]);
        model.SetConditionsWithObservedGeneration([Unavailable(s.answers.failedTime)]);
      } else {
        model.SetConditionsWithObservedGeneration([ReconcileSuccess(s.answers.syncedTime)]);
      }
      server.Foreign(s.foreign);
      var status := model.StatusValue();
      var latest := server.history[|server.history| - 1].obj;
      var patchErr := server.Update(model.version, latest.(status := status), PassEnded(how), s.answers.write);
      if patchErr.Some? {
        retErr := Join(retErr, Some(Wrap(patchErr.value, "while patching status")));
      }
    }
  }
}
