/** The Prompt controller in the form it has: a Prompt object rewritten in place, and its watch on Models. */
module PromptReconciler {
  import opened Common
  import opened Conditions
  import opened ContextCodec
  import opened VersionedStore
  import opened PromptPass
  import M = ModelPass

  /** The in-memory Prompt object of a pass. */
  class PromptObject {
    const version: nat
    const generation: int
    const spec: PromptSpec
    const conditioned: ConditionedStatus
    var observedGeneration: int
    var response: string
    var context: string
    var meta: Option<int>
    var metrics: Option<Metrics>

    ghost function Value(): Prompt
      reads this, conditioned
    {
      Prompt(generation, spec, PromptStatus(conditioned.conditions, observedGeneration, response, context, meta,
        metrics))
    }

    constructor (copy: Copy)
      ensures version == copy.version && Value() == copy.obj && fresh(conditioned)
    {
      version, generation, spec := copy.version, copy.obj.generation, copy.obj.spec;
      conditioned := new ConditionedStatus([]);
      observedGeneration, response, context :=
        copy.obj.status.observedGeneration, copy.obj.status.response, copy.obj.status.context;
      meta, metrics := copy.obj.status.meta, copy.obj.status.metrics;
      new;
      conditioned.conditions := copy.obj.status.conditions;
    }

    method SetConditionsWithObservedGeneration(news: seq<Condition>)
      modifies conditioned
      ensures Value() == old(Value()).With(news)
    {
      var c := news;
      for i := 0 to |c|
        invariant |c| == |news|
        invariant forall j :: 0 <= j < i ==> c[j] == news[j].WithObservedGeneration(generation)
        invariant forall j :: i <= j < |c| ==> c[j] == news[j]
      {
        c := c[i := c[i].WithObservedGeneration(generation)];
      }
      assert c == Stamp(news, generation);
      conditioned.SetConditions(c);
    }
  }

  lemma {:induction false} LoadedSuffix(n: nat, count: nat, image: nat -> ImageAnswer)
    requires n < count && image(n).Image?
    ensures match LoadImages(n + 1, count, image)
      case Loaded(rest) => LoadImages(n, count, image) == Loaded([image(n).data] + rest)
      case other => LoadImages(n, count, image) == other
  {
  }

  /** Puts what was loaded already in front. */
  function Prepend(done: seq<seq<Byte>>, rest: Images): Images {
    if rest.Loaded? then Loaded(done + rest.data) else rest
  }

  /** Status.Equal against a fresh Available and ReconcileSuccess pair. */
  method IsReadyAndSynced(model: M.Model, now: int, later: int) returns (r: bool)
    ensures r <==> M.GateOpen(model)
  {
    var status := new ConditionedStatus([]);
    status.conditions := model.status.conditions;
    var wanted := new ConditionedStatus([Available(now), ReconcileSuccess(later)]);
    SetAllRefinesMap([], [Available(now), ReconcileSuccess(later)]);
    SetAllRefinesMap([], [Available(0), ReconcileSuccess(0)]);
    SetAllKeepsPositions([], [Available(now), ReconcileSuccess(later)]);
    AssignTwo(Available(now), ReconcileSuccess(later));
    AssignTwo(Available(0), ReconcileSuccess(0));
    r := ConditionedStatus.Equal(status, wanted);
  }

  lemma AssignTwo(c: Condition, d: Condition)
    ensures Assign(map[], [c, d]) == map[][c.ctype := c.Content()][d.ctype := d.Content()]
  {
    assert [c, d][1..] == [d];
    assert [d][1..] == [];
    assert Assign(map[][c.ctype := c.Content()], [d])
      == Assign(map[][c.ctype := c.Content()][d.ctype := d.Content()], []);
  }

  class Reconciler {
    const server: ApiServer<Prompt, Origin>

    constructor (server: ApiServer<Prompt, Origin>)
      ensures this.server == server
    {
      this.server := server;
    }

    /** The loop that loads the images of a Prompt. */
    method CollectImages(count: nat, image: nat -> ImageAnswer) returns (r: Images)
      ensures r == LoadImages(0, count, image)
    {
      var imageData: seq<seq<Byte>> := [];
      for n := 0 to count
        invariant LoadImages(0, count, image) == Prepend(imageData, LoadImages(n, count, image))
      {
        match image(n) {
          case NotExtracted(e) => return LoadFailed(Wrap(e, "failed to extract image"));
          case NotDecoded(e) => return LoadFailed(Wrap(e, "failed to decode images"));
          case Panics => return LoadPanicked;
          case Image(d) =>
            LoadedSuffix(n, count, image);
            if LoadImages(n + 1, count, image).Loaded? {
              assert imageData + ([d] + LoadImages(n + 1, count, image).data)
                  == (imageData + [d]) + LoadImages(n + 1, count, image).data;
            }
            imageData := imageData + [d];
        }
      }
      return Loaded(imageData);
    }

    /** The statements behind the two parking branches and the announcement. */
    method Ask(prompt: PromptObject, model: M.Model, a: Answers)
      returns (err: Option<string>, how: Ending, request: Option<Request>)
      modifies prompt, prompt.conditioned
      ensures Body(prompt.Value(), err, NoRequeue, how, request) == AskModel(old(prompt.Value()), model, a)
    {
      err, how, request := None, Errored, None;
      var opts := Options(prompt.spec.options, a);
      if opts.Failed? {
        err := Some(opts.error);
        return;
      }
      var images := CollectImages(|prompt.spec.images|, a.image);
      if images.LoadFailed? {
        err := Some(images.error);
        return;
      }
      if images.LoadPanicked? {
        how := Panicked;
        return;
      }
      var decoded := DecodeContext(prompt.spec.context);
      if !decoded.Context? {
        err := Some(ContextError(decoded, a));
        return;
      }
      request := Some(Request(model.spec.model, prompt.spec.prompt, prompt.spec.suffix, prompt.spec.system,
                              prompt.spec.template, decoded.value, images.data, opts.value));
      if a.generate.Failed? {
        err := Some(Wrap(a.generate.error, "failed to generate prompt"));
        return;
      }
      var r := a.generate.value;
      prompt.context := EncodeContext(r.context);
      prompt.response := Trimmed(r.text);
      prompt.meta := Some(r.createdAt);
      prompt.metrics := Some(r.metrics);
      prompt.SetConditionsWithObservedGeneration([Available(a.readyTime)]);
      how := Answered;
    }

    method ReconcileBody(prompt: PromptObject, read: ModelRead, a: Answers)
      returns (err: Option<string>, requeue: Requeue, how: Ending, request: Option<Request>)
      modifies prompt, prompt.conditioned
      ensures Body(prompt.Value(), err, requeue, how, request) == RunBody(old(prompt.Value()), read, a)
    {
      err, requeue, how, request := None, NoRequeue, Errored, None;
      if prompt.response != "" {
        how := Kept;
        return;
      }
      if read.Missing? {
        prompt.SetConditionsWithObservedGeneration(
          [Unavailable(a.readyTime).WithMessage("Referenced model does not exist")]);
        how := NoModel;
        return;
      }
      if read.Unreadable? {
        err := Some(Wrap(read.error, "failed to fetch model"));
        return;
      }
      var open := IsReadyAndSynced(read.model, a.readyTime, a.syncedTime);
      if !open {
        prompt.SetConditionsWithObservedGeneration(
          [Unavailable(a.readyTime).WithMessage("Model is not ready and synced")]);
        how := GateClosed;
        return;
      }
      var ready := prompt.conditioned.GetCondition(TYPE_READY);
      if !Same(ready, WaitingCondition(a.readyTime)) {
        prompt.SetConditionsWithObservedGeneration([WaitingCondition(a.readyTime)]);
        requeue, how := Immediately, Waiting;
        return;
      }
      err, how, request := Ask(prompt, read.model, a);
    }

    /** Reconcile: the body, then the deferred block. */
    method Reconcile(prompt: PromptObject, read: ModelRead, a: Answers, foreign: seq<Version>, reply: Reply)
      returns (requeue: Requeue, retErr: Option<string>, request: Option<Request>, panicked: bool)
      requires server.Valid()
      modifies server, prompt, prompt.conditioned
      ensures server.Valid()
      ensures Outcome(server.history, requeue, retErr, request, panicked)
           == RunPass(old(server.history), Copy(prompt.version, old(prompt.Value())), read, a, foreign, reply)
    {
      var how;
      retErr, requeue, how, request := ReconcileBody(prompt, read, a);
      panicked := how.Panicked?;
      prompt.observedGeneration := prompt.generation;
      if retErr.Some? {
        prompt.SetConditionsWithObservedGeneration([ReconcileError(retErr.value, a.syncedTime)]);
      } else {
        prompt.SetConditionsWithObservedGeneration([ReconcileSuccess(a.syncedTime)]);
      }
      server.Foreign(foreign);
      var latest := server.history[|server.history| - 1].obj;
      var status := PromptStatus(prompt.conditioned.conditions, prompt.observedGeneration, prompt.response,
                                 prompt.context, prompt.meta, prompt.metrics);
      var patchErr := server.Update(prompt.version, latest.(status := status), PassEnded(how), reply);
      retErr := Join(retErr, patchErr);
    }
  }

  // ---------------------------------------------------------------- the watch on Models

  /** What a cache lists of a Prompt. */
  datatype Listed = Listed(key: Key, refName: string)

  /** The requests one Model event maps to, as a set. */
  function Matching(prompts: seq<Listed>, model: Key): set<Key> {
    set p | p in prompts && p.key.namespace == model.namespace && p.refName == model.name :: p.key
  }

  ghost predicate DistinctKeys(prompts: seq<Listed>) {
    forall i, j :: 0 <= i < j < |prompts| ==> prompts[i].key != prompts[j].key
  }

  /** The cache's List restricted to a namespace. */
  function InNamespace(prompts: seq<Listed>, namespace: string): (r: seq<Listed>)
    ensures forall p :: p in r <==> p in prompts && p.key.namespace == namespace
  {
    if prompts == [] then []
    else (if prompts[0].key.namespace == namespace then [prompts[0]] else []) + InNamespace(prompts[1..], namespace)
  }

  lemma {:induction false} InNamespaceDistinct(prompts: seq<Listed>, namespace: string)
    requires DistinctKeys(prompts)
    ensures DistinctKeys(InNamespace(prompts, namespace))
  {
    if prompts != [] {
      assert forall i :: 0 <= i < |prompts[1..]| ==> prompts[1..][i] == prompts[i + 1];
      InNamespaceDistinct(prompts[1..], namespace);
      var rest, all := InNamespace(prompts[1..], namespace), InNamespace(prompts, namespace);
      if prompts[0].key.namespace == namespace {
        assert all == [prompts[0]] + rest;
        forall i, j | 0 <= i < j < |all|
          ensures all[i].key != all[j].key
        {
          assert rest[j - 1] in prompts[1..];
          var k :| 0 <= k < |prompts[1..]| && prompts[1..][k] == rest[j - 1];
          assert prompts[k + 1].key == all[j].key;
        }
      } else {
        assert all == rest;
      }
    }
  }

  /** The map function of the watch: each Prompt of the Model's namespace that names the Model, exactly once. */
  method MapModel(listing: Call<seq<Listed>>, model: Key) returns (requests: seq<Key>)
    ensures listing.Failed? ==> requests == []
    ensures listing.Done? ==> forall k :: k in requests <==> k in Matching(listing.value, model)
    ensures listing.Done? && DistinctKeys(listing.value) ==>
      forall i, j :: 0 <= i < j < |requests| ==> requests[i] != requests[j]
  {
    requests := [];
    if listing.Failed? {
      return;
    }
    var items := InNamespace(listing.value, model.namespace);
    ghost var distinct_ := DistinctKeys(listing.value);
    if distinct_ {
      InNamespaceDistinct(listing.value, model.namespace);
    }
    for n := 0 to |items|
      invariant forall k :: k in requests <==>
        exists i :: 0 <= i < n && items[i].refName == model.name && items[i].key == k
      invariant distinct_ ==> forall i, j :: 0 <= i < j < |requests| ==> requests[i] != requests[j]
    {
      var prompt := items[n];
      if prompt.refName == model.name {
        if distinct_ {
          assert prompt.key !in requests;
        }
        requests := requests + [prompt.key];
      }
    }
  }
}
