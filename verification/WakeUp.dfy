/**
 * The work queue of the Prompt controller in the combined system: caches that lag behind the API server, watch events
 * that are handled later, the map function of the watch on Models, and passes that read the caches.
 */
module WakeUp {
  import opened Common
  import opened VersionedStore
  import M = ModelPass
  import P = PromptPass
  import MP = ModelProtocol
  import PP = PromptProtocol
  import R = PromptReconciler
  import W = World

  /** What the last pass over a Prompt had read from the caches, and how its body ended; 0 Model versions: not found. */
  datatype Seen = Seen(promptVersions: nat, model: Key, modelVersions: nat, how: P.Ending)

  datatype State = State(
    world: W.State,
    modelCache: map<Key, nat>,    // how many versions of a Model the cache has received
    promptCache: map<Key, nat>,
    events: set<Key>,             // Models whose last cache update the watch has not yet handled
    missed: set<Key>,             // parked Prompts that a failed list passed over and that were not queued since
    queue: set<Key>,
    busy: map<Key, nat>,          // Prompts in a pass, with the pass's number
    seen: map<Key, Seen>)

  datatype Step =
    | WorldMoves(step: W.Step)                       // users and the Model controller
    | DeliverModel(key: Key, versions: nat)          // the cache receives a version; skipping some is possible
    | DeliverPrompt(key: Key, versions: nat)
    | HandleModel(key: Key, listed: bool)            // the map function runs; its List may fail
    | Take(key: Key, id: nat, failure: Option<string>, answers: P.Answers)
    | Settle(key: Key, reply: Reply)
    | Restart

  function Count(cache: map<Key, nat>, k: Key): nat { if k in cache then cache[k] else 0 }

  /** The Prompt as the cache has it. */
  function Cached(s: State, k: Key): P.Prompt
    requires k in s.world.prompts && k in s.promptCache && 0 < s.promptCache[k] <= |s.world.prompts[k].history|
  {
    s.world.prompts[k].history[s.promptCache[k] - 1].obj
  }

  predicate InCache(s: State, k: Key) {
    k in s.world.prompts && k in s.promptCache && 0 < s.promptCache[k] <= |s.world.prompts[k].history|
  }

  /** The requests that the map function answers for a Model, from the cached Prompts. */
  function Mapped(s: State, m: Key): set<Key> {
    set k | k in s.promptCache && InCache(s, k)
         && k.namespace == m.namespace && Cached(s, k).spec.modelRef.name == m.name
  }

  /** A listing of the cache: each cached Prompt with the name it refers to. */
  ghost predicate IsListing(s: State, listing: seq<R.Listed>) {
    && (forall k :: k in s.promptCache && InCache(s, k) <==> exists i :: 0 <= i < |listing| && listing[i].key == k)
    && (forall i :: 0 <= i < |listing| && InCache(s, listing[i].key) ==>
          listing[i].refName == Cached(s, listing[i].key).spec.modelRef.name)
  }

  /** The method MapModel enqueues exactly these requests. */
  lemma MappedIsMatching(s: State, m: Key, listing: seq<R.Listed>)
    requires IsListing(s, listing)
    ensures Mapped(s, m) == R.Matching(listing, m)
  {
    forall k | k in Mapped(s, m)
      ensures k in R.Matching(listing, m)
    {
      var i :| 0 <= i < |listing| && listing[i].key == k;
      assert listing[i] in listing;
    }
    forall k | k in R.Matching(listing, m)
      ensures k in Mapped(s, m)
    {
      var p :| p in listing && p.key.namespace == m.namespace && p.refName == m.name && p.key == k;
      var i :| 0 <= i < |listing| && listing[i] == p;
    }
  }

  /** The read of the Model goes to the cache. */
  function ModelAt(s: State, m: Key): Option<nat> {
    if m in s.modelCache && s.modelCache[m] > 0 then Some(s.modelCache[m] - 1) else None
  }

  /** What a pass that starts now reads, and how its body will end. */
  function Look(s: State, k: Key, failure: Option<string>, a: P.Answers): Seen
    requires InCache(s, k)
  {
    var p := Cached(s, k);
    var m := W.ModelKey(k, p.spec);
    Seen(s.promptCache[k], m, Count(s.modelCache, m),
      P.RunBody(p, W.ReadModel(s.world, m, ModelAt(s, m), failure), a).how)
  }

  function Reading(s: State, st: Step): W.Step
    requires st.Take? && InCache(s, st.key)
  {
    W.Reads(st.key, st.id, s.promptCache[st.key] - 1, ModelAt(s, W.ModelKey(st.key, Cached(s, st.key).spec)),
      st.failure, st.answers)
  }

  function DoTake(s: State, st: Step): State
    requires st.Take? && InCache(s, st.key)
  {
    s.(world := W.Apply(s.world, Reading(s, st)),
       queue := s.queue - {st.key},
       busy := s.busy[st.key := st.id],
       seen := s.seen[st.key := Look(s, st.key, st.failure, st.answers)])
  }

  predicate SettlesAgain(s: State, st: Step)
    requires st.Settle? && st.key in s.busy && st.key in s.world.prompts
  {
    var sys, id := s.world.prompts[st.key], s.busy[st.key];
    if id in sys.flights then
      var f := sys.flights[id];
      || f.err.Some? || f.requeue != NoRequeue || f.how.Panicked?
      || P.Update(sys.history, f.version, f.status, f.how, st.reply).err.Some?
    else true
  }

  /** A pass ends: it writes, and its key is queued again if it failed, panicked or asked for it. */
  function DoSettle(s: State, st: Step): State
    requires st.Settle? && st.key in s.busy && st.key in s.world.prompts
  {
    var k, id := st.key, s.busy[st.key];
    var again := SettlesAgain(s, st);
    s.(world := W.Apply(s.world, W.OfPrompt(k, PP.Write(id, st.reply))),
       busy := s.busy - {k},
       queue := if again then s.queue + {k} else s.queue,
       missed := if again then s.missed - {k} else s.missed)
  }

  /** Passes over Prompts are this controller's alone. */
  predicate Outside(step: W.Step) {
    match step
    case OfPrompt(_, pstep) => pstep.Edit? || pstep.Touch?
    case Reads(_, _, _, _, _, _) => false
    case _ => true
  }

  predicate Parked(how: P.Ending) { how.NoModel? || how.GateClosed? }

  /** The cache receives a version of a Prompt that it does not have yet. */
  predicate Delivers(s: State, st: Step)
    requires st.DeliverPrompt?
  {
    st.key in s.world.prompts && Count(s.promptCache, st.key) < st.versions <= |s.world.prompts[st.key].history|
  }

  /** The Prompts that a list for a Model would have queued and that nothing else will. */
  function PassedOver(s: State, m: Key): set<Key> {
    set k | k in Mapped(s, m) && k !in s.queue && k in s.seen && Parked(s.seen[k].how)
  }

  function Apply(s: State, st: Step): State {
    match st
    case WorldMoves(step) => if Outside(step) then s.(world := W.Apply(s.world, step)) else s
    case DeliverModel(k, n) =>
      if k in s.world.models && Count(s.modelCache, k) < n <= |s.world.models[k].history| then
        s.(modelCache := s.modelCache[k := n], events := s.events + {k})
      else s
    case DeliverPrompt(k, n) =>
      if Delivers(s, st) then
        s.(promptCache := s.promptCache[k := n], queue := s.queue + {k}, missed := s.missed - {k})
      else s
    case HandleModel(k, listed) =>
      if k !in s.events then s
      else if listed then
        s.(events := s.events - {k}, missed := s.missed - Mapped(s, k), queue := s.queue + Mapped(s, k))
      else s.(events := s.events - {k}, missed := s.missed + PassedOver(s, k))
    case Take(k, id, _, _) =>
      if k in s.queue && k !in s.busy && InCache(s, k) && id !in s.world.prompts[k].flights then DoTake(s, st) else s
    case Settle(k, _) => if k in s.busy && k in s.world.prompts then DoSettle(s, st) else s
    case Restart => State(s.world, map[], map[], {}, {}, {}, map[], map[])
  }

  function Run(s: State, steps: seq<Step>): State
    decreases |steps|
  {
    if steps == [] then s else Run(Apply(s, steps[0]), steps[1..])
  }

  const EMPTY: State := State(W.EMPTY, map[], map[], {}, {}, {}, map[], map[])

  // ---------------------------------------------------------------- invariant

  /** The pass found a response or stored what the model answered. */
  predicate Finished(how: P.Ending) { how.Kept? || how.Answered? }

  /** The first n versions of a Model end with a closed gate; there may be none. */
  predicate ClosedAt(w: W.State, m: Key, n: nat) {
    n > 0 ==> m in w.models && n <= |w.models[m].history| && !M.GateOpen(w.models[m].history[n - 1].obj)
  }

  ghost predicate CachesOk(s: State) {
    && (forall m :: m in s.modelCache ==> m in s.world.models && 0 < s.modelCache[m] <= |s.world.models[m].history|)
    && (forall k :: k in s.promptCache ==> InCache(s, k))
  }

  /** A Prompt that is not queued was seen by a pass in the version that is cached now. */
  ghost predicate SeenOk(s: State, k: Key)
    requires InCache(s, k)
  {
    k in s.queue
    || ( && k in s.seen
         && s.seen[k].promptVersions == s.promptCache[k]
         && s.seen[k].model == W.ModelKey(k, Cached(s, k).spec)
         && (k in s.busy || Finished(s.seen[k].how) || Parked(s.seen[k].how))
         && (Parked(s.seen[k].how) ==> ParkedOk(s, k, s.seen[k])))
  }

  /** The pass that is under way over a Prompt is the one that was seen last. */
  ghost predicate BusyOk(s: State, k: Key)
    requires k in s.busy
  {
    && k in s.world.prompts && k in s.seen
    && s.busy[k] in s.world.prompts[k].flights
    && Consistent(s.world.prompts[k].flights[s.busy[k]], s.seen[k].how)
  }

  predicate Consistent(f: PP.Flight, how: P.Ending) {
    f.how == how && (f.err.None? && f.requeue == NoRequeue ==> Finished(how) || Parked(how) || how.Panicked?)
  }

  /**
   * A parked pass saw a closed gate, and if the cache has moved on since then an event is still to be handled or was
   * missed.
   */
  ghost predicate ParkedOk(s: State, k: Key, seen: Seen) {
    && ClosedAt(s.world, seen.model, seen.modelVersions)
    && (seen.model.namespace == k.namespace ==>
          seen.model in s.events || k in s.missed || Count(s.modelCache, seen.model) == seen.modelVersions)
  }

  /** A Prompt that was passed over is parked and not queued. */
  ghost predicate MissedOk(s: State, k: Key) {
    k in s.promptCache && k !in s.queue && k in s.seen && Parked(s.seen[k].how)
  }

  ghost predicate Inv(s: State) {
    && CachesOk(s)
    && (forall k :: k in s.promptCache ==> SeenOk(s, k))
    && (forall k :: k in s.missed ==> MissedOk(s, k))
    && (forall k :: k in s.busy ==> BusyOk(s, k))
  }

  /** The world grew and the passes under way are what they were. */
  lemma GrowInv(s: State, w: W.State)
    requires Inv(s) && W.Grows(s.world, w)
    requires forall k :: k in s.busy ==> k in w.prompts && w.prompts[k].flights == s.world.prompts[k].flights
    ensures Inv(s.(world := w))
  {
    GrowSeen(s, w);
    var s' := s.(world := w);
    forall k | k in s'.busy
      ensures BusyOk(s', k)
    {
      assert BusyOk(s, k);
    }
  }

  lemma GrowSeen(s: State, w: W.State)
    requires Inv(s) && W.Grows(s.world, w)
    ensures var s' := s.(world := w);
      CachesOk(s') && forall k :: k in s'.promptCache ==> SeenOk(s', k) && Cached(s', k) == Cached(s, k)
  {
    var s' := s.(world := w);
    forall k | k in s'.promptCache
      ensures InCache(s', k) && SeenOk(s', k) && Cached(s', k) == Cached(s, k)
    {
      assert SeenOk(s, k);
      assert Cached(s', k) == Cached(s, k);
    }
  }

  lemma WorldMovesInv(s: State, step: W.Step)
    requires Inv(s) && Outside(step)
    ensures Inv(s.(world := W.Apply(s.world, step)))
  {
    W.StepGrows(s.world, step);
    OutsideFlights(s.world, step);
    assert forall k :: k in s.busy ==> BusyOk(s, k);
    GrowInv(s, W.Apply(s.world, step));
  }

  lemma OutsideFlights(w: W.State, step: W.Step)
    requires Outside(step)
    ensures forall k :: k in w.prompts ==>
      k in W.Apply(w, step).prompts && W.Apply(w, step).prompts[k].flights == w.prompts[k].flights
  {
  }

  lemma DeliverModelInv(s: State, m: Key, n: nat)
    requires Inv(s) && m in s.world.models && Count(s.modelCache, m) < n <= |s.world.models[m].history|
    ensures Inv(s.(modelCache := s.modelCache[m := n], events := s.events + {m}))
  {
    var s' := s.(modelCache := s.modelCache[m := n], events := s.events + {m});
    forall k | k in s'.promptCache
      ensures InCache(s', k) && SeenOk(s', k)
    {
      assert SeenOk(s, k);
      assert Cached(s', k) == Cached(s, k);
    }
  }

  lemma DeliverPromptInv(s: State, q: Key, n: nat)
    requires Inv(s) && q in s.world.prompts && Count(s.promptCache, q) < n <= |s.world.prompts[q].history|
    ensures Inv(s.(promptCache := s.promptCache[q := n], queue := s.queue + {q}, missed := s.missed - {q}))
  {
    var s' := s.(promptCache := s.promptCache[q := n], queue := s.queue + {q}, missed := s.missed - {q});
    forall k | k in s'.promptCache
      ensures InCache(s', k) && SeenOk(s', k)
    {
      if k != q {
        assert SeenOk(s, k);
        assert Cached(s', k) == Cached(s, k);
      }
    }
    forall k | k in s'.busy
      ensures BusyOk(s', k)
    {
      assert BusyOk(s, k);
    }
  }

  /** Handling an event queues every parked Prompt of the namespace that refers to the Model. */
  lemma HandleInv(s: State, m: Key)
    requires Inv(s) && m in s.events
    ensures Inv(s.(events := s.events - {m}, missed := s.missed - Mapped(s, m), queue := s.queue + Mapped(s, m)))
  {
    var s' := s.(events := s.events - {m}, missed := s.missed - Mapped(s, m), queue := s.queue + Mapped(s, m));
    forall k | k in s'.promptCache
      ensures InCache(s', k) && SeenOk(s', k)
    {
      assert SeenOk(s, k);
      assert Cached(s', k) == Cached(s, k);
      if k !in s.queue && s.seen[k].model == m && m.namespace == k.namespace {
        assert k in Mapped(s, m);
      }
    }
  }

  lemma MissInv(s: State, m: Key)
    requires Inv(s) && m in s.events
    ensures Inv(s.(events := s.events - {m}, missed := s.missed + PassedOver(s, m)))
  {
    var s' := s.(events := s.events - {m}, missed := s.missed + PassedOver(s, m));
    forall k | k in s'.promptCache
      ensures InCache(s', k) && SeenOk(s', k)
    {
      assert SeenOk(s, k);
      assert Cached(s', k) == Cached(s, k);
      if k !in s.queue && Parked(s.seen[k].how) && s.seen[k].model == m && m.namespace == k.namespace {
        assert k in PassedOver(s, m);
      }
    }
  }

  /** A body that parks has read no Model, or a Model with a closed gate. */
  lemma ParkingReadsClosed(p: P.Prompt, read: P.ModelRead, a: P.Answers)
    requires Parked(P.RunBody(p, read, a).how)
    ensures read.Missing? || (read.Found? && !M.GateOpen(read.model))
  {
  }

  /** A body without an error and without a request to come back is finished, parked or panicked. */
  lemma BodyEndings(p: P.Prompt, read: P.ModelRead, a: P.Answers)
    ensures var b := P.RunBody(p, read, a);
      b.err.None? && b.requeue == NoRequeue ==> Finished(b.how) || Parked(b.how) || b.how.Panicked?
  {
  }

  /** Taking a key whose pass is registered as seen and under way. */
  lemma TakenInv(s: State, q: Key, id: nat, seen: Seen)
    requires CachesOk(s) && q in s.promptCache && q in s.queue
    requires forall k :: k in s.promptCache ==> SeenOk(s, k)
    requires forall k :: k in s.missed ==> MissedOk(s, k)
    requires forall k :: k in s.busy && k != q ==> BusyOk(s, k)
    requires seen.promptVersions == s.promptCache[q] && seen.model == W.ModelKey(q, Cached(s, q).spec)
    requires seen.modelVersions == Count(s.modelCache, seen.model)
    requires Parked(seen.how) ==> ClosedAt(s.world, seen.model, seen.modelVersions)
    requires id in s.world.prompts[q].flights && Consistent(s.world.prompts[q].flights[id], seen.how)
    ensures Inv(s.(queue := s.queue - {q}, busy := s.busy[q := id], seen := s.seen[q := seen]))
  {
    var s' := s.(queue := s.queue - {q}, busy := s.busy[q := id], seen := s.seen[q := seen]);
    forall k | k in s'.promptCache
      ensures InCache(s', k) && SeenOk(s', k)
    {
      assert SeenOk(s, k);
      assert Cached(s', k) == Cached(s, k);
    }
    forall k | k in s'.busy
      ensures BusyOk(s', k)
    {
      if k != q { assert BusyOk(s, k); }
    }
  }

  /** The passes under way after a pass began, and after one wrote. */
  lemma BeginFlights(w: W.State, st: W.Step)
    requires st.Reads? && st.key in w.prompts && st.version < |w.prompts[st.key].history|
    requires st.id !in w.prompts[st.key].flights
    ensures var w' := W.Apply(w, st);
      var p := w.prompts[st.key].history[st.version].obj;
      var read := W.ReadModel(w, W.ModelKey(st.key, p.spec), st.at, st.failure);
      && w'.prompts.Keys == w.prompts.Keys && w'.models == w.models
      && (forall k :: k in w.prompts && k != st.key ==> w'.prompts[k] == w.prompts[k])
      && st.id in w'.prompts[st.key].flights
      && Consistent(w'.prompts[st.key].flights[st.id], P.RunBody(p, read, st.answers).how)
  {
    var p := w.prompts[st.key].history[st.version].obj;
    BodyEndings(p, W.ReadModel(w, W.ModelKey(st.key, p.spec), st.at, st.failure), st.answers);
  }

  lemma WriteFlights(w: W.State, q: Key, id: nat, reply: Reply)
    requires q in w.prompts
    ensures var w' := W.Apply(w, W.OfPrompt(q, PP.Write(id, reply)));
      && w'.prompts.Keys == w.prompts.Keys && w'.models == w.models
      && forall k :: k in w.prompts && k != q ==> w'.prompts[k] == w.prompts[k]
  {
  }

  lemma OtherBusy(s: State, w: W.State, q: Key)
    requires Inv(s) && w.prompts.Keys == s.world.prompts.Keys
    requires forall k :: k in s.world.prompts && k != q ==> w.prompts[k] == s.world.prompts[k]
    ensures var s' := s.(world := w); forall k :: k in s'.busy && k != q ==> BusyOk(s', k)
  {
    var s' := s.(world := w);
    forall k | k in s'.busy && k != q
      ensures BusyOk(s', k)
    {
      assert BusyOk(s, k);
    }
  }

  lemma ParkedLook(s: State, k: Key, failure: Option<string>, a: P.Answers)
    requires CachesOk(s) && InCache(s, k) && Parked(Look(s, k, failure, a).how)
    ensures ClosedAt(s.world, Look(s, k, failure, a).model, Look(s, k, failure, a).modelVersions)
  {
    var p := Cached(s, k);
    var m := W.ModelKey(k, p.spec);
    ParkingReadsClosed(p, W.ReadModel(s.world, m, ModelAt(s, m), failure), a);
  }

  lemma TakeWorld(s: State, st: Step)
    requires Inv(s) && st.Take? && InCache(s, st.key) && st.key !in s.busy
    requires st.id !in s.world.prompts[st.key].flights
    ensures var w := W.Apply(s.world, Reading(s, st));
      && W.Grows(s.world, w) && w.prompts.Keys == s.world.prompts.Keys && w.models == s.world.models
      && (forall k :: k in s.world.prompts && k != st.key ==> w.prompts[k] == s.world.prompts[k])
      && st.id in w.prompts[st.key].flights
      && Consistent(w.prompts[st.key].flights[st.id], Look(s, st.key, st.failure, st.answers).how)
  {
    W.StepGrows(s.world, Reading(s, st));
    BeginFlights(s.world, Reading(s, st));
  }

  lemma TakeInv(s: State, st: Step)
    requires Inv(s) && st.Take? && InCache(s, st.key) && st.key !in s.busy && st.key in s.queue
    requires st.id !in s.world.prompts[st.key].flights
    ensures Inv(DoTake(s, st))
  {
    TakeWorld(s, st);
    var w := W.Apply(s.world, Reading(s, st));
    var seen := Look(s, st.key, st.failure, st.answers);
    if Parked(seen.how) { ParkedLook(s, st.key, st.failure, st.answers); }
    TakeInto(s, w, st.key, st.id, seen);
  }

  lemma TakeInto(s: State, w: W.State, q: Key, id: nat, seen: Seen)
    requires Inv(s) && InCache(s, q) && q !in s.busy && q in s.queue && q in s.promptCache
    requires W.Grows(s.world, w) && w.prompts.Keys == s.world.prompts.Keys && w.models == s.world.models
    requires forall k :: k in s.world.prompts && k != q ==> w.prompts[k] == s.world.prompts[k]
    requires id in w.prompts[q].flights && Consistent(w.prompts[q].flights[id], seen.how)
    requires seen.promptVersions == s.promptCache[q] && seen.model == W.ModelKey(q, Cached(s, q).spec)
    requires seen.modelVersions == Count(s.modelCache, seen.model)
    requires Parked(seen.how) ==> ClosedAt(s.world, seen.model, seen.modelVersions)
    ensures Inv(s.(world := w, queue := s.queue - {q}, busy := s.busy[q := id], seen := s.seen[q := seen]))
  {
    GrowSeen(s, w);
    OtherBusy(s, w, q);
    TakenInv(s.(world := w), q, id, seen);
  }

  /** Releasing a key whose pass is finished or parked, or that is queued again. */
  lemma SettledInv(s: State, q: Key, again: bool)
    requires CachesOk(s) && q in s.busy
    requires forall k :: k in s.promptCache ==> SeenOk(s, k)
    requires forall k :: k in s.missed ==> MissedOk(s, k)
    requires forall k :: k in s.busy && k != q ==> BusyOk(s, k)
    requires again || (q in s.seen && (Finished(s.seen[q].how) || Parked(s.seen[q].how)))
    ensures Inv(s.(busy := s.busy - {q}, queue := if again then s.queue + {q} else s.queue,
                   missed := if again then s.missed - {q} else s.missed))
  {
    var s' := s.(busy := s.busy - {q}, queue := if again then s.queue + {q} else s.queue,
                 missed := if again then s.missed - {q} else s.missed);
    forall k | k in s'.promptCache
      ensures InCache(s', k) && SeenOk(s', k)
    {
      assert SeenOk(s, k);
      assert Cached(s', k) == Cached(s, k);
    }
    forall k | k in s'.busy
      ensures BusyOk(s', k)
    {
      assert BusyOk(s, k);
    }
  }

  lemma SettleInv(s: State, st: Step)
    requires Inv(s) && st.Settle? && st.key in s.busy && st.key in s.world.prompts
    ensures Inv(DoSettle(s, st))
  {
    var s', q := DoSettle(s, st), st.key;
    var step := W.OfPrompt(q, PP.Write(s.busy[q], st.reply));
    var w := W.Apply(s.world, step);
    W.StepGrows(s.world, step);
    GrowSeen(s, w);
    WriteFlights(s.world, q, s.busy[q], st.reply);
    OtherBusy(s, w, q);
    assert BusyOk(s, q);
    var again := SettlesAgain(s, st);
    SettledInv(s.(world := w), q, again);
  }

  lemma StepInv(s: State, st: Step)
    requires Inv(s)
    ensures Inv(Apply(s, st))
  {
    match st
    case WorldMoves(step) => if Outside(step) { WorldMovesInv(s, step); }
    case DeliverModel(k, n) =>
      if k in s.world.models && Count(s.modelCache, k) < n <= |s.world.models[k].history| { DeliverModelInv(s, k, n); }
    case DeliverPrompt(k, n) =>
      if Delivers(s, st) { DeliverPromptInv(s, k, n); }
    case HandleModel(k, listed) =>
      if k in s.events {
        if listed { HandleInv(s, k); } else { MissInv(s, k); }
      }
    case Take(k, id, _, _) =>
      if k in s.queue && k !in s.busy && InCache(s, k) && id !in s.world.prompts[k].flights { TakeInv(s, st); }
    case Settle(k, _) => if k in s.busy && k in s.world.prompts { SettleInv(s, st); }
    case Restart =>
  }

  lemma {:induction false} RunInv(s: State, steps: seq<Step>)
    requires Inv(s)
    ensures Inv(Run(s, steps))
    decreases |steps|
  {
    if steps != [] {
      StepInv(s, steps[0]);
      RunInv(Apply(s, steps[0]), steps[1..]);
    }
  }

  // ---------------------------------------------------------------- no lost wake-up

  /**
   * The caches are up to date for a Prompt and its Model, and the Model's last event was handled, with a list or
   * without.
   */
  ghost predicate CaughtUp(s: State, k: Key, m: Key) {
    && k in s.world.prompts && m in s.world.models
    && Count(s.promptCache, k) == |s.world.prompts[k].history|
    && Count(s.modelCache, m) == |s.world.models[m].history|
    && m !in s.events
  }

  /** Neither queued nor in a pass. */
  predicate Idle(s: State, k: Key) { InCache(s, k) && k !in s.queue && k !in s.busy }

  /** Idle although the last pass over the version that is stored did not finish. */
  predicate Asleep(s: State, k: Key)
    requires k in s.world.prompts
  {
    && k !in s.queue && k !in s.busy
    && !(k in s.seen && s.seen[k].promptVersions == |s.world.prompts[k].history| && Finished(s.seen[k].how))
  }

  /** A Prompt whose Model is in its own namespace and whose gate is open, with nothing left to deliver or handle. */
  ghost predicate OpenFor(s: State, k: Key) {
    && k in s.world.prompts
    && var m := W.ModelKey(k, Last(s.world.prompts[k].history).obj.spec);
       m.namespace == k.namespace && CaughtUp(s, k, m) && M.GateOpen(Last(s.world.models[m].history).obj)
  }

  lemma OpenMeans(s: State, k: Key)
    requires Inv(s) && OpenFor(s, k)
    ensures Asleep(s, k) <==> k in s.missed && k !in s.busy
  {
    assert k in s.promptCache && SeenOk(s, k);
    assert Cached(s, k) == Last(s.world.prompts[k].history).obj;
    if k in s.missed { assert MissedOk(s, k); }
  }

  /**
   * The steps that wake a Prompt that is not queued: its cache receives a version, a list for a Model maps to it, its
   * pass fails or asks to come back, or the controller starts anew.
   */
  predicate Wakes(s: State, st: Step, k: Key) {
    match st
    case DeliverPrompt(q, _) => q == k && Delivers(s, st)
    case HandleModel(m, listed) => listed && m in s.events && k in Mapped(s, m)
    case Settle(q, _) => q == k && k in s.busy && k in s.world.prompts && SettlesAgain(s, st)
    case Restart => true
    case _ => false
  }

  /** A step in which the list of Prompts fails for the Model of a parked Prompt that is not queued. */
  predicate Misses(s: State, st: Step, k: Key) {
    st.HandleModel? && !st.listed && st.key in s.events && k in PassedOver(s, st.key)
  }

  ghost predicate WokenAt(steps: seq<Step>, j: nat, k: Key)
    requires j < |steps|
  {
    Wakes(Run(EMPTY, steps[..j]), steps[j], k)
  }

  ghost predicate PassedOverAt(steps: seq<Step>, i: nat, k: Key)
    requires i < |steps|
  {
    Misses(Run(EMPTY, steps[..i]), steps[i], k)
  }

  /** At step i of the run a failed list passed over the Prompt, and no later step woke it. */
  ghost predicate MissedAt(steps: seq<Step>, i: nat, k: Key)
    requires i < |steps|
  {
    PassedOverAt(steps, i, k) && forall j :: i < j < |steps| ==> !WokenAt(steps, j, k)
  }

  ghost predicate MissedSince(steps: seq<Step>, k: Key) { exists i :: 0 <= i < |steps| && MissedAt(steps, i, k) }

  lemma MissedStep(s: State, st: Step, k: Key)
    requires Inv(s)
    ensures k in Apply(s, st).missed <==> Misses(s, st, k) || (k in s.missed && !Wakes(s, st, k))
  {
    if k in s.missed { assert MissedOk(s, k); }
  }

  lemma {:induction false} RunSnoc(s: State, steps: seq<Step>, st: Step)
    ensures Run(s, steps + [st]) == Apply(Run(s, steps), st)
    decreases |steps|
  {
    if steps == [] {
      assert steps + [st] == [st] && [st][1..] == [];
      assert Run(Apply(s, st), []) == Apply(s, st);
    } else {
      assert (steps + [st])[0] == steps[0] && (steps + [st])[1..] == steps[1..] + [st];
      RunSnoc(Apply(s, steps[0]), steps[1..], st);
    }
  }

  /** The set of passed-over Prompts is what the history of the run says. */
  lemma {:induction false} MissedIsHistory(steps: seq<Step>, k: Key)
    ensures k in Run(EMPTY, steps).missed <==> MissedSince(steps, k)
    decreases |steps|
  {
    if steps != [] {
      var n := |steps| - 1;
      var front, st := steps[..n], steps[n];
      assert steps == front + [st];
      RunSnoc(EMPTY, front, st);
      RunInv(EMPTY, front);
      MissedStep(Run(EMPTY, front), st, k);
      MissedIsHistory(front, k);
      SinceSnoc(front, st, k);
    }
  }

  lemma AtPrefix(front: seq<Step>, st: Step, j: nat, k: Key)
    requires j < |front|
    ensures WokenAt(front + [st], j, k) == WokenAt(front, j, k)
    ensures PassedOverAt(front + [st], j, k) == PassedOverAt(front, j, k)
  {
    assert (front + [st])[..j] == front[..j] && (front + [st])[j] == front[j];
  }

  lemma AtEnd(front: seq<Step>, st: Step, k: Key)
    ensures WokenAt(front + [st], |front|, k) == Wakes(Run(EMPTY, front), st, k)
    ensures PassedOverAt(front + [st], |front|, k) == Misses(Run(EMPTY, front), st, k)
  {
    assert (front + [st])[..|front|] == front && (front + [st])[|front|] == st;
  }

  lemma MissedBefore(front: seq<Step>, st: Step, i: nat, k: Key)
    requires i < |front|
    ensures MissedAt(front + [st], i, k) <==> MissedAt(front, i, k) && !WokenAt(front + [st], |front|, k)
  {
    var steps := front + [st];
    AtPrefix(front, st, i, k);
    forall j | i < j < |front|
      ensures WokenAt(steps, j, k) == WokenAt(front, j, k)
    {
      AtPrefix(front, st, j, k);
    }
  }

  lemma SinceSnoc(front: seq<Step>, st: Step, k: Key)
    ensures var s := Run(EMPTY, front);
      MissedSince(front + [st], k) <==> Misses(s, st, k) || (MissedSince(front, k) && !Wakes(s, st, k))
  {
    var n, steps := |front|, front + [st];
    AtEnd(front, st, k);
    forall i | 0 <= i < n
      ensures MissedAt(steps, i, k) <==> MissedAt(front, i, k) && !WokenAt(steps, n, k)
    {
      MissedBefore(front, st, i, k);
    }
    assert MissedAt(steps, n, k) <==> PassedOverAt(steps, n, k);
    assert MissedSince(steps, k) <==> (exists i :: 0 <= i < n && MissedAt(steps, i, k)) || MissedAt(steps, n, k);
  }

  /**
   * In every run, for every Prompt that refers to a Model of its own namespace whose gate is open, once the caches have
   * caught up and the Model's events are handled: the Prompt is asleep if and only if a failed list passed over it and
   * no step since woke it (and no pass that read the closed gate is still under way).
   */
  lemma WakeUpLostExactly(steps: seq<Step>, k: Key)
    requires OpenFor(Run(EMPTY, steps), k)
    ensures var s := Run(EMPTY, steps); Asleep(s, k) <==> MissedSince(steps, k) && k !in s.busy
  {
    RunInv(EMPTY, steps);
    OpenMeans(Run(EMPTY, steps), k);
    MissedIsHistory(steps, k);
  }

  /** In particular no wake-up is lost in a run in which every list succeeds. */
  lemma NoLostWakeUp(steps: seq<Step>, k: Key)
    requires OpenFor(Run(EMPTY, steps), k)
    requires forall i :: 0 <= i < |steps| && steps[i].HandleModel? ==> steps[i].listed
    ensures !Asleep(Run(EMPTY, steps), k)
  {
    WakeUpLostExactly(steps, k);
  }

  /** Handling an event of its Model queues an idle Prompt if and only if the list succeeds, in every run. */
  lemma EventWakesIffListed(steps: seq<Step>, k: Key, listed: bool)
    requires var s := Run(EMPTY, steps);
      Idle(s, k) && var m := W.ModelKey(k, Cached(s, k).spec); m.namespace == k.namespace && m in s.events
    ensures var s := Run(EMPTY, steps);
      k in Apply(s, HandleModel(W.ModelKey(k, Cached(s, k).spec), listed)).queue <==> listed
  {
    var s := Run(EMPTY, steps);
    assert k in Mapped(s, W.ModelKey(k, Cached(s, k).spec));
  }

  /** The steps that can wake an idle Prompt that refers to a Model by this name. */
  predicate CanWake(st: Step, k: Key, name: string) {
    match st
    case DeliverPrompt(q, _) => q == k
    case HandleModel(m, listed) => listed && m.namespace == k.namespace && m.name == name
    case Restart => true
    case _ => false
  }

  /** The part of a state that tells whether a Prompt sleeps. */
  predicate SameSleep(s: State, s': State, k: Key)
    requires InCache(s, k)
  {
    && InCache(s', k) && Cached(s', k) == Cached(s, k)
    && (k in s.seen <==> k in s'.seen) && (k in s.seen ==> s'.seen[k] == s.seen[k])
  }

  lemma SameSleepWorld(s: State, w: W.State, k: Key)
    requires InCache(s, k) && W.Grows(s.world, w)
    ensures SameSleep(s, s.(world := w), k)
  {
  }

  lemma TakeSleep(s: State, st: Step, k: Key)
    requires Idle(s, k) && st.Take? && InCache(s, st.key) && st.key in s.queue
    ensures Idle(DoTake(s, st), k) && SameSleep(s, DoTake(s, st), k)
  {
    W.StepGrows(s.world, Reading(s, st));
    SameSleepWorld(s, W.Apply(s.world, Reading(s, st)), k);
  }

  lemma SettleSleep(s: State, st: Step, k: Key)
    requires Idle(s, k) && st.Settle? && st.key in s.busy && st.key in s.world.prompts
    ensures Idle(DoSettle(s, st), k) && SameSleep(s, DoSettle(s, st), k)
  {
    var step := W.OfPrompt(st.key, PP.Write(s.busy[st.key], st.reply));
    W.StepGrows(s.world, step);
    SameSleepWorld(s, W.Apply(s.world, step), k);
  }

  /** An idle Prompt stays idle, and is left as it was, in exactly the steps that do not wake it. */
  lemma IdleStep(s: State, st: Step, k: Key)
    requires Idle(s, k)
    ensures Idle(Apply(s, st), k) <==> !Wakes(s, st, k)
    ensures !Wakes(s, st, k) ==> SameSleep(s, Apply(s, st), k)
  {
    match st
    case WorldMoves(step) =>
      W.StepGrows(s.world, step);
      SameSleepWorld(s, W.Apply(s.world, step), k);
    case Take(q, id, _, _) =>
      if q in s.queue && q !in s.busy && InCache(s, q) && id !in s.world.prompts[q].flights { TakeSleep(s, st, k); }
    case Settle(q, _) => if q in s.busy && q in s.world.prompts { SettleSleep(s, st, k); }
    case Restart =>
    case _ => DeliverySleep(s, st, k);
  }

  lemma DeliverySleep(s: State, st: Step, k: Key)
    requires Idle(s, k) && (st.DeliverModel? || st.DeliverPrompt? || st.HandleModel?)
    ensures Idle(Apply(s, st), k) <==> !Wakes(s, st, k)
    ensures !Wakes(s, st, k) ==> SameSleep(s, Apply(s, st), k)
  {
  }

  /** An idle Prompt stays idle as long as none of these steps is taken, whatever else happens. */
  lemma {:induction false} StaysIdle(s: State, steps: seq<Step>, k: Key)
    requires Idle(s, k)
    requires forall i :: 0 <= i < |steps| ==> !CanWake(steps[i], k, Cached(s, k).spec.modelRef.name)
    ensures Idle(Run(s, steps), k) && SameSleep(s, Run(s, steps), k)
    decreases |steps|
  {
    if steps != [] {
      assert !CanWake(steps[0], k, Cached(s, k).spec.modelRef.name);
      IdleStep(s, steps[0], k);
      StaysIdle(Apply(s, steps[0]), steps[1..], k);
    }
  }
}
