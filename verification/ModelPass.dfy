/**
 * One pass of the Model controller as functions of the stored history, the copy that was read, and the answers of
 * the world. The imperative reconciler (ModelReconciler) and the protocol (ModelProtocol) are both built on them.
 */
module ModelPass {
  import opened Common
  import opened Conditions
  import opened VersionedStore

  const DEFAULT_IMAGE: string := "docker.io/ollama/ollama:0.32.9"

  datatype ModelSpec = ModelSpec(ollamaImage: string, model: string)

  datatype Details = Details(
    parameterSize: string, quantizationLevel: string, parentModel: string,
    format: string, family: string, families: seq<string>)

  datatype ModelStatus = ModelStatus(
    conditions: seq<Condition>, observedGeneration: int, ollamaImage: string, details: Option<Details>)

  datatype Model = Model(generation: int, spec: ModelSpec, status: ModelStatus)
  {
    function Ready(): Condition { Lookup(status.conditions, TYPE_READY) }

    /** The fields that the deferred block sets from the object itself. */
    function Observed(): Model {
      this.(status := status.(observedGeneration := generation, ollamaImage := Or(spec.ollamaImage, DEFAULT_IMAGE)))
    }

    /** SetConditionsWithObservedGeneration. */
    function With(news: seq<Condition>): Model {
      this.(status := status.(conditions := SetAll(status.conditions, Stamp(news, generation))))
    }
  }

  /** How the body of a pass ended; the last constructor is line 203 of the controller. */
  datatype Ending = Errored | StsMissing | StsWaiting | Announced(model: string) | PullIncomplete | BecameAvailable

  /** Who stored a version. No pass ever looks at this. */
  datatype Origin = Created | SpecEdited | Touched | Progressed | PassEnded(how: Ending)

  type Version = Entry<Model, Origin>

  /** All versions of one object; the index of a version is its resource version. */
  type History = h: seq<Version> | h != []
    witness [Entry(Model(1, ModelSpec("", ""), ModelStatus([], 0, "", None)), Created)]

  /** The copy a pass works on, with the resource version it was read at. */
  datatype Copy = Copy(version: nat, obj: Model)

  // ---------------------------------------------------------------- answers

  /** A resource of the Model with the API server's answer to applying it. */
  datatype Resource = Resource(kind: string, name: string, applied: Call<()>)

  datatype StsAnswer =
    | StsNotFound
    | StsGetFailed(error: string)
    | StsViewFailed(error: string)
    | StsState(ready: bool, message: string)

  /** One response streamed by ollama during a pull, with the clock readings and the outcomes around it. */
  datatype Progress = Progress(
    status: string, total: int, completed: int, digest: string,
    now: int, restart: int, readyTime: int, syncedTime: int,
    reply: Reply, cancelled: Option<string>)

  datatype Answers = Answers(
    resources: Call<seq<Resource>>,
    sts: StsAnswer,
    list: Call<seq<string>>,
    pullEnd: Option<string>,
    show: Call<Details>,
    write: Reply,
    readyTime: int, syncedTime: int, failedTime: int)

  // ---------------------------------------------------------------- the body of a pass

  /** Where the body stands: it returned, or the pull or the final look-up comes next. */
  datatype Stage =
    | Ended(obj: Model, err: Option<string>, requeue: Requeue, how: Ending)
    | MustPull(obj: Model)
    | MustShow(obj: Model)

  function Fail(m: Model, e: string): Stage { Ended(m, Some(e), NoRequeue, Errored) }

  function FirstFailure(rs: seq<Resource>): Option<string> {
    if rs == [] then None
    else if rs[0].applied.Failed? then
      Some("while applying " + rs[0].kind + " " + rs[0].name + ": " + rs[0].applied.error)
    else FirstFailure(rs[1..])
  }

  function PullingMessage(model: string): string { "Pulling " + Quoted(model) + " model" }

  function Announcement(model: string, now: int): Condition { Creating(now).WithMessage(PullingMessage(model)) }

  predicate Announces(c: Condition, model: string) { Same(c, Announcement(model, 0)) }

  function Probe(m: Model, a: Answers): Stage {
    match a.resources
    case Failed(e) => Fail(m, Wrap(e, "while creating resources"))
    case Done(rs) =>
      match FirstFailure(rs)
      case Some(e) => Fail(m, e)
      case None =>
        match a.sts
        case StsNotFound => Ended(m.With([Creating(a.readyTime)]), None, NoRequeue, StsMissing)
        case StsGetFailed(e) => Fail(m, Wrap(e, "failed to fetch statefulset to check its readiness"))
        case StsViewFailed(e) => Fail(m.With([Unavailable(a.readyTime)]), e)
        case StsState(ready, message) =>
          if !ready then
            Ended(m.With([Unavailable(a.readyTime).WithMessage(TrimSuffix(message, "...\n"))]), None, NoRequeue,
              StsWaiting)
          else
            match a.list
            case Failed(e) => Fail(m, Wrap(e, "failed to list local models"))
            case Done(models) =>
              if m.spec.model in models then MustShow(m)
              else if !Same(m.Ready(), Announcement(m.spec.model, a.readyTime)) then
                Ended(m.With([Announcement(m.spec.model, a.readyTime)]), None, Immediately, Announced(m.spec.model))
              else MustPull(m)
  }

  /** The pull so far: the copy, which patches refresh, the clock at the last patch, and the last status streamed. */
  datatype Pulling = Pulling(copy: Copy, since: int, status: string)

  /** The percentage of a layer; the total must not be zero. */
  function Percent(completed: int, total: int): string
    requires total != 0
  {
    Decimal(RoundToEven((completed * 100) as real / total as real)) + ".00"
  }

  function ProgressMessage(e: Progress): string
    requires e.total != 0
  {
    "Progress in pulling model layer: " + Percent(e.completed, e.total) + "%, digest: " + Quoted(e.digest)
  }

  /** Server-side apply on a list keyed by type: a supplied entry replaces the stored one of its type. */
  function Upsert(cs: seq<Condition>, c: Condition): seq<Condition> {
    if cs == [] then [c]
    else if cs[0].ctype == c.ctype then [c] + cs[1..]
    else [cs[0]] + Upsert(cs[1..], c)
  }

  /** The stored object after a progress patch that a pass sends from a copy of the given generation. */
  function Patched(stored: Model, generation: int, e: Progress): Model
    requires e.total != 0
  {
    var ready := Creating(e.readyTime).WithObservedGeneration(generation).WithMessage(ProgressMessage(e));
    var synced := ReconcileSuccess(e.syncedTime).WithObservedGeneration(generation);
    stored.(status := stored.status.(
      observedGeneration := generation,
      conditions := Upsert(Upsert(stored.status.conditions, ready), synced)))
  }

  function Patch(h: History, copy: Copy, e: Progress): History
    requires e.total != 0
  {
    if e.reply.Rejected? then h else Store(h, Patched(Last(h).obj, copy.obj.generation, e), Progressed)
  }

  predicate Due(p: Pulling, e: Progress) { e.total != 0 && e.now - p.since > 5 * SECOND }

  datatype Streamed = Streamed(history: History, pulling: Pulling, err: Option<string>)

  /** The callback of the pull on one streamed response. An accepted patch refreshes the copy in memory. */
  function OnProgress(h: History, p: Pulling, e: Progress): Streamed {
    if Due(p, e) then
      var h' := Patch(h, p.copy, e);
      match e.reply
      case Accepted => Streamed(h', Pulling(Copy(|h'| - 1, Last(h').obj), e.restart, e.status), None)
      case Rejected(err) => Streamed(h', Pulling(p.copy, e.restart, e.status), Some(err))
      case Lost(err) => Streamed(h', Pulling(p.copy, e.restart, e.status), Some(err))
    else
      Streamed(h, p.(status := e.status), e.cancelled)
  }

  function AfterPull(m: Model, status: string, err: Option<string>, a: Answers): Stage {
    match err
    case Some(e) => Fail(m, Wrap(e, "failed to pull " + Quoted(m.spec.model) + " model"))
    case None =>
      if status != "success" then
        Ended(m.With([Unavailable(a.readyTime).WithMessage("Model hasn't been pulled successfully, retrying")]),
              None, After(5 * SECOND), PullIncomplete)
      else MustShow(m)
  }

  function AfterShow(m: Model, a: Answers): (s: Stage)
    ensures s.Ended?
  {
    match a.show
    case Failed(e) => Fail(m.With([Unavailable(a.readyTime)]), Wrap(e, "while fetching ollama model details"))
    case Done(details) =>
      Ended(m.(status := m.status.(details := Some(details))).With([Available(a.readyTime)]), None, NoRequeue,
        BecameAvailable)
  }

  /** Runs the final look-up when it is due. */
  function Closed(s: Stage, a: Answers): (r: Stage)
    requires !s.MustPull?
    ensures r.Ended?
  {
    if s.MustShow? then AfterShow(s.obj, a) else s
  }

  /** The deferred block up to its write. */
  function Deferred(m: Model, err: Option<string>, a: Answers): Model {
    var m1 := m.Observed();
    match err
    case Some(e) => m1.With([ReconcileError(e, a.syncedTime)]).With([Unavailable(a.failedTime)])
    case None => m1.With([ReconcileSuccess(a.syncedTime)])
  }

  /** Status().Update: only the status is stored, and only if the copy is of the latest version. */
  function Update(h: History, version: nat, status: ModelStatus, how: Ending, reply: Reply): Written<Model, Origin> {
    Put(h, version, Last(h).obj.(status := status), PassEnded(how), reply)
  }

  /** The comparison that opens a Model for Prompts: with a fresh Available and ReconcileSuccess pair. */
  predicate GateOpen(m: Model) {
    && DistinctTypes(m.status.conditions)
    && AsMap(m.status.conditions) == AsMap(SetAll([], [Available(0), ReconcileSuccess(0)]))
  }

  // ---------------------------------------------------------------- a whole pass

  /** A streamed response, after other writers stored further versions. */
  datatype Beat = Beat(foreign: seq<Version>, event: Progress)

  /**
   * What a whole pass meets: answers, the clock at the start of a pull, its beats, and what others store before the
   * write.
   */
  datatype Script = Script(answers: Answers, pullStart: int, beats: seq<Beat>, foreign: seq<Version>)

  function Extend(h: History, es: seq<Version>): History { h + es }

  /** The callbacks of a pull in order, until one fails. */
  function Stream(h: History, p: Pulling, beats: seq<Beat>): Streamed
    decreases |beats|
  {
    if beats == [] then Streamed(h, p, None)
    else
      var s := OnProgress(Extend(h, beats[0].foreign), p, beats[0].event);
      if s.err.Some? then s else Stream(s.history, s.pulling, beats[1..])
  }

  datatype Body = Body(history: History, copy: Copy, stage: Stage)

  /** Lines 102-204: everything before the deferred block. */
  function RunBody(h: History, copy: Copy, s: Script): (r: Body)
    ensures r.stage.Ended?
  {
    var probe := Probe(copy.obj, s.answers);
    if probe.MustPull? then
      var streamed := Stream(h, Pulling(copy, s.pullStart, ""), s.beats);
      var err := if streamed.err.Some? then streamed.err else s.answers.pullEnd;
      var after := AfterPull(streamed.pulling.copy.obj, streamed.pulling.status, err, s.answers);
      Body(streamed.history, streamed.pulling.copy, Closed(after, s.answers))
    else
      Body(h, copy, Closed(probe, s.answers))
  }

  datatype Outcome = Outcome(history: History, requeue: Requeue, err: Option<string>)

  /** The error of the body, joined with that of the status write. */
  function WithWriteError(err: Option<string>, write: Option<string>): Option<string> {
    Join(err, if write.Some? then Some(Wrap(write.value, "while patching status")) else None)
  }

  function RunPass(h: History, copy: Copy, s: Script): Outcome {
    var b := RunBody(h, copy, s);
    var final := Deferred(b.stage.obj, b.stage.err, s.answers);
    var w := Update(Extend(b.history, s.foreign), b.copy.version, final.status, b.stage.how, s.answers.write);
    Outcome(w.history, b.stage.requeue, WithWriteError(b.stage.err, w.err))
  }
}
