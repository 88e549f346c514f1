/**
 * What a pass of the Model controller decides, from the answers it meets: how it ends, its error, its requeue, and what
 * its write leaves in the status. Nothing here is said through the functions that make up a pass.
 */
module ModelDecisions {
  import opened Common
  import opened Conditions
  import opened ModelPass
  import opened VersionedStore
  import MC = ModelConvergence
  import P = ModelProtocol
  import TL = TextLaws

  // ---------------------------------------------------------------- conditions and resources

  /** The list shows this under the type. */
  predicate Shows(cs: seq<Condition>, t: string, status: ConditionStatus, reason: string, message: string) {
    var c := Lookup(cs, t);
    c.status == status && c.reason == reason && c.message == message
  }

  /** The status announces the pull of the model that the spec names. */
  predicate Tells(m: Model) {
    Shows(m.status.conditions, "Ready", False, "Creating", "Pulling " + Quoted(m.spec.model) + " model")
  }

  lemma TellsIsSame(m: Model, now: int)
    ensures Same(m.Ready(), Announcement(m.spec.model, now)) <==> Tells(m)
  {
  }

  predicate AllApplied(rs: seq<Resource>) { forall i :: 0 <= i < |rs| ==> rs[i].applied.Done? }

  /** The k-th resource is the first that is not applied. */
  predicate FirstFails(rs: seq<Resource>, k: nat) { k < |rs| && rs[k].applied.Failed? && AllApplied(rs[..k]) }

  lemma {:induction false} NoFailure(rs: seq<Resource>)
    ensures FirstFailure(rs).None? <==> AllApplied(rs)
  {
    if rs != [] && rs[0].applied.Done? {
      NoFailure(rs[1..]);
      assert AllApplied(rs) <==> AllApplied(rs[1..]) by {
        assert forall i :: 0 < i < |rs| ==> rs[i] == rs[1..][i - 1];
      }
    }
  }

  lemma {:induction false} FailureText(rs: seq<Resource>, k: nat)
    requires FirstFails(rs, k)
    ensures FirstFailure(rs) ==
      Some("while applying " + rs[k].kind + " " + rs[k].name + ": " + rs[k].applied.error)
  {
    if k > 0 {
      assert rs[0] == rs[..k][0] && rs[1..][..k - 1] == rs[..k][1..] && rs[k] == rs[1..][k - 1];
      FailureText(rs[1..], k - 1);
    }
  }

  /** The resources are applied. */
  predicate Applied(a: Answers) { a.resources.Done? && AllApplied(a.resources.value) }

  /** And the StatefulSet is ready and ollama lists its models. */
  predicate Serving(a: Answers) { Applied(a) && a.sts.StsState? && a.sts.ready && a.list.Done? }

  predicate Local(m: Model, a: Answers) { a.list.Done? && m.spec.model in a.list.value }

  /** The pass pulls: ollama serves and lacks the model, and the status announces the pull. */
  predicate MayPull(m: Model, a: Answers) { Serving(a) && !Local(m, a) && Tells(m) }

  /** The pull ends without an error, and its last status is this. */
  predicate PullEnds(s: Script, status: string) {
    MC.StreamEnd(s.pullStart, "", s.beats) == MC.Over(None, status) && s.answers.pullEnd.None?
  }

  /** The pull ends with this error: that of the callback, or else that of the call. */
  predicate PullFails(s: Script, e: string) {
    var end := MC.StreamEnd(s.pullStart, "", s.beats);
    end.err == Some(e) || (end.err.None? && s.answers.pullEnd == Some(e))
  }

  const RETRY: string := "Model hasn't been pulled successfully, retrying"

  // ---------------------------------------------------------------- the branches of the body

  lemma ProbeServing(m: Model, a: Answers)
    requires Serving(a)
    ensures Probe(m, a) ==
      if Local(m, a) then MustShow(m)
      else if Tells(m) then MustPull(m)
      else Ended(m.With([Announcement(m.spec.model, a.readyTime)]), None, Immediately, Announced(m.spec.model))
  {
    NoFailure(a.resources.value);
    TellsIsSame(m, a.readyTime);
  }

  lemma ProbeElse(m: Model, a: Answers)
    requires !Serving(a)
    ensures var p := Probe(m, a);
      && p.Ended?
      && (p.how == StsMissing <==> Applied(a) && a.sts.StsNotFound?)
      && (p.how == StsWaiting <==> Applied(a) && a.sts.StsState? && !a.sts.ready)
      && (p.how != Errored ==> p.how == StsMissing || p.how == StsWaiting)
      && (p.err.Some? <==> p.how == Errored) && p.requeue == NoRequeue
  {
    if a.resources.Done? { NoFailure(a.resources.value); }
  }

  lemma PullStage(h: History, copy: Copy, s: Script)
    requires MayPull(copy.obj, s.answers)
    ensures var b, r := RunBody(h, copy, s), Stream(h, Pulling(copy, s.pullStart, ""), s.beats);
      && b.history == r.history && b.copy == r.pulling.copy
      && (forall e :: PullFails(s, e) ==>
            b.stage == Fail(b.copy.obj, "failed to pull " + Quoted(b.copy.obj.spec.model) + " model" + ": " + e))
      && (forall status :: PullEnds(s, status) ==>
            b.stage ==
              if status != "success" then
                Ended(b.copy.obj.With([Unavailable(s.answers.readyTime).WithMessage(RETRY)]), None,
                  After(5_000_000_000), PullIncomplete)
              else AfterShow(b.copy.obj, s.answers))
  {
    ProbeServing(copy.obj, s.answers);
    MC.StreamEnds(h, Pulling(copy, s.pullStart, ""), s.beats);
  }

  lemma PullEndsOrFails(s: Script)
    ensures (exists e :: PullFails(s, e)) || (exists status :: PullEnds(s, status))
  {
    var end := MC.StreamEnd(s.pullStart, "", s.beats);
    if end.err.Some? {
      assert PullFails(s, end.err.value);
    } else if s.answers.pullEnd.Some? {
      assert PullFails(s, s.answers.pullEnd.value);
    } else {
      assert PullEnds(s, end.status);
    }
  }

  // ---------------------------------------------------------------- how a pass ends

  /** The ending that the answers demand. */
  ghost predicate EndsAs(m: Model, s: Script, how: Ending) {
    var a := s.answers;
    match how
    case StsMissing => Applied(a) && a.sts.StsNotFound?
    case StsWaiting => Applied(a) && a.sts.StsState? && !a.sts.ready
    case Announced(model) => Serving(a) && !Local(m, a) && !Tells(m) && model == m.spec.model
    case PullIncomplete => MayPull(m, a) && exists status :: status != "success" && PullEnds(s, status)
    case BecameAvailable => Serving(a) && (Local(m, a) || (Tells(m) && PullEnds(s, "success"))) && a.show.Done?
    case Errored =>
      || !Applied(a) || a.sts.StsGetFailed? || a.sts.StsViewFailed?
      || (a.sts.StsState? && a.sts.ready && a.list.Failed?)
      || (MayPull(m, a) && exists e :: PullFails(s, e))
      || (Serving(a) && (Local(m, a) || (Tells(m) && PullEnds(s, "success"))) && a.show.Failed?)
  }

  /** When a pass asks to be run again: at once after an announcement, in five seconds after an incomplete pull. */
  function Again(how: Ending): Requeue {
    match how
    case Announced(_) => Immediately
    case PullIncomplete => After(5_000_000_000)
    case _ => NoRequeue
  }

  /** Every pass ends in exactly the way that its answers demand, with the requeue and the error of that ending. */
  lemma EndingsExactly(h: History, copy: Copy, s: Script, how: Ending)
    ensures var b := RunBody(h, copy, s);
      && (b.stage.how == how <==> EndsAs(copy.obj, s, how))
      && b.stage.requeue == Again(b.stage.how) && RunPass(h, copy, s).requeue == b.stage.requeue
      && (b.stage.err.Some? <==> b.stage.how == Errored)
  {
    var m, a := copy.obj, s.answers;
    if !Serving(a) {
      ProbeElse(m, a);
    } else {
      ProbeServing(m, a);
      if MayPull(m, a) { PullEndings(h, copy, s, how); }
    }
  }

  lemma PullEndings(h: History, copy: Copy, s: Script, how: Ending)
    requires MayPull(copy.obj, s.answers)
    ensures var b := RunBody(h, copy, s);
      && (b.stage.how == how <==> EndsAs(copy.obj, s, how))
      && b.stage.requeue == Again(b.stage.how)
      && (b.stage.err.Some? <==> b.stage.how == Errored)
  {
    var b := RunBody(h, copy, s);
    PullStage(h, copy, s);
    PullEndsOrFails(s);
    if e :| PullFails(s, e) {
      assert b.stage.how == Errored && b.stage.requeue == NoRequeue;
      FailedPullEnds(copy.obj, s, e, how);
    } else {
      var status :| PullEnds(s, status);
      StageOfPull(b.stage, b.copy.obj, s, status);
      EndedPullEnds(copy.obj, s, status, how);
    }
  }

  lemma StageOfPull(stage: Stage, m: Model, s: Script, status: string)
    requires stage == if status == "success" then AfterShow(m, s.answers)
      else
        Ended(m.With([Unavailable(s.answers.readyTime).WithMessage(RETRY)]), None, After(5_000_000_000), PullIncomplete)
    ensures stage.how == EndOfPull(s, status) && stage.requeue == Again(stage.how)
    ensures stage.err.Some? <==> stage.how == Errored
  {
  }

  function EndOfPull(s: Script, status: string): Ending {
    if status != "success" then PullIncomplete else if s.answers.show.Done? then BecameAvailable else Errored
  }

  lemma FailedPullEnds(m: Model, s: Script, e: string, how: Ending)
    requires MayPull(m, s.answers) && PullFails(s, e)
    ensures EndsAs(m, s, how) <==> how == Errored
  {
  }

  lemma EndedPullEnds(m: Model, s: Script, status: string, how: Ending)
    requires MayPull(m, s.answers) && PullEnds(s, status)
    ensures EndsAs(m, s, how) <==> how == EndOfPull(s, status)
  {
  }

  // ---------------------------------------------------------------- errors of the body

  /** The texts of the errors, from where the first failure is; the model is that of the copy that the pull left. */
  lemma ErrorTexts(h: History, copy: Copy, s: Script)
    ensures var err, a, m := RunBody(h, copy, s).stage.err, s.answers, copy.obj;
      && (a.resources.Failed? ==> err == Some("while creating resources" + ": " + a.resources.error))
      && (a.resources.Done? ==> forall k: nat :: FirstFails(a.resources.value, k) ==>
            var r := a.resources.value[k];
            err == Some("while applying " + r.kind + " " + r.name + ": " + r.applied.error))
      && (Applied(a) && a.sts.StsGetFailed? ==>
            err == Some("failed to fetch statefulset to check its readiness" + ": " + a.sts.error))
      && (Applied(a) && a.sts.StsViewFailed? ==> err == Some(a.sts.error))
      && (Applied(a) && a.sts.StsState? && a.sts.ready && a.list.Failed? ==>
            err == Some("failed to list local models" + ": " + a.list.error))
  {
    var a := s.answers;
    if a.resources.Done? {
      NoFailure(a.resources.value);
      forall k: nat | FirstFails(a.resources.value, k)
        ensures FirstFailure(a.resources.value) == Some("while applying " + a.resources.value[k].kind + " "
          + a.resources.value[k].name + ": " + a.resources.value[k].applied.error)
      {
        FailureText(a.resources.value, k);
      }
    }
  }

  lemma PullErrorTexts(h: History, copy: Copy, s: Script)
    ensures var b, a := RunBody(h, copy, s), s.answers;
      && (MayPull(copy.obj, a) ==> forall e :: PullFails(s, e) ==>
            b.stage.err == Some("failed to pull " + Quoted(b.copy.obj.spec.model) + " model" + ": " + e))
      && (Serving(a) && (Local(copy.obj, a) || (Tells(copy.obj) && PullEnds(s, "success"))) && a.show.Failed? ==>
            b.stage.err == Some("while fetching ollama model details" + ": " + a.show.error))
  {
    if Serving(s.answers) {
      ProbeServing(copy.obj, s.answers);
      if MayPull(copy.obj, s.answers) { PullStage(h, copy, s); }
    }
  }

  // ---------------------------------------------------------------- the error of the pass

  /** The version that the status write must have been made from. */
  predicate WritesLatest(b: Body, s: Script) { b.copy.version == |b.history| + |s.foreign| - 1 }

  /**
   * A pass returns no error exactly when its body did not end in one, the reply to its write arrives and is no refusal,
   * and the copy that it wrote from is of the latest version.
   */
  lemma NoErrorExactly(h: History, copy: Copy, s: Script)
    ensures var b := RunBody(h, copy, s);
      RunPass(h, copy, s).err.None? <==> b.stage.err.None? && s.answers.write.Accepted? && WritesLatest(b, s)
    ensures !MayPull(copy.obj, s.answers) ==>
      RunBody(h, copy, s).history == h && RunBody(h, copy, s).copy == copy
  {
    var b := RunBody(h, copy, s);
    var status := Deferred(b.stage.obj, b.stage.err, s.answers).status;
    var all := Extend(b.history, s.foreign);
    PutExactly(all, b.copy.version, Last(all).obj.(status := status), PassEnded(b.stage.how), s.answers.write);
    if Serving(s.answers) { ProbeServing(copy.obj, s.answers); } else { ProbeElse(copy.obj, s.answers); }
  }

  /** Which error it returns otherwise: that of the body, that of the write, or both on two lines. */
  lemma ErrorsJoined(h: History, copy: Copy, s: Script)
    ensures var b, err, write := RunBody(h, copy, s), RunPass(h, copy, s).err, s.answers.write;
      && (write.Accepted? && WritesLatest(b, s) ==> err == b.stage.err)
      && (b.stage.err.None? && write.Accepted? && !WritesLatest(b, s) ==>
            err == Some("while patching status" + ": " + CONFLICT))
      && (b.stage.err.None? && !write.Accepted? ==> err == Some("while patching status" + ": " + write.error))
      && (b.stage.err.Some? && write.Accepted? && !WritesLatest(b, s) ==>
            err == Some(b.stage.err.value + "\n" + ("while patching status" + ": " + CONFLICT)))
      && (b.stage.err.Some? && !write.Accepted? ==>
            err == Some(b.stage.err.value + "\n" + ("while patching status" + ": " + write.error)))
  {
    var b := RunBody(h, copy, s);
    var status := Deferred(b.stage.obj, b.stage.err, s.answers).status;
    var all := Extend(b.history, s.foreign);
    PutExactly(all, b.copy.version, Last(all).obj.(status := status), PassEnded(b.stage.how), s.answers.write);
  }

  // ---------------------------------------------------------------- what is stored

  /** One condition set with the generation of the object: what the list shows, and that the other types stay. */
  lemma WithExactly(m: Model, c: Condition, t: string)
    ensures var cs, r := m.status.conditions, m.With([c]);
      && Lookup(r.status.conditions, t) ==
           (if t != c.ctype then Lookup(cs, t)
            else if HasType(cs, t) && Same(Lookup(cs, t), c) then Lookup(cs, t)
            else Condition(t, c.status, c.reason, c.message, m.generation, c.lastTransitionTime))
      && r == m.(status := m.status.(conditions := r.status.conditions))
  {
    var stamped := c.WithObservedGeneration(m.generation);
    MC.OneStamped(m, c);
    if t == c.ctype {
      LookupAfterOne(m.status.conditions, stamped);
    } else {
      OneOther(m.status.conditions, stamped, t);
    }
  }

  /** A status with what the body left: its details, its conditions of other types, and this Ready condition. */
  predicate Leaves(m: Model, r: Model, details: Option<Details>) {
    r.spec == m.spec && r.generation == m.generation && r.status.details == details
  }

  lemma SetReady(m: Model, c: Condition, t: string)
    requires c.ctype == "Ready"
    ensures Shows(m.With([c]).status.conditions, "Ready", c.status, c.reason, c.message)
    ensures t != "Ready" ==> Lookup(m.With([c]).status.conditions, t) == Lookup(m.status.conditions, t)
    ensures Leaves(m, m.With([c]), m.status.details)
  {
    WithExactly(m, c, "Ready");
    WithExactly(m, c, t);
  }

  /** What the body leaves in the object in memory, by its ending. */
  ghost predicate ReadyShows(cs: seq<Condition>, how: Ending, a: Answers) {
    match how
    case StsMissing => Shows(cs, "Ready", False, "Creating", "")
    case StsWaiting => a.sts.StsState? && Shows(cs, "Ready", False, "Unavailable", TrimSuffix(a.sts.message, "...\n"))
    case Announced(model) => Shows(cs, "Ready", False, "Creating", "Pulling " + Quoted(model) + " model")
    case PullIncomplete => Shows(cs, "Ready", False, "Unavailable", RETRY)
    case BecameAvailable => Shows(cs, "Ready", True, "Available", "")
    case Errored => true
  }

  lemma ShowStage(m: Model, a: Answers, t: string)
    requires a.show.Done? || a.show.Failed?
    ensures var stage := AfterShow(m, a); var cs := stage.obj.status.conditions;
      && ReadyShows(cs, stage.how, a)
      && (t != "Ready" ==> Lookup(cs, t) == Lookup(m.status.conditions, t))
      && Leaves(m, stage.obj, if stage.how == BecameAvailable then Some(a.show.value) else m.status.details)
      && (stage.how == BecameAvailable <==> a.show.Done?)
  {
    if a.show.Done? {
      SetReady(m.(status := m.status.(details := Some(a.show.value))), Available(a.readyTime), t);
    } else {
      SetReady(m, Unavailable(a.readyTime), t);
    }
  }

  ghost predicate StageLeaves(m: Model, stage: Stage, a: Answers, t: string)
    requires stage.Ended?
  {
    && ReadyShows(stage.obj.status.conditions, stage.how, a)
    && (t != "Ready" ==> Lookup(stage.obj.status.conditions, t) == Lookup(m.status.conditions, t))
    && Leaves(m, stage.obj,
         if stage.how == BecameAvailable then (if a.show.Done? then Some(a.show.value) else None) else m.status.details)
  }

  lemma BodyLeaves(h: History, copy: Copy, s: Script, t: string)
    ensures var b := RunBody(h, copy, s); StageLeaves(b.copy.obj, b.stage, s.answers, t)
  {
    var m, a := copy.obj, s.answers;
    if !Serving(a) {
      ProbeElse(m, a);
      ElseLeaves(m, a, t);
    } else {
      ProbeServing(m, a);
      if MayPull(m, a) {
        PullLeaves(h, copy, s, t);
      } else if Local(m, a) {
        ShowStage(m, a, t);
      } else {
        SetReady(m, Announcement(m.spec.model, a.readyTime), t);
      }
    }
  }

  lemma ElseLeaves(m: Model, a: Answers, t: string)
    requires !Serving(a) && Probe(m, a).Ended?
    ensures StageLeaves(m, Probe(m, a), a, t)
  {
    if a.resources.Done? { NoFailure(a.resources.value); }
    match a.sts
    case StsNotFound => SetReady(m, Creating(a.readyTime), t);
    case StsGetFailed(_) =>
    case StsViewFailed(_) => SetReady(m, Unavailable(a.readyTime), t);
    case StsState(ready, message) =>
      SetReady(m, Unavailable(a.readyTime).WithMessage(TrimSuffix(message, "...\n")), t);
  }

  lemma PullLeaves(h: History, copy: Copy, s: Script, t: string)
    requires MayPull(copy.obj, s.answers)
    ensures var b := RunBody(h, copy, s); StageLeaves(b.copy.obj, b.stage, s.answers, t)
  {
    PullStage(h, copy, s);
    PullEndsOrFails(s);
    var b, a := RunBody(h, copy, s), s.answers;
    if e :| PullFails(s, e) {
      assert b.stage.obj == b.copy.obj;
    } else {
      var status :| PullEnds(s, status);
      if status == "success" {
        ShowStage(b.copy.obj, a, t);
      } else {
        SetReady(b.copy.obj, Unavailable(a.readyTime).WithMessage(RETRY), t);
      }
    }
  }

  /** The deferred block: generation, image and Synced; Ready only after an error. */
  lemma DeferredLeaves(m: Model, err: Option<string>, a: Answers, t: string)
    ensures var st := Deferred(m, err, a).status;
      && st.observedGeneration == m.generation
      && st.ollamaImage == (if m.spec.ollamaImage != "" then m.spec.ollamaImage else "docker.io/ollama/ollama:0.32.9")
      && st.details == m.status.details
      && (if err.Some? then
            && Shows(st.conditions, "Synced", False, "ReconcileError", err.value)
            && Shows(st.conditions, "Ready", False, "Unavailable", "")
          else
            && Shows(st.conditions, "Synced", True, "ReconcileSuccess", "")
            && Lookup(st.conditions, "Ready") == Lookup(m.status.conditions, "Ready"))
      && (t != "Ready" && t != "Synced" ==> Lookup(st.conditions, t) == Lookup(m.status.conditions, t))
  {
    var m1 := m.Observed();
    assert "Ready" != "Synced";
    match err
    case Some(e) =>
      var c, d := ReconcileError(e, a.syncedTime), Unavailable(a.failedTime);
      var m2 := m1.With([c]);
      WithExactly(m1, c, "Synced");
      WithExactly(m1, c, t);
      WithExactly(m2, d, "Ready");
      WithExactly(m2, d, "Synced");
      WithExactly(m2, d, t);
    case None =>
      var c := ReconcileSuccess(a.syncedTime);
      WithExactly(m1, c, "Synced");
      WithExactly(m1, c, "Ready");
      WithExactly(m1, c, t);
  }

  /** What a status holds after the write of a pass whose object in memory was m at the end of its body. */
  ghost predicate Final(st: ModelStatus, m: Model, stage: Stage, a: Answers, t: string)
    requires stage.Ended?
  {
    && st.observedGeneration == m.generation
    && st.ollamaImage == (if m.spec.ollamaImage != "" then m.spec.ollamaImage else "docker.io/ollama/ollama:0.32.9")
    && st.details ==
         (if stage.how == BecameAvailable then (if a.show.Done? then Some(a.show.value) else None)
          else m.status.details)
    && (if stage.err.Some? then
          && Shows(st.conditions, "Synced", False, "ReconcileError", stage.err.value)
          && Shows(st.conditions, "Ready", False, "Unavailable", "")
        else
          && Shows(st.conditions, "Synced", True, "ReconcileSuccess", "")
          && ReadyShows(st.conditions, stage.how, a))
    && (t != "Ready" && t != "Synced" ==> Lookup(st.conditions, t) == Lookup(m.status.conditions, t))
  }

  /**
   * A write that reaches the server from the latest version stores exactly the status of the ending, and leaves spec
   * and generation of the latest version alone; any other write stores nothing.
   */
  lemma StoredExactly(h: History, copy: Copy, s: Script, t: string)
    ensures var b, after := RunBody(h, copy, s), RunPass(h, copy, s).history;
      var before := Extend(b.history, s.foreign);
      if !s.answers.write.Rejected? && WritesLatest(b, s) then
        var latest := Last(after).obj;
        && Final(latest.status, b.copy.obj, b.stage, s.answers, t)
        && latest.spec == Last(before).obj.spec && latest.generation == Last(before).obj.generation
        && after == before + (if latest != Last(before).obj then [Entry(latest, PassEnded(b.stage.how))] else [])
      else after == before
  {
    var b := RunBody(h, copy, s);
    var status := Deferred(b.stage.obj, b.stage.err, s.answers).status;
    var before := Extend(b.history, s.foreign);
    PutExactly(before, b.copy.version, Last(before).obj.(status := status), PassEnded(b.stage.how), s.answers.write);
    assert before + [] == before;
    BodyLeaves(h, copy, s, t);
    DeferredLeaves(b.stage.obj, b.stage.err, s.answers, t);
    FinalFrom(b.copy.obj, b.stage, s.answers, t);
  }

  lemma FinalFrom(m: Model, stage: Stage, a: Answers, t: string)
    requires stage.Ended? && StageLeaves(m, stage, a, t)
    ensures Final(Deferred(stage.obj, stage.err, a).status, m, stage, a, t)
  {
    DeferredLeaves(stage.obj, stage.err, a, t);
  }

  // ---------------------------------------------------------------- progress patches

  /** The text of a progress report over a percentage. */
  function ReportText(percent: int, digest: string): string {
    "Progress in pulling model layer: " + (Decimal(percent) + ".00") + "%, digest: " + Quoted(digest)
  }

  /** The percentage nearest to what is completed, the even one of two. */
  predicate IsPercent(n: int, completed: int, total: int)
    requires total != 0
  {
    var x := (completed * 100) as real / total as real;
    -0.5 <= x - n as real <= 0.5 && (x - n as real in {-0.5, 0.5} ==> n % 2 == 0)
  }

  /** What a progress patch makes of the stored object. */
  ghost predicate Reported(stored: Model, r: Model, generation: int, e: Progress, t: string)
    requires e.total != 0
  {
    && r.spec == stored.spec && r.generation == stored.generation
    && r.status.observedGeneration == generation
    && r.status.ollamaImage == stored.status.ollamaImage && r.status.details == stored.status.details
    && (exists n :: IsPercent(n, e.completed, e.total) && Lookup(r.status.conditions, "Ready") ==
          Condition("Ready", False, "Creating", ReportText(n, e.digest), generation, e.readyTime))
    && Lookup(r.status.conditions, "Synced") ==
         Condition("Synced", True, "ReconcileSuccess", "", generation, e.syncedTime)
    && (t != "Ready" && t != "Synced" ==> Lookup(r.status.conditions, t) == Lookup(stored.status.conditions, t))
  }

  lemma PatchedReports(stored: Model, generation: int, e: Progress, t: string)
    requires e.total != 0
    ensures Reported(stored, Patched(stored, generation, e), generation, e, t)
  {
    var ready := Creating(e.readyTime).WithObservedGeneration(generation).WithMessage(ProgressMessage(e));
    var synced := ReconcileSuccess(e.syncedTime).WithObservedGeneration(generation);
    var cs := stored.status.conditions;
    assert "Ready" != "Synced";
    P.UpsertLookup(Upsert(cs, ready), synced, "Ready");
    P.UpsertLookup(cs, ready, "Ready");
    P.UpsertLookup(Upsert(cs, ready), synced, "Synced");
    P.UpsertLookup(Upsert(cs, ready), synced, t);
    P.UpsertLookup(cs, ready, t);
    var n := RoundToEven((e.completed * 100) as real / e.total as real);
    TL.RoundToEvenIs((e.completed * 100) as real / e.total as real, n);
    assert IsPercent(n, e.completed, e.total);
    assert ProgressMessage(e) == ReportText(n, e.digest);
  }

  /**
   * One response streamed by ollama: a patch is sent exactly when the total is known and more than five seconds passed
   * since the last one. A patch that reaches the server stores the report over the latest version, whatever version the
   * pass had read; the pass goes on with what the server answered, or stops with its error. Without a patch only a
   * cancelled context stops the pull.
   */
  lemma ResponseExactly(h: History, p: Pulling, e: Progress, t: string)
    ensures var r := OnProgress(h, p, e);
      && r.pulling.status == e.status
      && (if e.total != 0 && e.now - p.since > 5_000_000_000 then
            && r.pulling.since == e.restart
            && (r.err.None? <==> e.reply.Accepted?) && (r.err.Some? ==> r.err.value == e.reply.error)
            && (e.reply.Rejected? ==> r.history == h)
            && (!e.reply.Rejected? ==>
                  var latest := Last(r.history).obj;
                  && Reported(Last(h).obj, latest, p.copy.obj.generation, e, t)
                  && r.history == h + (if latest != Last(h).obj then [Entry(latest, Progressed)] else []))
            && (e.reply.Accepted? ==> r.pulling.copy == Copy(|r.history| - 1, Last(r.history).obj))
            && (!e.reply.Accepted? ==> r.pulling.copy == p.copy)
          else r.history == h && r.err == e.cancelled && r.pulling.copy == p.copy && r.pulling.since == p.since)
  {
    if e.total != 0 { PatchedReports(Last(h).obj, p.copy.obj.generation, e, t); }
    assert h + [] == h;
  }
}
