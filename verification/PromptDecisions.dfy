/**
 * What a pass of the Prompt controller decides, from the Model it read and the answers it meets: how it ends, its
 * error, its requeue, the request it sends, and what its write leaves in the status.
 */
module PromptDecisions {
  import opened Common
  import opened Conditions
  import opened ContextCodec
  import opened PromptPass
  import opened VersionedStore
  import L = ContextList
  import M = ModelPass
  import MC = ModelConvergence
  import MD = ModelDecisions
  import MP = ModelProtocol
  import PP = PromptProtocol

  // ---------------------------------------------------------------- the gate

  /** Exactly these two conditions, in either order. */
  predicate Open(cs: seq<Condition>) {
    && |cs| == 2 && cs[0].ctype != cs[1].ctype
    && forall i :: 0 <= i < 2 ==>
         || (cs[i].ctype == "Ready" && cs[i].status == True && cs[i].reason == "Available" && cs[i].message == "")
         || (cs[i].ctype == "Synced" && cs[i].status == True && cs[i].reason == "ReconcileSuccess"
             && cs[i].message == "")
  }

  lemma PairMap(a: Condition, b: Condition)
    ensures AsMap([a, b]) == map[b.ctype := b.Content()][a.ctype := a.Content()]
  {
    assert [a, b][1..] == [b] && [b][1..] == [];
    assert AsMap([b]) == map[b.ctype := b.Content()];
  }

  lemma {:induction false} MapSize(cs: seq<Condition>)
    requires DistinctTypes(cs)
    ensures |AsMap(cs)| == |cs|
  {
    if cs != [] {
      assert forall i :: 0 < i < |cs| ==> cs[i] == cs[1..][i - 1];
      MapSize(cs[1..]);
      AsMapDomain(cs[1..], cs[0].ctype);
      assert AsMap(cs).Keys == AsMap(cs[1..]).Keys + {cs[0].ctype};
    }
  }

  /** The gate of the source is this: order, generations and times of the pair do not matter, anything else does. */
  lemma GateIsPair(m: M.Model)
    ensures M.GateOpen(m) <==> Open(m.status.conditions)
  {
    var cs := m.status.conditions;
    MP.GateIsOpen(m, 0, 0);
    assert "Ready" != "Synced";
    if DistinctTypes(cs) {
      MapSize(cs);
      assert |MP.OPEN| == 2 by { assert MP.OPEN.Keys == {"Ready", "Synced"}; }
      if |cs| == 2 {
        assert cs == [cs[0], cs[1]];
        PairMap(cs[0], cs[1]);
        PairIsOpen(cs[0], cs[1]);
      }
    }
  }

  lemma PairIsOpen(a: Condition, b: Condition)
    requires a.ctype != b.ctype
    ensures map[b.ctype := b.Content()][a.ctype := a.Content()] == MP.OPEN <==> Open([a, b])
  {
    var m := map[b.ctype := b.Content()][a.ctype := a.Content()];
    assert m.Keys == {a.ctype, b.ctype} && MP.OPEN.Keys == {"Ready", "Synced"};
    if m == MP.OPEN {
      assert a.ctype in MP.OPEN && b.ctype in MP.OPEN;
      assert MP.OPEN[a.ctype] == a.Content() && MP.OPEN[b.ctype] == b.Content();
    }
    if Open([a, b]) {
      assert forall i :: 0 <= i < 2 ==> [a, b][i] in {a, b};
      assert ([a, b])[0] == a && ([a, b])[1] == b;
    }
  }

  // ---------------------------------------------------------------- how a pass ends

  /** The status says that the Prompt waits for an answer. */
  predicate Waits(p: Prompt) {
    MD.Shows(p.status.conditions, "Ready", False, "Creating", "Waiting for model response")
  }

  /** The pass comes to the point where it prepares a request. */
  predicate Prepares(p: Prompt, read: ModelRead) {
    p.status.response == "" && read.Found? && Open(read.model.status.conditions) && Waits(p)
  }

  predicate OptionsRead(p: Prompt, a: Answers) { p.spec.options == "" || a.options.Done? }

  /** The k-th image is the first that is not loaded. */
  predicate FirstBad(a: Answers, k: nat) { !a.image(k).Image? && forall i: nat :: i < k ==> a.image(i).Image? }

  predicate ImagesRead(p: Prompt, a: Answers) { forall i: nat :: i < |p.spec.images| ==> a.image(i).Image? }

  /** The request can be made. */
  predicate Sends(p: Prompt, read: ModelRead, a: Answers) {
    Prepares(p, read) && OptionsRead(p, a) && ImagesRead(p, a) && DecodeContext(p.spec.context).Context?
  }

  /** The ending that the Model read and the answers demand. */
  ghost predicate EndsAs(p: Prompt, read: ModelRead, a: Answers, how: Ending) {
    match how
    case Kept => p.status.response != ""
    case NoModel => p.status.response == "" && read.Missing?
    case GateClosed => p.status.response == "" && read.Found? && !Open(read.model.status.conditions)
    case Waiting => p.status.response == "" && read.Found? && Open(read.model.status.conditions) && !Waits(p)
    case Panicked =>
      && Prepares(p, read) && OptionsRead(p, a)
      && exists k: nat :: k < |p.spec.images| && FirstBad(a, k) && a.image(k).Panics?
    case Answered => Sends(p, read, a) && a.generate.Done?
    case Errored =>
      || (p.status.response == "" && read.Unreadable?)
      || (Prepares(p, read) && !OptionsRead(p, a))
      || (Prepares(p, read) && OptionsRead(p, a)
          && exists k: nat :: k < |p.spec.images| && FirstBad(a, k) && !a.image(k).Panics?)
      || (Prepares(p, read) && OptionsRead(p, a) && ImagesRead(p, a) && !DecodeContext(p.spec.context).Context?)
      || (Sends(p, read, a) && a.generate.Failed?)
  }

  /** How the loop over the images ends, from its first bad image. */
  lemma {:induction false} ImagesEnd(n: nat, count: nat, a: Answers)
    requires n <= count && forall i: nat :: i < n ==> a.image(i).Image?
    ensures var r := LoadImages(n, count, a.image);
      && (r.Loaded? <==> forall i: nat :: i < count ==> a.image(i).Image?)
      && (forall k: nat :: k < count && FirstBad(a, k) ==>
            r == match a.image(k)
                 case NotExtracted(e) => LoadFailed("failed to extract image" + ": " + e)
                 case NotDecoded(e) => LoadFailed("failed to decode images" + ": " + e)
                 case _ => LoadPanicked)
      && (!r.Loaded? ==> exists k: nat :: k < count && FirstBad(a, k))
    decreases count - n
  {
    if n < count {
      if a.image(n).Image? {
        ImagesEnd(n + 1, count, a);
      } else {
        assert FirstBad(a, n);
        assert forall k: nat :: FirstBad(a, k) ==> k == n;
      }
    }
  }

  lemma WaitsIsSame(p: Prompt, now: int)
    ensures Same(Lookup(p.status.conditions, TYPE_READY), WaitingCondition(now)) <==> Waits(p)
  {
  }

  /** A body that ends as the answers demand. */
  ghost predicate Fits(p: Prompt, read: ModelRead, a: Answers, b: Body, how: Ending) {
    && (b.how == how <==> EndsAs(p, read, a, how))
    && b.requeue == (if b.how == Waiting then Immediately else NoRequeue)
    && (b.err.Some? <==> b.how == Errored)
    && (b.request.Some? <==> Sends(p, read, a))
  }

  lemma BadImageEnds(p: Prompt, read: ModelRead, a: Answers, how: Ending, k: nat)
    requires Prepares(p, read) && OptionsRead(p, a) && k < |p.spec.images| && FirstBad(a, k)
    ensures Fits(p, read, a, AskModel(p, read.model, a), how)
  {
    ImagesEnd(0, |p.spec.images|, a);
    assert !ImagesRead(p, a);
    assert forall j: nat :: FirstBad(a, j) ==> j == k;
    var b := AskModel(p, read.model, a);
    assert b.how == if a.image(k).Panics? then Panicked else Errored;
    assert EndsAs(p, read, a, how) <==> how == b.how;
  }

  lemma GoodImagesEnd(p: Prompt, read: ModelRead, a: Answers, how: Ending)
    requires Prepares(p, read) && OptionsRead(p, a) && ImagesRead(p, a)
    ensures Fits(p, read, a, AskModel(p, read.model, a), how)
  {
    ImagesEnd(0, |p.spec.images|, a);
    var b := AskModel(p, read.model, a);
    assert b.how == if Sends(p, read, a) && a.generate.Done? then Answered else Errored;
    assert EndsAs(p, read, a, how) <==> how == b.how;
  }

  lemma AskEndings(p: Prompt, read: ModelRead, a: Answers, how: Ending)
    requires Prepares(p, read)
    ensures Fits(p, read, a, AskModel(p, read.model, a), how)
  {
    ImagesEnd(0, |p.spec.images|, a);
    if OptionsRead(p, a) {
      if ImagesRead(p, a) {
        GoodImagesEnd(p, read, a, how);
      } else {
        var k: nat :| k < |p.spec.images| && FirstBad(a, k);
        BadImageEnds(p, read, a, how, k);
      }
    }
  }

  /**
   * Every pass ends in exactly the way that the Model it read and the answers demand. It asks to be run again at once
   * exactly when it announced that it waits, and sends a request exactly when one can be made, with what the spec says.
   */
  lemma EndingsExactly(p: Prompt, read: ModelRead, a: Answers, how: Ending)
    ensures var b := RunBody(p, read, a);
      && (b.how == how <==> EndsAs(p, read, a, how))
      && b.requeue == (if b.how == Waiting then Immediately else NoRequeue)
      && (b.err.Some? <==> b.how == Errored)
      && (b.request.Some? <==> Sends(p, read, a))
      && (b.request.Some? ==> Asks(p, read.model, a, b.request.value))
  {
    if p.status.response == "" && read.Found? {
      GateIsPair(read.model);
      WaitsIsSame(p, 0);
      if Prepares(p, read) {
        AskEndings(p, read, a, how);
        AskModelAsks(p, read.model, a);
        assert RunBody(p, read, a) == AskModel(p, read.model, a);
      } else {
        ParkedEnds(p, read, a, how);
      }
    }
  }

  lemma ParkedEnds(p: Prompt, read: ModelRead, a: Answers, how: Ending)
    requires p.status.response == "" && read.Found? && !Prepares(p, read)
    requires M.GateOpen(read.model) <==> Open(read.model.status.conditions)
    requires IsWaiting(p) <==> Waits(p)
    ensures Fits(p, read, a, RunBody(p, read, a), how)
  {
  }

  // ---------------------------------------------------------------- errors

  /** The texts of the errors, from where the first failure is. */
  lemma ErrorTexts(p: Prompt, read: ModelRead, a: Answers)
    ensures var err := RunBody(p, read, a).err;
      && (p.status.response == "" && read.Unreadable? ==> err == Some("failed to fetch model" + ": " + read.error))
      && (Prepares(p, read) && !OptionsRead(p, a) ==>
            err == Some("failed to unmarshal options into json struct" + ": " + a.options.error))
      && (Prepares(p, read) && OptionsRead(p, a) && ImagesRead(p, a) && DecodeContext(p.spec.context) == BadBase64 ==>
            err == Some("failed to decode context" + ": " + a.contextError))
      && (Prepares(p, read) && OptionsRead(p, a) && ImagesRead(p, a) && DecodeContext(p.spec.context) == BadJson ==>
            err == Some("failed to unmarshal context into []int" + ": " + a.contextError))
      && (Sends(p, read, a) && a.generate.Failed? ==>
            err == Some("failed to generate prompt" + ": " + a.generate.error))
  {
    if Prepares(p, read) {
      GateIsPair(read.model);
      WaitsIsSame(p, 0);
      ImagesEnd(0, |p.spec.images|, a);
    }
  }

  lemma ImageErrorTexts(p: Prompt, read: ModelRead, a: Answers, k: nat)
    requires Prepares(p, read) && OptionsRead(p, a) && k < |p.spec.images| && FirstBad(a, k)
    ensures var err := RunBody(p, read, a).err;
      && (a.image(k).NotExtracted? ==> err == Some("failed to extract image" + ": " + a.image(k).error))
      && (a.image(k).NotDecoded? ==> err == Some("failed to decode images" + ": " + a.image(k).error))
      && (a.image(k).Panics? ==> err == None)
  {
    GateIsPair(read.model);
    WaitsIsSame(p, 0);
    ImagesEnd(0, |p.spec.images|, a);
  }

  /**
   * A pass returns no error exactly when its body ended in none, the reply to its write arrives and is no refusal, and
   * its copy is of the latest version; otherwise it returns the error of the body, that of the write, or both on two
   * lines.
   */
  lemma ErrorsExactly(h: History, copy: Copy, read: ModelRead, a: Answers, foreign: seq<Version>, reply: Reply)
    ensures var out, b := RunPass(h, copy, read, a, foreign, reply), RunBody(copy.obj, read, a);
      var latest := copy.version == |h| + |foreign| - 1;
      && (out.err.None? <==> b.err.None? && reply.Accepted? && latest)
      && (reply.Accepted? && latest ==> out.err == b.err)
      && (b.err.None? && reply.Accepted? && !latest ==> out.err == Some(CONFLICT))
      && (b.err.None? && !reply.Accepted? ==> out.err == Some(reply.error))
      && (b.err.Some? && reply.Accepted? && !latest ==> out.err == Some(b.err.value + "\n" + CONFLICT))
      && (b.err.Some? && !reply.Accepted? ==> out.err == Some(b.err.value + "\n" + reply.error))
      && out.requeue == b.requeue && out.request == b.request && (out.panicked <==> b.how == Panicked)
  {
    var b := RunBody(copy.obj, read, a);
    var all: History := h + foreign;
    var status := Deferred(b.obj, b.err, a).status;
    PutExactly(all, copy.version, Last(all).obj.(status := status), PassEnded(b.how), reply);
  }

  // ---------------------------------------------------------------- what is stored

  lemma WithExactly(p: Prompt, c: Condition, t: string)
    ensures var cs, r := p.status.conditions, p.With([c]);
      && Lookup(r.status.conditions, t) ==
           (if t != c.ctype then Lookup(cs, t)
            else if HasType(cs, t) && Same(Lookup(cs, t), c) then Lookup(cs, t)
            else Condition(t, c.status, c.reason, c.message, p.generation, c.lastTransitionTime))
      && r == p.(status := p.status.(conditions := r.status.conditions))
  {
    var stamped := c.WithObservedGeneration(p.generation);
    MP.OneMap(p.status.conditions, c, p.generation);
    if t == c.ctype {
      LookupAfterOne(p.status.conditions, stamped);
    } else {
      OneOther(p.status.conditions, stamped, t);
    }
  }

  /** The Ready condition, by the ending; the other endings leave the one that was there. */
  ghost predicate ReadyShows(cs: seq<Condition>, before: seq<Condition>, how: Ending) {
    match how
    case NoModel => MD.Shows(cs, "Ready", False, "Unavailable", "Referenced model does not exist")
    case GateClosed => MD.Shows(cs, "Ready", False, "Unavailable", "Model is not ready and synced")
    case Waiting => MD.Shows(cs, "Ready", False, "Creating", "Waiting for model response")
    case Answered => MD.Shows(cs, "Ready", True, "Available", "")
    case _ => Lookup(cs, "Ready") == Lookup(before, "Ready")
  }

  /** The part that an answer fills: from the answer if there was one, else what was there. */
  ghost predicate AnswerShows(st: PromptStatus, before: PromptStatus, how: Ending, a: Answers) {
    if how == Answered then
      a.generate.Done? && PP.Holds(st, a.generate.value)
    else
      && st.response == before.response && st.context == before.context
      && st.meta == before.meta && st.metrics == before.metrics
  }

  ghost predicate BodyShows(p: Prompt, b: Body, a: Answers, t: string) {
    && b.obj.spec == p.spec && b.obj.generation == p.generation
    && ReadyShows(b.obj.status.conditions, p.status.conditions, b.how)
    && AnswerShows(b.obj.status, p.status, b.how, a)
    && (t != "Ready" ==> Lookup(b.obj.status.conditions, t) == Lookup(p.status.conditions, t))
  }

  lemma ParkedShows(p: Prompt, c: Condition, how: Ending, r: Requeue, a: Answers, t: string)
    requires c.ctype == "Ready" && how != Answered
    requires forall cs, before :: MD.Shows(cs, "Ready", c.status, c.reason, c.message) ==> ReadyShows(cs, before, how)
    ensures BodyShows(p, Body(p.With([c]), None, r, how, None), a, t)
  {
    WithExactly(p, c, "Ready");
    WithExactly(p, c, t);
  }

  lemma AskShows(p: Prompt, model: M.Model, a: Answers, t: string)
    ensures BodyShows(p, AskModel(p, model, a), a, t)
  {
    var b := AskModel(p, model, a);
    PP.AskModelAsked(p, model, a);
    if b.how == Answered {
      var r := a.generate.value;
      var q := Answer(p, r);
      WithExactly(q, Available(a.readyTime), "Ready");
      WithExactly(q, Available(a.readyTime), t);
      TrimmedIs(r.text);
      L.EncodeContextIs(r.context);
    }
  }

  lemma BodyLeaves(p: Prompt, read: ModelRead, a: Answers, t: string)
    ensures BodyShows(p, RunBody(p, read, a), a, t)
  {
    if p.status.response == "" {
      match read
      case Missing =>
        ParkedShows(p, Unavailable(a.readyTime).WithMessage("Referenced model does not exist"), NoModel, NoRequeue, a,
          t);
      case Unreadable(_) =>
      case Found(model) =>
        if !M.GateOpen(model) {
          ParkedShows(p, Unavailable(a.readyTime).WithMessage("Model is not ready and synced"), GateClosed, NoRequeue,
            a, t);
        } else if !IsWaiting(p) {
          ParkedShows(p, WaitingCondition(a.readyTime), Waiting, Immediately, a, t);
        } else {
          AskShows(p, model, a, t);
        }
    }
  }

  lemma DeferredLeaves(p: Prompt, err: Option<string>, a: Answers, t: string)
    ensures var st := Deferred(p, err, a).status;
      && st.observedGeneration == p.generation
      && (if err.Some? then MD.Shows(st.conditions, "Synced", False, "ReconcileError", err.value)
          else MD.Shows(st.conditions, "Synced", True, "ReconcileSuccess", ""))
      && (t != "Synced" ==> Lookup(st.conditions, t) == Lookup(p.status.conditions, t))
      && st.response == p.status.response && st.context == p.status.context
      && st.meta == p.status.meta && st.metrics == p.status.metrics
  {
    var p1 := p.(status := p.status.(observedGeneration := p.generation));
    var c := if err.Some? then ReconcileError(err.value, a.syncedTime) else ReconcileSuccess(a.syncedTime);
    WithExactly(p1, c, "Synced");
    WithExactly(p1, c, t);
  }

  /** What a status holds after the write of a pass. */
  ghost predicate Final(st: PromptStatus, p: Prompt, b: Body, a: Answers, t: string) {
    && st.observedGeneration == p.generation
    && (if b.err.Some? then MD.Shows(st.conditions, "Synced", False, "ReconcileError", b.err.value)
        else MD.Shows(st.conditions, "Synced", True, "ReconcileSuccess", ""))
    && ReadyShows(st.conditions, p.status.conditions, b.how)
    && AnswerShows(st, p.status, b.how, a)
    && (t != "Ready" && t != "Synced" ==> Lookup(st.conditions, t) == Lookup(p.status.conditions, t))
  }

  lemma FinalFrom(p: Prompt, b: Body, a: Answers, t: string)
    requires BodyShows(p, b, a, t)
    ensures Final(Deferred(b.obj, b.err, a).status, p, b, a, t)
  {
    DeferredLeaves(b.obj, b.err, a, t);
    assert "Ready" != "Synced";
    DeferredLeaves(b.obj, b.err, a, "Ready");
  }

  /**
   * A write that reaches the server from the latest version stores exactly the status of the ending, and leaves spec
   * and generation of the latest version alone; any other write stores nothing.
   */
  lemma StoredExactly(h: History, copy: Copy, read: ModelRead, a: Answers, foreign: seq<Version>, reply: Reply,
    t: string)
    ensures var after, b := RunPass(h, copy, read, a, foreign, reply).history, RunBody(copy.obj, read, a);
      var before: History := h + foreign;
      if !reply.Rejected? && copy.version == |h| + |foreign| - 1 then
        var latest := Last(after).obj;
        && Final(latest.status, copy.obj, b, a, t)
        && latest.spec == Last(before).obj.spec && latest.generation == Last(before).obj.generation
        && after == before + (if latest != Last(before).obj then [Entry(latest, PassEnded(b.how))] else [])
      else after == before
  {
    var b := RunBody(copy.obj, read, a);
    var before: History := h + foreign;
    var status := Deferred(b.obj, b.err, a).status;
    PutExactly(before, copy.version, Last(before).obj.(status := status), PassEnded(b.how), reply);
    assert before + [] == before;
    BodyLeaves(copy.obj, read, a, t);
    FinalFrom(copy.obj, b, a, t);
  }
}
