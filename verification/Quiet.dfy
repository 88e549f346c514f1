/**
 * A status write wakes the controller that made it. A pass that meets the same answers again stores nothing, so this
 * loop ends: the one exception is a pass whose ending is meant to be followed by a different one.
 */
module Quiet {
  import opened Common
  import opened Conditions
  import opened VersionedStore
  import M = ModelPass
  import MC = ModelConvergence
  import P = PromptPass
  import PC = PromptConvergence

  // ---------------------------------------------------------------- Models

  /** The same answers at another time. */
  predicate SameAnswers(a: M.Answers, b: M.Answers) {
    && a.resources == b.resources && a.sts == b.sts && a.list == b.list && a.show == b.show
  }

  /** A status with this pair of conditions, written for the current spec. */
  ghost predicate Written(m: M.Model, ready: Condition, synced: Condition) {
    && m.status.observedGeneration == m.generation
    && m.status.ollamaImage == Or(m.spec.ollamaImage, M.DEFAULT_IMAGE)
    && ready.ctype == TYPE_READY && MC.Holds(m.status.conditions, ready)
    && synced.ctype == TYPE_SYNCED && MC.Holds(m.status.conditions, synced)
  }

  lemma SetAgain(m: M.Model, c: Condition, d: Condition)
    requires MC.Holds(m.status.conditions, c) && Same(c, d)
    ensures m.With([d]) == m
  {
    MC.OneStamped(m, d);
    MC.SetOneHolds(m.status.conditions, d.WithObservedGeneration(m.generation));
  }

  /** Setting a condition establishes it and keeps the one of the other type. */
  lemma SetFirst(m: M.Model, c: Condition, other: Condition)
    requires other.ctype != c.ctype
    ensures MC.Holds(m.With([c]).status.conditions, c)
    ensures MC.Holds(m.status.conditions, other) ==> MC.Holds(m.With([c]).status.conditions, other)
  {
    var stamped := c.WithObservedGeneration(m.generation);
    MC.OneStamped(m, c);
    MC.SetOneHolds(m.status.conditions, stamped);
    if MC.Holds(m.status.conditions, other) { MC.SetOneKeeps(m.status.conditions, stamped, other); }
  }

  lemma SuccessWritten(m: M.Model, c: Condition, a: M.Answers)
    requires c.ctype == TYPE_READY
    ensures var f := M.Deferred(m.With([c]), None, a);
      Written(f, c, ReconcileSuccess(0)) && f.status.details == m.status.details && f.spec == m.spec
  {
    assert TYPE_READY != TYPE_SYNCED;
    var m1 := m.With([c]);
    SetFirst(m, c, ReconcileSuccess(0));
    SetFirst(m1.Observed(), ReconcileSuccess(a.syncedTime), c);
  }

  lemma FailureWritten(m: M.Model, e: string, a: M.Answers)
    ensures var f := M.Deferred(m, Some(e), a);
      Written(f, Unavailable(0), ReconcileError(e, 0)) && f.status.details == m.status.details && f.spec == m.spec
  {
    assert TYPE_READY != TYPE_SYNCED;
    var m1 := m.Observed().With([ReconcileError(e, a.syncedTime)]);
    SetFirst(m.Observed(), ReconcileError(e, a.syncedTime), Unavailable(0));
    SetFirst(m1, Unavailable(a.failedTime), ReconcileError(e, a.syncedTime));
  }

  lemma WrittenAgain(f: M.Model, ready: Condition, e: Option<string>, a: M.Answers)
    requires Written(f, ready, if e.Some? then ReconcileError(e.value, 0) else ReconcileSuccess(0))
    requires e.Some? ==> Same(ready, Unavailable(0))
    ensures M.Deferred(f, e, a) == f
    ensures forall c :: Same(ready, c) ==> f.With([c]) == f
  {
    assert f.Observed() == f;
    if e.Some? {
      SetAgain(f, ReconcileError(e.value, 0), ReconcileError(e.value, a.syncedTime));
      SetAgain(f, ready, Unavailable(a.failedTime));
    } else {
      SetAgain(f, ReconcileSuccess(0), ReconcileSuccess(a.syncedTime));
    }
    forall c | Same(ready, c)
      ensures f.With([c]) == f
    {
      SetAgain(f, ready, c);
    }
  }

  /** The end of the body of a pass that does not pull, and the final object of the pass. */
  function EndOf(m: M.Model, a: M.Answers): (r: M.Stage)
    requires !M.Probe(m, a).MustPull?
    ensures r.Ended?
  {
    M.Closed(M.Probe(m, a), a)
  }

  function Final(m: M.Model, a: M.Answers): M.Model
    requires !M.Probe(m, a).MustPull?
  {
    M.Deferred(EndOf(m, a).obj, EndOf(m, a).err, a)
  }

  lemma FailsAgain(m: M.Model, a: M.Answers, f: M.Model, b: M.Answers)
    requires SameAnswers(a, b) && !M.Probe(m, a).MustPull? && EndOf(m, a).err.Some?
    requires f.spec == m.spec && forall c :: Same(Unavailable(0), c) ==> f.With([c]) == f
    ensures !M.Probe(f, b).MustPull? && EndOf(f, b) == M.Ended(f, EndOf(m, a).err, NoRequeue, EndOf(m, a).how)
  {
    assert Same(Unavailable(0), Unavailable(b.readyTime));
  }

  /** The Ready condition that a pass without an error sets. */
  function ReadyOf(a: M.Answers): Condition {
    match a.sts
    case StsNotFound => Creating(a.readyTime)
    case StsState(ready, message) =>
      if !ready then Unavailable(a.readyTime).WithMessage(TrimSuffix(message, "...\n")) else Available(a.readyTime)
    case _ => Available(a.readyTime)
  }

  function Detailed(m: M.Model, a: M.Answers): M.Model {
    if M.Probe(m, a).MustShow? && a.show.Done? then m.(status := m.status.(details := Some(a.show.value))) else m
  }

  lemma SucceedsAgain(m: M.Model, a: M.Answers, f: M.Model, b: M.Answers)
    requires SameAnswers(a, b) && !M.Probe(m, a).MustPull? && EndOf(m, a).err.None? && !EndOf(m, a).how.Announced?
    requires f.spec == m.spec && f.status.details == Detailed(m, a).status.details
    requires forall c :: Same(ReadyOf(a), c) ==> f.With([c]) == f
    ensures EndOf(m, a).obj == Detailed(m, a).With([ReadyOf(a)])
    ensures !M.Probe(f, b).MustPull? && EndOf(f, b) == M.Ended(f, None, NoRequeue, EndOf(m, a).how)
  {
    assert Same(ReadyOf(a), ReadyOf(b));
    assert f.With([ReadyOf(b)]) == f;
    assert Detailed(f, b) == f;
  }

  /** Once written, the same answers lead to the same ending and leave the object as it is. */
  lemma ModelRepeats(m: M.Model, a: M.Answers, b: M.Answers)
    requires SameAnswers(a, b) && !M.Probe(m, a).MustPull? && !EndOf(m, a).how.Announced?
    ensures var f := Final(m, a); !M.Probe(f, b).MustPull? && EndOf(f, b).how == EndOf(m, a).how && Final(f, b) == f
  {
    var end, f := EndOf(m, a), Final(m, a);
    if end.err.Some? {
      FailureWritten(end.obj, end.err.value, a);
      WrittenAgain(f, Unavailable(0), end.err, b);
      FailsAgain(m, a, f, b);
    } else {
      SuccessEnds(m, a);
      SuccessWritten(Detailed(m, a), ReadyOf(a), a);
      WrittenAgain(f, ReadyOf(a), None, b);
      SucceedsAgain(m, a, f, b);
    }
  }

  lemma SuccessEnds(m: M.Model, a: M.Answers)
    requires !M.Probe(m, a).MustPull? && EndOf(m, a).err.None? && !EndOf(m, a).how.Announced?
    ensures EndOf(m, a).obj == Detailed(m, a).With([ReadyOf(a)])
  {
  }

  /** What such a pass stores. */
  lemma QuietPass(h: M.History, s: M.Script)
    requires !M.Probe(Last(h).obj, s.answers).MustPull? && s.answers.write.Accepted? && s.foreign == []
    ensures var f := Final(Last(h).obj, s.answers); var k := M.RunPass(h, MC.Fresh(h), s).history;
      Last(k).obj == f && (f == Last(h).obj ==> k == h)
  {
    var m := Last(h).obj;
    assert M.RunBody(h, MC.Fresh(h), s) == M.Body(h, MC.Fresh(h), EndOf(m, s.answers));
    assert M.Extend(h, s.foreign) == h;
    EndKeepsSpec(m, s.answers);
    MC.FreshWrite(h, Final(m, s.answers), EndOf(m, s.answers).how);
  }

  lemma EndKeepsSpec(m: M.Model, a: M.Answers)
    requires !M.Probe(m, a).MustPull?
    ensures Final(m, a).spec == m.spec && Final(m, a).generation == m.generation
  {
    ProbeKeepsSpec(m, a);
    var stage := M.Probe(m, a);
    if stage.MustShow? { ShowKeepsSpec(stage.obj, a); }
    DeferredKeepsSpec(EndOf(m, a).obj, EndOf(m, a).err, a);
  }

  lemma ProbeKeepsSpec(m: M.Model, a: M.Answers)
    ensures M.Probe(m, a).obj.spec == m.spec && M.Probe(m, a).obj.generation == m.generation
  {
  }

  lemma ShowKeepsSpec(m: M.Model, a: M.Answers)
    ensures M.AfterShow(m, a).obj.spec == m.spec && M.AfterShow(m, a).obj.generation == m.generation
  {
  }

  lemma DeferredKeepsSpec(m: M.Model, err: Option<string>, a: M.Answers)
    ensures M.Deferred(m, err, a).spec == m.spec && M.Deferred(m, err, a).generation == m.generation
  {
  }

  /**
   * For every stored Model and every pass that neither announces nor pulls: when its write was accepted, any later
   * pass that meets the same answers stores no version.
   */
  lemma ModelPassRepeats(h: M.History, s: M.Script, s': M.Script)
    requires var m := Last(h).obj; !M.Probe(m, s.answers).MustPull? && !EndOf(m, s.answers).how.Announced?
    requires SameAnswers(s.answers, s'.answers)
    requires s.answers.write.Accepted? && s.foreign == [] && s'.answers.write.Accepted? && s'.foreign == []
    ensures var h1 := M.RunPass(h, MC.Fresh(h), s).history; M.RunPass(h1, MC.Fresh(h1), s').history == h1
  {
    QuietPass(h, s);
    ModelRepeats(Last(h).obj, s.answers, s'.answers);
    QuietPass(M.RunPass(h, MC.Fresh(h), s).history, s');
  }

  // ---------------------------------------------------------------- Prompts

  /** The same answers at another time. */
  ghost predicate SamePromptAnswers(a: P.Answers, b: P.Answers) {
    a.options == b.options && a.image == b.image && a.contextError == b.contextError && a.generate == b.generate
  }

  lemma PromptSetAgain(p: P.Prompt, c: Condition, d: Condition)
    requires MC.Holds(p.status.conditions, c) && Same(c, d)
    ensures p.With([d]) == p
  {
    PC.OneStamped(p, d);
    MC.SetOneHolds(p.status.conditions, d.WithObservedGeneration(p.generation));
  }

  lemma PromptSetFirst(p: P.Prompt, c: Condition)
    ensures MC.Holds(p.With([c]).status.conditions, c)
    ensures forall d: Condition :: d.ctype != c.ctype && MC.Holds(p.status.conditions, d) ==>
      MC.Holds(p.With([c]).status.conditions, d)
    ensures forall t: string :: t != c.ctype ==>
      Same(Lookup(p.With([c]).status.conditions, t), Lookup(p.status.conditions, t))
  {
    var stamped := c.WithObservedGeneration(p.generation);
    PC.OneStamped(p, c);
    MC.SetOneHolds(p.status.conditions, stamped);
    forall d: Condition | d.ctype != c.ctype && MC.Holds(p.status.conditions, d)
      ensures MC.Holds(p.With([c]).status.conditions, d)
    {
      MC.SetOneKeeps(p.status.conditions, stamped, d);
    }
    forall t: string | t != c.ctype
      ensures Same(Lookup(p.With([c]).status.conditions, t), Lookup(p.status.conditions, t))
    {
      assert !HasType(Stamp([c], p.generation), t);
      SetThenGet(p.status.conditions, Stamp([c], p.generation), t);
    }
  }

  function PromptFinal(p: P.Prompt, read: P.ModelRead, a: P.Answers): P.Prompt {
    P.Deferred(P.RunBody(p, read, a).obj, P.RunBody(p, read, a).err, a)
  }

  function SyncedOf(err: Option<string>, now: int): Condition {
    if err.Some? then ReconcileError(err.value, now) else ReconcileSuccess(now)
  }

  /** The deferred block keeps the Ready condition and, met again with the same result, changes nothing. */
  lemma DeferredAgain(p: P.Prompt, err: Option<string>, a: P.Answers, b: P.Answers)
    ensures var f := P.Deferred(p, err, a);
      && f.spec == p.spec && f.generation == p.generation && PC.SameAnswer(f, p)
      && Same(f.Ready(), p.Ready())
      && P.Deferred(f, err, b) == f
      && forall c: Condition :: c.ctype == TYPE_READY && MC.Holds(p.status.conditions, c) ==>
        MC.Holds(f.status.conditions, c)
  {
    var head := p.(status := p.status.(observedGeneration := p.generation));
    var synced := SyncedOf(err, a.syncedTime);
    var f := P.Deferred(p, err, a);
    assert TYPE_READY != TYPE_SYNCED;
    PromptSetFirst(head, synced);
    assert f == head.With([synced]);
    PromptSetAgain(f, synced, SyncedOf(err, b.syncedTime));
    assert f.(status := f.status.(observedGeneration := f.generation)) == f;
  }

  /** Asking the model without an answer depends on the spec and the answers alone. */
  lemma AskAgain(p: P.Prompt, f: P.Prompt, model: M.Model, a: P.Answers, b: P.Answers)
    requires SamePromptAnswers(a, b) && f.spec == p.spec && !P.AskModel(p, model, a).how.Answered?
    ensures P.AskModel(f, model, b) == P.AskModel(p, model, a).(obj := f)
    ensures P.AskModel(p, model, a).obj == p
  {
  }

  predicate Parks(read: P.ModelRead) { read.Missing? || (read.Found? && !M.GateOpen(read.model)) }

  function ParkedHow(read: P.ModelRead): P.Ending { if read.Missing? then P.NoModel else P.GateClosed }

  lemma ParkedWhy(p: P.Prompt, read: P.ModelRead, a: P.Answers)
    requires P.RunBody(p, read, a).how in {P.NoModel, P.GateClosed}
    ensures p.status.response == "" && Parks(read) && P.RunBody(p, read, a).how == ParkedHow(read)
  {
  }

  /** What a pass does that parks, for any Prompt without a response. */
  lemma ParkedBody(p: P.Prompt, read: P.ModelRead, a: P.Answers)
    requires Parks(read) && p.status.response == ""
    ensures P.RunBody(p, read, a)
         == P.Body(p.With([ParkedCondition(ParkedHow(read), a.readyTime)]), None, NoRequeue, ParkedHow(read), None)
  {
  }

  lemma ParkedWritten(p: P.Prompt, c: Condition, d: Condition, a: P.Answers, b: P.Answers)
    requires c.ctype == TYPE_READY && Same(c, d)
    ensures var f := P.Deferred(p.With([c]), None, a);
      f.With([d]) == f && P.Deferred(f, None, b) == f && f.status.response == p.status.response
  {
    var parked := p.With([c]);
    DeferredAgain(parked, None, a, b);
    PromptSetFirst(p, c);
    PromptSetAgain(P.Deferred(parked, None, a), c, d);
  }

  lemma ParkedRepeats(p: P.Prompt, read: P.ModelRead, a: P.Answers, b: P.Answers)
    requires P.RunBody(p, read, a).how in {P.NoModel, P.GateClosed}
    ensures var f := PromptFinal(p, read, a);
      PromptFinal(f, read, b) == f && P.RunBody(f, read, b).how == P.RunBody(p, read, a).how
  {
    var how := ParkedHow(read);
    ParkedWhy(p, read, a);
    ParkedBody(p, read, a);
    ParkedWritten(p, ParkedCondition(how, a.readyTime), ParkedCondition(how, b.readyTime), a, b);
    ParkedBody(PromptFinal(p, read, a), read, b);
  }

  lemma UnchangedRepeats(p: P.Prompt, read: P.ModelRead, a: P.Answers, b: P.Answers)
    requires SamePromptAnswers(a, b) && P.RunBody(p, read, a).how in {P.Kept, P.Errored, P.Panicked}
    ensures var f := PromptFinal(p, read, a);
      PromptFinal(f, read, b) == f && P.RunBody(f, read, b).how == P.RunBody(p, read, a).how
  {
    var body := P.RunBody(p, read, a);
    if p.status.response == "" && read.Found? { AskAgain(p, p, read.model, a, b); }
    assert body.obj == p;
    DeferredAgain(p, body.err, a, b);
    var f := PromptFinal(p, read, a);
    if p.status.response == "" && read.Found? { AskAgain(p, f, read.model, a, b); }
    assert P.RunBody(f, read, b) == body.(obj := f);
  }

  /**
   * Whatever ends a pass other than an announcement or an answer: the same answers leave the Prompt as it was written.
   */
  lemma PromptRepeats(p: P.Prompt, read: P.ModelRead, a: P.Answers, b: P.Answers)
    requires SamePromptAnswers(a, b) && !P.RunBody(p, read, a).how.Waiting? && !P.RunBody(p, read, a).how.Answered?
    ensures var f := PromptFinal(p, read, a);
      PromptFinal(f, read, b) == f && P.RunBody(f, read, b).how == P.RunBody(p, read, a).how
  {
    if P.RunBody(p, read, a).how in {P.Kept, P.Errored, P.Panicked} {
      UnchangedRepeats(p, read, a, b);
    } else {
      ParkedRepeats(p, read, a, b);
    }
  }

  function ParkedCondition(how: P.Ending, now: int): Condition {
    Unavailable(now).WithMessage(
      if how.NoModel? then "Referenced model does not exist" else "Model is not ready and synced")
  }

  /**
   * For every stored Prompt: when a pass that neither announced nor answered wrote its status, any later pass that
   * reads the same Model and meets the same answers stores no version.
   */
  lemma PromptPassRepeats(h: P.History, read: P.ModelRead, a: P.Answers, b: P.Answers)
    requires var how := P.RunBody(Last(h).obj, read, a).how; !how.Waiting? && !how.Answered?
    requires SamePromptAnswers(a, b)
    ensures var h1 := PC.Pass(h, read, a).history; PC.Pass(h1, read, b).history == h1
  {
    PromptRepeats(Last(h).obj, read, a, b);
    PromptPass(h, read, a);
    PromptPass(PC.Pass(h, read, a).history, read, b);
  }

  /** What a pass stores. */
  lemma PromptPass(h: P.History, read: P.ModelRead, a: P.Answers)
    ensures var f := PromptFinal(Last(h).obj, read, a); var k := PC.Pass(h, read, a).history;
      Last(k).obj == f && (f == Last(h).obj ==> k == h)
  {
    BodyKeepsSpec(Last(h).obj, read, a);
    PC.FreshWrite(h, PromptFinal(Last(h).obj, read, a), P.RunBody(Last(h).obj, read, a).how);
  }

  lemma BodyKeepsSpec(p: P.Prompt, read: P.ModelRead, a: P.Answers)
    ensures PromptFinal(p, read, a).spec == p.spec && PromptFinal(p, read, a).generation == p.generation
  {
    var body := P.RunBody(p, read, a);
    assert body.obj.spec == p.spec && body.obj.generation == p.generation;
    DeferredAgain(body.obj, body.err, a, a);
  }
}
