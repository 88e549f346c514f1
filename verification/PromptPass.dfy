/** One pass of the Prompt controller as a function of the Prompt and the Model it read and the world's answers. */
module PromptPass {
  import opened Common
  import opened Conditions
  import opened ContextCodec
  import opened VersionedStore
  import M = ModelPass

  datatype ModelRef = ModelRef(name: string, namespace: string)

  datatype ImageSource =
    | Inline(format: string, data: string)
    | ConfigMapKey(ref: string)
    | SecretKey(ref: string)
    | NoSource

  datatype PromptSpec = PromptSpec(
    modelRef: ModelRef, prompt: string, context: string, suffix: string, system: string, template: string,
    options: string, images: seq<ImageSource>)

  datatype Metrics = Metrics(
    totalDuration: int, loadDuration: int, promptEvalCount: int, promptEvalDuration: int, promptEvalRate: string,
    evalCount: int, evalDuration: int, evalRate: string)

  datatype PromptStatus = PromptStatus(
    conditions: seq<Condition>, observedGeneration: int,
    response: string, context: string, meta: Option<int>, metrics: Option<Metrics>)

  datatype Prompt = Prompt(generation: int, spec: PromptSpec, status: PromptStatus)
  {
    function Ready(): Condition { Lookup(status.conditions, TYPE_READY) }

    function With(news: seq<Condition>): Prompt {
      this.(status := status.(conditions := SetAll(status.conditions, Stamp(news, generation))))
    }
  }

  datatype Copy = Copy(version: nat, obj: Prompt)

  datatype Ending = Kept | NoModel | GateClosed | Waiting | Answered | Errored | Panicked

  datatype Origin = Created | SpecEdited | Touched | PassEnded(how: Ending)

  type Version = Entry<Prompt, Origin>

  type History = h: seq<Version> | h != []
    witness [Entry(Prompt(1, PromptSpec(ModelRef("", ""), "", "", "", "", "", "", []),
      PromptStatus([], 0, "", "", None, None)), Created)]

  // ---------------------------------------------------------------- answers

  datatype ModelRead = Found(model: M.Model) | Missing | Unreadable(error: string)

  /** Loading and decoding one image; an unknown format or a source without any reference makes the code panic. */
  datatype ImageAnswer = NotExtracted(error: string) | NotDecoded(error: string) | Panics | Image(data: seq<Byte>)

  datatype Response = Response(text: string, context: Option<seq<int>>, createdAt: int, metrics: Metrics)

  datatype Answers = Answers(
    options: Call<string>,
    image: nat -> ImageAnswer,
    contextError: string,
    generate: Call<Response>,
    readyTime: int, syncedTime: int)

  /** The call of Generate. */
  datatype Request = Request(
    model: string, prompt: string, suffix: string, system: string, template: string,
    context: Option<seq<int>>, images: seq<seq<Byte>>, options: Option<string>)

  // ---------------------------------------------------------------- the pass

  const WAITING_MESSAGE: string := "Waiting for model response"

  function WaitingCondition(now: int): Condition { Creating(now).WithMessage(WAITING_MESSAGE) }

  predicate WaitingIn(cs: seq<Condition>) { Same(Lookup(cs, TYPE_READY), WaitingCondition(0)) }

  predicate IsWaiting(p: Prompt) { WaitingIn(p.status.conditions) }

  /** unicode.IsSpace. */
  predicate IsUnicodeSpace(c: char) {
    '\t' <= c <= '\r' || c == ' ' || c as int in {0x85, 0xA0, 0x1680, 0x2028, 0x2029, 0x202F, 0x205F, 0x3000}
    || 0x2000 <= c as int <= 0x200A
  }

  function TrimRightBlanks(s: string): string {
    if s != "" && (s[|s| - 1] == ' ' || s[|s| - 1] == '\n') then TrimRightBlanks(s[..|s| - 1]) else s
  }

  function TrimRightSpace(s: string): string {
    if s != "" && IsUnicodeSpace(s[|s| - 1]) then TrimRightSpace(s[..|s| - 1]) else s
  }

  function TrimLeftSpace(s: string): string {
    if s != "" && IsUnicodeSpace(s[0]) then TrimLeftSpace(s[1..]) else s
  }

  function Trimmed(s: string): string { TrimRightSpace(TrimLeftSpace(TrimRightBlanks(s))) }

  datatype Images = Loaded(data: seq<seq<Byte>>) | LoadFailed(error: string) | LoadPanicked

  /** The loop over the images from the n-th on. */
  function LoadImages(n: nat, count: nat, image: nat -> ImageAnswer): Images
    requires n <= count
    decreases count - n
  {
    if n == count then Loaded([])
    else
      match image(n)
      case NotExtracted(e) => LoadFailed(Wrap(e, "failed to extract image"))
      case NotDecoded(e) => LoadFailed(Wrap(e, "failed to decode images"))
      case Panics => LoadPanicked
      case Image(d) =>
        match LoadImages(n + 1, count, image)
        case Loaded(rest) => Loaded([d] + rest)
        case other => other
  }

  /** What the body of a pass leaves: the Prompt, the result, and the request sent to ollama if there was one. */
  datatype Body = Body(obj: Prompt, err: Option<string>, requeue: Requeue, how: Ending, request: Option<Request>)

  function Fail(p: Prompt, e: string, request: Option<Request>): Body { Body(p, Some(e), NoRequeue, Errored, request) }

  function Options(raw: string, a: Answers): Call<Option<string>> {
    if raw == "" then Done(None)
    else
      match a.options
      case Done(o) => Done(Some(o))
      case Failed(e) => Failed(Wrap(e, "failed to unmarshal options into json struct"))
  }

  function ContextError(d: Decoded, a: Answers): string
    requires !d.Context?
  {
    Wrap(a.contextError, if d.BadBase64? then "failed to decode context" else "failed to unmarshal context into []int")
  }

  function Answer(p: Prompt, r: Response): Prompt {
    p.(status := p.status.(
      context := EncodeContext(r.context),
      response := Trimmed(r.text),
      meta := Some(r.createdAt),
      metrics := Some(r.metrics)))
  }

  /** Lines 141-223: the gate is open and the Prompt was waiting. */
  function AskModel(p: Prompt, model: M.Model, a: Answers): Body {
    match Options(p.spec.options, a)
    case Failed(e) => Fail(p, e, None)
    case Done(options) =>
      match LoadImages(0, |p.spec.images|, a.image)
      case LoadFailed(e) => Fail(p, e, None)
      case LoadPanicked => Body(p, None, NoRequeue, Panicked, None)
      case Loaded(images) =>
        var d := DecodeContext(p.spec.context);
        if !d.Context? then Fail(p, ContextError(d, a), None)
        else
          var request := Request(model.spec.model, p.spec.prompt, p.spec.suffix, p.spec.system, p.spec.template,
                                 d.value, images, options);
          match a.generate
          case Failed(e) => Fail(p, Wrap(e, "failed to generate prompt"), Some(request))
          case Done(r) => Body(Answer(p, r).With([Available(a.readyTime)]), None, NoRequeue, Answered, Some(request))
  }

  function RunBody(p: Prompt, read: ModelRead, a: Answers): Body {
    if p.status.response != "" then Body(p, None, NoRequeue, Kept, None)
    else
      match read
      case Missing =>
        Body(p.With([Unavailable(a.readyTime).WithMessage("Referenced model does not exist")]), None, NoRequeue,
          NoModel, None)
      case Unreadable(e) => Fail(p, Wrap(e, "failed to fetch model"), None)
      case Found(model) =>
        if !M.GateOpen(model) then
          Body(p.With([Unavailable(a.readyTime).WithMessage("Model is not ready and synced")]), None, NoRequeue,
            GateClosed, None)
        else if !IsWaiting(p) then
          Body(p.With([WaitingCondition(a.readyTime)]), None, Immediately, Waiting, None)
        else AskModel(p, model, a)
  }

  /** The deferred block up to its write; a panic runs it too, with no error recorded. */
  function Deferred(p: Prompt, err: Option<string>, a: Answers): Prompt {
    var p1 := p.(status := p.status.(observedGeneration := p.generation));
    match err
    case Some(e) => p1.With([ReconcileError(e, a.syncedTime)])
    case None => p1.With([ReconcileSuccess(a.syncedTime)])
  }

  function Update(h: History, version: nat, status: PromptStatus, how: Ending, reply: Reply): Written<Prompt, Origin> {
    Put(h, version, Last(h).obj.(status := status), PassEnded(how), reply)
  }

  datatype Outcome = Outcome(
    history: History, requeue: Requeue, err: Option<string>, request: Option<Request>, panicked: bool)

  /** A whole pass; other writers may store versions before its write. */
  function RunPass(h: History, copy: Copy, read: ModelRead, a: Answers, foreign: seq<Version>, reply: Reply): Outcome {
    var b := RunBody(copy.obj, read, a);
    var w := Update(h + foreign, copy.version, Deferred(b.obj, b.err, a).status, b.how, reply);
    Outcome(w.history, b.requeue, Join(b.err, w.err), b.request, b.how.Panicked?)
  }

  // ---------------------------------------------------------------- trimming

  /** White_Space in the Unicode Character Database, by code point. */
  predicate White(c: char) {
    var u := c as int;
    || 0x0009 <= u <= 0x000D || u == 0x0020 || u == 0x0085 || u == 0x00A0 || u == 0x1680 || 0x2000 <= u <= 0x200A
    || u == 0x2028 || u == 0x2029 || u == 0x202F || u == 0x205F || u == 0x3000
  }

  lemma SpaceIsWhite(c: char)
    ensures IsUnicodeSpace(c) <==> White(c)
  {
    assert 0x0009 <= c as int <= 0x000D <==> '\t' <= c <= '\r';
    assert c as int == 0x0020 <==> c == ' ';
  }

  predicate Blank(s: string) { forall i :: 0 <= i < |s| ==> White(s[i]) }

  /** The answer without the white space around it: a part of the text between white space, not white at either end. */
  ghost predicate IsTrim(text: string, t: string) {
    && (exists i, j :: 0 <= i <= j <= |text| && t == text[i..j] && Blank(text[..i]) && Blank(text[j..]))
    && (t != "" ==> !White(t[0]) && !White(t[|t| - 1]))
  }

  lemma {:induction false} RightBlanksTrimmed(s: string) returns (j: nat)
    ensures j <= |s| && TrimRightBlanks(s) == s[..j] && Blank(s[j..])
  {
    j := |s|;
    if s != "" && (s[|s| - 1] == ' ' || s[|s| - 1] == '\n') {
      var front := s[..|s| - 1];
      SpaceIsWhite(s[|s| - 1]);
      j := RightBlanksTrimmed(front);
      assert front[..j] == s[..j] && s[j..] == front[j..] + [s[|s| - 1]];
    } else {
      assert s[..j] == s;
    }
  }

  lemma {:induction false} RightTrimmed(s: string) returns (j: nat)
    ensures j <= |s| && TrimRightSpace(s) == s[..j] && Blank(s[j..]) && (j > 0 ==> !White(s[j - 1]))
  {
    j := |s|;
    if s != "" { SpaceIsWhite(s[|s| - 1]); }
    if s != "" && IsUnicodeSpace(s[|s| - 1]) {
      var front := s[..|s| - 1];
      j := RightTrimmed(front);
      assert front[..j] == s[..j] && s[j..] == front[j..] + [s[|s| - 1]];
    } else {
      assert s[..j] == s;
    }
  }

  lemma {:induction false} LeftTrimmed(s: string) returns (i: nat)
    ensures i <= |s| && TrimLeftSpace(s) == s[i..] && Blank(s[..i]) && (i < |s| ==> !White(s[i]))
  {
    i := 0;
    if s != "" { SpaceIsWhite(s[0]); }
    if s != "" && IsUnicodeSpace(s[0]) {
      var rest := s[1..];
      var k := LeftTrimmed(rest);
      i := k + 1;
      assert rest[k..] == s[i..] && s[..i] == [s[0]] + rest[..k];
    } else {
      assert s[0..] == s;
    }
  }

  /** The trimmed answer is what its name says. */
  lemma TrimmedIs(s: string)
    ensures IsTrim(s, Trimmed(s))
  {
    var n := RightBlanksTrimmed(s);
    var s1 := s[..n];
    var i := LeftTrimmed(s1);
    var s2 := s1[i..];
    var k := RightTrimmed(s2);
    var j := i + k;
    assert s2[..k] == s[i..j] && s1[..i] == s[..i];
    assert s[j..] == s2[k..] + s[n..];
    assert Trimmed(s) == s[i..j];
  }

  lemma BlankParts(s: string, i: nat)
    requires i <= |s|
    ensures Blank(s[..i]) <==> forall k :: 0 <= k < i ==> White(s[k])
    ensures Blank(s[i..]) <==> forall k :: i <= k < |s| ==> White(s[k])
  {
    assert forall k :: 0 <= k < i ==> s[..i][k] == s[k];
    assert forall k :: i <= k < |s| ==> s[i..][k - i] == s[k];
  }

  /** There is no other text of which that holds. */
  lemma TrimIsUnique(s: string, t: string, u: string)
    requires IsTrim(s, t) && IsTrim(s, u)
    ensures t == u
  {
    BlankTrim(s, t);
    BlankTrim(s, u);
    if t != "" {
      var i, j := TrimPlace(s, t);
      var k, l := TrimPlace(s, u);
      BlankParts(s, i);
      BlankParts(s, j);
      BlankParts(s, k);
      BlankParts(s, l);
    }
  }

  lemma TrimPlace(s: string, t: string) returns (i: nat, j: nat)
    requires IsTrim(s, t) && t != ""
    ensures i < j <= |s| && t == s[i..j] && Blank(s[..i]) && Blank(s[j..]) && !White(s[i]) && !White(s[j - 1])
  {
    i, j :| 0 <= i <= j <= |s| && t == s[i..j] && Blank(s[..i]) && Blank(s[j..]);
    assert t[0] == s[i] && t[|t| - 1] == s[j - 1];
  }

  lemma BlankTrim(s: string, t: string)
    requires IsTrim(s, t)
    ensures t == "" <==> Blank(s)
  {
    var i, j :| 0 <= i <= j <= |s| && t == s[i..j] && Blank(s[..i]) && Blank(s[j..]);
    if t == "" {
      assert s == s[..i] + s[j..];
    } else {
      assert t[0] == s[i];
    }
  }

  /** The trimmed answer is empty exactly when the answer was blank. */
  lemma TrimmedEmpty(s: string)
    ensures Trimmed(s) == "" <==> Blank(s)
  {
    TrimmedIs(s);
    BlankTrim(s, Trimmed(s));
  }

  // ---------------------------------------------------------------- the request

  /**
   * The request carries the name of the Model's model and what the spec says; the images are the ones loaded, in
   * order.
   */
  ghost predicate Asks(p: Prompt, model: M.Model, a: Answers, r: Request) {
    && r.model == model.spec.model && r.prompt == p.spec.prompt && r.suffix == p.spec.suffix
    && r.system == p.spec.system && r.template == p.spec.template
    && DecodeContext(p.spec.context) == Context(r.context)
    && (if p.spec.options == "" then r.options == None
        else a.options.Done? && r.options == Some(a.options.value))
    && |r.images| == |p.spec.images| && forall i :: 0 <= i < |r.images| ==> a.image(i) == Image(r.images[i])
  }

  lemma {:induction false} ImagesLoaded(n: nat, count: nat, image: nat -> ImageAnswer)
    requires n <= count
    ensures match LoadImages(n, count, image)
      case Loaded(data) => |data| == count - n && forall i :: n <= i < count ==> image(i) == Image(data[i - n])
      case _ => exists i :: n <= i < count && !image(i).Image?
    decreases count - n
  {
    if n < count {
      ImagesLoaded(n + 1, count, image);
    }
  }

  lemma AskModelAsks(p: Prompt, model: M.Model, a: Answers)
    ensures AskModel(p, model, a).request.Some? ==> Asks(p, model, a, AskModel(p, model, a).request.value)
  {
    ImagesLoaded(0, |p.spec.images|, a.image);
  }
}
