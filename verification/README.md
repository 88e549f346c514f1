# The ollama operator, modelled in Dafny

The operator runs two controllers. The Model controller brings up an ollama server for a `Model` resource, pulls the
model and reports conditions. The Prompt controller waits until a `Model` is ready, sends a `Prompt` to ollama once and
stores the answer. Beside them stand a conditions list that is used as a map, patches that users may apply to the
objects the operator writes, and a guard script that checks the Renovate configuration.

This project models those parts and proves what they are for:

* **Conditions.** `ConditionedStatus` in its own form (a list updated in place, an equality over sorted copies) refines
  a map from condition type to content.
* **Controllers.** Each `Reconcile` is a method over objects whose fields it rewrites and a server that keeps every
  version. Its contract is one function, `RunPass`. That function is proved to be a run of a state machine in which
  passes interleave, read stale versions, lose replies, conflict, crash and meet edits of the spec. The theorems are
  about every run of the machine: when a Model's gate is open, what each pull and each generation was preceded by, that
  an answer is final, how generations are ordered. Two further groups say that undisturbed passes settle within two
  passes and that a pass which meets the same answers again writes nothing.
* **Both controllers together.** Prompt passes read the stored versions of Models. Every generation went through a
  Model version that a pass of the Model controller had declared available, and from every reachable state two
  undisturbed passes of each controller lead to an answer. With caches, watch events and a work queue added, it is known
  exactly when a Prompt sleeps behind an open gate.
* **One pass.** For each controller it is said exactly when a pass ends in which way, which error it returns, what it asks
  of the queue and what its write stores, on the answers alone and with every text written out.
* **Context, patches, scanners, verdict.** The context codec round-trips and reads and writes what RFC 4648 and RFC 8259
  say, JSON Patch obeys RFC 6902 and RFC 6901 operation by operation, the two scanners take comments and trailing commas
  out of a text without changing a token, and the guard's verdict is an if-and-only-if.

`dafny verify dfyconfig.toml` checks everything.

| file | content |
|---|---|
| `Common`, `VersionedStore` | small shared types; a store of versions with conditional updates |
| `Conditions` | the conditions list as a map, and the class `ConditionedStatus` |
| `ModelPass`, `ModelReconciler` | a pass of the Model controller: the function, and the methods proved against it |
| `ModelProtocol`, `ModelRefinement`, `ModelConvergence` | all runs; a pass is a run; passes settle, and progress patches are rare |
| `ContextCodec`, `ContextFormat`, `ContextList` | base64 and JSON lists of integers; that they are those of the RFCs |
| `ModelDecisions`, `TextLaws` | what a pass decides and stores, spelled out on its answers; texts and rounding |
| `PromptPass`, `PromptReconciler`, `PromptProtocol`, `PromptConvergence`, `PromptDecisions` | the same for the Prompt controller, and its watch on Models |
| `Quiet` | a pass that meets the same answers again stores nothing |
| `World`, `EndToEnd` | both controllers; from any state to an answer |
| `WakeUp`, `QueueToEnd`, `LostWakeUp` | caches and work queue; from any of their states to an answer; a run that loses a wake-up |
| `Scanners`, `JsonText`, `Verdict` | the guard script |
| `JsonPointer`, `JsonPatch`, `PatchOperations`, `Patches` | patches; each operation of a patch by what is read before and after |

## How the source is read

* The condition library's `Equal` compares type, status, reason and message. The source depends on this: a stored
  condition with a generation is compared with a fresh one without.
* `copied_condition_crossplane.go` says that the observed generation rises when a repeated condition carries a higher
  one. Line 69 assigns to the loop's copy, so it does not. The code is modelled; `Conditions.GenerationRises` says
  exactly when the promise holds and `Conditions.GenerationStays` shows a case where it does not.
* `Status().Update` succeeds only on the latest version, and storing what is stored already makes no new version. A
  reply may be lost after the server processed the request.
* The progress patch of a pull is a forced server-side apply. It replaces the Ready and Synced conditions, checks no
  version, and its answer is decoded into the Model object in memory. Both the source's branches and the theorems allow
  for that object to change its spec in the middle of a pass.
* Everything that ollama, the API server, the clock and the StatefulSet viewer say is an argument. So are texts that
  libraries format (rates, durations). The percentage of a pull is computed over `real`, and `%q` is modelled for
  printable text.
* An image with an unknown format, or a source with no reference, panics in the source. The deferred block still runs,
  finds no error and stores Synced with success. The model does the same.
* JavaScript strings are sequences of UTF-16 units and Dafny strings of characters; the scanners only look at ASCII
  characters, which are the same in both.

## Promises that hold under a condition, and the condition

* A Prompt is answered after two undisturbed passes if and only if the answer is not blank, because a blank answer is
  trimmed to the empty string that stands for "no response yet". With blank answers the controller asks again on every
  second pass, without end (`PromptConvergence.TwoPassesAnswer`, `PromptConvergence.BlankNeverSettles`, and a line end
  as the answer in `PromptConvergence.NewlineNeverSettles`).
* With everything but the pull well, a Model that ollama lacks becomes Ready after two passes if and only if the pull
  succeeds in the pass that pulls: no callback and no call fails, and the last status is "success"
  (`ModelConvergence.TwoPassesReady`). Otherwise the controller announces and pulls in turn, without end
  (`ModelConvergence.FruitlessNeverSettles`, and a failing pull in `ModelConvergence.UnknownModelStaysDown`).
* An answered generation is announced anew before the next one; a failed one is repeated on the same announcement
  (`PromptProtocol.AnnouncedBetweenAnswers`, `PromptConvergence.FailedGenerateRepeats`).
* One run of `stripTrailingCommas` leaves no trailing comma if and only if no comma is followed, past whitespace, by a
  trailing comma (`Scanners.UncommaIdempotent`, `Scanners.TwoCommasNeedTwoRuns`).
* A Prompt behind an open gate sleeps if and only if the list of Prompts failed while an event of its Model was mapped
  and nothing woke the Prompt since (`WakeUp.WakeUpLostExactly`). What can wake it is a new version of the Prompt
  itself, a listed event, or a restart, and nothing else in the model (`WakeUp.IdleStep`).
  `LostWakeUp.WakeUpCanBeLost` is a run that ends this way.
* Removing what was just added restores the document if and only if the parent existed and nothing was overwritten
  (`JsonPatch.RemoveUndoesAdd`, `JsonPatch.RemoveDoesNotRestore`).
* Moving back undoes a move if and only if it overwrote nothing and did not land above its source
  (`JsonPatch.MoveBack`, `JsonPatch.MoveAboveItself`).
* A move is a remove and then an add only where the add would not create a parent and the target is not below the
  source (`JsonPatch.MoveIsRemoveThenAdd`, `JsonPatch.MoveCreatesNoParent`); a replace is one only below the root
  (`JsonPatch.ReplaceIsRemoveThenAdd`).
* The guard's key is one string. It tells file and dependency apart if and only if no file name, with the separator
  behind it, begins another one with the separator behind it (`Verdict.KeyTellsFileAndName`, `Verdict.GuardIsExact`,
  `Verdict.KeysCollide`).

## Model

| member | source | states |
|---|---|---|
| Conditions.SetAllRefinesMap | apis/ollama/v1alpha1/copied_condition_crossplane.go:54-81 | for any list and any arguments, the map the list stands for after SetConditions is the old map with the arguments assigned left to right |
| Conditions.SetAllKeepsPositions | apis/ollama/v1alpha1/copied_condition_crossplane.go:58-81 | existing entries keep their positions and types; distinct types stay distinct for any argument list, repeats included |
| Conditions.SetThenGet | apis/ollama/v1alpha1/copied_condition_crossplane.go:42-81 | after SetConditions, GetCondition answers a condition Equal to the last supplied one of the type, or to the old answer |
| Conditions.SetAllTwice | apis/ollama/v1alpha1/copied_condition_crossplane.go:54-81 | setting the same arguments twice equals setting them once, generations and transition times included |
| Conditions.GenerationRises | apis/ollama/v1alpha1/copied_condition_crossplane.go:57-72 | for any argument list and the last supplied condition of any type, the promised rise of the observed generation happens exactly when, at its turn, the type is new, the contents differ, or the stored generation is as high already; with no earlier argument of the type that is a question about the original list |
| Conditions.GenerationStays | apis/ollama/v1alpha1/copied_condition_crossplane.go:66-72 | a repeated condition of a later generation leaves the earlier generation stored |
| Conditions.SortedCopiesDecide | apis/ollama/v1alpha1/copied_condition_crossplane.go:94-110 | whatever permutations the two sorts choose, comparing the sorted copies position by position decides equality of the two maps |
| Conditions.SortByType | apis/ollama/v1alpha1/copied_condition_crossplane.go:101-102 | sorts an array in place by type: ordered, and a permutation of what was there |
| Conditions.ConditionedStatus.constructor | apis/ollama/v1alpha1/copied_condition_crossplane.go:35-40 | a new status is the empty one with the supplied conditions set |
| Conditions.ConditionedStatus.GetCondition | apis/ollama/v1alpha1/copied_condition_crossplane.go:42-52 | the first condition of the type, or an Unknown one |
| Conditions.ConditionedStatus.SetConditions | apis/ollama/v1alpha1/copied_condition_crossplane.go:54-81 | the in-place loops leave exactly the list that the lemmas above are about |
| Conditions.ConditionedStatus.Equal | apis/ollama/v1alpha1/copied_condition_crossplane.go:83-111 | nil equals only nil; if one side has distinct types, Equal holds exactly when both have and their maps are equal, in any order; neither receiver changes |
| VersionedStore.ApiServer.Update | internal/controllers/model/model_controller.go:96-99 | an update stores only on the latest version, conflicts otherwise, and a lost reply is an error although it may have stored |
| VersionedStore.PutExactly | internal/controllers/model/model_controller.go:96-99 | a write stores exactly when it is not refused and is made from the latest version, one version or none when the object is stored already; its writer hears of no error exactly when the reply is not lost either |
| ModelReconciler.ModelObject.SetConditionsWithObservedGeneration | apis/ollama/v1alpha1/model_types.go:76-82 | stamps every argument with the object's generation and sets the conditions; the rest of the object is unchanged |
| ModelReconciler.ModelObject.GetCondition | apis/ollama/v1alpha1/model_types.go:84-86 | looks the type up in the object's status |
| ModelReconciler.Reconciler.ApplyResources | internal/controllers/model/model_controller.go:113-118 | the loop stops at the first resource whose apply fails and reports that one |
| ModelReconciler.Reconciler.PatchProgress | internal/controllers/model/model_controller.go:207-221 | an accepted patch stores the patched latest version and refreshes the object in memory; a rejected one changes neither; a lost one stores but does not refresh |
| ModelReconciler.Reconciler.OnResponse | internal/controllers/model/model_controller.go:166-178 | the callback patches only when the total is not zero and more than five seconds passed since the last patch |
| ModelReconciler.Reconciler.PullModel | internal/controllers/model/model_controller.go:160-181 | the pull feeds responses to the callback until one call fails, keeping the last status and the clock |
| ModelReconciler.Reconciler.ReconcileBody | internal/controllers/model/model_controller.go:102-204 | every branch of the body, over objects in place: resulting object, result, error and history |
| ModelReconciler.Reconciler.Reconcile | internal/controllers/model/model_controller.go:85-204 | body, deferred block, status write and joined errors, in place: the outcome is that of RunPass, about which the ModelDecisions rows speak |
| ModelRefinement.PullRefines | internal/controllers/model/model_controller.go:162-187 | a pull with any interleaving of other writers between its callbacks is a run of protocol steps |
| ModelRefinement.PassIsRun | internal/controllers/model/model_controller.go:85-204 | what Reconcile guarantees is the outcome of a run of the protocol, for every state, version read and interleaving: the history, the requeue and the error of the pass and of its write, and the recorded pull |
| ModelDecisions.EndingsExactly | internal/controllers/model/model_controller.go:102-204 | every pass ends in one of six ways exactly when its answers demand it, each demand spelled out on the answers; it asks to be run again at once after an announcement, in five seconds after an incomplete pull, and else not |
| ModelDecisions.ErrorTexts | internal/controllers/model/model_controller.go:108-145 | the error of a body that does not reach the pull, with its text: resources, the first one that is not applied, the StatefulSet, its readiness, the list |
| ModelDecisions.PullErrorTexts | internal/controllers/model/model_controller.go:160-193 | the error of a failing pull names the model of the copy that the pull left, and that of a failing look-up of the details |
| ModelDecisions.NoErrorExactly | internal/controllers/model/model_controller.go:96-99 | for all histories, copies and scripts, a pass returns no error exactly when its body ended in none, the write is accepted, and the copy at the write is of the latest version |
| ModelDecisions.ErrorsJoined | internal/controllers/model/model_controller.go:96-99 | otherwise it returns the error of the body, "while patching status: " and that of the write, or both on two lines |
| ModelDecisions.StoredExactly | internal/controllers/model/model_controller.go:86-99 | what the write stores by the ending: generation, image, details, the contents of Ready and Synced, and every other condition untouched; exactly when the write reaches the server from the latest version |
| ModelDecisions.WithExactly | apis/ollama/v1alpha1/model_types.go:76-82 | setting one condition stores it with the object's generation and its own transition time, or keeps the stored one when type, status, reason and message are the same |
| ModelDecisions.ResponseExactly | internal/controllers/model/model_controller.go:166-221 | one streamed response: patched exactly when the total is known and more than five seconds passed; what the patch stores, the text with the nearest percentage included, whatever version the pass had read; and what the pass goes on with |
| TextLaws.RoundToEvenIs | internal/controllers/model/model_controller.go:173 | the percentage is the nearest integer, and the even one of two |
| TextLaws.EscapedConcat | internal/controllers/model/model_controller.go:149 | quoting works character by character |
| TextLaws.QuotedChar | internal/controllers/model/model_controller.go:149 | a quote and a backslash get a backslash, any other character stays |
| TextLaws.TrimSuffixIs | internal/controllers/model/model_controller.go:247 | a suffix is cut off once, and a text without it stays |
| ModelProtocol.RunInv | internal/controllers/model/model_controller.go:85-204 | every step of every run keeps the invariant on stored versions, passes in flight and pulls, and no stored version is ever lost |
| ModelProtocol.GateIsOpen | internal/controllers/prompt/prompt_controller.go:130-133 | the gate compares with exactly Ready=Available and Synced=ReconcileSuccess, at whatever times the pair was made |
| ModelProtocol.GateTheorem | internal/controllers/model/model_controller.go:86-100 | in every run, a stored version has an open gate exactly when the last status stored up to it is the final write of a pass that ended in Available; progress patches and all other endings close it |
| ModelProtocol.StoreInvariant | internal/controllers/model/model_controller.go:86-99 | in every stored version: Ready=True implies Synced=True; condition generations, status generation and object generation are ordered; only Ready and Synced occur, once each |
| ModelProtocol.PullingMessageInjective | internal/controllers/model/model_controller.go:149 | the announcement names one model: quoting is injective |
| ModelProtocol.AnnounceBeforePull | internal/controllers/model/model_controller.go:147-187 | every Pull for a model in every run was decided on a version whose Ready announces that model, stored by a pass that ended announcing it |
| ModelProtocol.AnnouncedBetweenPulls | internal/controllers/model/model_controller.go:149-187 | two pulls that both stored their final status, the second having read the first's version or a later one, have an announcing pass between them |
| ModelConvergence.PassConverges | internal/controllers/model/model_controller.go:85-204 | an undisturbed pass over any stored status lowers the measure, asks to be requeued exactly while the measure is not zero, and at zero stores no version |
| ModelConvergence.TwoPassesSuffice | internal/controllers/model/model_controller.go:85-204 | two undisturbed passes store Ready=True and Synced=True, and a third stores nothing |
| ModelConvergence.PassOutcome | internal/controllers/model/model_controller.go:85-204 | one pass in which everything but the pull is well stores Ready and Synced exactly when ollama has the model, or the stored status announces the pull and the pull succeeds; it leaves an announcement exactly when neither was there before |
| ModelConvergence.TwoPassesReady | internal/controllers/model/model_controller.go:85-204 | with everything but the pull well, two passes over any stored status make the Model Ready and Synced if and only if ollama has the model or the pull succeeds in the pass that pulls; patches may be rejected or lost, and the context cancelled |
| ModelConvergence.FruitlessNeverSettles | internal/controllers/model/model_controller.go:147-187 | with pulls that do not succeed, for whatever reason, announcing and pulling alternate without end and no pass leaves the Model Ready |
| ModelConvergence.UnknownModelStaysDown | internal/controllers/model/model_controller.go:178-181 | a Model that ollama does not know, so that every pull fails at once, is not Ready after any number of passes |
| ModelConvergence.PatchRate | internal/controllers/model/model_controller.go:162-177 | a pull that sent n > 0 progress patches ran for more than 5n seconds, for any responses on one clock that does not go back |
| ContextCodec.Base64RoundTrip | internal/controllers/prompt/prompt_controller.go:166-205 | standard base64 (section 4 of RFC 4648) decodes what it encoded, for all bytes |
| ContextFormat.SymbolIsEntry | internal/controllers/prompt/prompt_controller.go:205 | each symbol is the entry of the alphabet of Table 1 of RFC 4648, written out, at the sextet |
| ContextFormat.EncodeIsStandard | internal/controllers/prompt/prompt_controller.go:205 | each group of four symbols, as a base-64 number over that alphabet, is the big-endian number of its three bytes, padded groups included (section 4 of RFC 4648) |
| ContextFormat.DecodeIsStandard | internal/controllers/prompt/prompt_controller.go:166 | any text, whoever wrote it, decodes to exactly the bytes it stands for over that alphabet once its line ends are dropped |
| ContextFormat.DropConcat | internal/controllers/prompt/prompt_controller.go:166 | dropping line ends works piece by piece |
| ContextFormat.DropOne | internal/controllers/prompt/prompt_controller.go:166 | a carriage return and a line feed go, any other character stays |
| ContextFormat.Vectors | internal/controllers/prompt/prompt_controller.go:205 | the test vectors of section 10 of RFC 4648 |
| ContextCodec.ParsePrinted | internal/controllers/prompt/prompt_controller.go:170-203 | printed lists of 64-bit integers, nil as null, parse back to the same list |
| ContextList.ParseIsGrammar | internal/controllers/prompt/prompt_controller.go:171-174 | for every text, reading gives exactly the list that the grammar of RFC 8259 gives its tokens, white space anywhere between them: integers that fit 64 bits, null for zero, or null alone; it fails where the grammar does |
| ContextList.DecimalIs | internal/controllers/prompt/prompt_controller.go:200 | numbers are written as an optional minus and digits without a leading zero that add up to them |
| ContextList.PrintIsList | internal/controllers/prompt/prompt_controller.go:200 | a context is written as the tokens of its list without white space, nil as null |
| ContextList.DecodeContextIsStandard | internal/controllers/prompt/prompt_controller.go:165-176 | a .spec.context that stands for bytes is the list of their JSON tokens or an error; the empty string is no context |
| ContextList.BadBase64IsStandard | internal/controllers/prompt/prompt_controller.go:166-169 | it is refused as base64 exactly when it stands for no bytes |
| ContextList.EncodeContextIsStandard | internal/controllers/prompt/prompt_controller.go:200-205 | a stored context is the exact base64 of the tokens of the list without white space |
| ContextList.ContextVector | internal/controllers/prompt/prompt_controller.go:200-205 | the context [1] is stored as WzFd |
| ContextCodec.ContextRoundTrip | internal/controllers/prompt/prompt_controller.go:164-205 | the stored context is never the empty string and decodes to the context that was generated, empty and nil included |
| PromptPass.TrimmedEmpty | internal/controllers/prompt/prompt_controller.go:206 | the trimmed response is empty exactly when the response is all white space |
| PromptPass.TrimmedIs | internal/controllers/prompt/prompt_controller.go:206 | the stored text is a part of the answer with only Unicode white space before and behind it, and not white at either end, for every answer |
| PromptPass.TrimIsUnique | internal/controllers/prompt/prompt_controller.go:206 | no other text is |
| PromptPass.SpaceIsWhite | internal/controllers/prompt/prompt_controller.go:206 | the white space is that of the Unicode property, by code point |
| PromptPass.ImagesLoaded | internal/controllers/prompt/prompt_controller.go:148-162 | the images of a request are those loaded, in order |
| PromptReconciler.PromptObject.SetConditionsWithObservedGeneration | apis/ollama/v1alpha1/prompt_types.go:127-133 | stamps every argument with the object's generation and sets the conditions; the rest of the object is unchanged |
| PromptReconciler.IsReadyAndSynced | internal/controllers/prompt/prompt_controller.go:130 | the comparison of Model status with a fresh pair decides the gate, for any list of conditions |
| PromptReconciler.Reconciler.CollectImages | internal/controllers/prompt/prompt_controller.go:148-162 | the loop collects all images in order, or stops at the first that fails or panics |
| PromptReconciler.Reconciler.Ask | internal/controllers/prompt/prompt_controller.go:141-223 | options, images and context are checked in this order, the request carries the Prompt's fields, and the answer fills the status |
| PromptReconciler.Reconciler.ReconcileBody | internal/controllers/prompt/prompt_controller.go:108-223 | every branch of the body, over the object in place: resulting object, result, error and request |
| PromptReconciler.Reconciler.Reconcile | internal/controllers/prompt/prompt_controller.go:93-224 | body, deferred block (a panic included), status write and joined errors: the outcome is that of RunPass |
| PromptReconciler.MapModel | internal/controllers/prompt/prompt_controller.go:68-89 | the watch maps a Model to each Prompt of its namespace that names it, exactly once; a failed list maps it to nobody |
| PromptDecisions.EndingsExactly | internal/controllers/prompt/prompt_controller.go:111-223 | every pass ends in one of seven ways exactly when the Model read and the answers demand it; a request is sent exactly when one can be made, with prompt, suffix, system, template, context, options and images of the spec, images in order |
| PromptDecisions.GateIsPair | internal/controllers/prompt/prompt_controller.go:130 | the gate is open exactly for two conditions, Ready True Available and Synced True ReconcileSuccess without messages, in either order |
| PromptDecisions.ErrorTexts | internal/controllers/prompt/prompt_controller.go:117-196 | the texts of the errors of the body, from where the first failure is |
| PromptDecisions.ImageErrorTexts | internal/controllers/prompt/prompt_controller.go:148-162 | the first image that is not loaded decides the error, or the panic |
| PromptDecisions.ErrorsExactly | internal/controllers/prompt/prompt_controller.go:93-106 | no error exactly when the body ended in none, the write is accepted and the copy is of the latest version; otherwise the error of the body, that of the write, or both on two lines |
| PromptDecisions.StoredExactly | internal/controllers/prompt/prompt_controller.go:94-103 | what the write stores by the ending: generation, Ready and Synced, the answer or what was there, every other condition untouched; exactly when the write reaches the server from the latest version |
| PromptProtocol.PassIsRun | internal/controllers/prompt/prompt_controller.go:93-224 | what Reconcile guarantees is the outcome of a run of the protocol, whatever others store before its write: the history, the requeue, error and panic of the pass and of its write, and the request, which is the recorded call of Generate |
| PromptProtocol.RunInv | internal/controllers/prompt/prompt_controller.go:93-224 | every step of every run keeps the invariant on stored versions, passes in flight and calls of Generate |
| PromptProtocol.AnswerIsFinal | internal/controllers/prompt/prompt_controller.go:93-115 | once a stored version has a response, every later version has the same response, context, meta and metrics, with Ready=Available and Synced=success |
| PromptProtocol.AnnounceBeforeGenerate | internal/controllers/prompt/prompt_controller.go:130-190 | every Generate was called for a version without a response that announced waiting, through an open gate, with a request that carries the Model's name and what the spec says, after a pass had stored the announcement |
| PromptProtocol.AnnouncedBetweenAnswers | internal/controllers/prompt/prompt_controller.go:135-190 | between the stored status of a pass that was answered and any Generate that read that version or a later one, a pass stored the announcement anew |
| PromptProtocol.ResponsesAreGenerated | internal/controllers/prompt/prompt_controller.go:190-219 | every stored response is the text that some call of Generate answered without the white space around it; the context, time and metrics stored with it are those of that answer |
| PromptConvergence.PassConverges | internal/controllers/prompt/prompt_controller.go:93-224 | an undisturbed pass with an answer that is not blank lowers the measure, asks to be requeued exactly while it is not zero, and at zero neither stores nor generates |
| PromptConvergence.TwoPassesAnswer | internal/controllers/prompt/prompt_controller.go:111-224 | from any unanswered status two undisturbed passes store a response if and only if the text answered to the pass that asks is not blank: the first pass if the Prompt waits already, the second otherwise |
| PromptConvergence.BlankNeverSettles | internal/controllers/prompt/prompt_controller.go:113-206 | with blank answers there is no response after any number of passes, and every second pass generates again |
| PromptConvergence.NewlineNeverSettles | internal/controllers/prompt/prompt_controller.go:206 | a Prompt whose every answer is a line end has no response after any number of passes |
| PromptConvergence.FailedGenerateRepeats | internal/controllers/prompt/prompt_controller.go:135-196 | a Generate that fails keeps the announcement, so the next pass generates again without a new one: the statement above needs its answer |
| Quiet.ModelPassRepeats | internal/controllers/model/model_controller.go:85-204 | after a pass that neither announces nor pulls, any pass that meets the same answers stores no version, failures included |
| Quiet.PromptPassRepeats | internal/controllers/prompt/prompt_controller.go:93-224 | after a pass that neither announces nor answers, any pass that meets the same answers stores no version, failures and panics included |
| World.GenerateNeedsReadyModel | internal/controllers/prompt/prompt_controller.go:117-190 | in every run of both controllers, every Generate was for a stored version of the Model of the referenced name, in the namespace of the reference or else of the Prompt, whose status a pass that ended in Available had stored |
| World.ResponsesComeFromReadyModels | internal/controllers/prompt/prompt_controller.go:117-223 | every stored response was generated by such a call, and the status holds what it answered |
| EndToEnd.AnsweredInTheEnd | internal/controllers/prompt/prompt_controller.go:93-224 | from every state that any run of both controllers reaches, whatever passes are under way, two undisturbed passes over the Model and then two over the Prompt store a response |
| QueueToEnd.QueuedIsAnswered | internal/controllers/prompt/prompt_controller.go:66-224 | from every reachable state of caches, events and queue in which the Prompt is queued or about to be, some schedule of bounded length, without a restart, ends with a stored response |
| QueueToEnd.RestartedIsAnswered | internal/controllers/prompt/prompt_controller.go:66-224 | from every reachable state, a sleeping Prompt included, a restart and then such a schedule do |
| WakeUp.MappedIsMatching | internal/controllers/prompt/prompt_controller.go:71-88 | the requests of the queue model are those the map function answers for a listing of the cache |
| WakeUp.RunInv | internal/controllers/prompt/prompt_controller.go:66-133 | every step of caches, events, queue and passes keeps: a Prompt that is not queued was seen in its cached version, and a parked one saw a closed gate and still has an event to come, or was passed over, if the cache moved on |
| WakeUp.NoLostWakeUp | internal/controllers/prompt/prompt_controller.go:68-133 | in a run in which every list succeeds, once the caches caught up and the events are handled, a Prompt behind an open gate of its namespace is queued, in a pass, or finished |
| WakeUp.WakeUpLostExactly | internal/controllers/prompt/prompt_controller.go:68-133 | in every run, at the same point, such a Prompt is asleep if and only if a failed list passed over it and no later step woke it (and no pass that read the closed gate is still under way) |
| WakeUp.MissedIsHistory | internal/controllers/prompt/prompt_controller.go:71-88 | the passed-over Prompts that a state carries are those of the history of the run: a list failed for the Model of a parked Prompt that was not queued, and nothing woke it since |
| WakeUp.EventWakesIffListed | internal/controllers/prompt/prompt_controller.go:71-88 | in every run, handling an event of its Model queues an idle Prompt if and only if the list succeeds |
| WakeUp.IdleStep | internal/controllers/prompt/prompt_controller.go:66-89 | an idle Prompt stays idle, and as it was seen last, in exactly the steps that do not deliver a version of it, map a listed event to it, or restart the controller |
| WakeUp.StaysIdle | internal/controllers/prompt/prompt_controller.go:66-89 | without such steps an idle Prompt stays idle however long the run goes on |
| LostWakeUp.WakeUpCanBeLost | internal/controllers/prompt/prompt_controller.go:72-75 | a concrete run from the empty state at whose end the gate is open, the caches are up to date and nothing is left to do, but the Prompt is asleep |
| Scanners.PassLine | hack/check-renovate-managers.mjs:48-51 | the inner loop stops at the line end, which is kept |
| Scanners.PassBlock | hack/check-renovate-managers.mjs:52-57 | the inner loop stops behind the end of the block comment, or behind the text |
| Scanners.StripComments | hack/check-renovate-managers.mjs:24-62 | the loops compute the specification function, for every string |
| Scanners.StripTrailingCommas | hack/check-renovate-managers.mjs:64-100 | the loops compute the specification function, for every string |
| Scanners.ToJson | hack/check-renovate-managers.mjs:102-104 | comments first, trailing commas second |
| Scanners.StripCommentsCorrect | hack/check-renovate-managers.mjs:24-62 | for every string the output has no comment opener outside string literals, the output equals the input exactly when the input had none, and a second run changes nothing |
| Scanners.StripDeletesExactly | hack/check-renovate-managers.mjs:24-62 | exactly the characters of comments outside string literals are deleted, position by position; a line end stays |
| Scanners.UncommaDeletesExactly | hack/check-renovate-managers.mjs:64-100 | exactly the commas outside string literals that have only space, tab, line feed and carriage return between them and the end of an array or object are deleted, position by position, and nothing else |
| Scanners.ScannerTests | hack/check-renovate-managers.mjs:22 | white space is the four characters of section 2 of RFC 8259, closers are its end-array and end-object |
| Scanners.UncommaIdempotent | hack/check-renovate-managers.mjs:64-100 | the output has no trailing comma, and a second run changes nothing, exactly when no comma precedes a trailing comma |
| Scanners.TwoCommasNeedTwoRuns | hack/check-renovate-managers.mjs:88-95 | a text on which one run is not enough |
| JsonText.StripRender | hack/check-renovate-managers.mjs:24-62 | in a document of tokens with comments and white space between them, stripComments turns every gap into white space and copies every token |
| JsonText.UncommaShow | hack/check-renovate-managers.mjs:64-100 | in a document of tokens and white space, stripTrailingCommas removes exactly the commas before closers and copies everything else |
| JsonText.JsonKeepsMeaning | hack/check-renovate-managers.mjs:102-104 | any JSON value, written with comments, the white space of RFC 8259 and trailing commas anywhere they may stand, has after toJson the tokens of the plain value, string literals included |
| JsonText.JsonKeepsPlainText | hack/check-renovate-managers.mjs:102-104 | on plain JSON text toJson is the identity |
| Verdict.GroupByFileAndDep | hack/check-renovate-managers.mjs:172-177 | the map of sets holds under each key exactly the values found with it |
| Verdict.OneValuePerKey | hack/check-renovate-managers.mjs:178-185 | the loop over the map finds whether a key has more than one value, in any order |
| Verdict.Judge | hack/check-renovate-managers.mjs:159-199 | the verdict is positive exactly when matches filed under one text agree on the value and every expected entry has at least its minimum of places in the list |
| Verdict.MatchingCounts | hack/check-renovate-managers.mjs:188-190 | the filter keeps one match for each place with that datasource and that name |
| Verdict.MatchingKeeps | hack/check-renovate-managers.mjs:188-190 | the filter keeps each match that meets the entry as often as it was found, and no other |
| Verdict.OrderIsFree | hack/check-renovate-managers.mjs:159-199 | the verdict does not depend on the order of the matches |
| Verdict.SharedKey | hack/check-renovate-managers.mjs:174 | two files share a key for some dependencies exactly when the shorter name, with the separator behind it, begins the longer one with the separator behind it |
| Verdict.KeyTellsFileAndName | hack/check-renovate-managers.mjs:174 | the key tells file and dependency apart, whatever the dependencies are called, if and only if the two file names do not clash in that way |
| Verdict.GuardIsExact | hack/check-renovate-managers.mjs:168-185 | over a set of files, the loop over the keys finds exactly the lists in which an annotation of a file has two values if and only if no two of the files clash |
| Verdict.ClashRefused | hack/check-renovate-managers.mjs:172-185 | any two files that clash have two harmless matches that the guard refuses |
| Verdict.KeysCollide | hack/check-renovate-managers.mjs:174 | the files a and a :: clash although neither name contains the separator; a and a ::b do not |
| Verdict.PassingNeeds | hack/check-renovate-managers.mjs:187-199 | a list that passes has at least as many matches as the minima of distinct expected entries add up to |
| Verdict.Guard | hack/check-renovate-managers.mjs:147-199 | positive exactly when matches filed under one text agree and each of the eight dependencies, written out, is there, golangci-lint twice; that needs nine matches at least |
| JsonPointer.ParseIsPrint | apis/ollama/v1alpha1/common.go:45-46 | pointer strings (section 3 of RFC 6901) and paths are in bijection |
| PatchOperations.PointerMeans | apis/ollama/v1alpha1/common.go:45-46 | a pointer is empty, or a slash and an escaped token before a further pointer, and nothing else is one (section 3 of RFC 6901) |
| PatchOperations.EscapeOne | apis/ollama/v1alpha1/common.go:45-46 | a tilde is written ~0 and a slash ~1 |
| PatchOperations.EscapeConcat | apis/ollama/v1alpha1/common.go:45-46 | escaping works character by character |
| PatchOperations.PointerVectors | apis/ollama/v1alpha1/common.go:45-46 | examples of section 5 of RFC 6901 and the escaped escape |
| JsonPointer.IndexIsDigits | internal/patches/patches.go:80-85 | a token is an array index exactly when it is the number's decimal digits without leading zeros (section 4 of RFC 6901) |
| PatchOperations.GetMeans | internal/patches/patches.go:80-85 | a location is a member by its name or an element by its index, and nothing else (section 4 of RFC 6901) |
| JsonPatch.AddSucceeds | internal/patches/patches.go:80-85 | an add succeeds exactly when its parent takes the token, or the deepest existing location above is an object and no created parent would be an array; the result is the insertion or a chain of new objects |
| JsonPatch.AddReadsBack | internal/patches/patches.go:80-85 | a successful add reads back its value at the location it filled, "-" included |
| JsonPatch.RemoveSucceeds | internal/patches/patches.go:80-85 | remove succeeds exactly on an existing location below the root |
| JsonPatch.RemoveUndoesAdd | internal/patches/patches.go:80-85 | removing what was added restores the document exactly when the parent existed and nothing was overwritten |
| JsonPatch.RemoveDoesNotRestore | internal/patches/patches.go:80-85 | an add that overwrites a member and one that creates a parent, after which removing does not restore the document |
| JsonPatch.InsertAfterRemove | internal/patches/patches.go:80-85 | inserting at a removed location is a replacement, and with the old value restores the document |
| JsonPatch.ReplaceIsRemoveThenAdd | internal/patches/patches.go:80-85 | replace is remove and then add, failures included, exactly below the root; at the root it replaces the document, which cannot be removed |
| JsonPatch.MoveIsRemoveThenAdd | internal/patches/patches.go:80-85 | for all documents and paths, move and remove-then-add agree exactly when the removal or the add fails, or the target is not below the source and its parent is there after the removal; a move into its own child is an error (section 4.4 of RFC 6902) |
| JsonPatch.MoveCreatesNoParent | internal/patches/patches.go:80-85 | a document and a move that fails where remove and then add succeeds |
| JsonPatch.MovedReadsBack | internal/patches/patches.go:80-85 | what was moved or copied is found where it was put |
| JsonPatch.MoveBack | internal/patches/patches.go:80-85 | moving back undoes a move exactly when the move overwrote nothing and did not land on a location above its source |
| JsonPatch.MoveAboveItself | internal/patches/patches.go:80-85 | a document and a move that overwrites nothing and cannot be moved back, because it landed above its source |
| JsonPatch.OffPathIsUntouched | internal/patches/patches.go:80-85 | insertion and removal leave every location off the target path as it was, unless it stands in the array that shifts |
| JsonPatch.AddKeepsOthers | internal/patches/patches.go:80-85 | so does an add, created parents included |
| JsonPatch.ReplaceKeepsOthers | internal/patches/patches.go:80-85 | a replacement leaves every location off its path as it was |
| JsonPatch.InsertShifts | internal/patches/patches.go:80-85 | in the target array, elements before the index stay and the others move up by one |
| JsonPatch.RemoveShifts | internal/patches/patches.go:80-85 | in the target array, elements before the index stay and the others move down by one |
| JsonPatch.RunConcat | internal/patches/patches.go:71-88 | the empty patch changes nothing, and one patch after another is their concatenation |
| JsonPatch.RunFails | internal/patches/patches.go:80-88 | a patch fails exactly with the fault of its first operation that fails on what the ones before made |
| PatchOperations.AddOperation | internal/patches/patches.go:80-85 | for a whole patch of one add: when it succeeds, that its value is read where it landed, and that every location elsewhere reads as before |
| PatchOperations.AddToArray | internal/patches/patches.go:80-85 | added to an array, the elements from its place on move up by one |
| PatchOperations.RemoveOperation | internal/patches/patches.go:80-85 | remove: when it succeeds and its two faults; a removed member is gone; every location elsewhere reads as before |
| PatchOperations.RemoveFromArray | internal/patches/patches.go:80-85 | removed from an array, the elements behind move down by one |
| PatchOperations.ReplaceOperation | internal/patches/patches.go:80-85 | replace: exactly on an existing location; it reads back; every location apart reads as before |
| PatchOperations.CopyOperation | internal/patches/patches.go:80-85 | copy: exactly when its source exists and its target has room; the value of the source is read at the target; every location elsewhere, the source included, reads as before |
| PatchOperations.CopyToArray | internal/patches/patches.go:80-85 | copied into an array, the elements from its place on move up by one |
| PatchOperations.MoveOperation | internal/patches/patches.go:80-85 | move: when it succeeds; the value is read at the target, a source that was a member is gone, and what neither end concerns reads as before |
| PatchOperations.MoveToArray | internal/patches/patches.go:80-85 | moved into an array, elements shift as in a removal and then an addition |
| PatchOperations.BadPointers | internal/patches/patches.go:80-85 | an operation with a string that is no pointer fails |
| PatchOperations.CopyVector | internal/patches/patches.go:80-85 | a member copied beside itself, and moved there |
| Patches.ApplyMerge | internal/patches/patches.go:33-60 | no merge patch changes nothing; a conversion error leaves the object alone; otherwise merging works in place, even when it ends in an error |
| Patches.ApplyJSONPatch | internal/patches/patches.go:62-95 | no operations hand the object back; otherwise the object keeps its contents and the result is a fresh object or an error |
| Patches.Apply | internal/patches/patches.go:17-31 | merged first, JSON-patched second; the caller's object changes only by merging, which a later failure does not undo |
| Patches.PatchesRunOnMerged | internal/patches/patches.go:17-31 | the operations run on the merged document; the caller gets what the type keeps of the result, or the error of the operations or of the type, with its text |
| Patches.MergeFailures | internal/patches/patches.go:21-24 | a merge patch that cannot be converted or fails is the error, with its text; the first leaves the object alone |
| Patches.SplitJsonPatch | internal/patches/patches.go:62-94 | applying a JSON patch in two halves gives the same result when the type of the object keeps the document between them |

## Left out

- The operator's start-up, Helm chart, shell scripts, tracing, logging, events and HTTP clients: wiring and I/O.
- The `Resources` builder, deep copies and generated apply configurations: long but without decisions; a pass gets the resources and the answers to applying them.
- Field managers and ownership of server-side apply: the progress patch is modelled as an overwrite of the two condition types.
- Deletion of Models and Prompts, and several objects of one name over time.
- The wrappers around the reconcilers (conflict handling, tracing): in `WakeUp` a pass that failed, conflicted or panicked is simply queued again.
- Objects start with an empty status; statuses written by other programs are not part of the runs, only edits of the spec and of metadata are.
- Fairness: `EndToEnd` and `QueueToEnd` say that a schedule to an answer exists from every state, not that the workers take it.
- The periodic resync of the caches, which is left at its default and replays every object as an event after some hours: it would wake a sleeping Prompt too.
- Wake-ups of Prompts that refer to a Model in another namespace: the watch lists the Model's namespace only, so the theorems of `WakeUp` are about one namespace.
- Any claim that Ready=True means that the resources of the current generation were applied: a progress patch can bring a newer spec into the middle of a pass.
- Decompression, YAML and option decoding: their results are answers.
- Formatting of rates and percentages with two decimals is taken over, but floating-point rounding is not: the percentage is rounded over `real`.
- The walk over files and the regular expressions of the guard script: the list of matches is an argument.
- The JSON Patch operation `test`: the validation rule forbids its value, so section 4.6 of RFC 6902 cannot be met as written.
- JsonPatch.AddSucceeds: an add that would have to create or pad an array on its way fails with `ArrayParent` here, because no standard says what the library creates then.
- The code of the JSON Patch and merge libraries is not part of this model: JSON Patch follows the RFCs with the options that the source fixes, where only `add` creates parents, and merging is an arbitrary function.
- Order of members and duplicate members in JSON objects: an object is a map.
- Escapes inside JSON string literals are not decoded: `JsonText` keeps literals as they are written.
