# IEUM agent: a verified model

The IEUM agent runs the nodes of automation workflows and builds workflows in conversation with a
user. This project models the parts of it whose correctness is not visible in any one function and
proves, for all inputs and all runs, what those parts are there for.

* **The conversational builder.** A turn judges the user's reply to the question the previous turn
  left, lets a language model call tools in any order and overlap, stores at most one new question,
  and may complete the workflow. `BuilderSpec` says what the judgement, each tool and the end of a
  turn do to the session and to the working copy; `BuilderTools` has the two objects that are updated
  in place, each method proved to do exactly that; `BuilderRuns` strings turns together with a model,
  a backend and a client that may do anything; `BuilderInvariant` is the invariant every step keeps;
  `BuilderTheorems`, `BuilderQuestions` and `BuilderOutcome` state what holds of every run.
  `BuilderLaws` says, case by case, what each operation owes: what a reply must do, when a test goes
  out, what an answer leaves on record. `BuilderExample` is a run that gets all the way to completion.
* **The idempotency guard.** `IdempotencyGuard` has the database operations with all their outcomes,
  the guard and the route as they run for one request; `IdempotencyRuns` lets any number of requests
  interleave at every await, with faults, cancellations, crashes and expiry; `IdempotencyWindow` says
  exactly when a request runs without the guard; `IdempotencyRoute` that the one request is such a run.
* **The static validator.** `Validator` is the stream of findings and a definition of a well-formed
  workflow that mentions no finding; `ValidatorLoops`, `Reachability`, `Flow`, `ConfigStrings` and
  `Collector` are its loops: stack searches over cyclic graphs, the string walk, the collector.
  `ValidatorLaws` says exactly which findings there are, with code, node, field and values shown.
* **Graph editing and branch keys.** `GraphEdit` and `BranchKeys`.
* **Smaller exact algorithms.** `Paths` (dotted paths into JSON), `ExceptionChain` (cyclic exception
  links), `ModelPick` (the model card), `Sheets` (columns and rows), `AgentEnv` (the environment file).

A workflow node or edge may hold any JSON in any attribute. A hash is modelled as the content it is
taken of, so distinct contents have distinct hashes. What comes from outside is a parameter: the
event catalog, the field and cron checks of the catalog, the reply word lists, the text searches in
an exception, the order in which the language model calls tools, the answers of the backend, the
clock, the supply of new ids.

Four places where the code does less than one might read into it, the first three stated exactly:

* A request whose insert collides and whose look comes after a release runs unguarded, beside a
  third request that claims the key. `IdempotencyWindow.UnguardedWindow` shows the interleaving. A run
  has no unguarded execution if and only if each request has a key, no insert fails, and each look
  works and meets a readable record (`UnguardedIffSlip`); without faults, if and only if each look meets
  a record (`UnguardedIffMiss`). Then no two requests of a key are ever at work at once
  (`GuardedRunsExclude`).
* Writing a dotted path fails when one missing list would have to be made right inside another:
  padding puts an empty object there, and an object counts as a container. It also fails where the
  containers on the way are of another kind. `Paths.FailingWrites` has an input for each,
  `Paths.WriteThenRead` the exact condition under which a write goes through. Field writes
  (core/builder/fields.py:84-127) are the only caller. They pass catalog paths, and the one number in
  those stands between names (core/template_registry.py:180), so the first input does not arise there;
  the second does when a client sends a node whose `config` is a list.
* Sending stored branches back can lose a key with space around it (`BranchKeys.SpacedKeyIsLost`);
  `BranchKeys.ResendKeepsKey` says exactly which keys are kept. The builder's own keys have no space;
  those of a node the client sends may.
* One yes pays for one test as long as the turns of a session come one after another, as they do in
  every run here. The engine takes no lock: two overlapping requests that both load the waiting
  question would each judge it and each be confirmed (core/builder/engine.py:188-192).

## Model

| member | source | states |
|---|---|---|
| BuilderTheorems.WriteTestsAreConsented | core/builder/tools.py:507-551 | in every run, a test request with a node that may have an effect outside, by the catalog, is sent only in the turn right after a question about that node and hash was stored and put to the user, on a plain yes; no yes pays for two |
| BuilderTheorems.DoneWasFinished | core/builder/engine.py:133-135 | a turn completes only on a yes to a finish call of the turn before that found no finding and every node done, on the same nodes by id and hash and the same edges; what each node counted as done by was on record at that call: a success, of a write node after the user's yes to that very copy, a skip, of a write node by the user, or no change since the baseline's turn |
| BuilderTheorems.EveryNodeWasDone | core/builder/state.py:26-47 | so each node the user completed the workflow with was done, in this shape, at that finish call |
| BuilderOutcome.DoneIsWellFormed | core/builder/tools.py:577-593 | with the validator of this project, the nodes and edges of that finish call were a well-formed workflow |
| BuilderTheorems.StatusesAreEarned | core/builder/tools.py:552-574 | at any moment a success rests on a SUCCESS answer for a copy with that hash, for a write node after the user's yes to that copy; a skip on the user's own reply to the question about that hash, or, for what is no write node, on its being a listening trigger or on a step of the run in which the samples missing upstream were all of nodes there and skipped; a passed node has the hash it was sent with in the session's last completed turn, or in its first; all evidence is from turns of the same session |
| BuilderTheorems.TurnsStayWithinLimits | core/builder/tools.py:28-37 | no turn sends four tests or six lookups, and every backend call of a turn is over before the turn's deadline |
| BuilderTheorems.QuestionsReachTheUser | core/builder/engine.py:238-252 | a stored question has its sentence in the response, and a sentence its stored question unless the session was gone when the turn ended; a stored card carries the hash of the node in the response; only the next turn judges a question |
| BuilderQuestions.FirstCardElseLast | core/builder/engine.py:216-252 | in every run, of all questions the tools of a turn tried to put the first card is stored and asked, and if there is none the last question; after an error, and for a card whose node is gone, nothing; with the session gone, it is asked and not stored |
| BuilderTheorems.CardStays | core/builder/tools.py:138-166 | whatever tool is called, a held card stays until the turn ends |
| BuilderTheorems.NumberAnswersCard | core/builder/engine.py:117-128 | the number of an option, sent to a card whose node is unchanged, sets that node's model fields and nothing else; on a changed or missing node it sets nothing |
| BuilderQuestions.ResultStays | core/builder/tools.py:501-504 | in every run the result of an answered test stays on record, whatever other tests overlap it, until its node is answered again, skipped or missing, or the session is lost |
| BuilderInvariant.StepKeeps | core/builder/tools.py:507-593 | the invariant of all of the above is kept by every step of every tool, answer, turn start and turn end |
| BuilderInvariant.JudgeFacts | core/builder/engine.py:106-151 | the judgement confirms, skips or completes only what the waiting question asked about and the reply allows |
| BuilderInvariant.StartTestFacts | core/builder/tools.py:524-551 | a test goes out only within budget and time, a write test only on an unused confirmation of its id and hash, which it uses up |
| BuilderTheorems.ReplyToCard | core/builder/engine.py:117-128 | any reply to a card writes the choice it picks into the unchanged node, and nothing else |
| BuilderTheorems.UnchangedIsPassed | core/builder/state.py:45-46 | a node without a record and with the hash of the baseline's turn is passed |
| BuilderLaws.ReplyToTest | core/builder/engine.py:140-145 | a no, or a yes where only skipping was offered, puts the skip on record; a plain yes confirms exactly the copy asked about |
| BuilderLaws.ReplyToFinish | core/builder/engine.py:133-139 | done exactly on a yes to these nodes by id and hash and these edges |
| BuilderLaws.NothingToConfirm | core/builder/engine.py:114-128 | without a question, and with a card, nothing is confirmed or completed |
| BuilderLaws.RecordsPruned | core/builder/state.py:50-53 | every other record is kept, as it was, exactly if its node was sent |
| BuilderLaws.BaselineHolds | core/builder/state.py:35-36 | the baseline has every id sent with the hash of the later node of that id |
| BuilderLaws.StatusTable | core/builder/state.py:39-47 | which status a node has, from its record, its hash and the baseline |
| BuilderLaws.HashSees | core/builder/state.py:18-23 | a hash sees the event and every config field but brand, and not id, type or title |
| BuilderLaws.NodesCounted | core/builder/state.py:26-32 | the hash of a workflow counts its nodes one by one |
| BuilderLaws.EdgesCounted | core/builder/state.py:26-32 | and its edges |
| BuilderLaws.TestRefused | core/builder/tools.py:510-523 | an unknown node, a listening trigger, a node with findings of its own: when, and what then |
| BuilderLaws.TestAsks | core/builder/tools.py:524-537 | the user is asked first exactly if the node needs a yes and this copy has none; what is asked |
| BuilderLaws.TestSent | core/builder/tools.py:538-551 | a test is sent exactly if findings, yes, key, budget and time allow it; what that uses up |
| BuilderLaws.TestHeldBack | core/builder/tools.py:528-545 | what else holds a test back, in order, and that nothing changes then |
| BuilderLaws.SamplesMissing | core/builder/tools.py:553-560 | the node is skipped too exactly if it is no write node and all those nodes are there and skipped |
| BuilderLaws.ResultRecorded | core/builder/tools.py:561-574 | what a success, a failure and another error leave on record and ask |
| BuilderLaws.FinishCall | core/builder/tools.py:577-593 | which of card, rest, question a finish call gives, exactly when, and with what |
| BuilderLaws.TurnCloses | core/builder/engine.py:221-252 | an error is raised exactly if nothing changed; nodes, options and question of the response otherwise |
| BuilderLaws.CardPut | core/builder/tools.py:154-166 | the card that is put, unless there are no choices or a card waits |
| BuilderLaws.LookupSpent | core/builder/tools.py:423-433 | when a lookup goes through |
| BuilderLaws.CallsStart | core/builder/tools.py:146-152 | when a connection check and a list of choices are fetched |
| BuilderLaws.BaselineKept | core/builder/engine.py:112-114 | a session keeps its baseline; one without takes that of the nodes sent |
| BuilderLaws.KeyMissing | core/builder/tools.py:538-541 | when the key of an AI node counts as missing |
| BuilderLaws.OneNodeCounted | core/builder/state.py:26-32 | what the hash of a workflow has of one node |
| BuilderLaws.OneEdgeCounted | core/builder/state.py:26-32 | what it has of one edge |
| BuilderSpec.KindTable | core/builder/hitl.py:27-41 | by the catalog, which nodes need a yes, listen, fetch items or only read |
| BuilderSpec.SameHashSameKind | core/builder/hitl.py:27-41 | nodes with one hash are tested in one way |
| BuilderTools.SessionState.JudgeTurnStart | core/builder/engine.py:106-151 | as BuilderSpec.Judge |
| BuilderTools.SessionState.Record | core/builder/tools.py:501-504 | as BuilderSpec.Record |
| BuilderTools.Turn.Hold | core/builder/tools.py:138-143 | as BuilderSpec.Hold |
| BuilderTools.Turn.SpendLookup | core/builder/tools.py:427-433 | as BuilderSpec.SpendLookup |
| BuilderTools.Turn.AnySkippedUpstream | core/builder/tools.py:531-531 | true exactly if some node with a path to the argument is skipped |
| BuilderTools.Turn.StartTest | core/builder/tools.py:507-551 | as BuilderSpec.StartTest, the upstream search included |
| BuilderTools.Turn.FinishTest | core/builder/tools.py:552-574 | as BuilderSpec.FinishTest |
| BuilderTools.Turn.Finish | core/builder/tools.py:577-593 | as BuilderSpec.Finish |
| BuilderTools.Turn.Close | core/builder/engine.py:228-252 | as BuilderSpec.Close |
| BuilderTools.Turn.AddNode | core/builder/tools.py:218-251 | as GraphEdit.AddNode |
| BuilderTools.Turn.Connect | core/builder/tools.py:257-272 | as GraphEdit.Connect |
| BuilderTools.Turn.RemoveNode | core/builder/tools.py:275-282 | as GraphEdit.RemoveNode |
| BuilderTools.Turn.SetFields | core/builder/tools.py:392-406 | as GraphEdit.SetConfig, the pruning loop included |
| BuilderTools.Turn.PruneBranchEdges | core/builder/tools.py:195-206 | exactly the edges not offered by the node go |
| GraphEdit.AddNodeDoes | core/builder/tools.py:218-251 | when a node is added, and with what and which connection |
| GraphEdit.ConnectDoes | core/builder/tools.py:257-272 | when two nodes are connected, and that it is once |
| GraphEdit.RemoveNodeDoes | core/builder/tools.py:275-282 | exactly the node and the edges at it go, unless it is the last |
| GraphEdit.SetConfigDoes | core/builder/tools.py:392-406 | one node gets the config; exactly the edges it still offers stay |
| GraphEdit.RenameDoes | core/builder/tools.py:285-294 | one node gets the title, if that is not empty |
| GraphEdit.EditsKeepTheGraph | core/builder/tools.py:180-282 | any sequence of edits keeps distinct usable ids, known ends, no self-loop, no edge into a trigger, no repeated edge, offered branch values; a graph with nodes is never emptied |
| GraphEdit.EditsLeaveNoEdgeFinding | core/validators/static_validator.py:122-135 | after any edits the validator has no finding about any edge |
| GraphEdit.TriggerIs | core/builder/tools.py:209-211 | which nodes count as triggers |
| GraphEdit.DroppingKeepsOrder | core/builder/tools.py:280-280 | the nodes that stay keep their order |
| GraphEdit.DetachingKeepsOrder | core/builder/tools.py:281-281 | so do the edges |
| GraphEdit.PruningKeepsOrder | core/builder/tools.py:195-206 | so do the edges a pruning leaves |
| BuilderOutcome.EdgeFollowsItsKey | core/builder/tools.py:195-206 | after a branch rewrite an edge stays exactly if its value is the key of a rewritten branch, or an else the node still has |
| BranchKeys.KeyedBranches | core/builder/fields.py:131-161 | the result is the list sent with keys by the assignment rules and nothing else changed; anything but a list of objects is refused |
| BranchKeys.KeysByTheRules | core/builder/fields.py:131-161 | for every element: the first sender of a key in use keeps it, one without a key takes over that of its name unless another has it, any other gets a new one |
| BranchKeys.NameLeads | core/builder/fields.py:139-143 | a name leads to the first stored branch of that name with a usable key |
| BranchKeys.KeysAreUsable | core/builder/fields.py:131-161 | keys are pairwise distinct, not empty, not reserved |
| BranchKeys.SentKeyStays | core/builder/fields.py:146-149 | a key in use that is sent goes to its first sender and to no one else, whatever the names |
| BranchKeys.OldKeysAreEarned | core/builder/fields.py:150-160 | an old key reaches an element only by being sent, or by an empty key and its name |
| BranchKeys.OtherAttributesStay | core/builder/fields.py:161-161 | every attribute but the key is as sent |
| BranchKeys.ResendKeepsKey | core/builder/fields.py:144-161 | when the stored list is sent back a key is kept if and only if no space surrounds it and no earlier key equals it but for spaces, or it is all space and its name leads to it |
| BranchKeys.SpacedKeyIsLost | core/builder/fields.py:146-160 | a stored key with a space in front is replaced by a new one when sent back |
| BranchKeys.ResendKeepsEveryKey | core/builder/fields.py:144-161 | without surrounding spaces every key is kept |
| BranchKeys.DrawFree | core/builder/fields.py:157-159 | the draw ends and gives a key that is not taken |
| BranchKeys.SentIs | core/builder/fields.py:144-144 | the key sent is its text without space around it |
| BranchKeys.StoredAre | core/builder/fields.py:136-136 | the stored branches are the objects of the stored list |
| IdempotencyRuns.OneLiveClaimant | db/idempotency.py:54-104 | in any run with any faults, a key has at most one live guarded claimant, and while it lives the record is there, in progress and not expired |
| IdempotencyRuns.CompletedIsGenuine | db/idempotency.py:107-127 | a completed record holds the success of the one request that made it; if that request answered, with this result |
| IdempotencyRuns.AnswersAreGenuine | db/idempotency.py:94-104 | every answer is the request's own result, a refusal, or the success of a claimant of the same key |
| IdempotencyRuns.ExactlyOneRuns | db/idempotency.py:67-104 | undisturbed requests with one key: no two run; once all are answered one has run, its result is stored, all others got it or the refusal |
| IdempotencyWindow.CompletedLasts | db/idempotency.py:94-127 | in any run with any faults a completed record stays as it is until it expires; whoever is answered after it got completed is never refused |
| IdempotencyWindow.CompletedIsReplayed | db/idempotency.py:94-102 | undisturbed, everyone answered after the record got completed gets the stored result |
| IdempotencyWindow.UnguardedIffSlip | db/idempotency.py:67-104 | in any run, some request runs unguarded if and only if one has no key, an insert fails, or a look fails, misses the record or meets an unreadable one |
| IdempotencyWindow.UnguardedIffMiss | db/idempotency.py:88-93 | without faults, none runs unguarded if and only if every look after a collision meets a record |
| IdempotencyWindow.GuardedRunsExclude | db/idempotency.py:54-104 | of two requests of one key at work at once one is unguarded, in any run |
| IdempotencyWindow.UnguardedWindow | db/idempotency.py:91-93 | an undisturbed run in which a guarded and an unguarded request of one key are at work together |
| IdempotencyRuns.StepKeeps | api/routes/execute.py:18-60 | the invariant is kept by every step, fault, cancellation, crash and expiry |
| IdempotencyGuard.RecordStore.Claim | db/idempotency.py:54-104 | the claim's verdict and the records after it, for every fate of its two database calls |
| IdempotencyGuard.RecordStore.Complete | db/idempotency.py:107-127 | the record holds the result with the long expiry, or nothing changed |
| IdempotencyGuard.RecordStore.Release | db/idempotency.py:130-138 | the record is gone, or nothing changed |
| IdempotencyGuard.ExecuteRoute | api/routes/actions.py:31-58 | claim, run, then complete or release, for every fate of the database calls; the run happens exactly if the claim does not turn the request away |
| IdempotencyGuard.NoKeyNoGuard | db/idempotency.py:67-68 | without a key the node runs and its own result is the answer |
| IdempotencyGuard.InsertFails | db/idempotency.py:78-83 | after a failed insert the node runs and its own result is the answer |
| IdempotencyGuard.KeyWasFree | api/routes/execute.py:18-60 | with a free key: answer and record for every end of the run and every fate of the last write |
| IdempotencyGuard.KeyWasTaken | db/idempotency.py:85-104 | with a taken key: stored response, refusal or a run beside the record, and the record as it was |
| IdempotencyRoute.RouteIsARun | api/routes/actions.py:31-58 | records and answer of the route are those of the protocol's steps with one request, whatever the fates |
| IdempotencyGuard.RetryAfterSuccess | db/idempotency.py:107-116 | a retry after a success gets the identical response and changes nothing |
| IdempotencyGuard.RetryAfterFailure | db/idempotency.py:130-138 | a failure leaves no trace, the retry runs for real |
| IdempotencyGuard.InsertCancelled | db/idempotency.py:70-77 | cancelled at the insert, the request ends without running |
| Validator.NoFindingsMeansWellFormed | core/validators/static_validator.py:60-152 | the result is empty if and only if the workflow is small enough and well formed: ids, one trigger, edges, reachability, field checks, every reference |
| Validator.GraphEmpty | core/validators/static_validator.py:98-152 | the graph pass is silent if and only if ids are distinct, there is one trigger, all edges are fine and every node is reached from it |
| Validator.RefsEmpty | core/validators/static_validator.py:419-465 | the reference pass is silent if and only if every string in use closes its braces and names another existing node with a path to the referrer and a known output |
| ValidatorLaws.FindingsAreExact | core/validators/static_validator.py:60-93 | everything returned is one of the findings described, and each of those is returned unless 200 are or the next is too many bytes |
| ValidatorLaws.GraphSays | core/validators/static_validator.py:98-152 | exactly which findings the graph pass has, with node and values shown |
| ValidatorLaws.GraphOrder | core/validators/static_validator.py:98-152 | nodes before the trigger count before edges before orphans, each by place |
| ValidatorLaws.OrphansSaid | core/validators/static_validator.py:148-151 | exactly the nodes without a path from the trigger are named, each with its own id |
| ValidatorLaws.RefsSaid | core/validators/static_validator.py:419-465 | exactly which findings the references of a node have, with code, field and values shown |
| ValidatorLaws.SkippedStrings | core/validators/static_validator.py:303-315 | which strings are left out, by the fields the executor does not read |
| ValidatorLaws.FieldIs | core/validators/static_validator.py:433-438 | which field a finding names |
| ValidatorLaws.OutputIs | core/validators/static_validator.py:403-416 | which outputs a target has |
| ValidatorLaws.TooLarge | core/validators/static_validator.py:63-66 | the finding of a list that is too long |
| ValidatorLaws.ClipIs | core/validators/static_validator.py:49-52 | how a value shown is cut |
| ValidatorLaws.NoField | core/validators/static_validator.py:435-435 | when a finding names no field |
| ValidatorLaws.LastIsMeant | core/validators/static_validator.py:70-70 | of the nodes with one id a reference means the last |
| ValidatorLaws.LaterOrder | core/validators/static_validator.py:74-78 | node by node, fields before references |
| ValidatorLaws.ObjectsAre | core/validators/static_validator.py:67-68 | exactly what is no object is dropped, the rest keeps its order |
| ValidatorLoops.ValidateWorkflow | core/validators/static_validator.py:60-93 | the loops compute the collected stream of findings |
| ValidatorLoops.GraphErrors | core/validators/static_validator.py:98-152 | the graph pass, an orphan reported exactly for a node without a path from the trigger |
| ValidatorLoops.RefErrors | core/validators/static_validator.py:419-465 | the reference pass, ancestors searched at most once |
| Collector.Collect | core/validators/static_validator.py:82-93 | a beginning of the stream without repeats, within 200 findings and the byte limit, at least one, as long as the limits allow |
| Collector.KeptIsUnique | core/validators/static_validator.py:82-93 | that description leaves one result |
| Reachability.Search | core/validators/static_validator.py:142-147 | the stack loop ends on cyclic graphs and meets exactly what is reached from its start |
| Flow.Ancestors | core/validators/static_validator.py:370-386 | exactly the nodes with a path to the argument |
| Flow.BuilderAncestors | core/builder/tools.py:320-327 | the builder's own loop: the same nodes, each once |
| Flow.ForwardReached | core/validators/static_validator.py:136-147 | the search from the trigger meets the trigger and what it is upstream of |
| BuilderOutcome.UpstreamAgrees | core/builder/tools.py:320-327 | with usable ids the two modules mean the same by upstream |
| ConfigStrings.IterStrings | core/validators/static_validator.py:389-400 | the stack walk gives exactly the preorder of the strings, each with the first 256 characters of its full location |
| ConfigStrings.LeavesOfFields | core/validators/static_validator.py:389-400 | the strings of an object are those of its members, in order |
| ConfigStrings.LeavesOfItems | core/validators/static_validator.py:389-400 | those of a list are its elements', in order, each under its number |
| ConfigStrings.OwnershipSurvivesCut | core/validators/static_validator.py:433-438 | cutting a location does not change which field owns it |
| ConfigStrings.ParsePrinted | core/validators/static_validator.py:13-13 | a body is read as a reference if and only if it is that reference written out |
| ConfigStrings.BodiesExact | core/validators/static_validator.py:17-17 | the scan of a string finds a body exactly where double braces open and close with no brace between |
| ConfigStrings.UnclosedExact | core/validators/static_validator.py:440-441 | a string counts as unclosed exactly if some double brace opens after every one that closes |
| ConfigStrings.LeavesAt | core/validators/static_validator.py:389-400 | a string stands at its own location, a member under its name |
| ConfigStrings.Spelling | core/validators/static_validator.py:11-13 | the characters of a reference |
| Paths.WriteThenRead | core/template_registry.py:388-431 | a write goes through exactly on a writable path, and then reading gives the value |
| Paths.FailingWrites | core/template_registry.py:395-407 | two writes that fail: a missing list inside a missing list, a list where an object is needed |
| Paths.SetKeepsElsewhere | core/template_registry.py:388-415 | beside the path what was there stays; what appears is list padding |
| Paths.ListsGrow | core/template_registry.py:398-412 | a list grows to the index written and no further, with empty objects on the way and nulls at the end |
| Paths.ObjectsGrow | core/template_registry.py:404-415 | an object gets at most the key written, at the end |
| Paths.SetIffWritable | core/template_registry.py:395-407 | writable: existing containers of the right kind, and no index after an index among those to be made |
| Paths.ReadPath | core/template_registry.py:418-431 | the cursor loop reads what the path leads to |
| Paths.IndexReadBack | core/template_registry.py:418-431 | the number in a location is read back as that index |
| ExceptionChain.Walk.Visit | common/exception.py:59-75 | the recursion with the shared set yields in the order of a list search |
| ExceptionChain.ChainIsReached | common/exception.py:59-75 | every exception that can be reached comes up, once |
| ExceptionChain.SignalsAre | common/exception.py:84-92 | the signals: a status, a type name, a text, or a bare 429 of a provider |
| ExceptionChain.IsRateLimitError | common/exception.py:78-93 | true exactly if some exception that can be reached shows the signal |
| ExceptionChain.LinksInOrder | common/exception.py:72-75 | parts of a group before cause before context |
| ModelPick.BuildChoices | core/builder/model_pick.py:31-47 | the loops build the card, at most nine choices |
| ModelPick.CardNumbered | core/builder/model_pick.py:31-47 | choices are numbered from 1 and carry the key of their provider |
| ModelPick.CardRecommends | core/builder/model_pick.py:31-47 | the first choice is recommended exactly if the user has a key for the chat's provider, and is then that provider's default; no other choice ever is |
| ModelPick.ReplyPicks | core/builder/model_pick.py:77-88 | which choice any reply picks: by number, or by a title only one choice has |
| ModelPick.ChoicesOf | core/builder/model_pick.py:36-46 | a provider's choices and what each shows |
| ModelPick.OptionPicksItsChoice | core/builder/model_pick.py:67-88 | the value of an option, sent back, picks that choice |
| ModelPick.ApplyChoiceWrites | core/builder/model_pick.py:91-94 | exactly the three model fields are written |
| ModelPick.OthersAre | core/builder/model_pick.py:40-41 | the other models keep their order, without the default |
| ModelPick.CardGrows | core/builder/model_pick.py:35-46 | a provider without a key has no part in the card |
| ModelPick.OrderIs | core/builder/model_pick.py:32-33 | the order of the providers |
| Sheets.ColumnsRoundTrip | tools/google_sheets.py:163-177 | column numbers and letters are inverse to each other |
| Sheets.ColByLoop | tools/google_sheets.py:163-170 | the loop computes the letters |
| Sheets.ColIndexByLoop | tools/google_sheets.py:173-177 | the loop computes the number |
| Sheets.LettersResolve | tools/google_sheets.py:184-190 | every column below 18278 is found by its letters |
| Sheets.NamesResolve | tools/google_sheets.py:191-198 | where letters do not apply a column is found exactly by a header that is its alone, or by a key that is no header and is one with its dots unescaped |
| Sheets.KeysRefused | tools/google_sheets.py:184-198 | why a key names no column |
| Sheets.Row | tools/google_sheets.py:201-215 | each value with text in its column, blanks elsewhere, up to the last; else the first key at fault |
| Sheets.HeaderRange | tools/google_sheets.py:155-160 | the headers up to the last one with text, or blanks for at most 26 columns |
| Sheets.FindRow | tools/google_sheets.py:284-293 | the first matching row from the chosen end |
| Sheets.ByLettersAt | tools/google_sheets.py:292-292 | no column of a found row hides another |
| Sheets.Unescapes | tools/google_sheets.py:192-192 | every escaped dot becomes a dot |
| Sheets.BlankCells | tools/google_sheets.py:57-58 | which values are blank |
| Sheets.BlankHeaders | tools/google_sheets.py:150-152 | which headers are blank, by the codes of their spaces |
| Sheets.MatchesIf | tools/google_sheets.py:281-291 | which rows match |
| AgentEnv.BuildEnvironment | scripts/bluegreen/agent_env.py:81-143 | a file exactly if one can be built from the secrets; a rejection gives the first reason in the order of the checks |
| AgentEnv.Select | scripts/bluegreen/agent_env.py:98-123 | the pass accepts exactly selectable secrets and holds exactly those taken; a rejection is that of the first secret at fault |
| AgentEnv.FileReadsBack | scripts/bluegreen/agent_env.py:124-143 | with the program's own tables, the file read line by line gives back the selected map, every required key in it |
| AgentEnv.SecretsTaken | scripts/bluegreen/agent_env.py:98-112 | which secrets become lines, and under which key |
| AgentEnv.SecretsFine | scripts/bluegreen/agent_env.py:102-122 | what stops the build at a secret |
| AgentEnv.KeysApart | scripts/bluegreen/agent_env.py:112-118 | keys differ in more than case and underscores |
| AgentEnv.AnyOrderSameFile | scripts/bluegreen/agent_env.py:137-143 | rearranged secrets give the same bytes, or a rejection in both cases |
| AgentEnv.WriteAll | scripts/bluegreen/agent_env.py:158-163 | every byte is written in order whatever each write takes |
| AgentEnv.ForbiddenAre | scripts/bluegreen/agent_env.py:21-21 | the characters a value may not have, by code |
| AgentEnv.NamesAre | scripts/bluegreen/agent_env.py:102-107 | what a name may be |
| AgentEnv.BytesAre | scripts/bluegreen/agent_env.py:137-142 | the size counts UTF-8 bytes |
| AgentEnv.CompleteIf | scripts/bluegreen/agent_env.py:124-130 | the required keys have text, and the port is 8000 |
| AgentEnv.CanonicalIs | scripts/bluegreen/agent_env.py:53-54 | the canonical form drops underscores and case |
| AgentEnv.BelowIs | scripts/bluegreen/agent_env.py:138-138 | the order of the lines is that of their texts |
| Text.SpacesAre | tools/google_sheets.py:57-58 | the code points that count as space |
| Text.UppersAre | scripts/bluegreen/agent_env.py:53-54 | what upper case does to a character |
| Workflow.NodeAtIsFirst | core/builder/tools.py:62-64 | of the nodes with one id the first is found |

## Left out

- Field checks (`field_errors`, `_check`, `_condition_errors`) and cron syntax: parameters of the validator; they are one-branch checks of single values.
- The list of branch values a message of the validator offers is not kept in the finding.
- Message texts, hints to the language model and summaries: a finding keeps its code, node, field and the values it shows; a question keeps what it asks.
- BuilderTools.Turn.AddNode: the connection check and the key list are one verdict, and the config of the new node comes with the menu item, with provider, model and brand of an AI node in it.
- BuilderTools.Turn.SetFields: the config its writes leave behind is a parameter; of the writes only the branch keys are modelled.
- Catalog loading, preset matching and field writes (`apply_fields` except the branch keys): the entry of a node is a parameter, and an edit may leave any config behind.
- The language model runner, HTTP clients, session storage and the merging of state deltas: a session is one value that every tool sees at once; it may be lost between turns or by the end of one, and two turns of one session do not overlap.
- Concurrent calls of `add_node`: the graph invariant is proved for edits one after another. The claims about tests and questions allow any edit at any moment.
- Text of ids, events and branch values inside a hash: they are compared as JSON values, where the code turns them into text first.
- Numbers written with other than ASCII digits in a dotted path: the reader of the code takes some of them for digits.
- Paths.Set: builds the changed value instead of changing containers in place, so it does not show what other holders of a container would see; a number written among the text keys of an object counts as a failed write.
- BranchKeys.DrawFree: the supply of new keys never repeats a name, where the code draws eight random hexadecimal digits.
- ExceptionChain.IsRateLimitError: walks the whole chain before it looks, where the code stops at the first hit; the text searches are given as flags.
- IdempotencyGuard.ExecuteRoute: one request by itself. The two routes use one response model each, and a key belongs to one route.
- IdempotencyRuns.OneLiveClaimant: assumes that a live claimant is done within the ten minutes of its record.
- AgentEnv.BuildEnvironment: starts from the decoded object, whose names are distinct; JSON decoding, its size limit and lone surrogates are not part of this model. The checks on the file descriptor before the write loop are left out.
- ModelPick: names are shown as they are, without the cutting of control characters and length.
- Sheets: calls to the spreadsheet service, and the choice of the sheet.
