# Verification model of the Codex Shuttle bridge, session tools and installer

A Dafny model of the parts of Codex Shuttle that carry protocol or recovery logic, with proofs of what they
keep. `dafny verify dfyconfig.toml` checks everything.

| part | files |
|---|---|
| The WebSocket relay between desktop client, App Server and remote Host App Server | `RelaySpec` (one step per event, as functions on a state), `WebSocketRelay` with `RelayParts` (the mutable event loop, proved equal to it), `RelayFrames` (what each step may send) |
| Properties of its runs | `RelayDispatch`, `RelayRegistration`, `RelayInitialize`, `RelayThreads`, `RelayStarts` (what is sent for a client's thread/start), `RelayLedger` (the table of thread starts against the wires), `RelayReplies` and `RelayRequests` (the host's replies, and what was asked and requested because of them), `RelayProgress`, `RelayGather`, `RelayOrders` (exactly when the order of replies matters), `RelayInterleave` (gathering amid other events), `RelayDelivery`, `RelayLists`, `RelayCauses` (the event behind each frame), `RelayHistory` (what is remembered and what the client gets, from events and wires alone), `RelayStops` (when the relay stops), `RelayScenarios` (runs from the start, and exact conditions over the host's first reply), `RelayRewrite`, `Ids` |
| The line relay | `JsonlSpec`, `JsonlRelay`; it refines the same `Dispatcher`; `JsonlDelivery` (ownership, lists, what the client gets), `JsonlRegistration` |
| Line framing | `Framing` |
| Session import and repair | `Rollout`, `Import`, `ImportOutcome`, `Repair`, `RepairOutcome` (the outcomes exactly) |
| Install, rollback and recovery | `Lifecycle`, `LifecycleRecord` (what the profile records, and every result) |
| Download loop, shell quoting | `Download`, `Shell` |

Each stateful component is a class whose methods assign fields step by step; every method is proved equal to
a function of the old state, and the properties are lemmas about those functions over all runs.

## Environment

What the theorems take as given, beyond what their `requires` clauses say:

- A client id is not reused while it is outstanding, and the App Server does not use an outstanding client id for
  a request of its own. The code matches responses by id alone; so does the model, and no lemma needs this to
  hold, but the names "answer" and "request" in the table read as intended only then.
- Hash maps are iterated in an arbitrary order, which each event carries.
- The metadata timeout is an event that may happen whenever an entry is unsent. No time bound is claimed.
- JSON, base64 and UTF-8 are parameters: values are trees, texts are byte strings, and decoding is any function;
  where a lemma shows that texts of some length do harm, `RelayGather.Carries` says that one can be sent.
  For rollouts the encoder writes one line and decoding undoes it (`Rollout.Lawful`).
- Frames are written completely or the relay stops. After a failure only the frames sent are described.
- Release names are injective in the release (`Lifecycle.Injective`): digest prefixes do not collide.
- Remote scripts either take effect or do not, SQLite commits wholly or not at all, and storing the local profile
  succeeds.
- A server honours ranges in the sense of `Download.Honours`, where a lemma says so.

## Findings

Places where the code does something its documentation or a reader would not expect. The model follows the code.

- A repeated environment/add response moves registration back (`RelayRegistration.GoesBackExactlyWhen`,
  with a run in `RelayScenarios.GoesBack`).
- A host that answers a shadow again with a list of sources has them all read again, so it can hold a thread/start
  back for as long as it does so, up to the metadata timeout (`RelayProgress.ProgressTurn`,
  `RelayScenarios.WaitsForever`).
- A source listed twice makes the order of the host's replies matter and defeats the aggregate limit on the
  injected text when the list in force has three sources or more (`RelayScenarios.RunsAgreeExactly` for the first list,
  `RelayRequests.OversizedRepeats` and `RelayScenarios.OversizedRunExactly` for any; all exact). A second list of
  sources has the same effect on the order, since the texts stored before count until they are replaced
  (`RelayOrders.OrderIrrelevantExactly`).
- docs/architecture.md says that repair aligns provider and workspace metadata; with two rollouts of one thread from
  different directories it never settles (`Repair.ConvergesExactly`, `Repair.TwoDirectoriesAlternate`).
- The check for a model_provider column in apply_repair can only fail when the table changed after the changes were
  collected, since collecting already queries that column.
- A rollout imported with an extension like `.JSONL` is never indexed, so its thread can be imported again
  (`Import.ImportedIsFoundExactly`).
- Recovery from a failed rollback activates the files of the current release even where none were active before
  (`Lifecycle.RollbackUndoneExactly`, reached in
  `Lifecycle.UndoneRollbackActivates`); recovery from a failed reinstall of the current release moves to the previous
  one (`Lifecycle.FailedInstallReturnsExactly`); an undone first install stays current on the remote
  (`Lifecycle.FailedFirstInstallLeavesRelease`); rollback may activate a release of another profile,
  and then its metadata do not verify (`Lifecycle.RollbackVerifiesExactly`, `Lifecycle.AlwaysVerifiesExactly`).
- A download can report completion and still fail (`Download.CompletedYetFailed`).
- The cleanup script passes paths to `unlink` without `--`, so a path that begins with a hyphen, unless it is just that,
  is not removed (`Shell.CleanupRemoteTemp`); the installer's own paths begin with a slash.

## Model

| member | source | states |
|---|---|---|
| Ids.InternalIdsDistinct | crates/cxs-bridge/src/lib.rs:1052-1056 | Any two of the ids host-initialize, environment-add, environment-status, thread-metadata/N and thread-metadata/N/instruction/I that are equal as text are the same id. |
| Dispatcher.FirstInFirstOut | crates/cxs-bridge/src/lib.rs:922-936 | The abstract dispatcher both relays refine: forwarded messages followed by held ones are all arrivals in order, and after a turn that ends with the gate open nothing is held. |
| RelayDispatch.DrainDone | crates/cxs-bridge/src/lib.rs:922-936 | Draining forwards the whole queue in order, each message as the frame its route prescribes; if it fails, what it forwarded is a prefix. |
| RelayDispatch.TurnRefines | crates/cxs-bridge/src/lib.rs:670-937 | Every turn of the WebSocket loop, whatever woke it, is one turn of the abstract dispatcher with gate "no initialize yet, or Ready and merged response sent"; the held byte count stays exact and within 32 MiB. |
| RelayDispatch.WebSocketRefinesDispatcher | crates/cxs-bridge/src/lib.rs:642-938 | Every run of the WebSocket relay is a run of the abstract dispatcher whose arrivals are the received client messages other than initialize, rewritten and routed. |
| RelayDispatch.FirstInFirstOut | crates/cxs-bridge/src/lib.rs:685-714 | In every reachable state the queue is the tail of the received messages and the forwards on the wires are exactly the images of the rest, in order; an open gate holds nothing; pending_client_bytes is the total held length and at most 32 MiB. However the run ends, a prefix of what was received was forwarded. |
| RelayDispatch.RoutedInOrder | crates/cxs-bridge/src/lib.rs:1022-1045 | Over every run, also one that stops: the client's messages other than initialize go out once each, in the order received, a thread/start as its shadow, a message whose method is a host request to the host, and everything else, also what has no method, to the App Server; the rest is held, nothing when the gate is open. |
| RelayHistory.GateExactly | crates/cxs-bridge/src/lib.rs:693-704 | Over every run the gate is open if and only if no initialize request was taken in, or registration is ready by the events and the merged response is on the client's wire. |
| RelayHistory.InitializeGoesToBoth | crates/cxs-bridge/src/lib.rs:685-721 | Over every run, an initialize request goes to both servers, to the host under the bridge's id and otherwise unchanged, and a frame that is no text to the App Server; no other event sends such frames. |
| RelayDispatch.HeldBehindClosedGate | crates/cxs-bridge/src/lib.rs:696-703 | A turn after which the gate is still closed forwards nothing. |
| JsonlSpec.JsonlRefinesDispatcher | crates/cxs-bridge/src/lib.rs:1324-1413 | Every run of relay_jsonl is a run of the same abstract dispatcher, with gate "no initialize yet, or Ready". |
| JsonlSpec.JsonlFirstInFirstOut | crates/cxs-bridge/src/lib.rs:1361-1396 | For relay_jsonl: forwarded lines followed by held lines are the received lines other than initialize; an open gate holds nothing; the byte count is exact and within 32 MiB. However the run ends, a prefix of what was received was forwarded. |
| JsonlRegistration.LineRegistrationTurn | crates/cxs-bridge/src/lib.rs:1376-1410 | One turn of relay_jsonl: the phase afterwards, and which request of its own it writes: environment/add exactly for the awaited initialize answer, environment/status exactly for an add answer or a not-ready status within the limit; ready exactly on a ready status. |
| JsonlRegistration.LineRegistration | crates/cxs-bridge/src/lib.rs:1324-1413 | Over every run of relay_jsonl, also one that fails: its phase and initialize id are what the events make of them, and its own requests and the client's initialize requests on the App Server's wire are exactly those the events cause, in order. |
| JsonlRegistration.LineGateExactly | crates/cxs-bridge/src/lib.rs:1361-1372 | Over every run of relay_jsonl, lines are held if and only if an initialize request was taken in and registration is not ready by the events; otherwise nothing is held. |
| JsonlRegistration.AtMostOneLineAdd | crates/cxs-bridge/src/lib.rs:1406-1409 | At most one environment/add is written, whatever the App Server answers, and none before it answers initialize. |
| JsonlRegistration.LineAttempts | crates/cxs-bridge/src/lib.rs:146-166 | In every reachable state that polls, the attempt counter is between 1 and 200. |
| JsonlRegistration.LineLedger | crates/cxs-bridge/src/lib.rs:84-167 | If each request of the relay is answered at most once and only after it was written, registration only moves forward, and while polling the counter is the number of environment/status requests written. |
| JsonlDelivery.LineIdsExactly | crates/cxs-bridge/src/lib.rs:1357-1404 | Over every run of relay_jsonl, the ids kept for thread/start and thread/list are exactly those of the requests taken in that the App Server has not answered. |
| JsonlDelivery.AwaitedExactly | crates/cxs-bridge/src/lib.rs:1357-1404 | By position: an id counts as unanswered if and only if some request with it was taken in and no answer with it came after. |
| JsonlDelivery.LineStopsExactly | crates/cxs-bridge/src/lib.rs:1345-1412 | One turn of relay_jsonl closes exactly when the App Server is gone and fails exactly for unreadable or refused input, a full queue, or an error or malformed answer to initialize or an environment request. |
| JsonlDelivery.LineScopeExactly | crates/cxs-bridge/src/lib.rs:1399-1401 | Over every run of relay_jsonl the scope is the initial one plus exactly the threads named by the App Server's answers to thread/start requests of this client and those recorded by other connections, and the stored scope is part of it. |
| JsonlDelivery.LineListsFilteredExactly | crates/cxs-bridge/src/lib.rs:1402-1405 | Over every run of relay_jsonl, each list delivered is the text of one App Server line that answers a thread/list request, filtered by exactly the initial scope and the threads recorded up to that line. |
| JsonlDelivery.LineClientGetsExactly | crates/cxs-bridge/src/lib.rs:1372-1405 | Over every run of relay_jsonl, also one that fails, the client has been written exactly one line for each App Server line that answers no environment request, in order: filtered if it answers an open thread/list, as it is otherwise. |
| JsonlDelivery.LineOthersUnchanged | crates/cxs-bridge/src/lib.rs:1376-1405 | Over every run of relay_jsonl, every other answer delivered is the text of one App Server line, unchanged, and answers neither a remembered thread/list request nor a request of the relay. |
| JsonlDelivery.LineListAnswersFilteredFirst | crates/cxs-bridge/src/lib.rs:1357-1404 | Over every run of relay_jsonl: once a thread/list request has been taken in, no answer with its id is passed on before one that was filtered, and until then the id is remembered. |
| JsonlDelivery.LineStoredEqualsMemoryExactly | crates/cxs-core/src/lib.rs:437-467 | Over every run of relay_jsonl: the stored scope equals memory exactly when the save for the last recorded thread went through and no id in the scope is unsafe; before any recording it is the initial one. |
| RelayRegistration.RegistrationTurn | crates/cxs-bridge/src/lib.rs:725-762 | What each event does to the registration phase, and that it sends environment/add exactly for the awaited initialize response and environment/status exactly for an add response or a not-ready status within the attempt limit. |
| RelayRegistration.AtMostOneAdd | crates/cxs-bridge/src/lib.rs:106-128 | Over every run, whatever the servers answer, at most one environment/add is sent, and a reachable Polling state has at most 200 attempts. |
| RelayRegistration.GoesBackExactlyWhen | crates/cxs-bridge/src/lib.rs:134-140 | A turn moves registration back exactly when it processes a further environment/add response after the first poll. |
| RelayScenarios.GoesBack | crates/cxs-bridge/src/lib.rs:725-733 | A run from the start that becomes ready, and that a further answer to environment/add takes back to the first poll. |
| RelayRegistration.RegistrationLedger | crates/cxs-bridge/src/lib.rs:84-167 | If each internal request is answered at most once and only after it was sent, the phase only moves forward, and while polling the attempt counter is the number of environment/status requests sent, at most 200. |
| RelayRegistration.StatusReadyExactly | crates/cxs-bridge/src/lib.rs:1425-1434 | A status answer decides if and only if it has no error and its result has a status text, and means ready if and only if that text is "ready". |
| RelayRegistration.AddRequestIs | crates/cxs-bridge/src/lib.rs:114-128 | environment/add, member by member: its id, the environment, the executor's address and the timeout, and nothing else. |
| RelayRegistration.StatusRequestIs | crates/cxs-bridge/src/lib.rs:1415-1423 | environment/status likewise: its id and the environment. |
| RelayInitialize.InitializeTurn | crates/cxs-bridge/src/lib.rs:905-920 | One turn keeps: at the head of the loop the merged response was sent if and only if both servers have answered, and nothing was forwarded between the initialize request and it. |
| RelayInitialize.MergedOnceAndFirst | crates/cxs-bridge/src/lib.rs:685-704 | Over every run at most one merged initialize response is sent, it is the merge of the two values it is labelled with (which RelayCauses.MergedFromAnswers ties to the servers' answers), it is sent exactly when both have answered, and no client message is forwarded between an initialize request and it. |
| RelayCauses.MergedFromAnswers | crates/cxs-bridge/src/lib.rs:905-920 | Over every run, the merged response was made of the text of an event that answered the recorded initialize id and of a host line with the host-initialize id. |
| RelayInitialize.MergeKeepsLocal | crates/cxs-bridge/src/lib.rs:1237-1265 | The merged response has, member by member, the App Server's value, except the four identity fields the host supplies and codexHome when the remote home is known. |
| RelayInitialize.TrimmedSlashes | crates/cxs-bridge/src/lib.rs:1258-1263 | The remote home loses exactly its trailing slashes. |
| RelayInitialize.AnswerOrderIrrelevant | crates/cxs-bridge/src/lib.rs:802-806 | For two initialize answers right after each other, either order ends in the same state with the same frames sent, or fails either way. |
| RelayCauses.MergeIgnoresOrder | crates/cxs-bridge/src/lib.rs:758-806 | Over every run in which the App Server and the host answered initialize with given values, whichever first and whatever happened before, between and after, exactly one merged response is on the wire: the merge of these values. |
| RelayThreads.SendLocalThreads | crates/cxs-bridge/src/lib.rs:1147-1192 | Sending the local request of an entry, from any state inside a turn, keeps the account of shadows and requests and sends no second request. |
| RelayThreads.ThreadTurn | crates/cxs-bridge/src/lib.rs:807-902 | One turn, whatever its event, keeps: shadow ids 1, 2, 3, ...; a local request sent exactly for the shadows that no longer wait; an unsent entry has no host reply or an outstanding read; contents at most 256 KiB each and 512 KiB together. |
| RelayThreads.ThreadStartsAccounted | crates/cxs-bridge/src/lib.rs:763-784 | The same over every run; and on the wires, even when the relay fails, no shadow id and no local request is sent twice, and no local request without its shadow. What the requests say is RelayStarts.StartsAreTheClients. |
| RelayLedger.TableIsTheWires | crates/cxs-bridge/src/lib.rs:1046-1075 | Over every run, the table of pending thread starts holds exactly those whose shadow is on the host's wire and whose answer is not on the client's, each with the client's message and its id, and marks as sent exactly those whose request is on the App Server's wire. |
| RelayStarts.StartsAreTheClients | crates/cxs-bridge/src/lib.rs:1046-1075 | Over every run, also one that fails: entry k holds the k-th forwarded thread/start and its client id, the local request sent for it is that message with only params.developerInstructions changed, and a merged answer delivered for it carries that client's id. |
| RelayCauses.StartsMergedFromAnswers | crates/cxs-bridge/src/lib.rs:763-784 | Over every run, the answer delivered to a thread/start is the text of an App Server event, merged with the host's last successful reply to that very shadow before it, and unmerged exactly when there was none. |
| RelayCauses.HostReplyIsLast | crates/cxs-bridge/src/lib.rs:807-822 | The reply that is merged is, by position in the run, the last successful one to the shadow, with no shadow of that id after it. |
| RelayReplies.RepliesRemembered | crates/cxs-bridge/src/lib.rs:823-862 | Over every run, each entry holds the host's last successful reply to its shadow; while unsent, exactly the sources that reply lists; and each read it awaits was asked for on the host's wire: method fs/readFile, that id, and that path as the only parameter. |
| RelayRequests.EverySourceAsked | crates/cxs-bridge/src/lib.rs:835-852 | Over every run, when the host answers the shadow of a waiting thread start with a list of sources, it is asked for all of them, in its order. |
| RelayRequests.ReadsAreListed | crates/cxs-bridge/src/lib.rs:835-852 | Over every run, each file request to the host, member by member, is fs/readFile under the read id of its position and names the source that the host listed at that position for a waiting thread start. |
| RelayRequests.RequestsListSources | crates/cxs-bridge/src/lib.rs:1147-1192 | Over every run, each local request was made of the entry as the causing event left it, with the sources of the last successful reply to its shadow. |
| RelayThreads.TextBytesUpdate | crates/cxs-bridge/src/lib.rs:1124-1131 | Storing a text adds its length to the total and takes off the length of the text it replaces, if any. |
| RelayProgress.ProgressTurn | crates/cxs-bridge/src/lib.rs:807-878 | Every event leaves a waiting entry it does not concern unchanged; one that concerns it lowers the number of replies it still needs, or sends it, exactly unless it is a further successful host reply that lists sources. |
| RelayProgress.WaitsBounded | crates/cxs-bridge/src/lib.rs:1046-1075 | Over every run in which the host does not list the sources of the entry again, a waiting thread/start is sent after at most 33 events that concern it, and then exactly one local request is on the wire. |
| RelayScenarios.WaitsForever | crates/cxs-bridge/src/lib.rs:823-853 | A run from the start, of any length, in which the host answers the shadow again and again with a list of sources: the local request is never sent. |
| RelayProgress.ReaderUnique | crates/cxs-bridge/src/lib.rs:854-862 | A read id is outstanding in at most one entry, so the search through the hash map does not depend on its order. |
| RelayGather.GatherClosedForm | crates/cxs-bridge/src/lib.rs:1107-1145 | For distinct paths, gathering read replies succeeds exactly when every reply is acceptable and all texts together fit 512 KiB, and then stores each delivered text under its path; no reference to their order. |
| RelayGather.GatherConfluent | crates/cxs-bridge/src/lib.rs:1107-1145 | For distinct paths, two orders of the same replies produce the same entry, or both are refused. |
| RelayGather.AllRepliesRun | crates/cxs-bridge/src/lib.rs:854-878 | When all reads are answered in a row the relay has failed, or sent the local request for the gathered entry and nothing else. |
| RelayGather.RepliesConfluent | crates/cxs-bridge/src/lib.rs:824-878 | For distinct paths the order in which the host answers the reads, in a row, makes no difference to the run: it fails, or ends in the same state with the identical local thread/start. |
| RelayInterleave.EntryGathered | crates/cxs-bridge/src/lib.rs:824-878 | Over every run, whatever other events and replies to other entries come in between: an entry is what its own read replies make of it, or its local request was sent for exactly that. |
| RelayInterleave.InterleavingIrrelevant | crates/cxs-bridge/src/lib.rs:824-878 | Two runs with a common beginning and the same replies to one entry of distinct paths, in whatever order and with whatever else in between, send the same local request for it. |
| RelayGather.FreshReadsDistinct | crates/cxs-bridge/src/lib.rs:835-852 | A host reply that lists no source twice causes reads with pairwise distinct paths. |
| RelayOrders.OrderIrrelevantExactly | crates/cxs-bridge/src/lib.rs:1107-1145 | For every entry with texts within the budget, all orders of all replies agree if and only if at most one read is awaited; or no awaited path has a text yet, and either all awaited paths differ or no byte of the budget is left; or exactly two reads are awaited, of different paths with stored texts of one size, and at most 256 KiB are stored. |
| RelayScenarios.RunsAgreeExactly | crates/cxs-bridge/src/lib.rs:824-878 | For every list of sources in the first host reply, all orders of all replies to its reads lead to the same run if and only if no source is listed twice. |
| RelayGather.SectionsInHostOrder | crates/cxs-bridge/src/lib.rs:1160-1176 | With every text in hand there is one section per source, in the order the host listed them. |
| RelayGather.RequestCarriesSections | crates/cxs-bridge/src/lib.rs:1147-1192 | The developerInstructions of the local request hold every section, one after the other in order with a blank line between, after the client's own text and a blank line if it has any. |
| RelayGather.RequestTextExactly | crates/cxs-bridge/src/lib.rs:1147-1192 | Without a text in hand the local request is the client's message; otherwise its developerInstructions are the client's and a blank line if there are any, then for each source in hand, in order, a line naming the file and its text, with a blank line between two. |
| RelayGather.InjectedWithinLimit | crates/cxs-bridge/src/lib.rs:1162-1172 | For distinct paths the instruction text carried by the local request is at most 512 KiB. |
| RelayGather.OversizedExactly | crates/cxs-bridge/src/lib.rs:1162-1172 | Texts within the budget can be injected past 512 KiB for a list of sources if and only if it has at least three and one is listed twice. |
| RelayScenarios.OversizedRunExactly | crates/cxs-bridge/src/lib.rs:1147-1192 | For every list of at most 32 sources: some run sends a local request with more than 512 KiB of the host's text while that list is in force if and only if it has at least three sources and one is listed twice. |
| RelayRequests.OversizedRepeats | crates/cxs-bridge/src/lib.rs:1162-1172 | Over every run, for each local request that carries more than 512 KiB of the host's text, the list in force when it was sent has at least three sources and one of them twice. |
| RelayRequests.OversizedIsLong | crates/cxs-bridge/src/lib.rs:1162-1172 | The developerInstructions of such a request on the wire are themselves longer than 512 KiB. |
| RelayGather.RequestKeepsClientFields | crates/cxs-bridge/src/lib.rs:1147-1192 | The local request is the client's own but for developerInstructions, and the client's text stays in front of the added sections. |
| RelayDelivery.AllowedIsNoAnswer | crates/cxs-bridge/src/lib.rs:1225-1235 | A host message that carries an internal host id passes the filter exactly when it is an allowed notification. |
| RelayDelivery.AllowedExactly | crates/cxs-bridge/src/lib.rs:1225-1235 | A host message passes the filter if and only if it is an allowed notification, or has an id that is not host-initialize and does not start like those of shadows and reads. |
| RelayDelivery.NoInternalAnswerDelivered | crates/cxs-bridge/src/lib.rs:725-757 | Over every run, however late it comes, no answer to an internal request is delivered: nothing from the App Server carries an environment id, and nothing from the host carries an internal host id unless it is an allowed notification. |
| RelayDelivery.RetainedInOrder | crates/cxs-bridge/src/lib.rs:1010-1018 | Retaining keeps exactly the owned threads, at increasing positions of the server's list. |
| RelayDelivery.OwnsExactly | crates/cxs-bridge/src/lib.rs:1010-1018 | A thread counts as owned if and only if its id member is a string among the ids of the scope. |
| RelayDelivery.StartedThreadExactly | crates/cxs-bridge/src/lib.rs:956-975 | The thread a response started is result.thread.id, if and only if the response has no error and the id is 1 to 256 bytes without control characters. |
| RelayDelivery.FilterOnlyLists | crates/cxs-bridge/src/lib.rs:999-1020 | Filtering changes nothing but the arrays data and threads of the result, and only with an enabled scope; each becomes its owned part. |
| RelayDelivery.RecordGrows | crates/cxs-bridge/src/lib.rs:956-997 | Recording a response adds the thread it started, when it names one that may be recorded, and nothing else; the stored scope never runs ahead of memory. |
| RelayDelivery.ErrorsPassUnmerged | crates/cxs-bridge/src/lib.rs:1194-1199 | An answer with an error, or to a shadow answered with one, is passed on as it is. |
| RelayDelivery.MergeThreadKeepsLocal | crates/cxs-bridge/src/lib.rs:1194-1223 | The merged thread/start response is the App Server's, except for cwd, runtimeWorkspaceRoots and instructionSources of the result and cwd and gitInfo of the thread, which are the host's where it has them. |
| RelayHistory.ClientGetsExactly | crates/cxs-bridge/src/lib.rs:722-884 | Over every run, each event brings the client exactly what is due, once: a message of the App Server that answers no environment request and not the awaited initialize comes as the answer of an open thread start with its id, else filtered if it answers an open thread/list, else as it is; a host line that may pass and answers no request of the bridge; other App Server frames; nothing else. |
| RelayHistory.RemembersHistory | crates/cxs-bridge/src/lib.rs:642-938 | Over every run, what the relay remembers (open thread starts, awaited initialize, ids of unanswered thread/list requests, scope) is what the events and the wires say, computed without reference to its fields. |
| RelayHistory.ScopeExactly | crates/cxs-bridge/src/lib.rs:770-784 | Over every run, the scope is the initial one plus exactly the threads named by answers to this connection's thread starts and those recorded elsewhere, and the stored scope is part of it. |
| RelayHistory.HostLinesPassExactly | crates/cxs-bridge/src/lib.rs:878-884 | Over every run, a host line with no id of the bridge's own is passed on, once, if and only if the filter allows it. |
| RelayStops.StopsExactly | crates/cxs-bridge/src/lib.rs:670-938 | Over every run, the relay closes exactly when a peer is gone, and fails exactly for: unreadable input, a refused client message, a full queue, a thread/start without id when it is forwarded, an error or malformed answer to an environment or initialize request, answers without a merge, an unacceptable instruction text; never for anything else. |
| RelayHistory.ListsFilteredExactly | crates/cxs-bridge/src/lib.rs:785-790 | Over every run, each thread list delivered is the text of an App Server event that answers a thread/list request, filtered by exactly the initial scope and the threads recorded before it: those named by answers to this connection's thread starts, and those recorded elsewhere. |
| RelayCauses.FramesCaused | crates/cxs-bridge/src/lib.rs:670-937 | Over every run from any state, each frame on any wire was caused by one of the events, which for every kind of frame fixes what it carries, up to which held message a forward is (RelayDispatch.FirstInFirstOut). |
| RelayCauses.StoredEqualsMemoryExactly | crates/cxs-core/src/lib.rs:437-467 | Over every run: the stored scope equals memory exactly when the save for the last recorded thread went through and no id in the scope is unsafe; before any recording it is the initial one. |
| RelayLists.ListAnswersFilteredFirst | crates/cxs-bridge/src/lib.rs:785-793 | Over every run: once a thread/list request has been taken in, no App Server message with its id is passed on before a filtered list answer with that id, and until then the id is remembered. |
| RelayRewrite.RewriteIs | crates/cxs-bridge/src/lib.rs:1436-1479 | A client message is sent on as m if and only if it is acceptable and m is it with, member by member, nothing changed but these: the experimental API of initialize, and the environments of thread/start and turn/start, which are exactly one, the remote one at the cwd, or none for a turn without a cwd. |
| RelayRewrite.RewriteIdempotent | crates/cxs-bridge/src/lib.rs:1436-1479 | Rewriting a rewritten message changes nothing more. |
| RelayRewrite.ShadowKeepsMembers | crates/cxs-bridge/src/lib.rs:1052-1063 | The shadow is the request with the internal id, ephemeral, without environments, and every other member as it was. |
| RelayRewrite.SourcesAreListedStrings | crates/cxs-bridge/src/lib.rs:1081-1091 | The sources read are the strings the host listed, in its order, cut at 32. |
| RelayRewrite.NoListNoSources | crates/cxs-bridge/src/lib.rs:1081-1091 | A host reply lists sources only if its result has an array of them. |
| RelayParts.EnvironmentRegistration.BeginRegistration | crates/cxs-bridge/src/lib.rs:114-128 | The add request and phase Registering, or the error with the phase unchanged. |
| RelayParts.EnvironmentRegistration.BeginStatusPoll | crates/cxs-bridge/src/lib.rs:134-140 | The first status request and Polling with one attempt, or the error with the phase unchanged. |
| RelayParts.EnvironmentRegistration.HandleStatusResponse | crates/cxs-bridge/src/lib.rs:146-166 | Succeeds exactly for ready, or for a not-ready status while polling with fewer than 200 attempts; the resulting phase and request. |
| RelayParts.EnvironmentRegistration.RewriteClientMessage | crates/cxs-bridge/src/lib.rs:1436-1479 | The in-place rewrite computes the specified rewriting and records the initialize id. |
| RelayParts.ScopeHandle.RecordOwnedThread | crates/cxs-bridge/src/lib.rs:956-997 | Memory and stored scope change as specified. |
| RelayParts.ScopeHandle.FilterThreadListResponse | crates/cxs-bridge/src/lib.rs:999-1020 | The loop over the two list fields computes the specified filtering. |
| RelayParts.SumTextBytes | crates/cxs-bridge/src/lib.rs:1124-1129 | The sum over the stored texts, in whatever order the map is traversed. |
| RelayParts.RecordInstructionRead | crates/cxs-bridge/src/lib.rs:1107-1145 | Computes the specified recording or its error. |
| RelayParts.MergeInitializeResponse | crates/cxs-bridge/src/lib.rs:1237-1265 | Computes the specified merge or its error. |
| RelayParts.MergeThreadMetadata | crates/cxs-bridge/src/lib.rs:1194-1223 | Computes the specified merge or its error. |
| WebSocketRelay.Relay.ForwardClientMessage | crates/cxs-bridge/src/lib.rs:1030-1079 | Fields and wires change as the forwarding function says, or the relay fails with the frames it says. |
| WebSocketRelay.Relay.ForwardHeld | crates/cxs-bridge/src/lib.rs:923-935 | The pop-and-forward loop is the drain of the specification. |
| WebSocketRelay.Relay.OnClientMessage | crates/cxs-bridge/src/lib.rs:681-714 | A rewritten client message is noted, sent on, held or forwarded as specified. |
| WebSocketRelay.Relay.OnClientText | crates/cxs-bridge/src/lib.rs:675-714 | The branch for client text has the specified effect. |
| WebSocketRelay.Relay.OnServerText | crates/cxs-bridge/src/lib.rs:722-793 | The branch for App Server text has the specified effect, including the two continue statements that skip the end of the turn. |
| WebSocketRelay.Relay.OnHostLine | crates/cxs-bridge/src/lib.rs:798-884 | The branch for host lines has the specified effect. |
| WebSocketRelay.Relay.OnExpiry | crates/cxs-bridge/src/lib.rs:885-902 | The timeout branch has the specified effect. |
| WebSocketRelay.Relay.Turn | crates/cxs-bridge/src/lib.rs:671-937 | One turn of the mutable event loop is one step of the specification: new state, frames sent on each wire, failure or orderly close. |
| WebSocketRelay.Relay.Serve | crates/cxs-bridge/src/lib.rs:670-938 | The loop over any sequence of events is the run of the specification, so every statement about runs holds of it. |
| JsonlRelay.Relay.ForwardHeld | crates/cxs-bridge/src/lib.rs:1388-1391 | The pop-and-write loop is the drain of the specification. |
| JsonlRelay.Relay.Turn | crates/cxs-bridge/src/lib.rs:1345-1412 | One turn of the mutable line relay is one step of its specification. |
| JsonlRelay.Relay.Serve | crates/cxs-bridge/src/lib.rs:1345-1412 | The loop over any sequence of events is the run of the specification. |
| Framing.WrittenLineReadsBack | crates/cxs-bridge/src/lib.rs:1545-1553 | A written line reads back, whatever follows it, exactly when it has no LF, no trailing CR, and fits the limit together with its newline. |
| Framing.WrittenLinesReadBack | crates/cxs-bridge/src/lib.rs:1514-1553 | Any list of such lines, written one after the other, reads back as that list and then the end of input. |
| Framing.TooLongExactly | crates/cxs-bridge/src/lib.rs:1531-1533 | A line is refused exactly when more than the limit is there and none of the first limit bytes is a newline; the newline counts. |
| Framing.ReadLineExactly | crates/cxs-bridge/src/lib.rs:1514-1543 | One call reads the first line up to its newline, without the newline and one carriage return before it; a last line without a newline as it is; and the end if and only if nothing is left. |
| Framing.ChunkedReader.ReadBoundedLine | crates/cxs-bridge/src/lib.rs:1514-1543 | For any division of the stream into non-empty chunks, the result and the unread rest are those of reading the whole stream. |
| Framing.LineWriter.WriteLine | crates/cxs-bridge/src/lib.rs:1545-1553 | Appends the line and one LF. |
| Rollout.RewriteAligns | crates/cxs-sessions/src/lib.rs:463-520 | A rewritten rollout has the same thread id and cwd, the target provider, and the same bytes from the first newline on; rewriting it again changes nothing. |
| Rollout.InspectExactly | crates/cxs-sessions/src/lib.rs:463-520 | A rollout can be read if and only if its first line is a session_meta record with a payload and a payload.id that is not empty; thread id, cwd and provider are then those members of the payload; and the rewrite is that record with only payload.model_provider changed, in front of the rest. |
| Rollout.MetaIgnoresTarget | crates/cxs-sessions/src/lib.rs:463-520 | What is read from a rollout does not depend on the provider it would be rewritten to. |
| Rollout.ContainsExactly | crates/cxs-sessions/src/lib.rs:503-505 | A rollout counts as encrypted exactly when some window of its bytes is the marker. |
| Import.IndexedExactly | crates/cxs-sessions/src/lib.rs:388-418 | Among paths of normal components, the indexer accepts exactly the valid remote paths whose extension is jsonl in lower case. |
| Import.ValidExactly | crates/cxs-sessions/src/lib.rs:440-461 | A remote archive may hold exactly the files below sessions or archived_sessions, without empty, dot or dot-dot components, named rollout-, something, and the extension jsonl in any mixture of cases. |
| Import.OtherSpellingsAreNotIndexed | crates/cxs-sessions/src/lib.rs:455-456 | Every other spelling of the extension gives a path that may be imported and is never indexed. |
| Import.IndexHoldsFound | crates/cxs-sessions/src/lib.rs:420-429 | The index exists exactly when all indexed rollouts are readable, and holds exactly their thread ids. |
| Import.ImportConserves | crates/cxs-sessions/src/lib.rs:112-135 | On success imported + duplicates + conflicts is the number of remote files; in every outcome all earlier files keep their contents, and there are as many new files as imported. |
| ImportOutcome.ImportExactly | crates/cxs-sessions/src/lib.rs:98-136 | An import succeeds if and only if every indexed local rollout and every remote file can be read and none that is to be written is blocked. It has then written exactly the remote files of new threads at free paths, rewritten, kept all others, and counted each under what became of it. |
| Import.EncryptedCounted | crates/cxs-sessions/src/lib.rs:118-120 | On success the encrypted count is the number of remote files that contain the marker, duplicates included. |
| Import.ConflictsNeedExistingPath | crates/cxs-sessions/src/lib.rs:126-130 | Distinct remote paths at which nothing exists locally cause no conflict. |
| Import.DuplicatesNeedKnownThread | crates/cxs-sessions/src/lib.rs:121-124 | Remote files of distinct threads that are not known locally cause no duplicate. |
| Import.NewFilesAreImports | crates/cxs-sessions/src/lib.rs:126-133 | Every new file is a remote file with only its provider rewritten, of a thread the indexer did not find before. |
| Import.ImportKeepsIdsDistinct | crates/cxs-sessions/src/lib.rs:104-124 | If the indexed rollouts had pairwise distinct thread ids, they still have, in every outcome. |
| Import.ImportAgainAddsNothing | crates/cxs-sessions/src/lib.rs:98-136 | Repeating a successful import succeeds, imports nothing and changes no file. |
| Import.ImportedIsFoundExactly | crates/cxs-sessions/src/lib.rs:440-461 | After a successful import the next index finds an imported thread exactly when the extension of its file is in lower case. |
| Import.CodexHome.IndexLocalSessions | crates/cxs-sessions/src/lib.rs:420-429 | The loop computes the specified index or fails with it. |
| Import.CodexHome.ImportStagedRollouts | crates/cxs-sessions/src/lib.rs:98-136 | The loop has the specified result, report and effect on the files, also when it stops halfway. |
| Repair.FailureChangesNothing | crates/cxs-sessions/src/lib.rs:188-206 | If the repair fails anywhere (copy, snapshot, lock, column, k-th replacement, k-th row, commit) and the restore does not, every file and every row equals its value before. |
| Repair.NoOtherDamage | crates/cxs-sessions/src/lib.rs:258-311 | In every outcome, even a failing restore, each file is the original or its rewrite, files outside the listing are untouched, none appears or vanishes, and rows change only on success. |
| Repair.BackupHolds | crates/cxs-sessions/src/lib.rs:617-625 | The backup holds exactly the original contents of the changed files. |
| Repair.SuccessIs | crates/cxs-sessions/src/lib.rs:280-310 | After a successful repair every listed file is its aligned form, and every row is the old one with the updates for its thread folded in, in order. |
| RepairOutcome.OutcomeExactly | crates/cxs-sessions/src/lib.rs:142-207 | A repair succeeds if and only if every listed rollout and the table can be read, and there is nothing to do or no step that takes place fails (copy k, snapshot, busy, column, replacement k of a file that needs it, row update k, commit); and it ends half done if and only if a step after the backup fails and so does the restore. |
| RepairOutcome.BackupExactlyTodo | crates/cxs-sessions/src/lib.rs:617-625 | A repair that succeeds has made a backup if and only if there was something to do, of exactly the rollouts worked on, as they were. |
| RepairOutcome.ReportCountsRows | crates/cxs-sessions/src/lib.rs:288-310 | The reported number of updated rows is the number of rollouts worked on whose thread has a row. |
| Repair.LastKnownDirectory | crates/cxs-sessions/src/lib.rs:292-297 | A row ends with the cwd of the last changed rollout of its thread that knows one, and keeps its own if there is none. |
| Repair.SuccessAligns | crates/cxs-sessions/src/lib.rs:142-207 | After a successful repair every listed rollout has the target provider, with its thread id, cwd and later records unchanged, and the row of every listed thread has that provider. |
| Repair.ReportCountsFiles | crates/cxs-sessions/src/lib.rs:280-286 | The reported number of updated rollouts is the number of files whose contents changed. |
| Repair.RowSettles | crates/cxs-sessions/src/lib.rs:288-305 | After the updates a row disagrees with a rollout of its thread exactly when, before, two rollouts of that thread disagreed on a known cwd and the row had a cwd or was about to get one. |
| Repair.ConvergesExactly | crates/cxs-sessions/src/lib.rs:209-256 | A second run with the same provider finds nothing to do exactly when no thread of the table clashed in that sense before the first run. |
| Repair.DistinctThreadsConverge | crates/cxs-sessions/src/lib.rs:142-207 | With pairwise distinct thread ids a second run changes nothing and makes no backup, whatever would go wrong in it. |
| Repair.TwoDirectoriesAlternate | crates/cxs-sessions/src/lib.rs:288-305 | Two rollouts of one thread with different cwd: each run moves the row to the other directory and makes a backup, and two runs return to the start. |
| Repair.CodexHome.CollectRepairChanges | crates/cxs-sessions/src/lib.rs:209-256 | The loop collects the specified changes or fails on an unreadable row. |
| Repair.CodexHome.BackupRollouts | crates/cxs-sessions/src/lib.rs:617-625 | The loop makes the specified backup or fails. |
| Repair.CodexHome.ApplyRepair | crates/cxs-sessions/src/lib.rs:258-311 | Replacing files and updating rows in a transaction has the specified effect, also when it stops halfway. |
| Repair.CodexHome.RestoreRollouts | crates/cxs-sessions/src/lib.rs:627-634 | The loop restores as specified, also when it stops halfway. |
| Repair.CodexHome.RepairLocal | crates/cxs-sessions/src/lib.rs:142-207 | The whole repair, with every fault, has the specified outcome and effect. |
| Lifecycle.InstallScriptIs | crates/cxs-install/src/lib.rs:1040-1067 | The activation makes the release current with its own files active, keeps every other release, and keeps links and directories consistent. |
| LifecycleRecord.ScriptsExactly | crates/cxs-install/src/lib.rs:581-626 | When the install, rollback and uninstall scripts succeed, if and only if, and all they change; in particular an existing directory of the release is kept. |
| LifecycleRecord.RunDescribes | crates/cxs-cli/src/main.rs:634-787 | After any commands with any outcomes, an installed profile names the current release of the account and the target, source and executor path of its active files, if it did so at the start. |
| LifecycleRecord.ReadyExactly | crates/cxs-cli/src/main.rs:634-787 | After any commands with any outcomes, the profile is ready if and only if the last command that was neither refused nor an undone rollback was done, or there was none and it was ready before. |
| LifecycleRecord.VerifiesOnlyActive | crates/cxs-cli/src/main.rs:1044-1080 | After any commands with any outcomes, verification of an installed profile that names a source and executor path accepts metadata if and only if they are those of the active release, with the name of this profile and up to the target. |
| LifecycleRecord.StatusTells | crates/cxs-cli/src/main.rs:634-787 | What each result means for the profile: done is ready, unverified and stuck are installed, refused changes nothing, undone restores the profile, except that undoing an install over an installed profile leaves it installed. |
| LifecycleRecord.InstallResult | crates/cxs-cli/src/main.rs:634-715 | The result of an install as a function of what happened and of owner, links and status before. |
| LifecycleRecord.RollbackResult | crates/cxs-cli/src/main.rs:746-787 | The result of a rollback likewise; it is refused without a previous release. |
| LifecycleRecord.HomeTells | crates/cxs-cli/src/main.rs:634-787 | The home of the profile is that of the last install that took effect and was not undone to a prepared profile; a rollback keeps it; the name never changes. |
| LifecycleRecord.StagedIs | crates/cxs-install/src/lib.rs:296-360 | What a new release says: the profile, what was transferred, its source and where the executor will be. |
| Lifecycle.RunVerifies | crates/cxs-cli/src/main.rs:634-787 | When the account holds no release of another profile, verification succeeds after any commands with any outcomes. |
| Lifecycle.RollbackVerifiesExactly | crates/cxs-cli/src/main.rs:746-787 | A rollback that takes effect and is not undone leaves metadata that verify if and only if, before it, the release behind the link previous was made for this profile. |
| Lifecycle.AlwaysVerifiesExactly | crates/cxs-cli/src/main.rs:634-787 | An installed profile verifies after every sequence of commands with any outcomes if and only if at the start previous leads to no foreign release, and current only where the profile is not installed, nothing is there to roll back to and another profile owns the account. |
| Lifecycle.RollbackUndoneExactly | crates/cxs-cli/src/main.rs:765-778 | A rollback that fails verification and is rolled back leaves profile, links and releases as before, and the active files too exactly when they were those of the current release. |
| Lifecycle.UndoneRollbackActivates | crates/cxs-cli/src/main.rs:717-778 | After two undone first installs, both reachable by commands, an undone rollback leaves files active where none were. |
| Lifecycle.RollbackUndoneWhenInstalled | crates/cxs-cli/src/main.rs:746-787 | For every profile that is not prepared, that recovery restores the whole state. |
| Lifecycle.FailedInstallReturnsExactly | crates/cxs-cli/src/main.rs:732-743 | A failed install recovered by rollback makes the earlier release current and described again exactly when another release was installed; reinstalling the current release ends at the previous one. |
| Lifecycle.FailedFirstInstallLeavesRelease | crates/cxs-cli/src/main.rs:722-730 | A failed first install that is undone restores the prepared profile and removes the active files, and leaves the release current on the remote. |
| Lifecycle.Machines.RemoteRollback | crates/cxs-install/src/lib.rs:581-607 | The script exchanges the links and activates the files of the release now current, or fails without effect. |
| Lifecycle.Machines.RemoteInstall | crates/cxs-install/src/lib.rs:1040-1068 | The script activates the release, keeping a directory of that name, or fails without effect. |
| Lifecycle.Machines.RemoteUninstall | crates/cxs-install/src/lib.rs:609-626 | The script removes the active files and the owner, or fails without effect. |
| Lifecycle.Machines.RecoverFailedInstall | crates/cxs-cli/src/main.rs:717-744 | The step-by-step recovery has the specified effect. |
| Lifecycle.Machines.Install | crates/cxs-cli/src/main.rs:634-715 | The step-by-step command has the specified effect and result. |
| Lifecycle.Machines.Rollback | crates/cxs-cli/src/main.rs:746-787 | The step-by-step command has the specified effect and result. |
| Download.CompletionEvent | crates/cxs-install/src/lib.rs:762-844 | At most three runs of curl; a completion event is the last event if there is one; and the download returns Ok exactly when there is one and curl's error output could be read afterwards. |
| Download.CompletedYetFailed | crates/cxs-install/src/lib.rs:840-842 | A complete transfer with unreadable error output emits the completion event and returns an error. |
| Download.RetriesExactly | crates/cxs-install/src/lib.rs:762-781 | Another run of curl follows if and only if fewer than three took place and the last exited with 5, 6, 7, 18, 28, 52, 55 or 56, or with 22 and one of the statuses 408, 429, 500, 502, 503, 504, and its error output could be read. |
| Download.EventsExactly | crates/cxs-install/src/lib.rs:783-844 | The callback is told every look at the transfer and one last look at each exit, complete exactly for exit code 0, in order, and nothing else. |
| Download.FileIsPrefix | crates/cxs-install/src/lib.rs:807-814 | If the runs of curl that take place honour ranges, the file is a prefix of the payload after every one of them and never shrinks from one to the next; it is the payload when the download returns Ok. |
| Download.Downloader.CurlDownloadAttempt | crates/cxs-install/src/lib.rs:783-844 | One run of curl emits its events in order and leaves its file, or fails. |
| Download.Downloader.DownloadFile | crates/cxs-install/src/lib.rs:762-781 | The loop has the specified outcome, and its end is never reached. |
| Shell.QuotedReadsBack | crates/cxs-install/src/lib.rs:1168-1170 | The shell's quoting rules read shell_quote(v), at the end of a command or before anything that ends a word, as the single word v exactly when v holds no NUL. |
| Shell.CleanupRemoteTemp | crates/cxs-install/src/lib.rs:910-916 | The cleanup script unlinks exactly the given paths, in order, if and only if none holds a NUL or is an option, that is, begins with a hyphen and has more. |

## Left out

- Download.CompletionEvent: a completion event does not imply Ok, because reading curl's error output can fail after it; the lemma gives the exact condition.
- RelayStarts.StartsAreTheClients: says nothing once more than 2^64 - 1 thread starts were forwarded, when the sequence counter saturates and ids repeat.
- RelayThreads.ThreadStartsAccounted: says nothing about ids and counts then either.
- RelayInterleave.InterleavingIrrelevant: the host does not answer the shadow again and the entry does not expire between the reads; either ends the gathering it speaks of.
- RelayRegistration.RegistrationLedger: holds for an App Server that answers each internal request once and in order; without that the phase can move back.
- Lifecycle.AlwaysVerifiesExactly: one profile acts on the account; other profiles appear only as releases already there.
- Repair.ConvergesExactly: the threads table is not altered by others between collecting and the transaction.
- The routing tables are parameters: which methods go to the host and which host notifications pass.
- A line read that another branch of `select!` cancels loses its buffered bytes; here each read runs to completion.
- The state a turn had reached when it failed, apart from the frames it sent; in particular a thread recorded in a turn whose merge then fails.
- Real time: the 50 ms polls, the 3 s metadata timeout, retry pauses and SQLite's busy timeout.
- Yamux, WebSocket framing, sockets, SSH, processes and signals, handshakes, reconnect delays and argument filtering.
- Receiving and unpacking the remote archive, its size limits, provider and host validation, locating the state database, and the encrypted count of a repair.
- Symbolic links, permissions, fsync, process crashes and concurrent writers to the Codex home; a non-file at an import destination is a parameter.
- Non-UTF-8 file names.
- The parts of the install script before activation, the shell profile, the saved original codex, legacy executor paths, purging, and checks that run after the activation.
- The executor sources managed-runtime and remote-existing, which this version of the installer no longer produces.
- The last bytes of curl's error text and the parsing of its header file; sizes and statuses it yields are inputs.
- Platform tables, checksum manifests, tar, uploads, probes, status output and the rendering of SSH configuration.
