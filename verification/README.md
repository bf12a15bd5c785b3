# signond: a verified model

This project models the state machines and the storage of signond, the single
sign-on daemon, and proves what they keep over whole runs. `dafny verify
dfyconfig.toml` checks all of it.

Most components appear twice: as a specification on values (a state, one function
for each slot or operation, runs), about which the theorems speak, and as a class
whose methods change fields in place, loop where the source loops, and are proved to
compute exactly that specification. Choices that the source leaves to hash tables
(iteration order, "any" key) are arbitrary in the model, and the answers of system
calls, plugins and clients are parameters or events.

| part | files |
|---|---|
| requests of one session: order, replies, liveness | SessionQueue, SessionOrder, SessionEffects, SessionAnswers, SessionLiveness, SignonSessionCore, SignonDisposable |
| the plugin process, alone and with its session | PluginProxy, PluginSignals, PluginSession |
| which session serves which identity; mechanisms | SessionRegistry, MechanismFilter |
| metadata tables | Identity, MetaData, MetaDataDB |
| secrets, their cache, both behind one interface | Secrets, SecretsCache, Vaults, CredentialsDB, StoredCredentials |
| what an authentication does to the store | Authentication |
| encrypted storage and its keys | EncryptedStorage, CryptoManager, MountDiscipline, KeySlots, KeyAuthorization, KeyOutcomes, KeyReadiness |
| blobs between processes; backup; client calls | BlobIO, Backup, Restore, AsyncProxy, AsyncDelivery |
| lists and optional values, used by all | Lists, Options |

## Where the code does less than it seems to

Each of these is a theorem about all inputs: an if-and-only-if that says exactly when the
code does what it should, or what it does instead.

- Session: startNewRequest clears the cancelled flag even while a request is active
  (src/signond/signonsessioncore.cpp:893), so a cancelled request can get a second
  reply; a stray plugin answer while idle can drop a request without any reply
  (SessionAnswers). A dialog request while idle loses the wake-up, until another start
  event is posted; a plugin answer that overtakes the slot of a finished dialog can make
  it fault; and the collector can drop a request that waits for the credentials system
  (SessionLiveness). A busy session that is auto-destructible would be lost to the
  collector (SignonDisposable).
- Plugin: an error after a crash, an exit or a broken blob is not put on record, so one
  after the result emits a second terminal signal; a read notification without data
  disconnects the slot for good, and so does an answer of more than one page, since the
  notifier that should bring the other pages is a disabled one on the daemon's own
  input (src/signond/pluginproxy.cpp:539-543) (PluginProxy, BlobIO).
- Registry: setId from one stored id to another leaves the old key behind
  (SessionRegistry.SetIdConsistency).
- Mechanisms: a single allowed mechanism padded with blanks is refused; the comment
  says that single mechanisms have been handled by then, but only unpadded ones
  have, and the code is followed (MechanismFilter.AcceptedExactlyWhen).
- Cache: credentials whose last deferred write is empty are not emptied by the flush
  (Vaults.DeferredRefinesDirect); an older entry of an identity overwrites what was
  stored since, and one of a removed identity is stored again (StoredCredentials).
- Authentication: for an identity removed meanwhile a new one is inserted; with a
  secret user name, a name or a password entered alone while the secrets database is
  closed erases the other one (Authentication).
- Storage: the result of mount() is dropped and umount reports success always, so a
  revoked key can stay in a keychain without a slot; removeEncryptionKey lacks braces
  and reports success without removing; a new keychain entry may overwrite another; a
  setup that fails forgets all authorised keys; a last key removed for good is used to
  mount again, which leaves the storage open; disabling a key can go through a null
  pointer (MountDiscipline, KeySlots, KeyAuthorization).
- Blobs: a buffer that overshoots stands still; an empty blob reads into whatever
  follows; without a notifier, pages that arrive together are read only in part
  (BlobIO).
- Backup: the list of files holds the encrypted file by its absolute path
  (src/extensions/cryptsetup/crypto-manager.cpp:399-402), and copying out deletes that
  file instead of copying it; a file that is not in the backup survives a restore when a
  stale ".bak" exists (Restore).
- Client calls: cancelling a call made in the Invalid state finishes it twice; a call
  sent back to the queue of a ready or invalid proxy waits until the status is set again
  (AsyncProxy).

## Model

| member | source | states |
|---|---|---|
| SessionOrder.FifoAndConservation | src/signond/signonsessioncore.cpp:223-285 | On every run, with no assumption on the environment: the active request is the queue head and the last one started, requests start in arrival order, and the arrivals are exactly those queued plus those that left, each once |
| SessionAnswers.MovesKeepAccount | src/signond/signonsessioncore.cpp:521-614 | Whatever one step may do to a request keeps its reply account in order, in every phase of its life |
| SessionAnswers.StepMoves | src/signond/signonsessioncore.cpp:889-916 | Each slot moves each request along one edge of its life cycle: arrive, start, be cancelled, be answered, leave |
| SessionAnswers.AnsweredExactlyOnce | src/signond/signonsessioncore.cpp:240-285 | A request that left was answered at least once if and only if no stray plugin answer dropped it, and exactly once if and only if moreover its cancellation while running was not followed by a second cancel or a dispatched start event |
| SessionAnswers.UnansweredWhileWaiting | src/signond/signonsessioncore.cpp:223-285 | A waiting request has had no reply |
| SessionAnswers.DoubleAnswerAndSilentDrop | src/signond/signonsessioncore.cpp:889-916 | The bad run: clearing the cancelled flag while a request is active and a stray answer give one request two replies and another none |
| SessionEffects.CancelAnswersTheFirst | src/signond/signonsessioncore.cpp:240-285 | A cancellation answers the first request that has the key and no other; it leaves the queue, in order, unless it is running, and then it is flagged and its dialog dropped; nothing else changes |
| SessionEffects.UnknownKeyCancelsNothing | src/signond/signonsessioncore.cpp:252-254 | A key that no request has changes nothing |
| SessionEffects.RepliesExactly | src/signond/signonsessioncore.cpp:521-614 | An event gives a reply of a kind to a request if and only if it causes it: the cancellation by its key, a start that fails, a result or error of the plugin while it is the uncancelled head; and never two |
| SessionEffects.EveryReplyHasACause | src/signond/signonsessioncore.cpp:521-614 | On every run each reply to each request has such a cause at some point of the run |
| SessionEffects.QueueExactly | src/signond/signonsessioncore.cpp:223-285 | A step takes out of the queue exactly the request that is cancelled while waiting, fails to start or is answered, and adds exactly the one that arrives |
| SessionEffects.StartsExactly | src/signond/signonsessioncore.cpp:889-916 | A request starts if and only if a start event is dispatched with a request queued, none active and no dialog waiting; it is the head, and stays active until the plugin answers |
| SessionEffects.NothingStartsBeforeReady | src/signond/signonsessioncore.cpp:223-238 | On every run without the ready signal, with a quiet plugin, no start event is posted and nothing starts |
| SessionEffects.DialogWaitsExactly | src/signond/signonsessioncore.cpp:668-741 | When a dialog waits, and when its answer is still to be handled: both in terms of what set it off and what can end it |
| SessionEffects.DestroyedOnlyWhenUnused | src/signond/signondisposable.cpp:110-132 | On every run, when the collector destroys a session every use of it, and its creation, is longer ago than the limit |
| SessionLiveness.StepKeepsAwake | src/signond/signonsessioncore.cpp:668-797 | Every slot of any session that is awake keeps it so, if and only if it is not a dialog request for a request that has not started |
| SessionLiveness.NoLostWakeUp | src/signond/signonsessioncore.cpp:889-941 | On every run without such a dialog request, overtaking answers and faults included: credentials system ready, nothing active and a non-empty queue imply a posted start event; an idle session that is not auto-destructible has one posted; an active one is alive, has a request and is not auto-destructible |
| SessionLiveness.ReadySignalWakes | src/signond/signonsessioncore.cpp:938-941 | On those runs, once the ready signal has come a waiting request has a start event posted unless another one is active |
| SessionLiveness.StepKeepsHealth | src/signond/signonsessioncore.cpp:668-797 | Every slot keeps the session awake, without a fault, and listed exactly while alive, if and only if it is neither such a dialog request nor a plugin answer that overtakes the slot of a finished dialog |
| SessionLiveness.NoFault | src/signond/signonsessioncore.cpp:835-852 | On every run without the two, the dialog slot never meets an empty queue, and the session leaves the list of disposable objects exactly when it is destroyed |
| SessionLiveness.DestructionDropsNoReadyRequest | src/signond/signondisposable.cpp:110-132 | On every run without such a dialog request, the idle collector takes down waiting requests only when the credentials system is not ready or a start event is still undelivered |
| SessionLiveness.CollectorDropsWaitingExactlyWhen | src/signond/signondisposable.cpp:119-126 | It takes down waiting requests if and only if the session is auto-destructible and unused for too long while they wait, and neither lost to the list, faulted nor left with the watcher of an overtaken dialog, which a healthy one never is |
| SessionLiveness.UnreadyRequestIsDropped | src/signond/signonsessioncore.cpp:236-237 | The run in which that happens: a request before the credentials system is ready is dropped without a reply |
| SessionLiveness.IdleDialogStalls | src/signond/signonsessioncore.cpp:668-741 | A dialog request to an idle session with a request waiting stalls that request, once its start events are used up, if and only if no earlier cancellation suppresses the dialog |
| SessionLiveness.StallEndsExactlyWhen | src/signond/signonsessioncore.cpp:889-907 | A stall ends if and only if a new request, the ready signal or a stray answer posts another start event, or the only waiting request is cancelled |
| SessionLiveness.UiSlotFaultsExactlyWhen | src/signond/signonsessioncore.cpp:835-852 | The slot of a finished dialog faults if and only if the queue is empty |
| SessionLiveness.OvertakenUiSlotFaults | src/signond/signonsessioncore.cpp:835-852 | A plugin answer that overtakes that slot brings this about if and only if it answers the last request of the queue |
| SessionLiveness.OvertakingCancelIsHarmless | src/signond/signonsessioncore.cpp:259-267 | A cancellation that overtakes that slot leaves no fault and a healthy session |
| SessionQueue.FirstWithKey | src/signond/signonsessioncore.cpp:244-250 | The position of the first request with the key, and none before it has it |
| SignonSessionCore.Core.constructor | src/signond/signonsessioncore.cpp:75-96 | A fresh session: empty queue, auto-destructible, in use |
| SignonSessionCore.Core.Process | src/signond/signonsessioncore.cpp:223-238 | Enqueues at the tail and posts a start event if the credentials system is ready |
| SignonSessionCore.Core.Cancel | src/signond/signonsessioncore.cpp:240-285 | Finds the first request with the key in a loop; answers it; takes it out unless it is the active head, which is only flagged |
| SignonSessionCore.Core.IndexOf | src/signond/signonsessioncore.cpp:244-250 | The loop finds the first request with the key, or the length |
| SignonSessionCore.Core.FinishRequest | src/signond/signonsessioncore.cpp:521-526 | The head leaves, nothing is active, and a start event is posted |
| SignonSessionCore.Core.DispatchStart | src/signond/signonsessioncore.cpp:889-916 | One start event: clears the cancelled flag in any case, and starts the head only if nothing is active and no dialog waits |
| SignonSessionCore.Core.StartProcess | src/signond/signonsessioncore.cpp:313-384 | The head becomes active; if the plugin cannot be started it is answered with an error and leaves at once |
| SignonSessionCore.Core.ProcessAnswer | src/signond/signonsessioncore.cpp:528-614 | A result or error answers the head unless it is cancelled, and the head leaves |
| SignonSessionCore.Core.ProcessUiRequest | src/signond/signonsessioncore.cpp:668-768 | A dialog or refresh request creates a watcher unless cancelled or the queue is empty |
| SignonSessionCore.Core.QueryUiSlot | src/signond/signonsessioncore.cpp:835-887 | The finished dialog reads the head of the queue and drops the watcher |
| SignonSessionCore.Core.CollectUnused | src/signond/signondisposable.cpp:110-132 | The effect of the collector on one session: destroyed if inactive and auto-destructible, kept in use if busy, and off the list in both cases |
| SignonDisposable.Collector.constructor | src/signond/signondisposable.cpp:34-51 | An empty list |
| SignonDisposable.Collector.DestroyUnused | src/signond/signondisposable.cpp:110-132 | The loop over the list as it was at the start, and the notification timer when none is left |
| SignonDisposable.Collector.Destroy | src/signond/signonsessioncore.cpp:918-936 | A busy object refuses and counts as used |
| SignonDisposable.SweepIsPointwise | src/signond/signondisposable.cpp:119-126 | The sweep treats every object by its own state, whatever the order of the list |
| SignonDisposable.LostExactlyWhen | src/signond/signondisposable.cpp:119-126 | An object lives on without ever being looked at again if and only if it was busy and unused at a sweep |
| SignonDisposable.SweepOfSession | src/signond/signondisposable.cpp:110-132 | For a session the sweep is the step of the session machine |
| PluginProxy.Plugin.constructor | src/signond/pluginproxy.cpp:73-104 | A proxy that is not processing and has no result |
| PluginProxy.Plugin.Process | src/signond/pluginproxy.cpp:177-195 | Hands a request over, forgetting the earlier result; fails without a running process |
| PluginProxy.Plugin.ProcessUi | src/signond/pluginproxy.cpp:197-213 | The answer to a dialog request sets the processing flag again, even after the result |
| PluginProxy.Plugin.ProcessRefresh | src/signond/pluginproxy.cpp:215-231 | The same for a refresh |
| PluginProxy.Plugin.BlobIOError | src/signond/pluginproxy.cpp:267-278 | Emits an error that is not put on record, and connects the slot again |
| PluginProxy.Plugin.OnReadStandardOutput | src/signond/pluginproxy.cpp:292-334 | Handles every message that is available, recursively, up to one that stops: an unknown code flushes the channel, a broken blob is an error, and a blob that is not whole with its first page leaves the slot disconnected, as does a notification without data; the recursion is bounded by the remaining input |
| PluginProxy.Plugin.HandlePluginResponse | src/signond/pluginproxy.cpp:341-444 | Emits the signal of a message that is still expected, with the user interaction policy applied, and goes on reading |
| PluginProxy.Plugin.OnExit | src/signond/pluginproxy.cpp:451-466 | An exit during processing, or a crash, emits an error that is not put on record |
| PluginProxy.DrainEmits | src/signond/pluginproxy.cpp:341-444 | Exactly the signals of the messages up to the first result or error get through |
| PluginProxy.OnlyLastIsTerminal | src/signond/pluginproxy.cpp:341-444 | Among them at most the last one is a result or error, and it is one if and only if the input had one |
| PluginSignals.ReadingMatches | src/signond/pluginproxy.cpp:292-444 | From any state: the messages handled are those before the first that stops; those up to the first result or error give one signal each, in order, the one that stands for them; then at most the error of a broken blob follows; and once the result is there only that error is emitted |
| PluginSignals.NoDialogWithoutInteraction | src/signond/pluginproxy.cpp:368-394 | On every run after a request that forbids user interaction, no dialog opens before the next request |
| PluginSignals.PolicyDecidesDialog | src/signond/pluginproxy.cpp:368-398 | On every run, a dialog message that comes while the result is expected opens a dialog if the policy of the request lets it, and is refused otherwise: never without interaction, under validation if it asks for no credentials or brings a captcha, and else always |
| PluginSignals.RefusedDialogResumes | src/signond/pluginproxy.cpp:388-394 | The proxy goes on processing if and only if it did or the dialog was refused |
| PluginSignals.ExitBeforeResultIsReported | src/signond/pluginproxy.cpp:451-466 | On every run after a request in which no result, error or exit has come, an exit is reported, crash or not |
| PluginSignals.ExitAfterResultIsQuiet | src/signond/pluginproxy.cpp:451-466 | After the result an exit without a crash is not |
| PluginSignals.ExitAfterDialogIsReported | src/signond/pluginproxy.cpp:197-231 | But it is again once a dialog has been answered |
| PluginSignals.ReportedOnce | src/signond/pluginproxy.cpp:451-466 | An exit, or a notification without data, is reported once |
| PluginProxy.StepKeepsTrace | src/signond/pluginproxy.cpp:292-466 | From any trace in order, a step keeps it in order if and only if it does not speak after a result or error |
| PluginProxy.FailureDisturbs | src/signond/pluginproxy.cpp:292-466 | While trace and record agree, a step disturbs the trace if and only if the process fails and a result is on record by then, and one of the two if and only if it fails: by a crash, an exit while processing, a notification without data or a broken blob |
| PluginProxy.OnlyFailuresDisturb | src/signond/pluginproxy.cpp:177-195 | A process that never fails never speaks out of turn, whatever messages it sends |
| PluginProxy.CrashAfterResult | src/signond/pluginproxy.cpp:451-466 | The bad run: a crash after the result emits a second terminal signal |
| PluginProxy.DeafExactlyWhen | src/signond/pluginproxy.cpp:292-330 | The slot stays connected to the read notification if and only if no notification comes without data and no blob is unfinished with its first page |
| PluginProxy.EmptyReadDeafens | src/signond/pluginproxy.cpp:294-302 | From then on nothing the plugin says is read again |
| PluginProxy.OneTerminalPerProcess | src/signond/pluginproxy.cpp:177-466 | Over every run, failures and answered dialogs included: at most one result or error between two process calls and nothing after it, if and only if no event speaks out of turn |
| PluginSession.ProxyKeepsPluginOrderly | src/signond/pluginproxy.cpp:341-444 | Session and proxy together: answers and dialog requests reach the session only while a request is active, for every plugin that waits for its first request and fails, if at all, while a request is active, until a fault stops the session |
| PluginSession.ActiveRequestHears | src/signond/signonsessioncore.cpp:521-614 | A result, an error or a failure of the plugin while a request is active takes that request out, and answers it in kind unless it is cancelled; nothing else the plugin says does either |
| PluginSession.ActiveRequestWaits | src/signond/signonsessioncore.cpp:668-741 | It comes to wait in a dialog if and only if the plugin asks for one that the policy allows, or for a refresh, and the request is not cancelled |
| PluginSession.EveryRequestIsAnswered | src/signond/signonsessioncore.cpp:521-614 | End to end, plugins that crash while a request is active and answers that overtake a dialog included: every request that leaves such a session has been answered, exactly once if and only if its cancellation while running was not followed by a second one or a start event, and no wake-up is lost |
| SessionRegistry.SessionNameIsInjective | src/signond/signonsessioncore.cpp:70-73 | Two sessions have the same name only with the same id and method |
| SessionRegistry.SessionCoreIsForCaller | src/signond/signonsessioncore.cpp:109-138 | The session handed out has the requested id and method; for a stored id that is served already it is the one that is there; otherwise it is a new one, or null if and only if the plugin does not load; no other session changes |
| SessionRegistry.SetIdReaches | src/signond/signonsessioncore.cpp:287-317 | A session gets the id unless another session serves it already with the same method; no other session changes |
| SessionRegistry.ReapingTakesOne | src/signond/signonsessioncore.cpp:918-936 | A session that is not busy goes, and it alone; stopping the daemon takes all |
| SessionRegistry.SetIdConsistency | src/signond/signonsessioncore.cpp:287-311 | setId keeps each live session in exactly the registry of its id if and only if it does not jump from one stored id to another free one |
| SessionRegistry.JumpMisleads | src/signond/signonsessioncore.cpp:300-308 | The bad run: after a jump from identity 1 to 2, whoever asks for 1 gets the session of 2 |
| SessionRegistry.StepConsistency | src/signond/signonsessioncore.cpp:918-936 | The same for every operation on the registries, destruction and the daemon stop included |
| SessionRegistry.OneSessionPerIdentity | src/signond/signonsessioncore.cpp:109-138 | On every run without such a jump there is one session for each stored id and method |
| SessionRegistry.Sessions.constructor | src/signond/signonsessioncore.cpp:109-138 | Empty registries |
| SessionRegistry.Sessions.Find | src/signond/signonsessioncore.cpp:109-138 | Gives the registered session or makes one; null without a plugin |
| SessionRegistry.Sessions.AssignId | src/signond/signonsessioncore.cpp:287-311 | Moves a session between the registries as setId does, stale key included |
| SessionRegistry.Sessions.DropNonStored | src/signond/signonsessioncore.cpp:307-307 | Removes one occurrence from the list |
| SessionRegistry.Sessions.DestroyCore | src/signond/signonsessioncore.cpp:918-936 | Unregisters a session under its current id, unless it is busy |
| MechanismFilter.CheckMethodAndMechanism | src/signond/signonidentityinfo.cpp:75-121 | The verdict and the output parameter, all branches |
| MechanismFilter.Filter | src/signond/signonidentityinfo.cpp:103-108 | The allowed parts in the order of the request |
| MechanismFilter.SplitUndoesJoin | src/signond/signonidentityinfo.cpp:95-116 | Splitting joined words gives the words back |
| MechanismFilter.AcceptedIsAllowed | src/signond/signonidentityinfo.cpp:75-121 | When a list applies, an accepted result is itself allowed or a blank-joined, order-preserving subsequence of the request with exactly its allowed parts |
| MechanismFilter.RecheckIsIdempotent | src/signond/signonidentityinfo.cpp:75-121 | Checking an accepted result again accepts it unchanged |
| MechanismFilter.AcceptedExactlyWhen | src/signond/signonidentityinfo.cpp:75-121 | Which requests pass, as an if-and-only-if; a padded single mechanism does not |
| MetaData.RoundTrip | src/signond/credentialsdb.cpp:716-795 | Reading back what was written gives the same methods and mechanism sets (empty ones included), access list, non-empty owners, realms, flags, caption and type, for a new and for an existing id |
| MetaData.OthersAreUntouched | src/signond/credentialsdb.cpp:827-980 | Every other identity reads back as before |
| MetaData.TokensUnlockAllOrNothing | src/signond/credentialsdb.cpp:677-698 | After an update a token gets every method if it is empty or in the access list, and none if not |
| MetaData.FlagsDecode | src/signond/credentialsdb.cpp:1185-1193 | The three flags read back independently |
| MetaData.UpdateStaysWellFormed | src/signond/credentialsdb.cpp:827-980 | Ids stay unique, in range and never dangling |
| MetaData.UpdateEffect | src/signond/credentialsdb.cpp:827-980 | Id, round trip, frame and well-formedness of one update together |
| MetaData.UnknownIdChangesNothing | src/signond/credentialsdb.cpp:827-980 | An id that is not in the table changes no identity, whatever the record holds; it is refused if and only if the record has realms, methods or access tokens |
| MetaData.RefusedUpdateLeavesOwners | src/signond/credentialsdb.cpp:860-980 | A refused update leaves owner rows of the unknown id behind if and only if it has no realms, for the owners whose tokens are known; its other rows are gone |
| MetaData.RemovalIsClean | src/signond/credentialsdb.cpp:982-997 | A removed identity is gone from every table, the others are as before |
| MetaDataDB.Database.constructor | src/signond/credentialsdb.cpp:376-624 | Empty tables |
| MetaDataDB.Database.UpdateCredentials | src/signond/credentialsdb.cpp:1185-1232 | Inserts or updates the one row; an unknown id changes no row; a secret user name is not stored |
| MetaDataDB.Database.InsertMechanisms | src/signond/credentialsdb.cpp:1155-1167 | Interns a list of mechanisms |
| MetaDataDB.Database.InsertMethods | src/signond/credentialsdb.cpp:1143-1169 | Interns the methods and mechanisms of a record, in any hash order |
| MetaDataDB.Database.UpdateRealms | src/signond/credentialsdb.cpp:1234-1257 | Replaces the realms of an existing identity, adds those of a new one, fails for an id that is not in the table |
| MetaDataDB.Database.InsertTokens | src/signond/credentialsdb.cpp:847-853 | Interns the tokens of the access list |
| MetaDataDB.Database.InsertOwnerTokens | src/signond/credentialsdb.cpp:855-864 | Interns the owners, empty names left out |
| MetaDataDB.Database.InsertTokenNames | src/signond/credentialsdb.cpp:847-864 | Interns the tokens of both lists |
| MetaDataDB.Database.InsertMethodRows | src/signond/credentialsdb.cpp:888-916 | The rows of one method and token: one for each mechanism, or one without |
| MetaDataDB.Database.InsertMethodAcl | src/signond/credentialsdb.cpp:884-944 | The rows of one method under every token, or under none |
| MetaDataDB.Database.InsertAcl | src/signond/credentialsdb.cpp:884-958 | The whole cross product, in any hash order |
| MetaDataDB.Database.InsertTokenAcl | src/signond/credentialsdb.cpp:946-958 | Token rows of an identity without methods |
| MetaDataDB.Database.InsertOwners | src/signond/credentialsdb.cpp:960-971 | Owner rows, empty names left out |
| MetaDataDB.Database.ReplaceRows | src/signond/credentialsdb.cpp:866-971 | Old rows of an existing identity go before new ones come |
| MetaDataDB.Database.WriteRecord | src/signond/credentialsdb.cpp:834-845 | Row, names and realms, with the refusal by a trigger |
| MetaDataDB.Database.WriteRows | src/signond/credentialsdb.cpp:847-971 | Tokens, access and owner rows, with the refusal by a trigger |
| MetaDataDB.Database.UpdateIdentity | src/signond/credentialsdb.cpp:827-980 | All the nested loops together are one update of the specification, or what a rollback by a trigger leaves |
| MetaDataDB.Database.Rollback | src/signond/credentialsdb.cpp:203-207 | The tables as they were |
| MetaDataDB.Database.Identity | src/signond/credentialsdb.cpp:716-795 | A record with the profile of the identity, lists in any order; a blank record for a missing id |
| MetaDataDB.Database.MethodId | src/signond/credentialsdb.cpp:700-714 | The id of a method name, or 0 |
| MetaDataDB.Database.InsertMethod | src/signond/credentialsdb.cpp:1171-1183 | A new method name gets a fresh id |
| MetaDataDB.Database.RemoveIdentity | src/signond/credentialsdb.cpp:982-997 | Deletes the rows of the identity from four tables |
| MetaDataDB.ListOf | src/signond/credentialsdb.cpp:317-335 | A query result as a list with exactly the rows |
| MetaDataDB.RealmList | src/signond/credentialsdb.cpp:737-739 | The realm rows as a list, repetitions kept |
| MetaDataDB.MethodLists | src/signond/credentialsdb.cpp:756-773 | A map of lists for a map of row sets |
| Secrets.StoreDataIsAllOrNothing | src/signond/default-secrets-storage.cpp:175-243 | Success depends only on the summed sizes, nulls included, being below 4096; then loadData gives exactly the non-null entries, otherwise the earlier ones; no other identity or method changes |
| Secrets.TakeOut | src/signond/default-secrets-storage.cpp:205-219 | The size sum does not depend on the order of iteration |
| Secrets.SecretsDB.constructor | src/signond/default-secrets-storage.cpp:285-307 | Opens over given tables |
| Secrets.SecretsDB.UpdateCredentials | src/signond/default-secrets-storage.cpp:88-115 | One row replaced |
| Secrets.SecretsDB.LoadCredentials | src/signond/default-secrets-storage.cpp:130-148 | The row, or empty strings |
| Secrets.SecretsDB.LoadData | src/signond/default-secrets-storage.cpp:150-173 | The rows of the identity and method |
| Secrets.SecretsDB.InsertRow | src/signond/default-secrets-storage.cpp:221-235 | One key added or replaced |
| Secrets.SecretsDB.StoreData | src/signond/default-secrets-storage.cpp:175-243 | The loop with its early exit and rollback stores all or nothing, with the exact bound |
| Secrets.SecretsDB.RemoveCredentials | src/signond/default-secrets-storage.cpp:117-128 | Credentials and data of the identity go |
| SecretsCache.MemoryCache.constructor | src/signond/credentialsdb.cpp:1289-1298 | An empty cache |
| SecretsCache.MemoryCache.LookupCredentials | src/signond/credentialsdb.cpp:44-56 | The cached user name and password, or empty strings |
| SecretsCache.MemoryCache.LookupData | src/signond/credentialsdb.cpp:58-61 | The cached data, or none |
| SecretsCache.MemoryCache.UpdateCredentials | src/signond/credentialsdb.cpp:63-74 | Replaces the credentials of an entry and keeps its data; id 0 is ignored |
| SecretsCache.MemoryCache.UpdateData | src/signond/credentialsdb.cpp:76-83 | Replaces the data of one method and keeps the rest |
| SecretsCache.MemoryCache.StoreToDB | src/signond/credentialsdb.cpp:86-117 | The flush, in any hash order, equals one simultaneous update of the tables |
| SecretsCache.MemoryCache.StoreEntry | src/signond/credentialsdb.cpp:93-115 | One entry: credentials if a field to be stored is not empty, then its data |
| SecretsCache.MemoryCache.StoreBlobs | src/signond/credentialsdb.cpp:106-115 | The data of one entry |
| SecretsCache.MemoryCache.Clear | src/signond/credentialsdb.cpp:119-122 | Empties the cache |
| Vaults.DeferredRefinesDirect | src/signond/credentialsdb.cpp:1318-1331 | Storing writes made while the database is closed and then opening it leave the same tables as writing directly, if and only if no last write empties stored credentials and no oversized last data hides a fitting one |
| Vaults.DeferredCredentials | src/signond/credentialsdb.cpp:86-117 | What opening makes of deferred credentials: the last write that is not empty, else what was stored |
| Vaults.DeferredRows | src/signond/credentialsdb.cpp:106-115 | What opening makes of deferred data: the last write if it fits, else what was stored |
| Vaults.OpenRunRows | src/signond/credentialsdb.cpp:1481-1504 | What direct writes make of the data: the last one that fits |
| Vaults.EmptyEntryOverwritesNothing | src/signond/credentialsdb.cpp:99-104 | A cached entry with both fields empty never overwrites what is stored |
| Vaults.OnlyStorablePasswordsPersist | src/signond/credentialsdb.cpp:1413-1437 | Over every interleaving of updates, openings, closings and removals a stored non-empty password was supplied for that identity by an update that allowed storing |
| CredentialsDB.Database.constructor | src/signond/credentialsdb.cpp:1289-1298 | A closed secrets database and an empty cache |
| CredentialsDB.Database.UpdateCredentials | src/signond/credentialsdb.cpp:1413-1437 | Metadata first, then secrets to the database or to the cache |
| CredentialsDB.Database.Credentials | src/signond/credentialsdb.cpp:1370-1396 | The record with its secrets, from the database when open and allowed, else from the cache |
| CredentialsDB.Database.StoreData | src/signond/credentialsdb.cpp:1481-1504 | Interns the method and stores in the database or the cache; the exact success condition |
| CredentialsDB.Database.LoadData | src/signond/credentialsdb.cpp:1463-1479 | What the database or the cache has |
| CredentialsDB.Database.OpenSecretsDB | src/signond/credentialsdb.cpp:1318-1331 | Flushes the cache and empties it; a failed initialisation leaves the database closed and the cache full |
| CredentialsDB.Database.CloseSecretsDB | src/signond/credentialsdb.cpp:1338-1341 | Only the open flag changes |
| CredentialsDB.Database.RemoveCredentials | src/signond/credentialsdb.cpp:1439-1449 | Refused while the secrets database is closed |
| StoredCredentials.ReadAfterWrite | src/signond/credentialsdb.cpp:1370-1437 | A record written for an identity comes back with its profile, user name and password, stored or not, with the secrets database open or closed; without secrets of its own it leaves those found before |
| StoredCredentials.WritingLeavesOthers | src/signond/credentialsdb.cpp:1413-1437 | What is read of any other identity stays |
| StoredCredentials.ReadAfterOpening | src/signond/credentialsdb.cpp:1318-1331 | After an opening, a password that may not be stored is forgotten, and any other is the one that waited in the cache or else the stored one |
| StoredCredentials.ReadAfterFailedOpening | src/signond/credentialsdb.cpp:1318-1326 | After a failed opening only the cache is read, whatever may be stored |
| StoredCredentials.StoredSurvivesOpening | src/signond/credentialsdb.cpp:1318-1331 | Secrets that may be stored are lost by the next opening if and only if they were written to the open database while the cache held others of that identity, or were empty and cached while others were stored |
| StoredCredentials.RemovalLeavesNoSecrets | src/signond/credentialsdb.cpp:1439-1449 | A removed identity reads as blank and leaves no secrets and no data in the secrets database; what is read of others stays |
| StoredCredentials.RemovedSecretReturnsExactlyWhen | src/signond/credentialsdb.cpp:1439-1449 | The next opening writes secrets for a removed identity again if and only if they were still in the cache, which a removal does not touch |
| StoredCredentials.DataReadAfterWrite | src/signond/credentialsdb.cpp:1463-1505 | Data stored for an identity and a method is loaded again: as it is while the database is closed, without null values and if it fits while it is open; all other data stays |
| StoredCredentials.UpdateKeepsDataKnown | src/signond/credentialsdb.cpp:1485-1495 | Updates keep data under known method names only; so do the other operations |
| Authentication.FinishAuthentication | src/signond/signonsessioncore.cpp:549-565 | Read, mark as validated, write back, through the store object |
| Authentication.AuthenticationIsNeutral | src/signond/signonsessioncore.cpp:549-565 | One authentication changes nothing but the validated flag and, the first time, a user name that is not secret; other identities are as before |
| Authentication.MissingIdentityIsRecreated | src/signond/signonsessioncore.cpp:549-565 | For an identity removed meanwhile it inserts a new one |
| Authentication.NeutralOverRuns | src/signond/signonsessioncore.cpp:549-565 | At every point of every run of authentications, data storing, openings and closings: methods, mechanisms, lists, realms, caption, type and storage flag read back unchanged; validated stays set; the user name is fixed from the first authentication on |
| Authentication.RewriteOnSecrets | src/signond/credentialsdb.cpp:1370-1437 | One authentication leaves the password entered, or the one on record, if and only if it does not erase it by a secret user name that goes to the cache alone; and the same for a secret user name erased by a password |
| Authentication.OpeningKeepsSecrets | src/signond/credentialsdb.cpp:1318-1331 | Opening and closing lose no secrets |
| Authentication.StepOnSecrets | src/signond/signonsessioncore.cpp:549-565 | Every step leaves the secrets that are due if and only if it does not lose them |
| Authentication.SecretsOverRuns | src/signond/credentialsdb.cpp:1370-1437 | At every point of every run that has lost none, for plain and secret user names: the password on record is the last one entered if storable, else the initial one, and a secret user name is the one entered first unless validated, else the initial one |
| Authentication.PlainNamesKeepPasswords | src/signond/credentialsdb.cpp:1370-1437 | With a plain user name, at every point of every run without exception, the password on record is the last one entered if storable, else the initial one |
| Authentication.DialogErasesTheOther | src/signond/signonsessioncore.cpp:549-565 | Both losses happen: what is entered while the secrets database is closed replaces both secrets, with nothing for what was not entered |
| MountDiscipline.UnmountReleases | src/extensions/cryptsetup/crypto-manager.cpp:345-381 | Unmounting from any stage, also after a mount call that failed unnoticed, gives back what is held except where a call fails, and reports exactly the failures other than umount |
| MountDiscipline.MountHoldsAllOrNothing | src/extensions/cryptsetup/crypto-manager.cpp:258-312 | A failing mount leaks nothing if and only if the releases of what it had got so far succeed; a successful one holds everything if and only if the unchecked mount call worked |
| MountDiscipline.SetupHoldsAllOrNothing | src/extensions/cryptsetup/crypto-manager.cpp:175-254 | The same for setting up, with its own exits |
| MountDiscipline.StepFine | src/signond/credentialsaccessmanager.cpp:465-508 | Every operation keeps the mount discipline, and, if its releases succeed, whatever the mount call answers, keeps loop device and mapping matched to the stage and nothing mounted outside the stage Mounted |
| MountDiscipline.DisciplineOverRuns | lib/signond/SignOn/abstract-crypto-manager.cpp:154-166 | In every reachable state an open secrets database implies an open system and a mounted file system; mounted is equivalent to stage Mounted; and as long as the releases succeed, whatever the mount calls answer, loop device and mapping match the stage, and an unmounted storage holds nothing |
| MountDiscipline.NeatOrTidy | src/extensions/cryptsetup/crypto-manager.cpp:413-430 | What is held is exactly what the stage says if and only if moreover the stage Mounted has a mount, which the dropped result of mount() does not promise |
| MountDiscipline.CrashesExactlyWhen | src/signond/credentialsaccessmanager.cpp:544-551 | Disabling a key calls through the null database pointer if and only if it is the last authorised one inserted and no database object exists |
| KeySlots.RevokeSlotted | lib/signond/SignOn/key-handler.cpp:152-185 | Revoking keeps authorised, listed and mounting keys in slots if and only if it does not take the only slot of the mounting key or of one listed in the keychain file that is not seen |
| KeySlots.SetupSlotted | src/extensions/cryptsetup/crypto-manager.cpp:175-254 | Setting up keeps them if and only if no key listed beside the encrypted file system is left out of the new header |
| KeySlots.StepSlotted | lib/signond/SignOn/key-handler.cpp:107-219 | The same if-and-only-if for every operation, whatever the system calls answer |
| KeySlots.KeysKeepTheirSlots | lib/signond/SignOn/key-handler.cpp:107-219 | At every point of every run that strands no key, mount failures included, every authorised key and every key of both keychain files occupies a LUKS slot |
| KeyAuthorization.AuthorizedKeyWorks | lib/signond/SignOn/key-handler.cpp:107-150 | A successful authorisation leaves the file system mounted and the key in a slot, added to the others or, after formatting, alone; it is in the real keychain if and only if that is mounted or listed it before |
| KeyAuthorization.RevokedKeyMayKeepItsSlot | src/extensions/cryptsetup/crypto-manager.cpp:455-468 | A successful revocation takes the authorisation; the slot and the entry in the file that is seen go only if the slot call worked; the other file keeps its entries |
| KeyAuthorization.FailedMountStrandsKey | src/extensions/cryptsetup/crypto-manager.cpp:413-430 | The bad run: while the mount call fails unnoticed, a revoked key loses its slot and stays in the real keychain |
| KeyAuthorization.InsertedWithoutSlot | src/extensions/cryptsetup/crypto-manager.cpp:470-486 | A key without a slot is authorised on insertion if and only if it mounted the file system or is listed in the file that is seen |
| KeyAuthorization.RevokedMountingKeyReturns | src/extensions/cryptsetup/crypto-manager.cpp:470-473 | Revoking the mounting key and inserting it again authorises it in any case, without a slot if and only if its only slot went |
| KeyAuthorization.AddingForgetsWhenNumberIsTaken | src/extensions/cryptsetup/crypto-manager.cpp:50-58 | Adding to the keychain loses another key if and only if the next number is taken |
| KeyAuthorization.FailedSetupForgetsKeys | lib/signond/SignOn/key-handler.cpp:118-125 | An authorisation fails and forgets authorised keys if and only if it has to set up the storage and that does not go through, as always while mounted |
| KeyAuthorization.LastKeyRemovalReopens | src/signond/credentialsaccessmanager.cpp:544-562 | Removing the last inserted authorised key leaves the storage mounted if and only if mounting with the helping key goes through, then open if the system is, and without any slot if and only if it was the only one and went |
| KeyOutcomes.InsertedKeyIsAuthorized | lib/signond/SignOn/key-handler.cpp:203-216 | An inserted key is authorised if and only if it was, or the storage is set up and the key mounts it or, while mounted, is the mounting key or listed; the storage is mounted then; exactly that key is inserted and no other gains or loses authorisation |
| KeyOutcomes.AuthorizesExactlyWhen | lib/signond/SignOn/key-handler.cpp:107-150 | An authorisation succeeds if and only if the key was authorised, or the setup it calls for goes through, or an authorised key with a slot helps, mounting if need be, and the slot can be written; and which keys are authorised afterwards |
| KeyOutcomes.RevokesExactlyWhen | lib/signond/SignOn/key-handler.cpp:152-185 | A revocation succeeds if and only if the storage is set up, some key is authorised and the storage is mounted or can be with the helping key; then exactly that key loses its authorisation |
| KeyOutcomes.LastKeyCloses | lib/signond/SignOn/key-handler.cpp:222-237 | A disabled key keeps its authorisation; the last authorised one inserted closes and unmounts the storage, and any other leaves it untouched |
| KeyOutcomes.MountsExactlyWhen | src/extensions/cryptsetup/crypto-manager.cpp:258-312 | A mount succeeds if and only if there is a key with a slot, each checked call works, and a leftover mapping can be closed; the storage is mounted then and only then |
| KeyOutcomes.SetsUpExactlyWhen | src/extensions/cryptsetup/crypto-manager.cpp:175-254 | The same for setting up, whatever was left over |
| KeyOutcomes.SetupOnDisk | src/extensions/cryptsetup/crypto-manager.cpp:210-253 | A setup leaves header, keychain and the file beside it as they were unless it gets to formatting; that leaves the key alone, or no key, or all as it was; at the end the key is listed in the file that is seen |
| KeyOutcomes.PartitionIsSetUp | src/extensions/cryptsetup/crypto-manager.cpp:190-209 | The storage counts as set up from the moment that its partition exists, whatever fails later; a mount does not change that |
| KeyOutcomes.LeftoversAreCleared | src/extensions/cryptsetup/crypto-manager.cpp:314-343 | A mount or setup that stops before the loop device has given back a leftover mapping and mount as far as the calls worked |
| KeyOutcomes.FailedMountClosesMapping | src/extensions/cryptsetup/crypto-manager.cpp:288-306 | A mount that fails later leaves a mapping if and only if it had opened it and cannot close it, or a leftover one could not be closed |
| KeyOutcomes.OpenedSystem | src/signond/credentialsaccessmanager.cpp:465-490 | Opening the system mounts the storage if it can, and leaves the secrets database open if and only if the storage is mounted and the database initialises |
| KeyOutcomes.SystemStaysClosed | src/signond/credentialsaccessmanager.cpp:465-490 | Without its metadata the system is not opened and nothing is mounted |
| KeyOutcomes.ClosedSystem | src/signond/credentialsaccessmanager.cpp:492-508 | Closing leaves neither database nor open secrets, and unmounts the storage if and only if its secrets were open |
| KeyReadiness.ReadyExactlyWhenAllReported | lib/signond/SignOn/key-handler.cpp:187-203 | The handler is ready if and only if every key manager has reported, and the ready signal has been emitted exactly once then |
| CryptoManager.AccessManager.constructor | src/signond/credentialsaccessmanager.cpp:124-148 | A closed system without a database object |
| CryptoManager.AccessManager.OnEncryptedFSMounted | src/signond/credentialsaccessmanager.cpp:651-665 | Opens the secrets database if the system is open and it is not |
| CryptoManager.AccessManager.OnEncryptedFSUnmounting | src/signond/credentialsaccessmanager.cpp:667-675 | Closes it |
| CryptoManager.AccessManager.OpenCredentialsSystem | src/signond/credentialsaccessmanager.cpp:465-490 | Opens the metadata, then the secrets or the file system; a failing secrets database is no failure |
| CryptoManager.AccessManager.CloseSecretsDB | src/signond/credentialsaccessmanager.cpp:413-423 | Closes the database and unmounts |
| CryptoManager.AccessManager.CloseCredentialsSystem | src/signond/credentialsaccessmanager.cpp:492-508 | Closes what is open and drops the database object |
| CryptoManager.CryptoManager.constructor | src/extensions/cryptsetup/crypto-manager.cpp:82-95 | Unmounted, nothing held |
| CryptoManager.CryptoManager.SetFileSystemMounted | lib/signond/SignOn/abstract-crypto-manager.cpp:154-166 | The unmounting signal comes before the flag changes, the mounted signal after |
| CryptoManager.CryptoManager.SetKey | lib/signond/SignOn/abstract-crypto-manager.cpp:67-75 | Ignored while mounted |
| CryptoManager.CryptoManager.UpdateState | src/extensions/cryptsetup/crypto-manager.cpp:404-411 | Stage and mounted flag change together, with the signals |
| CryptoManager.CryptoManager.UnmountFileSystem | src/extensions/cryptsetup/crypto-manager.cpp:345-381 | Signal, releases by stage, state Unmounted in any case |
| CryptoManager.CryptoManager.ReleaseAll | src/extensions/cryptsetup/crypto-manager.cpp:354-377 | Every release that the stage calls for is tried; umount never reports failure |
| CryptoManager.CryptoManager.ClearFileSystemResources | src/extensions/cryptsetup/crypto-manager.cpp:314-343 | Leftover mount and mapping are released |
| CryptoManager.CryptoManager.KeychainContainsKey | src/extensions/cryptsetup/crypto-manager.cpp:71-80 | Whether any entry is the key |
| CryptoManager.CryptoManager.AddKeyToKeychain | src/extensions/cryptsetup/crypto-manager.cpp:50-58 | A new key is stored under the count plus one |
| CryptoManager.CryptoManager.RemoveKeyFromKeychain | src/extensions/cryptsetup/crypto-manager.cpp:60-69 | One entry with the key goes |
| CryptoManager.CryptoManager.MountMappedDevice | src/extensions/cryptsetup/crypto-manager.cpp:413-430 | Fails only on the directory; the mount result is dropped |
| CryptoManager.CryptoManager.FinishMount | src/extensions/cryptsetup/crypto-manager.cpp:239-253 | Mount, keychain entry and state, or full unmount |
| CryptoManager.CryptoManager.OpenMappedDevice | src/extensions/cryptsetup/crypto-manager.cpp:218-253 | Leftover mapping, opening, formatting and mounting, each exit unmounting |
| CryptoManager.CryptoManager.SetupFileSystem | src/extensions/cryptsetup/crypto-manager.cpp:175-254 | The staged setup with all its exits |
| CryptoManager.CryptoManager.FormatDevice | src/extensions/cryptsetup/crypto-manager.cpp:210-215 | Formatting, which makes the key the only one |
| CryptoManager.CryptoManager.MountFileSystem | src/extensions/cryptsetup/crypto-manager.cpp:258-312 | The staged mount with all its exits |
| CryptoManager.CryptoManager.AddKey | src/extensions/cryptsetup/crypto-manager.cpp:437-453 | Slot and keychain entry, with an existing key |
| CryptoManager.CryptoManager.RemoveKey | src/extensions/cryptsetup/crypto-manager.cpp:455-468 | Reports success although the slot may remain |
| CryptoManager.CryptoManager.KeyInUse | src/extensions/cryptsetup/crypto-manager.cpp:470-499 | Tries to mount with the key when not mounted, else looks it up |
| CryptoManager.KeyHandler.constructor | lib/signond/SignOn/key-handler.cpp:35-39 | No keys |
| CryptoManager.KeyHandler.OnKeyInserted | lib/signond/SignOn/key-handler.cpp:187-219 | The report of a key manager counts towards readiness, and a key in use becomes authorised |
| CryptoManager.KeyHandler.OnKeyDisabled | lib/signond/SignOn/key-handler.cpp:222-237 | The last authorised key inserted closes the storage |
| CryptoManager.KeyHandler.MountWith | lib/signond/SignOn/key-handler.cpp:133-139 | Mounts with a given key unless mounted |
| CryptoManager.KeyHandler.Authorize | lib/signond/SignOn/key-handler.cpp:107-150 | Formats for the key, or lets it in with an authorised one |
| CryptoManager.KeyHandler.Reformat | lib/signond/SignOn/key-handler.cpp:118-125 | Sets the key and sets up the file system |
| CryptoManager.KeyHandler.LetInWithAny | lib/signond/SignOn/key-handler.cpp:132-144 | Any authorised key lets the new one in |
| CryptoManager.KeyHandler.LetInWith | lib/signond/SignOn/key-handler.cpp:132-144 | Mounts with the authorised key and adds the new one |
| CryptoManager.KeyHandler.Revoke | lib/signond/SignOn/key-handler.cpp:152-185 | Mounts if needed, removes the key, and takes its authorisation |
| CryptoManager.KeyHandler.OnKeyRemoved | lib/signond/SignOn/key-handler.cpp:239-249 | Disabled, then revoked if authorised |
| BlobIO.Big32 | lib/plugins/signon-plugins-common/SignOn/blobiohandler.cpp:63-69 | The four bytes of a size read back as that size |
| BlobIO.ReadTakes | lib/plugins/signon-plugins-common/SignOn/blobiohandler.cpp:110-121 | One read of any channel takes a length and as many bytes, or a length that stands for no bytes, or uses up the channel |
| BlobIO.PageCount | lib/plugins/signon-plugins-common/SignOn/blobiohandler.cpp:224-240 | The number of pages is the size divided by the page size, rounded up |
| BlobIO.BlobRoundTrip | lib/plugins/signon-plugins-common/SignOn/blobiohandler.cpp:57-134 | Every non-empty byte string is received as sent, in one signal, after one read for each page, with bytes that follow left alone; notification is on meanwhile if and only if there is more than one page, and off afterwards |
| BlobIO.EmptyBlob | lib/plugins/signon-plugins-common/SignOn/blobiohandler.cpp:97-134 | The empty string is delivered if and only if the read made for it finds nothing |
| BlobIO.ContinuingReadsGrow | lib/plugins/signon-plugins-common/SignOn/blobiohandler.cpp:110-134 | A read after which reading goes on grows the buffer, unless and only unless the buffer had overshot and nothing came |
| BlobIO.OvershootStandsStill | lib/plugins/signon-plugins-common/SignOn/blobiohandler.cpp:110-134 | An overshot buffer and an exhausted channel stand still without an error |
| BlobIO.ReadingEndsOrOvershoots | lib/plugins/signon-plugins-common/SignOn/blobiohandler.cpp:110-134 | Whatever arrives, reading is over or has overshot after more reads than the blob has bytes |
| BlobIO.FirstReadDecides | lib/plugins/signon-plugins-common/SignOn/blobiohandler.cpp:97-134 | The first read of any channel delivers the blob if and only if it gets all of it, errs if and only if it gets nothing of a non-empty one, and otherwise gives no signal |
| BlobIO.OnlyOnePageIsDelivered | src/signond/pluginproxy.cpp:539-543 | With a notifier that never fires, as the one of the daemon, a well-formed, non-empty blob is delivered if and only if it is not longer than a page; a longer one gives no signal at all |
| BlobIO.DeliveredExactlyWhenOneByOne | lib/plugins/signon-plugins-common/SignOn/blobiohandler.cpp:83-134 | On a channel without a notifier, with one notification for each arrival of data, a blob of several pages is delivered if and only if no two pages arrive together; otherwise reading stops short without an error |
| BlobIO.BlobIOHandler.constructor | lib/plugins/signon-plugins-common/SignOn/blobiohandler.cpp:37-47 | Nothing expected |
| BlobIO.BlobIOHandler.PageByteArray | lib/plugins/signon-plugins-common/SignOn/blobiohandler.cpp:224-240 | The loop cuts the pages of the specification |
| BlobIO.BlobIOHandler.SendData | lib/plugins/signon-plugins-common/SignOn/blobiohandler.cpp:57-73 | Appends header and framed pages |
| BlobIO.BlobIOHandler.ReceiveBlob | lib/plugins/signon-plugins-common/SignOn/blobiohandler.cpp:97-108 | Notification only for more than one page, and the first read |
| BlobIO.BlobIOHandler.ReadOne | lib/plugins/signon-plugins-common/SignOn/blobiohandler.cpp:110-134 | One fraction: error, delivery, or more to come |
| Restore.RestoreIsExact | src/signond/backup.cpp:137-201 | A restore succeeds if and only if no listed name fails, and either way exactly what each path of each listed name holds afterwards |
| Restore.RestoreTouchesNothingElse | src/signond/backup.cpp:137-201 | No other path changes, on success or failure |
| Restore.FailedRestoreIsUndone | src/signond/backup.cpp:178-190 | A failed restore leaves the storage exactly as before if and only if no absolute name had been copied |
| Restore.RestoredExactlyWhen | src/signond/backup.cpp:191-197 | After success all listed files are as in the backup if and only if no file missing from it was held by a stale ".bak", and no absolute name in it was replaced |
| Restore.BackupThenRestore | src/signond/backup.cpp:84-229 | Tree creation, copy out, any changes, and a successful copy in bring a listed file back to its contents at backup time if and only if its name is relative, or it has them anyway and a stale ".bak" keeps the restore from taking it away |
| Restore.CopiedOutAt | src/signond/backup.cpp:112-132 | A successful copy out makes the backup of a relative name equal to the live file, and deletes the live file of an absolute one |
| Restore.CopiesOutExactlyWhen | src/signond/backup.cpp:101-135 | A copy out succeeds if and only if no listed file that is found fails to be copied, or has a stale copy of an absolute name in its place |
| Restore.TreeAt | src/signond/backup.cpp:215-226 | Existing files are kept, a missing one becomes empty where a relative name is |
| Restore.EncryptedFileIsLost | src/signond/backup.cpp:246-262 | The list that the daemon backs up with encrypted storage: the backup succeeds and the encrypted file is gone |
| Backup.RelativeNamesAreWellPlaced | src/signond/backup.cpp:137-201 | Distinct relative names none of which is another one with ".bak" do not get into each other |
| Backup.PathsAgree | src/signond/backup.cpp:112-121 | The path by QDir and the joined path agree if and only if the name is relative |
| Backup.BackupService.constructor | src/signond/backup.cpp:44-73 | No backup |
| Backup.BackupService.EraseBackupDir | src/signond/backup.cpp:84-98 | The plain visible entries of the backup directory go |
| Backup.BackupService.CreateStorageFileTree | src/signond/backup.cpp:203-229 | The loop up to the first file that cannot be created |
| Backup.BackupService.CopyToBackupDir | src/signond/backup.cpp:100-135 | The loop with its stale targets, which for an absolute name are live files, and its early exit |
| Backup.BackupService.RemoveFiles | src/signond/backup.cpp:181-183 | The listed files go |
| Backup.BackupService.RenameBack | src/signond/backup.cpp:185-189 | Each ".bak" goes back unless its place is taken |
| Backup.BackupService.CopyFromBackupDir | src/signond/backup.cpp:137-201 | The loop, then rollback or cleaning up |
| AsyncProxy.StepConserves | lib/SignOn/async-dbus-proxy.cpp:76-137 | Every step keeps each call in exactly one place, if and only if it does not cancel an unsent call that is no longer queued |
| AsyncProxy.CallsAreConserved | lib/SignOn/async-dbus-proxy.cpp:248-322 | On every run without such a cancel each call is queued, in flight, about to fail or finished, exactly one of them, and finishes at most once |
| AsyncDelivery.StatusExactly | lib/SignOn/async-dbus-proxy.cpp:184-237 | Connection, path and status after every event: ready with a connection and a path, invalid after an error or with a broken connection and a path, and else incomplete |
| AsyncDelivery.ChangeEffect | lib/SignOn/async-dbus-proxy.cpp:159-207 | A proxy that becomes ready sends all calls that waited, in order, and they are in flight; one that becomes invalid fails them; one that becomes incomplete leaves them; the interface of the other calls in flight is gone, except after an error |
| AsyncDelivery.SentExactly | lib/SignOn/async-dbus-proxy.cpp:272-281 | Only a ready proxy sends: the calls that waited when it becomes ready, and each call made then |
| AsyncDelivery.FinishesExactly | lib/SignOn/async-dbus-proxy.cpp:76-126 | A call finishes if and only if it is cancelled before it has a watcher, its posted failure comes, its reply comes and is not explained by the loss of the interface, or the proxy becomes invalid while it waits; once each time |
| AsyncDelivery.WaitingCallIsDelivered | lib/SignOn/async-dbus-proxy.cpp:159-182 | On every run a call made while the proxy is incomplete, and not cancelled, waits for the first step that makes it ready, which sends it, or invalid, which finishes it unsent |
| AsyncProxy.CancelledTwiceFinished | lib/SignOn/async-dbus-proxy.cpp:76-84 | The bad run: a call made while invalid is cancelled and finishes twice |
| AsyncProxy.SentInOrder | lib/SignOn/async-dbus-proxy.cpp:159-207 | Without calls going back to the queue, calls are sent in the order made and none waits in a ready proxy |
| AsyncProxy.WaitsExactlyWhen | lib/SignOn/async-dbus-proxy.cpp:318-322 | A call comes to wait in a ready or an invalid proxy if and only if it is sent back to the queue there |
| AsyncProxy.RequeuedCallIsStuck | lib/SignOn/async-dbus-proxy.cpp:299-322 | And it stays there, neither sent nor failed nor cancellable, until the status is set again |
| AsyncProxy.RequeuedWhileReady | lib/SignOn/async-dbus-proxy.cpp:105-137 | The run that gets there: the path changes while a call is in flight, and the reply comes when the proxy is ready again |
| Lists.Position | lib/SignOn/async-dbus-proxy.cpp:310-316 | The first position of an element, none before it |
| Lists.WithoutFirst | lib/SignOn/async-dbus-proxy.cpp:310-316 | The loop that removes one occurrence from a list |
| AsyncProxy.AsyncDBusProxy.constructor | lib/SignOn/async-dbus-proxy.cpp:139-149 | Incomplete, nothing queued |
| AsyncProxy.AsyncDBusProxy.SendCall | lib/SignOn/async-dbus-proxy.cpp:86-97 | Sent, watched, not orphaned |
| AsyncProxy.AsyncDBusProxy.OnCallFinished | lib/SignOn/async-dbus-proxy.cpp:310-316 | Logged and out of the queue |
| AsyncProxy.AsyncDBusProxy.ChangeStatus | lib/SignOn/async-dbus-proxy.cpp:159-182 | Sends or fails the whole queue in order |
| AsyncProxy.AsyncDBusProxy.SendAll | lib/SignOn/async-dbus-proxy.cpp:172-174 | The queue is sent in order |
| AsyncProxy.AsyncDBusProxy.FailQueued | lib/SignOn/async-dbus-proxy.cpp:178-180 | The queue is failed in order |
| AsyncProxy.AsyncDBusProxy.Refresh | lib/SignOn/async-dbus-proxy.cpp:184-207 | Drops the interface, which orphans the calls in flight, and finds the new status |
| AsyncProxy.AsyncDBusProxy.ConnectionSet | lib/SignOn/async-dbus-proxy.cpp:209-214 | Connection and update |
| AsyncProxy.AsyncDBusProxy.Disconnected | lib/SignOn/async-dbus-proxy.cpp:216-224 | Connection and path go |
| AsyncProxy.AsyncDBusProxy.ObjectPathSet | lib/SignOn/async-dbus-proxy.cpp:226-231 | Path and update |
| AsyncProxy.AsyncDBusProxy.Call | lib/SignOn/async-dbus-proxy.cpp:248-282 | Sent, queued, or posted to fail, by status |
| AsyncProxy.AsyncDBusProxy.CancelCall | lib/SignOn/async-dbus-proxy.cpp:76-84 | Refused for a watched call, else finished |
| AsyncProxy.AsyncDBusProxy.OnFinished | lib/SignOn/async-dbus-proxy.cpp:105-126 | Back to the queue when the loss of the interface explains the error, else finished |

## Left out

- D-Bus transport, adaptors, object registration, error names and access control: plumbing or one branch over an extension.
- SQL text, references (REFS), transactions and SQL errors: tables are sets and maps, and statements succeed, but for the triggers that refuse rows of an id that is not in the table; NULL and the empty string are not told apart.
- MetaDataDB.Database.UpdateRealms: realms are a multiset, since the rows carry a NULL host name and so repetition is not ignored by the unique key.
- Secrets.SecretsDB.StoreData: values are opaque with the length of their serialised form, and the 32-bit counter is not modelled, since the loop stops at 4096.
- SecretsDB.removeData, CredentialsDB.clear, checkPassword and the identity filter: one more statement or query of the kinds modelled.
- SignonIdentityInfo.update: inserts one map into another.
- Vaults.OnlyStorablePasswordsPersist: speaks of calls to the store; an authentication that rewrites a cached password is such a call too.
- The dialog-displayed flag, messages that cancel a dialog, the secure storage events, stored blobs of a session: they do not touch the request queue.
- Deletion of Qt objects, senders and guarded pointers: posted start events are a counter, and a posted failure a queue entry.
- PluginProxy.Plugin.OnReadStandardOutput: a message says how the first page of its blob reads, which BlobIO.FirstReadDecides tells of the bytes; bytes cut elsewhere in a message are not modelled, and a broken blob uses up the channel.
- Plugin loading, its type and mechanism queries, network proxies, refresh and dialog contents: input and output.
- EncryptedStorage: failed releases do not make later calls fail, except that a mapping name in use cannot be opened again; finalize and initialize are left out, and the manager counts as initialised.
- CryptoManager.CryptoManager.KeyInUse: the two variants kept in comments are not modelled.
- BlobIO.BlobRoundTrip: the serialisation of a variant map is opaque bytes; every page is complete in the channel when it is read, and its reads are counted; OnlyOnePageIsDelivered has only the first of them, and DeliveredExactlyWhenOneByOne has them driven by arrivals. The notifier of the plugin process, on its real input, is not modelled. Connecting a notifier twice is not modelled.
- AsyncProxy.AsyncDBusProxy.ObjectPathSet: the assertion that one of the old and the new path is empty is not modelled; any path may be set.
- AsyncProxy: PendingCall objects are numbers with sets for their two flags; signal connections that are replayed on a new interface, and client slots that call back into the proxy, are not part of this model.
- Authentication.SecretsOverRuns: the cache must be in step with the profile at the start, as it is after every opening; updates by clients between authentications are not steps of these runs.
- SignonDisposable.Collector.DestroyUnused: the timers that start a sweep, and the children of a destroyed session, are not part of this model.
- Key authorisers and their answers: a decision arrives as an event.
- Backup: two names that lead to one path, a listed name that has its ".bak" where it is copied to, dots in paths and names that lead into the backup directory are left out, as are modes, ownership, directory creation and the part that closes and reopens the credentials system; copies leave nothing when they fail, and renames fail only on an existing target.
