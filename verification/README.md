# RemTene: verified models of its stateful core

Dafny 4.11 models of the parts of RemTene whose correctness depends on interleavings,
failures and crashes rather than on a single function, with proofs of what they promise.
`dafny verify dfyconfig.toml` checks everything.

* **Secret store** (`SecretRecords`, `SecretOperations`, `SecretGuarantees`, `SecretTheorems`,
  `SecretCoherence`, `SecretAnswers`, `SecretStore`, `LikePattern`): encrypted API keys in a table and a
  key file shared by any number of instances, each with a key and a plaintext cache of its own. Encryption
  is ideal: a sealed text opens only under its key, nonce and record id. Disk corruption, replaced key files,
  failed writes and crashes in between are steps.
* **LLM endpoint switch** (`LlmEndpoints`, `LlmConfiguration`, `LlmAnswers`): a saga over the settings and the
  secret store. A store call has an effect and a report; a failed report may hide an applied effect. The
  effects are those proved for the store: a failed mutation changes no record, and a namespace
  replacement leaves one.
* **ASR supervisor** (`Supervisor`, `SupervisorActor`, and the theorems in `SupervisorBooks`, `SupervisorRuns`,
  `SupervisorGrants`, `SupervisorSilence`, `SupervisorDeadlines`, `SupervisorTimers`, `SupervisorReplies`,
  `SupervisorAnswers`, `SupervisorEnd`): the actor that owns the worker process. The message guard, the
  pipe, the grant directory and the clock answer arbitrarily; `SupervisorGuard` puts the real guard in its
  place, and `ProtocolLink` joins the guards of both ends over their pipes.
* **ASR worker** (`WorkerProtocol`, `ProtocolAnswers`, `WorkerRuntime`, `WorkerLoop`, `WorkerAnswers`,
  `WorkerVerdicts`, `WorkerResponses`): the event loop and the protocol guard in full. Events arrive in any
  order, even ones no thread would send.
* **Engines** (`EngineLeases`, `CompositeEngine`): leased models, idle reapers, and the composite lock.
  One class stands for both engines, whose lease protocol is the same.
* **Frames and diagnostics** (`Framing`, `Redaction`, `RedactionLaws`, `Diagnostics`, `DiagnosticLaws`,
  `DiagnosticKeys`, `Bytes`), **lifecycle fence** (`LifecycleFence`), and **history** (`HistoryStore`,
  `HistoryEviction`, `HistoryLife`, `HistoryControllers`, `HistoryAnswers`, `HistoryLoss`, `Uuids`, `Sorting`).

Code that changes state is modelled twice: a class whose methods make the same updates in the same
order, and a function that says what one call or one step does. The methods are proved equal to the
functions, and the promises are proved about the functions over all runs. The modules named `...Answers`,
`...Responses` and `...Laws` say of each operation exactly when it succeeds and what it answers otherwise, in
terms of its arguments and the state it finds. What the outside answers during a step (faults,
random numbers, clock readings) is an argument, usually called `World`.

Where the code does less than it promises, the model keeps the code and states exactly when the
promise holds:

* A deadline that closes the supervisor does so in the middle of an iteration that still takes one more
  command. If that command starts work and the worker delivers nothing before the loop looks at the
  closed flag again, its caller is never answered. In every other run that returns,
  everyone whose command was taken is (`SupervisorEnd.EveryoneAnsweredIff`).
* Audio that cannot be removed is reported to its request, except for a copy abandoned on systems other
  than unix and for the stuck grant of a late request dropped at the return (`SupervisorSilence`).
* A shutdown is graceful only if nothing crosses it: a transcript or health result already in the pipe, or a
  cancellation of the request it ends, fails the process and everyone waiting (`SupervisorGuard`). An error
  about a health check never reaches the code that would pass it on, as the guard refuses it. Between
  the two ends the other races are a cancellation that meets the end of its request, a greeting that meets
  a shutdown, and what reaches a worker that has closed (`ProtocolLink`).
* One engine alone can hold two copies of its model, if it loads between an unload and the end of the drop
  that the unload overtook; under the composite lock it cannot (`EngineLeases.OneCopyIff`).
* Cached secrets are coherent exactly if the readable records did not already mix keys, and stay so after
  an old record is put back under an exact condition (`SecretCoherence`).
* A record of an unknown envelope version is meant to survive a reset, but is erased exactly when the key
  file is gone or garbled and every other row is well formed (`SecretTheorems.UnknownEnvelopeErasedIff`).
* Switching history on over more records than the policy allows loses records without confirmation
  at the next listing, and so does a listing or save whose policy is out of date by the time it is
  applied. Otherwise an unexpired record is only ever pushed out by a save into a full history (`HistoryLoss`).
* The file holds the newest records ever saved unless a loosened policy wants back what was evicted
  (`HistoryLife`).
* A request that reuses the ids of an earlier one inherits its deadline timer (`WorkerVerdicts`).
* A base URL that names the completions endpoint with and without a trailing slash is two endpoints
  (`LlmEndpoints`).
* A key can show up in a sanitised diagnostic although every occurrence is replaced: if it is part of a
  placeholder, or if what surrounds a placeholder completes it to the key (`DiagnosticKeys`).

## Model

| member | source | states |
|---|---|---|
| SecretRecords.Decrypt | crates/remtene-adapters/src/local_encrypted_secret_store.rs:878-915 | a record opens exactly under the available key it was sealed with, under its own nonce and as a record of its own id, and gives back the sealed text |
| SecretRecords.InspectIsFresh | crates/remtene-adapters/src/local_encrypted_secret_store.rs:787-815 | however stale the key an instance holds, inspecting a row finds what a store opened at that moment would find; a row found readable leaves the instance with the key in the file |
| SecretRecords.ConfiguredIff | crates/remtene-adapters/src/local_encrypted_secret_store.rs:787-815 | a row is found readable exactly when the key file holds the key it opens under |
| SecretRecords.LostIff | crates/remtene-adapters/src/local_encrypted_secret_store.rs:852-869 | a row counts as lost for good exactly when it is well formed and the key file is gone or garbled, or a good key does not open a record of the known envelope; an unknown key version, permissions and I/O never count |
| SecretGuarantees.InspectVerdict | crates/remtene-adapters/src/local_encrypted_secret_store.rs:817-850 | the scan of the store gives a verdict exactly when every row can be judged, and asks for recovery exactly when one is lost, whatever the scan order and the instance's key |
| SecretGuarantees.VerifyVerdict | crates/remtene-adapters/src/local_encrypted_secret_store.rs:1026-1096 | the check before a write passes exactly when every row has a valid id and opens under the key, and there are at most 256 |
| SecretGuarantees.EnsuredKey | crates/remtene-adapters/src/local_encrypted_secret_store.rs:960-1016 | ensuring a key succeeds only with a key that is in the file and opens every row, with room for the new record; with rows present the key file is not touched |
| SecretGuarantees.WriteSealedKeeps | crates/remtene-adapters/src/local_encrypted_secret_store.rs:284-334 | from any disk: a write that succeeds leaves the value sealed under the key on disk with every other kept row; one that fails leaves the rows alone and the cache empty |
| SecretTheorems.ReplaceLeavesOneKey | crates/remtene-adapters/src/local_encrypted_secret_store.rs:252-336 | from any disk state, after a successful replace every record opens under the one key in the key file, at most 256 exist, and only the named record changed |
| SecretTheorems.ReplaceNamespaceLeavesOne | crates/remtene-adapters/src/local_encrypted_secret_store.rs:338-433 | the same for a namespace: exactly the named record matches the pattern afterwards and no record outside it is touched |
| SecretTheorems.FailedMutationChangesNothing | crates/remtene-adapters/src/local_encrypted_secret_store.rs:252-573 | any mutation that fails leaves every record as it was and the cache empty, and on the way the key file changes only while there are no records |
| SecretTheorems.CrashLeavesReadableStore | crates/remtene-adapters/src/local_encrypted_secret_store.rs:960-1016 | stopping any mutation in any intermediate disk state leaves a store that still opens, if all its records did |
| SecretTheorems.ResetCommitsIff | crates/remtene-adapters/src/local_encrypted_secret_store.rs:481-507 | a reset commits exactly when, inside the writer lock, some record is lost and none is in doubt; it removes all records and keeps the key file |
| SecretTheorems.LossProvenIff | crates/remtene-adapters/src/local_encrypted_secret_store.rs:817-869 | loss is proven exactly for these disk states, told in terms of the key file and the records |
| SecretTheorems.UnknownEnvelopeErasedIff | crates/remtene-adapters/src/local_encrypted_secret_store.rs:852-869 | a well formed record of an unknown envelope, which is meant to survive a reset, is erased by one exactly when the key file is gone or garbled, every other row is well formed too, and the database cooperates |
| SecretTheorems.UnknownEnvelopeErased | crates/remtene-adapters/src/local_encrypted_secret_store.rs:852-869 | the smallest disk on which that happens: one such record and no key file |
| SecretTheorems.RecoverySucceeds | crates/remtene-adapters/src/local_encrypted_secret_store.rs:435-507 | from every store whose loss is proven, and for every instance, reset, replace and read give the value back when I/O and randomness cooperate |
| SecretTheorems.EmptyStoreTakesValue | crates/remtene-adapters/src/local_encrypted_secret_store.rs:990-1016 | with no records, a missing or garbled key file is replaced and a good one adopted, and the value can be read by this instance and a fresh one |
| SecretTheorems.DeleteCommitsIff | crates/remtene-adapters/src/local_encrypted_secret_store.rs:509-538 | a delete commits exactly when the record is absent or readable; it removes that record only |
| SecretTheorems.DeleteNamespaceCommitsIff | crates/remtene-adapters/src/local_encrypted_secret_store.rs:540-573 | a namespace delete commits exactly when every record is readable; it removes and counts what the pattern selects and nothing else |
| SecretCoherence.RekeyedSound | crates/remtene-adapters/src/local_encrypted_secret_store.rs:142-196 | the hard case: a key reloaded by inspection while the cache is kept; a record that opens under the new key vouches for every cached record still on disk |
| SecretCoherence.NextKeepsInvariant | crates/remtene-adapters/src/local_encrypted_secret_store.rs:142-573 | every operation of every instance, every crash, and every outside change keeps: one key among the readable records, fresh nonces, and sound caches |
| SecretCoherence.ReadsAreCoherent | crates/remtene-adapters/src/local_encrypted_secret_store.rs:198-250 | in every reachable state of any number of instances, an answered read is what a store opened at that moment would answer |
| SecretCoherence.CoherentIffSingleKey | crates/remtene-adapters/src/local_encrypted_secret_store.rs:142-250 | this holds over every run exactly when the readable records on the initial disk share a key |
| SecretCoherence.MixedKeysAreIncoherent | crates/remtene-adapters/src/local_encrypted_secret_store.rs:787-815 | from any state whose readable records mix keys, a five-step run (key file set, store opened and read, key file swapped, another record inspected) serves a cached value that no longer opens |
| SecretCoherence.RestoringIsHarmlessIff | crates/remtene-adapters/src/local_encrypted_secret_store.rs:142-250 | putting an old record back keeps every later answered read coherent, over every run, exactly when the readable records still share a key and no instance caches that very record under another one |
| SecretCoherence.SecondReadIsFresh | crates/remtene-adapters/src/local_encrypted_secret_store.rs:218-223 | asking a second time always gives what a freshly opened store answers, success or failure |
| SecretStore.LocalEncryptedSecretStore.InspectMaterial | crates/remtene-adapters/src/local_encrypted_secret_store.rs:787-815 | computes what InspectIsFresh and ConfiguredIff judge: a changed key is reloaded once, and only then is a row called lost |
| SecretStore.LocalEncryptedSecretStore.InspectAllMaterial | crates/remtene-adapters/src/local_encrypted_secret_store.rs:817-850 | the loop over all ids computes the scan that InspectVerdict describes |
| SecretStore.LocalEncryptedSecretStore.VerifyAllRecords | crates/remtene-adapters/src/local_encrypted_secret_store.rs:1026-1096 | the loop over all rows computes the check that VerifyVerdict describes |
| SecretStore.LocalEncryptedSecretStore.EnsureMasterKey | crates/remtene-adapters/src/local_encrypted_secret_store.rs:960-1016 | computes the key that EnsuredKey promises and changes nothing but the instance's key and the key file, with every state the file goes through |
| SecretStore.LocalEncryptedSecretStore.InspectSecret | crates/remtene-adapters/src/local_encrypted_secret_store.rs:142-173 | changes the cache exactly as the coherence theorem needs: kept when readable, one entry dropped when absent, cleared when lost or failed |
| SecretStore.LocalEncryptedSecretStore.InspectWholeStore | crates/remtene-adapters/src/local_encrypted_secret_store.rs:175-196 | keeps the cache only if every record is readable, and clears it otherwise |
| SecretStore.LocalEncryptedSecretStore.ReadSecret | crates/remtene-adapters/src/local_encrypted_secret_store.rs:198-250 | serves the cache only for an equal record under a key just verified, and after a refusal is as good as freshly opened (SecondReadIsFresh) |
| SecretStore.LocalEncryptedSecretStore.IsSecretConfigured | crates/remtene-adapters/src/local_encrypted_secret_store.rs:123-140 | tells whether a row exists, readable or not, and clears the cache on an error |
| SecretStore.LocalEncryptedSecretStore.ReplaceSecret | crates/remtene-adapters/src/local_encrypted_secret_store.rs:252-336 | the whole new instance and disk, and the disk states on the way, are those for which ReplaceLeavesOneKey and the crash theorem are proved |
| SecretStore.LocalEncryptedSecretStore.ReplaceSecretNamespace | crates/remtene-adapters/src/local_encrypted_secret_store.rs:338-433 | the same for ReplaceNamespaceLeavesOne: delete and insert commit together or not at all |
| SecretStore.LocalEncryptedSecretStore.ResetUnrecoverable | crates/remtene-adapters/src/local_encrypted_secret_store.rs:435-479 | validates the id and then resets the whole store, under the conditions of ResetCommitsIff |
| SecretStore.LocalEncryptedSecretStore.ResetUnrecoverableStore | crates/remtene-adapters/src/local_encrypted_secret_store.rs:481-507 | the new disk is the one of ResetCommitsIff; the cache is empty whatever happens |
| SecretStore.LocalEncryptedSecretStore.DeleteSecret | crates/remtene-adapters/src/local_encrypted_secret_store.rs:509-538 | the new disk is the one of DeleteCommitsIff; the cache is empty whatever happens |
| SecretStore.LocalEncryptedSecretStore.DeleteSecretNamespace | crates/remtene-adapters/src/local_encrypted_secret_store.rs:540-573 | the new disk and the count are those of DeleteNamespaceCommitsIff |
| LikePattern.EscapeIsPerCharacter | crates/remtene-adapters/src/local_encrypted_secret_store.rs:871-876 | the three sequential replacements equal escaping each character on its own |
| LikePattern.NamespaceIsPrefix | crates/remtene-adapters/src/local_encrypted_secret_store.rs:556-567 | SQLite LIKE with the escaped namespace and a percent sign matches exactly the ids that start with the namespace up to ASCII case |
| LikePattern.StartsWithIsSelected | crates/remtene-adapters/src/local_encrypted_secret_store.rs:355-358 | an id that passes the exact prefix test is always selected by the pattern |
| SecretAnswers.ReplaceCommitsIff | crates/remtene-adapters/src/local_encrypted_secret_store.rs:252-336 | a value is stored exactly when id and value are valid, the database, the budget and the nonce are there, and the store has room: with no rows a good key, or a place for a new one; with some, every row valid and opening under the key in the file, at most 256, and the id one of them or fewer than 256 |
| SecretAnswers.ReplaceNamespaceCommitsIff | crates/remtene-adapters/src/local_encrypted_secret_store.rs:338-433 | for a namespace the same, with an id that starts with a valid namespace |
| SecretAnswers.ReplaceRefusals | crates/remtene-adapters/src/local_encrypted_secret_store.rs:252-336 | why a value is refused, from the invalid id to the failed commit, with the full store and the unusable key path among them |
| SecretAnswers.VerifyStops | crates/remtene-adapters/src/local_encrypted_secret_store.rs:1026-1096 | the check before a write fails at the first row that is wrong and says how, at the 257th row, or where the budget ends |
| SecretAnswers.InspectStops | crates/remtene-adapters/src/local_encrypted_secret_store.rs:817-850 | the scan fails at the first row that cannot be judged, with the error of that row, or where the budget ends |
| SecretAnswers.ReadNothingIff | crates/remtene-adapters/src/local_encrypted_secret_store.rs:198-215 | a read finds nothing exactly where a valid id has no row |
| SecretAnswers.ReadValueIff | crates/remtene-adapters/src/local_encrypted_secret_store.rs:216-250 | any instance gives a value exactly when it holds the key that is in the file now, and then the cached text for the very record in the row, otherwise what the record opens to |
| SecretAnswers.FreshReadRefusals | crates/remtene-adapters/src/local_encrypted_secret_store.rs:198-250 | why a store just opened cannot read: by the id, the row, each state of the key file, and the record |
| SecretAnswers.StaleReadRefused | crates/remtene-adapters/src/local_encrypted_secret_store.rs:218-223 | an instance whose key is not the one in the file refuses once, with the reason, and has loaded what the file holds then |
| SecretAnswers.InspectAnswersIff | crates/remtene-adapters/src/local_encrypted_secret_store.rs:142-173 | what inspecting a record answers, told over the row and the key file |
| SecretAnswers.InspectStoreAnswersIff | crates/remtene-adapters/src/local_encrypted_secret_store.rs:175-196 | and a whole store |
| SecretAnswers.ConfiguredAnswersIff | crates/remtene-adapters/src/local_encrypted_secret_store.rs:123-140 | a record counts as configured exactly when it has a row |
| SecretAnswers.DeleteRefusals | crates/remtene-adapters/src/local_encrypted_secret_store.rs:509-538 | why a delete is refused: the id, the database, a lost record, which asks for a reset, or one that cannot be judged |
| SecretAnswers.DeleteNamespaceRefusals | crates/remtene-adapters/src/local_encrypted_secret_store.rs:540-573 | the same for a namespace |
| SecretAnswers.ResetRefusals | crates/remtene-adapters/src/local_encrypted_secret_store.rs:435-507 | why a reset is refused, a healthy store among the reasons |
| SecretAnswers.CacheAfter | crates/remtene-adapters/src/local_encrypted_secret_store.rs:123-573 | what every operation leaves in the cache, for each of its answers |
| SecretAnswers.PrintableIdIff | crates/remtene-adapters/src/local_encrypted_secret_store.rs:1112-1123 | a printable id has 1 to 128 characters |
| SecretAnswers.AsciiValueIff | crates/remtene-adapters/src/local_encrypted_secret_store.rs:1125-1130 | an ASCII value has 1 to 65536 characters and no NUL |
| LlmConfiguration.CurrentKeyWasSavedForIt | crates/remtene-application/src/llm_configuration_controller.rs:193-347 | over every run of switches, saves, deletes and resets, whichever step fails and whether or not a failed step took effect, a key present for the current endpoint was saved in that endpoint's current tenure |
| LlmConfiguration.OrphanNeverReactivates | crates/remtene-application/src/llm_configuration_controller.rs:240-245 | a key left behind for an endpoint that is not current is, whenever that endpoint is current again, gone or replaced by one saved since |
| LlmConfiguration.SwitchKeepsKeyIff | crates/remtene-application/src/llm_configuration_controller.rs:212-247 | after a successful switch the current endpoint has a key exactly when it was current before and had one: a new model or another spelling of the URL keeps the key, nothing else does |
| LlmConfiguration.RefusedSwitchKeepsKey | crates/remtene-application/src/llm_configuration_controller.rs:222-238 | a refused switch never changes the key of the endpoint that was current, and changes the settings only if the store applied what it reported as failed |
| LlmConfiguration.SavedKeyIsTheOnlyOne | crates/remtene-application/src/llm_configuration_controller.rs:269-291 | a saved key is the only one in the namespace and bound to the current endpoint |
| LlmConfiguration.LlmConfigurationController.ChangeSettings | crates/remtene-application/src/llm_configuration_controller.rs:193-248 | the saga: pre-delete before the settings change, post-delete after it, and nothing further once a step reports failure; its result is the one of SwitchKeepsKeyIff and RefusedSwitchKeepsKey |
| LlmConfiguration.LlmConfigurationController.SaveKey | crates/remtene-application/src/llm_configuration_controller.rs:269-291 | refuses in the order of the checks; a success leaves the state of SavedKeyIsTheOnlyOne |
| LlmConfiguration.LlmConfigurationController.RemoveKey | crates/remtene-application/src/llm_configuration_controller.rs:314-329 | removes every key of the namespace if the store is readable, and none if it needs recovery |
| LlmConfiguration.LlmConfigurationController.ResetUnrecoverable | crates/remtene-application/src/llm_configuration_controller.rs:331-347 | resets only a store that needs recovery and succeeds only if nothing is left in it |
| LlmAnswers.EndpointIff | crates/remtene-adapters/src/llm.rs:520-560 | a configuration has an endpoint exactly with a model that is not blank and a hierarchical URL without user, password, query and fragment, over https, or over http to this machine |
| LlmAnswers.EndpointPathOf | crates/remtene-adapters/src/llm.rs:540-548 | slashes at the end give way to the completions suffix, unless the path names it already |
| LlmAnswers.SwitchSucceedsIff | crates/remtene-application/src/llm_configuration_controller.rs:193-248 | a switch succeeds exactly when no session runs, the settings load in the version the caller has seen, and either nothing changes or the secrets are mutable, the new settings have an endpoint, and the pre-delete (if the endpoint changes), the validation and the replacement succeed |
| LlmAnswers.SwitchRefusals | crates/remtene-application/src/llm_configuration_controller.rs:193-248 | why it is refused otherwise, in order; a stale version, like everything before the first deletion, leaves the state unchanged |
| LlmAnswers.SwitchEffect | crates/remtene-application/src/llm_configuration_controller.rs:193-248 | the new version, and exactly the keys that a successful switch takes away |
| LlmAnswers.ValidKeyIff | crates/remtene-application/src/llm_configuration_controller.rs:527-539 | a key has 1 to 8192 visible ASCII characters |
| LlmAnswers.SaveSucceedsIff | crates/remtene-application/src/llm_configuration_controller.rs:269-291 | a key is saved exactly when it is valid, no session runs, the settings name an endpoint, the secrets are mutable, and the write and its inspection succeed |
| LlmAnswers.SaveRefusals | crates/remtene-application/src/llm_configuration_controller.rs:269-291 | why it is refused otherwise, in order |
| LlmAnswers.DeleteAnswers | crates/remtene-application/src/llm_configuration_controller.rs:314-329 | when deleting succeeds, why it is refused, and that it empties the namespace exactly if it took effect |
| LlmAnswers.ResetAnswers | crates/remtene-application/src/llm_configuration_controller.rs:331-347 | the same for the reset of a store that asks for recovery |
| LlmEndpoints.EndpointPathIdempotent | crates/remtene-adapters/src/llm.rs:540-548 | a full endpoint given as base URL is its own endpoint |
| LlmEndpoints.TrailingSlashKeepsEndpointIff | crates/remtene-adapters/src/llm.rs:540-548 | a trailing slash keeps the endpoint, and so the key, exactly when the path does not already name the completions endpoint |
| LlmEndpoints.TrimEndSlashes | crates/remtene-adapters/src/llm.rs:540-540 | the longest prefix that does not end in a slash; only slashes are cut |
| SupervisorRuns.AnsweredOnceOrHeld | crates/remtene-adapters/src/asr_worker.rs:403-977 | conservation: at every point of every run each dequeued command was answered exactly once or is held in exactly one slot |
| SupervisorRuns.SlotsAlwaysFit | crates/remtene-adapters/src/asr_worker.rs:448-655 | a health check and a transcription are never both pending, anything pending has a process, a pending shutdown excludes a health check, and after the return only a supervisor that closed itself can hold anything |
| SupervisorRuns.NextKeepsInvariant | crates/remtene-adapters/src/asr_worker.rs:403-446 | every step of the loop keeps the slots and the books |
| SupervisorEnd.ReturnedOwesAtMostLast | crates/remtene-adapters/src/asr_worker.rs:403-422 | when the loop has returned everyone was answered except perhaps the caller of the last command, and that only if the supervisor had closed itself |
| SupervisorEnd.LateCommandAnsweredIff | crates/remtene-adapters/src/asr_worker.rs:403-422 | a command dequeued in the iteration in which a deadline closed the supervisor is answered exactly when it is not taken on, or the new worker delivers anything at all (be it a broken pipe) before the loop looks at the closed flag again; whatever is delivered and however the clock moves in between |
| SupervisorEnd.EveryoneAnsweredIff | crates/remtene-adapters/src/asr_worker.rs:403-422 | over every run that returns, the slots are all empty (the promise) exactly when no command was taken on after the supervisor closed itself and then left unheard by the loop |
| SupervisorEnd.LateCommandNeverAnswered | crates/remtene-adapters/src/asr_worker.rs:405-420 | a concrete run, for any timeouts and a worker that stays silent, that ends with such a caller unanswered |
| SupervisorSilence.GrantAccounting | crates/remtene-adapters/src/asr_worker.rs:523-565 | at every point of every run each grant file is the pending request's or one whose failed removal was reported to its request, exactly if no copy was abandoned off unix and no late request was dropped with a stuck grant; the files of those two cases are on disk, not pending, and reported to nobody; a transcript, or the success of an accepted cancellation, means the audio is gone |
| SupervisorSilence.NobodyTold | crates/remtene-adapters/src/asr_worker.rs:1266-1323 | audio left in silence is there, is not the pending request's, and its caller, who is answered at most once, is never told of it |
| SupervisorSilence.AbandonedCopyIsUnreported | crates/remtene-adapters/src/asr_worker.rs:1300-1323 | the shortest such run off unix: the partial copy stays and the caller is told only that the audio is unusable |
| SupervisorSilence.LateGrantIsUnreported | crates/remtene-adapters/src/asr_worker.rs:403-422 | the shortest such run anywhere: a late request is dropped at the return with a stuck grant, and its caller hears nothing at all |
| SupervisorGrants.ConcludeKeepsGrants | crates/remtene-adapters/src/asr_worker.rs:762-874 | ending a transcription keeps that accounting for every outcome of the removal |
| SupervisorDeadlines.BoundedResolution | crates/remtene-adapters/src/asr_worker.rs:568-655 | whatever the worker sends, an accepted transcription is pending only within its deadline, two cancel timeouts, one shutdown timeout and four gaps between enforcements |
| SupervisorDeadlines.HealthAndShutdownBounded | crates/remtene-adapters/src/asr_worker.rs:876-914 | a health check is pending only within its timeout, a shutdown within its own, plus one gap |
| SupervisorDeadlines.NextTimely | crates/remtene-adapters/src/asr_worker.rs:876-938 | the measure behind the bound: each of the three timers resets the cancel deadline at most once per request |
| SupervisorTimers.NothingTimesOutEarly | crates/remtene-adapters/src/asr_worker.rs:876-914 | a sweep of an open supervisor leaves the slots, the process, the replies and the grants as they were exactly if the clock is before every armed deadline, where a request's own counts while no cancel timer is set |
| SupervisorTimers.HealthTimesOut | crates/remtene-adapters/src/asr_worker.rs:876-914 | a health check's timer fails the process, and the check is told of the timeout |
| SupervisorTimers.RequestTimesOut | crates/remtene-adapters/src/asr_worker.rs:916-938 | a request's timer sends the cancellation, arms the cancel timer, and remembers the timeout as what it is told in the end |
| SupervisorTimers.ProcessTimesOut | crates/remtene-adapters/src/asr_worker.rs:876-914 | the cancel timer and the shutdown's fail the process, and exactly those pending are told |
| SupervisorTimers.FailureTellsEveryone | crates/remtene-adapters/src/asr_worker.rs:940-970 | whom a failed process tells what, and what it leaves on disk |
| SupervisorTimers.DeadlinesAreKept | crates/remtene-adapters/src/asr_worker.rs:448-655 | at every point of every run a pending deadline is the time of acceptance plus what the request asked for, or the timeout of its kind, where the clock can represent that |
| SupervisorReplies.TranscriptAnsweredIff | crates/remtene-adapters/src/asr_worker.rs:762-791 | a transcript is handed out exactly when the worker sent the transcript of the pending request (session, request, engine and model), no cancellation of it was accepted, and its audio was removed; it carries the worker's text |
| SupervisorReplies.CancelSucceedsIff | crates/remtene-adapters/src/asr_worker.rs:793-874 | an accepted cancellation succeeds exactly when the worker confirms it, or completes the shutdown, and the audio was removed |
| SupervisorAnswers.HealthAnswered | crates/remtene-adapters/src/asr_worker.rs:448-488 | when a health check is taken on, with what in its slot, and what its caller is told otherwise |
| SupervisorAnswers.TranscriptionRefused | crates/remtene-adapters/src/asr_worker.rs:490-534 | when a transcription is refused before anything is sent, and with what: closed, busy, no worker, or each way its audio can be missing |
| SupervisorAnswers.TranscriptionSent | crates/remtene-adapters/src/asr_worker.rs:535-566 | otherwise it is taken on with its grant on disk exactly if the message gets through, and all of its slot |
| SupervisorAnswers.CancelAnswered | crates/remtene-adapters/src/asr_worker.rs:568-609 | when a cancellation succeeds at once, is refused, or is taken on; then only the fate and the timer of the request change |
| SupervisorAnswers.ShutdownAnswered | crates/remtene-adapters/src/asr_worker.rs:611-655 | when a shutdown is refused, done at once, or returns |
| SupervisorAnswers.ShutdownSent | crates/remtene-adapters/src/asr_worker.rs:611-655 | with a worker it tells a pending health check, takes over a pending request's timer, and waits |
| SupervisorAnswers.WorkerErrorMeans | crates/remtene-adapters/src/asr_worker.rs:820-854 | which fault a worker's error code and key stand for |
| SupervisorAnswers.HealthAnsweredIff | crates/remtene-adapters/src/asr_worker.rs:741-760 | a pending check gets the worker's status exactly from an allowed result about this check, engine and model |
| SupervisorAnswers.CancelledTells | crates/remtene-adapters/src/asr_worker.rs:793-818 | a confirmed cancellation ends the request with the timeout, the shutdown, or that it was cancelled, whichever was decided |
| SupervisorAnswers.ErrorTells | crates/remtene-adapters/src/asr_worker.rs:820-854 | an error about the request ends it with what was decided before or with itself, and ends the process exactly if it is fatal |
| SupervisorAnswers.ShutdownCompleteTells | crates/remtene-adapters/src/asr_worker.rs:856-874 | whom the end of a shutdown tells what |
| SupervisorAnswers.StrayMessageFails | crates/remtene-adapters/src/asr_worker.rs:716-874 | a lost pipe, a refused message, one that nothing pending waits for, and an error about another session or request fail the process as a protocol violation |
| SupervisorAnswers.MismatchFails | crates/remtene-adapters/src/asr_worker.rs:762-818 | so does a transcript after an accepted cancellation or of another request, engine or model, and a foreign cancellation; the request and its cancellation are told |
| SupervisorAnswers.HealthMismatchFails | crates/remtene-adapters/src/asr_worker.rs:741-760 | and a health result about another check, engine or model |
| SupervisorAnswers.HealthErrorTells | crates/remtene-adapters/src/asr_worker.rs:820-854 | what an error about the check alone would be told as, if the guard let it through |
| ProtocolAnswers.CoreWellFormedIff | crates/remtene-contracts/src/worker.rs:310-360 | exactly the core envelopes that are well formed |
| ProtocolAnswers.WorkerWellFormedIff | crates/remtene-contracts/src/worker.rs:534-620 | exactly the worker envelopes that are |
| ProtocolAnswers.HeaderErrorFirst | crates/remtene-contracts/src/worker.rs:947-973 | what is wrong with an envelope is told by its header first: version, nil identifiers, timestamp |
| ProtocolAnswers.NamingErrors | crates/remtene-contracts/src/worker.rs:1024-1068 | then by the ids it names: one too few, one too many, or another |
| ProtocolAnswers.WorkerNamingErrors | crates/remtene-contracts/src/worker.rs:1024-1068 | the same for the worker's messages; an error may name a request or none, not half of one |
| ProtocolAnswers.ContentErrors | crates/remtene-contracts/src/worker.rs:310-360 | last comes the content: an invalid field, or in a greeting a version that is not offered or a value that comes twice |
| ProtocolAnswers.CoreAllowedIff | crates/remtene-contracts/src/worker.rs:722-945 | exactly when the guard lets a core message through, by phase and active requests |
| ProtocolAnswers.CoreMoves | crates/remtene-contracts/src/worker.rs:722-945 | and what it remembers of it; a refused one changes nothing |
| ProtocolAnswers.CoreRefusals | crates/remtene-contracts/src/worker.rs:722-945 | which error a refused one is |
| ProtocolAnswers.WorkerAllowedIff | crates/remtene-contracts/src/worker.rs:722-945 | exactly when it lets a worker message through |
| ProtocolAnswers.WorkerMoves | crates/remtene-contracts/src/worker.rs:722-945 | what it remembers of that |
| ProtocolAnswers.WorkerRefusals | crates/remtene-contracts/src/worker.rs:722-945 | which error a refused one is; only a greeting that does not meet core's terms closes the guard |
| ProtocolLink.GuardsPartIff | crates/remtene-contracts/src/worker.rs:722-945 | over every run of both ends, each with its guard, and the two pipes, whatever they send and whenever they read: an end refuses a message the other was allowed to send exactly if it crossed a shutdown, the end of its request, or the closing message; until then each request core waits for is running, on its way to the worker, or on its way back, and nowhere twice |
| ProtocolLink.CoreRefusesIff | crates/remtene-contracts/src/worker.rs:722-945 | core refuses exactly a greeting, health result or transcript that crossed its shutdown |
| ProtocolLink.WorkerRefusesIff | crates/remtene-contracts/src/worker.rs:722-945 | the worker refuses exactly what reaches it after it closed, and the cancellation of a request that it has already ended |
| ProtocolLink.CancelCrossesTranscript | crates/remtene-contracts/src/worker.rs:722-945 | a run, for any well formed messages, in which a cancellation crosses the transcript and breaks the connection |
| SupervisorGuard.HandshakeServes | crates/remtene-adapters/src/asr_worker.rs:657-691 | a handshake that succeeds leaves the guard serving with nothing active |
| SupervisorGuard.SendsIff | crates/remtene-adapters/src/asr_worker.rs:448-655 | exactly the commands that get as far as the guard and the pipe: the others do not depend on them, and of these a refusal ends the process |
| SupervisorGuard.GuardAgrees | crates/remtene-adapters/src/asr_worker.rs:448-914 | with the real protocol guard in place of an arbitrary verdict every run is a run of the actor, and at every point the guard agrees with the slots: it serves until a shutdown is pending, and its one active request is the pending transcription |
| SupervisorGuard.AllowedIff | crates/remtene-contracts/src/worker.rs:722-945 | exactly the messages that the guard lets through, told in terms of the slots |
| SupervisorGuard.CommandFailsIff | crates/remtene-adapters/src/asr_worker.rs:448-655 | a command that is sent over a working pipe ends the process exactly if its values are unfit or it cancels a request while a shutdown is pending |
| SupervisorGuard.DeadlineCancelPasses | crates/remtene-adapters/src/asr_worker.rs:916-938 | the cancellation that a deadline sends is never refused by the guard |
| SupervisorGuard.TextAnsweredIff | crates/remtene-adapters/src/asr_worker.rs:716-791 | a transcript is handed out exactly when it is well formed and of the pending request, engine and model, and neither a cancellation nor a shutdown overtook it, and the audio was removed |
| SupervisorGuard.ShutdownFailsIff | crates/remtene-adapters/src/asr_worker.rs:716-874 | exactly the messages that fail a pending shutdown; a completion is its success, and all others leave it pending |
| SupervisorGuard.CrossingShutdownFails | crates/remtene-adapters/src/asr_worker.rs:716-739 | a transcript or health result that crosses a shutdown in the pipe always fails the process |
| SupervisorGuard.TranscriptCrossesShutdown | crates/remtene-adapters/src/asr_worker.rs:716-739 | a concrete run, for any request and model, in which a finished transcript is lost that way |
| SupervisorGuard.HealthErrorFails | crates/remtene-adapters/src/asr_worker.rs:820-854 | while a health check is pending any error message fails the process: the guard refuses one that names only the check, so the branch that would answer the check with the mapped error is never reached |
| SupervisorActor.SupervisorActor.Revoke | crates/remtene-adapters/src/asr_worker.rs:1345-1378 | removes the grant file at once, on the second attempt of the drop, or not at all; the last two are reported |
| SupervisorActor.SupervisorActor.FailEverything | crates/remtene-adapters/src/asr_worker.rs:952-970 | answers every pending caller with the failure, or with the failed removal of the audio, and empties all three slots |
| SupervisorActor.SupervisorActor.Fail | crates/remtene-adapters/src/asr_worker.rs:940-950 | answers everyone, ends the process, and closes the supervisor if a closing shutdown was pending |
| SupervisorActor.SupervisorActor.BeginHealth | crates/remtene-adapters/src/asr_worker.rs:448-488 | takes the slot, or answers at once, exactly as counted by AnsweredOnceOrHeld; a failed send fails the whole process |
| SupervisorActor.SupervisorActor.BeginTranscription | crates/remtene-adapters/src/asr_worker.rs:490-566 | takes the slot with a grant on disk, or answers at once without one, reporting a grant that cannot be taken back |
| SupervisorActor.SupervisorActor.BeginCancel | crates/remtene-adapters/src/asr_worker.rs:568-609 | succeeds at once for a request that is not pending; otherwise holds the caller and arms the cancel timer, once per request |
| SupervisorActor.SupervisorActor.BeginShutdown | crates/remtene-adapters/src/asr_worker.rs:611-655 | answers a pending health check, arms the shutdown timer, and stops the loop only if nothing is left pending |
| SupervisorActor.SupervisorActor.HandleCommand | crates/remtene-adapters/src/asr_worker.rs:424-446 | hands the next ticket to the command and dispatches it; the result is the step over which all run theorems are proved |
| SupervisorActor.SupervisorActor.OnHealthResult | crates/remtene-adapters/src/asr_worker.rs:741-760 | answers the check only for the request, engine and model it is about; anything else fails the process |
| SupervisorActor.SupervisorActor.OnTranscript | crates/remtene-adapters/src/asr_worker.rs:762-791 | answers as TranscriptAnsweredIff says; a transcript after an accepted cancellation is a protocol violation |
| SupervisorActor.SupervisorActor.OnCancelled | crates/remtene-adapters/src/asr_worker.rs:793-818 | answers the request and its cancellation as CancelSucceedsIff says |
| SupervisorActor.SupervisorActor.OnWorkerError | crates/remtene-adapters/src/asr_worker.rs:820-854 | answers the one request the error names, fails the process if it names none or is fatal |
| SupervisorActor.SupervisorActor.OnShutdownComplete | crates/remtene-adapters/src/asr_worker.rs:856-874 | answers the pending transcription and the shutdown, ends the process, and closes if asked to |
| SupervisorActor.SupervisorActor.HandleDelivery | crates/remtene-adapters/src/asr_worker.rs:716-739 | a message is looked at only after the guard allowed it; a broken pipe or a refusal fails the process |
| SupervisorActor.SupervisorActor.DrainWorkerOutput | crates/remtene-adapters/src/asr_worker.rs:697-714 | the loop takes messages until there are no more or no process |
| SupervisorActor.SupervisorActor.Enforce | crates/remtene-adapters/src/asr_worker.rs:876-914 | compares every timer with one clock reading; the bound of BoundedResolution rests on it |
| SupervisorActor.SupervisorActor.RunRound | crates/remtene-adapters/src/asr_worker.rs:403-422 | one turn of the loop is the run of its steps |
| WorkerAnswers.OneTerminalEach | crates/remtene-asr-worker/src/lib.rs:413-627 | over every interleaving, however soon the pipe breaks: no request gets more terminal messages than times it was accepted; a graceful exit and a shutdown timeout leave none without one; while the loop runs only the active one waits |
| WorkerAnswers.StepSettles | crates/remtene-asr-worker/src/lib.rs:413-627 | every event keeps the books, and the only ways to a protocol failure are a core message the guard refuses, a blank engine text, or an unusable health report: nothing else the loop emits is ever refused |
| WorkerAnswers.CancelFindsRequest | crates/remtene-asr-worker/src/lib.rs:502-510 | an accepted cancellation always finds the request it names active, so the loop's expectation cannot fail |
| WorkerAnswers.GuardsVerdict | crates/remtene-asr-worker/src/lib.rs:786-798 | the guard lets through every verdict that can be sent, in every phase in which one can come up |
| WorkerVerdicts.StoppedRequestHasNoTranscript | crates/remtene-asr-worker/src/lib.rs:524-595 | at any point of any run, once a cancellation is accepted or the deadline fires, the request's first terminal message is no transcript; a cancelled one is told so unless the shutdown gives up on it |
| WorkerVerdicts.MarkedNeverTranscribed | crates/remtene-asr-worker/src/lib.rs:541-570 | the same from any state with a marked request, whatever the engine returns |
| WorkerVerdicts.TranscriptWrittenIff | crates/remtene-asr-worker/src/lib.rs:524-583 | a transcript is written exactly when the active request's inference comes back with a presentable text before it was cancelled or timed out and the pipe takes it; it carries the engine's text |
| WorkerVerdicts.GracefulIff | crates/remtene-asr-worker/src/lib.rs:511-583 | the loop ends gracefully exactly when a shutdown finds nothing running or the last inference comes back after it, and the pipe takes the messages; closing the input never is a graceful end |
| WorkerVerdicts.StaleEventIgnoredIff | crates/remtene-asr-worker/src/lib.rs:524-595 | a late deadline or result touches the current request exactly when the ids are the same |
| WorkerVerdicts.ReusedIdsInheritTheDeadline | crates/remtene-asr-worker/src/lib.rs:584-595 | ids that are used again do collide: the new request is accepted and the old timer costs it its transcript |
| WorkerResponses.HelloAnswered | crates/remtene-asr-worker/src/lib.rs:421-440 | the hello is answered with what the worker is and can do |
| WorkerResponses.HealthAnswered | crates/remtene-asr-worker/src/lib.rs:441-452 | a health check with what the engine says, about this check |
| WorkerResponses.TranscribeAnswered | crates/remtene-asr-worker/src/lib.rs:453-501 | a request is taken on exactly when none is active and its audio is there; otherwise it is told which |
| WorkerResponses.CancelMarks | crates/remtene-asr-worker/src/lib.rs:502-510 | a cancellation marks the request, stops its inference, and writes nothing |
| WorkerResponses.DeadlineMarks | crates/remtene-asr-worker/src/lib.rs:584-595 | so does the deadline of the active request, and of no other |
| WorkerResponses.InferenceAnswered | crates/remtene-asr-worker/src/lib.rs:524-583 | what an inference that came back amounts to: cancelled before timed out before the engine's own answer |
| WorkerResponses.EngineErrorWrittenIff | crates/remtene-asr-worker/src/lib.rs:524-583 | an engine's error is written exactly when it is that of the active request, neither cancelled nor timed out, with its own code, retryability and key |
| WorkerResponses.ShutdownAnswered | crates/remtene-asr-worker/src/lib.rs:511-523 | a shutdown is complete at once with nothing running, otherwise it cancels what runs |
| WorkerResponses.LastInferenceAnswered | crates/remtene-asr-worker/src/lib.rs:524-583 | the inference a shutdown waited for: the request is told, then the shutdown is complete |
| WorkerResponses.ShutdownDeadlineAnswered | crates/remtene-asr-worker/src/lib.rs:596-612 | a request that outlasts the grace period is reported as fatal |
| WorkerResponses.RefusalAnswered | crates/remtene-asr-worker/src/lib.rs:413-420 | whatever the guard refuses is reported with its code and ends the loop |
| WorkerResponses.InputLost | crates/remtene-asr-worker/src/lib.rs:613-627 | an unreadable frame is reported; an input that ends stops the inference |
| WorkerProtocol.WorkerProtocolState.ObserveCoreMessage | crates/remtene-contracts/src/worker.rs:772-815 | accepts a core message exactly in the phase it belongs to and with ids that are new, or active for a cancellation; otherwise the state is unchanged |
| WorkerProtocol.WorkerProtocolState.ObserveWorkerMessage | crates/remtene-contracts/src/worker.rs:817-881 | accepts a worker message exactly in its phase and completes exactly one active request; a failed negotiation closes the guard |
| WorkerLoop.Worker.EmitMessage | crates/remtene-asr-worker/src/lib.rs:786-798 | a message leaves only if the guard allows it, and the guard has moved even if the pipe breaks |
| WorkerLoop.Worker.EmitFatalError | crates/remtene-asr-worker/src/lib.rs:800-853 | reports a fatal error; before the hello the guard is not asked |
| WorkerLoop.Worker.HandleReceived | crates/remtene-asr-worker/src/lib.rs:415-523 | rejects fatally what the guard refuses, answers a second request as busy, and finds the request an accepted cancellation names |
| WorkerLoop.Worker.HandleFinished | crates/remtene-asr-worker/src/lib.rs:524-583 | sends the verdict of the active request only, then the shutdown's completion if one is waiting |
| WorkerLoop.Worker.HandleShutdownDeadline | crates/remtene-asr-worker/src/lib.rs:596-612 | gives up on the active request with a fatal error, or ignores a deadline that has nothing to end |
| WorkerLoop.Worker.Handle | crates/remtene-asr-worker/src/lib.rs:413-627 | one turn of the loop is the step over which the run theorems are proved |
| WorkerLoop.Worker.RunWorker | crates/remtene-asr-worker/src/lib.rs:395-630 | the loop is the run of its events and ends balanced |
| EngineLeases.CountIsLeases | crates/remtene-asr-worker/src/qwen_engine.rs:103-183 | however callers, reapers and unloads interleave on one engine, the count is the number of leases that have not given it back, and every copy in memory is the engine's or that of a lease being dropped |
| EngineLeases.OneCopyIff | crates/remtene-asr-worker/src/qwen_engine.rs:294-303 | a lease gives back its count before its copy; one engine alone keeps to one copy throughout a run exactly if it never loads while an unloaded copy still waits for that |
| EngineLeases.TwoCopies | crates/remtene-asr-worker/src/qwen_engine.rs:294-303 | the run in which it does, with two copies in memory |
| EngineLeases.LeasedModelStays | crates/remtene-asr-worker/src/whisper_engine.rs:143-197 | a leased model is never unloaded or replaced until its lease is dropped |
| EngineLeases.LeasedEngine.EnsureLoaded | crates/remtene-asr-worker/src/qwen_engine.rs:103-127 | success means a model is loaded and its idle clock restarted; a failed load changes nothing |
| EngineLeases.LeasedEngine.Lease | crates/remtene-asr-worker/src/qwen_engine.rs:129-147 | hands out the loaded copy and counts it, or nothing |
| EngineLeases.LeasedEngine.Release | crates/remtene-asr-worker/src/qwen_engine.rs:149-156 | returns one lease and restarts the idle clock |
| EngineLeases.LeasedEngine.UnloadIfIdle | crates/remtene-asr-worker/src/qwen_engine.rs:158-172 | unloads exactly a loaded model that nobody leases and nobody used for the keep-alive time |
| EngineLeases.LeasedEngine.UnloadNow | crates/remtene-asr-worker/src/qwen_engine.rs:174-183 | unloads exactly if nobody holds a lease |
| EngineLeases.ReapedIff | crates/remtene-asr-worker/src/qwen_engine.rs:158-172 | a reaper unloads exactly a loaded model that nobody leases and that was last used the keep-alive time ago or longer |
| EngineLeases.LeasesCounted | crates/remtene-asr-worker/src/qwen_engine.rs:129-156 | leases are counted up and down, not below zero, and every return restarts the idle clock |
| CompositeEngine.CallRuns | crates/remtene-asr-worker/src/qwen_engine.rs:129-156 | a call that finds its model gets its lease, gives back the count, then the copy, and only then the lock |
| CompositeEngine.OneModelInMemory | crates/remtene-asr-worker/src/lib.rs:142-213 | under the composite lock the exception cannot occur: in every interleaving only the active engine's model is loaded, no more than one copy of any model is in memory, also while a lease is dropped, and at most one lease exists |
| CompositeEngine.ShutdownFreesEverything | crates/remtene-asr-worker/src/lib.rs:203-213 | the unload at shutdown waits for the lock, so it always frees every model |
| CompositeEngine.StepsAreTheComposites | crates/remtene-asr-worker/src/lib.rs:142-213 | the switch and the unload in the interleavings are the ones the composite performs |
| CompositeEngine.LeaseRefusedIff | crates/remtene-asr-worker/src/qwen_engine.rs:129-147 | a call that loaded its model is refused its lease exactly when a reaper ran in between, the keep-alive time or more later |
| CompositeEngine.CompositeEngineBackend.SwitchTo | crates/remtene-asr-worker/src/lib.rs:142-159 | unloads the engine it switches away from before the new one is active; without a backend nothing changes |
| CompositeEngine.CompositeEngineBackend.Unload | crates/remtene-asr-worker/src/lib.rs:203-213 | takes the active engine and unloads it |
| Framing.ReadProtocolFrame | crates/remtene-asr-worker/src/lib.rs:702-728 | the result, and after a frame the bytes left, are functions of the concatenated stream alone, however it is chunked, including the 8 MiB bound |
| Framing.DrainFrames | crates/remtene-asr-worker/src/lib.rs:673-700 | the reading loop gives the frames and the end that the whole stream determines |
| Framing.FrameReadBackIff | crates/remtene-adapters/src/asr_worker.rs:1589-1615 | a frame written with a line feed is read back as it was exactly when it is non-empty, within the bound, and has no line feed and no trailing carriage return |
| Framing.TransparentIff | crates/remtene-asr-worker/src/lib.rs:702-728 | such frames have at least one byte and fewer than 8388608, no byte 10, and no 13 at the end |
| Framing.LineAnswered | crates/remtene-asr-worker/src/lib.rs:702-728 | what the reader answers to any line and to bytes that no line feed ends |
| Framing.PipeRoundTrip | crates/remtene-adapters/src/asr_worker.rs:1033-1043 | any sequence of such frames is read back exactly, before whatever follows |
| Framing.TruncatedPipe | crates/remtene-asr-worker/src/lib.rs:877-886 | a pipe cut anywhere yields a prefix of the frames and then an error, unless it was cut between frames |
| Redaction.RedactBearerTokens | crates/remtene-adapters/src/llm.rs:706-750 | terminates, slices only where characters start, and equals the leftmost recursive redaction |
| Redaction.NothingSkipped | crates/remtene-adapters/src/llm.rs:720-737 | moving the cursor past a word that introduces no token skips no token |
| Redaction.CopyUpTo | crates/remtene-adapters/src/llm.rs:706-750 | every byte outside a token is copied in order |
| RedactionLaws.WholeTokenReplaced | crates/remtene-adapters/src/llm.rs:706-750 | "bearer" in any case, white space, and a token of characters that are neither white space nor one of the eight terminators, before nothing or such a character, lose exactly the token, and what follows is redacted on its own |
| RedactionLaws.TokenInTextReplaced | crates/remtene-adapters/src/llm.rs:706-750 | the same behind any text that does not end inside a word |
| RedactionLaws.UntilIntroduced | crates/remtene-adapters/src/llm.rs:706-750 | up to the first introduction the text is copied |
| RedactionLaws.UnintroducedUnchanged | crates/remtene-adapters/src/llm.rs:706-750 | text without an introduction is unchanged |
| RedactionLaws.PlaceholdersSpelled | crates/remtene-adapters/src/llm.rs:675-750 | the two placeholders as text |
| DiagnosticLaws.ControlsGone | crates/remtene-adapters/src/llm.rs:692-704 | normalised text has no control characters but tabs and line feeds |
| DiagnosticLaws.WantedUnchanged | crates/remtene-adapters/src/llm.rs:692-704 | text that has none of them, in whatever script, is not changed |
| DiagnosticLaws.ControlsReplaced | crates/remtene-adapters/src/llm.rs:692-704 | each of them alone becomes U+FFFD |
| DiagnosticLaws.ReturnsReplaced | crates/remtene-adapters/src/llm.rs:692-704 | a carriage return becomes a line feed, with or without one behind it |
| DiagnosticLaws.JsonReadsBack | crates/remtene-adapters/src/llm.rs:675-690 | the escaped spelling of a key reads back as the key |
| DiagnosticLaws.EscapesSpelled | crates/remtene-adapters/src/llm.rs:675-690 | and is the one the serialiser writes |
| Diagnostics.SanitizedIsKeyFree | crates/remtene-adapters/src/llm.rs:675-690 | no occurrence of a key survives if the key cannot overlap a placeholder, brackets or not |
| Diagnostics.SanitizedIsEscapedKeyFree | crates/remtene-adapters/src/llm.rs:675-690 | nor does the key as a JSON string spells it |
| DiagnosticKeys.HiddenKeysNeverShown | crates/remtene-adapters/src/llm.rs:675-750 | among keys of visible ASCII without quote and backslash, with brackets or without, exactly the hidden ones are never shown: those that are no part of a placeholder, contain no key placeholder, and that no text before or behind a placeholder completes |
| DiagnosticKeys.NotHiddenShown | crates/remtene-adapters/src/llm.rs:675-750 | for every other such key the body that shows it |
| DiagnosticKeys.DoubleBracketIsHidden | crates/remtene-adapters/src/llm.rs:675-690 | a key of two opening brackets is hidden although it ends as a placeholder begins |
| Diagnostics.KeysNeverShown | crates/remtene-adapters/src/llm.rs:675-690 | among all keys without brackets, exactly those that are no part of a placeholder are never shown |
| Diagnostics.BracketKeyShows | crates/remtene-adapters/src/llm.rs:675-690 | keys with a bracket that are no part of a placeholder can be put together by the replacement itself: a family of inputs |
| Diagnostics.SanitizeKeepsUtf8 | crates/remtene-adapters/src/llm.rs:675-704 | sanitised text is valid UTF-8 |
| Diagnostics.TruncateUtf8Bytes | crates/remtene-adapters/src/llm.rs:752-761 | the longest prefix within the bound that ends at a character boundary, at most three bytes short of it |
| DiagnosticKeys.ShownDiagnostic | crates/remtene-adapters/src/llm.rs:655-673 | what is shown is within the bound, a prefix of the sanitised text, and free of the key |
| LifecycleFence.NoLostWakeup | crates/remtene-application/src/ports.rs:80-204 | in every interleaving the count is the number of live guards, and once the last is gone every waiting task has its wake-up on the way |
| LifecycleFence.QuiescedForever | crates/remtene-application/src/ports.rs:96-129 | once closed and drained, the count stays zero and nothing is written |
| LifecycleFence.NoWriteAfterQuiescence | crates/remtene-application/src/ports.rs:131-143 | after an invalidation at any point of any run and a poll that then comes back ready, nothing is ever written under the fence again |
| LifecycleFence.QuiescenceNeedsInvalidation | crates/remtene-application/src/ports.rs:183-204 | a ready poll promises this exactly when the fence was closed |
| LifecycleFence.LifecycleFence.BeginCommit | crates/remtene-application/src/ports.rs:96-110 | hands out a guard exactly while the fence is open |
| LifecycleFence.LifecycleFence.Invalidate | crates/remtene-application/src/ports.rs:112-129 | closes the fence and returns everybody waiting exactly if nothing is in flight |
| LifecycleFence.LifecycleFence.DropGuard | crates/remtene-application/src/ports.rs:157-172 | the last guard returns everybody waiting, an earlier one nobody |
| LifecycleFence.LifecycleFence.Poll | crates/remtene-application/src/ports.rs:183-204 | ready exactly when nothing is in flight, otherwise registered once |
| HistoryStore.FileHistoryStore.SaveWithPolicy | crates/remtene-adapters/src/file_history_store.rs:122-160 | all or nothing under the fence: success is exactly Save, failure leaves the file |
| HistoryStore.FileHistoryStore.EnforcePolicy | crates/remtene-adapters/src/file_history_store.rs:180-207 | all or nothing under the fence: success is exactly Enforce, failure leaves the file |
| HistoryStore.FileHistoryStore.ClearAll | crates/remtene-adapters/src/file_history_store.rs:173-178 | empties the file or changes nothing; the fence is not asked |
| HistoryAnswers.CutoffInMilliseconds | crates/remtene-adapters/src/file_history_store.rs:210-232 | a retention reaches back 86400000 milliseconds a day, and not before the beginning of time |
| HistoryAnswers.ExpiredIff | crates/remtene-application/src/history_settings_controller.rs:186-202 | a record has expired exactly when it is older than that |
| HistoryAnswers.SaveAnswers | crates/remtene-adapters/src/file_history_store.rs:122-160 | what a save answers: unchanged with saving off, a conflict exactly for the same id with other content, the closed fence, and otherwise the newest of the old records and the new one |
| HistoryAnswers.EnforceAnswers | crates/remtene-adapters/src/file_history_store.rs:180-207 | enforcing is refused by the closed fence alone |
| HistoryAnswers.LimitChangesIff | crates/remtene-application/src/history_settings_controller.rs:108-157 | a new limit is accepted exactly when the request is current, the records can be counted if saving is on, those that would go are confirmed, the policy is valid, and the ports work |
| HistoryAnswers.LimitAsksIff | crates/remtene-application/src/history_settings_controller.rs:108-157 | it asks for a confirmation exactly when saving is on and records would go |
| HistoryAnswers.ConfirmedLimitTrims | crates/remtene-application/src/history_settings_controller.rs:108-157 | an accepted limit is stored under the next version and leaves exactly the newest unexpired records if there were more, all of them otherwise |
| HistoryAnswers.LimitRefusals | crates/remtene-application/src/history_settings_controller.rs:108-157 | why a limit is refused; settings that were stored stay even if the trimming fails |
| HistoryAnswers.RetentionChangesIff | crates/remtene-application/src/history_settings_controller.rs:159-218 | the same for a retention, where what has to be confirmed has expired by the controller's clock |
| HistoryAnswers.RetentionAsksIff | crates/remtene-application/src/history_settings_controller.rs:159-218 | when it asks for a confirmation |
| HistoryAnswers.ConfirmedRetentionTrims | crates/remtene-application/src/history_settings_controller.rs:159-218 | an accepted retention is stored and, with saving on, the whole policy is applied by the store's clock |
| HistoryAnswers.RetentionRefusals | crates/remtene-application/src/history_settings_controller.rs:159-218 | why a retention is refused |
| HistoryAnswers.EnablingIff | crates/remtene-application/src/history_settings_controller.rs:72-106 | when saving is switched, and that the file is never touched |
| HistoryAnswers.ListedBeforeIff | crates/remtene-application/src/history_controller.rs:195-202 | later records are listed first, and of the same time those with the greater id |
| HistoryAnswers.AcceptableIff | crates/remtene-application/src/history_controller.rs:186-203 | a list is accepted exactly if no text is blank and it has as many identities as records |
| HistoryEviction.PolicyKeepsNewest | crates/remtene-adapters/src/file_history_store.rs:218-248 | one application keeps exactly the newest unexpired records by time and id, oldest first |
| HistoryEviction.EvictionComposes | crates/remtene-adapters/src/file_history_store.rs:218-248 | evicting earlier under a rule that is no stricter never changes what a later eviction keeps |
| HistoryEviction.EnforceComposes | crates/remtene-adapters/src/file_history_store.rs:218-248 | applying a policy and later one at least as strict gives what applying the later one once would; with one policy and clock reading it is idempotent |
| HistoryEviction.KeptIdsUnique | crates/remtene-adapters/src/file_history_store.rs:135-158 | eviction keeps ids unique |
| HistoryLife.LifeIsOrdered | crates/remtene-adapters/src/file_history_store.rs:122-207 | over any series of saves, enforcements and clearings, each under its own policy and clock, the file is in order, has each id once, and holds only what was saved |
| HistoryLife.HoldsNewestIff | crates/remtene-adapters/src/file_history_store.rs:122-207 | after any operation that applies its policy, the file holds the newest unexpired records ever saved exactly if none of them was evicted before |
| HistoryLife.FileHoldsNewestEverSaved | crates/remtene-adapters/src/file_history_store.rs:122-207 | so it always does as long as the policy was only tightened, whatever was retried, enforced or cleared on the way |
| HistoryLife.OnePolicyNeverLoosens | crates/remtene-adapters/src/file_history_store.rs:122-207 | one policy under a clock that does not run backwards is such a series |
| HistoryLife.LoosenedLimitMisses | crates/remtene-adapters/src/file_history_store.rs:218-248 | a raised limit does not bring back what a lower one evicted |
| HistoryControllers.ValidatedRecords | crates/remtene-application/src/history_controller.rs:186-203 | refuses exactly the lists with a blank text or a repeated id, and sorts the others newest first |
| HistoryControllers.ListingShowsNewestFirst | crates/remtene-application/src/history_controller.rs:120-142 | for any file that only the store wrote, over any series of operations, the listing is the exact reverse of the file, and it is accepted exactly when no text in the file is blank |
| HistoryControllers.HistoryControllers.ChangeEnabled | crates/remtene-application/src/history_settings_controller.rs:72-106 | changes the switch and never the file; the limit and the retention stay |
| HistoryControllers.HistoryControllers.ChangeLimit | crates/remtene-application/src/history_settings_controller.rs:108-157 | needs a confirmation exactly when saving is on and there are more records than the new limit, and only then trims |
| HistoryControllers.HistoryControllers.ChangeRetentionDays | crates/remtene-application/src/history_settings_controller.rs:159-218 | needs a confirmation exactly when saving is on and a record expires by the clock of the controller, and then enforces by the clock of the store |
| HistoryControllers.HistoryControllers.LoadForListing | crates/remtene-application/src/history_controller.rs:120-135 | the first half of a listing: the stored policy, without the configuration gate |
| HistoryControllers.HistoryControllers.FinishListing | crates/remtene-application/src/history_controller.rs:129-142 | the second half: applies the policy that was loaded, be it the stored one or not, then lists what is left; says exactly when it succeeds, and what the file is even when it fails |
| HistoryControllers.HistoryControllers.ShowList | crates/remtene-application/src/history_controller.rs:120-142 | both halves with nothing in between |
| HistoryControllers.HistoryControllers.ClearAll | crates/remtene-application/src/history_controller.rs:166-177 | clears and counts, or changes nothing |
| HistoryLoss.UnconfirmedLimitKeepsFile | crates/remtene-application/src/history_settings_controller.rs:108-157 | without confirmation a limit change never touches the file |
| HistoryLoss.UnconfirmedRetentionKeepsAllIff | crates/remtene-application/src/history_settings_controller.rs:159-218 | a successful unconfirmed retention change keeps every record exactly when the retention is as before, or saving is off, or the retention is unlimited, or the history was within its limit with nothing expiring between the two clock readings |
| HistoryLoss.EnforcementKeepsAllIff | crates/remtene-adapters/src/file_history_store.rs:218-248 | enforcement removes nothing exactly when the file is within its limit and nothing has expired |
| HistoryLoss.RunKeepsAllIff | crates/remtene-application/src/history_settings_controller.rs:72-218 | over any run of unconfirmed changes, listings and saves, whatever the clocks, the ports and stale policies do, nothing is ever removed exactly when no policy was applied to records over its limit or with something expired; without saves, that is when the file keeps every record |
| HistoryLoss.FateIff | crates/remtene-adapters/src/file_history_store.rs:122-207 | over any such run a record is in the file in the end exactly if it was there or saved and has since neither expired at an application of a policy nor been outnumbered by its limit of newer records |
| HistoryLoss.RunLosesOnlyOutlived | crates/remtene-application/src/history_settings_controller.rs:72-218 | starting within the limit, never switching saving on over more records than the limit, and without stale policies, a record that is not saved again is lost exactly when it expires or a save into a full history pushes it out as the oldest |
| HistoryLoss.WithinLimitIff | crates/remtene-application/src/history_settings_controller.rs:72-106 | switching saving on over more records than the limit, or saving under an earlier and looser policy, are the only unconfirmed actions that leave an enabled history over its limit |
| HistoryLoss.EnablingThenListing | crates/remtene-application/src/history_settings_controller.rs:72-106 | the listing after switching saving on loses a record exactly when the switch was made over a history the policy would trim |
| HistoryLoss.LossWithoutConfirmation | crates/remtene-application/src/history_settings_controller.rs:72-157 | three ordinary unconfirmed changes and a listing that lose the older of two stored records |
| HistoryLoss.StaleListingLoses | crates/remtene-application/src/history_controller.rs:120-142 | a listing that loaded its policy before the limit was raised and a record saved trims to the old limit |
| Uuids.TextRoundTrip | crates/remtene-application/src/history_controller.rs:186-203 | the lower-case hyphenated text of an id reads back as the id |
| Uuids.TextOrderIsByteOrder | crates/remtene-application/src/history_controller.rs:186-203 | the order of the texts is the order of the bytes (section 4 of RFC 9562) |
| Uuids.ParseIff | crates/remtene-application/src/history_controller.rs:186-203 | of an identity exactly its text reads as the identity |
| Uuids.TextSpelled | crates/remtene-application/src/history_controller.rs:186-203 | the text has 36 characters with hyphens after 8, 4, 4 and 4 digits |

## Left out

- Process spawning, pipes, threads, file modes, links on the path to the store, SQLite, AES-GCM, SHA-256 and the parsing of JSON and URLs are abstract state or arguments.
- SecretOperations takes each operation as one step under the writer lock; only the crash theorem looks at the states in between. What an outside change in the middle of one operation does is not modelled.
- SecretCoherence: putting an old record back is not a step of the runs; RestoringIsHarmlessIff says exactly when it does harm. Forging a record would need the key and is excluded.
- DiagnosticKeys.HiddenKeysNeverShown: speaks of visible ASCII without quote and backslash. For other keys Diagnostics.KeysNeverShown is exact if they have no brackets, and Diagnostics.SanitizedIsKeyFree is sufficient.
- LlmConfiguration names a key by its endpoint: the fingerprint in the record id is taken to be injective. It does not run the secret store itself but any effects it could have.
- Reading operations of the LLM controller (status, reveal, connection test) decide nothing about which key belongs to which endpoint.
- Supervisor takes the guard's verdicts as arguments, and SupervisorGuard computes them; there the worker may send anything. ProtocolLink composes the two guards over the pipes, and the loops around them only through what their guards allow; a worker's fatal error before the greeting, which its guard is not asked about, is outside.
- SupervisorDeadlines.BoundedResolution: assumes a bound on the time between two enforcements, so a write that blocks on a full pipe, or a worker that keeps the draining loop busy, is outside it; it speaks of the time the actor runs, since a return may drop a late command (SupervisorEnd).
- SupervisorDeadlines.HealthAndShutdownBounded: the same assumption.
- Commands still queued when the actor returns are not answered; only dequeued ones are counted.
- WorkerRuntime does not model the threads themselves: any event may come at any time, so nothing is claimed about an inference that never comes back.
- Engine inference, audio decoding, language tables, memory pressure and the model files are not modelled; a load succeeds or fails as it likes.
- The in-flight counters are unbounded; under the composite lock at most one lease exists, so they cannot overflow.
- Framing.ReadProtocolFrame: the reader's buffer is the chunk handed out last; interrupted reads are the same as failing ones.
- HistoryLoss lets every action read the clock anew but takes it as one step; only a listing is split, at the point where it holds no gate.
- Hand-edited history files with other spellings of an id are read by the code and are not canonical here; the listing theorem is about files written by saves.
- FileSettingsStore's formats and migrations, the session phase machine, the coordinator, route selectors, prompts, HTTP status mapping, the front end and the platform adapters would only add easy members.
