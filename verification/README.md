# Verified models of the ayx credential and login protocols

These Dafny files model the parts of the `ayx` command-line tool whose mistakes
lose a credential or leak one, and prove what each part keeps.

* **Keyring and profile transactions.** The operating system's keyring and the
  YAML profile share no transaction. An on-disk journal, backup accounts inside
  the keyring, a target digest and a `rollback_restored` flag keep them together.
  `JournalMachine` is that protocol one durable operation at a time; each
  operation succeeds, fails before or after taking effect, or never happens
  because the process dies, in the writer, in rollback and in recovery alike.
  `CrashAtomicity` and `AtomicExactly` say exactly which transactions are atomic,
  `AnyEnding` what holds when one is not, `BlindRecovery` what a recovery does
  that cannot read the profile, and `Undisturbed` how a run ends in which nothing
  fails or one operation does. `HandRollback`, `HandProofs` and `HandFailures`
  do the same for the second writer, which login, logout and workspace switches
  use and which rolls back by hand.
  `KeyringTransaction` is `write_config_exact` and recovery as objects and loops,
  and each method is proved to be a run of the machine that accounts for every
  failure it reports. `SensitiveFile` is the atomic file replacement below it, with
  power loss; its `Faults` bound how many errors and deaths are still to come.
* **Refresh-token leases.** `LeaseSystem` interleaves any number of processes
  that share one profile lock, one keyring and one provider that rotates
  refresh tokens (section 6 of RFC 6749). Journal recovery and profile saves run
  in the same system, the saves with either rollback. `EveryHistory` has what holds
  of all histories, on the values that `TokenValues` tracks; `LeaseProofs` what more
  holds of histories without a late rollback and without a rollback by hand;
  `LeaseRuns` and `HandLeases` have the histories that go wrong.
  `OneCredentialStore` is the lease code itself.
* **Login.** `AuthMachine` owns the retry budgets, `AuthHistory` reads its state off
  the events it accepted, `WizardEngine` couples a pending step to a phase,
  `OtpExchange` and `OtpLanes` are the two email-OTP drivers over one shared set of
  requests, `OtpScript` has the rules for what may be said next, and `OtpEffects`
  counts side effects.
* **Profiles.** `WorkspaceCredentials` is the credential migration and workspace
  selection, `SecretSlots` and `SecretRoundTrip` are secret resolution, stripping
  and the saved file.
* **Encodings and scanners.** `CredentialBinding` is the canonical identity form,
  `Cuts`, `JwtRedaction`, `QueryRedaction` and `RedactionProofs` are the log redaction,
  `Pagination` is the listing loop, `CanonicalOperation` and `Coverage` are the
  API coverage report.

A `Durable` state is the keyring, the journal file and the profile. A `Vault` is
what it stands for: the real accounts and the profile text. `Pending(d, v)` says
that recovering `d` yields exactly `v`.

## What the proofs found

* A save through `write_config_exact` is all old or all new after any crashes,
  **except** when the new profile text equals the old one and at least two
  accounts change: a rollback that is then interrupted is taken for a commit. This
  supposes that profile writes fail only before their rename and that recoveries
  can read the profile. Without either, only transactions are safe that change no
  secret, or no text and at most one account (`AtomicExactlyWhen`).
* If the profile write reports an error after its rename, because the directory
  could not be synced, a complete rollback leaves the old secrets beside the new
  profile (`ErrorAfterRenameMixes`).
* Recovery takes a profile that it cannot read for one that does not match. After
  a crash behind the rename it then puts the old secrets under the new profile and
  reports success, or stops at a missing backup (`BlindRecoveryRevertsSecrets`,
  `BlindRecoveryMissesBackup`).
* The writer of login, logout and workspace switches answers an error after its
  stores by putting back the stored accounts alone and then deleting the journal
  and its backups. Accounts it had deleted are gone for good under the old profile
  (`DeletedAccountsAreLost`), and if it dies in the middle no later recovery can
  finish (`ExistingAccountBreaks`). It is atomic exactly if it deletes and
  overwrites no account that had a value, and more (`HandAtomicExactlyWhen`). After
  such a death no process gets past recovery any more: nobody saves, and no lease is
  ever granted (`HandFailureBlocksEveryone`).
* A save writes back every refresh token it loaded. If a lease rotates one between
  the load, which is outside the lock, and the save, the next refresh presents the
  superseded token although no rotation was lost (`LoadBeforeRotationIsReplayed`).
  In every history, whatever fails, a superseded token is presented only if a
  rotation was lost or a save began that aimed at a superseded token
  (`EveryHistory.RotationSafety`).
* A rotated token that is lost between the exchange and its store, by a death, a
  lost answer or a failed store, makes the next refresh present a superseded one
  (`LostRotationIsReplayed`).
* A top-level lease can present a token other than its own when the reloaded
  profile has gained workspace credentials (`TopLevelLeasePresentsItsTokenExactlyWhen`).
* The comment at `ayx-core/src/auth.rs:444-446` says that an uncertain outcome
  ends the wizard for every step. For a submitted code or password the engine
  accepts another one afterwards (`UncertainOutcomeEndsWizardExactlyWhen`).
* The comment at `ayx-core/src/profile.rs:2676` calls stripping the exact inverse
  of resolution. Resolution does undo stripping, but storage passwords are written
  inside the server section and are lost when a profile has none, and a written-out
  API secret is lost to an empty shared section, and after the check for mixed
  secrets only to an empty one (`SaveAndReloadKeepExactlyWhen`,
  `ServerSectionsKeptExactlyWhen`, `CheckedApiSecretLostExactlyWhen`).
* The coverage report shows 100.0 percent although something is missing when that is
  at most one operation in two thousand (`ShowsFullCoverageExactlyWhen`).
* With a page limit of zero an automatic listing is reported as complete without
  a single request (`CompleteMeansExhaustedExactlyWhen`).

## Assumptions

* SHA-256 is injective (`Digest` is a constructor), and the backup account names
  of a transaction are distinct from every account a caller names (`Slot`).
* There is a keyring backend; its operations may fail one by one, and an error may
  come before or after the effect. A host without a default store is not modelled.
  There the program's reads give nothing and its deletions succeed without effect
  (`ayx-core/src/secrets.rs:608`, `ayx-core/src/secrets.rs:819`), so a
  recovery of a journal of new accounts clears the journal and restores nothing, and
  one of a ready backup stops at a missing backup.
* A failure is nondeterministic, but each one uses up an error or a death of a finite
  stock (`SensitiveFile.Faults`): a call that leaves the stock as it was had none.
* In the journal machine a crash is the death of the process. Power loss is
  modelled for one file in `SensitiveFile`.
* A transaction is used as `write_config_exact` (`ayx-rs/src/onboard.rs:1610-1646`)
  uses it: under the lock, after a recovery, an account recorded before it changes,
  the target marked before the profile write, a commit only after it and the
  journaled rollback otherwise. The other writer (`ayx-rs/src/onboard.rs:1648-1731`)
  has a machine of its own, `HandRollback`; all theorems of the modules
  `CrashAtomicity`, `AtomicExactly` and `KeyringTransaction` are about the first.
* How a profile is parsed, which binding it yields and how accounts are named are
  function parameters of `OneCredentialStore`.
* A server answers, and a user replies, as a function of everything said so far.

## Model

| member | source | states |
|---|---|---|
| AuthJournal.RestoreOneKeeps | ayx-core/src/secrets.rs:250-274 | Putting one guarded change back succeeds, gives its account the pre-image and touches no other slot |
| AuthJournal.GuardsSurviveRestore | ayx-core/src/secrets.rs:250-274 | Restoring one change leaves every other change restorable, so an interrupted restore can be repeated |
| AuthJournal.RestoreMeetsGuards | ayx-core/src/secrets.rs:250-274 | Restoring all changes in reverse order from any partly changed keyring yields the pre-images of all accounts |
| AuthJournal.PendingHasOneMeaning | ayx-core/src/secrets.rs:301-376 | The vault a durable state stands for is unique and is the one a recovery computes that can read the profile |
| JournalProofs.RecoveryStep | ayx-core/src/secrets.rs:301-376 | Each durable operation of recovery, done, failed or skipped by a crash, leaves the same vault to recover and never misses a backup, except an unreadable profile under a committed journal |
| JournalProofs.UndoStep | ayx-core/src/secrets.rs:192-206 | The same for each operation of a rollback by the writer |
| JournalProofs.RecordStep | ayx-core/src/secrets.rs:120-143 | Recording a change keeps every recorded account restorable to the old vault |
| JournalProofs.StoreBackupStep | ayx-core/src/secrets.rs:145-158 | A backup stored but not yet marked ready still restores the old value |
| JournalProofs.PersistTargetStep | ayx-core/src/secrets.rs:162-169 | Marking the target switches the vault only if the profile already has the new text |
| JournalProofs.WriteProfileStep | ayx-core/src/sensitive.rs:127-221 | Renaming the new profile into place is the single step at which a marked transaction takes effect |
| JournalProofs.CommitStep | ayx-core/src/secrets.rs:171-183 | Cleaning up after the profile write keeps the new vault at every crash and error |
| JournalProofs.StepKeepsVault | ayx-core/src/secrets.rs:120-376 | Every step of writer, rollback and recovery keeps the vault, except the one that commits, and except secrets put back under a committed journal: by a late rollback or by a recovery that cannot read the profile |
| CrashAtomicity.RecoverySettles | ayx-core/src/secrets.rs:301-376 | An undisturbed recovery always succeeds, leaves exactly the vault, no journal and no backup account |
| CrashAtomicity.RecoveryIsIdempotent | ayx-core/src/secrets.rs:301-376 | A recovery of a settled state changes nothing |
| CrashAtomicity.RecoveryFromStart | ayx-core/src/secrets.rs:301-376 | A recovery cut short anywhere keeps the vault, misses no backup and on success settles exactly it, provided it can read the profile or the journal is uncommitted or already rolled back |
| CrashAtomicity.RecoveriesKeepVault | ayx-core/src/secrets.rs:301-376 | Any number of recoveries that can read the profile, each interrupted anywhere, leave the same vault to recover |
| CrashAtomicity.WriterRun | ayx-rs/src/onboard.rs:1610-1646 | After any run of `write_config_exact` without a late rollback the durable state stands for the old or the new vault, and success means the new one |
| CrashAtomicity.AllOldOrAllNew | ayx-core/src/secrets.rs:100-376 | For any accounts, any crash or error in a writer without a late rollback, any interrupted recoveries and one that finishes, all able to read the profile: secrets and profile are all old or all new, and no backup is missed |
| CrashAtomicity.DifferentContentsAreNeverLate | ayx-core/src/secrets.rs:162-169 | When the profile text changes, no rollback starts after the commit point |
| AnyEnding.EachPartOldOrNew | ayx-core/src/secrets.rs:192-206 | In every run whatever, also where atomicity fails: after a recovery that finished each account is old or new, and so is the profile text |
| BlindRecovery.BlindRecoveryKeepsVaultExactlyWhen | ayx-core/src/secrets.rs:349-366 | A recovery that cannot read the profile, cut short anywhere or not, keeps the vault if and only if the journal is uncommitted, or marked as rolled back, or has nothing to put back |
| BlindRecovery.BlindRecoveryRevertsSecrets | ayx-core/src/secrets.rs:349-360 | For every transaction that changes a secret: the writer dies behind the rename, and a recovery that cannot read the profile succeeds with the old secrets under the new profile |
| BlindRecovery.BlindRecoveryMissesBackup | ayx-core/src/secrets.rs:250-274 | If a commit had begun to clean up, such a recovery stops with the missing-backup error |
| LateRollback.DifferentContentsAreAtomic | ayx-core/src/secrets.rs:120-206 | With changed text, write errors only before the rename and recoveries that can read the profile, every run that recovers is all old or all new |
| AtomicExactly.EqualContentsCanMix | ayx-core/src/secrets.rs:349-353 | For every vault and plan with unchanged text and two changed accounts there is a run, with errors before the rename and a sighted recovery, that ends in neither vault |
| AtomicExactly.AtomicExactlyWhen | ayx-core/src/secrets.rs:100-376 | All runs are atomic if and only if no secret changes, or the text does not and at most one account does, or the text changes and neither write errors after the rename nor unreadable profiles are among the runs; for each choice of the two |
| AtomicExactly.SafeInEveryRun | ayx-core/src/secrets.rs:100-376 | A transaction that changes no secret, or no text and at most one account, is all old or all new in every run, blind recoveries and late errors included |
| AtomicExactly.ErrorAfterRenameMixes | ayx-core/src/sensitive.rs:173-187 | For every transaction that changes text and secrets, a directory sync error after the rename makes a full rollback leave old secrets under the new profile |
| HandFailures.WithoutErrorsAlike | ayx-rs/src/onboard.rs:1648-1731 | Without an error, cut short by a crash or not, the second writer leaves what `write_config_exact` leaves |
| HandProofs.GentleIsAtomic | ayx-rs/src/onboard.rs:1093-1106 | If only accounts without a value are touched, and the text changes or no number of the stores is in between, the rollback by hand is all old or all new, with errors before the rename and sighted recoveries |
| HandProofs.FirmIsAtomic | ayx-rs/src/onboard.rs:1093-1106 | If also the text is unchanged or nothing is stored, the same holds of every run whatever |
| HandFailures.HandAtomicExactlyWhen | ayx-rs/src/onboard.rs:1648-1745 | The second writer is all old or all new in all runs and never leaves a missing backup if and only if it touches no account that had a value and: it stores nothing, or the text is unchanged and no number of its stores is in between, or the text changes and neither late write errors nor blind recoveries are among the runs |
| HandFailures.DeletedAccountsAreLost | ayx-rs/src/onboard.rs:1695-1728 | For every transaction one error after the deletions ends in the old profile, no journal, and the deleted accounts gone |
| HandFailures.ExistingAccountBreaks | ayx-core/src/secrets.rs:185-187 | For every transaction on an account that had a value: the writer fails, dies while it aborts, and a recovery that sees everything stops at a missing backup |
| HandFailures.EqualTextCanMix | ayx-rs/src/onboard.rs:1722-1728 | With an unchanged text a rollback by hand that dies between two stores is taken for a commit |
| SensitiveFile.AtomicFile.Write | ayx-core/src/sensitive.rs:127-221 | The target is its old or the complete new contents at every failure, death and power loss; success is durable; and every failure it reports is one that an operation had |
| SensitiveFile.AtomicFile.Recover | ayx-core/src/sensitive.rs:230-241 | Recovery removes the temporary file and never touches the target |
| SensitiveFile.AtomicFile.PowerLoss | ayx-core/src/sensitive.rs:173-187 | After a power loss the target is the visible or the last synced contents, whole |
| SensitiveFile.WriteInLockOrder | ayx-core/src/sensitive.rs:246-306 | Over any writers in lock order the target is always one writer's complete contents, never older than the last success, and the last writer's if nothing failed |
| KeyringTransaction.Transaction.RecordChange | ayx-core/src/secrets.rs:120-160 | The method's durable operations are exactly a run of the machine from before to after recording |
| KeyringTransaction.Transaction.SetTargetDigest | ayx-core/src/secrets.rs:162-169 | The same for marking the target; nothing is written when nothing changed |
| KeyringTransaction.Transaction.Commit | ayx-core/src/secrets.rs:171-183 | The same for the clean-up after the profile write |
| KeyringTransaction.Transaction.RollbackAndAbort | ayx-core/src/secrets.rs:192-206 | The same for restore, mark, clean up and removal of the journal |
| KeyringTransaction.Host.RestoreChanges | ayx-core/src/secrets.rs:250-274 | The reverse loop is a run of restore steps and stops at the first error |
| KeyringTransaction.Host.CleanupBackups | ayx-core/src/secrets.rs:276-283 | The forward loop is a run of clean-up steps and stops at the first error |
| KeyringTransaction.RecoverLocked | ayx-core/src/secrets.rs:301-376 | Recovery, with a profile read that may fail and then counts as uncommitted, refines the machine from `RecRead` to a verdict, and each error and death in that run is one that an operation had |
| KeyringTransaction.Recover | ayx-core/src/secrets.rs:288-296 | If it could read the profile or did not depend on it, recovery never meets a missing backup, keeps the vault on error and settles exactly it on success; on success the journal is gone in any case. If no operation failed it succeeds and settles the vault |
| KeyringTransaction.SaveLocked | ayx-rs/src/onboard.rs:1619-1646 | Changes, target, profile write, commit, or rollback on any error, as one run of the machine with no more failures than the operations had, and one for a text that cannot be rendered |
| KeyringTransaction.WriteConfigExact | ayx-rs/src/onboard.rs:1610-1646 | A recovery, and a save if and only if it succeeded, each one run of the machine. If no operation failed the save succeeds with exactly the new vault, or, if the text cannot be rendered, it reports a rollback to exactly the old one. With one error, no death and no late rollback it settles the new vault with success, or one of the two with a reported rollback, or fails with the old one before the save or the new one in the commit. In any case a save whose recovery was not blind to a commit leaves, unless its rollback is late, the old or the new vault to recover, and success means exactly the new one |
| Undisturbed.WriterSettles | ayx-rs/src/onboard.rs:1610-1646 | For every transaction an undisturbed writer succeeds and leaves exactly its target, no journal and no backup |
| Undisturbed.UndoFinishes | ayx-core/src/secrets.rs:192-206 | An undisturbed rollback ends, puts everything back and says so |
| Undisturbed.OneErrorEnds | ayx-rs/src/onboard.rs:1619-1646 | With one error, no death and no late rollback a writer settles the new vault with success, or the old or the new one with a reported rollback, or fails in its commit with the new one to recover |
| Undisturbed.RenderFailureRollsBack | ayx-rs/src/onboard.rs:1622-1645 | If the text cannot be rendered and nothing else fails, everything is put back, whatever the text |
| TokenValues.StepMeets | ayx-core/src/secrets.rs:120-376 | No step of a writer, a rollback or a recovery, whatever its outcome, brings a value to an account or into a backup of it but those that were there and those that the plan puts |
| TokenValues.HandStaysSound | ayx-rs/src/onboard.rs:1093-1106 | The same for the rollback by hand, which puts back only values read under the same lock; and no backup is ever left without a journal that names it |
| EveryHistory.RotationSafety | ayx-core/src/one_credential_store.rs:130-228 | In every history of any processes, both kinds of saves, any crashes and errors and unreadable profiles: if no save begins that aims at a superseded token, then unless a rotation was lost no lease presents a superseded token, and none presents one again after its rotation |
| EveryHistory.StoredTokenStays | ayx-core/src/secrets.rs:301-376 | Once a lease has stored its replacement, whatever came before and whatever fails after, every lease presents that token and every successful recovery leaves it, until a save aims at another value for the account or a lease stores one |
| EveryHistory.LeasesFindNoJournal | ayx-core/src/one_credential_store.rs:131-139 | In every history a lease meets neither a journal nor a backup |
| HandLeases.HandFailureBlocksEveryone | ayx-core/src/secrets.rs:250-274 | For every second-writer save on an account that had a value there is a run after which, in every continuation, no process gets past recovery and nothing is presented |
| LeaseProofs.EventKeepsWorld | ayx-core/src/one_credential_store.rs:130-228 | Every event that starts no late rollback and no save with a rollback by hand keeps one lock holder, one expected vault and, in clean histories, exact knowledge of whether the stored token is superseded |
| LeaseProofs.RotationSafeExactlyWhen | ayx-core/src/one_credential_store.rs:130-228 | In histories without a late rollback or a rollback by hand, and as long as no rotation was lost, the leases are safe if and only if none of them presents what a committed save of a superseded token left |
| LeaseProofs.CarefulIsNeverLate | ayx-rs/src/onboard.rs:1610-1646 | Saves that change the text, write errors only before the rename and recoveries that read the profile, each checked event by event, exclude every late rollback |
| LeaseProofs.SafeWithoutStaleSave | ayx-core/src/one_credential_store.rs:130-228 | In such histories no superseded token is presented and none is presented after its rotation, unless a rotation was lost or a save took effect that left a superseded token; stale saves that never take effect are allowed |
| LeaseProofs.JournalAndLeaseCompose | ayx-core/src/one_credential_store.rs:131-139 | In every history at most one process is past the lock; in those without a late rollback or a rollback by hand an idle lock leaves exactly one vault to recover |
| LeaseProofs.CommittedTokenStays | ayx-core/src/secrets.rs:301-376 | In such histories no recovery, rollback or save that does not take effect, whatever it aims at, brings back an older refresh token |
| LeaseRuns.RefreshPresentsStored | ayx-one-api/src/lib.rs:2666-2691 | An undisturbed refresh puts exactly the stored token on the wire |
| LeaseRuns.LostRotationIsReplayed | ayx-one-api/src/lib.rs:2676-2683 | Whichever event loses a rotation, a death, a lost answer or a failed store, the next undisturbed refresh presents a superseded token |
| LeaseRuns.SaveTakesEffect | ayx-rs/src/onboard.rs:1610-1646 | An undisturbed save, as events of the system, leaves exactly its target and an idle lock |
| LeaseRuns.StaleSaveIsLeased | ayx-rs/src/onboard.rs:768-787 | For every save whose target holds a superseded token, the next undisturbed refresh presents it, and no rotation was lost |
| LeaseRuns.LoadBeforeRotationIsReplayed | ayx-rs/src/cmd/one_platform/auth.rs:144 | From any resting system: a profile is loaded, a lease rotates, the loaded token is saved back, and the next refresh presents it superseded |
| OneCredentialStore.StoreSelectsTheUsedToken | ayx-core/src/one_credential_store.rs:88-126 | A store is built only for the slot that requests read, through a keyring reference to its own account; a top-level store only without workspace credentials |
| OneCredentialStore.StoreIsBuiltExactlyWhen | ayx-core/src/one_credential_store.rs:88-126 | Which store is built, as an if and only if: the profile resolves to a token, the slot is the active workspace's or, with at most one saved credential, the top level, it holds a keyring reference to the very account that its binding names, and the access account is included if its own reference is the one the binding names |
| OneCredentialStore.WorkspaceLeasePresentsItsToken | ayx-core/src/one_credential_store.rs:141-147 | With the workspace pinned, the profile of the lease resolves to the token of the lease |
| OneCredentialStore.TopLevelLeasePresentsItsTokenExactlyWhen | ayx-core/src/profile.rs:967-979 | A top-level lease resolves to its own token if and only if the reload has no workspace credentials or selects one with the same token |
| OneCredentialStore.TopLevelLeaseCanPresentAnother | ayx-core/src/profile.rs:967-979 | A reload that gained one credential makes a top-level lease present that one's token |
| OneCredentialStore.AcquireRefresh | ayx-core/src/one_credential_store.rs:130-178 | A lease is granted only with the journal gone and with the non-blank token stored in its account; if recovery was not blind to a commit, from exactly the expected vault, which an error keeps. If no operation failed it is granted if and only if the reloaded profile still binds the identity and the reference to a non-blank stored token, and then with that token |
| OneCredentialStore.LeaseFrom | ayx-core/src/one_credential_store.rs:141-178 | The checks on a reloaded profile, in slots: the lease is for the stored token, and the profile with the workspace pinned resolves to it |
| OneCredentialStore.ReloadedToken | ayx-core/src/one_credential_store.rs:149-167 | The reloaded profile must bind the same identity, reference and a non-blank value |
| OneCredentialStore.CommitRotation | ayx-core/src/one_credential_store.rs:197-228 | Success means that the access token is in the access slot and the replacement in the token's; an error leaves neither, the first or both; no other slot changes. Blank tokens store nothing and, if no operation failed, are the only reason for an error |
| OneCredentialStore.RefreshOnce | ayx-one-api/src/lib.rs:2666-2691 | One refresh presents one token, the expected vault's if recovery was not blind to a commit. On success the access slot has the new access token and the token's slot the replacement, or the same token if none came; if no operation failed it succeeds if and only if a lease is granted and the exchange answers with non-blank tokens |
| CredentialBinding.ValidExactlyWhen | ayx-core/src/auth.rs:642-673 | A binding is valid if and only if its version is 1 and each field it has is neither blank nor over 512 bytes; otherwise the error is about the version or the first field that does not fit, and says how |
| CredentialBinding.DecodeCanonical | ayx-core/src/auth.rs:675-690 | A parser recovers the version and all trimmed fields from the canonical form, whatever characters they contain |
| CredentialBinding.EachTagHasItsField | ayx-core/src/auth.rs:675-690 | The text behind each of the six tags is the length and the trimmed text of the field that the tag names, empty for an absent one, and reads back as it |
| CredentialBinding.BindingMatchesExactly | ayx-core/src/auth.rs:45-49 | Two bindings match if and only if both are valid and agree on every trimmed field |
| CredentialBinding.AccountsSeparate | ayx-core/src/auth.rs:697-720 | For namespaces without a semicolon two accounts coincide if and only if namespace, identity and safe field name do |
| CredentialBinding.SafeFieldReplacesOnlyUnsafe | ayx-core/src/auth.rs:697-720 | In the field part of an account name exactly the characters other than ASCII letters, digits, `.`, `_` and `-` are replaced |
| AuthMachine.AuthStateMachine.ApplyEvent | ayx-core/src/auth.rs:228-300 | The method is the transition function, and an error leaves the state as it was |
| AuthMachine.CountersStayInBudget | ayx-core/src/auth.rs:228-306 | In every reachable state each counter is at most max(1, budget) and a failure is recorded exactly in `Failed` |
| AuthHistory.StateTellsHistory | ayx-core/src/auth.rs:228-300 | After any events: each counter is the number of accepted events it counts, and the accepted milestones are the begin, some mails and a prefix of one fixed order whose length the phase tells, so a login is complete if and only if all of them were accepted |
| AuthHistory.AcceptedExactlyWhen | ayx-core/src/auth.rs:228-300 | An event is accepted if and only if the machine is not at its end and the event fits the phase; it ends in a failure if and only if it uses up its budget or reports one; an expired code leads to another mail, a wrong one to another try until the mail's attempts are used up |
| AuthHistory.FailureIsExplained | ayx-core/src/auth.rs:247-306 | Every failed login failed at one event that reported this failure or, counted in accepted events, used up the budget this failure stands for |
| AuthMachine.RankFalls | ayx-core/src/auth.rs:228-306 | Every accepted event but `PersistStarted` lowers a measure |
| AuthMachine.LoginTerminates | ayx-core/src/auth.rs:228-306 | No event sequence has more accepted events than an explicit function of the four budgets |
| AuthMachine.LongestRunIsReached | ayx-core/src/auth.rs:228-306 | For all budgets some login is exactly that long |
| AuthMachine.LegacyPolicyIsTheMachines | ayx-one-api/src/email_otp.rs:450-458 | Under default budgets reprompt, resend and give up are the machine's three outcomes of an unexpired rejection |
| WizardEngine.Wizard.Begin | ayx-core/src/auth.rs:402-406 | The call is the specified transition of engine value and reply |
| WizardEngine.Wizard.SupplyOtp | ayx-core/src/auth.rs:410-416 | The same for a supplied code |
| WizardEngine.Wizard.SupplyPassword | ayx-core/src/auth.rs:420-428 | The same for a supplied password |
| WizardEngine.Wizard.RecordOutcome | ayx-core/src/auth.rs:430-522 | The same for a recorded outcome, which takes the pending step first |
| WizardEngine.RecordStaysCoupled | ayx-core/src/auth.rs:430-522 | With a step pending in its phase no outcome is refused, and the coupling holds again |
| WizardEngine.PendingStepFixesPhase | ayx-core/src/auth.rs:402-526 | After any calls the pending step fixes the phase, terminal phases have none, and a pending step can always be recorded |
| WizardEngine.ReplyTellsState | ayx-core/src/auth.rs:402-522 | After any calls a reply tells the state it leaves: the step to invoke is the one pending, a question is asked in the phase that takes the answer, the end is reported when it is reached, and giving up names the recorded failure. A step surely not sent is invoked again and changes nothing, an accepted one is followed by the next, and only a wrong code or password is asked for again |
| WizardEngine.AcceptedInOrder | ayx-core/src/auth.rs:453-484 | Accepted steps are sends within budget and then a prefix of the fixed order, so minting and persisting are accepted at most once |
| WizardEngine.SideEffectsAreBounded | ayx-core/src/auth.rs:326-330 | Counting rejected and uncertain attempts, at most one mint, one store and as many sends as budgeted may have reached the other side |
| WizardEngine.UncertainOutcomeEndsWizardExactlyWhen | ayx-core/src/auth.rs:440-451 | After an uncertain outcome a step can be invoked again if and only if it submitted a code or a password; never after a side effect |
| OtpExchange.Client.RetryTransient | ayx-one-api/src/email_otp.rs:99-123 | The retry loop is its specification: at most three attempts, retried only under the policy |
| OtpExchange.Client.FollowRedirects | ayx-one-api/src/email_otp.rs:893-955 | The redirect loop is its specification: at most 25 hops, the list of pages in order |
| OtpExchange.Client.LoginWithPrompt | ayx-one-api/src/email_otp.rs:806-853 | A typed password gets three tries after classified rejections, a fixed one a single try |
| OtpExchange.Client.MintPat | ayx-one-api/src/email_otp.rs:288-326 | The mint is retried only when it surely was not sent |
| OtpLanes.OtpLoginWithReprompt | ayx-one-api/src/email_otp.rs:465-503 | The nested loops are the Legacy specification: three tries on each of two references, for any validation error; `OtpScript` says what is sent in them |
| OtpLanes.LegacyLogin | ayx-one-api/src/email_otp.rs:579-696 | The Legacy driver says and returns what `Legacy` specifies, which `OtpScript.LoginFollowsTheScript` pins word for word |
| OtpLanes.AskForCodes | ayx-one-api/src/otp_compat.rs:226-262 | The Wizard's code loop, with the engine in step at every call |
| OtpLanes.WizardLogin | ayx-one-api/src/otp_compat.rs:195-294 | The Wizard driver says and returns what `Wizard` specifies, pinned word for word in the same way, and never ends in a transition-drifted or refused result |
| OtpLanes.WizardNeverDrifts | ayx-one-api/src/otp_compat.rs:297-302 | For every server and user no transition-drifted branch and no engine error is reachable |
| OtpLanes.LanesAgreeExactlyWhen | ayx-one-api/src/otp_compat.rs:226-294 | Both lanes send the same requests and ask the same questions if and only if every failed validation of the first code is a classified rejection and fewer than three occur; then they end alike |
| OtpScript.LoginFollowsTheScript | ayx-one-api/src/email_otp.rs:579-696 | For every server and user each driver says exactly what the rules say next, request by request with its payload, until no rule applies; it succeeds if and only if the last thing said was a request for a token and that was answered, with that token and the password sent last |
| OtpScript.ScriptFixesTheLogin | ayx-one-api/src/otp_compat.rs:195-294 | The rules leave no choice: a conversation is the login's if and only if it follows the rules to their end |
| OtpScript.CodeGoesWithItsReference | ayx-one-api/src/email_otp.rs:360-382 | Every code that is sent is the one typed last, trimmed, together with the reference of the last mail before it |
| OtpScript.PasswordIsTheUsers | ayx-one-api/src/email_otp.rs:806-853 | Every password that is sent is the fixed one or, without one, the one typed last |
| OtpEffects.ExchangeReaches | ayx-one-api/src/email_otp.rs:143-145 | A request with a side effect reaches the server at most once, retries included |
| OtpEffects.LoginsAreSparing | ayx-one-api/src/email_otp.rs:333-356 | For every server, one Wizard login can cause one code mail and one Legacy login two, each at most one token, and exactly one when it succeeds |
| WorkspaceCredentials.AlteryxOneProfile.ValidateWorkspaceIdentities | ayx-core/src/profile.rs:855-893 | Validation succeeds if and only if all IDs are numeric and no two identified records share an ID, GID or name |
| WorkspaceCredentials.AlteryxOneProfile.MigrateWorkspaceCredentials | ayx-core/src/profile.rs:899-934 | Migration succeeds if and only if the schema is known, identities are valid and no two records want one key. Then each record has exactly one new record, equal in everything but health: under its workspace ID with its health if that is numeric, else under its old key and marked stale; otherwise nothing changes; the final validation cannot fail |
| WorkspaceCredentials.RekeyingKeepsIdentities | ayx-core/src/profile.rs:931-932 | Re-keying cannot break identities that were valid |
| WorkspaceCredentials.MigrateTwice | ayx-core/src/profile.rs:899-934 | A second migration succeeds, reports no change and makes none |
| WorkspaceCredentials.Normalize | ayx-core/src/profile.rs:907-929 | The loop fails exactly on a key collision, counts the keys that moved, and keeps every record in everything but its health |
| WorkspaceCredentials.MigrationPreservesSelection | ayx-core/src/profile.rs:811-850 | Any selector that resolved before a migration resolves to the same target afterwards |
| WorkspaceCredentials.SelectorPicksExactlyWhen | ayx-core/src/profile.rs:811-850 | A selector picks a record if and only if that is the only one with it as key, ID, GID or name, and names its workspace completely under its own ID; each error has its exact condition |
| SecretSlots.ResolveSecretRefs | ayx-core/src/profile.rs:1570-1666 | All slots are filled from their references, or the load fails exactly when one is malformed |
| SecretSlots.WithServerApiOverrides | ayx-core/src/profile.rs:1523-1568 | The shared secret is resolved first and then stands in for the two missing sections |
| SecretSlots.StripValuesCoveredByRefs | ayx-core/src/profile.rs:2693-2786 | Every slot is stripped, and only stripped, by the covering rule |
| SecretSlots.FileOverridesProcess | ayx-core/src/secrets.rs:587-601 | An `env:` reference yields what the `.env` files give, and what the process gives only when they give nothing; white space alone counts as nothing in both |
| SecretSlots.KeyringIsRead | ayx-core/src/secrets.rs:602-624 | A `keyring:` reference yields the entry; a missing entry or keyring is no error, an unreadable one is |
| SecretSlots.OtherReferencesAreInvalid | ayx-core/src/secrets.rs:583-629 | A reference is refused as malformed if and only if it starts with none of the three prefixes |
| SecretRoundTrip.LoadFillsExactly | ayx-core/src/profile.rs:1489-1666 | A load fails if and only if some empty slot has a malformed reference; otherwise every written value is kept, every empty slot gets exactly what its reference yields, nothing for an unreadable keyring, and missing server sections are copies of the loaded shared one |
| SecretRoundTrip.LoadUndoesStrip | ayx-core/src/profile.rs:2664-2786 | Loading a stripped profile gives slot by slot, and as an error, what loading it unstripped gives, for every kind of reference |
| SecretRoundTrip.LoadIsIdempotent | ayx-core/src/profile.rs:1489-1506 | Loading a loaded profile changes nothing |
| SecretRoundTrip.StripDropsExactlyProvided | ayx-core/src/profile.rs:2693-2786 | In every section a value is dropped if and only if its non-blank reference yields exactly that value, and nothing else changes |
| SecretRoundTrip.SaveAndReloadKeepExactlyWhen | ayx-core/src/profile.rs:2801-2846 | A saved profile loads again if and only if its server section can be read; then One credentials are kept always, and storage passwords if and only if a section was written |
| SecretRoundTrip.ServerSectionsKeptExactlyWhen | ayx-core/src/profile.rs:2889-2954 | When each of the API, server and shared sections comes back equal, as an if and only if on the profile before the save |
| SecretRoundTrip.ApiSecretKeptExactlyWhen | ayx-core/src/profile.rs:2889-2904 | A written-out API secret comes back if and only if the section that is written holds it: the shared one, the API's own if it has a client id, or the server's |
| SecretRoundTrip.MixedSecretsExactlyWhen | ayx-core/src/profile.rs:62-149 | The forms of the server secret count as mixed if and only if two of those the user wrote resolve to different values |
| SecretRoundTrip.CheckedApiSecretLostExactlyWhen | ayx-core/src/profile.rs:62-149 | Past the check for mixed secrets, a written-out API secret next to a shared section is lost if and only if the shared secret is empty |
| SecretRoundTrip.ReadBack | ayx-core/src/profile.rs:2889-2954 | What is read back: which section wins, and that the rest is unchanged |
| SecretRoundTrip.SharedProfileRoundTrips | ayx-core/src/profile.rs:1523-1568 | A profile with only the shared section is read back whole, derived sections included |
| SecretRoundTrip.SavingCanLose | ayx-core/src/profile.rs:2889-2904 | Two profiles that lose a password by being saved |
| JwtRedaction.RedactBareJwts | ayx-core/src/observability.rs:285-335 | The output is the input with whole tokens, each from its start to the end of its last base64url run, replaced by `***`, everything between them kept, and no token starting in what is kept |
| JwtRedaction.OneMaskedText | ayx-core/src/observability.rs:285-335 | Only one text is the input with its tokens so masked and the rest kept |
| JwtRedaction.ScanFindsTokens | ayx-core/src/observability.rs:295-320 | A token is recognised at a position if and only if a three-segment token stands there |
| JwtRedaction.NoJwtIsLeft | ayx-core/src/observability.rs:285-335 | The output holds no token, equals the input exactly when that held none, and is a fixed point |
| QueryRedaction.RedactQueryParams | ayx-core/src/observability.rs:342-442 | The output is the input with each exposed pair, from its key to the first terminator, replaced by the key as listed and `=***`, everything between them kept, delimiters included, and no key exposed in what is kept |
| QueryRedaction.OneMaskedText | ayx-core/src/observability.rs:342-442 | Only one text is the input with its exposed pairs so masked and the rest kept |
| QueryRedaction.MatchIsExposed | ayx-core/src/observability.rs:377-415 | The scan matches at a position exactly the listed key exposed there, whatever its case |
| QueryRedaction.KeyInAnyCase | ayx-core/src/observability.rs:343-344 | A key is recognised in any mixture of cases and in no other spelling |
| RedactionProofs.QueryValuesAreHidden | ayx-core/src/observability.rs:342-442 | In the output every listed key at a boundary is followed by the mask and a terminator or the end; unchanged exactly when that was so; idempotent |
| RedactionProofs.RulesArePlain | ayx-core/src/observability.rs:345-371 | The program's 22 keys consist of lower-case letters, `_` and `-`, as the scan needs |
| RedactionProofs.RunBothPasses | ayx-core/src/observability.rs:276-277 | The output is the input with every exposed pair masked and then every token, all text beside them kept |
| RedactionProofs.RedactedTextIsDetermined | ayx-core/src/observability.rs:276-277 | A text is the redacted one if and only if it is the input with these masked and the rest kept |
| RedactionProofs.RedactedTextIsClean | ayx-core/src/observability.rs:276-277 | After both passes neither a token nor an exposed value is left, clean text is unchanged, and the composition is idempotent |
| Pagination.ListRequest | ayx-one-api/src/lib.rs:1153-1331 | For every server the requests are chained by the tokens received, at most the page limit, no continuation twice, and the report is the right one with all items in order |
| Pagination.ListingIsDetermined | ayx-one-api/src/lib.rs:1153-1331 | That contract fixes requests and report completely |
| Pagination.CompleteMeansExhaustedExactlyWhen | ayx-one-api/src/lib.rs:1174-1182 | An automatic listing reported as complete ended on a page whose next-page token is absent or empty if and only if at least one page was allowed |
| CanonicalOperation.CanonicalIsIdempotent | ayx-one-api/src/coverage.rs:113-134 | A canonical operation is its own canonical form |
| CanonicalOperation.QueryDoesNotMatter | ayx-one-api/src/coverage.rs:114-115 | Query, fragment and trailing slashes do not change the key, also for paths outside the namespace |
| CanonicalOperation.SplitUndoesJoin | ayx-one-api/src/coverage.rs:120-132 | Path segments are recovered from the path they make |
| CanonicalOperation.KeyKeepsAllButNames | ayx-one-api/src/coverage.rs:113-134 | A path has a key if and only if `v4` is its first segment; the segments of the key are those of the path but for the names inside `{..}` and behind `:`, whatever query and trailing slashes follow |
| CanonicalOperation.OneKeyExactlyWhen | ayx-one-api/src/coverage.rs:120-134 | Two operations have one key if and only if they differ only in the case of the verb and in names of parameters |
| Coverage.Merge | ayx-one-api/src/coverage.rs:192-197 | Commands are united without repeats |
| Ordering.Sort | ayx-one-api/src/coverage.rs:259-264 | A sorted permutation by any key of strings, in the order of their scalars |
| Coverage.Inventory | ayx-one-api/src/coverage.rs:172-206 | Every row is under its key with all commands that share it and named by the first of them, or outside, where the first row of a duplicate is kept |
| Coverage.Compare | ayx-one-api/src/coverage.rs:208-246 | Missing entries are exactly the specification keys the inventory lacks; operations outside the namespace are listed in order |
| Coverage.CoverageReport | ayx-one-api/src/coverage.rs:167-295 | The printed report: the comparison, each list in the program's order with nothing added or lost, and the percentage to the nearest tenth, none when nothing is comparable; a stale entry has method and path of the first row with its key |
| Coverage.ShowsFullCoverageExactlyWhen | ayx-one-api/src/coverage.rs:275-282 | The report shows 100.0 percent if and only if at most one comparable operation in two thousand is missing |
| Coverage.NothingIsLost | ayx-one-api/src/coverage.rs:246-295 | Covered plus stale are all comparable inventory keys, covered plus missing all specification keys; stale rows name every command; the total is at least both inventory parts |

## Left out

- HTTP, TLS, cookies, redirect host checks and OAuth responses: a reply carries only what its caller reads.
- The v1 legacy journal: a shorter rollback without backups.
- Two profiles that share one keyring account: the lock belongs to one profile path.
- YAML parsing, environment placeholders and fallbacks, profile overlays, URL normalisation: a profile is its secret slots.
- The wording of the mixed-secrets error and which pair it names.
- The key and header pass of `redact_text`, `redact_json` and `redact_url`: only the two scanners over its output are modelled.
- OTP endpoint trust validation, the decoding of cookies and the extraction of interaction ids: parameters of the lane model.
- Clocks, random transaction ids, jitter, permission bits and Windows access control lists.
- Error texts, envelopes, diagnostics per page and everything else that is only reported.
- SensitiveFile.AtomicFile.Write: failures to create the parent directory or tighten permissions are failures of the call next to them.
- SensitiveFile.WriteInLockOrder: writers are taken in the order in which they hold the lock; how the operating system grants it is not modelled.
- CrashAtomicity.AllOldOrAllNew: is stated for runs without a late rollback and recoveries that can read the profile; `AtomicExactly.AtomicExactlyWhen` says exactly which transactions are atomic in which runs, and `AnyEnding.EachPartOldOrNew` what holds in all of them.
- KeyringTransaction.Recover: promises a kept vault only if it was not blind to a commit; `BlindRecovery.BlindRecoveryKeepsVaultExactlyWhen` says what a blind one does.
- EveryHistory.RotationSafety: says nothing once a rotation was lost; `LeaseRuns.LostRotationIsReplayed` shows why.
- LeaseProofs.RotationSafeExactlyWhen: is stated for histories without a late rollback or a rollback by hand, where it also allows stale saves that never take effect; it says "not superseded", not "live": a save may also write a token that the endpoint never issued.
- LeaseProofs.JournalAndLeaseCompose: gives one vault to recover only without late rollbacks and rollbacks by hand, after which there may be none; `EveryHistory` says what is kept then.
- HandRollback: the second writer is a machine, not methods on objects; its list of deletions and stores is a parameter, and the plaintext fallback of a permissive policy is not modelled.
- OtpLanes.LanesAgreeExactlyWhen: questions to the user count as part of the conversation, and error texts do not.
- Coverage.CoverageReport: the percentage is rounded over exact arithmetic, where the program computes in floating point; summaries and operation ids of missing entries are not modelled.
- WorkspaceCredentials.AlteryxOneProfile.MigrateWorkspaceCredentials: records are visited in any order, so which of several errors is reported first is open.
- SecretSlots.ResolveSecretRefs: the text of the error is one constant, as in the program, so it does not matter which malformed reference is met first.
- Credential kinds, expiry, service-principal fields and the resolution of values other than refresh tokens: the same selection rule each time.
