# Replicaro's protocols and loops, modelled and proved in Dafny

This project models the parts of Replicaro whose correctness depends on many steps
fitting together: protocols between computers that share a vault, work that may stop
at any point and is retried, a store of sign-ins used by concurrent requests, and two
in-place text algorithms. `dafny verify dfyconfig.toml` checks all of it.

## How it is organised

| files | subject |
|---|---|
| `Takeover`, `TakeoverSafety`, `TakeoverPromises`, `TakeoverResume`, `TakeoverCorners`, `TakeoverOutcomes`, `TakeoverHandler` | vault ownership: takeover requests, owner-taking connections, care saves and password fences of any number of computers on one protected root, as a machine of small steps; what every run keeps; what one uninterrupted request achieves; when an unfinished takeover can still be finished; what each event changes on the root, and what is admitted takes effect; the request handler itself |
| `Publication` | the sidecar store: pending upload, preserved previous generation, copy into place, and retries |
| `WriteAhead`, `Attachments` | finishing an existing-vault connection and a native creation from any crash; which profile is attached |
| `SignIn`, `SignInSafety`, `SignInPromises`, `SignInOutcomes`, `SignInStore` | cloud sign-in sessions: the machine of locked sections and outside work, its ownership invariant, its promises, what each section comes to, and the store object |
| `VaultWork`, `VaultWorkOutcomes` | background work on vaults: idle waits, definition gates, ordered locks, cancel gates; that whoever has its locks starts, and that everything can come to its end |
| `Artifacts` | local engine artifacts staged around a vault change, and their recovery at startup |
| `Redaction`, `SecretTail`, `ByteBudget` | the support report: redaction sweep, truncated-secret matcher, byte budgets |
| `StateVolume`, `SelectedRestore`, `Shutdown` | re-owning the state volume, restoring a selection, staged shutdown |

Where the source updates an object or an array in place, the project has a class whose
methods do the same and are proved against the model; protocols whose steps interleave
are state machines over values, and every theorem about them is about every run.

## What is assumed of the outside

- A root publication is one atomic compare-and-replace of the canonical record in
  `Takeover`. `Publication` models the upload, the copies and the readbacks it consists
  of, with other computers publishing at five instants in between. One of them is after
  the last check and before the copy: the source accepts that small race
  (`code/backend/vaultprofile/store.go:1385-1391`). When nothing was there to review, that
  race begins with the listing.
- SHA-256 is injective, so a hash comparison is a comparison of contents; identities
  drawn as UUIDs are fresh.
- The exclusive vault lock admits one ownership or connection request per computer at
  a time, and an admission check and the native change it admits are one step.
- One profile stands for one computer in `Takeover`; moving a profile to another
  computer is the subject of `Attachments`.
- An upload or a copy either happens or does not, and what follows it may fail either
  way; a native command, a clock, a network call or a deadline is an arbitrary choice,
  or a number of calls that succeed before the process dies.
- A relay's `Close` stops its listener even when it reports an error.

## What the code does not promise

- **A finish that is not one.** A takeover record left at `root_published`, whose root
  has gone back to the former owner without a marker, is accepted and completed by the
  request although `ownerTransferResumable` does not offer it.
  `TakeoverResume.FalseFinishHappens` is a run that reaches it, and
  `TakeoverResume.FinishesExactlyWhenOffered` says that it is the only accepted request
  that is not truthful. `TakeoverPromises.OwnerStays` gives the hypothesis under which
  completion is truthful: no other takeover put its marker on the root since.
- **A removed vault freezes its root.** Removing a vault does not look for an unfinished
  takeover, and the record goes with the vault. Its marker then stays on the root, and
  no computer can publish a root of that vault again. `TakeoverCorners.StrandingHappens`
  is a run that reaches such a root, `TakeoverCorners.StrandedExactlyByRemoval` says that
  a run ends in one exactly when some computer removed the vault while its own marker was
  on the root, and `TakeoverCorners.FinishableUnlessStranded` that every other unfinished
  takeover can still be finished, by its own computer alone.
- **An error after the copy.** A publication whose copy was done and whose readback failed
  reports an error with the new record in place, on purpose without rolling it back; the
  next attempt with the same bytes finds it there (`Publication.CopiedIsFound`).
- **A half-done profile takeover on Kopia.** After it published the profile of the vault's
  owner, and another computer moved the root, every retry is refused
  (`WriteAhead.Connection.RefusedRetry`); `WriteAhead.Connection.Attempt` has the exact
  condition.
- **Overlapping shutdown calls.** One returned `closeAll` is not enough when two
  overlap; what is unsettled then is exactly what the other call still holds
  (`SignInPromises.ReturnedCall`, `SignInPromises.OverlappingCalls`).
- **A rotation to the same options** looks unsaved to a start until its manifest is
  marked: `Artifacts.Vault.ChangeThenRestart` says when it is undone, and when the start
  is refused because only an unmarked manifest is left of it.
- **A leftover that could be neither marked nor removed** can bring its old copy back at
  a later start: `Artifacts.Vault.RestartLater` says exactly when, and
  `Artifacts.Vault.LeftoverComesBack` gets there.
- **Re-owning is for one user at a time.** After an interrupted walk for another user,
  a start with the former user walks nothing and succeeds all the same
  (`StateVolume.Volume.BackToFormerUser` gets there). `StateVolume.SuccessMeansAll` says,
  for any sequence of starts by any users, exactly when a successful one means that
  everything is its user's.

## Model

| member | source | states |
|---|---|---|
| `TakeoverSafety.RunKeeps` | code/backend/api/vault_ownership.go:523-761 | every interleaving of requests, their deaths before and after each step, retries, connections, care saves, fences and removals keeps the invariant over the root's history, the saved records and intents, every request's place and Kopia's owner |
| `TakeoverSafety.StepKeeps` | code/backend/api/vault_ownership.go:523-761 | one step of any computer keeps that invariant |
| `TakeoverSafety.Undisturbed` | code/backend/api/vault_ownership.go:92-121 | nothing another computer does disturbs what a saved record, an intent or a running request relies on |
| `TakeoverSafety.MarkerKeeps` | code/backend/api/vault_ownership.go:644-662 | installing the marker: only over the reviewed unmarked root, only for a takeover that never finished |
| `TakeoverSafety.PhaseKeeps` | code/backend/api/vault_ownership.go:676-690 | recording the native phase on the root, after Kopia's owner was set |
| `TakeoverSafety.FinalKeeps` | code/backend/api/vault_ownership.go:730-742 | handing the vault over clears the marker and leaves a finished takeover in the history |
| `TakeoverSafety.CareKeeps` | code/backend/api/vault_ownership.go:380-436 | a care save by the owner changes no ownership |
| `TakeoverSafety.TransitionKeeps` | code/backend/api/repository_recovery.go:1301-1312 | a connection's transition is published over the reviewed root only, never after its takeover finished |
| `TakeoverSafety.ConnectFinalKeeps` | code/backend/api/repository_recovery.go:3609-3627 | a connection's final root follows its transition |
| `TakeoverSafety.ConnectKeeps` | code/backend/api/repository_recovery.go:1258-1312 | a first connect or a retry from whatever root is current |
| `TakeoverPromises.MarkerExcludesOthers` | code/backend/api/vault_ownership.go:92-121 | from a marker's publication to the one that clears it only its own takeover publishes, at most twice; the owner changes only to the one the marker names; the revision rises by one per publication |
| `TakeoverPromises.LogIsExclusive` | code/backend/api/repository_recovery.go:1855-1863 | the same for one position of any history the invariant allows |
| `TakeoverPromises.NewOwnerIsEnsuredFirst` | code/backend/api/vault_ownership.go:714-742 | the root names a new owner only through a final publication, and on Kopia only after the native owner was ensured in the same request |
| `TakeoverPromises.CompletedMeansPublished` | code/backend/database/owner_transfer.go:46-64 | a record is completed only after a root naming its profile was published for it |
| `TakeoverPromises.RecordMatchesRoot` | code/backend/api/vault_ownership.go:109-119 | record state and root (owner, marker, phase) form an admitted pair in every reachable state |
| `TakeoverPromises.OwnerStays` | code/backend/api/vault_ownership.go:635-754 | once named, the owner stays the owner until another takeover puts its marker on the root |
| `TakeoverPromises.AdvanceMovesRoot` | code/backend/api/vault_ownership.go:644-754 | which step of a request moves the root, from which root to which |
| `TakeoverPromises.RetryRecognisesItsRoots` | code/backend/api/repository_recovery.go:1270-1312 | a retry goes on exactly from the reviewed root, its own transition or its own final root |
| `TakeoverPromises.ConnectionSequence` | code/backend/api/repository_recovery.go:3201-3221 | a connection publishes each of its roots at most once, the transition right over the reviewed root and the final root right over the transition, and no other |
| `TakeoverPromises.CancelStrandsNothing` | code/backend/database/repository_connection.go:385-410 | a prepared connection that is cancelled has published no root and has no marker on the current one |
| `TakeoverPromises.AttachedAfterFinal` | code/backend/api/repository_recovery.go:3609-3732 | the vault is attached only after the connection's final root was published |
| `TakeoverCorners.OnlyRemovalStrands` | code/backend/database/repositories.go:629-654 | of all events only a removal of the vault strands a root, and exactly while that computer's own marker is on it |
| `TakeoverCorners.StrandedExactlyByRemoval` | code/backend/database/repositories.go:629-654 | a run ends in a stranded root if and only if one of its events was such a removal |
| `TakeoverCorners.StrandingHappens` | code/backend/database/migrations.go:304-314 | a run that reaches a stranded root |
| `TakeoverCorners.StrandedInEveryRun` | code/backend/api/vault_ownership.go:92-121 | from then on no run of any computers changes the root |
| `TakeoverCorners.FinishableUnlessStranded` | code/backend/api/vault_ownership.go:247-258 | an unfinished takeover can still be finished, with the root naming its computer, if and only if it is not stranded |
| `TakeoverCorners.RememberedFinishes` | code/backend/api/vault_ownership.go:635-761 | the finishing run: that computer's next request, or its connection's next retry, and nobody else's help |
| `TakeoverResume.OfferedMeansFinishes` | code/backend/api/vault_ownership.go:635-761 | from every state the status offers, an uninterrupted request completes, with the root naming this profile, after exactly the publications its state still needs (at most three) |
| `TakeoverResume.NotOffered` | code/backend/api/vault_ownership.go:635-754 | what is not offered is refused and changes nothing, but for the false finish |
| `TakeoverResume.FinishesExactlyWhenOffered` | code/backend/api/vault_ownership.go:247-258 | offered if and only if an uninterrupted request completes truthfully; accepted if and only if offered or a false finish |
| `TakeoverResume.FirstRequestFinishes` | code/backend/api/vault_ownership.go:635-754 | a first takeover of a settled vault completes with three publications |
| `TakeoverResume.SettleIsRun` | code/backend/api/vault_ownership.go:523-761 | an uninterrupted request is one of the machine's runs |
| `TakeoverResume.FalseFinishHappens` | code/backend/api/vault_ownership.go:749-754 | a reachable state in which a request is accepted and completed while the root names the other computer |
| `TakeoverOutcomes.EachChangesOneThing` | code/backend/api/vault_ownership.go:644-754 | every event that moves the root changes one thing on it, the marker, its phase, the owner, the care or the fence, and nothing else; while a fence is up only its lifting moves the root |
| `TakeoverOutcomes.EachPublicationIsOneChange` | code/backend/api/vault_ownership.go:523-761 | in every run each root ever published is the one change of one event, out of the root published before it, under its computer's name |
| `TakeoverOutcomes.CareIsKeptOrAsked` | code/backend/api/vault_ownership.go:730-742 | in every run each publication keeps the vault's care, or sets the care that its own computer had asked for by a save or a reviewed connection |
| `TakeoverOutcomes.CareSaveTakesEffect` | code/backend/api/vault_ownership.go:399-436 | an uninterrupted care save of the owner changes the care and the revision alone; anyone else's changes nothing |
| `TakeoverOutcomes.FenceAndLift` | code/backend/vaultprofile/password_rotation.go:378-431 | a fence goes up exactly over a settled root of its own owner without a running takeover; then only its lifting moves the root, which is as before but for its revision |
| `TakeoverOutcomes.ReviewSaves` | code/backend/database/repository_connection.go:190-290 | a review is admitted exactly on a settled root of a vault not attached here, and saves what it saw |
| `TakeoverOutcomes.AlignsItself` | code/backend/api/vault_ownership.go:319-356 | Kopia's owner is changed only by the computer it becomes, and only while the root names that computer as its owner or in its marker |
| `TakeoverOutcomes.NoKopiaNoAlignment` | code/backend/api/vault_ownership.go:663-690 | in every run of a vault that is not Kopia's no request touches a native owner |
| `TakeoverOutcomes.PendingIsSaved` | code/backend/api/repository_recovery.go:3707-3714 | after its final root a connection has saved that only the attachment is pending; one that does not take over is then attached by its next retry, whatever others did to the root in any number of steps |
| `TakeoverOutcomes.ConnectionFinishes` | code/backend/api/repository_recovery.go:3511-3732 | a connection or its retry that nothing interrupts, from any root of its own: the vault is attached over the final root, and Kopia's owner is this computer when it takes over |
| `TakeoverOutcomes.ReviewedConnectionFinishes` | code/backend/api/repository_recovery.go:3201-3221 | a review and one uninterrupted connection: the root then names this computer and has the reviewed care |
| `TakeoverHandler.Vault.Post` | code/backend/api/vault_ownership.go:523-761 | the handler, dying after any number of successful calls, does exactly the machine's steps so far; the vault's care stays as it was |
| `TakeoverHandler.Vault.ApplyNative` | code/backend/api/vault_ownership.go:663-696 | Kopia's owner, then the root's phase, then the saved state |
| `TakeoverHandler.Vault.HandOver` | code/backend/api/vault_ownership.go:697-713 | the root is read again after the native phase |
| `TakeoverHandler.Vault.NameOwner` | code/backend/api/vault_ownership.go:714-748 | the native owner is ensured once in a request before the root names it, and the root keeps its care |
| `TakeoverHandler.Vault.Complete` | code/backend/api/vault_ownership.go:600-620 | the record's last states, in order |
| `TakeoverHandler.Vault.FinishOwned` | code/backend/api/vault_ownership.go:578-634 | a root that names this profile already is only aligned and completed |
| `TakeoverHandler.Vault.Decide` | code/backend/api/vault_ownership.go:635-643 | the saved record goes on, or a new one is begun |
| `Publication.SidecarStore.Publish` | code/backend/vaultprofile/store.go:1232-1410 | whatever fails and whatever other computers publish at any of five instants: the record is copied into place only over exactly the reviewed one, success means it is there, an error after the copy leaves it there, the two records at the end are exactly determined, only the own pending name is touched, a conflict means different bytes under that name; without rivals it succeeds exactly when no command failed, over a reviewed record or into an empty place |
| `Publication.LostExactly` | code/backend/vaultprofile/store.go:1342-1410 | in every attempt over a readable record: exactly when that record is neither in place nor preserved afterwards, and exactly when another computer's is not; to the copy itself only the accepted race loses one |
| `Publication.SidecarStore.Review` | code/backend/vaultprofile/store.go:1257-1336 | the checks before the upload, and what each refusal means |
| `Publication.SidecarStore.Preserve` | code/backend/vaultprofile/store.go:1360-1379 | the reviewed record is looked up again before it is preserved, and the preserved one is read back |
| `Publication.SidecarStore.Replace` | code/backend/vaultprofile/store.go:1360-1408 | what the copies and readbacks do to the two records, with other computers publishing before, between and after them |
| `Publication.PendingComesFromAttempts` | code/backend/vaultprofile/store.go:1342-1359 | every pending object is some earlier attempt's bytes under its own name |
| `Publication.NoConflict` | code/backend/vaultprofile/store.go:1342-1349 | when equal identities mean equal bytes, no attempt is refused for what an earlier one left |
| `Publication.CopiedIsFound` | code/backend/vaultprofile/store.go:1395-1408 | after a copy that was done, whatever was reported, the next attempt with the same bytes finds the record in place |
| `Publication.RetriesAreNeverBlocked` | code/backend/api/vault_ownership.go:438-460 | the identities chosen for takeover and connection roots have that property, so no retry is ever blocked |
| `Publication.SharedIdentityBlocks` | code/backend/api/repository_recovery.go:1314-1345 | with one identity for two roots a failed cleanup would block every retry |
| `WriteAhead.Connection.Attempt` | code/backend/api/repository_recovery.go:3511-3732 | an attempt whose first so many calls succeed, after other computers took the profile, moved the root or changed Kopia's owner: exactly when it attaches and exactly when it leaves the state that only the attachment is pending; every outside effect found the durable state past prepared, and attached means everything reviewed has happened |
| `WriteAhead.Connection.RefusedRetry` | code/backend/api/repository_recovery.go:293-304 | a half-done takeover of the owner's profile on Kopia that no retry finishes |
| `WriteAhead.Connection.Attempts` | code/backend/api/repository_recovery.go:1438-1569 | over any number of attempts with other computers in between: once attached everything reviewed has happened, the profile is this computer's and Kopia's owner the reviewed one; while nobody interferes, one attempt that nothing stops is enough |
| `WriteAhead.Connection.Publish` | code/backend/api/repository_recovery.go:3527-3627 | everything but the configuration and the attachment: exactly how many calls it takes and exactly when it is overtaken |
| `WriteAhead.Connection.PublishRoot` | code/backend/api/repository_recovery.go:3609-3627 | the final root is published once, unless another computer moved the root |
| `WriteAhead.Connection.PendingIsKept` | code/backend/api/repository_recovery.go:3707-3708 | an attempt that stopped right before the attachment is retried with success although another computer has moved the root since |
| `WriteAhead.Connection.Announce` | code/backend/api/repository_recovery.go:3527-3548 | the profile, then the ownership marker, each after the durable state |
| `WriteAhead.Connection.Configure` | code/backend/api/repository_recovery.go:3550-3603 | Kopia's client, then its owner: verified against the reviewed one, or set under an admission that reads the root once more |
| `WriteAhead.Connection.PublishFinal` | code/backend/api/repository_recovery.go:3549-3627 | Kopia's owner, then the final root, and exactly when another computer's root or Kopia's owner stops it |
| `WriteAhead.Connection.Attach` | code/backend/api/repository_recovery.go:3645-3732 | the sign-in's configuration, then the pending state, then the attachment: whenever the call after the last effect succeeds that state is saved, whether or not the attachment follows, and with nothing published the vault is attached at once |
| `WriteAhead.Connection.Cancel` | code/backend/database/repository_connection.go:389-410 | only a prepared review can be cancelled, and nothing has happened outside then |
| `WriteAhead.Creation.Attempt` | code/backend/api/repository_create.go:499-697 | exactly what one attempt comes to, whatever it finds and wherever it stops: one launch at most, only on an empty destination; nothing is validated or attached while the native command may still run; attached means the exact identity first recorded |
| `WriteAhead.Creation.Requests` | code/backend/database/repository_creation.go:425-455 | over any attempts and cancellations of one intent the destination is touched at most once, by the one launch, and only if nothing was there |
| `WriteAhead.Creation.GiveUpForGood` | code/backend/api/server.go:868-930 | a creation that was cancelled or forgotten stays so whatever is asked later: nothing is launched and the destination stays; refused only while the native command may run or when it is over |
| `Attachments.Scan` | code/backend/api/repository_recovery.go:149-192 | the fold selects this computer's profile, else the requested one, else the only one |
| `Attachments.ScanOrderDoesNotMatter` | code/backend/api/repository_recovery.go:158-187 | two listings of the same profiles select the same one or are refused for the same reason |
| `Attachments.OneAttachment` | code/backend/api/repository_recovery.go:742-875 | every accepted transition leaves exactly one profile attached to this computer, at most 256 profiles, and distinct identities |
| `Attachments.TakeoverMovesOneProfile` | code/backend/api/repository_recovery.go:853-871 | a profile takeover replaces exactly the selected profile, in its place, one generation and one revision later; this computer had none and then has that one; every other profile stays |
| `Attachments.AcceptedExactly` | code/backend/api/repository_recovery.go:742-875 | a connection is accepted exactly as an import, a join, a reconnect or a profile takeover; everything else is refused |
| `Attachments.PublishesExactlyChanges` | code/backend/api/repository_recovery.go:838-871 | a transition publishes if and only if it changes the listing; over a reviewed profile it expects exactly that one and is one revision later, and else the profile is the selected one |
| `Attachments.CheckPending` | code/backend/api/repository_recovery.go:1053-1108 | the retry check admits exactly the declared states |
| `Attachments.AdmittedHasNoOther` | code/backend/api/repository_recovery.go:1086-1091 | an admitted retry finds no other profile attached to this computer |
| `Attachments.OwnRetryIsAdmitted` | code/backend/api/repository_recovery.go:1053-1108 | a retry is admitted before and after its own profile was published |
| `SignInSafety.RunKeeps` | code/backend/api/rclone_auth.go:345-959 | every interleaving of locked sections, native workers, relays, disposals and shutdown calls keeps the ownership invariant |
| `SignInSafety.ActOk` | code/backend/api/rclone_auth.go:345-770 | one section about a session keeps what it owns with exactly one owner |
| `SignInSafety.DiscardOk` | code/backend/api/rclone_auth.go:706-713 | whatever a discarded session held goes to its one disposal |
| `SignInSafety.RemoveOk` | code/backend/api/rclone_auth.go:722-770 | a disposal closes the flow, comes back as its own retry owner, tries again or records the failure |
| `SignInSafety.DrainKeeps` | code/backend/api/rclone_auth.go:812-821 | the second pass of shutdown takes what came back meanwhile |
| `SignInPromises.ExactlyOneOwner` | code/backend/api/rclone_auth.go:706-770 | an open flow, a running worker and an open relay have exactly one owner; an open relay's owner has a worker |
| `SignInPromises.LeaseProtects` | code/backend/api/rclone_auth.go:908-944 | while a lease is out, no expiry, close, eviction, claim or shutdown takes the session |
| `SignInPromises.LeaseIsUnique` | code/backend/api/rclone_auth.go:884-914 | at most one lease is out for a session, and none more is given to any provider |
| `SignInPromises.LeavingIsForGood` | code/backend/api/rclone_auth.go:702-713 | every step that takes an entry out of the store ends the session and hands it to a disposal |
| `SignInPromises.NoResurrection` | code/backend/api/rclone_auth.go:578-685 | a discarded or consumed session is never served again in any continuation, even when a failed removal brings it back |
| `SignInPromises.NeverLostOrThere` | code/backend/api/rclone_auth.go:746-757 | the branch for an entry that came back meanwhile and the lost-ownership branch are never taken |
| `SignInPromises.ReturnedCall` | code/backend/api/rclone_auth.go:775-832 | after a shutdown call returned the store is empty for good, and all that is unsettled is held by another call |
| `SignInPromises.ShutdownSettlesEverything` | code/backend/api/rclone_auth.go:775-832 | when every shutdown call has returned, every flow was closed or its failure reported, no worker runs and no relay listens |
| `SignInPromises.OverlappingCalls` | code/backend/api/rclone_auth.go:772-832 | a run in which a call returns while another still holds an open flow |
| `SignInOutcomes.EndsExactlyWhen` | code/backend/api/rclone_auth.go:687-713 | exactly which sections end a session (a close, an expiry, an eviction, a failed or abandoned claim, a consumed lease), each handing it whole to one disposal; in every other it stays |
| `SignInOutcomes.ConsumedIsGone` | code/backend/api/rclone_auth.go:935-944 | after a consumed lease the entry is gone into one disposal, and in every continuation the session is refused |
| `SignInOutcomes.LeaseAndRetain` | code/backend/api/rclone_auth.go:908-935 | a lease restarts the time and lets its own provider publish; a retained one leaves everything else as it was, and the session can be leased again |
| `SignInOutcomes.TransitionEnds` | code/backend/api/rclone_auth.go:441-508 | a running transition ends once; exactly when it failed, or left no flow, its claim gives the whole session up, and otherwise the claim makes it usable |
| `SignInOutcomes.ShutdownTakes` | code/backend/api/rclone_auth.go:775-821 | the first pass of shutdown takes a session exactly if it is not leased, and the second one takes what is left |
| `SignInOutcomes.OutcomeIsTaken` | code/backend/api/rclone_auth.go:479-508 | a transition that succeeded makes its session usable with its time restarted, and nothing is open then |
| `SignInOutcomes.AnswerIsTaken` | code/backend/api/rclone_auth.go:578-609 | an answer is refused, or it launches exactly one more transition, whose outcome makes the session usable again |
| `SignInOutcomes.StartIsServed` | code/backend/api/rclone_auth.go:541-562 | a new session is not usable before its first transition is done, and usable by its provider then; no other session changes |
| `SignInOutcomes.LinkOnce` | code/backend/api/rclone_auth.go:345-428 | the link is handed out once per transition, with its relay in a container |
| `SignInOutcomes.FlowChanges` | code/backend/api/rclone_auth.go:722-832 | every event that changes a flow: its first transition opens it, a removal that succeeds closes it, the third failure during shutdown is recorded, and a returning call reports it |
| `SignInOutcomes.RemovalComesTo` | code/backend/api/rclone_auth.go:740-770 | what a removal comes to: closed, back as a refused retry owner, tried again, or recorded after three failures during shutdown |
| `SignInOutcomes.DisposalFinishes` | code/backend/api/rclone_auth.go:722-740 | every disposal can be carried through: its relay is closed, its worker ends, and a removal that succeeds leaves nothing |
| `SignInOutcomes.CallReturns` | code/backend/api/rclone_auth.go:822-832 | a shutdown call returns exactly when its disposals and all ordinary ones are done, reporting every recorded failure |
| `SignInStore.AuthStore.DiscardLocked` | code/backend/api/rclone_auth.go:706-713 | the entry leaves the map and its disposal begins, in one section |
| `SignInStore.AuthStore.Close` | code/backend/api/rclone_auth.go:687-700 | a leased session is not closed; any other leaves the store whole into a disposal |
| `SignInStore.AuthStore.PurgeExpired` | code/backend/api/rclone_auth.go:260-273 | exactly the expired sessions without a lease are handed to disposals |
| `SignInStore.AuthStore.EvictStale` | code/backend/api/rclone_auth.go:512-539 | exactly the sessions waiting at the browser step are ended |
| `SignInStore.AuthStore.StartFlow` | code/backend/api/rclone_auth.go:510-562 | a new session, after which no other one waits at the browser step; nothing once shutdown began |
| `SignInStore.AuthStore.ContinueFlow` | code/backend/api/rclone_auth.go:578-609 | an answer is taken exactly when the session is answerable |
| `SignInStore.AuthStore.TakeFlow` | code/backend/api/rclone_auth.go:479-508 | the second section of a claim takes the flow exactly when the entry is still the claimed one |
| `SignInStore.AuthStore.BeginFinalUse` | code/backend/api/rclone_auth.go:884-914 | a lease is given exactly when the session is leasable |
| `SignInStore.AuthStore.FinishFinalUse` | code/backend/api/rclone_auth.go:916-946 | retained keeps the session, usable again and with its time restarted; consumed removes it before its folders are, whole into one disposal |
| `SignInStore.AuthStore.KeepForRetry` | code/backend/api/rclone_auth.go:742-757 | a failed removal puts the entry back as a retry owner, unless shutting down |
| `SignInStore.AuthStore.BeginCloseAll` | code/backend/api/rclone_auth.go:775-790 | every session without a lease is taken into the call's hands |
| `SignInStore.AuthStore.DrainCloseAll` | code/backend/api/rclone_auth.go:812-821 | the rest is taken once no lease is out |
| `VaultWork.NoDeadlock` | code/backend/api/tracked_workers.go:539-614 | in every reachable state no chain of waits closes, and while work is unfinished some worker can go on |
| `VaultWork.WaitingDescends` | code/backend/api/vault_removal.go:109-135 | the order behind it: idle removals, job deletions, lock waiters by vault ID, running work |
| `VaultWork.StepKeeps` | code/backend/database/operations.go:67-107 | one holder per lock and gate, one deletion per job, one removal per vault, whatever is queued, cancelled or finished |
| `VaultWork.DeletionStaysAlone` | code/backend/database/jobs.go:65-91 | past its idle wait a job deletion is alone with its job |
| `VaultWork.RemovalStaysAlone` | code/backend/api/vault_removal.go:115-125 | past its idle wait a removal is alone with its vault, but for job deletions |
| `VaultWork.RemovedAlone` | code/backend/database/vault_operations.go:92-117 | a vault's row is deleted only by the holder of its lock and with no other work of the vault active, job deletions included |
| `VaultWork.AcceptedNeverStarts` | code/backend/operationruntime/manager.go:263-330 | an accepted cancel and a started change exclude each other |
| `VaultWork.OppositeOrdersWait` | code/backend/api/tracked_workers.go:590-614 | for any two vaults: with locks taken in opposite orders some run would end with both deletions blocked for good |
| `VaultWorkOutcomes.AdvanceGoesOn` | code/backend/api/tracked_workers.go:609-616 | a worker that is not blocked goes exactly one step on: with all its locks it runs, its cancel gate closed, if and only if nobody cancelled it, and ends otherwise; a running removal deletes its row if and only if no other work of the vault is active |
| `VaultWorkOutcomes.RunningShareNoVault` | code/backend/api/tracked_workers.go:590-614 | in every run no two running workers use the same vault |
| `VaultWorkOutcomes.QueueAdmits` | code/backend/database/operations.go:62-107 | exactly what is refused while a removal or a deletion is pending; anything else is queued with an open gate |
| `VaultWorkOutcomes.CancelAndStop` | code/backend/operationruntime/manager.go:263-330 | a cancel is accepted exactly while the gate is open, and ends whoever waits for idleness or a lock |
| `VaultWorkOutcomes.EndedByRunOrCancel` | code/backend/operationruntime/manager.go:263-330 | in every run, work that ended either ran or had its cancel accepted before it could, and never both |
| `VaultWorkOutcomes.EverythingEnds` | code/backend/api/vault_removal.go:109-136 | from every reachable state going on alone brings all work to its end, and whoever nobody had cancelled is run |
| `Artifacts.Vault.ChangeThenRestart` | code/backend/artifactrecovery/recovery.go:75-109 | a change that dies or fails at any step, then a start that fails in any way: whether the old artifacts are back, for a rotation to the same options too, and exactly when the start is refused |
| `Artifacts.Vault.ChangeThenStarts` | code/backend/artifactrecovery/recovery.go:19-67 | the same with any number of failing starts: the first clean one has the old artifacts back exactly if the change was not saved |
| `Artifacts.Vault.Starts` | code/backend/artifactrecovery/recovery.go:19-67 | however many starts fail or crash, the first clean one leaves no stage and pays what recovery owed |
| `Artifacts.Vault.Change` | code/backend/api/server.go:1360-1380 | stage, save, then finalize or restore, over any leftovers, with exactly what each crash or failure leaves |
| `Artifacts.Vault.StageArtifacts` | code/backend/engines/repository_identity.go:238-291 | manifest first, then the artifacts aside |
| `Artifacts.Vault.Restore` | code/backend/engines/repository_identity.go:293-325 | the old copy back, never over artifacts that are there, with exactly what each failure leaves |
| `Artifacts.Vault.Finalize` | code/backend/engines/repository_identity.go:327-362 | mark, then discard; unmarked remains only when both fail |
| `Artifacts.Vault.ReconcileStage` | code/backend/artifactrecovery/recovery.go:75-109 | a marked stage never moves an old copy; an old copy comes back exactly when nothing is there and the change looks unsaved |
| `Artifacts.Vault.Reconcile` | code/backend/artifactrecovery/recovery.go:19-67 | one start, with any failures for each stage: what is resolved, what comes back, what stays marked, nothing lost, and when the start is refused |
| `Artifacts.Vault.RestartLater` | code/backend/artifactrecovery/recovery.go:77-109 | at a later start, when the vault or its old options may be back: an old copy comes back if and only if nothing is there and an unmarked leftover that looks unsaved has one |
| `Artifacts.Vault.LeftoverComesBack` | code/backend/engines/repository_identity.go:327-352 | two saved rotations, there and back, of which the first could neither be marked nor removed: the next start moves the first copy into place |
| `Artifacts.Vault.Remove` | code/backend/api/vault_removal.go:157-196 | at most two attempts, the second exactly when a change overtook the first; which outcome follows from what, and exactly what each leaves: the row goes only after the profile was published, and then what was staged is discarded |
| `Artifacts.Vault.TryRemoval` | code/backend/api/vault_removal.go:173-189 | one attempt: staging, the deletion, and the artifacts discarded or restored; exactly which outcome follows and what it leaves |
| `Artifacts.Vault.TryStage` | code/backend/engines/repository_identity.go:276-290 | a staging that fails: before its manifest, with the manifest left, or after the move with an undo that may fail |
| `Artifacts.Vault.RemoveThenStarts` | code/backend/artifactrecovery/recovery.go:19-67 | whatever failed in a removal and in any starts after it, the first clean start has the artifacts back exactly if the vault is still there, and leaves nothing else |
| `Redaction.Coverage.Cover` | code/backend/api/support_report.go:418-443 | the two arrays count what starts and ends at each byte and the best rank starting there |
| `Redaction.Coverage.CoverLiteral` | code/backend/api/support_report.go:456-465 | every occurrence of a literal is covered, overlapping ones included, and nothing else |
| `Redaction.Coverage.Sweep` | code/backend/api/support_report.go:529-551 | the one-pass sweep writes the text its ranges define |
| `Redaction.DepthPositiveIffCovered` | code/backend/api/support_report.go:535-538 | the running sum is positive exactly on covered bytes |
| `Redaction.CopiesExactlyTheUncovered` | code/backend/api/support_report.go:542-549 | the copied bytes are the uncovered ones, in order |
| `Redaction.OneMarkerPerRun` | code/backend/api/support_report.go:536-545 | each maximal run of overlapping or touching ranges gives one marker, in its place, of the highest rank starting in it |
| `Redaction.MarkersAreSeparated` | code/backend/api/support_report.go:536-541 | no two markers are adjacent |
| `Redaction.OrderDoesNotMatter` | code/backend/api/support_report.go:410-443 | the order in which ranges were found does not matter |
| `SecretTail.HasIncompleteSecretTail` | code/backend/api/support_report.go:861-903 | true exactly when some literal of length at least two has a non-empty proper prefix that ends the value; linear steps per literal, with one reused table that only a longer literal replaces |
| `SecretTail.BuildPrefix` | code/backend/api/support_report.go:871-884 | the prefix function of the literal, whatever the buffer held before |
| `SecretTail.TailMatch` | code/backend/api/support_report.go:885-900 | the longest proper prefix of the literal that ends the value |
| `SecretTail.MatchExtends` | code/backend/api/support_report.go:890-897 | extending a match by one character, or falling back |
| `ByteBudget.QuoteWithin` | code/backend/api/support_report.go:566-587 | the longest rune prefix whose quoted form fits, or nothing when not even the suffix does |
| `ByteBudget.BuildOperationDetail` | code/backend/api/support_report.go:1090-1131 | operation details stay within 8 KiB, and the second size check never triggers |
| `ByteBudget.BuildReport` | code/backend/api/support_report.go:638-663 | the report stays within 256 KiB, keeps the longest prefix of the issues that leaves room for the truncation line, and has that line exactly when an issue was dropped |
| `ByteBudget.HeaderLeavesRoom` | code/backend/api/support_report.go:638-653 | the report's own header always leaves room for the truncation line |
| `StateVolume.Volume.ReownChildren` | code/backend/container_user_linux.go:286-321 | the walk is the specified one; everything below a folder outside mounts, and nothing else, is re-owned; it ends, and enough calls succeed |
| `StateVolume.WalkOwnsBelow` | code/backend/container_user_linux.go:283-321 | a walk that gets through gives the user everything below, takes nothing from them and changes nothing else, wherever it stops |
| `StateVolume.WalkNeedsNoSpare` | code/backend/container_user_linux.go:286-321 | a walk that got through with calls to spare does the same without them |
| `StateVolume.Volume.OwnStateVolume` | code/backend/container_user_linux.go:252-281 | an interrupted walk keeps the promise that a top folder of the user means everything is; a success means everything is theirs if and only if that promise held |
| `StateVolume.Volume.Starts` | code/backend/container_user_linux.go:240-251 | over any starts with one user: from a successful one on everything is owned and every later start succeeds; one that nothing interrupts is enough |
| `StateVolume.WholeUnlessDisturbed` | code/backend/container_user_linux.go:240-251 | over any starts by any users, everything belongs to the top folder's owner if and only if nothing was disturbed since it was last given away |
| `StateVolume.SuccessMeansAll` | code/backend/container_user_linux.go:240-268 | a successful start means everything is its user's unless the top folder was theirs already and something was disturbed since |
| `StateVolume.Volume.StartsForAnyone` | code/backend/container_user_linux.go:252-281 | the same for each start of any sequence by any users |
| `StateVolume.Volume.BackToFormerUser` | code/backend/container_user_linux.go:266-268 | from any volume wholly one user's: a stopped start for another user and then a successful one for the former, with nothing inside theirs |
| `SelectedRestore.Admit` | code/backend/api/file_history.go:562-571 | a selection is admitted exactly when no path contains another, by components |
| `SelectedRestore.OverlapMeansContainment` | code/backend/api/file_history.go:566 | the textual comparison is containment of paths |
| `SelectedRestore.KeysAreUnique` | code/backend/api/file_history.go:387-400 | items of an admitted selection never share the key of their native root |
| `SelectedRestore.RestoreSelection` | code/backend/api/file_history.go:703-924 | one result per item in order, every counter is the count of its kind of result, attempted, not attempted and storage-unavailable add up, and the status means what it says |
| `SelectedRestore.Account` | code/backend/api/file_history.go:727-900 | the bookkeeping of one item: exactly which counters it raises, whether it stops the rest and whether it interrupts |
| `SelectedRestore.AllSkippedAfterAStop` | code/backend/api/file_history.go:711-725 | after the first stop every later item is not attempted |
| `Shutdown.Sequence.ShutdownInOrder` | code/backend/main.go:827-902 | for every choice of what returns in time: every hook that is there stops once, stage after stage, the shared resources each right after the deadline was looked at, and nothing follows a passed deadline; everything is stopped exactly if the deadline was not found passed at any of the times it is asked about |
| `Shutdown.DatabaseIsLast` | code/backend/main.go:877-901 | whatever is late: once the database stops, no other hook starts or is still to return |
| `Shutdown.Sequence.JoinProducers` | code/backend/main.go:853-875 | producers stop together, each once; the join ends early exactly if the deadline passes before one of them has returned |
| `Shutdown.Sequence.StopResources` | code/backend/main.go:877-901 | the deadline is looked at again before each shared resource |
| `Shutdown.Reservation.Reserve` | code/backend/main.go:728-749 | exactly the first contended vault stops it, and what was reserved before is released, once |
| `Shutdown.Reservation.Recover` | code/backend/main.go:750-777 | every reserved lock is released exactly once on every path |

## Left out

- Routing, request decoding, headers, error wording, Host and Origin checks: plumbing around the decisions above.
- Native engines, rclone, storage, SQLite and the sign-in relay's network: only what they may answer is modelled.
- Regular expressions and Go quoting: the redaction takes any ranges inside the text, the byte budget any positive cost per rune.
- "Update existing vault", which connects a vault that is attached already: `Takeover` models connections of a vault not attached here.
- A connection that publishes no root at all, in `Takeover`: it changes nothing the root's history records.
- The order in which one attached computer's password rotation writes its profiles: `Takeover` keeps the fence and its lifting.
- `status` of a sign-in session: it repeats the checks of a claim without changing anything.
- The wait group for starting sign-ins: shutdown in the model may go on earlier than in the source.
- Shared and low-priority readers of a vault lock: every holder in `VaultWork` is exclusive, and holds at most one lock unless it is a job deletion.
- Stopping a worker that waits for a job's definition gate: the gate's own wait cannot be cancelled.
- planVaultSettings, vault password change internals, metadata indexing, option parsing, notifications, updates and the user interface.
- TakeoverHandler.Vault.Post: another computer acting between two calls of this handler is in the machine (`Takeover.Step`), not in the method.
- WriteAhead.Connection.Attempt: other computers act between two attempts; what they may do between two calls of one attempt is in `Takeover`; the retry's check of the whole profile listing is `Attachments.CheckPending`.
- StateVolume.Volume.ReownChildren: entries created or moved in after their folder was listed.
