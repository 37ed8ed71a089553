# Verification of the vault synchroniser

This project models the parts of the password manager that must not lose or mix up data, and proves what they promise:

- **LAN sync** (`internal/sync`): negotiation of a plan, the two-party session over two message queues, the file-by-file
  swap of a received vault with its crash recovery, and the catalogue update after a transfer.
- **Bech32** (`internal/age/bech32`): the encoding of BIP 173, section "Bech32".
- **Catalogue, re-keying and agent** (`internal/usm`, `internal/agent`): the recency merge and the version counter, the
  change of a vault's password, and the agent's session table.
- **One-time passwords and sampling** (`internal/otp`, `internal/usm`, `internal/sync/pairing.go`).

`dafny verify dfyconfig.toml` checks everything.

## How the model is built

| file | role |
|---|---|
| `Results`, `Bytes`, `Nonlinear`, `Radix`, `Decimals`, `Entries`, `FileNames` | results, arithmetic, numerals, catalogue entries, directory listings |
| `Checksum`, `Regroup`, `Bech32`, `StandardWords` | the checksum as a GF(32)-linear fold on `bv32`, the base-256 to base-32 regrouping with a 32-bit accumulator, the text format, and published words of the standard |
| `Transfer`, `VaultDirectory` | the crash points of a swap and what recovery makes of each; the class whose methods perform the renames |
| `Negotiation` | one verdict per vault as the specification; the loops over the two catalogues and over the two plans |
| `CatalogueStore`, `ChainCatalogue`, `Convergence` | the two ways to store a catalogue, and what a second negotiation finds |
| `Session`, `SessionSafety`, `SessionRuns`, `SessionResults` | the session as a state machine, its invariant, its safety and liveness theorems |
| `SyncNames` | which received names are valid, what a receive commits, and hosts of real vaults |
| `SessionStreams`, `SessionWire`, `Endpoint` | each side as the sequential program of the source, what it puts on the wire, and its agreement with the state machine |
| `SessionBlocking`, `SessionEnds`, `SessionFinish` | receives on a stream that is still open, the exact condition under which a session finishes, and what it says about the vaults on the hosts |
| `SessionDelivery` | what a session leaves of each vault on both sides, finished or blocked, agreed or not |
| `Network` | any number of peers that edit and sync, sessions with failures included |
| `Vaults`, `Rekey`, `Backups` | the item index, the change of password, and the backups that a series of changes leaves |
| `Agent`, `Otp`, `Sampling` | the remaining components |

A vault directory is three maps from file name to content: live, staging and backup. `VaultDir.visited` records every
state of the disk after a single rename or removal, so a crash may fall between any two of them; a directory that is
being removed may hold any part of its files. `os.ReadDir` returns sorted names. A session is two lists of tasks and two
FIFO queues; any enabled task may go first, and a read also ends when the other side has closed the stream. A plan is
any result that `Negotiate` may return, whatever the order of map iteration. Clocks, random bytes, MACs, key-derivation
streams, chain checksums and the failures of file operations are parameters.

## What was found

- `CommitStaging` calls itself atomic, but a crash after the first live file has been moved to the backup and before the
  old `vault.age` has been moved makes recovery delete the backup. `Transfer.CrashSafety` says exactly that: before the
  staged `vault.age` is live, the old files survive if and only if the crash is outside that window.
- Recovery can itself be interrupted without harm exactly when no backup file with a name after `vault.age` still has to
  be moved (`Transfer.ReentrancyExact`); the real file names never sort after it (`FileNames.VaultSortsLast`).
- `receiveVault` does not compare the vault name of the begin message, so files are committed by position
  (`SessionDelivery.EveryVault`): after a vault that a sender skips, the i-th name gets the files of the i-th vault that
  is really sent (`SessionDelivery.SkippedVaults`).
- Peers can end up waiting for each other. `SessionEnds.FinishExact` gives the exact condition for any two hosts. If the
  plans disagree or every planned vault can be read, every session finishes, whatever the names and sizes of the files
  (`SessionFinish.ReadableFinishes`). If the peers agree and only directories can fail, a session finishes if and only if
  every pulled vault can be listed, and every pushed vault can be listed or nothing is pulled
  (`SessionFinish.CleanFinishExact`).
- Unlocking a vault stamps its entry with a new checksum but the old version, so a vault that was in sync becomes a
  conflict, unless it is a migrated one without a checksum and looks the same (`Network.UnlockMakesConflict`).
- A change of password leaves `usm.json` empty or torn exactly if the re-encryption gets as far as the catalogue, the file
  opens and its write fails, because opening it for writing empties it; every other error leaves it unchanged
  (`Rekey.OSStorage.ChangeVaultPassword`). If the move back fails, the vault stays under its backup's name.
- A change of password is meant to keep only the previous generation as a backup, but it removes only the backup of the
  version before, and every edit raises the version too. The backup of a change is removed by the next change if and only
  if nothing in between changed the vault's modification stamp (`Backups.RemovedByNext`). With one edit in between
  (`Backups.EditKeepsBackup`), and in general after any series of changes (`Backups.BackupsLeft`), backups that open
  with older passwords stay and pile up.
- Over any history of edits and sessions, failed and blocked ones included, no peer's version of a vault goes down
  (`Network.HistoryVersions`), but entries and files stay together exactly if each session gives every vault that it
  commits its own files (`Network.HistoryExact`).
- The `usm.json` path does not copy the checksum and goes through the recency merge; `Convergence.LegacyExact` gives the
  exact condition under which a pulled vault is in sync afterwards.
- A strict and a relaxed peer agree on a plan exactly when every common vault with different fingerprints is a conflict
  for the relaxed one too (`Negotiation.MixedModes`).

## Model

| member | source | states |
|---|---|---|
| Checksum.Polymod | internal/age/bech32/bech32.go:34-48 | the loop computes the fold of the 30-bit step over all values, starting from 1 |
| Checksum.StepLinear | internal/age/bech32/bech32.go:36-46 | one step of the checksum is linear over GF(2) in state and symbol together |
| Checksum.GeneratorTimesX | internal/age/bech32/bech32.go:32-32 | each generator is the one before with its six five-bit digits multiplied by x in GF(2)[x]/(x^5+x^3+1), and the fifth times x closes the circle |
| Checksum.FoldLinear | internal/age/bech32/bech32.go:34-48 | the whole checksum is linear: the XOR of two words has the XOR of their checksums |
| Checksum.FoldTimesX | internal/age/bech32/bech32.go:34-48 | multiplying state and symbols by x multiplies the checksum by x: with FoldLinear, the code is linear over GF(32) |
| Checksum.StepInjective | internal/age/bech32/bech32.go:36-46 | for a fixed symbol, different 30-bit states step to different states |
| Checksum.FoldInjective | internal/age/bech32/bech32.go:34-48 | for a fixed word, different 30-bit states end in different states |
| Checksum.ChecksumExact | internal/age/bech32/bech32.go:67-77 | six symbols close a word to checksum 1 if and only if they are the ones createChecksum returns |
| Checksum.ChecksumCloses | internal/age/bech32/bech32.go:67-77 | the symbols of createChecksum close the word |
| Checksum.BurstDetected | internal/age/bech32/bech32.go:63-65 | changing symbols only within six consecutive positions of a word changes its checksum, at any length |
| Regroup.ConvertBits | internal/age/bech32/bech32.go:79-106 | the loops with a 32-bit accumulator regroup the bits of the whole number, with the range, padding and non-zero-padding errors |
| Regroup.BytesRoundTrip | internal/age/bech32/bech32.go:79-106 | bytes regrouped to five bits with padding and back without are the same bytes |
| Regroup.SymbolsRoundTrip | internal/age/bech32/bech32.go:79-106 | symbols accepted without padding are what padding their bytes again gives: the zero padding is unique |
| Bech32.HrpExpand | internal/age/bech32/bech32.go:50-61 | the two loops expand the lower-case prefix into high bits, zero, low bits |
| Bech32.VerifyChecksum | internal/age/bech32/bech32.go:63-65 | the result is whether prefix and data fold to 1 |
| Bech32.CreateChecksum | internal/age/bech32/bech32.go:67-77 | the result is the checksum tail of prefix and data |
| Bech32.TailExact | internal/age/bech32/bech32.go:63-77 | data with six more symbols verify if and only if the six are the checksum of the data |
| Bech32.CheckHrp | internal/age/bech32/bech32.go:121-125 | the loop accepts exactly the prefixes of characters 33 to 126 |
| Bech32.ReadSymbols | internal/age/bech32/bech32.go:165-171 | the loop maps every character to its symbol and fails on any other character |
| Bech32.Encode | internal/age/bech32/bech32.go:110-144 | the result, error cases in order included, is the specified encoding |
| Bech32.Decode | internal/age/bech32/bech32.go:147-180 | the result, error cases in order included, is the specified decoding |
| Bech32.EncodeExact | internal/age/bech32/bech32.go:110-144 | encoding succeeds exactly for bytes under a non-empty printable prefix of one letter case with at most 90 characters in all; the text has exactly that length, starts with the prefix and the separator and is of one case |
| Bech32.EncodeErrors | internal/age/bech32/bech32.go:110-130 | each refusal of encoding has exactly its condition |
| Bech32.DecodeExact | internal/age/bech32/bech32.go:147-180 | an ASCII text is accepted if and only if it is of one letter case and, in lower case, what encoding gives for some prefix and bytes |
| Bech32.DecodeErrors | internal/age/bech32/bech32.go:147-171 | each refusal of decoding up to the characters of the data part has exactly its condition |
| StandardWords.EmptyWord | internal/age/bech32/bech32_test.go:29-30 | the published words A12UEL5L and a12uel5l are the encodings of no bytes under A and a, and are decoded to that |
| StandardWords.LongWord | internal/age/bech32/bech32_test.go:32-32 | the published word abcdef1..., which has every character of the alphabet, is the encoding of the 160-bit number with digits 0 to 31, and is decoded to it |
| Bech32.RoundTrip | internal/age/bech32/bech32.go:110-180 | for every single-case printable prefix, also with a '1' in it, and all bytes within the length limit, decoding the encoding returns the prefix and the bytes |
| Bech32.Canonical | internal/age/bech32/bech32.go:147-180 | every accepted ASCII string is what encoding its result gives up to case, and exactly if and only if it is lower case or its prefix has a letter |
| Bech32.BurstRejected | internal/age/bech32/bech32.go:63-65 | a valid word with changes confined to six consecutive data symbols is rejected |
| FileNames.ReadDir | internal/sync/transfer.go:74-77 | a listing holds exactly the names of the directory, in increasing order |
| FileNames.ListingUnique | internal/sync/transfer.go:74-77 | a directory has only one listing |
| FileNames.VaultSortsLast | internal/usm/item_metadata.go:33-43 | no real vault file name sorts after vault.age |
| VaultDirectory.VaultDir.PrepareStaging | internal/sync/transfer.go:53-60 | the staging directory is empty afterwards, live and backup files are untouched at every intermediate state |
| VaultDirectory.VaultDir.CommitStaging | internal/sync/transfer.go:64-115 | on success the live files are exactly the staged ones and both helper directories are gone; each failure leaves the old files but for those that could not be moved back, plus the staged files already moved, or stops where it is if the backup cannot be listed; while no move back fails, every disk state in between is one of the listed crash points |
| VaultDirectory.VaultDir.RollbackFromBackup | internal/sync/transfer.go:136-147 | every backup file is back over the live files except those whose rename failed, and the backup is gone |
| VaultDirectory.VaultDir.CleanupOrphanedSync | internal/sync/transfer.go:119-134 | a rollback happens exactly if there is a backup and no live vault.age; recovery leaves the specified directory if no move back fails, all but the files that could not be moved if some do, and the backup as it is if it cannot be listed; while no move back fails, every disk state in between is one that an interrupted recovery may leave |
| Transfer.CrashSafety | internal/sync/transfer.go:64-134 | after a crash at any point recovery leaves exactly the staged files once the staged vault.age is live; before that all old files survive if and only if the crash is outside the window, and only staged files under new names are added, or files of an older backup beside an empty directory |
| Transfer.RecoverAt | internal/sync/transfer.go:119-147 | the exact files that recovery leaves for each crash point, inside the window and beside an older backup too |
| Transfer.CleanupReentrant | internal/sync/transfer.go:119-147 | a recovery interrupted anywhere and run again leaves what one uninterrupted run leaves |
| Transfer.CleanupStrands | internal/sync/transfer.go:136-147 | if a backup file sorts after vault.age and is not live already, some interruption of recovery makes the next run lose it |
| Transfer.ReentrancyExact | internal/sync/transfer.go:119-147 | interruptions never matter if and only if no backup file is stranded behind vault.age |
| Transfer.RecoveriesAgree | internal/sync/transfer.go:119-147 | any number of interrupted recoveries end in the directory of one run |
| Transfer.HistorySafety | internal/sync/transfer.go:64-147 | crash safety for one crash of the swap followed by any number of crashes of the recovery |
| Negotiation.CodeDecides | internal/sync/negotiation.go:164-221 | compareEntries and detectConflict together give one verdict per vault, and never both a transfer and a conflict |
| Negotiation.Negotiate | internal/sync/negotiation.go:16-76 | the plan lists each vault's verdict once: transfers, conflicts with their versions and times, and nothing for vaults in sync |
| Negotiation.JudgeMirrored | internal/sync/negotiation.go:149-221 | the two peers judge a vault as mirror images, in both modes |
| Negotiation.PlanDirections | internal/sync/negotiation.go:16-76 | the names and directions of a plan are exactly the verdicts, whatever the map order |
| Negotiation.VerifyPlanConsistency | internal/sync/negotiation.go:104-147 | succeeds if and only if the initiator's list has no vault twice, is the flip of the responder's directions and the conflict names are equal |
| Negotiation.AgreeExact | internal/sync/negotiation.go:104-147 | plans of two modes agree if and only if all verdicts mirror each other |
| Negotiation.MirrorAgreement | internal/sync/negotiation.go:16-159 | two peers in the same mode always agree |
| Negotiation.MixedModes | internal/sync/negotiation.go:42-62 | a strict and a relaxed peer agree if and only if every fingerprint-mismatched common vault is a relaxed conflict |
| Negotiation.TransfersFlowForward | internal/sync/negotiation.go:26-73 | every transfer comes from the only owner or the strictly higher version, and is no conflict |
| Negotiation.PlanExact | internal/sync/negotiation.go:16-221 | in terms of the entries: a vault is pushed (pulled) if and only if only that side has it or has it at a strictly higher version, without equal checksums and without a strict fingerprint mismatch; it is a conflict if and only if both have it with such a mismatch, or at one version with different checksums, item counts or times |
| CatalogueStore.MergeCatalogueEntries | internal/usm/storage.go:334-354 | the in-place merge is the recency join of the two catalogues, null entries and null catalogues included |
| CatalogueStore.MergeIsJoin | internal/usm/storage.go:334-370 | the merge loses no name, invents no entry and takes the more recent of the two |
| CatalogueStore.MergeExact | internal/usm/storage.go:343-351 | the stored entry stays if and only if it is strictly more recent or the incoming catalogue lacks the name; otherwise the incoming one is taken |
| CatalogueStore.RecencyIs | internal/usm/storage.go:356-370 | the recency of an entry is the latest of modification, creation and unlock |
| CatalogueStore.StoresKeepEntries | internal/usm/storage_os.go:362-374 | over any run of stores no entry disappears or becomes less recent: a dated one whatever the catalogues, an undated one if none has a null entry for the vault |
| CatalogueStore.NullDropsUndated | internal/usm/storage.go:343-351 | a null entry drops an undated one, and the next store drops the name |
| CatalogueStore.UpdateVaultCatalogue | internal/usm/vault_catalogue.go:6-33 | the catalogue is as before but for the vault's entry, which is the refreshed one |
| CatalogueStore.RefreshedMeans | internal/usm/vault_catalogue.go:11-32 | a refresh takes fingerprint, time and item count from the vault, keeps name, place, creation, unlock time and checksum, and changes the version exactly if the modification stamp changes |
| CatalogueStore.AppStore.StoreAppState | internal/usm/storage_os.go:362-374 | what is stored afterwards is the merge of what was stored and what came in |
| CatalogueStore.AppStore.PersistVaultCatalogue | internal/usm/storage.go:233-272 | fails without a store exactly for an empty vault name; otherwise the stored catalogue is the join with the refreshed entry, with the unlock time if there is one; entries of other vaults may be null |
| CatalogueStore.PersistedLifts | internal/usm/storage.go:233-272 | on catalogues without null entries that is the step of the runs below |
| CatalogueStore.PersistKeepsVersions | internal/usm/storage.go:233-272 | a store or unlock keeps every entry, and raises the version of a vault by one exactly if its modification stamp changes |
| CatalogueStore.RunOrdered | internal/usm/storage.go:320-354 | in any run, also with earlier snapshots stored again, every earlier catalogue is at most as recent and as new as the last |
| CatalogueStore.VersionCounts | internal/usm/vault_catalogue.go:11-32 | between any two points of a run a vault's version grows by exactly the number of changed modification stamps |
| CatalogueStore.UnlockStored | internal/usm/storage_os.go:150-154 | an unlock later than everything recorded stamps the entry with its time and changes no version, modification, creation or checksum, and no other entry |
| CatalogueStore.StoreKeepsUnlock | internal/usm/storage_os.go:174-176 | a store leaves the unlock time alone |
| ChainCatalogue.CatalogueManager.UpdateVaultEntry | internal/config/catalogue.go:85-110 | the stored catalogue has the refreshed entry stamped with the chain checksum, everything else is unchanged |
| ChainCatalogue.StampedMeans | internal/config/catalogue.go:98-107 | the stamped entry differs from the refreshed one in the checksum only |
| ChainCatalogue.CatalogueManager.UpdateCatalogueAfterReceive | internal/sync/service.go:716-750 | fails exactly for a name the remote catalogue lacks; otherwise the entry takes the remote version, checksum, fingerprint, time and item count |
| ChainCatalogue.ReceivedMeans | internal/sync/service.go:725-746 | a received entry has the five remote fields, and keeps name, place, creation and unlock time of a local entry |
| ChainCatalogue.CatalogueManager.UpdateAll | internal/sync/service.go:571-583 | the updates of a receive loop give the same catalogue in any order |
| Convergence.ReceivedInSync | internal/sync/service.go:739-743 | a received entry is in sync with its source, in both modes and from both sides |
| Convergence.VerdictAfter | internal/sync/service.go:716-750 | after a session the transferred vaults are in sync in any mode and every other verdict is unchanged |
| Convergence.Converges | internal/sync/service.go:716-750 | negotiating again after an error-free session transfers nothing and reports exactly the same conflicts |
| Convergence.LegacyUpdateAfterReceive | internal/sync/service.go:752-779 | the stored catalogue is the recency join with the received entry without its checksum |
| Convergence.LegacyReceivedMeans | internal/sync/service.go:762-777 | on the usm.json path the received entry is that of the other path but for the checksum, which stays the local one |
| Convergence.LegacyExact | internal/sync/service.go:752-779 | on the usm.json path a pulled vault is in sync if and only if it is new, or its received entry wins the merge and not both entries have a checksum; it is planned again if and only if the received entry loses |
| Entries.UnixIs | internal/sync/negotiation.go:46-49 | conflict times are whole seconds since 1970, rounded down |
| Session.ErrorsGrow | internal/sync/service.go:560-583 | a step records at most one error and never removes one |
| Session.OutgoingMeans | internal/sync/service.go:798-831 | a vault is sent whole if and only if its directory and all its files can be read; otherwise the begin and exactly the files before the first unreadable one are sent, or nothing, and never an end |
| SyncNames.ValidNameExact | internal/sync/transfer.go:23-42 | a name is valid if and only if it is a non-empty single path component without two dots in a row and without a leading dot |
| SyncNames.Contained | internal/sync/transfer.go:23-42 | a valid name adds exactly itself as the last component of a path, and is neither a step up nor a helper directory |
| SyncNames.RealNameValid | internal/usm/item_metadata.go:33-43 | vault.age, key.age and 64 hexadecimal digits with .age are valid names |
| SyncNames.ReceiveExact | internal/sync/service.go:835-910 | a receive commits if and only if the vault's name is valid and the stream starts with a begin, files with valid names of at most 50 MB, and an end; it commits the last data of each name and leaves the rest of the stream |
| SyncNames.RefusedExact | internal/sync/service.go:835-910 | a receive that commits nothing has read nothing for an invalid name, otherwise exactly up to the message it refuses or to the end of the stream |
| SyncNames.CommittedContained | internal/sync/service.go:835-910 | whatever arrives, every file committed lies directly in the vault's own directory, is no helper directory and is within the limit |
| SyncNames.RealHostsHonest | internal/sync/service.go:486-710 | any two hosts of real vaults of valid names in one mode, all readable, are honest, so all their sessions complete |
| SessionSafety.SendStep | internal/sync/service.go:798-831 | starting to send fails exactly for a vault with an unreadable directory or file; otherwise exactly the vault's begin, file and end messages become pending |
| SessionSafety.ReceiveStep | internal/sync/service.go:835-851 | starting to receive fails exactly for an invalid vault name; otherwise the same messages remain awaited |
| SessionSafety.FileStep | internal/sync/service.go:862-906 | reading a file message fails exactly for an invalid name or too large a file; otherwise the file is staged and the rest of the block remains awaited |
| SessionSafety.EndStep | internal/sync/service.go:870-909 | reading the end message commits exactly the sender's files and updates the catalogue |
| SessionSafety.SideStep | internal/sync/service.go:798-910 | each step of a peer in the transfer phase keeps the invariant or fails, and cannot fail if the planned vaults are fine |
| SessionRuns.PlanTasks | internal/sync/service.go:560-583 | what the initiator sends and awaits for a plan is what the responder awaits and sends for it, in the same order |
| SessionRuns.GoodStep | internal/sync/service.go:486-710 | every step of two peers keeps the queue invariant unless it fails, and steps of honest peers never fail |
| SessionResults.RunGood | internal/sync/service.go:486-710 | every reachable state without a failure satisfies the invariant, and honest peers reach no other state |
| SessionResults.CompletionExact | internal/sync/service.go:486-710 | a finished session had no failure if and only if the peers are honest; then the queues are empty, transferred vaults are equal on both sides, all others untouched, and both catalogues updated |
| SessionResults.StepRank | internal/sync/service.go:486-710 | every step of any two peers lowers a well-founded rank |
| SessionResults.EveryRunEnds | internal/sync/service.go:486-710 | no interleaving of any two peers goes on for ever |
| SessionResults.HonestProgress | internal/sync/service.go:486-710 | honest peers are never both blocked before the session is finished |
| SessionResults.HonestSessionsComplete | internal/sync/service.go:486-710 | every interleaving of honest peers completes without failure, with empty queues and the vaults delivered |
| SessionResults.SameOutcome | internal/sync/service.go:486-710 | if one session of two peers completes without failure, every interleaving with every plan order does, and leaves the same files and catalogues |
| SessionStreams.InterleavingsAgree | internal/sync/service.go:486-710 | in every finished session each peer ends as its sequential program does on exactly the messages the other one's program sends |
| SessionWire.InitiatorSends | internal/sync/service.go:486-592 | whatever it reads, the initiator sends its catalogue, and if it is answered its plan, the pushes in the order of the plan and the completion message, and nothing else |
| SessionWire.ResponderSends | internal/sync/service.go:595-710 | whatever it reads, the responder sends its catalogue if it gets one, then the pulls in the order of the plan if it agrees with it, and nothing else |
| SessionEnds.FinishExact | internal/sync/service.go:486-710 | for any two hosts, a session that can go no further has finished if and only if the plans disagree, or the receives of the two plans do not run out of the messages that are really sent (or one side needs none, or leaves one over); otherwise both peers wait |
| SessionFinish.EnoughEnds | internal/sync/service.go:853-906 | receives, failing or not, do not run out of messages while there are as many end messages |
| SessionFinish.ReadableFinishes | internal/sync/service.go:486-710 | every session finishes if the plans disagree or every planned vault can be read, with no condition on names and sizes |
| SessionFinish.CleanFinishExact | internal/sync/service.go:486-710 | if the plans agree and nothing but directories can fail, a session finishes if and only if every pulled vault can be listed, and every pushed vault can be listed or nothing is pulled |
| SessionFinish.UnlistableBlocks | internal/sync/service.go:683-706 | an unlistable pull, or an unlistable push beside a pull, gives a session in which both peers wait |
| SessionDelivery.EveryVault | internal/sync/service.go:571-583 | at the end of every session of peers that agree, finished or blocked, each pushed and pulled vault has the files and the entry that the receive at its position leaves, and everything else is as before |
| SessionDelivery.NothingCommitted | internal/sync/service.go:677-681 | a session of peers that do not agree commits nothing: the responder is as before, and so are the initiator's entries and files, but for empty directories of vaults it was to pull |
| SessionDelivery.SkippedVaults | internal/sync/service.go:798-910 | when only directories can fail, the i-th name gets the files of the i-th vault really sent, under the remote entry of the name, and nothing is pulled once a push is skipped |
| SessionDelivery.OwnBlock | internal/sync/service.go:560-583 | a vault gets its own block if and only if neither it nor any vault before it is skipped |
| Endpoint.Peering.SendVault | internal/sync/service.go:798-831 | the messages sent are the begin, the files in listing order and the end, cut off at the first unreadable file |
| Endpoint.Peering.ReceiveVault | internal/sync/service.go:835-910 | what is read, committed and left unread, for every stream of messages |
| Endpoint.Peering.SyncWithPeer | internal/sync/service.go:486-592 | for every stream of messages the method ends as the initiator's tasks do: files, catalogue, errors, messages sent and messages left; it returns exactly the pushes sent to their end and the pulls committed |
| Endpoint.Peering.HandleSyncStream | internal/sync/service.go:595-710 | for every stream of messages the method ends as the responder's tasks do |
| Endpoint.SentOfExact | internal/sync/service.go:560-570 | the pushes that SyncWithPeer returns are, in the order of the plan, those whose directory and files can all be read |
| Endpoint.ReceivedOfExact | internal/sync/service.go:571-583 | the pulls that SyncWithPeer returns are those whose receive commits something |
| Endpoint.RunReceive | internal/sync/service.go:835-910 | receiving message by message is receiveVault on the stream as a whole |
| Endpoint.ReceiveBlock | internal/sync/service.go:853-909 | a receive takes exactly one sender's block and commits its files, whatever vault the block is of |
| Endpoint.ReceivesByPosition | internal/sync/service.go:853-860 | on a stream of whole blocks the i-th receive commits the files of the i-th block |
| Network.EditTraced | internal/config/catalogue.go:85-110 | a local edit keeps the origin of everything and lowers no version, and one with a new checksum keeps checksums unique |
| Network.SessionVersions | internal/sync/service.go:486-750 | no version of either peer goes down in any session that goes on until it can go no further, finished, failed or blocked |
| Network.SessionTraced | internal/sync/service.go:486-910 | such a session keeps the origin of everything on both sides if each vault it commits gets the files under its own name, and, if the transferred vaults have checksums, only then |
| Network.SmoothFaithful | internal/sync/service.go:486-910 | in a session that finishes without a failure each vault gets the files under its own name |
| Network.HistoryVersions | internal/sync/service.go:486-750 | over any history of edits and sessions of any number of peers, whatever fails, no peer's version of a vault goes down |
| Network.HistoryTraced | internal/sync/service.go:486-910 | over any history whose sessions give every vault its own files, migrated entries included, every entry and the vault's files come from one edit |
| Network.HistoryExact | internal/sync/service.go:486-910 | when all transferred vaults have checksums, entries and files keep their common origin all along a history if and only if each session gives every vault that it commits its own files |
| Network.InSyncExact | internal/sync/negotiation.go:164-221 | in either mode two peers are in sync on a vault if and only if they hold the same edit of it, or one entry has no checksum and the two look alike |
| Network.SameOrConflict | internal/sync/service.go:486-750 | after a session without a failure every known vault is the same on both peers, was reported as a conflict, or has an entry without checksum that looks alike |
| Network.UnlockMakesConflict | internal/usm/storage_os.go:135-157 | unlocking a vault that is in sync makes the next negotiation, in either mode, report a conflict if and only if its entry had a checksum, the item count or time changed, or the mode is strict and the fingerprints differ |
| Network.EditTransfers | internal/sync/negotiation.go:16-221 | after one edit of a vault between peers in sync, which changes its modification stamp, or of a new vault, the next plans transfer exactly that vault from the editor and have no conflict, unless the mode is strict and the fingerprints differ |
| Vaults.Vault.Size | internal/usm/vault.go:38-44 | the sum over the types is the number of entries of the index |
| Vaults.Vault.HasItem | internal/usm/vault.go:55-68 | true exactly for an item whose type and ID are in the index |
| Vaults.Vault.AddItem | internal/usm/vault.go:70-81 | fails exactly without metadata; otherwise the index gains that one entry |
| Vaults.Vault.DeleteItem | internal/usm/vault.go:83-95 | the index loses that one entry and nothing else |
| Vaults.SamePlace | internal/usm/item_metadata.go:33-43 | with injective digests, two items share a place in the index if and only if they have the same type and name |
| Rekey.OSStorage.LoadVaultItems | internal/usm/storage.go:192-207 | succeeds exactly if every indexed item can be opened with the key, with or without a directory, and then returns exactly those items |
| Rekey.OpensExact | internal/usm/storage_os.go:191-216 | an item is opened if and only if its type is known, its file can be read and was sealed with that key; it yields what was sealed |
| Rekey.KnownTypes | internal/usm/item.go:10-21 | the types that can be opened are the flags for notes, passwords, logins and SSH keys |
| Rekey.DigestFile | internal/usm/item_metadata.go:33-43 | an ID of 64 hexadecimal digits gives the name of an item file |
| Rekey.OSStorage.RestoreBackup | internal/usm/storage_os.go:290-293 | all directories are as before the move, or if the move back fails the vault is under its backup's name only |
| Rekey.MovedAwayIs | internal/usm/storage_os.go:286-293 | after a failed move back the vault is under its backup's name, nothing is under its own, and every other directory is as before |
| Rekey.OSStorage.StoreItems | internal/usm/storage_os.go:307-316 | succeeds exactly if every item has metadata and can be written; then index and files are those of the items |
| Rekey.OSStorage.StoreVault | internal/usm/storage_os.go:160-178 | on success the vault file and the catalogue are written; on failure usm.json is torn if the vault file was written, usm.json opened and its write failed, and as before in every other case |
| Rekey.OSStorage.ChangeVaultPassword | internal/usm/storage_os.go:254-330 | succeeds exactly if nothing stands in the way, no directory of the backup's name included; every error leaves all directories as before unless the directory was moved and the move back fails; usm.json ends torn exactly if all went well up to the catalogue, the file opened and its write failed; success leaves the old directory as the backup, the re-encrypted one as the active, and removes only the backup of the version before |
| Rekey.Conserved | internal/usm/storage_os.go:295-321 | after a success an ID leads to an item under the new key if and only if it led to that item under the old key |
| Rekey.ConservedExact | internal/usm/storage_os.go:295-321 | for any one ID and any vault whose items can be loaded: a change conserves it if and only if the index has it, an item of a known type claims it and the last claimant is the one in its file, or the index lacks it and no such item claims it |
| Rekey.KeptAgain | internal/usm/storage_os.go:295-321 | the new directory again yields every item under its own ID, holds the vault file, and its key file opens with the new password only |
| Rekey.OldKeyUseless | internal/usm/storage_os.go:295-321 | no item of the new directory can be opened with the old key |
| Rekey.BackupNumber | internal/usm/storage_os.go:281-281 | a backup is called after the vault, .v and the version in decimal |
| Rekey.BackupKept | internal/usm/storage_os.go:280-327 | the backup is neither the active directory nor the older backup that is removed |
| Backups.VersionRises | internal/usm/storage.go:209-224 | a change at a later time raises the catalogue version by one |
| Backups.ChangeOnce | internal/usm/storage_os.go:254-330 | without a fault a change succeeds whenever the stored catalogue has version n and no directory is called backup n: the old directory is then backup n, backup n - 1 is gone, the entry has version n + 1, the new time, key fingerprint and item count, the vault file keeps name, colour, version and creation, and every item is conserved |
| Backups.ChangeTwice | internal/usm/storage_os.go:254-330 | two such changes in a row both succeed: the first backup is gone, the second opens with the second password, and every item is conserved under the third |
| Backups.BackupsLeft | internal/usm/storage_os.go:276-327 | over any series of successful changes with any edits in between, a backup is there at the end, with what the change found, if and only if no change follows or the next finds a version more than one higher |
| Backups.OlderLeft | internal/usm/storage_os.go:323-327 | a backup from before the series is removed by the change that finds the version after it, or else stays |
| Backups.RemovedByNext | internal/usm/storage_os.go:276-327 | of two successive changes the second removes the backup of the first if and only if no store in between changes the vault's modification stamp |
| Backups.EditKeepsBackup | internal/usm/storage_os.go:323-327 | a change, one edit and a change leave the first backup in place |
| Agent.Agent.ProcessSessionRequest | internal/agent/agent_session.go:40-129 | the table and the answer after each request, with expiry and deletion of an expired session |
| Agent.Agent.CloseAll | internal/agent/agent.go:73-80 | the table is empty afterwards |
| Agent.IdsDiffer | internal/agent/agent_session.go:102-110 | every 16 random bytes give a session ID, and different bytes different IDs |
| Agent.TraceTracked | internal/agent/agent_session.go:40-129 | over any trace the table holds exactly the sessions not ended, but perhaps for expired ones |
| Agent.KeyExact | internal/agent/agent_session.go:45-66 | a key request succeeds with a key if and only if an earlier unlock of that vault with that key was answered with the ID, with no lock or close since, within the lifetime |
| Agent.UnlockThenKey | internal/agent/agent_session.go:92-126 | the ID that an unlock is answered with is traded for its key exactly as long as its lifetime lasts |
| Agent.UnlockAnswered | internal/agent/agent_session.go:92-126 | an unlock is answered with the drawn ID if it brings a key and names a vault, and with an error otherwise |
| Agent.ExpiredForgotten | internal/agent/agent_session.go:54-62 | a key request reports expiry and removes the session exactly if it has expired, and the next one finds it unknown; no other key request changes the table |
| Agent.ListExact | internal/agent/agent_session.go:67-81 | a list shows every session neither ended nor outlived, under the ID that its unlock was answered with, with its vault and remaining lifetime, and only sessions that were not ended |
| Otp.DynamicCode | internal/otp/otp.go:68-80 | masking the byte in place and reading four bytes gives the truncation of section 5.3 of RFC 4226, below 2^31 |
| Otp.ExampleOfStandard | internal/otp/otp.go:68-92 | the worked example of section 5.4 of RFC 4226 gives 872921 |
| Otp.HOTP | internal/otp/otp.go:60-92 | the result is exactly the requested number of decimal digits, with the truncated code modulo that power of ten as value |
| Otp.PowerFits | internal/otp/otp.go:83-83 | the power of ten fits 32 bits if and only if there are at most nine digits |
| Otp.OffsetInBounds | internal/otp/otp.go:70-73 | the slice lies inside every MAC of a length if and only if the length is at least 19 bytes |
| Otp.TOTP | internal/otp/otp.go:43-55 | the password of the time step, or the interval and digit errors |
| Otp.SameStep | internal/otp/otp.go:53-55 | two times have the same counter if and only if they lie in one step |
| Otp.PadKey | internal/otp/otp.go:28-31 | the key is padded with '=' to the next multiple of eight |
| Sampling.Rule.NewRule | internal/usm/rule.go:37-55 | the template is the enabled classes in order |
| Sampling.Rule.WithFilter | internal/usm/rule.go:58-64 | a non-empty filter replaces the old one, an empty one changes nothing |
| Sampling.Rule.Template | internal/usm/rule.go:72-89 | the template without the filtered characters, in order |
| Sampling.RuleTemplate | internal/usm/rule.go:37-89 | a template lists every enabled character that is not filtered out, each exactly once |
| Sampling.FormatBits | internal/usm/rule.go:19-29 | bits 0 to 3 of a format enable lower case, upper case, digits and symbols, and no other bit does anything |
| Sampling.ClassesInOrder | internal/usm/rule.go:37-55 | the enabled classes are listed in that order |
| Sampling.KeptInOrder | internal/usm/rule.go:77-86 | filtering works character by character and keeps the order |
| Sampling.KeptOne | internal/usm/rule.go:77-81 | one character is dropped exactly if the filter has it |
| Sampling.Secret | internal/usm/usm.go:204-235 | the result is the first Len accepted bytes among the first 256 * Len of the stream, and each failure has its exact condition |
| Sampling.AcceptedCounts | internal/usm/usm.go:225-229 | every accepted byte is kept as often as the stream holds it, and no other |
| Sampling.GeneratePairingCode | internal/sync/pairing.go:18-43 | the code is the first six accepted bytes mapped to the alphabet, and fails exactly if the stream has fewer |
| Sampling.PairingAlphabet | internal/sync/pairing.go:12-12 | the 31 symbols of pairing codes are the digits and upper-case letters without 0, 1, I, L and O, each once |
| Sampling.Unbiased | internal/sync/pairing.go:25-40 | for every alphabet size from 1 to 255 each symbol is selected by the same number of accepted byte values |

## Left out

- libp2p, mDNS, pairing handshake, deadlines, the background loop, goroutines and locks: a stream is two FIFO queues that accept every write; a peer that waits for ever waits for the deadline.
- A third process that edits the vaults or catalogues of a peer during its session.
- JSON, base64 and age encryption: exact, injective encodings; a file opens with its own key only.
- Viracochan's hash chain: the CatalogueManager is a stored map, and a chain checksum is an opaque value that never repeats.
- HMAC, HKDF, SHA and BLAKE2: parameters; an item ID is any digest of 64 hexadecimal digits.
- Removals (`os.RemoveAll`) and the making of staging directories that fail for good: a removal may be interrupted anywhere but a run that goes on has removed everything.
- Subdirectories, permissions and symbolic links in vault directories.
- Bech32.Encode: non-ASCII prefixes are outside its contract, because Unicode case folding is not modelled.
- Bech32.Decode: non-ASCII text is outside its contract, for the same reason.
- VaultDirectory.VaultDir.CommitStaging: the disk states in between are listed only while no rename of a rollback fails; what it leaves is stated for every failure.
- VaultDirectory.VaultDir.CleanupOrphanedSync: likewise for the disk states in between.
- Endpoint.Peering.ReceiveVault: the commit of the staged files always succeeds here; its failures are those of VaultDirectory.VaultDir.CommitStaging.
- Endpoint.ReceivesByPosition: covers streams of whole blocks; blocks cut off at an unreadable file are in SessionDelivery.EveryVault.
- CatalogueStore.AppStore.StoreAppState: reading and writing usm.json succeed; failures are modelled in Rekey.OSStorage.StoreVault.
- CatalogueStore.AppStore.PersistVaultCatalogue: likewise.
- Rekey.OSStorage.ChangeVaultPassword: no crash in the middle and no second process, for which the source has no recovery; one clock reading stands for all.
- Otp.HOTP: at most 9 digits, because the source's conversion of larger powers of ten to 32 bits is out of range.
- Otp.TOTP: times from 1970 on, without the rounding of floating-point division beyond 2^53 seconds; base32 decoding is not modelled.
- Agent.Agent.ProcessSessionRequest: a request without an action byte is not modelled, nor are the SSH keys of the agent.
- FilterItemMetadata, preferences, trust store, peer list, native messaging and FyneStorage: copies and presentation that would only add easy members.
- The user interface, the command line, icons, clipboard and breach lookup.
