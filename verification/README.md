# rbackup: a verified model

This project models the behaviour of rbackup, a tool that encrypts the output of a source, spools it,
uploads it to several remotes in parallel, and restores it again, and proves properties of that model.
`dafny verify dfyconfig.toml` checks all of it.

## How the model is built

**The streaming pipelines** (`Pipeline`, `BackupPipeline`, `RestorePipeline`) are transition systems.
A source goroutine, an optional inner codec goroutine and the outer codec on the main thread are joined
by `io.Pipe` rendezvous; both ends of a pipe can be closed with an error and the first close wins. A
backup runs encrypt and seal (or encrypt alone), a restore runs unseal and decrypt (or decrypt alone);
the two share the data path and differ in the main thread. Every scheduling choice, chunk size and
failure is part of an action label, so a statement about every sequence of actions is a statement about
every interleaving, chunking and failure schedule. Steps that inject a failure are marked, so progress
never relies on one. A source may also stall until its context is cancelled, which is what makes the
`cancel()` calls matter.

**age** is a contract (`Codecs`): what a codec has written depends on the bytes it has read and not on
their chunking, it finishes only after reading the end of its input, and decryption undoes encryption.
`BlockCodec` is a small buffering codec that meets the contract. SHA-256, Ed25519 and the key formats are
function parameters with their correctness stated as predicates. Of the parser of recipient texts only
the line rule is modelled: empty lines and comments are skipped, every other line must be a recipient.

**Uploads** (`Upload`) are a second transition system: one goroutine per remote, a wait group, a mutex
and result slots. `Run` puts preflight, pipeline, metadata, uploads and receipts together, for one entry
and for all of them; `Command` adds the lock scope, the tally and the notification. `Lock` holds the
polling loop and the protocol of any number of processes.

**Restoring** (`Restore`) is the fail-closed precheck, the pipeline, and the temporary-file-and-rename
protocol over a file system that remembers every state. `EndToEnd` connects a success in a receipt with
the bytes a restore produces.

**Configuration** (`Config`, `Validate`, `Secrets`, `Clients`), **listing** (`Listing`), **recipients**
(`Recipients`) and **signatures** (`Signing`) are loops proved against declarative specifications. Go map
iteration is an arbitrary choice, so those results hold for every iteration order.

Inputs that stand for the outside world: the bytes and chunking of a source, schedules, failures of
system calls and of uploads, the clock, environment variables, replies of the object store, and the
library parsers. The assumptions are a finite source that returns once its pipe is closed and its context
cancelled, a sleep that lasts at least as long as asked, a fresh temporary name, and no second writer of
the output file.

## Where the code and its documentation differ

- `docs/encryption.md` calls verification strict whenever trusted keys are configured, an
  `allowed_signers_file` included. The code has no trusted key, and so checks no signature, when that
  file lists no Ed25519 key and there is no inline key; the fallback to the host's own public key is off
  because a file is configured. `Signing.NoSignersIff` states exactly when no key is trusted.

## Where a property holds only under a condition

- A recipient text with a comment line passes validation, since `age.ParseRecipients` skips comments, but
  makes every backup fail after the source has been encrypted, since the fingerprints are taken of every
  non-blank line (`Recipients.AcceptedHasPrintsIff`, `Run.CommentStopsBackups`).
- Over a file that takes a write only in part, and a caller that writes on after the failure, the spool
  need not be a prefix of what was offered, the hash need not be a prefix of the spool, and an overflow
  need not be final (`Limits.SpoolPrefixIff`, `Limits.HashPrefixIff`, `Limits.OverflowIsFinalIff`, each
  with the input that shows it). The copy loops of the pipelines stop at the first failure, where all of
  this holds (`Limits.UntilFirstFailure`).
- A pipeline can wait forever only for a source that has nothing more to say while no stage has failed
  (`BackupPipeline.BlockedIffWaits`, `RestorePipeline.BlockedIffWaits`).

## Model

| member | source | states |
|---|---|---|
| BackupPipeline.UploadIsComplete | internal/backup/pipeline.go:125-194 | in every interleaving, chunking and failure schedule, reaching the upload phase means the source ended with no error, the spool is the codecs' output for all its bytes and was closed without an error, the hash saw exactly the spool, and the byte count is the source length and not zero |
| BackupPipeline.VerdictIff | internal/backup/pipeline.go:179-194 | the exact verdict of every run that ends, failures included: a failed encryption or a failed close of the spool, else an error of the source, else an empty source, else the upload |
| BackupPipeline.RefusalsAreTrue | internal/backup/pipeline.go:183-194 | a source refusal after a good encryption means an error the pipe presented as an end of file, and an empty-source refusal means a source that ended well without a byte |
| BackupPipeline.EofLikeErrorIsCaught | internal/backup/pipeline.go:141-189 | a source error that the pipe presents as an end of file never leads to an upload |
| BackupPipeline.EofLikeErrorPassesThePipe | internal/backup/pipeline.go:183-189 | such an error is not noticed by the encryptor, so only the second check stops the run |
| BackupPipeline.NeverStuck | internal/backup/pipeline.go:137-185 | from every reachable state, a blocked source after any failure included, some process has a step that needs no failure, until main, source and inner encryptor have finished; the one exception is that nothing has failed and every reader waits for a stalled source |
| BackupPipeline.BlockedIffWaits | internal/backup/pipeline.go:137-185 | the exception is exact: every process waits iff that is the state, and no stage has failed in it |
| BackupPipeline.FailureUnblocksSource | internal/backup/pipeline.go:160-175 | once the main thread is past its cleanup no source stays blocked, even one that would wait forever |
| BackupPipeline.NoInfiniteRun | internal/backup/pipeline.go:137-185 | no schedule, fair or not, can be followed forever |
| BackupPipeline.CanFinish | internal/backup/pipeline.go:137-185 | from every state steps without failure lead to the end or to a wait for a stalled source; to the end if the source ends by itself, and, even if it never would, once any stage has failed |
| BackupPipeline.RefinesSequential | internal/backup/pipeline.go:125-194 | every failure-free interleaving that ends has the verdict of the one-line sequential specification |
| BackupPipeline.SomeRunEnds | internal/backup/pipeline.go:125-194 | for a source that ends there is a complete failure-free run, and its verdict is the sequential one |
| Pipeline.StepInv | internal/backup/pipeline.go:137-171 | every step keeps the invariant: no byte lost, duplicated or reordered on either pipe, and each codec has written what it owes |
| Pipeline.AnythingCanHappen | internal/backup/pipeline.go:141-171 | every chunk size and every failure is among the schedules: any piece, any error of the source, a codec failing before and after any byte, any short or failing write |
| Pipeline.PipeLaws | internal/backup/pipeline.go:141-163 | the first close of an end wins, the reader sees what the writer closed with, and a reader that closed its end sees only an error |
| Pipeline.OuterSuccess | internal/crypto/encrypt.go:12-58 | a codec that returned nil has seen the end of its input, and the spool is the layers applied to all bytes taken from the source; the inner codec has then returned nil too |
| Pipeline.OuterRuns | internal/backup/pipeline.go:137-171 | while the outer codec runs, some process can step unless nothing has failed and all readers wait for a stalled source |
| Pipeline.ClosedRuns | internal/backup/pipeline.go:160-163 | after cancelling and closing both read ends, source and inner codec run to their ends |
| Pipeline.StepDecreases | internal/backup/pipeline.go:137-171 | every step, failing or not, decreases a well-founded measure |
| Pipeline.StepClean | internal/crypto/encrypt.go:26-32 | without injected failures a codec fails only if the source or the size limit forces it to |
| RestorePipeline.SuccessIsComplete | internal/verify/stream.go:50-95 | nil means the destination got the decryption of the entire download and a recorded hash is the hash of those bytes |
| RestorePipeline.NeverStuck | internal/verify/stream.go:58-86 | on every success and failure path some process can step until main, downloader and unsealer have ended; the one exception is that nothing has failed and every reader waits for a stalled download |
| RestorePipeline.BlockedIffWaits | internal/verify/stream.go:58-86 | the exception is exact, and nothing has failed in it |
| RestorePipeline.FailureReleasesDownload | internal/verify/stream.go:64-69 | once main joins the downloader it no longer waits for the network, not even if it would have forever, and main returns only after it has ended |
| RestorePipeline.NoInfiniteRun | internal/crypto/decrypt.go:62-110 | no schedule can be followed forever |
| RestorePipeline.CanFinish | internal/crypto/decrypt.go:62-110 | from every state steps without failure lead all three processes to their ends or to a wait for the network; to the ends if the download ends by itself, and, even if it never would, once any stage has failed |
| RestorePipeline.ResultIff | internal/verify/stream.go:79-95 | the exact result of every call that ends, failures included: nil iff the decryption succeeded, the download reported no error, and a recorded hash, if there is one, matches |
| RestorePipeline.RefinesSequential | internal/verify/stream.go:50-95 | every failure-free interleaving returns nil iff a sealed object has a passphrase, the download ends well and decodes, and there is no recorded hash or it is the hash of the download |
| RestorePipeline.SomeRunEnds | internal/verify/stream.go:50-95 | for a download that ends there is a complete failure-free run, and its result is the sequential one |
| RestorePipeline.MismatchIsFoundAfterWriting | internal/verify/stream.go:84-93 | with only the recorded hash wrong, the whole plaintext has been written before the call fails |
| BlockCodec.MeetsContract | internal/crypto/encrypt.go:21-32 | the codec contract is satisfiable: valid, total and undone by its decoder |
| BlockCodec.Encode | internal/crypto/encrypt.go:26-32 | copying any chunking into the writer and closing it gives the final output of the whole input |
| BlockCodec.BlockWriter.Write | internal/crypto/encrypt.go:21-28 | what has been handed on depends only on the bytes consumed |
| Limits.MaxBytesWriter.Write | internal/backup/pipeline.go:357-379 | the object does what the value-level limited write does, counter, file and error included |
| Limits.AnySequence | internal/backup/pipeline.go:351-379 | for every sequence of writes over every file: written plus remaining is the limit, the spool never exceeds it, and the hash has not seen more than the spool |
| Limits.UntilFirstFailure | internal/backup/pipeline.go:126-135 | as long as no write has failed, spool and hash are exactly what was offered; after the first failure the hash is a prefix of the spool and the spool of the offer |
| Limits.SpoolPrefixIff | internal/backup/pipeline.go:357-379 | over any file and after any failures: the spool is a prefix of the offer, for all bytes, iff no write that was cut short is followed by one that stores a byte |
| Limits.HashPrefixIff | internal/backup/pipeline.go:126-135 | over any file and after any failures: the hash is a prefix of the spool, for all bytes, iff no failed write that stored a byte is followed by a non-empty write that succeeds |
| Limits.ShortWriteLeavesGap | internal/backup/pipeline.go:357-379 | the input on which both prefix properties fail: a short write and then a whole one |
| Limits.OverflowIsFinalIff | internal/backup/pipeline.go:357-379 | after an overflow every later write fails, whatever the file does, iff the file took all that remained |
| Limits.OverflowThenSuccess | internal/backup/pipeline.go:357-379 | the input on which a write succeeds after an overflow: the file cut the overflowing write short |
| Limits.CutAtLimit | internal/backup/pipeline.go:351-379 | over a healthy file the spool is the offer cut at the limit, whatever calls are made, and the hash is a prefix of it and equal to it until the limit is used up |
| Limits.WriteSucceedsIff | internal/backup/pipeline.go:357-379 | over a healthy file a write succeeds iff the limit was not used up before it and it fits, so nothing succeeds after an overflow |
| Limits.AllSucceedIffFits | internal/backup/pipeline.go:357-379 | over any file, non-empty writes all succeed iff the file takes each of them and the total offered is within the limit |
| Source.CopyContext | internal/backup/source.go:138-160 | nil iff the source ended with EOF, nothing was cancelled and no write failed; then every byte was written and counted, those along with EOF included |
| Upload.EveryInterleaving | internal/backup/pipeline.go:231-287 | result i belongs to remote i, a success names a stored object, the failure flag is set iff some result failed, the spool survives iff a remote was tried and all failed, nothing else changed, and even a failed upload leaves what was there or this backup |
| Upload.SpoolStaysDuringUploads | internal/backup/pipeline.go:110-115 | the spool is complete and in place while any upload goroutine is active |
| Upload.KeptSpool | internal/backup/pipeline.go:269-280 | a spool that survives is the complete ciphertext |
| Upload.NeverStuck | internal/backup/pipeline.go:232-267 | neither the mutex nor the wait group can deadlock, and progress needs no upload to fail |
| Upload.FailureWasUpload | internal/backup/pipeline.go:246-262 | with a client for every remote, a result fails only because its own upload failed |
| Upload.AnyOutcome | internal/backup/pipeline.go:236-267 | whatever pattern of successes and failures is wanted, some schedule brings it about; a remote without a client fails in any case |
| Upload.EveryRunIsShort | internal/backup/pipeline.go:236-267 | with n remotes the upload phase takes at most 8n + 2 steps under any schedule |
| Run.RunBackup | internal/backup/pipeline.go:78-288 | the receipt is coherent, aligned with the remotes and what the schedules decided, every success in it is true, a healthy backup succeeds and one that is not prepared fails and stores nothing, every new object is genuine, and a spool is kept iff uploads ran and all failed |
| Run.UploadsIff | internal/backup/pipeline.go:83-218 | the uploads are reached iff the passphrase is there when needed, the preflight and the pipeline succeed, there is no host key or signing succeeds, and the recipients have fingerprints |
| Run.SomeBackupSucceeds | internal/backup/pipeline.go:78-288 | when the source ends well, the output fits the limit, the keys work and every remote has a client, there are schedules with which the backup succeeds |
| Run.GenuineFields | internal/backup/pipeline.go:196-228 | the metadata by name: hash of the stored bytes, creation time, and a signature of that hash iff there is a host key |
| Run.MetadataFields | internal/backup/pipeline.go:220-228 | the four metadata keys, the signature only when there is one |
| Run.FailReceipt | internal/backup/pipeline.go:50-75 | one failure per remote with the entry's key, or exactly one without a remote when there are none |
| Run.Fan | internal/backup/pipeline.go:230-287 | the fold of the results into a receipt and the decision about the spool |
| Run.SkippedReceipt | internal/backup/pipeline.go:302-323 | a manual-only entry gets a skipped result for each remote |
| Run.RunAll | internal/backup/pipeline.go:291-328 | one receipt per entry in order of id; at the end of the run every success still names an object with that entry's ciphertext, metadata and version; only keys of entries that run are written |
| Run.CommentStopsBackups | internal/backup/pipeline.go:215-218 | with a comment line in a validated recipient text every backup fails; without one the fingerprints are never the reason |
| Run.ValidatedIsSeparate | internal/config/validate.go:218-239 | a validated configuration gives different keys to different entries and no entry the same remote twice |
| Command.TallyReceipts | cmd/backup.go:122-138 | total = succeeded + failed + skipped, the failed ids in order, and failure overall iff some receipt failed |
| Command.FailedIdsInOrder | cmd/backup.go:131-134 | a receipt that fails is reported at the place given by the failures before it |
| Command.CountIsSize | cmd/backup.go:126-138 | each counter is the number of receipts with its status |
| Command.AnySealRequired | cmd/backup.go:179-189 | a passphrase is asked for iff some entry that runs is sealed |
| Command.RunTarget | cmd/backup.go:105-112 | one coherent receipt per entry, or exactly one for the named entry that is never skipped; every success in them is true of the remotes at the end |
| Command.Work | cmd/backup.go:91-138 | under the lock: reaches the tally iff clients, passphrase and output succeed; the tally counts true receipts, and reports failure iff some result in some receipt failed |
| Command.Finish | cmd/backup.go:79-89 | an acquired lock is released exactly once, before the notification if there is one, and at the end otherwise |
| Command.ReleaseOnce | cmd/backup.go:79-89 | a second release does nothing |
| Command.Backup | cmd/backup.go:30-158 | the exact events on every path: acquired iff the target and the secrets are good and the lock can be had, released once, then a notification iff nothing got in the way; what it says is true of the remotes; success iff nothing failed |
| Lock.AcquireLock | internal/backup/lock.go:20-56 | the lock is had iff some attempt that the deadline allows finds it free; one attempt without a wait, otherwise at least one and at most floor(wait / 100ms) + 2, and no timeout before the deadline |
| Lock.ExactAttempts | internal/backup/lock.go:40-56 | the bound is reached when the lock stays taken |
| Lock.MutualExclusion | internal/backup/lock.go:20-65 | for any number of processes, any schedule and crashes, at most one is between acquire and release for a directory and namespace |
| Lock.BlockedOnlyByOwnNamespace | internal/backup/lock.go:25-38 | an attempt fails iff some process is inside the same namespace, and otherwise gets in |
| Lock.LeavingFrees | internal/backup/lock.go:58-65 | once the process inside unlocks or dies, the next attempt gets in |
| Restore.Precheck | internal/verify/stream.go:22-45 | the prechecks pass exactly under the declarative conditions, and yield the recorded hash |
| Restore.NilIsTrustworthy | internal/verify/stream.go:21-96 | nil means full decryption and matching hash; with signers also metadata, a hash, and a configured signer's signature over it |
| Restore.ReturnsNilIff | internal/verify/stream.go:21-96 | the exact condition for nil in failure-free schedules, the comparison with the recorded hash written out |
| Restore.UnrecordedRestores | internal/verify/stream.go:29-46 | without a recorded hash and without signers a good download restores; the comparison is skipped |
| Restore.StreamDecrypt | internal/verify/stream.go:21-96 | nil exactly when prechecks and pipeline succeed; the destination goes through the pipeline's contents, or gets nothing when a precheck fails; the last contents are the complete text |
| Restore.RestoreFile | internal/verify/restore.go:46-97 | at every step the output holds its previous content or the complete text; the temporary file is gone at the end; the exact condition for success |
| Restore.RestoreObject | internal/verify/restore.go:46-97 | the same for the verified plaintext of the object; without force an output seen by the check is never replaced |
| EndToEnd.RoundTrip | internal/verify/stream.go:29-93 | every failure-free restore of an object that a receipt calls a success, with a key of any one recipient, returns nil and gives exactly the source bytes |
| EndToEnd.NilMeansSource | internal/verify/stream.go:71-93 | under any failures, a restore of such an object that returns nil gives exactly the source bytes |
| EndToEnd.PrechecksPass | internal/backup/pipeline.go:196-228 | the metadata written by a backup passes both prechecks |
| EndToEnd.LayersUndone | internal/crypto/decrypt.go:62-110 | the layers come off in the opposite order in which they were put on |
| Config.KeyInjective | internal/config/config.go:133-143 | equal derived keys iff equal namespace, object name and seal flag |
| Config.DerivedKeyRestores | internal/verify/restore.go:14-31 | every derived key is accepted unchanged, and counts as sealed iff the entry is |
| Config.ValidateKeyIff | internal/verify/restore.go:14-26 | the keys that are rejected: blank, with a leading slash, or with two slashes in a row |
| Config.IsSealedIff | internal/verify/restore.go:28-31 | a key counts as sealed exactly when it ends in `.age2` |
| Config.OwnRemotesFirst | internal/config/config.go:145-152 | an entry's own remotes replace the defaults and are never merged with them |
| Config.IdentAlphabet | internal/config/validate.go:12 | the alphabet of identifiers, by code point |
| Config.FindRemote | internal/config/config.go:155-162 | the first remote of that name, or none has it |
| Validate.Validate | internal/config/validate.go:15-32 | accepts iff the declarative rules hold and then leaves the normal form |
| Validate.ValidateEncryption | internal/config/validate.go:34-60 | trimmed, parses to at least one recipient, no duplicate line |
| Validate.ValidateSigning | internal/config/validate.go:62-81 | accepts iff the non-blank trimmed keys parse and differ, and keeps exactly those |
| Validate.ValidateSettings | internal/config/validate.go:83-102 | accepts iff namespace and limits are valid, and stores the trimmed namespace |
| Validate.CheckRemote | internal/config/validate.go:113-150 | exactly one credential method and the other rules for one remote |
| Validate.ValidateRemotes | internal/config/validate.go:104-153 | accepts iff every trimmed remote is valid and names differ; trims in place |
| Validate.CheckEntry | internal/config/validate.go:178-239 | the rules for one entry on its own |
| Validate.ValidateBackups | internal/config/validate.go:155-246 | for every map order, accepts iff the rules hold and ids and keys are injective; rebuilds the map or leaves it untouched |
| Validate.ValidateIdempotent | internal/config/validate.go:15-32 | an accepted configuration is accepted again and unchanged |
| Validate.NormalFormUnique | internal/config/validate.go:177-244 | the outcome does not depend on the iteration order |
| Validate.NoEntryLost | internal/config/validate.go:175-244 | rebuilding the map loses no entry |
| Secrets.MatchEndIff | internal/config/secrets.go:9 | the scanner finds a match exactly where the pattern occurs |
| Secrets.PrintTokens | internal/config/secrets.go:96-111 | the tokens print back to the text |
| Secrets.NameAlphabet | internal/config/secrets.go:9 | the alphabet of variable names, by code point |
| Secrets.StartsAreAllMatches | internal/config/secrets.go:96-111 | the variable tokens are all occurrences of the pattern, so literals hold no further match |
| Secrets.ResolveSucceedsIff | internal/config/secrets.go:96-129 | resolution succeeds iff every variable mentioned is set |
| Secrets.NotRescanned | internal/config/secrets.go:96-106 | at any reference in any text the result is the resolution of what precedes it, the value exactly as it is, and the resolution of what follows; an error iff one of the three is |
| Secrets.Scan | internal/config/secrets.go:96-129 | the loop computes tokenise-then-substitute |
| Secrets.ResolveRemoteSecrets | internal/config/secrets.go:12-28 | each credential field gets the resolution of its own text, empty ones and all other fields are left alone; an error iff one of the two does not resolve |
| Secrets.ResolveSelectedRemoteSecrets | internal/config/secrets.go:47-64 | for any list with repeats each selected remote is resolved once from its original text and the others are untouched; the exact condition for failure |
| Secrets.ResolveNotificationSecrets | internal/config/secrets.go:67-94 | unresolved URLs are cleared, unresolved headers dropped, with one result for every map order |
| Clients.AllModeRemoteRefs | cmd/backup.go:160-177 | the sorted remotes of exactly the entries that are not manual-only |
| Clients.CollectRemoteRefs | cmd/list.go:113-132 | each remote of the selected entries once, or just the filter |
| Clients.BuildClients | internal/backup/pipeline.go:382-407 | a client for exactly the selected names; the exact condition for an error |
| Clients.ValidatedNamesAreFound | internal/config/validate.go:226-239 | every name an entry resolves to is a configured remote |
| Clients.BackupCovers | cmd/backup.go:53-68 | for `--all` and for a single entry: after validation and client building every remote that is visited is configured and has a client |
| Clients.NoMissingClient | internal/backup/pipeline.go:246-252 | so the missing-client branch of the upload goroutines is unreachable: in every interleaving a failed result belongs to a failed upload |
| Clients.ListCovers | internal/list/list.go:46-54 | the silent skip of a pair without a client is unreachable |
| Listing.ListVersions | internal/storage/operations.go:122-157 | an error iff some page fails, otherwise the sorted rows of exactly this key |
| Listing.PagingIrrelevant | internal/storage/operations.go:130-151 | moving a page boundary changes no row |
| Listing.VersionsOfExactKey | internal/storage/operations.go:135-156 | newest first, exactly the rows of the key, never those of the key that shares its prefix |
| Listing.HeadLatest | internal/list/list.go:77-101 | at most one entry, with the reply's size and version and the recorded date, or else the modification time; listed iff it is found and not older than the age asked for |
| Listing.AllVersions | internal/list/list.go:103-136 | every listed version that is found and recent enough, in order |
| Listing.List | internal/list/list.go:32-75 | the list equals the declarative query over sorted backups, resolved remotes and filters; an error iff some visited pair fails |
| Listing.SpotsExactly | internal/list/list.go:38-54 | exactly the configured pairs that pass the filters are visited |
| Listing.SpotsDistinct | internal/list/list.go:38-54 | when no backup names a remote twice, no pair is visited twice |
| Listing.ListedExactly | internal/list/list.go:32-75 | an entry is listed iff some configured pair that passes the filters contributes it |
| Listing.OneEntryPerPair | internal/list/list.go:77-101 | when no backup names a remote twice, the latest-only list has at most one entry per backup and remote |
| Listing.ValidatedOneEntryPerPair | internal/config/validate.go:226-239 | for a validated configuration no backup does, so both hold |
| Listing.AllVersionsExactly | internal/list/list.go:103-136 | with all-versions a pair gives exactly the entries that the replies for the versions of its key show, dated and filtered in the same way |
| Sorting.SortStrings | internal/list/list.go:159-166 | the keys in ascending order, each once |
| Sorting.SortedUnique | internal/list/list.go:159-166 | one result for every enumeration of the map |
| Sorting.LessIff | internal/list/list.go:159-166 | the order: the first difference decides, and a proper prefix comes first |
| Recipients.RecipientFingerprints | internal/crypto/recipient_metadata.go:40-57 | the joined fingerprints of all recipient lines, or an error iff there is none or one does not parse |
| Recipients.AcceptedHasPrintsIff | internal/config/validate.go:34-60 | a recipient text that validation accepts has fingerprints iff no line of it is a comment |
| Recipients.CommentedKey | internal/crypto/recipient_metadata.go:40-57 | the smallest accepted text without fingerprints: a comment line and a key |
| Recipients.IdentityFingerprints | internal/crypto/recipient_metadata.go:61-100 | the sorted distinct fingerprints of exactly the secret key lines |
| Recipients.PrecheckRecipient | internal/verify/precheck.go:10-37 | passes iff the metadata is blank, the file yields no supported key, or the two fingerprint sets meet |
| Recipients.RecordedRoundTrip | internal/verify/precheck.go:26-33 | joining, trimming, splitting and trimming again gives back exactly the set of fingerprints |
| Recipients.OwnRecipientPasses | internal/verify/precheck.go:10-37 | a key of any one configured recipient passes |
| Signing.VerifySignature | internal/crypto/sign.go:40-59 | passes iff the signature decodes to 64 bytes and some parsable signer accepts it |
| Signing.PrecheckSignature | internal/verify/precheck.go:39-58 | with signers configured, hash and signature must be present and verify |
| Signing.ResolveAllowedSigners | internal/crypto/sign.go:90-148 | inline and file keys, each once, or the host's own key under the exact fallback condition; an error iff the file is unreadable or has a bad line |
| Signing.NoSignersIff | internal/crypto/sign.go:135-147 | no key is trusted exactly when none is configured and there is a file, no host key, or no public line next to it |
| Signing.OwnKeyIsFallback | internal/crypto/sign.go:135-147 | with neither inline keys nor a file, exactly the host's own key is trusted, if there is one |
| Signing.NoFallback | internal/crypto/sign.go:135-147 | once any key or file is configured, exactly the configured keys are trusted |
| Signing.FileWithoutKeysTrustsNothing | internal/crypto/sign.go:124-136 | a configured file without an Ed25519 line and no inline key trust nothing |
| Signing.OwnSignaturePasses | internal/crypto/sign.go:16-36 | a signature by the host key passes with its public line |

## Left out

- age, Argon2id, bech32, SHA-256, Ed25519 and SSH key parsing: external libraries, replaced by the contracts above.
- S3 client construction, SDK retries and HTTP: a remote is a map from key to the latest object, and an upload succeeds or fails, with or without having landed. Two remote names that denote the same bucket are taken as two remotes.
- Shell commands, tar and gzip archiving, and the choice between the three kinds of source: a source is any finite sequence of writes with any ending.
- YAML decoding, duration parsing, `lock_dir` and `spool_dir` checks, Cobra flags, prompts and printing: library work or user interface.
- Webhook delivery and its backoff: a short retry loop.
- Run.Receipt: the creation time and the reason text of a receipt; the creation time in the metadata is modelled.
- Error texts: an error is nil, io.EOF itself, or any other.
- Limits.LimitedWrite: byte counters are unbounded integers; the 64-bit width of the source is not modelled.
- Pipeline: the race in which a read end is closed while a rendezvous is possible is resolved either way, as Go's select may.
- Listing.ListVersions: `sort.Slice` is any function that sorts by time; the order of ties is whatever that function gives.
- Restore.Files: an atomic rename and a removal that succeeds are assumed; permissions and symbolic links are not modelled.
- Lock.Held: the file descriptor is a flag, and the lock file is never deleted, as in the source.
- Text.IsSpace: the Unicode white space of the source's trimming; case folding is modelled for ASCII only, which covers hexadecimal digits.
