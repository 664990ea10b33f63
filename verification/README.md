# Galaxy configuration deployment: a verified model

Galaxy keeps versioned configuration files on a manager and mirrors the released
ones to an agent at every site, which tells connected applications about updates.
This project models the parts of it that hold invariants and proves those
invariants for all inputs, runs and interleavings.

| file | what it models |
|---|---|
| `ConfigModel`, `ConfigProofs`, `ConfigSteps`, `ConfigRuns`, `ConfigServer` | the manager's tables and file store under add, update, release, rollback and namespace release, each of which can be cut short at any call |
| `ConfigEffects` | what those operations come to, in rows and bytes, and exactly when each succeeds |
| `Folders`, `ConfigAliases` | when two paths are one file, for any names, and configs of different keys that share files |
| `SyncServer`, `SyncAgent`, `Sync`, `SyncRounds`, `SyncRuns` | the comparison handlers of the manager, the agent's side, the protocol between them, and what its runs can and must come to |
| `Urls`, `SyncNames` | what the provider reads from the URL of a download, and synchronisation with a config server in terms of names |
| `SyncDisk`, `SyncPackages` | what the two passes of a synchronisation leave on the agent's disk, and the unpacking of a namespace release |
| `DownloadQueue`, `FileMapper`, `Syncer` | the agent's download and retry queues, its record of digests, and the notification of applications |
| `CmdTunnel`, `CmdDelivery` | the response tunnel as threads with program counters, and which messages it delivers |
| `StreamBatch` | the batching of streamed output |
| `Crypt`, `Storage` | the stream cipher and the two storage drivers |
| `Ref`, `Clusters`, `Durations` | structural difference and union with the precedence of settings, connection epochs, duration text |
| `Paths`, `Decimal`, `Wrappers` | path joining, decimal numbers, optional results |

How the model is set up:

- An operation that changes state is a method of a class with the source's fields;
  its contract equates the new state with a function of the old one, and the
  theorems are about that function and about runs of it.
- Environment answers are parameters: which call fails and what a failing write
  leaves at its path (`ConfigModel.World`), which downloads succeed, which
  notifications fail, when a timer expires, in which order threads run. Maps are
  gone through in arbitrary order.
- `ConfigModel.DigestOf` and `Storage.Sum` stand in for SHA-256; injectivity and
  non-emptiness are all that is used. The keystream is an arbitrary function from
  positions to bytes, fixed by the secret.
- Config, version and release rows draw their ids from one counter; only that ids
  are fresh and non-zero matters. The row of current heads is keyed by its config.
- A failing commit is not noticed by the code (`tx.Commit()` without a check), so
  an operation then reports success with no row changed.
- Names are not assumed clean. The store drops one leading slash of a name and
  joins it with the rest, so different keys can be one path; exactly when is
  `Folders.PathIff`, for tidy names `Folders.TidyApartIff`. Runs of the manager may
  add configs of any name whose folder no config of another key has.

Where code and documentation or intention differ, the model follows the code:

- `completeConfig` is documented as input arguments over file over defaults. A flag
  that equals its default, or is zero, loses to the file: `Ref.FlagWinsIff`,
  `Ref.FlagAtDefaultLoses`.
- `runFileUpdated` looks the mapper up under the digest instead of the namespace, so
  known files are announced again and a namespace named like a digest can swallow
  an update: `FileMapper.RecordedIff`, `FileMapper.KnownFileAnnouncedIff`.
- Site and namespace go into the URL of a download as they are, and the site of an
  agent is what its connection key splits to. A slash, `?`, `#` or `%` sends the
  request to another file, to none, or has it refused: `SyncNames.SlashesServedIff`,
  `SyncNames.HashServesOne`, `SyncNames.QuestionMarkServesOther`,
  `SyncNames.PercentServes`, `Clusters.SiteOfKeyIff`. Synchronisation converges
  exactly when no file is kept away or overwritten so: `SyncNames.ConvergesIff`.
- The unique index knows nothing of the leading slash that the store drops, so a
  second config can overwrite the files of the first, even when its add is rolled
  back: `ConfigAliases.AddAgreesIff`.
- Connection stamps are compared as strings: `Clusters.NewerReplacesIff`.
- Files are registered under the name given and looked up under the cleaned one:
  `Syncer.NamesMatchIff`.
- Package requests are remembered with their digest and forgotten without it:
  `DownloadQueue.PackageNeverAgain`. A round drops failed packages of another digest:
  `DownloadQueue.DroppedIffOtherDigest`.
- A full comparison marks up-to-date files as missing on disk. The second pass does
  not repair empty ones, and may mark a file that has just been downloaded:
  `SyncDisk.MarkRepairedIffNotEmpty`, `SyncDisk.BothPassesIff`.
- `DecryptReader.Read` advances by the buffer instead of the bytes read:
  `Crypt.DecryptsIffFilled`.

`dafny verify dfyconfig.toml` checks the whole project.

## Model

| member | source | states |
|---|---|---|
| `CmdTunnel.SafeIffNotRisky` | pkg/component/cmd/cmdmanager.go:90-94 | A set of register, write and close calls, in any number and for any UUIDs, is free of panics (send on a closed channel, second close) under every schedule if and only if no UUID has two registrations, a closer and one further closer or writer |
| `CmdTunnel.OneRegistrationIsSafe` | pkg/component/cmd/cmdmanager.go:158-195 | With each UUID registered at most once nothing is ever sent on a closed channel and no channel is closed twice, whatever the interleaving |
| `CmdTunnel.StepOnce` | pkg/component/cmd/cmdmanager.go:158-174 | Every step keeps: one channel and one lock per UUID, a closed channel is unregistered or about to be, and whoever has looked the channel up finds it registered and open although the closer deletes the lock it holds |
| `CmdTunnel.MutualExclusion` | pkg/component/cmd/cmdmanager.go:159-165 | While each UUID is registered at most once (the invariant of StepOnce), at most one call per UUID is between taking and releasing the lock |
| `CmdTunnel.RiskyPanics` | pkg/component/cmd/cmdmanager.go:90-94 | Two registrations of a UUID with a closer and one more caller: a concrete schedule, for any positions of these calls among any others, ends in a panic |
| `CmdTunnel.RunsConserveMessages` | pkg/component/cmd/cmdmanager.go:177-195 | In every run each thread that sent is in exactly one log, once, of a channel of its own UUID, nobody else is, and at most 200 messages are unread |
| `CmdTunnel.WhoWaits` | pkg/component/cmd/cmdmanager.go:184-193 | A call that has not finished is unable to move exactly when it is a writer before a full open channel or its lock is taken |
| `CmdTunnel.StuckBehindFullChannel` | pkg/component/cmd/cmdmanager.go:184-193 | If no call of a UUID can move and one has not finished, one of them is a writer that holds the lock before a full channel |
| `CmdTunnel.JamIsForever` | pkg/component/cmd/cmdmanager.go:124-129 | Once the reader has stopped taking messages, such a writer and every caller waiting for its lock, the closer included, stay where they are in every continuation |
| `CmdDelivery.DeliveredIffFound` | pkg/component/cmd/cmdmanager.go:177-195 | In every run, a writer that has finished has its message in a channel of its UUID if and only if it found the lock's entry when it asked for it and then the channel's |
| `CmdDelivery.RegisteredIsDelivered` | pkg/component/cmd/cmdmanager.go:177-195 | If no call closes the UUID and a registration has finished when a writer starts, the writer, once finished, has its message in a channel, whatever the interleaving |
| `CmdDelivery.ReceiveEndsJam` | pkg/component/cmd/cmdmanager.go:124-129 | One message taken lets a writer before a full channel go on; its message is then the last in the channel |
| `CmdDelivery.CloserCleansUp` | pkg/component/cmd/cmdmanager.go:158-174 | With at most one registration of a UUID, a closer that found the lock has, when it finishes, left neither entry, and none comes back |
| `CmdDelivery.CloserCloses` | pkg/component/cmd/cmdmanager.go:158-174 | In every run, a closer that has found the channel is about to close it or has left a channel of its UUID closed |
| `StreamBatch.SentIsPrefix` | pkg/component/cmd/cmdmanager.go:277-336 | For every output, schedule and pattern of refused packages: batches have 1 to 100 lines, their text is a prefix of the output, all of it on completion, and strictly less when a send was refused |
| `StreamBatch.RunKeeps` | pkg/component/cmd/cmdmanager.go:311-335 | In every run, lines sent, gathered, in the channel and unread are together the lines of the output in order; while lines wait the timer is armed or has expired; the channel holds at most 200 |
| `StreamBatch.LinesConcat` | pkg/component/cmd/cmdmanager.go:296-309 | Cutting into lines loses nothing and yields no empty line, so an empty string received means that the channel is closed |
| `StreamBatch.Progress` | pkg/component/cmd/cmdmanager.go:294-336 | Until the loop has ended the producer or the loop can move; each such move brings the end closer and the timer never undoes that |
| `StreamBatch.Bounded` | pkg/component/cmd/cmdmanager.go:294-336 | No schedule moves the loop and its producer more than twice the length of the output and two times |
| `StreamBatch.TickSends` | pkg/component/cmd/cmdmanager.go:314-317 | In every run, once an expired timer has been handled and its package taken, no line is left gathered and the packages hold every line received; a refused package with lines in it breaks the loop and is not sent |
| `StreamBatch.LineGathered` | pkg/component/cmd/cmdmanager.go:318-333 | In every run, a line received is gathered behind at most 98 others or completes a package of exactly a hundred; the first one starts the timer |
| `StreamBatch.EndSends` | pkg/component/cmd/cmdmanager.go:318-336 | At the end of the output the rest is sent, and only then is the response complete |
| `StreamBatch.FullUnlessTicked` | pkg/component/cmd/cmdmanager.go:311-335 | In every run without a tick, all packages hold exactly a hundred lines, except the last one of a complete response |
| `StreamBatch.Responder.Send` | pkg/component/cmd/cmdmanager.go:282-293 | Sends the gathered lines and empties the buffer; a refused package keeps them and ends the loop; without lines nothing happens |
| `StreamBatch.Responder.Receive` | pkg/component/cmd/cmdmanager.go:318-333 | One line from the channel: flush at 100 lines, re-arm the timer when one line waits, finish when the channel is closed |
| `StreamBatch.ProcessReq` | pkg/component/cmd/cmdmanager.go:278-336 | The whole loop under any schedule produces the packages of the specified run: a prefix of the output, equal to it on completion, different from it after a refused package |
| `ConfigRuns.ReachableInv` | pkg/manager/configserver/configserver.go:89-168 | In every state reached by add, update, release, rollback and namespace release, cut short at any point, with any names, leading slashes included, as long as no config is added whose files fall together with those of a config of another key: versions of a config are exactly 1..n with the head naming n, releases exactly 1..m with the heads naming m and m-1 (0 when absent), releases carry their version's digest and later releases name later versions, keys are unique, and every committed version's files keep their digests |
| `ConfigSteps.AddKeeps` | pkg/manager/configserver/configserver.go:89-168 | Adding a config keeps all of that, including when files were already written and the rows are rolled back; names are free, only a folder shared with a config of another key is left to EffectiveAddIff |
| `ConfigSteps.UpdateKeeps` | pkg/manager/configserver/configserver.go:211-300 | So does an update that does not rename, whether it needs a new version, does not, or stops half-way |
| `ConfigSteps.RollbackKeeps` | pkg/manager/configserver/configserver.go:469-572 | So does a rollback, which copies the files of the previous release's version to the next number |
| `ConfigSteps.ReleaseKeeps` | pkg/manager/configserver/configserver.go:303-356 | So does the release of one config |
| `ConfigRuns.NamespaceKeeps` | pkg/manager/configserver/configserver.go:371-439 | So does the release of a whole namespace in one transaction |
| `ConfigSteps.StoreDataKeeps` | pkg/manager/configserver/configserver.go:1769-1792 | Storing data under the next number, completely, partly or not at all, harms no committed version's file, and when it succeeds the files have the returned digests |
| `ConfigSteps.NextNumberIsFree` | pkg/manager/configserver/configserver.go:236-284 | The number after a config's newest version is used by no committed version of that key |
| `ConfigSteps.ReleaseIntoKeeps` | pkg/manager/configserver/configserver.go:1561-1622 | A release either finds no new version (exactly when the newest is the one last released), is failed by the environment, or makes the newest version the newest release and the newest release the previous one; the unique index is never violated |
| `ConfigProofs.NextReleaseIsNewest` | pkg/manager/configserver/configserver.go:1578-1600 | The release about to be made exceeds every earlier one of the config, in its number and in the version it names |
| `ConfigRuns.UpdateStatusExact` | pkg/manager/configserver/configserver.go:281-283 | An effective update keeps 'status is released exactly when the newest version is the last released' if and only if it makes a new version, leaves the status blank, or says released just when the stored status does |
| `ConfigRuns.ReachableStatus` | pkg/manager/configserver/configserver.go:373-373 | Over all such runs whose updates leave the status blank or echo it, the status of every config is exact |
| `ConfigRuns.NamespaceSucceeds` | pkg/manager/configserver/configserver.go:2048-2054 | With exact statuses a namespace release succeeds if and only if the environment does not fail it: it never meets the 'no new updates' error |
| `ConfigRuns.NamespaceReleases` | pkg/manager/configserver/configserver.go:2027-2066 | A successful namespace release releases every pending config at its newest version, changes no other, and packs exactly their newest contents under their names |
| `ConfigRuns.RollbackSwaps` | pkg/manager/configserver/configserver.go:493-572 | Rollback then release: the previous release's content is released, what was released becomes the previous release, version and release numbers grow by one |
| `ConfigRuns.RollbackTwiceRestores` | pkg/manager/configserver/configserver.go:493-572 | Doing the pair twice restores the released content while numbers grow by two |
| `ConfigRuns.RollbackSucceeds` | pkg/manager/configserver/configserver.go:469-572 | In a consistent state a rollback of a config with a previous release succeeds if and only if the config is visible, the environment does not fail it and, for a templated version, the template and replacement values are there |
| `ConfigRuns.ReleaseAfterRollback` | pkg/manager/configserver/configserver.go:1584-1589 | After an effective rollback the release succeeds if and only if the environment does not fail it |
| `ConfigRuns.ReleaseServesDigest` | pkg/manager/configserver/configserver.go:1811-1842 | The content stored for a release is the one content with the release's digest |
| `ConfigEffects.UpdateMeans` | pkg/manager/configserver/configserver.go:237-300 | In a consistent state, an update that takes effect adds a version, one number higher and with the digest of the bytes sent, exactly if these bytes, the description, the template or the replacement values differ from those of the newest version; else it adds none. Nothing but the config's own rows changes, and blank fields of the request leave the stored ones alone |
| `ConfigEffects.UpdateStoresBytes` | pkg/manager/configserver/configserver.go:211-300 | After an update that takes effect, with a new version or not, the newest version's file holds exactly the bytes sent, merged ones for properties with a template |
| `ConfigEffects.UpdateSucceedsIff` | pkg/manager/configserver/configserver.go:211-300 | The exact condition for an update to succeed: a complete request, the environment, and the template of a new templated version |
| `ConfigEffects.AddMeans` | pkg/manager/configserver/configserver.go:89-168 | An add that takes effect adds one config with its first version and nothing else, with the fields sent and the digest of the bytes sent |
| `ConfigEffects.AddStoresBytes` | pkg/manager/configserver/configserver.go:89-168 | Its version's file holds exactly the bytes sent |
| `ConfigEffects.AddSucceedsIff` | pkg/manager/configserver/configserver.go:89-168 | The exact condition for an add to succeed: a complete request, a free key, the environment, and the template it names |
| `ConfigEffects.ReleaseMeans` | pkg/manager/configserver/configserver.go:1561-1622 | A release that takes effect adds one release of the newest version, with its digest and the next number, makes it the newest and the former newest the previous one, and marks the config released; nothing else changes |
| `ConfigEffects.ReleaseSucceedsIff` | pkg/manager/configserver/configserver.go:303-356 | The exact condition for a release to succeed: not deleted, a version that was not released last, and the environment |
| `ConfigEffects.RollbackRowsMean` | pkg/manager/configserver/configserver.go:493-572 | A rollback that takes effect adds one version, a copy of the one behind the previous release under the next number and the caller's name, and marks the config updated; nothing else changes |
| `ConfigEffects.RollbackCopiesBytes` | pkg/manager/configserver/configserver.go:505-555 | Both files of that version hold what the previous release's version has |
| `ConfigEffects.NamespaceIsReleased` | pkg/manager/configserver/configserver.go:2027-2066 | With exact statuses, after a namespace release that takes effect the newest version of every config of the namespace is the one released; the package of the namespace holds the newest contents of those that were created or updated, and no other package, config or version changes |
| `ConfigEffects.NamespaceFailure` | pkg/manager/configserver/configserver.go:371-439 | One that fails changes no row; if it fails when the agents are told, the package has been replaced by then, else not |
| `ConfigModel.DigestInjective` | pkg/component/storage/cas/cas.go:121-124 | The only property of digests that is used: different contents have different ones |
| `ConfigServer.Manager.AddConfig` | pkg/manager/configserver/configserver.go:89-168 | The add operation as steps over fields, transaction and files leaves exactly the state, and returns exactly the outcome, that the theorems above are about |
| `ConfigServer.Manager.UpdateConfig` | pkg/manager/configserver/configserver.go:211-300 | The update operation as steps over fields, transaction and files leaves exactly the state, and returns exactly the outcome, that the theorems above are about |
| `ConfigServer.Manager.ReleaseConfig` | pkg/manager/configserver/configserver.go:303-356 | The release operation as steps over fields, transaction and files leaves exactly the state, and returns exactly the outcome, that the theorems above are about |
| `ConfigServer.Manager.RollbackConfig` | pkg/manager/configserver/configserver.go:469-572 | The rollback operation as steps over fields, transaction and files leaves exactly the state, and returns exactly the outcome, that the theorems above are about |
| `ConfigServer.Manager.ReleaseNamespace` | pkg/manager/configserver/configserver.go:371-439 | The namespace release operation as steps over fields, transaction and files leaves exactly the state, and returns exactly the outcome, that the theorems above are about |
| `ConfigServer.Manager.ReleaseInto` | pkg/manager/configserver/configserver.go:1561-1622 | The shared release step on a transaction, reading committed rows |
| `ConfigServer.Manager.StoreConfigData` | pkg/manager/configserver/configserver.go:1769-1792 | Stores replacement values, then data, and returns their digests or stops at the failing write |
| `Folders.PathIff` | pkg/component/storage/filedb/db.go:106-141 | Whatever the names, two stored files are one file exactly when their folders agree, that is the segments of top folder, site, namespace and name after blanks are dropped and .. has cancelled what it can, and their versions agree; `Folders.SlashInNamespaceCollides` is an instance |
| `Folders.TidyPathIff` | pkg/component/storage/filedb/db.go:106-141 | Configs whose site and namespace are single segments and whose names have plain segments share a file exactly when site, namespace, version and top folder agree and the names agree once one leading slash is dropped |
| `Folders.TidyApartIff` | pkg/component/storage/filedb/db.go:112-141 | Two such configs never share a file of any version or kind exactly when they differ in more than a leading slash of the name |
| `ConfigAliases.AddAgreesIff` | pkg/manager/configserver/configserver.go:89-168 | Whatever the names and the outcome, and wherever the add is cut short: every committed version's files have their digests afterwards if and only if it stores nothing, or no committed version promises other bytes at a path it wrote (torn writes included) nor, if it takes effect, its own two files |
| `ConfigAliases.SharedFolderBreaks` | pkg/manager/configserver/configserver.go:89-168 | In a consistent state, an add that has written its data into the folder of another config with a version 1 leaves the agreement intact only if the bytes are the same, whatever the keys are and whether it takes effect or is rolled back |
| `ConfigAliases.LeadingSlashAlias` | pkg/component/storage/filedb/db.go:112-141 | The instance of the leading slash: from an empty manager, n and then /n with other bytes; rows and files no longer agree, whether the second add is accepted or rolled back at its version row |
| `Decimal.PrintThenValue` | pkg/manager/configserver/configserver.go:120-121 | A version number printed into a path reads back as the same number |
| `Crypt.DecryptsIffFilled` | pkg/component/storage/cas/crypt.go:69-73 | Reading returns what was sealed, for every keystream and every content of a length, if and only if every read that is followed by more data filled its buffer |
| `Crypt.EncryptChunks` | pkg/component/storage/cas/crypt.go:33-38 | Encrypting in any chunks gives the ciphertext of one write |
| `Crypt.EncryptWriter.Write` | pkg/component/storage/cas/crypt.go:33-38 | The keystream advances by the whole chunk even when the underlying writer takes less |
| `Crypt.DecryptReader.Read` | pkg/component/storage/cas/crypt.go:69-73 | The whole caller's buffer is XORed in place, stale bytes included, and the keystream advances by the buffer's length, not by the bytes read |
| `Crypt.ReadChunks` | pkg/component/storage/cas/crypt.go:69-73 | What a caller collects by any sequence of reads |
| `Storage.DriversRefineStore` | pkg/component/storage/filedb/db.go:279-294 | After any puts without faults or deletions both drivers answer every name like one map from names to the last content and metadata, digest included |
| `Storage.SameDigest` | pkg/component/storage/filedb/storage.go:75-114 | For puts without faults, the two drivers return the same digest if and only if the put does not delete |
| `Storage.DigestTellsContentsApart` | pkg/component/storage/cas/cas.go:102-124 | Two contents have the same stored digest exactly when they are equal |
| `Storage.BlobsAreImmutable` | pkg/component/storage/cas/cas.go:126-140 | A blob once written is never changed or removed by later puts, whatever fails |
| `Storage.CasPutAtomic` | pkg/component/storage/cas/cas.go:93-159 | A put of the digest store touches no other name and is all or nothing, except that a metadata file cut short makes its own name unreadable |
| `Storage.CasGetMatches` | pkg/component/storage/cas/cas.go:162-205 | Whatever can be read from the digest store has the content its digest names, after any faults |
| `Storage.FsTornIffChanged` | pkg/component/storage/filedb/storage.go:85-111 | A put of the name store cut short before its metadata leaves new content under an old digest if and only if there was readable metadata with another digest |
| `Storage.FsPutReads` | pkg/component/storage/filedb/storage.go:75-142 | What a name reads as after a put of the name store, fault by fault |
| `Storage.FsDeleteReads` | pkg/component/storage/filedb/storage.go:75-114 | A put with deletion makes its name unreadable and is refused for a name without data |
| `Storage.CasTempLeft` | pkg/component/storage/cas/cas.go:93-140 | A put of the digest store leaves its temporary file exactly if it is cut short at moving new content, and fails exactly when it is cut short at a step it takes |
| `Storage.FsTempLeft` | pkg/component/storage/filedb/storage.go:75-114 | A put of the name store leaves its temporary file exactly if it is cut short at moving it |
| `Storage.CasStore.Put` | pkg/component/storage/cas/cas.go:93-159 | Temporary file, blob, metadata: the state after each possible interruption |
| `Storage.CasStore.Get` | pkg/component/storage/cas/cas.go:162-228 | Metadata with the digest, and a reader over the blob positioned at its start |
| `Storage.FsStore.Put` | pkg/component/storage/filedb/storage.go:75-114 | Data by name, then metadata: the state after each possible interruption; deletion removes the data |
| `Storage.FsStore.Get` | pkg/component/storage/filedb/storage.go:117-142 | Metadata with the digest added, and a reader over the data |
| `DownloadQueue.MergesOnly` | pkg/agent/vm/vm.go:194-250 | After any run of requests whose keys tell them apart (clean ones do), a file request is merged exactly when the same request is still queued, a package request exactly when it was ever made |
| `DownloadQueue.FileKeysAreQueued` | pkg/agent/vm/vm.go:218-250 | With file requests only, whose keys tell them apart, the key set is the keys of the duplicate-free queue |
| `DownloadQueue.PackageNeverAgain` | pkg/agent/vm/vm.go:200-215 | In runs of requests whose keys tell them apart, a package request once made is never taken on again, because its key is stored with the digest and removed without it |
| `DownloadQueue.SameKeyIff` | pkg/agent/vm/vm.go:218-250 | Two requests without a slash in version or digest have one key exactly when these agree and so do namespace and name joined by a slash |
| `DownloadQueue.NamespacesMixIff` | pkg/agent/vm/vm.go:223-225 | Files of two different namespaces can be merged exactly when one namespace continues the other after a slash (`DownloadQueue.SlashMergesDifferent` is an instance) |
| `DownloadQueue.CleanKeysApart` | pkg/agent/vm/vm.go:200-250 | Requests whose namespaces, versions and digests have no slash are told apart by their keys, and a popped package takes none of their keys away |
| `DownloadQueue.MergingSoundIff` | pkg/agent/vm/vm.go:218-250 | Over all runs of file requests from a set, merging drops only requests that are still queued if and only if no two of the set share a key |
| `DownloadQueue.FirstInFirstOut` | pkg/agent/vm/vm.go:237-250 | In every run, the requests taken off the queue and those in it are together the requests taken on, in order |
| `DownloadQueue.AttemptsEachKeyOnce` | pkg/agent/vm/vm.go:161-172 | A retry round attempts every key, each once |
| `DownloadQueue.MergedFileWasAttempted` | pkg/agent/vm/vm.go:164-168 | In a round of file requests whose keys tell them apart every request is attempted, merged or not |
| `DownloadQueue.AttemptedIffFirst` | pkg/agent/vm/vm.go:161-172 | In every round a failed request is attempted if and only if the first task of the round with its key carries that request |
| `DownloadQueue.DroppedIffOtherDigest` | pkg/agent/vm/vm.go:161-172 | Of clean requests a round drops without an attempt exactly the package requests that have a task of their namespace with another digest before every task of their own |
| `DownloadQueue.RetainedIsSound` | pkg/agent/vm/vm.go:178-185 | Tasks kept have distinct keys, were attempted, and have one failure more, at most ten |
| `DownloadQueue.CountsStay` | pkg/agent/vm/vm.go:161-190 | Failure counts are between 1 and 10 after every round, arrivals included |
| `DownloadQueue.TenRoundsEmpty` | pkg/agent/vm/vm.go:161-190 | Without arrivals the failure queue is empty after ten rounds, whatever the outcomes |
| `DownloadQueue.AlwaysFailing` | pkg/agent/vm/vm.go:178-182 | Nine rounds are not enough: a task that keeps failing is still there |
| `DownloadQueue.VersionManager.AddDownloadTask` | pkg/agent/vm/vm.go:195-238 | Appends the request and its key, or nothing when the key is known |
| `DownloadQueue.VersionManager.PopDownloadTask` | pkg/agent/vm/vm.go:241-250 | Takes the first request and removes the key of its arguments |
| `DownloadQueue.VersionManager.Download` | pkg/agent/vm/vm.go:137-145 | A failed download enters the failure queue with one failure |
| `DownloadQueue.VersionManager.Retry` | pkg/agent/vm/vm.go:156-189 | One round: what is attempted, and that the kept tasks follow those that arrived meanwhile |
| `FileMapper.RecordedIff` | pkg/agent/updater/updater.go:199-214 | An update records its digest and is announced if and only if the file is not on disk or the lookup under the digest as namespace does not find it; else the digest is recorded only if it was already |
| `FileMapper.FileUpdatedMeans` | pkg/agent/updater/updater.go:199-214 | An update changes the digest of no other file |
| `FileMapper.KnownFileAnnouncedIff` | pkg/agent/updater/updater.go:201-213 | A file already recorded and on disk is announced again if and only if the lookup under its digest as namespace does not find the digest |
| `FileMapper.NamespaceLikeDigestLosesUpdate` | pkg/agent/updater/updater.go:201-208 | A namespace named like a digest makes the update of another file vanish |
| `FileMapper.NoDifferenceIff` | pkg/agent/updater/updater.go:346-371 | Nothing differs and nothing is missing exactly when every digest asked for is held |
| `FileMapper.DiffedMeans` | pkg/agent/updater/updater.go:346-371 | What differs is listed with the digest held, what is missing with none |
| `FileMapper.UnpackedIsRecorded` | pkg/agent/updater/updater.go:156-197 | After unpacking, the digest of every file of the package is recorded, and exactly those whose digest changed are announced |
| `FileMapper.UnpackedIsOnDisk` | pkg/agent/updater/updater.go:166-182 | With places of their own, after unpacking every file of the package is on disk with its content and recorded with the digest of what is there |
| `FileMapper.ChangedIsLastChange` | pkg/agent/updater/updater.go:166-182 | For any package, names repeated or not, the digest recorded for a changed name is that of its last file with another digest than recorded, even if a later file of the name brings the recorded content back |
| `FileMapper.FileMap.Update` | pkg/agent/updater/updater.go:287-295 | The namespace holds the target's digests and keeps its other entries; no other namespace changes |
| `FileMapper.FileMap.Get` | pkg/agent/updater/updater.go:298-313 | The recorded digest or nothing; an unknown namespace is created |
| `FileMapper.FileMap.Diff` | pkg/agent/updater/updater.go:346-371 | The entries that differ, with the digest held, and the entries missing |
| `FileMapper.UpdateHub.RunFileUpdated` | pkg/agent/updater/updater.go:199-214 | The mapper after one update and whether subscribers are told |
| `FileMapper.UpdateHub.RunPackageUpdated` | pkg/agent/updater/updater.go:156-197 | All changed files are recorded and announced together, or none when unpacking breaks off; the places of the files unpacked, up to the break, hold their contents, the last one of each place, and no other place changes |
| `Syncer.RegisterConsistentIff` | pkg/agent/syncer/sync.go:167-175 | Registering keeps apps and conn2App one duplicate-free relation if and only if the connection is not in use |
| `Syncer.RunConsistent` | pkg/agent/syncer/sync.go:142-196 | They are one duplicate-free relation after every run that registers fresh connections |
| `Syncer.CancelConsistent` | pkg/agent/syncer/sync.go:142-154 | Cancelling keeps them in step and removes the connection from both |
| `Syncer.IndexIsHistory` | pkg/agent/syncer/sync.go:178-183 | The file index holds exactly the pairs of file and application ever registered, cancelled or not |
| `Syncer.NsIndexIsHistory` | pkg/agent/syncer/sync.go:184-196 | The namespace index holds exactly the pairs of namespace and application ever registered |
| `Syncer.FilesAreHistory` | pkg/agent/syncer/sync.go:167-210 | In every run, the files a live connection's application has are exactly those brought to the connection since its last registration |
| `Syncer.ToldIffAsked` | pkg/agent/syncer/sync.go:213-246 | After any run that has not crashed, reused connections included, and in any order of the applications: a connection is told of an updated file if and only if it is listed for an application that ever asked for it under the cleaned name that is looked up |
| `Syncer.OwnerIsTold` | pkg/agent/syncer/sync.go:213-246 | After runs in which no registration used a live connection: a live connection is told of an updated file if and only if its own application ever asked for it under that name |
| `Syncer.SubscribersAreTold` | pkg/agent/syncer/sync.go:213-246 | After such runs, a live connection is told of an updated file with a clean name if and only if its application ever asked for it as it was registered |
| `Syncer.NamesMatchIff` | pkg/agent/syncer/sync.go:201-218 | In a clean namespace a file is looked up under the name it was registered with if and only if its name has only plain segments: no leading slash (`Syncer.LeadingSlashMissed`), empty segment, . or .. |
| `Syncer.FilesForSplits` | pkg/agent/syncer/sync.go:213-230 | The updated files an application is told of come in the order given, each depending on its own subscription only |
| `Syncer.AttemptsAreBounded` | pkg/agent/syncer/sync.go:98-134 | Any number of worker turns makes at most as many attempts as the queued tasks have left |
| `Syncer.NewTaskAttempts` | pkg/agent/syncer/sync.go:119-131 | A notification that failed once is attempted at most 65 times more |
| `Syncer.TurnSound` | pkg/agent/syncer/sync.go:126-131 | Failure counts stay within 1 to 65 and the one-day cap on the delay is never reached |
| `Syncer.TurnMeans` | pkg/agent/syncer/sync.go:98-134 | A first notification that is not due goes to the end; a due one is gone if it succeeds or has failed 65 times, and else comes back last, 30 seconds a failure later and with one failure more |
| `Syncer.AlwaysFailing` | pkg/agent/syncer/sync.go:98-134 | A notification that always fails is attempted exactly 65 times more |
| `Syncer.FailuresAreQueued` | pkg/agent/syncer/sync.go:236-245 | Exactly the failed notifications of an update are queued, due at once and with one failure |
| `Syncer.CancelRemovesOne` | pkg/agent/syncer/sync.go:156-163 | Cancelling removes only the first queued notification of the connection and keeps the order of all others |
| `Syncer.Service.RegisterApp` | pkg/agent/syncer/sync.go:167-196 | Connection list, connection map, file index and namespace index after a registration |
| `Syncer.Service.RegisterFileToApp` | pkg/agent/syncer/sync.go:199-210 | Adds one file to the index and to the application, or crashes for an unknown connection |
| `Syncer.Service.CancelApp` | pkg/agent/syncer/sync.go:142-164 | Both relations and the queue after a cancellation, in any state |
| `Syncer.Service.NotifyUpdate` | pkg/agent/syncer/sync.go:213-246 | In any state: for each application that asked for some of the files, in some order, one task for each of its connections with exactly those files; failed ones are queued in order. While the two tables agree, that is one task for every live connection concerned and nothing else |
| `Syncer.Service.Work` | pkg/agent/syncer/sync.go:98-134 | One worker turn: postpone, drop or queue again with a longer delay |
| `SyncServer.FileSync` | pkg/manager/configserver/cmdhandler.go:160-204 | Computes the comparison, filling and then thinning the nested maps |
| `SyncServer.AnswerNames` | pkg/manager/configserver/cmdhandler.go:138-210 | In every consistent state the answer names exactly the released files of the site whose digest the agent does not report, each with its released version, in whatever order rows are returned |
| `SyncServer.AnswerInRows` | pkg/manager/configserver/cmdhandler.go:151-204 | In terms of the tables, in every consistent state: for every config of the site that is not deleted and has been released, updated since or not, the answer holds the number of the version last released exactly if the agent does not report that release's digest; it names nothing else |
| `SyncServer.CatalogueKeys` | pkg/manager/configserver/cmdhandler.go:183-190 | No two released files of a site have the same namespace and name, so no entry is overwritten |
| `SyncServer.FileRefresh` | pkg/manager/configserver/cmdhandler.go:83-135 | Names a reported file exactly when it is released with another digest than reported |
| `SyncServer.RefreshNames` | pkg/manager/configserver/cmdhandler.go:83-135 | In terms of the released files: the answer to a partial comparison names exactly those reported with another digest, each with its released version, and nothing that was not reported |
| `SyncServer.RefreshInRows` | pkg/manager/configserver/cmdhandler.go:83-135 | The same for the answer to a partial comparison, about the files reported with another digest |
| `SyncNames.ConvergesIff` | pkg/agent/agent.go:204-224 | For every reachable manager, every site and connection key that comes apart, and every idle agent, whatever its mapper, its disk and the keys left in its download map: every run of full and partial comparisons, downloads, retry rounds, arriving failures and updates that ends idle has each released file of the site the manager takes the agent for recorded or visibly given up, if and only if each of them is safe, a condition on the manager's files and names and the mapper at the start |
| `SyncRuns.SettlesIff` | pkg/agent/vm/vm.go:127-192 | The same for each file alone: recorded, and downloads do not bring bytes that may be recorded in its place; or not recorded, no old key in the way, and its download brings its bytes and is not shadowed by a namespace named like its digest, or is refused for good |
| `SyncNames.PlainConvergesIff` | pkg/agent/agent.go:204-224 | With plain sites and namespaces (one path segment without /, ?, #, %, control characters, and not . or ..), a site whose key comes apart and no old keys in the way, that is: each file is recorded at the start or its digest is not the name of another namespace in which its name has that very digest, recorded or released |
| `SyncNames.Converges` | pkg/manager/configserver/cmdhandler.go:138-210 | If all are safe and nothing was given up, the mapper holds every release digest at the end and the next answer names no file |
| `SyncRuns.UnsafeIsMissed` | pkg/agent/updater/updater.go:199-208 | A file that is not safe is neither recorded nor given up at the end of some run: because its download brings nothing or other bytes, its update is skipped, or a recorded digest is overwritten through a chain of wrong downloads |
| `Sync.StepKeeps` | pkg/agent/cmdhandler.go:192-254 | Every step keeps: nothing but released versions and what their downloads bring is on its way, safe files stay safe, and a safe file is recorded, queued, failing, in the running retry round, waiting to be recorded or given up |
| `SyncRuns.CanSettle` | pkg/agent/vm/vm.go:127-192 | From wherever a run has come, some continuation ends idle and gives up nothing but requests that are always refused |
| `SyncNames.ManagerIsGood` | pkg/manager/configserver/cmdhandler.go:183-190 | In a consistent manager the released files of any site have digests, one name each and one download key each |
| `SyncNames.PlainIsServed` | pkg/manager/provider/provider.go:71-94 | Every released file of a plain site and namespace can be downloaded under its version and has its release digest |
| `SyncNames.SlashesServedIff` | pkg/manager/provider/provider.go:71-94 | With slashes, empty and dot segments in site and namespace that do not climb out of them, a released file is served its own bytes if and only if two segments are left after cleaning, and nothing else is ever served |
| `SyncNames.HashServesOne` | pkg/agent/vm/vm.go:230-233 | With a # in site or namespace, all files of the namespace are served one content, if any: version and name are cut off the URL |
| `SyncNames.HashServesNothing` | pkg/agent/vm/vm.go:230-233 | With a # before any ?, no file of the namespace is served |
| `SyncNames.QuestionMarkServes` | pkg/agent/vm/vm.go:230-233 | A file whose namespace goes on after a ? (with no mark of its own after it) is looked for in the namespace before the ?, without a version |
| `SyncNames.QuestionMarkServesOther` | pkg/manager/provider/provider.go:71-94 | If its name ends in a version of another file there, it is served that file's bytes |
| `SyncNames.PercentServes` | pkg/agent/vm/vm.go:230-233 | A namespace with escapes is looked for where they lead when decoded; with a broken escape every request is refused |
| `Urls.DecodedReads` | pkg/manager/provider/provider.go:20-24 | Without ?, # and control characters in site and namespace: the provider is asked for the file of the two segments that site and namespace come to once decoded and cleaned, with the version and name sent, if they come to two; a broken escape is refused |
| `Urls.PlainReads` | pkg/agent/vm/vm.go:230-233 | Plain sites and namespaces, any version and any name arrive as they are |
| `Urls.QuestionMarkReads` | pkg/agent/vm/vm.go:230-233 | From the first ? on the namespace is read as the query, before the version and name that the agent appends |
| `Urls.OwnParametersWin` | pkg/agent/vm/vm.go:230-233 | A version and a name that the namespace brings after the ? win over those that the agent appends |
| `Urls.MarksRefused` | pkg/agent/vm/vm.go:230-233 | Without a #, a control character in site or namespace or a blank after the ? has every request refused |
| `Urls.HashIgnoresFile` | pkg/agent/vm/vm.go:230-233 | With a # in site or namespace the request read does not depend on version or name |
| `Clusters.SiteOfKeyIff` | pkg/manager/configserver/configserver.go:2072-2081 | The handlers take the caller for its own site if and only if the site contains no '@@' and does not end in '@' |
| `SyncRounds.RoundIsRetry` | pkg/agent/vm/vm.go:156-189 | A round of retries looked at task by task, with downloads, failures and updates free to fall between, attempts and keeps exactly what the round of the download queue does |
| `SyncRounds.RetryAccounted` | pkg/agent/vm/vm.go:161-190 | Once a round has looked at the first task with a wanted file's key, the file is downloaded, kept or given up as that attempt went, however many tasks follow: merging loses none |
| `SyncRounds.GivenUpAfterTenRounds` | pkg/agent/vm/vm.go:137-190 | A request that fails whenever it is tried is tried once from the queue and in ten rounds, and then given up |
| `SyncDisk.BothPassesIff` | pkg/agent/agent.go:204-224 | After the full comparison, the disk scan and the partial comparison, with any downloads, retries and updates between and after and nothing given up: the disk holds the released content of a non-empty file if and only if its download brings that content and, at the scan, it was still on its way or was not caught between its download and its update. For a file with a disk place and a key of its own under which nothing else is recorded |
| `SyncDisk.CaughtCanHappen` | pkg/agent/agent.go:204-224 | Every file that is served its content and recorded with an older digest can be caught so: by a run in which no download fails before the scan but those that are always refused |
| `SyncDisk.DrainedDiskIff` | pkg/agent/vm/vm.go:127-192 | Once everything on its way has been downloaded and nothing given up, the disk holds the released content of a file exactly when it was on its way and its download brings that content, or was not on its way and the disk held it already |
| `SyncDisk.MarkRepairedIffNotEmpty` | pkg/agent/cmdhandler.go:174-252 | A full comparison marks every current file as missing on disk; the second comparison queues it again if and only if it is not empty |
| `SyncDisk.TidyIsSole` | pkg/agent/cmdhandler.go:174-190 | If the released files of a site have tidy names, no two of them share a place on the agent's disk |
| `SyncPackages.PackageDelivers` | pkg/agent/updater/updater.go:156-197 | From the unpacking on: once an agent has unpacked the package of a namespace release, in any order of its files and whatever it held, the mapper holds the new release's digest of every config released |
| `SyncAgent.Node.RefreshFromRemote` | pkg/agent/cmdhandler.go:224-254 | Queues exactly the named files and marks exactly the reported files not named |
| `SyncAgent.Node.FileRefresh` | pkg/agent/cmdhandler.go:96-172 | Lists exactly the files asked for whose recorded digest differs or is missing, requires exactly the missing ones from the manager, and changes no record |
| `SyncAgent.Node.LocalScan` | pkg/agent/cmdhandler.go:174-190 | Lists exactly the recorded files that the disk lacks or holds differently, with the disk's digest |
| `Ref.CompleteConfig` | cmd/agent/app/options.go:187-208 | Two differences and two unions give the specified overlay of default, file and flags, without an error |
| `Ref.CompletedAt` | cmd/agent/app/options.go:187-208 | At every leaf of the completed configuration: the flag if it is non-zero and differs from the default, else the file if non-zero, else the default |
| `Ref.FlagWinsIff` | cmd/agent/app/options.go:187-208 | At every leaf of the completed configuration the flag's value comes out if and only if it is a non-zero change of the default or what file and default give anyway |
| `Ref.UnionOfDiffIff` | pkg/util/ref/reflect.go:14-76 | Adding the difference to the default restores x if and only if every leaf that differs from the default is non-zero |
| `Ref.MinusAt` | pkg/util/ref/reflect.go:48-72 | A leaf of the difference is zero where both agree and x's elsewhere |
| `Ref.PlusAt` | pkg/util/ref/reflect.go:271-296 | A leaf of the union is y's where it is non-zero and x's elsewhere |
| `Ref.Diff` | pkg/util/ref/reflect.go:14-76 | Field by field on a fresh zero value; an error exactly for non-structs or different types |
| `Ref.Union` | pkg/util/ref/reflect.go:250-298 | Field by field on a copy; skipping blank fields and equal values makes no difference |
| `Ref.SliceDiff` | pkg/util/ref/reflect.go:78-131 | Deleting in place while iterating stays in bounds and leaves exactly the elements of x not in y, in order |
| `Ref.WithoutKeeps` | pkg/util/ref/reflect.go:101-130 | Every element not in y keeps its number of occurrences, every other has none |
| `Ref.WithoutSplits` | pkg/util/ref/reflect.go:101-130 | What is left keeps its order: each element stays or goes by itself |
| `Clusters.NewestConnectionWins` | pkg/manager/model/cluster.go:63-102 | Over every order of events, the row of a site holds the connection with the greatest stamp and the status of that connection's last event |
| `Clusters.LateEventIgnored` | pkg/manager/model/cluster.go:94-100 | An event of an older connection changes nothing |
| `Clusters.KeySplitsIff` | pkg/manager/model/cluster.go:66-70 | A key comes apart into its site and stamp if and only if the site contains no '@@' and does not end in '@' and the stamp contains no '@@' |
| `Clusters.LexIsNumeric` | pkg/manager/model/cluster.go:94-94 | For decimal stamps of one length the string order is the numeric order |
| `Clusters.PrintedOrder` | pkg/manager/model/cluster.go:94-94 | For printed numbers m <= n of any lengths the string order agrees exactly when m, filled up with zeros to as many digits as n, is not above n |
| `Clusters.NewerReplacesIff` | pkg/manager/model/cluster.go:94-100 | A connection with a numerically later second replaces the stored one exactly when the stored second, filled up with zeros to as many digits, is not above it; so 10 does not replace 9 (`Clusters.TenAfterNine`) |
| `Clusters.TrailingAtIsLost` | pkg/manager/model/cluster.go:66-79 | A site ending in '@' never gets its connection stored |
| `Clusters.RefusedIff` | pkg/manager/model/cluster.go:63-102 | The exact conditions for each way an update is refused; a refused update leaves all rows alone |
| `Clusters.DeletedStays` | pkg/manager/model/cluster.go:76-79 | An event of a deleted cluster changes nothing and fails |
| `Clusters.Table.UpdateClusterStatus` | pkg/manager/model/cluster.go:63-102 | One transaction: refuse bad keys and unknown sites, store the first connection, overwrite when not older |
| `Durations.RoundTrip` | pkg/agent/timer/parser.go:31-94 | For every non-negative 64-bit duration, reading what was written drops what is below a millisecond and nothing else |
| `Durations.FormatPicksFirst` | pkg/agent/timer/parser.go:79-93 | The text names the first unit in the order y, w, d, h, m, s, ms that divides the milliseconds, and the quotient |
| `Durations.ParseExactIffFits` | pkg/agent/timer/parser.go:31-59 | A text is read as what it says if and only if that is below 2^63 nanoseconds; otherwise it saturates or wraps |
| `Durations.UnitLengths` | pkg/agent/timer/parser.go:20-59 | y, w, d, h, m, s and ms stand for 365 days, 7 days, 24 hours, 60 minutes, 60 seconds, a second and a millisecond, as long as the product fits into 64 bits |
| `Durations.TooLargeIsMinusOne` | pkg/agent/timer/parser.go:31-59 | A number of 2^63 or more reads as minus one of its unit, whatever it is |
| `Durations.AcceptedIff` | pkg/agent/timer/parser.go:31-59 | A text is accepted if and only if it is digits followed by one of these units |
| `Durations.FormatUnits` | pkg/agent/timer/parser.go:79-93 | What is written for every number of milliseconds, unit by unit |
| `Durations.ReadableIffNotNegative` | pkg/agent/timer/parser.go:27-35 | What is written can be read back if and only if it is above minus one millisecond |

## Left out

- Re-import of an existing config (`createOrUpdateConfig`): it never reads the old version number and rewrites version 1, so the agreement of rows and files does not hold for it.
- Renames in an update, and two operations running at once on one config: files are written before the uniqueness check, so the agreement does not hold there either.
- Template rows, their storage and the rendering and merging of properties: their results are parameters of each operation.
- The status and group columns of version rows.
- A store that fails while a package is unpacked is taken to leave the place of its file as it was.
- Listing of configs and histories, instance reporting, the unimplemented deletion of configs, and everything served over REST.
- Reporting of installed digests to the manager and the content replies to applications (`CmdContentHandler`), beyond the file registration they make.
- Storage: deletion by digest, tar archives and compression, collisions of temporary names, and names that are directories of other names. A store to the name driver with a failing directory creation is the same as one whose move fails.
- The HTTP client, server and router are modelled as the libraries that `go.mod` and the build image name behave (Go 1.13, go-restful 2.13): fragment, query, percent decoding, cleaning by redirect, seven path segments, `&` and `;` between parameters. An answer of another route is a parameter (`others`), strings are bytes, and a path that is not UTF-8 is not told apart. The agent's provider address is taken to end in the route's root, and every request to pass authentication.
- Config names whose .. segments lead out of the config folders into those of templates or packages: these are separate stores here.
- SyncPackages.PackageDelivers: starts where the agent has the package; its download and the check of its digest, which is over an archive, are not part of it.
- SyncDisk.BothPassesIff: is about files that share their place on disk with no other; `SyncDisk.TidyIsSole` says when that is so.
- Networking: gRPC, TLS, HTTP and the database are success or failure of a call. JSON is taken as lossless, so decoding errors are not modelled.
- SyncNames.Converges: is about the mapper (for the disk see `SyncDisk.BothPassesIff`) and about a manager that does not change meanwhile; package downloads do not interleave with it, and a download is one step from taking it off the queue to its end.
- SyncRuns.CanSettle: shows that such an end is always reachable, not that an unfair environment reaches it.
- Delivery of a response that arrives before its UUID is registered: the code drops it; the tunnel's theorems are about safety, conservation and deadlock.
- Responses beyond the tunnel: starting one goroutine per package means their order is not that of the sender.
- Syncer: the apps table is read without its lock while notifications are sent; each operation here is one step.
- Syncer.Service.Work: several workers run such turns; between taking a notification and putting it back it is out of the queue.
- Ref: pointers and slices inside configuration structs, key-directed matching and the union of slices; the agent's configuration has only nested structs with scalar fields.
- Ref.SliceDiff: is about slices without matching keys.
- Durations: the YAML decoder around the text.
- Clusters: the length limits of columns, and soft deletion beyond rows whose status is `deleted`.
