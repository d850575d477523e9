# Trash expiration job: checkpointed batch cursor

A Dafny model of the files_trashbin background job `ExpireTrash`. The job
walks the whole user population across many runs and expires old trash
items. Each run handles one chunk of `USERS_PER_SESSION` (1000) users. A
persisted integer offset, the app value `cronjob_user_offset`, says where the
next chunk starts. Each run does the following:

- It stops at once if the expiration threshold is falsy.
- It raises the offset by 1000. The chunk begins at the value from before
  the increment.
- It probes for one user at that position. If it finds one, it fetches up to
  1000 users and hands each eligible one to trash expiration.
- If the probe finds no user, or the increment answers `null`, it resets the
  offset to 0. This is the wrap that starts the next cycle.

Files:

- `wrappers.dfy`: `Option`.
- `config.dfy`: module `Config`. The class `AppConfig` holds the one
  persisted value and has the in-place increment and set.
- `expire_trash.dfy`: module `BackgroundJob`. It holds the user records and
  the filesystem oracle. It has the user search, the `setupFS` skip
  decision, the chunk loop as a method with loop invariants, the reference
  definition `RunSpec` of one run, and the class `ExpireTrash`. The class's
  `Run` method is proved against `RunSpec`.
- `properties.dfy`: module `RunProperties`. Lemmas about one run and one
  chunk, and the alignment invariant over any series of runs.
- `sweep.dfy`: module `Sweep`. Lemmas about successive runs over a fixed
  population, each run asking the filesystem afresh: how the chunks tile
  the population, what each run expires, and when the wrap comes.

These collaborators are parameters of `Run`:

- The threshold is an `Option<int>`. `None` stands for PHP's `false`/`null`.
- The answer of the config store's increment is a `bool` that says whether
  it returns `null`.
- The user population is the `seq<UserRecord>` that the user manager's
  search pages through.
- The filesystem is a `FileSystem` value. It gives the users whose
  filesystem setup succeeds and the users who have a
  `/files_trashbin/files` directory.

The result of `Run` is the sequence of uids handed to
`Trashbin::deleteExpiredFiles`, in order.

Notes on what the code does:

- `!$maxAge` (line 87) treats the timestamp `0` as disabled, not only an
  absent threshold (`Enabled`).
- `increaseAppValue` is modelled as returning the *new* value. `run` reads
  the chunk start as the incremented value minus 1000 (line 96).
- A run whose probe misses, or whose increment answers `null`, ends with the
  offset at 0 (lines 94-100 and 120).
- When `\OC_Util::setupFS` fails, the user is *not* skipped. `setupFS`
  falls through to `return true` (lines 132-140). So a user is skipped only
  in two cases: they never logged in, or their filesystem setup succeeded
  and they have no trash directory.

## Model

| member | source | states |
|---|---|---|
| `Config.AppConfig.IncreaseAppValue` | apps/files_trashbin/lib/backgroundjob/expiretrash.php:93-94 | on success the stored offset rises by exactly `delta` and the new value is returned; a `null` answer leaves the value unchanged (the increment applies wholly or not at all) |
| `Config.AppConfig.SetAppValue` | apps/files_trashbin/lib/backgroundjob/expiretrash.php:120 | the stored offset is overwritten with the given value |
| `BackgroundJob.Search` | apps/files_trashbin/lib/backgroundjob/expiretrash.php:99-104 | the page is empty past the end of the population; otherwise it holds min(limit, remaining) users, each equal to the population's user at `offset + k` |
| `BackgroundJob.SetupFS` | apps/files_trashbin/lib/backgroundjob/expiretrash.php:130-141 | answers false exactly when filesystem setup succeeds and the user has no trash directory; a failed setup never causes a skip |
| `BackgroundJob.ExpireBatch` | apps/files_trashbin/lib/backgroundjob/expiretrash.php:105-112 | the uids handed to expiration are exactly those of the expirable users of the chunk, in chunk order (`Uids(Selected(batch, fs))`) |
| `BackgroundJob.ExpireTrash.Run` | apps/files_trashbin/lib/backgroundjob/expiretrash.php:85-123 | the new offset and the expired uids are those of `RunSpec` on the old offset: disabled means unchanged and nobody expired; null increment or empty probe means offset 0 and nobody expired; a probe hit means old + 1000 and the chunk at the old offset is processed |
| `RunProperties.DisabledRunIsNoop` | apps/files_trashbin/lib/backgroundjob/expiretrash.php:86-89 | a falsy threshold leaves the offset unchanged and expires nobody |
| `RunProperties.NullIncrementWraps` | apps/files_trashbin/lib/backgroundjob/expiretrash.php:93-121 | a null answer to the increment resets the offset to 0 and expires nobody |
| `RunProperties.ExhaustedProbeWraps` | apps/files_trashbin/lib/backgroundjob/expiretrash.php:96-121 | when no user exists at the old offset, the run resets the offset to 0 and expires nobody |
| `RunProperties.ProbeHitProcessesChunk` | apps/files_trashbin/lib/backgroundjob/expiretrash.php:93-116 | when a user exists at the old offset, the offset ends at old + 1000 (no reset). The expired uids are an in-order subsequence of the uids of `users[old .. min(old + 1000, P)]`, so there are at most 1000. A uid is expired iff some user of that slice with it has `lastLogin != 0` and passes `SetupFS` |
| `RunProperties.SelectedIsSubsequence` | apps/files_trashbin/lib/backgroundjob/expiretrash.php:105-112 | the users handed on are the fetched chunk with some left out, order kept |
| `RunProperties.SelectedMembership` | apps/files_trashbin/lib/backgroundjob/expiretrash.php:105-111 | a user is handed on iff it is in the chunk, has logged in and is not skipped by `SetupFS` (both directions) |
| `RunProperties.ExpiredExactly` | apps/files_trashbin/lib/backgroundjob/expiretrash.php:105-111 | a uid reaches expiration iff some user of the chunk carrying it has `lastLogin != 0` and `SetupFS` true |
| `RunProperties.NeverLoggedInIsSkipped` | apps/files_trashbin/lib/backgroundjob/expiretrash.php:107 | a user whose `lastLogin` is 0 is never handed to expiration |
| `RunProperties.RunKeepsAlignment` | apps/files_trashbin/lib/backgroundjob/expiretrash.php:93-120 | from a multiple of 1000, a run ends at 0, at its start or at start + 1000, so still at a multiple of 1000 |
| `RunProperties.RunsKeepAlignment` | apps/files_trashbin/lib/backgroundjob/expiretrash.php:93-120 | over any series of runs, with any thresholds, store answers and populations, an offset that starts at a multiple of 1000 stays one |
| `Sweep.RunsOffset` | apps/files_trashbin/lib/backgroundjob/expiretrash.php:93-104 | over enabled, answered runs against a fixed population, whatever filesystem each run sees, the stored offset follows the probe-driven trajectory `Offset` (advance by 1000 while a user exists at the offset, else 0) |
| `Sweep.RunsExpireHanded` | apps/files_trashbin/lib/backgroundjob/expiretrash.php:99-112 | over such runs, the uids handed to expiration, all runs together, are `Handed`: run after run, the expirable users of the batch that run fetched, judged against the filesystem of that run |
| `Sweep.HandedOnOneFileSystem` | apps/files_trashbin/lib/backgroundjob/expiretrash.php:105-111 | when every run sees one filesystem, the per-run selections add up to one selection over everything fetched, in fetch order |
| `Sweep.RunsExpireFetched` | apps/files_trashbin/lib/backgroundjob/expiretrash.php:99-112 | over such runs that all see one filesystem, the uids handed to expiration are exactly those of the expirable users among everything the runs fetched, in fetch order |
| `Sweep.OffsetInCycle` | apps/files_trashbin/lib/backgroundjob/expiretrash.php:93-100 | from offset 0, after k <= ceil(P/1000) such runs the offset is k * 1000 |
| `Sweep.FetchedPrefix` | apps/files_trashbin/lib/backgroundjob/expiretrash.php:96-104 | from offset 0, the first k <= ceil(P/1000) runs fetched exactly `users[.. min(k*1000, P)]`, in order and each user once |
| `Sweep.HandedMembership` | apps/files_trashbin/lib/backgroundjob/expiretrash.php:93-111 | from offset 0, within the first k <= ceil(P/1000) runs, a uid is handed to expiration iff some run i among them hands it on from chunk i, judged on the filesystem run i saw (both directions) |
| `Sweep.HandedByExactly` | apps/files_trashbin/lib/backgroundjob/expiretrash.php:105-111 | run i hands on a uid iff chunk i holds a user with that uid who has `lastLogin != 0` and passes `SetupFS` on run i's filesystem |
| `Sweep.RunFromChunkStart` | apps/files_trashbin/lib/backgroundjob/expiretrash.php:93-112 | an enabled, answered run from the start of chunk k (k < ceil(P/1000)) ends at (k+1) * 1000 and expires the expirable users of `users[k*1000 .. min((k+1)*1000, P)]` |
| `Sweep.RunOfCycle` | apps/files_trashbin/lib/backgroundjob/expiretrash.php:93-112 | run k of a cycle (k < ceil(P/1000)) starts at k * 1000 inside the population, ends at (k+1) * 1000 and expires the expirable users of `users[k*1000 .. min((k+1)*1000, P)]`, judged on the filesystem that run sees |
| `Sweep.FullCycle` | apps/files_trashbin/lib/backgroundjob/expiretrash.php:93-112 | from offset 0, the first ceil(P/1000) runs fetch the whole population once, in order, with no gap or overlap; the offset ends at ceil(P/1000) * 1000, at or past the end; a uid is expired iff the run whose chunk holds it hands it on on its own filesystem. No condition on the filesystems |
| `Sweep.FullCycleOnOneFileSystem` | apps/files_trashbin/lib/backgroundjob/expiretrash.php:93-112 | a full cycle whose runs all see one filesystem expires exactly the expirable users of the population, each once, in population order |
| `Sweep.WrapAfterCycle` | apps/files_trashbin/lib/backgroundjob/expiretrash.php:93-121 | whatever filesystems the runs see, the run after a full cycle probes past the end, expires nobody and resets the offset to 0; the cycle's expirations are `Handed` |

## Left out

- Database transactions (lines 91-92, 101, 121) and concurrent workers. The increment is one atomic step, and runs are sequential.
- Two concurrent callers receiving disjoint ranges is therefore not modelled. Only the sequential chunk progression is.
- The constructor's fallback to global singletons, `fixDIForJobs` (lines 59-79), and the 30-minute interval (line 63). These are framework wiring and the external trigger. `ExpireTrash.constructor` only stores the config object.
- `\OC_Util::setupFS`, `tearDownFS` and `\OC\Files\View::is_dir` (lines 114, 131-135). These are foreign calls. They are reduced to the two oracle sets in `FileSystem`. Switching the filesystem context between users is not modelled.
- `Helper::getTrashFiles` and `Trashbin::deleteExpiredFiles` (lines 110-111). Which items get deleted is external. The model records only which uids are handed to expiration.
- How `getMaxAgeAsTimestamp` computes the threshold (line 86). Only falsy versus truthy matters, and the timestamp does not enter the model otherwise.
- An exception raised before the commit. Only the `null` answer of the increment is modelled; a storage failure raised as an exception is not. The increment (line 93) and the probe (line 99) run inside the transaction begun at line 92, which is committed only at line 101 or 121. An exception from either of them therefore leaves the increment uncommitted.
- An exception or crash after the commit at line 101. The fetch (line 104) and `getTrashFiles`/`deleteExpiredFiles` (lines 110-111) have no `try`/`catch` around them in the loop of lines 105-112. A failure there leaves the offset advanced and abandons the rest of the chunk. The model has no such partial outcome.
- A population that changes between the probe (line 99) and the fetch (line 104). `ExpireTrash.Run` answers both searches from one `users`. In the source the offset is then already advanced, and the fetched chunk may be short or empty.
- Config.AppConfig.IncreaseAppValue: what the store does to the value when it answers `null` is not visible in this file. The model leaves the value unchanged. This cannot affect a run, because `Run` then sets the offset to 0 (line 120).
- Whether expiring a user's trash a second time is harmless. That depends on `Trashbin::deleteExpiredFiles`, which is not part of this model.
- A population that changes during a cycle. The coverage lemmas in `Sweep` assume a fixed population. `RunsKeepAlignment` places no restriction on the population.
- Sweep.RunsExpireFetched: assumes that every run sees one filesystem, so that all expirations can be stated as one selection over everything fetched. The source asks the filesystem again in each run (lines 107, 131-135). `Sweep.RunsExpireHanded` covers the general case, with each run judged on its own filesystem.
- Sweep.FullCycleOnOneFileSystem: assumes that every run of the cycle sees one filesystem, so that the cycle's expirations are one selection over the population. `Sweep.FullCycle` states them for filesystems that may differ from run to run.
