/**
 * The background job that expires old trash items, a chunk of users at a
 * time.  Each run allocates the next chunk of `UsersPerSession` users by
 * raising the persisted offset, probes whether any user lives at the chunk's
 * start, and either expires the trash of the chunk's eligible users or, when
 * the population is exhausted, wraps the offset back to 0.
 */
module BackgroundJob {
  import opened Wrappers
  import opened Config

  /** Number of users handled by one run. */
  const UsersPerSession: nat := 1000

  /** A user as the user manager returns it; a `lastLogin` of 0 means never. */
  datatype UserRecord = UserRecord(uid: string, lastLogin: int)

  /**
   * What the filesystem answers for each user: whether setting up the user's
   * filesystem succeeds, and whether the user has a trash directory
   * (`/files_trashbin/files`).
   */
  datatype FileSystem = FileSystem(setupSucceeds: set<string>, trashDirs: set<string>)

  /** What one run leaves behind: the stored offset and the users expired. */
  datatype Outcome = Outcome(checkpoint: nat, expired: seq<string>)

  function Min(a: int, b: int): int
  {
    if a <= b then a else b
  }

  /**
   * The threshold as PHP tests it with `!$maxAge`: absent (false or null)
   * and the timestamp 0 are both falsy, so both disable expiration.
   */
  predicate Enabled(maxAge: Option<int>)
  {
    maxAge.Some? && maxAge.value != 0
  }

  /**
   * The user manager's search with an empty pattern: at most `limit` users,
   * in the population's own order, beginning with the one at `offset`.
   */
  function Search(users: seq<UserRecord>, limit: nat, offset: nat): (page: seq<UserRecord>)
    ensures offset >= |users| ==> page == []
    ensures offset < |users| ==> |page| == Min(limit, |users| - offset)
    ensures forall k :: 0 <= k < |page| ==> offset + k < |users| && page[k] == users[offset + k]
  {
    if offset >= |users| then [] else users[offset..Min(offset + limit, |users|)]
  }

  /**
   * The skip decision for one user.  It answers false only when the
   * filesystem could be set up and the user has no trash directory; a user
   * whose filesystem setup fails is not skipped.
   */
  function SetupFS(fs: FileSystem, uid: string): (actAsOwner: bool)
    ensures !actAsOwner <==> uid in fs.setupSucceeds && uid !in fs.trashDirs
  {
    if uid in fs.setupSucceeds then
      uid in fs.trashDirs
    else
      true
  }

  /** A user of the chunk whose trash is handed to expiration. */
  predicate Expirable(user: UserRecord, fs: FileSystem)
  {
    user.lastLogin != 0 && SetupFS(fs, user.uid)
  }

  /** The users of `batch` that are expirable, in the order of `batch`. */
  function Selected(batch: seq<UserRecord>, fs: FileSystem): seq<UserRecord>
  {
    if batch == [] then []
    else
      var last := batch[|batch| - 1];
      Selected(batch[..|batch| - 1], fs) + (if Expirable(last, fs) then [last] else [])
  }

  /** The identifiers of a sequence of users, in order. */
  function Uids(users: seq<UserRecord>): seq<string>
  {
    if users == [] then [] else Uids(users[..|users| - 1]) + [users[|users| - 1].uid]
  }

  /** `xs` is `ys` with some elements left out, the rest kept in order. */
  ghost predicate IsSubsequence<T>(xs: seq<T>, ys: seq<T>)
    decreases |ys|
  {
    xs == [] ||
    (ys != [] &&
     (IsSubsequence(xs, ys[..|ys| - 1]) ||
      (xs[|xs| - 1] == ys[|ys| - 1] && IsSubsequence(xs[..|xs| - 1], ys[..|ys| - 1]))))
  }

  /**
   * The chunk of up to `UsersPerSession` users that begins at `offset`: what
   * `Search(users, UsersPerSession, offset)` returns there, as `Run` asserts.
   */
  function Chunk(users: seq<UserRecord>, offset: nat): seq<UserRecord>
    requires offset <= |users|
  {
    users[offset..Min(offset + UsersPerSession, |users|)]
  }

  /**
   * The users a run fetches once the increment has returned a value,
   * `offset` being the offset stored before the increment: the chunk there
   * when the probe finds a user at `offset`, and nobody otherwise.
   */
  function Batch(offset: nat, users: seq<UserRecord>): seq<UserRecord>
  {
    if offset < |users| then Chunk(users, offset) else []
  }

  /**
   * The offset such a run leaves: still advanced by one chunk when the probe
   * finds a user, reset to 0 when it finds none.
   */
  function NextOffset(offset: nat, users: seq<UserRecord>): nat
  {
    if offset < |users| then offset + UsersPerSession else 0
  }

  /** What such a run leaves behind. */
  function AfterIncrement(offset: nat, users: seq<UserRecord>, fs: FileSystem): Outcome
  {
    Outcome(NextOffset(offset, users), Uids(Selected(Batch(offset, users), fs)))
  }

  /** The whole effect of one run, from the offset stored before it. */
  function RunSpec(checkpoint: nat, maxAge: Option<int>, incrementFails: bool,
                   users: seq<UserRecord>, fs: FileSystem): Outcome
  {
    if !Enabled(maxAge) then Outcome(checkpoint, [])
    else if incrementFails then Outcome(0, [])
    else AfterIncrement(checkpoint, users, fs)
  }

  /**
   * The chunk loop: every user of `batch`, in order, either is skipped (never
   * logged in, or the skip decision says so) or has its trash expired.
   * Returns the identifiers handed to expiration.
   */
  method ExpireBatch(batch: seq<UserRecord>, fs: FileSystem) returns (expired: seq<string>)
    ensures expired == Uids(Selected(batch, fs))
  {
    expired := [];
    for i := 0 to |batch|
      invariant expired == Uids(Selected(batch[..i], fs))
    {
      var user := batch[i];
      assert batch[..i + 1][..i] == batch[..i];
      if user.lastLogin == 0 || !SetupFS(fs, user.uid) {
        assert Selected(batch[..i + 1], fs) == Selected(batch[..i], fs);
        continue;
      }
      ghost var chosen := Selected(batch[..i], fs);
      assert Selected(batch[..i + 1], fs) == chosen + [user];
      assert (chosen + [user])[..|chosen|] == chosen;
      expired := expired + [user.uid];
    }
    assert batch[..|batch|] == batch;
  }

  class ExpireTrash {
    const config: AppConfig

    constructor (config: AppConfig)
      ensures this.config == config
    {
      this.config := config;
    }

    /**
     * One run of the job.  `maxAge` is the threshold the expiration policy
     * reports, `incrementFails` whether the store answers the increment with
     * null, `users` the population and `fs` the filesystem at this run.
     */
    method Run(maxAge: Option<int>, incrementFails: bool, users: seq<UserRecord>, fs: FileSystem)
      returns (expired: seq<string>)
      modifies config
      ensures Outcome(config.cronjobUserOffset, expired)
           == RunSpec(old(config.cronjobUserOffset), maxAge, incrementFails, users, fs)
      ensures !Enabled(maxAge) ==> config.cronjobUserOffset == old(config.cronjobUserOffset) && expired == []
      ensures Enabled(maxAge) && (incrementFails || old(config.cronjobUserOffset) >= |users|)
              ==> config.cronjobUserOffset == 0 && expired == []
      ensures Enabled(maxAge) && !incrementFails && old(config.cronjobUserOffset) < |users|
              ==> config.cronjobUserOffset == old(config.cronjobUserOffset) + UsersPerSession
                  && expired == Uids(Selected(Chunk(users, old(config.cronjobUserOffset)), fs))
    {
      if !Enabled(maxAge) {
        return [];
      }
      var result := config.IncreaseAppValue(UsersPerSession, incrementFails);
      if result.Some? {
        // the chunk this run allocated begins at the value before the increment
        var offset := result.value - UsersPerSession;
        var probe := Search(users, 1, offset);
        if |probe| > 0 {
          var batch := Search(users, UsersPerSession, offset);
          assert batch == Chunk(users, offset);
          expired := ExpireBatch(batch, fs);
          return;
        }
      }
      // wrap: the next run starts at the beginning of the population
      config.SetAppValue(0);
      expired := [];
    }
  }
}
