/**
 * Properties of a single run and of the chunk loop.
 */
module RunProperties {
  import opened Wrappers
  import opened BackgroundJob

  lemma {:induction false} SubsequenceLength<T>(xs: seq<T>, ys: seq<T>)
    requires IsSubsequence(xs, ys)
    ensures |xs| <= |ys|
    decreases |ys|
  {
    if xs != [] {
      if IsSubsequence(xs, ys[..|ys| - 1]) {
        SubsequenceLength(xs, ys[..|ys| - 1]);
      } else {
        SubsequenceLength(xs[..|xs| - 1], ys[..|ys| - 1]);
      }
    }
  }

  /** The users handed to expiration are the chunk with some users left out. */
  lemma {:induction false} SelectedIsSubsequence(batch: seq<UserRecord>, fs: FileSystem)
    ensures IsSubsequence(Selected(batch, fs), batch)
    decreases |batch|
  {
    if batch != [] {
      var init, last := batch[..|batch| - 1], batch[|batch| - 1];
      SelectedIsSubsequence(init, fs);
      var chosen := Selected(init, fs);
      if Expirable(last, fs) {
        assert Selected(batch, fs) == chosen + [last];
        assert (chosen + [last])[..|chosen|] == chosen;
      } else {
        assert Selected(batch, fs) == chosen;
        assert IsSubsequence(chosen, batch[..|batch| - 1]);
      }
    }
  }

  lemma UidsLength(users: seq<UserRecord>)
    ensures |Uids(users)| == |users|
  {
  }

  lemma {:induction false} UidsPreserveSubsequence(xs: seq<UserRecord>, ys: seq<UserRecord>)
    requires IsSubsequence(xs, ys)
    ensures IsSubsequence(Uids(xs), Uids(ys))
    decreases |ys|
  {
    if xs != [] {
      var ysInit := ys[..|ys| - 1];
      var ids := Uids(ysInit);
      assert Uids(ys) == ids + [ys[|ys| - 1].uid];
      assert (ids + [ys[|ys| - 1].uid])[..|ids|] == ids;
      if IsSubsequence(xs, ysInit) {
        UidsPreserveSubsequence(xs, ysInit);
      } else {
        var xsInit := xs[..|xs| - 1];
        UidsPreserveSubsequence(xsInit, ysInit);
        var xids := Uids(xsInit);
        assert Uids(xs) == xids + [xs[|xs| - 1].uid];
        assert (xids + [xs[|xs| - 1].uid])[..|xids|] == xids;
      }
    }
  }

  /** A user is selected exactly when it is in the chunk and expirable. */
  lemma {:induction false} SelectedMembership(batch: seq<UserRecord>, fs: FileSystem, user: UserRecord)
    ensures user in Selected(batch, fs) <==> user in batch && Expirable(user, fs)
    decreases |batch|
  {
    if batch != [] {
      var init := batch[..|batch| - 1];
      SelectedMembership(init, fs, user);
      assert batch == init + [batch[|batch| - 1]];
    }
  }

  lemma {:induction false} UidsMembership(users: seq<UserRecord>, uid: string)
    ensures uid in Uids(users) <==> exists user :: user in users && user.uid == uid
    decreases |users|
  {
    if users != [] {
      var init := users[..|users| - 1];
      UidsMembership(init, uid);
      assert users == init + [users[|users| - 1]];
    }
  }

  /**
   * An identifier is handed to expiration exactly when some user of the chunk
   * carrying it has logged in at least once and is not skipped by SetupFS.
   */
  lemma ExpiredExactly(batch: seq<UserRecord>, fs: FileSystem, uid: string)
    ensures uid in Uids(Selected(batch, fs))
        <==> exists user :: user in batch && user.uid == uid && user.lastLogin != 0 && SetupFS(fs, user.uid)
  {
    var chosen := Selected(batch, fs);
    UidsMembership(chosen, uid);
    if uid in Uids(chosen) {
      var user :| user in chosen && user.uid == uid;
      SelectedMembership(batch, fs, user);
    }
    if exists user :: user in batch && user.uid == uid && user.lastLogin != 0 && SetupFS(fs, user.uid) {
      var user :| user in batch && user.uid == uid && user.lastLogin != 0 && SetupFS(fs, user.uid);
      SelectedMembership(batch, fs, user);
    }
  }

  /** A user who never logged in is never handed to expiration. */
  lemma NeverLoggedInIsSkipped(batch: seq<UserRecord>, fs: FileSystem, user: UserRecord)
    requires user.lastLogin == 0
    ensures user !in Selected(batch, fs)
  {
    SelectedMembership(batch, fs, user);
  }

  /** Selecting from two pieces of a population is selecting from the whole. */
  lemma {:induction false} SelectedAppend(xs: seq<UserRecord>, ys: seq<UserRecord>, fs: FileSystem)
    ensures Selected(xs + ys, fs) == Selected(xs, fs) + Selected(ys, fs)
    decreases |ys|
  {
    if ys == [] {
      assert xs + ys == xs;
    } else {
      var init := ys[..|ys| - 1];
      SelectedAppend(xs, init, fs);
      assert (xs + ys)[..|xs + ys| - 1] == xs + init;
    }
  }

  lemma {:induction false} UidsAppend(xs: seq<UserRecord>, ys: seq<UserRecord>)
    ensures Uids(xs + ys) == Uids(xs) + Uids(ys)
    decreases |ys|
  {
    if ys == [] {
      assert xs + ys == xs;
    } else {
      var init := ys[..|ys| - 1];
      UidsAppend(xs, init);
      assert (xs + ys)[..|xs + ys| - 1] == xs + init;
    }
  }

  /** With expiration disabled a run changes nothing and expires nobody. */
  lemma DisabledRunIsNoop(checkpoint: nat, maxAge: Option<int>, incrementFails: bool,
                          users: seq<UserRecord>, fs: FileSystem)
    requires !Enabled(maxAge)
    ensures RunSpec(checkpoint, maxAge, incrementFails, users, fs) == Outcome(checkpoint, [])
  {
  }

  /** A null answer to the increment wraps the offset and expires nobody. */
  lemma NullIncrementWraps(checkpoint: nat, maxAge: Option<int>, users: seq<UserRecord>, fs: FileSystem)
    requires Enabled(maxAge)
    ensures RunSpec(checkpoint, maxAge, true, users, fs) == Outcome(0, [])
  {
  }

  /** A probe that finds no user at the chunk start wraps the offset. */
  lemma ExhaustedProbeWraps(checkpoint: nat, maxAge: Option<int>, users: seq<UserRecord>, fs: FileSystem)
    requires Enabled(maxAge)
    requires checkpoint >= |users|
    ensures RunSpec(checkpoint, maxAge, false, users, fs) == Outcome(0, [])
  {
  }

  /**
   * A probe that finds a user: the offset stays raised by one chunk, and the
   * users handed to expiration are, in order, some of the users of the
   * chunk `Chunk(users, checkpoint)` (1000 users from the checkpoint, cut at
   * the end of the population) — precisely those who logged in and are not
   * skipped.
   */
  lemma ProbeHitProcessesChunk(checkpoint: nat, maxAge: Option<int>, users: seq<UserRecord>, fs: FileSystem)
    requires Enabled(maxAge)
    requires checkpoint < |users|
    ensures var o := RunSpec(checkpoint, maxAge, false, users, fs);
      var slice := Chunk(users, checkpoint);
      && o.checkpoint == checkpoint + UsersPerSession
      && IsSubsequence(o.expired, Uids(slice))
      && |o.expired| <= UsersPerSession
      && (forall uid :: uid in o.expired <==>
            exists user :: user in slice && user.uid == uid && user.lastLogin != 0 && SetupFS(fs, uid))
  {
    var slice := Chunk(users, checkpoint);
    var o := RunSpec(checkpoint, maxAge, false, users, fs);
    assert o.expired == Uids(Selected(slice, fs));
    SelectedIsSubsequence(slice, fs);
    UidsPreserveSubsequence(Selected(slice, fs), slice);
    SubsequenceLength(o.expired, Uids(slice));
    UidsLength(slice);
    forall uid: string
      ensures uid in o.expired <==>
        exists user :: user in slice && user.uid == uid && user.lastLogin != 0 && SetupFS(fs, uid)
    {
      ExpiredExactly(slice, fs, uid);
    }
  }

  /**
   * A run started from a multiple of the chunk size ends at 0, where it
   * began, or one chunk further; so the offset stays a multiple of the
   * chunk size.
   */
  lemma RunKeepsAlignment(checkpoint: nat, maxAge: Option<int>, incrementFails: bool,
                          users: seq<UserRecord>, fs: FileSystem)
    requires checkpoint % UsersPerSession == 0
    ensures var o := RunSpec(checkpoint, maxAge, incrementFails, users, fs);
      && (o.checkpoint == 0 || o.checkpoint == checkpoint || o.checkpoint == checkpoint + UsersPerSession)
      && o.checkpoint % UsersPerSession == 0
  {
  }

  /** One call of the job, with what its collaborators answer at that call. */
  datatype Invocation = Invocation(maxAge: Option<int>, incrementFails: bool,
                                   users: seq<UserRecord>, fs: FileSystem)

  /**
   * The offset and the users expired, all runs together, after the calls
   * in order, each against its own threshold, store answer and population.
   */
  function Runs(checkpoint: nat, calls: seq<Invocation>): Outcome
  {
    if calls == [] then Outcome(checkpoint, [])
    else
      var before := Runs(checkpoint, calls[..|calls| - 1]);
      var c := calls[|calls| - 1];
      var last := RunSpec(before.checkpoint, c.maxAge, c.incrementFails, c.users, c.fs);
      Outcome(last.checkpoint, before.expired + last.expired)
  }

  /**
   * However the threshold, the store and the population behave from call to
   * call, an offset that starts as a multiple of the chunk size stays one.
   */
  lemma {:induction false} RunsKeepAlignment(checkpoint: nat, calls: seq<Invocation>)
    requires checkpoint % UsersPerSession == 0
    ensures Runs(checkpoint, calls).checkpoint % UsersPerSession == 0
    decreases |calls|
  {
    if calls != [] {
      var before := Runs(checkpoint, calls[..|calls| - 1]);
      var c := calls[|calls| - 1];
      RunsKeepAlignment(checkpoint, calls[..|calls| - 1]);
      RunKeepsAlignment(before.checkpoint, c.maxAge, c.incrementFails, c.users, c.fs);
    }
  }
}
