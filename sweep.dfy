/**
 * Many runs against one unchanging population, each with expiration enabled
 * and the increment answered, each asking the filesystem afresh: how the
 * chunks of successive runs tile the population, what each run expires and
 * when the offset wraps.
 */
module Sweep {
  import opened Wrappers
  import opened BackgroundJob
  import opened RunProperties

  // The literals 1000 and 999 in NumChunks and ChunkStart stand for
  // UsersPerSession and UsersPerSession - 1. They are written out on purpose:
  // a product with a literal stays linear arithmetic for the solver, whereas
  // a product with the named constant does not.

  /** The number of runs needed to reach every user: ceil(|users| / 1000). */
  function NumChunks(population: nat): nat
  {
    (population + 999) / 1000
  }

  /** Where run k of a cycle from offset 0 starts: k * UsersPerSession. */
  function ChunkStart(k: nat): nat
  {
    k * 1000
  }

  lemma NumChunksBounds(population: nat)
    ensures ChunkStart(NumChunks(population)) >= population
    ensures NumChunks(population) > 0 ==> ChunkStart(NumChunks(population) - 1) < population
  {
  }

  /** Every run of a cycle but the wrap starts inside the population. */
  lemma ChunkStartInside(k: nat, population: nat)
    requires k < NumChunks(population)
    ensures ChunkStart(k) < population
  {
    NumChunksBounds(population);
    assert k <= NumChunks(population) - 1;
  }

  /**
   * Every call has expiration enabled, gets an answer to the increment and
   * sees the population `users`; each call sees its own filesystem.
   */
  predicate AnsweredOn(calls: seq<Invocation>, users: seq<UserRecord>)
  {
    forall i :: 0 <= i < |calls| ==>
      Enabled(calls[i].maxAge) && !calls[i].incrementFails && calls[i].users == users
  }

  /** Every call sees the filesystem `fs`. */
  predicate OneFileSystem(calls: seq<Invocation>, fs: FileSystem)
  {
    forall i :: 0 <= i < |calls| ==> calls[i].fs == fs
  }

  /** The offset alone after that many answered runs against `users`. */
  function Offset(checkpoint: nat, calls: seq<Invocation>, users: seq<UserRecord>): nat
  {
    if calls == [] then checkpoint
    else NextOffset(Offset(checkpoint, calls[..|calls| - 1], users), users)
  }

  /** The users fetched by those runs, run after run. */
  function Fetched(checkpoint: nat, calls: seq<Invocation>, users: seq<UserRecord>): seq<UserRecord>
  {
    if calls == [] then []
    else
      var init := calls[..|calls| - 1];
      Fetched(checkpoint, init, users) + Batch(Offset(checkpoint, init, users), users)
  }

  /**
   * The uids those runs hand to expiration, run after run: each run's batch
   * filtered against the filesystem that run sees.
   */
  function Handed(checkpoint: nat, calls: seq<Invocation>, users: seq<UserRecord>): seq<string>
  {
    if calls == [] then []
    else
      var init := calls[..|calls| - 1];
      Handed(checkpoint, init, users)
        + Uids(Selected(Batch(Offset(checkpoint, init, users), users), calls[|calls| - 1].fs))
  }

  /** One more answered run moves the offset as the offset trajectory does. */
  lemma RunsOffsetStep(checkpoint: nat, calls: seq<Invocation>, users: seq<UserRecord>)
    requires calls != [] && AnsweredOn(calls, users)
    requires Runs(checkpoint, calls[..|calls| - 1]).checkpoint == Offset(checkpoint, calls[..|calls| - 1], users)
    ensures Runs(checkpoint, calls).checkpoint == Offset(checkpoint, calls, users)
  {
    assert AnsweredOn(calls[..|calls| - 1], users);
  }

  /**
   * Over answered runs from any offset, the offset follows `Offset`,
   * whatever filesystem each run sees.
   */
  lemma {:induction false} RunsOffset(checkpoint: nat, calls: seq<Invocation>, users: seq<UserRecord>)
    requires AnsweredOn(calls, users)
    ensures Runs(checkpoint, calls).checkpoint == Offset(checkpoint, calls, users)
    decreases |calls|
  {
    if calls != [] {
      var init := calls[..|calls| - 1];
      assert AnsweredOn(init, users);
      RunsOffset(checkpoint, init, users);
      RunsOffsetStep(checkpoint, calls, users);
    }
  }

  /** One more answered run hands on the users of its batch that its own filesystem lets through. */
  lemma RunsHandedStep(checkpoint: nat, calls: seq<Invocation>, users: seq<UserRecord>)
    requires calls != [] && AnsweredOn(calls, users)
    requires Runs(checkpoint, calls[..|calls| - 1]).checkpoint == Offset(checkpoint, calls[..|calls| - 1], users)
    requires Runs(checkpoint, calls[..|calls| - 1]).expired == Handed(checkpoint, calls[..|calls| - 1], users)
    ensures Runs(checkpoint, calls).expired == Handed(checkpoint, calls, users)
  {
    assert AnsweredOn(calls[..|calls| - 1], users);
  }

  /**
   * Over answered runs from any offset, the uids handed to expiration are
   * those of `Handed`: run after run, the expirable users of the batch the
   * run fetched, judged against the filesystem of that run.
   */
  lemma {:induction false} RunsExpireHanded(checkpoint: nat, calls: seq<Invocation>, users: seq<UserRecord>)
    requires AnsweredOn(calls, users)
    ensures Runs(checkpoint, calls).expired == Handed(checkpoint, calls, users)
    decreases |calls|
  {
    if calls != [] {
      var init := calls[..|calls| - 1];
      assert AnsweredOn(init, users);
      RunsExpireHanded(checkpoint, init, users);
      RunsOffset(checkpoint, init, users);
      RunsHandedStep(checkpoint, calls, users);
    }
  }

  /**
   * When every run sees the same filesystem, the per-run selections add up
   * to one selection over everything fetched, in fetch order.
   */
  lemma {:induction false} HandedOnOneFileSystem(checkpoint: nat, calls: seq<Invocation>, users: seq<UserRecord>, fs: FileSystem)
    requires OneFileSystem(calls, fs)
    ensures Handed(checkpoint, calls, users) == Uids(Selected(Fetched(checkpoint, calls, users), fs))
    decreases |calls|
  {
    if calls != [] {
      var init := calls[..|calls| - 1];
      assert OneFileSystem(init, fs);
      HandedOnOneFileSystem(checkpoint, init, users, fs);
      var done := Fetched(checkpoint, init, users);
      var batch := Batch(Offset(checkpoint, init, users), users);
      assert Fetched(checkpoint, calls, users) == done + batch;
      assert calls[|calls| - 1].fs == fs;
      SelectedAppend(done, batch, fs);
      UidsAppend(Selected(done, fs), Selected(batch, fs));
    }
  }

  /**
   * Over answered runs that all see one filesystem, the users handed to
   * expiration are exactly the expirable users among all the users those
   * runs fetched, in the order fetched.
   */
  lemma RunsExpireFetched(checkpoint: nat, calls: seq<Invocation>, users: seq<UserRecord>, fs: FileSystem)
    requires AnsweredOn(calls, users) && OneFileSystem(calls, fs)
    ensures Runs(checkpoint, calls).expired == Uids(Selected(Fetched(checkpoint, calls, users), fs))
  {
    RunsExpireHanded(checkpoint, calls, users);
    HandedOnOneFileSystem(checkpoint, calls, users, fs);
  }

  /** From offset 0, run k starts at k * 1000 for k up to the number of chunks. */
  lemma {:induction false} OffsetInCycle(calls: seq<Invocation>, users: seq<UserRecord>)
    requires |calls| <= NumChunks(|users|)
    ensures Offset(0, calls, users) == ChunkStart(|calls|)
    decreases |calls|
  {
    if calls != [] {
      OffsetInCycle(calls[..|calls| - 1], users);
      ChunkStartInside(|calls| - 1, |users|);
    }
  }

  /**
   * From offset 0, the first k runs (k at most the number of chunks) have
   * fetched exactly the first k * 1000 users, cut at the end of the
   * population, in order and each once.
   */
  lemma {:induction false} FetchedPrefix(calls: seq<Invocation>, users: seq<UserRecord>)
    requires |calls| <= NumChunks(|users|)
    ensures Fetched(0, calls, users) == users[..Min(ChunkStart(|calls|), |users|)]
    decreases |calls|
  {
    if calls != [] {
      var init := calls[..|calls| - 1];
      FetchedPrefix(init, users);
      OffsetInCycle(init, users);
      ChunkStartInside(|init|, |users|);
      var start, stop := ChunkStart(|init|), Min(ChunkStart(|calls|), |users|);
      assert Batch(start, users) == users[start..stop];
      assert Min(start, |users|) == start;
      assert users[..stop] == users[..start] + users[start..stop];
    }
  }

  /** Run i of a cycle from offset 0 hands on `uid` from its chunk, judged on its own filesystem. */
  predicate HandedBy(calls: seq<Invocation>, users: seq<UserRecord>, uid: string, i: nat)
    requires i < |calls|
  {
    uid in Uids(Selected(Batch(ChunkStart(i), users), calls[i].fs))
  }

  /** Within a cycle, one more run appends what it hands on from its own chunk. */
  lemma HandedAppend(init: seq<Invocation>, last: Invocation, users: seq<UserRecord>)
    requires |init| < NumChunks(|users|)
    ensures Handed(0, init + [last], users)
         == Handed(0, init, users) + Uids(Selected(Batch(ChunkStart(|init|), users), last.fs))
  {
    var calls := init + [last];
    assert calls[..|init|] == init;
    OffsetInCycle(init, users);
  }

  /** One more run of the cycle adds exactly what that run hands on. */
  lemma HandedMembershipStep(init: seq<Invocation>, last: Invocation, users: seq<UserRecord>, uid: string)
    requires |init| < NumChunks(|users|)
    requires uid in Handed(0, init, users) <==> exists i :: 0 <= i < |init| && HandedBy(init, users, uid, i)
    ensures uid in Handed(0, init + [last], users) <==>
      exists i :: 0 <= i < |init| + 1 && HandedBy(init + [last], users, uid, i)
  {
    var calls, n := init + [last], |init|;
    var tail := Uids(Selected(Batch(ChunkStart(n), users), last.fs));
    HandedAppend(init, last, users);
    assert uid in Handed(0, calls, users) <==> uid in Handed(0, init, users) || uid in tail;
    assert calls[n] == last;
    assert HandedBy(calls, users, uid, n) <==> uid in tail;
    if uid in Handed(0, init, users) {
      var i :| 0 <= i < n && HandedBy(init, users, uid, i);
      assert calls[i] == init[i];
      assert HandedBy(calls, users, uid, i);
    } else if uid in tail {
      assert HandedBy(calls, users, uid, n);
    } else {
      forall i | 0 <= i < n + 1
        ensures !HandedBy(calls, users, uid, i)
      {
        if i < n {
          assert calls[i] == init[i];
          assert !HandedBy(init, users, uid, i);
        }
      }
    }
  }

  /**
   * From offset 0, within the first k runs (k at most the number of chunks),
   * a uid is handed to expiration iff some run i among them hands it on
   * from chunk i, judged on the filesystem run i saw.
   */
  lemma {:induction false} HandedMembership(calls: seq<Invocation>, users: seq<UserRecord>, uid: string)
    requires |calls| <= NumChunks(|users|)
    ensures uid in Handed(0, calls, users) <==> exists i :: 0 <= i < |calls| && HandedBy(calls, users, uid, i)
    decreases |calls|
  {
    if calls != [] {
      var init := calls[..|calls| - 1];
      assert calls == init + [calls[|calls| - 1]];
      HandedMembership(init, users, uid);
      HandedMembershipStep(init, calls[|calls| - 1], users, uid);
    }
  }

  /**
   * Run i hands on `uid` iff its chunk holds a user with that uid who had
   * logged in and whom the filesystem run i saw does not skip.
   */
  lemma HandedByExactly(calls: seq<Invocation>, users: seq<UserRecord>, uid: string, i: nat)
    requires i < |calls|
    ensures HandedBy(calls, users, uid, i) <==>
      exists user :: user in Batch(ChunkStart(i), users) && user.uid == uid &&
        user.lastLogin != 0 && SetupFS(calls[i].fs, user.uid)
  {
    ExpiredExactly(Batch(ChunkStart(i), users), calls[i].fs, uid);
  }

  /** A run from the start of chunk k, inside the population, handles chunk k. */
  lemma RunFromChunkStart(k: nat, maxAge: Option<int>, users: seq<UserRecord>, fs: FileSystem)
    requires Enabled(maxAge)
    requires k < NumChunks(|users|)
    ensures RunSpec(ChunkStart(k), maxAge, false, users, fs)
         == Outcome(ChunkStart(k + 1), Uids(Selected(users[ChunkStart(k)..Min(ChunkStart(k + 1), |users|)], fs)))
  {
    ChunkStartInside(k, |users|);
    assert Batch(ChunkStart(k), users) == users[ChunkStart(k)..Min(ChunkStart(k + 1), |users|)];
  }

  /**
   * Run k of a cycle from offset 0, for k below the number of chunks, starts
   * at k * 1000, finds a user there and handles the chunk
   * users[k * 1000 .. (k + 1) * 1000] (cut at the end of the population)
   * against the filesystem it sees.
   */
  lemma RunOfCycle(calls: seq<Invocation>, next: Invocation, users: seq<UserRecord>)
    requires AnsweredOn(calls + [next], users)
    requires |calls| < NumChunks(|users|)
    ensures var k := |calls|;
      && Runs(0, calls).checkpoint == ChunkStart(k) < |users|
      && RunSpec(ChunkStart(k), next.maxAge, next.incrementFails, users, next.fs)
         == Outcome(ChunkStart(k + 1), Uids(Selected(users[ChunkStart(k)..Min(ChunkStart(k + 1), |users|)], next.fs)))
  {
    var k := |calls|;
    assert (calls + [next])[..k] == calls;
    assert AnsweredOn(calls, users);
    assert (calls + [next])[k] == next;
    RunsOffset(0, calls, users);
    OffsetInCycle(calls, users);
    ChunkStartInside(k, |users|);
    RunFromChunkStart(k, next.maxAge, users, next.fs);
  }

  /**
   * A full cycle: from offset 0, the first ceil(P / 1000) answered runs
   * fetch the whole population once, in order, with no gap and no overlap,
   * and leave the offset at the first multiple of 1000 at or past the end.
   * A uid is expired in the cycle iff the run whose chunk holds a user with
   * that uid found the user expirable on the filesystem it saw.
   */
  lemma FullCycle(calls: seq<Invocation>, users: seq<UserRecord>)
    requires AnsweredOn(calls, users)
    requires |calls| == NumChunks(|users|)
    ensures Runs(0, calls).checkpoint == ChunkStart(|calls|) >= |users|
    ensures Fetched(0, calls, users) == users
    ensures Runs(0, calls).expired == Handed(0, calls, users)
    ensures forall uid :: uid in Runs(0, calls).expired <==>
      exists i :: 0 <= i < |calls| && HandedBy(calls, users, uid, i)
  {
    RunsOffset(0, calls, users);
    RunsExpireHanded(0, calls, users);
    OffsetInCycle(calls, users);
    FetchedPrefix(calls, users);
    NumChunksBounds(|users|);
    assert users[..Min(ChunkStart(|calls|), |users|)] == users;
    forall uid: string
      ensures uid in Handed(0, calls, users) <==> exists i :: 0 <= i < |calls| && HandedBy(calls, users, uid, i)
    {
      HandedMembership(calls, users, uid);
    }
  }

  /**
   * A full cycle whose runs all see one filesystem expires exactly the
   * expirable users of the population, each once, in population order.
   */
  lemma FullCycleOnOneFileSystem(calls: seq<Invocation>, users: seq<UserRecord>, fs: FileSystem)
    requires AnsweredOn(calls, users) && OneFileSystem(calls, fs)
    requires |calls| == NumChunks(|users|)
    ensures Runs(0, calls).expired == Uids(Selected(users, fs))
  {
    FullCycle(calls, users);
    HandedOnOneFileSystem(0, calls, users, fs);
  }

  /**
   * The run after a full cycle probes past the end, expires nobody and
   * resets the offset to 0, where the cycle began, whatever filesystem it
   * and the runs before it see.
   */
  lemma WrapAfterCycle(calls: seq<Invocation>, next: Invocation, users: seq<UserRecord>)
    requires AnsweredOn(calls + [next], users)
    requires |calls| == NumChunks(|users|)
    ensures Runs(0, calls + [next]) == Outcome(0, Handed(0, calls, users))
  {
    var n := |calls|;
    assert (calls + [next])[..n] == calls;
    assert AnsweredOn(calls, users);
    assert (calls + [next])[n] == next;
    FullCycle(calls, users);
    var before := Runs(0, calls);
    var last := RunSpec(before.checkpoint, next.maxAge, next.incrementFails, next.users, next.fs);
    assert last == Outcome(0, []);
    assert Runs(0, calls + [next]) == Outcome(last.checkpoint, before.expired + last.expired);
    assert before.expired + [] == before.expired;
  }
}
