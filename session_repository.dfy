/**
 * The login-session store's capacity rule (backend/src/repositories/SessionRepository.ts):
 * before a new session is created for a user, `ensureCapacity` deletes that
 * user's oldest sessions until fewer than `MAX_ACTIVE_SESSIONS` remain.
 *
 * The store is the list `sessions` of the class `SessionRepository`, in
 * insertion order. Session ids are random UUIDs, so the store keeps them
 * unique (`Valid`).
 */
module SessionRepository {
  import opened Wrappers

  const MAX_ACTIVE_SESSIONS: nat := 5

  datatype Session = Session(userId: string, sessionId: string, createdAt: int)

  predicate UniqueSessionIds(ss: seq<Session>) {
    forall i, j :: 0 <= i < j < |ss| ==> ss[i].sessionId != ss[j].sessionId
  }

  /** `countByUser(userId)`. */
  function CountByUser(ss: seq<Session>, userId: string): (n: nat)
    ensures n <= |ss|
  {
    if ss == [] then 0 else (if ss[0].userId == userId then 1 else 0) + CountByUser(ss[1..], userId)
  }

  /** The sessions of one user, in store order. */
  function SessionsOf(ss: seq<Session>, userId: string): (r: seq<Session>)
    ensures |r| == CountByUser(ss, userId)
    ensures forall x :: x in r <==> x in ss && x.userId == userId
  {
    if ss == [] then []
    else if ss[0].userId == userId then [ss[0]] + SessionsOf(ss[1..], userId)
    else SessionsOf(ss[1..], userId)
  }

  /**
   * `findOldestByUser(userId)`: the position of a session of that user with
   * the least `createdAt`. The database leaves the order of equal timestamps
   * open; taking the earliest in the store is this model's choice.
   */
  function OldestIndex(ss: seq<Session>, userId: string): (r: Option<nat>)
    ensures r.None? <==> CountByUser(ss, userId) == 0
    ensures r.None? ==> forall j :: 0 <= j < |ss| ==> ss[j].userId != userId
    ensures r.Some? ==> r.value < |ss| && ss[r.value].userId == userId
    ensures r.Some? ==> forall j :: 0 <= j < |ss| && ss[j].userId == userId ==> ss[r.value].createdAt <= ss[j].createdAt
  {
    if ss == [] then None
    else
      var rest := OldestIndex(ss[1..], userId);
      assert forall j :: 1 <= j < |ss| ==> ss[j] == ss[1..][j - 1];
      if ss[0].userId != userId then
        if rest.None? then None else Some(rest.value + 1)
      else if rest.None? || ss[0].createdAt <= ss[rest.value + 1].createdAt then Some(0)
      else Some(rest.value + 1)
  }

  function RemoveAt(ss: seq<Session>, i: nat): (r: seq<Session>)
    requires i < |ss|
    ensures |r| == |ss| - 1
    ensures forall x :: x in ss && x != ss[i] ==> x in r
    ensures forall x :: x in r ==> x in ss
  {
    ss[..i] + ss[i + 1..]
  }

  /** `deleteById(sessionId)` (`deleteOne`): the first session with that id goes; nothing when there is none. */
  function DeleteById(ss: seq<Session>, sessionId: string): (r: seq<Session>)
    ensures forall x :: x in r ==> x in ss
    ensures |r| <= |ss|
    ensures (forall x :: x in ss ==> x.sessionId != sessionId) ==> r == ss
    ensures (exists x :: x in ss && x.sessionId == sessionId) ==> |r| == |ss| - 1
  {
    if ss == [] then []
    else if ss[0].sessionId == sessionId then ss[1..]
    else [ss[0]] + DeleteById(ss[1..], sessionId)
  }

  /** The loop body, repeated `n` times: delete the user's oldest session, stopping early when there is none. */
  function EvictOldest(ss: seq<Session>, userId: string, n: nat): seq<Session>
    decreases n
  {
    if n == 0 then ss
    else
      match OldestIndex(ss, userId)
      case None => ss
      case Some(i) => EvictOldest(RemoveAt(ss, i), userId, n - 1)
  }

  /** `ensureCapacity(userId)`: nothing below the limit, otherwise `count - 5 + 1` evictions. */
  function EnsureCapacity(ss: seq<Session>, userId: string): seq<Session> {
    var count := CountByUser(ss, userId);
    if count < MAX_ACTIVE_SESSIONS then ss
    else EvictOldest(ss, userId, count - MAX_ACTIVE_SESSIONS + 1)
  }

  // ---------------------------------------------------------------------
  // Properties.

  /** With unique ids, deleting the id of the session at `i` removes exactly that position. */
  lemma {:induction false} DeleteByIdIsRemoveAt(ss: seq<Session>, i: nat)
    requires i < |ss| && UniqueSessionIds(ss)
    ensures DeleteById(ss, ss[i].sessionId) == RemoveAt(ss, i)
  {
    if i > 0 {
      assert ss[0].sessionId != ss[i].sessionId;
      assert UniqueSessionIds(ss[1..]) by {
        forall a, b | 0 <= a < b < |ss[1..]| ensures ss[1..][a].sessionId != ss[1..][b].sessionId {
          assert ss[1..][a] == ss[a + 1] && ss[1..][b] == ss[b + 1];
        }
      }
      DeleteByIdIsRemoveAt(ss[1..], i - 1);
      assert ss[1..][i - 1] == ss[i];
      assert ss[..i] == [ss[0]] + ss[1..][..i - 1];
      assert ss[i + 1..] == ss[1..][i..];
    }
  }

  lemma RemoveAtKeepsUnique(ss: seq<Session>, i: nat)
    requires i < |ss| && UniqueSessionIds(ss)
    ensures UniqueSessionIds(RemoveAt(ss, i))
  {
    var r := RemoveAt(ss, i);
    forall a, b | 0 <= a < b < |r| ensures r[a].sessionId != r[b].sessionId {
      var a', b' := if a < i then a else a + 1, if b < i then b else b + 1;
      assert r[a] == ss[a'] && r[b] == ss[b'];
    }
  }

  /** Removing one session lowers its owner's count by one and leaves every other user's count. */
  lemma {:induction false} CountRemoveAt(ss: seq<Session>, i: nat, userId: string)
    requires i < |ss|
    ensures CountByUser(RemoveAt(ss, i), userId)
         == CountByUser(ss, userId) - (if ss[i].userId == userId then 1 else 0)
  {
    if i > 0 {
      CountRemoveAt(ss[1..], i - 1, userId);
      assert RemoveAt(ss, i) == [ss[0]] + RemoveAt(ss[1..], i - 1);
      assert ss[1..][i - 1] == ss[i];
    } else {
      assert RemoveAt(ss, 0) == ss[1..];
    }
  }

  /** Removing a session of one user leaves every other user's sessions as they were. */
  lemma {:induction false} SessionsOfRemoveAt(ss: seq<Session>, i: nat, userId: string)
    requires i < |ss| && ss[i].userId != userId
    ensures SessionsOf(RemoveAt(ss, i), userId) == SessionsOf(ss, userId)
  {
    if i > 0 {
      SessionsOfRemoveAt(ss[1..], i - 1, userId);
      assert RemoveAt(ss, i) == [ss[0]] + RemoveAt(ss[1..], i - 1);
      assert ss[1..][i - 1] == ss[i];
    } else {
      assert RemoveAt(ss, 0) == ss[1..];
    }
  }

  /**
   * `n` evictions from a user with at least `n` sessions remove exactly `n`
   * of them, leave other users' sessions alone, and every session removed
   * is no newer than any session of that user that remains.
   */
  lemma {:induction false} EvictOldestSpec(ss: seq<Session>, userId: string, n: nat)
    requires n <= CountByUser(ss, userId)
    ensures var r := EvictOldest(ss, userId, n);
      CountByUser(r, userId) == CountByUser(ss, userId) - n
      && (forall x :: x in r ==> x in ss)
      && (forall v :: v != userId ==> SessionsOf(r, v) == SessionsOf(ss, v))
      && (forall x, y :: x in ss && x.userId == userId && x !in r && y in r && y.userId == userId
            ==> x.createdAt <= y.createdAt)
    decreases n
  {
    if n > 0 {
      var i := OldestIndex(ss, userId).value;
      var s1 := RemoveAt(ss, i);
      CountRemoveAt(ss, i, userId);
      EvictOldestSpec(s1, userId, n - 1);
      var r := EvictOldest(ss, userId, n);
      assert r == EvictOldest(s1, userId, n - 1);
      forall v | v != userId ensures SessionsOf(r, v) == SessionsOf(ss, v) {
        SessionsOfRemoveAt(ss, i, v);
      }
      forall x, y | x in ss && x.userId == userId && x !in r && y in r && y.userId == userId
        ensures x.createdAt <= y.createdAt
      {
        assert y in ss;
        if x != ss[i] {
          assert x in s1;
        } else {
          var j :| 0 <= j < |ss| && ss[j] == y;
        }
      }
    }
  }

  /** Below the limit, nothing is deleted. */
  lemma BelowLimitKeepsAll(ss: seq<Session>, userId: string)
    requires CountByUser(ss, userId) < MAX_ACTIVE_SESSIONS
    ensures EnsureCapacity(ss, userId) == ss
  {
  }

  /**
   * At or above the limit, the user is left with four sessions, the newest
   * ones, and nobody else loses any.
   */
  lemma AtLimitLeavesFour(ss: seq<Session>, userId: string)
    requires CountByUser(ss, userId) >= MAX_ACTIVE_SESSIONS
    ensures var r := EnsureCapacity(ss, userId);
      CountByUser(r, userId) == MAX_ACTIVE_SESSIONS - 1
      && (forall v :: v != userId ==> SessionsOf(r, v) == SessionsOf(ss, v))
      && (forall x, y :: x in ss && x.userId == userId && x !in r && y in r && y.userId == userId
            ==> x.createdAt <= y.createdAt)
  {
    EvictOldestSpec(ss, userId, CountByUser(ss, userId) - MAX_ACTIVE_SESSIONS + 1);
  }

  /** `ensureCapacity` followed by `create` never leaves a user with more than five sessions. */
  lemma CapacityThenCreate(ss: seq<Session>, userId: string, created: Session)
    requires created.userId == userId
    ensures var count := CountByUser(ss, userId);
      CountByUser(EnsureCapacity(ss, userId) + [created], userId)
        == if count < MAX_ACTIVE_SESSIONS then count + 1 else MAX_ACTIVE_SESSIONS
  {
    var r := EnsureCapacity(ss, userId);
    if CountByUser(ss, userId) >= MAX_ACTIVE_SESSIONS {
      AtLimitLeavesFour(ss, userId);
    }
    CountAppend(r, created, userId);
  }

  lemma {:induction false} CountAppend(ss: seq<Session>, s: Session, userId: string)
    ensures CountByUser(ss + [s], userId) == CountByUser(ss, userId) + (if s.userId == userId then 1 else 0)
  {
    if ss != [] {
      assert (ss + [s])[1..] == ss[1..] + [s];
      CountAppend(ss[1..], s, userId);
    } else {
      assert ([] + [s])[1..] == [];
    }
  }

  class SessionRepository {
    var sessions: seq<Session>

    ghost predicate Valid()
      reads this
    {
      UniqueSessionIds(sessions)
    }

    constructor ()
      ensures sessions == [] && Valid()
    {
      sessions := [];
    }

    /** `create(userId, sessionId)`; the id is a created UUID, unused in the store. */
    method Create(userId: string, sessionId: string, now: int)
      requires Valid()
      requires forall i :: 0 <= i < |sessions| ==> sessions[i].sessionId != sessionId
      modifies this
      ensures sessions == old(sessions) + [Session(userId, sessionId, now)] && Valid()
    {
      sessions := sessions + [Session(userId, sessionId, now)];
    }

    method DeleteByIdStep(sessionId: string)
      modifies this
      ensures sessions == DeleteById(old(sessions), sessionId)
    {
      sessions := DeleteById(sessions, sessionId);
    }

    /** `ensureCapacity(userId)`: the counting guard, then a bounded loop of find-oldest and delete. */
    method EnsureCapacityStep(userId: string)
      requires Valid()
      modifies this
      ensures sessions == EnsureCapacity(old(sessions), userId) && Valid()
    {
      var count := CountByUser(sessions, userId);
      if count < MAX_ACTIVE_SESSIONS {
        return;
      }
      var toRemove := count - MAX_ACTIVE_SESSIONS + 1;
      ghost var target := EnsureCapacity(sessions, userId);
      var i := 0;
      while i < toRemove
        invariant i <= toRemove
        invariant Valid()
        invariant EvictOldest(sessions, userId, toRemove - i) == target
      {
        var oldest := OldestIndex(sessions, userId);
        if oldest.None? {
          return;
        }
        DeleteByIdIsRemoveAt(sessions, oldest.value);
        RemoveAtKeepsUnique(sessions, oldest.value);
        DeleteByIdStep(sessions[oldest.value].sessionId);
        i := i + 1;
      }
    }
  }
}
