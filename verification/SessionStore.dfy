/**
 The session manager's methods (internal/session/manager.go) one call after another: the counter is
 the number of sessions, the limit holds, and cleanup removes exactly the sessions that are due.
 */
module SessionStore {
  import opened Text
  import opened SessionManager

  datatype Session = Session(createdAt: int, lastActivityAt: int, requestCount: nat)

  type Sessions = map<SessionId, Session>

  const DEFAULT_TTL := 7_200_000_000_000
  const DEFAULT_MAX := 10000

  /** Division by two that rounds toward zero. */
  function Half(n: int): int {
    if n < 0 then -(-n / 2) else n / 2
  }

  /** Closed, older than the limit, or idle for more than half of it. */
  predicate Due(s: Session, closed: bool, now: int, ttl: int) {
    closed || now - s.createdAt > ttl || now - s.lastActivityAt > Half(ttl)
  }

  function Kept(sessions: Sessions, closed: set<SessionId>, now: int, ttl: int): Sessions {
    map id | id in sessions && !Due(sessions[id], id in closed, now, ttl) :: sessions[id]
  }

  /** A session survives a cleanup exactly when it is open, at most one lifetime old, and was active at
      most half a lifetime ago; with a negative lifetime none does. */
  lemma {:induction false} SurvivesIff(sessions: Sessions, closed: set<SessionId>, now: int, ttl: int, id: SessionId)
    ensures id in Kept(sessions, closed, now, ttl) ==> id in sessions && Kept(sessions, closed, now, ttl)[id] == sessions[id]
    ensures ttl >= 0 ==>
      (id in Kept(sessions, closed, now, ttl) <==>
         id in sessions && id !in closed && now <= sessions[id].createdAt + ttl && 2 * (now - sessions[id].lastActivityAt) <= ttl)
    ensures ttl < 0 && id in sessions && sessions[id].createdAt <= now ==> id !in Kept(sessions, closed, now, ttl)
  {
  }

  lemma {:induction false} RemovingOne(sessions: Sessions, id: SessionId)
    requires id in sessions
    ensures |sessions - {id}| == |sessions| - 1
  {
    assert (sessions - {id}).Keys == sessions.Keys - {id};
  }

  /** Cleaning up again at the same time removes nothing more, and later times keep no more. */
  lemma {:induction false} CleanupIsMonotone(sessions: Sessions, closed: set<SessionId>, more: set<SessionId>, now: int, later: int, ttl: int)
    requires now <= later && closed <= more
    ensures Kept(Kept(sessions, closed, now, ttl), more, later, ttl) == Kept(sessions, more, later, ttl)
  {
    forall id | id in Kept(sessions, more, later, ttl) ensures id in Kept(sessions, closed, now, ttl) {
      assert !Due(sessions[id], id in more, later, ttl);
    }
  }

  /** What cleanup has left when it has still to look at `todo`. */
  function Remaining(was: Sessions, closed: set<SessionId>, todo: set<SessionId>, now: int, ttl: int): Sessions {
    map id | id in was && (id in todo || !Due(was[id], id in closed, now, ttl)) :: was[id]
  }

  lemma {:induction false} CleanupStep(was: Sessions, closed: set<SessionId>, todo: set<SessionId>, id: SessionId, now: int, ttl: int)
    requires todo <= was.Keys && id in todo
    ensures var left := Remaining(was, closed, todo, now, ttl);
      && id in left && left[id] == was[id]
      && Remaining(was, closed, todo - {id}, now, ttl) ==
           if Due(was[id], id in closed, now, ttl) then left - {id} else left
  {
  }

  /** The closed sessions once only `left` remain. */
  function Shut(was: Sessions, closed: set<SessionId>, left: Sessions): set<SessionId> {
    closed + (was.Keys - left.Keys)
  }

  lemma {:induction false} ShutStep(was: Sessions, closed: set<SessionId>, left: Sessions, id: SessionId)
    requires id in left && id in was
    ensures Shut(was, closed, left - {id}) == Shut(was, closed, left) + {id}
    ensures id in Shut(was, closed, left) <==> id in closed
  {
  }

  lemma {:induction false} CleanupEnds(was: Sessions, closed: set<SessionId>, now: int, ttl: int)
    ensures Remaining(was, closed, was.Keys, now, ttl) == was
    ensures Remaining(was, closed, {}, now, ttl) == Kept(was, closed, now, ttl)
  {
  }

  class Manager {
    const ttl: int
    const maxSessions: int
    var sessions: Sessions
    var closed: set<SessionId>
    var activeCount: int
    var totalCreated: nat

    ghost predicate Valid()
      reads this
    {
      activeCount == |sessions| <= Room(maxSessions) && activeCount <= totalCreated
    }

    constructor (ttl: int, maxSessions: int)
      ensures Valid() && sessions == map[] && closed == {} && totalCreated == 0
      ensures this.ttl == (if ttl == 0 then DEFAULT_TTL else ttl)
      ensures this.maxSessions == (if maxSessions == 0 then DEFAULT_MAX else maxSessions)
    {
      this.ttl := if ttl == 0 then DEFAULT_TTL else ttl;
      this.maxSessions := if maxSessions == 0 then DEFAULT_MAX else maxSessions;
      sessions, closed, activeCount, totalCreated := map[], {}, 0, 0;
    }

    /** `id` is the identifier drawn for the session. */
    method Create(id: SessionId, now: int) returns (created: Option<Session>)
      requires Valid() && id !in sessions
      modifies this
      ensures Valid() && closed == old(closed)
      ensures created.Some? <==> |old(sessions)| < maxSessions
      ensures created.Some? ==> sessions == old(sessions)[id := Session(now, now, 0)] && totalCreated == old(totalCreated) + 1
      ensures created.Some? ==> created.value == sessions[id]
      ensures created.None? ==> sessions == old(sessions) && totalCreated == old(totalCreated)
    {
      if activeCount >= maxSessions {
        return None;
      }
      var session := Session(now, now, 0);
      sessions := sessions[id := session];
      activeCount := activeCount + 1;
      totalCreated := totalCreated + 1;
      created := Some(session);
    }

    method Delete(id: SessionId)
      requires Valid()
      modifies this
      ensures Valid() && totalCreated == old(totalCreated)
      ensures sessions == old(sessions) - {id}
      ensures closed == if id in old(sessions) then old(closed) + {id} else old(closed)
    {
      if id in sessions {
        RemovingOne(sessions, id);
        sessions := sessions - {id};
        closed := closed + {id};
        activeCount := activeCount - 1;
      }
      assert id !in old(sessions) ==> sessions == old(sessions) - {id};
    }

    /** A closed session is never handed out, and is deleted on the way. */
    method Get(id: SessionId) returns (found: Option<Session>)
      requires Valid()
      modifies this
      ensures Valid() && totalCreated == old(totalCreated) && closed == old(closed)
      ensures found.Some? <==> id in old(sessions) && id !in old(closed)
      ensures found.Some? ==> found.value == old(sessions)[id]
      ensures sessions == if id in old(closed) then old(sessions) - {id} else old(sessions)
    {
      if id !in sessions {
        assert sessions == sessions - {id};
        return None;
      }
      found := Some(sessions[id]);
      if id in closed {
        Delete(id);
        assert closed == old(closed);
        return None;
      }
    }

    method IncrementRequestCount(id: SessionId, now: int) returns (count: nat)
      requires Valid()
      modifies this
      ensures Valid() && totalCreated == old(totalCreated)
      ensures id in old(sessions) && id !in old(closed) ==>
        && count == old(sessions)[id].requestCount + 1
        && sessions == old(sessions)[id := Session(old(sessions)[id].createdAt, now, count)]
      ensures !(id in old(sessions) && id !in old(closed)) ==> count == 0
    {
      var found := Get(id);
      if found.None? {
        return 0;
      }
      count := found.value.requestCount + 1;
      sessions := sessions[id := found.value.(requestCount := count, lastActivityAt := now)];
      assert sessions.Keys == old(sessions).Keys;
    }

    /** cleanup's removal of a session it found. */
    method Remove(id: SessionId)
      requires Valid() && id in sessions
      modifies this
      ensures Valid() && totalCreated == old(totalCreated)
      ensures sessions == old(sessions) - {id} && closed == old(closed) + {id}
    {
      RemovingOne(sessions, id);
      closed := closed + {id};
      sessions := sessions - {id};
      activeCount := activeCount - 1;
    }

    method Cleanup(now: int)
      requires Valid()
      modifies this
      ensures Valid() && totalCreated == old(totalCreated)
      ensures sessions == Kept(old(sessions), old(closed), now, ttl)
      ensures closed == Shut(old(sessions), old(closed), sessions)
      ensures ttl >= 0 ==> forall id ::
        id in sessions <==>
          && id in old(sessions) && id !in old(closed)
          && now <= old(sessions)[id].createdAt + ttl && 2 * (now - old(sessions)[id].lastActivityAt) <= ttl
    {
      ghost var was, shut := sessions, closed;
      CleanupEnds(was, shut, now, ttl);
      assert closed == Shut(was, shut, was);
      var todo := sessions.Keys;
      while todo != {}
        invariant Valid() && totalCreated == old(totalCreated) && todo <= was.Keys
        invariant sessions == Remaining(was, shut, todo, now, ttl)
        invariant closed == Shut(was, shut, sessions)
        decreases |todo|
      {
        var id :| id in todo;
        CleanupStep(was, shut, todo, id, now, ttl);
        ShutStep(was, shut, sessions, id);
        todo := todo - {id};
        if Due(sessions[id], id in closed, now, ttl) {
          Remove(id);
        }
      }
    }
  }
}
