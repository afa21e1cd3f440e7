/**
 * The in-memory session registry: one map from session id to session
 * record, changed in place by create, add-user and delete.
 */
module Service {
  import opened Schema

  /** What the registry keeps per session id. */
  datatype SessionData = SessionData(users: seq<string>, createdAt: int, layout: FrameLayout)

  type Store = map<string, SessionData>

  /** Seconds the deferred expiry task waits before deleting a session. */
  const DefaultSessionDuration: nat := 600

  // ---------------------------------------------------------------------
  // The registry's transitions as functions of the whole map. The class
  // below is specified by them, and the lifecycle lemmas reason with them.
  // ---------------------------------------------------------------------

  /** The store after `create_session`: the id is (re)bound to a record with no users. */
  function Created(m: Store, id: string, layout: FrameLayout, now: int): (r: Store)
    ensures r.Keys == m.Keys + {id}
    ensures r[id] == SessionData([], now, layout)
    ensures forall k :: k in r && k != id ==> r[k] == m[k]
  {
    m[id := SessionData([], now, layout)]
  }

  /** The store after `add_user_to_session`: an append when the id is present, else nothing. */
  function WithUser(m: Store, id: string, user: string): (r: Store)
    ensures r.Keys == m.Keys
    ensures id in m ==> r[id] == SessionData(m[id].users + [user], m[id].createdAt, m[id].layout)
    ensures forall k :: k in r && k != id ==> r[k] == m[k]
  {
    if id in m then m[id := m[id].(users := m[id].users + [user])] else m
  }

  /** The store after `delete_session`: the entry is gone when it was there, else nothing. */
  function Removed(m: Store, id: string): (r: Store)
    ensures r.Keys == m.Keys - {id}
    ensures forall k :: k in r ==> r[k] == m[k]
  {
    if id in m then m - {id} else m
  }

  /** What `get_session` answers. */
  function Lookup(m: Store, id: string): (r: Option<SessionData>)
    ensures r.Some? <==> id in m
    ensures r.Some? ==> r.value == m[id]
  {
    if id in m then Some(m[id]) else None
  }

  /** `get_session` after `create_session` sees the new layout and an empty user list; other ids are untouched. */
  lemma CreateThenGet(m: Store, id: string, layout: FrameLayout, now: int)
    ensures Lookup(Created(m, id, layout, now), id) == Some(SessionData([], now, layout))
    ensures forall k :: k != id ==> Lookup(Created(m, id, layout, now), k) == Lookup(m, k)
  {
  }

  /** Creating over an existing id throws the old record away, users included. */
  lemma CreateOverwrites(m: Store, id: string, layout: FrameLayout, now: int)
    requires id in m
    ensures Created(m, id, layout, now).Keys == m.Keys
    ensures Created(m, id, layout, now)[id].users == []
  {
  }

  /** Adding to a present id appends exactly that user; layout, creation time and other ids stay. */
  lemma AddUserAppends(m: Store, id: string, user: string)
    requires id in m
    ensures id in WithUser(m, id, user)
    ensures WithUser(m, id, user)[id].users == m[id].users + [user]
    ensures WithUser(m, id, user)[id].layout == m[id].layout
    ensures WithUser(m, id, user)[id].createdAt == m[id].createdAt
    ensures forall k :: k != id ==> Lookup(WithUser(m, id, user), k) == Lookup(m, k)
  {
  }

  /** Adding to an absent id changes nothing and creates nothing. */
  lemma AddUserToAbsentIsNoop(m: Store, id: string, user: string)
    requires id !in m
    ensures WithUser(m, id, user) == m
  {
  }

  /** After a delete, `get_session` answers None; other ids are untouched. */
  lemma DeleteThenGet(m: Store, id: string)
    ensures Lookup(Removed(m, id), id) == None
    ensures forall k :: k != id ==> Lookup(Removed(m, id), k) == Lookup(m, k)
  {
  }

  /** Deleting twice has the effect of deleting once. */
  lemma DeleteIdempotent(m: Store, id: string)
    ensures Removed(Removed(m, id), id) == Removed(m, id)
  {
  }

  /** The process-wide registry (`sessions` in the source), as an object. */
  class SessionStore {
    var sessions: Store

    constructor ()
      ensures sessions == map[]
    {
      sessions := map[];
    }

    method CreateSession(id: string, layout: FrameLayout, now: int)
      modifies this
      ensures sessions == Created(old(sessions), id, layout, now)
    {
      sessions := sessions[id := SessionData([], now, layout)];
    }

    method AddUserToSession(id: string, user: string)
      modifies this
      ensures sessions == WithUser(old(sessions), id, user)
    {
      if id in sessions {
        var s := sessions[id];
        sessions := sessions[id := s.(users := s.users + [user])];
      }
    }

    /** Looks a session up; changes nothing (no modifies clause). */
    method GetSession(id: string) returns (session: Option<SessionData>)
      ensures session.Some? <==> id in sessions
      ensures session.Some? ==> session.value == sessions[id]
    {
      if id in sessions {
        session := Some(sessions[id]);
      } else {
        session := None;
      }
    }

    method DeleteSession(id: string)
      modifies this
      ensures sessions == Removed(old(sessions), id)
    {
      if id in sessions {
        sessions := sessions - {id};
      }
    }

    /**
     * What the deferred expiry task does once its wait is over: one delete.
     * The wait itself (`timeout` seconds) happens outside the store.
     */
    method ExpireSessionAfterTimeout(id: string, timeout: nat)
      modifies this
      ensures sessions == Removed(old(sessions), id)
    {
      DeleteSession(id);
    }
  }
}
