/**
 * The session handlers: create, status and delete, each a fixed sequence
 * of registry operations. HTTP errors become constructors of `Reply`.
 */
module Api {
  import opened Schema
  import opened Service
  import Storage

  /** Age in seconds beyond which a status query reports a session expired. */
  const StatusExpireSeconds: int := 600

  /** What a handler answers: 200 with data, 404, 410, or 200 "deleted". */
  datatype Reply =
    | Ok(layout: FrameLayout, users: seq<string>)
    | NotFound
    | Expired
    | Deleted

  /** A handler's answer together with the registry it leaves behind. */
  datatype Outcome = Outcome(reply: Reply, store: Store)

  /** What the create handler answers. */
  datatype CreateSessionResponse =
    CreateSessionResponse(sessionId: string, hostId: string, uploadUrls: map<string, string>)

  /** A deferred expiry task as the create handler schedules it. */
  datatype ExpiryTask = ExpiryTask(sessionId: string, timeout: nat)

  /** The registry after the create handler: create, then append the host. */
  function CreateEffect(m: Store, sid: string, hid: string, layout: FrameLayout, now: int): (r: Store)
    ensures r.Keys == m.Keys + {sid}
    ensures r[sid] == SessionData([hid], now, layout)
    ensures forall k :: k in r && k != sid ==> r[k] == m[k]
  {
    WithUser(Created(m, sid, layout, now), sid, hid)
  }

  /** The status handler: absent is 404, older than the threshold is deleted and 410, else the data. */
  function StatusOutcome(m: Store, id: string, now: int): (o: Outcome)
    ensures o.reply.NotFound? <==> id !in m
    ensures o.reply.Expired? <==> id in m && now - m[id].createdAt > StatusExpireSeconds
    ensures o.reply.Ok? <==> id in m && now - m[id].createdAt <= StatusExpireSeconds
    ensures o.reply.Ok? ==> o.reply.layout == m[id].layout && o.reply.users == m[id].users
    ensures o.store == if o.reply.Expired? then m - {id} else m
  {
    match Lookup(m, id)
    case None => Outcome(NotFound, m)
    case Some(s) =>
      if now - s.createdAt > StatusExpireSeconds then Outcome(Expired, Removed(m, id))
      else Outcome(Ok(s.layout, s.users), m)
  }

  /** The delete handler: absent is 404, present is removed. */
  function DeleteOutcome(m: Store, id: string): (o: Outcome)
    ensures o.reply.Deleted? <==> id in m
    ensures o.reply.Deleted? || o.reply.NotFound?
    ensures id !in o.store
    ensures o.store.Keys == m.Keys - {id}
    ensures forall k :: k in o.store ==> o.store[k] == m[k]
  {
    if Lookup(m, id).None? then Outcome(NotFound, m) else Outcome(Deleted, Removed(m, id))
  }

  /** `create_session_api`, with the fresh ids and the clock reading passed in. */
  method CreateSessionApi(store: SessionStore, layout: FrameLayout, sessionId: string, hostId: string,
                          now: int, cfg: Storage.BlobConfig, sign: string -> string)
    returns (response: CreateSessionResponse, task: ExpiryTask)
    modifies store
    ensures store.sessions == CreateEffect(old(store.sessions), sessionId, hostId, layout, now)
    ensures task == ExpiryTask(sessionId, DefaultSessionDuration)
    ensures response.sessionId == sessionId && response.hostId == hostId
    ensures response.uploadUrls.Keys == {"0", "1", "2", "3"}
    ensures forall n :: 0 <= n < Storage.CutCount ==>
      Storage.DecimalString(n) in response.uploadUrls &&
      response.uploadUrls[Storage.DecimalString(n)]
        == Storage.SignedUrl(cfg, Storage.BlobPath(sessionId, hostId, n), sign)
  {
    store.CreateSession(sessionId, layout, now);
    store.AddUserToSession(sessionId, hostId);
    task := ExpiryTask(sessionId, DefaultSessionDuration);
    var urls := Storage.GenerateUploadUrls(cfg, sessionId, hostId, sign);
    response := CreateSessionResponse(sessionId, hostId, urls);
  }

  /** `get_session_status`, with the clock reading passed in as whole seconds. */
  method GetSessionStatus(store: SessionStore, id: string, now: int) returns (reply: Reply)
    modifies store
    ensures Outcome(reply, store.sessions) == StatusOutcome(old(store.sessions), id, now)
  {
    var session := store.GetSession(id);
    if session.None? {
      return NotFound;
    }
    var expireSeconds := StatusExpireSeconds;
    if now - session.value.createdAt > expireSeconds {
      store.DeleteSession(id);
      return Expired;
    }
    reply := Ok(session.value.layout, session.value.users);
  }

  /** `delete_session_api`. */
  method DeleteSessionApi(store: SessionStore, id: string) returns (reply: Reply)
    modifies store
    ensures Outcome(reply, store.sessions) == DeleteOutcome(old(store.sessions), id)
  {
    var session := store.GetSession(id);
    if session.None? {
      return NotFound;
    }
    store.DeleteSession(id);
    reply := Deleted;
  }

  // ---------------------------------------------------------------------
  // Properties of the handlers.
  // ---------------------------------------------------------------------

  /** Create leaves the new session holding the layout and exactly the host; nothing else changes. */
  lemma CreateHoldsHost(m: Store, sid: string, hid: string, layout: FrameLayout, now: int)
    ensures var m' := CreateEffect(m, sid, hid, layout, now);
      sid in m' && m'[sid] == SessionData([hid], now, layout) &&
      m'.Keys == m.Keys + {sid} &&
      forall k :: k != sid ==> Lookup(m', k) == Lookup(m, k)
  {
  }

  /** A status query within the threshold after create answers the layout and the host alone. */
  lemma CreateThenStatus(m: Store, sid: string, hid: string, layout: FrameLayout, created: int, now: int)
    requires now - created <= StatusExpireSeconds
    ensures StatusOutcome(CreateEffect(m, sid, hid, layout, created), sid, now)
      == Outcome(Ok(layout, [hid]), CreateEffect(m, sid, hid, layout, created))
  {
  }

  /** Status of an absent id is 404 and changes nothing. */
  lemma StatusAbsent(m: Store, id: string, now: int)
    requires id !in m
    ensures StatusOutcome(m, id, now) == Outcome(NotFound, m)
  {
  }

  /** Status of a session older than the threshold is 410 and deletes exactly that session. */
  lemma StatusStale(m: Store, id: string, now: int)
    requires id in m && now - m[id].createdAt > StatusExpireSeconds
    ensures StatusOutcome(m, id, now).reply == Expired
    ensures StatusOutcome(m, id, now).store == m - {id}
  {
  }

  /** Status of a session within the threshold (600 seconds included) answers its data and changes nothing. */
  lemma StatusFresh(m: Store, id: string, now: int)
    requires id in m && now - m[id].createdAt <= StatusExpireSeconds
    ensures StatusOutcome(m, id, now) == Outcome(Ok(m[id].layout, m[id].users), m)
  {
  }

  /** Once status has answered 410, every later status of that id answers 404. */
  lemma ExpiredThenNotFound(m: Store, id: string, now: int, later: int)
    requires StatusOutcome(m, id, now).reply == Expired
    ensures StatusOutcome(StatusOutcome(m, id, now).store, id, later)
      == Outcome(NotFound, StatusOutcome(m, id, now).store)
  {
  }

  /** After a successful delete, status answers 404. */
  lemma DeleteThenStatus(m: Store, id: string, now: int)
    ensures StatusOutcome(DeleteOutcome(m, id).store, id, now).reply == NotFound
  {
  }

  /** Deleting twice answers Deleted then 404 (or 404 twice), and the second call changes nothing. */
  lemma DeleteTwice(m: Store, id: string)
    ensures var first := DeleteOutcome(m, id);
      var second := DeleteOutcome(first.store, id);
      second.reply == NotFound && second.store == first.store &&
      (id in m ==> first.reply == Deleted) &&
      forall k :: k != id ==> Lookup(second.store, k) == Lookup(m, k)
  {
  }

  /**
   * The walkthrough: create a portrait session, add a second user, ask
   * for the status, delete, ask again.
   */
  lemma PortraitWalkthrough(m: Store, sid: string, hid: string, guest: string, created: int, now: int)
    requires now - created <= StatusExpireSeconds
    ensures var m1 := WithUser(CreateEffect(m, sid, hid, Portrait, created), sid, guest);
      var status := StatusOutcome(m1, sid, now);
      var deletion := DeleteOutcome(status.store, sid);
      status.reply == Ok(Portrait, [hid, guest]) &&
      deletion.reply == Deleted &&
      StatusOutcome(deletion.store, sid, now).reply == NotFound
  {
  }
}
