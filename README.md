# Photo-booth session registry, in Dafny

This project models the session core of a multi-user photo-booth backend.
A host creates a session with one of four frame layouts. The service keeps
every live session in one in-memory map from session id to a record: the
participant list, the creation time and the layout. The host gets four
signed upload URLs, one per photo cut. A session ends in one of three ways.
It can be deleted explicitly. A successful create schedules a background
expiry job, which starts once the response is sent, waits 600 seconds and
then deletes the session. Or a status query finds it older than 600 seconds,
deletes it and answers "expired".

Files and modules:

- `schema.dfy` (`Schema`): the `FrameLayout` enumeration and an `Option` type.
- `service.dfy` (`Service`): the registry. `SessionStore` is a class whose
  field `sessions: map<string, SessionData>` stands for the module-level
  dictionary. Its methods change that field in place. Each method is
  specified by a pure transition on the whole map (`Created`, `WithUser`,
  `Removed`, `Lookup`), and lemmas state what each transition does.
- `api.dfy` (`Api`): the create, status and delete handlers. Each is a
  module-level method of `Api` that takes the `SessionStore` as a parameter
  and changes it. Each is specified by a function that returns the reply and
  the resulting map. HTTP 404 and 410 become the `NotFound`
  and `Expired` constructors of `Reply`.
- `storage.dfy` (`Storage`): the upload-URL builder. It is a `for` loop
  that fills a map keyed `"0"` to `"3"`. The storage service's signing call
  is a function parameter `sign` from blob path to token.
- `lifecycle.dfy` (`Lifecycle`): runs of the whole service. A run is any
  interleaving of handler calls and expiry firings. The lemmas here cover
  how the two expiry paths interact and that each operation only touches
  its own session.

Clock readings and fresh ids are parameters. A timestamp is an integer
number of seconds.

Where the code and its documentation differ, the model follows the code:

- Creating a session under an id that already exists overwrites the old
  record, users included.
- Adding a user to an absent id does nothing and returns nothing to the caller.
- Users are never deduplicated.
- There is no join endpoint, so no handler appends a participant after
  create. `RecordNeverChanges` proves that, for the handlers and expiry
  firings, a live session's record never changes.
- Cut numbers and keys run from 0 to 3. The response schema's example shows
  `_1` to `_4`.
- The two 600-second constants are kept separate, as in the code:
  `Service.DefaultSessionDuration` for the deferred task and
  `Api.StatusExpireSeconds` for the status check.

## Model

| member | source | states |
|---|---|---|
| `Service.Created` | backend/app/session/service.py:23-27 | the store after create: the key set gains the id, the id holds no users, the given time and the layout, and every other key keeps its record |
| `Service.WithUser` | backend/app/session/service.py:33-37 | the store after add-user: same key set; a present id's users gain the user at the end with time and layout kept; every other key keeps its record |
| `Service.Removed` | backend/app/session/service.py:52-56 | the store after delete: the key set loses the id and every remaining key keeps its record |
| `Service.Lookup` | backend/app/session/service.py:42-47 | get answers Some exactly when the id is present, and then the stored record |
| `Service.CreateThenGet` | backend/app/session/service.py:19-27 | after create, lookup of that id gives the given layout, the given time and no users; lookups of other ids are unchanged |
| `Service.CreateOverwrites` | backend/app/session/service.py:23 | creating over a present id keeps the key set and resets that id's users to empty |
| `Service.AddUserAppends` | backend/app/session/service.py:31-35 | on a present id, users becomes the old users plus the new user at the end; layout, creation time and other ids are unchanged |
| `Service.AddUserToAbsentIsNoop` | backend/app/session/service.py:36-37 | on an absent id the store is unchanged and nothing is created |
| `Service.DeleteThenGet` | backend/app/session/service.py:50-53 | after delete, lookup of that id gives None and lookups of other ids are unchanged |
| `Service.DeleteIdempotent` | backend/app/session/service.py:50-56 | deleting twice leaves the same store as deleting once |
| `Service.SessionStore.constructor` | backend/app/session/service.py:13-14 | the registry starts empty |
| `Service.SessionStore.CreateSession` | backend/app/session/service.py:19-27 | the new map is the old one with the id bound to an empty-user record |
| `Service.SessionStore.AddUserToSession` | backend/app/session/service.py:31-37 | the new map is the old one with the user appended when the id is present, and the old map otherwise |
| `Service.SessionStore.GetSession` | backend/app/session/service.py:40-47 | returns Some of the stored record exactly when the id is present; it modifies nothing |
| `Service.SessionStore.DeleteSession` | backend/app/session/service.py:50-56 | the new map is the old one without the id, or the old one when the id is absent |
| `Service.SessionStore.ExpireSessionAfterTimeout` | backend/app/session/service.py:59-66 | the state effect of the expiry task is exactly one delete of its id |
| `Api.CreateEffect` | backend/app/session/api.py:32-33 | the store after the create handler: the key set gains the session id, which holds exactly `[host]`, the time and the layout; every other key keeps its record |
| `Api.StatusOutcome` | backend/app/session/api.py:46-72 | NotFound iff the id is absent; Expired iff present and older than 600 s, and then the store loses exactly that id; otherwise Ok with the stored layout and users and an unchanged store |
| `Api.DeleteOutcome` | backend/app/session/api.py:75-88 | Deleted iff the id was present; afterwards the id is absent, every other key keeps its record |
| `Api.CreateSessionApi` | backend/app/session/api.py:19-43 | the store becomes create-then-append-host; an expiry task for the new id with the default 600 s is scheduled; the response carries both ids and the four upload URLs |
| `Api.GetSessionStatus` | backend/app/session/api.py:46-72 | reply and new store are those of `StatusOutcome` on the old store |
| `Api.DeleteSessionApi` | backend/app/session/api.py:75-88 | reply and new store are those of `DeleteOutcome` on the old store |
| `Api.CreateHoldsHost` | backend/app/session/api.py:32-33 | after create, the session holds the given layout, the creation time and exactly `[host]`; the key set grows by that id only |
| `Api.CreateThenStatus` | backend/app/session/tests/test_api.py:42-67 | a status query within 600 s of create answers Ok with the layout and `[host]` |
| `Api.StatusAbsent` | backend/app/session/api.py:52-56 | status of an absent id is NotFound with the store unchanged |
| `Api.StatusStale` | backend/app/session/api.py:58-66 | status of a session older than 600 s is Expired and removes that id |
| `Api.StatusFresh` | backend/app/session/api.py:58-72 | status of a session aged 600 s or less (the comparison is strict) answers its layout and users with the store unchanged |
| `Api.ExpiredThenNotFound` | backend/app/session/api.py:54-66 | after an Expired answer, any later status of that id is NotFound |
| `Api.DeleteThenStatus` | backend/app/session/tests/test_api.py:90-95 | after delete, status of that id is NotFound |
| `Api.DeleteTwice` | backend/app/session/api.py:81-86 | a second delete answers NotFound and changes nothing; the first answers Deleted when the id was present; other ids are untouched |
| `Api.PortraitWalkthrough` | backend/app/session/api.py:19-88 | create portrait, append a guest, status gives `[host, guest]`, delete gives Deleted, status then gives NotFound |
| `Storage.BaseUrl` | backend/app/session/storage.py:16-18 | "https://", then the account name, then ".blob.core.windows.net/", then the container name |
| `Storage.BlobPath` | backend/app/session/storage.py:23 | "sessions/", the session id, "/cuts/", the participant id, "_" and the cut number in decimal, then ".webp" |
| `Storage.SignedUrl` | backend/app/session/storage.py:34 | the base URL and "/", then the blob path, then "?" and the token the signer gives for that path |
| `Storage.DecimalString` | backend/app/session/storage.py:34 | the numeral of a cut number is non-empty and all digits, and has one character exactly for numbers below 10 |
| `Storage.DecimalStringInjective` | backend/app/session/storage.py:34 | different cut numbers give different keys |
| `Storage.CutKeysAreDigits` | backend/app/session/storage.py:22 | the keys of cuts 0 to 3 are exactly "0", "1", "2", "3" |
| `Storage.GenerateUploadUrls` | backend/app/session/storage.py:12-36 | exactly the keys "0".."3"; the value under key n is base URL, "/", the blob path of cut n, "?", and the token for that path |
| `Storage.SignedUrlFrame` | backend/app/session/storage.py:16-18 | a URL is "https://" + account + ".blob.core.windows.net/" + container + "/", then the blob path, then "?" and that path's token |
| `Storage.UrlContainsIds` | backend/app/session/tests/test_storage.py:29-34 | every upload URL contains the session id, the participant id and its token |
| `Storage.PathSuffixMatchesKey` | backend/app/session/storage.py:23 | the blob path of cut n ends in "_" + the key of n + ".webp" |
| `Storage.BlobPathsDistinct` | backend/app/session/storage.py:22-23 | different cuts of one participant get different blob paths |
| `Lifecycle.Step` | backend/app/session/api.py:19-88 | one handler call or expiry firing changes at most the id it is about: every other key keeps its presence and record, and only a create can add or change that id's record |
| `Lifecycle.RunAppend` | backend/app/session/api.py:19-88 | running two event sequences one after the other equals running their concatenation |
| `Lifecycle.AbsentStaysAbsent` | backend/app/session/service.py:19-27 | an absent id stays absent through any run that does not create it |
| `Lifecycle.ExpiryBoundsLifetime` | backend/app/session/service.py:59-66 | once a session's expiry task has fired, the id is absent for the rest of any run that does not create it again |
| `Lifecycle.RecordNeverChanges` | backend/app/session/api.py:19-88 | an id present at the end of a run without a create of it was present at the start with the same record |
| `Lifecycle.OthersLeaveSessionAlone` | backend/app/session/service.py:19-56 | events about other ids never change what lookup gives for this id |
| `Lifecycle.ExpiryAfterRemovalIsNoop` | backend/app/session/service.py:50-56 | an expiry firing after a manual delete, an Expired status or another firing changes nothing |
| `Lifecycle.ExpiryCommutes` | backend/app/session/service.py:50-56 | an expiry firing and an event about another id give the same store in either order |

## Left out

- Api.CreateSessionApi: signing failures are not modelled, because `sign` is a total function. In the source the signing call runs after the session is stored with `[host]` and after the expiry job is queued. If it raises, the request fails and the queued job never runs. The session then stays until a status query more than 600 s later removes it or a delete does. The model always returns the four URLs and an `ExpiryTask`.
- HTTP routing, request and response validation, and the mapping of `Reply` to status codes are not modelled. `Reply` stands for those answers.
- The 600 s wait before an expiry deletes its session is not modelled, and neither is the background-job machinery that runs it. The create handler returns an `ExpiryTask` value for the scheduled job. Its firing is an `ExpiryFired` event that may come anywhere in a run. Nothing ties the firing to the 600 s mark.
- Clock readings are whole seconds supplied by the caller. The source compares a fractional `total_seconds()` with 600, so an age of 600.5 s is expired there. The model cannot express that.
- Fresh ids come from the caller instead of a random generator. No lemma needs them to be fresh. Create overwrites an existing id, as the code does.
- The storage service's signing call is the parameter `sign`, from blob path to token. The token's expiry time is not modelled, and neither are the account key and the permission set.
- `config.py` is not part of this model. Account and container names are the fields of `BlobConfig`.
- Logging is not modelled.
- `GetSession` returns the record as a value. In the source it returns the same mutable dictionary the registry holds, so later appends would show through it. No handler depends on that aliasing.
- Concurrency is not modelled. Each handler and each expiry firing is one atomic step of a run.
