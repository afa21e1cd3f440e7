/**
 * Runs of the service: any interleaving of handler calls and firings of
 * deferred expiry tasks, applied to the registry one after another.
 * The lemmas say what such runs can and cannot do to one session.
 */
module Lifecycle {
  import opened Schema
  import opened Service
  import opened Api

  /** One thing that can happen to the registry. */
  datatype Event =
    | CreateRequest(sid: string, hid: string, layout: FrameLayout, now: int)
    | StatusRequest(id: string, now: int)
    | DeleteRequest(id: string)
    | ExpiryFired(id: string)

  /** The session id an event is about. */
  function Target(e: Event): string
  {
    match e
    case CreateRequest(sid, _, _, _) => sid
    case StatusRequest(id, _) => id
    case DeleteRequest(id) => id
    case ExpiryFired(id) => id
  }

  /** The registry after one event. */
  function Step(m: Store, e: Event): (r: Store)
    ensures r.Keys - {Target(e)} == m.Keys - {Target(e)}
    ensures forall k :: k in r && k != Target(e) ==> k in m && r[k] == m[k]
    ensures Target(e) in r && !e.CreateRequest? ==> Target(e) in m && r[Target(e)] == m[Target(e)]
  {
    match e
    case CreateRequest(sid, hid, layout, now) => CreateEffect(m, sid, hid, layout, now)
    case StatusRequest(id, now) => StatusOutcome(m, id, now).store
    case DeleteRequest(id) => DeleteOutcome(m, id).store
    case ExpiryFired(id) => Removed(m, id)
  }

  /** The registry after a whole run, first event first. */
  function Run(m: Store, events: seq<Event>): Store
    decreases |events|
  {
    if events == [] then m else Run(Step(m, events[0]), events[1..])
  }

  /** No event of the run creates `id`. */
  predicate NeverCreates(events: seq<Event>, id: string)
  {
    forall i :: 0 <= i < |events| ==> !(events[i].CreateRequest? && events[i].sid == id)
  }

  /** Every event of the run is about some other session. */
  predicate LeavesAlone(events: seq<Event>, id: string)
  {
    forall i :: 0 <= i < |events| ==> Target(events[i]) != id
  }

  lemma {:induction false} RunAppend(m: Store, a: seq<Event>, b: seq<Event>)
    ensures Run(m, a + b) == Run(Run(m, a), b)
    decreases |a|
  {
    if a != [] {
      assert (a + b)[0] == a[0] && (a + b)[1..] == a[1..] + b;
      RunAppend(Step(m, a[0]), a[1..], b);
    } else {
      assert a + b == b;
    }
  }

  /** Only a create brings a session id into the registry. */
  lemma StepKeepsAbsent(m: Store, e: Event, id: string)
    requires id !in m
    requires !(e.CreateRequest? && e.sid == id)
    ensures id !in Step(m, e)
  {
  }

  /** A session that is gone stays gone unless a create reuses its id. */
  lemma {:induction false} AbsentStaysAbsent(m: Store, events: seq<Event>, id: string)
    requires id !in m
    requires NeverCreates(events, id)
    ensures id !in Run(m, events)
    decreases |events|
  {
    if events != [] {
      StepKeepsAbsent(m, events[0], id);
      assert NeverCreates(events[1..], id) by {
        forall i | 0 <= i < |events[1..]|
          ensures !(events[1..][i].CreateRequest? && events[1..][i].sid == id)
        {
          assert events[1..][i] == events[i + 1];
        }
      }
      AbsentStaysAbsent(Step(m, events[0]), events[1..], id);
    }
  }

  /**
   * Once the deferred expiry task of a session has fired, that session is
   * absent from the registry for the rest of the run, whatever happened
   * before and whatever is interleaved after, unless its id is created anew.
   */
  lemma {:induction false} ExpiryBoundsLifetime(m: Store, before: seq<Event>, id: string, after: seq<Event>)
    requires NeverCreates(after, id)
    ensures id !in Run(m, before + [ExpiryFired(id)] + after)
  {
    RunAppend(m, before + [ExpiryFired(id)], after);
    RunAppend(m, before, [ExpiryFired(id)]);
    var gone := Run(Run(m, before), [ExpiryFired(id)]);
    assert gone == Removed(Run(m, before), id);
    AbsentStaysAbsent(gone, after, id);
  }

  /**
   * No handler and no expiry changes a live session's record: until it is
   * deleted or its id is created anew, it keeps its users, creation time and
   * layout. (The only way users grow is an append outside these handlers.)
   */
  lemma {:induction false} RecordNeverChanges(m: Store, events: seq<Event>, id: string)
    requires NeverCreates(events, id)
    requires id in Run(m, events)
    ensures id in m && Run(m, events)[id] == m[id]
    decreases |events|
  {
    if events != [] {
      var m' := Step(m, events[0]);
      assert NeverCreates(events[1..], id) by {
        forall i | 0 <= i < |events[1..]|
          ensures !(events[1..][i].CreateRequest? && events[1..][i].sid == id)
        {
          assert events[1..][i] == events[i + 1];
        }
      }
      RecordNeverChanges(m', events[1..], id);
      assert !(events[0].CreateRequest? && events[0].sid == id);
    }
  }

  /** Events about other sessions never touch this one: every operation is scoped to its own id. */
  lemma {:induction false} OthersLeaveSessionAlone(m: Store, events: seq<Event>, id: string)
    requires LeavesAlone(events, id)
    ensures Lookup(Run(m, events), id) == Lookup(m, id)
    decreases |events|
  {
    if events != [] {
      assert LeavesAlone(events[1..], id) by {
        forall i | 0 <= i < |events[1..]|
          ensures Target(events[1..][i]) != id
        {
          assert events[1..][i] == events[i + 1];
        }
      }
      assert Target(events[0]) != id;
      assert Lookup(Step(m, events[0]), id) == Lookup(m, id);
      OthersLeaveSessionAlone(Step(m, events[0]), events[1..], id);
    }
  }

  /** An expiry firing after a manual delete, a 410, or another firing does nothing. */
  lemma ExpiryAfterRemovalIsNoop(m: Store, e: Event, id: string)
    requires e == DeleteRequest(id) || e == ExpiryFired(id) ||
             (e.StatusRequest? && e.id == id && StatusOutcome(m, id, e.now).reply == Expired)
    ensures Step(Step(m, e), ExpiryFired(id)) == Step(m, e)
  {
  }

  /** An expiry firing and an event about another session give the same registry in either order. */
  lemma ExpiryCommutes(m: Store, e: Event, id: string)
    requires Target(e) != id
    ensures Step(Step(m, ExpiryFired(id)), e) == Step(Step(m, e), ExpiryFired(id))
  {
  }
}
