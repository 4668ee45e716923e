/**
 * Sequences of handler calls, as the provider's single-threaded event loop runs
 * them: request bodies for the register and unregister paths, and `response`,
 * `terminate` and `stream-terminate` events from the stream server. The lemmas
 * state what holds after any such sequence.
 */
module Events {
  import opened Wrappers
  import opened Registry
  import opened Requests

  datatype Event =
    | RegisterRequest(parsed: Option<Body>)
    | UnregisterRequest(parsed: Option<Body>)
    | Response(sid: string, stanza: Stanza)
    | Terminate(sid: string)

  /** The registry after one handler call. */
  function Step(m: Sessions, e: Event): Sessions
  {
    match e
    case RegisterRequest(parsed) => OnRegisterEnd(m, parsed).1
    case UnregisterRequest(parsed) => OnUnregisterEnd(m, parsed).1
    case Response(_, _) => m
    case Terminate(sid) => StreamTerminated(m, sid)
  }

  /** The registry after handling `evs` in order. */
  function Run(m: Sessions, evs: seq<Event>): Sessions
    decreases |evs|
  {
    if evs == [] then m else Run(Step(m, evs[0]), evs[1..])
  }

  /** Whether handling `e` may change the entry for `sid`. */
  predicate Touches(e: Event, sid: string)
  {
    match e
    case RegisterRequest(parsed) => SidOf(parsed) == Some(sid)
    case UnregisterRequest(parsed) => SidOf(parsed) == Some(sid)
    case Response(_, _) => false
    case Terminate(s) => s == sid
  }

  /** The events of `evs` that may change the entry for `sid`, in order. */
  function Only(evs: seq<Event>, sid: string): (r: seq<Event>)
    ensures |r| <= |evs|
    ensures forall i :: 0 <= i < |r| ==> Touches(r[i], sid)
    ensures forall e :: e in r <==> e in evs && Touches(e, sid)
  {
    if evs == [] then []
    else if Touches(evs[0], sid) then [evs[0]] + Only(evs[1..], sid)
    else Only(evs[1..], sid)
  }

  /**
   * The registry's invariant under the handlers: each stored registration
   * carries a truthy device token and is stored under its own `sid`.
   */
  ghost predicate WellFormed(m: Sessions)
  {
    AllHaveTokens(m) && forall k :: k in m ==> m[k].sid == Some(k)
  }

  /** No handler breaks the invariant. */
  lemma StepKeepsWellFormed(m: Sessions, e: Event)
    requires WellFormed(m)
    ensures WellFormed(Step(m, e))
  {
  }

  /** No sequence of handler calls breaks the invariant. */
  lemma {:induction false} RunKeepsWellFormed(m: Sessions, evs: seq<Event>)
    requires WellFormed(m)
    ensures WellFormed(Run(m, evs))
    decreases |evs|
  {
    if evs != [] {
      StepKeepsWellFormed(m, evs[0]);
      RunKeepsWellFormed(Step(m, evs[0]), evs[1..]);
    }
  }

  /** Handling `a` and then `b` is handling `a + b`. */
  lemma {:induction false} RunAppend(m: Sessions, a: seq<Event>, b: seq<Event>)
    ensures Run(m, a + b) == Run(Run(m, a), b)
    decreases |a|
  {
    if a == [] {
      assert a + b == b;
    } else {
      assert (a + b)[0] == a[0];
      assert (a + b)[1..] == a[1..] + b;
      RunAppend(Step(m, a[0]), a[1..], b);
    }
  }

  /** An event that does not touch `sid` leaves its entry as it was. */
  lemma StepFrame(m: Sessions, e: Event, sid: string)
    requires !Touches(e, sid)
    ensures Get(Step(m, e), sid) == Get(m, sid)
  {
  }

  /** The entry for `sid` after an event depends only on the entry before it. */
  lemma StepLocal(m1: Sessions, m2: Sessions, e: Event, sid: string)
    requires Get(m1, sid) == Get(m2, sid)
    ensures Get(Step(m1, e), sid) == Get(Step(m2, e), sid)
  {
  }

  /**
   * Sessions are independent: the entry for `sid` after any sequence of events
   * is what the events touching `sid` alone make of it.
   */
  lemma {:induction false} RunLocal(m1: Sessions, m2: Sessions, evs: seq<Event>, sid: string)
    requires Get(m1, sid) == Get(m2, sid)
    ensures Get(Run(m1, evs), sid) == Get(Run(m2, Only(evs, sid)), sid)
    decreases |evs|
  {
    if evs != [] {
      var e := evs[0];
      if Touches(e, sid) {
        StepLocal(m1, m2, e, sid);
        var rest := Only(evs[1..], sid);
        assert Only(evs, sid) == [e] + rest;
        assert ([e] + rest)[0] == e && ([e] + rest)[1..] == rest;
        RunLocal(Step(m1, e), Step(m2, e), evs[1..], sid);
      } else {
        StepFrame(m1, e, sid);
        RunLocal(Step(m1, e), m2, evs[1..], sid);
      }
    }
  }

  /** Events none of which touches `sid` leave its entry as it was. */
  lemma {:induction false} UntouchedKeepsEntry(m: Sessions, evs: seq<Event>, sid: string)
    requires forall i :: 0 <= i < |evs| ==> !Touches(evs[i], sid)
    ensures Get(Run(m, evs), sid) == Get(m, sid)
    decreases |evs|
  {
    if evs != [] {
      StepFrame(m, evs[0], sid);
      UntouchedKeepsEntry(Step(m, evs[0]), evs[1..], sid);
    }
  }

  /**
   * An unregister request for `sid` or a termination of its stream, followed by
   * events none of which touches `sid`, leaves `sid` unregistered.
   */
  lemma RemovalIsFinal(m: Sessions, before: seq<Event>, removal: Event, after: seq<Event>, sid: string)
    requires removal == Terminate(sid) ||
             (removal.UnregisterRequest? && SidOf(removal.parsed) == Some(sid))
    requires forall i :: 0 <= i < |after| ==> !Touches(after[i], sid)
    ensures Get(Run(m, before + [removal] + after), sid) == None
  {
    var mid := Run(m, before);
    RunAppend(m, before + [removal], after);
    RunAppend(m, before, [removal]);
    assert Run(mid, [removal]) == Step(mid, removal);
    UntouchedKeepsEntry(Step(mid, removal), after, sid);
  }

  /**
   * A register request accepted for `sid`, followed by events none of which
   * touches `sid`, leaves exactly that request stored under `sid`.
   */
  lemma RegistrationPersists(m: Sessions, before: seq<Event>, req: Request, after: seq<Event>, sid: string)
    requires req.sid == Some(sid) && Truthy(req.deviceToken)
    requires forall i :: 0 <= i < |after| ==> !Touches(after[i], sid)
    ensures Get(Run(m, before + [RegisterRequest(Some(ObjectBody(req)))] + after), sid) == Some(req)
  {
    var registration := RegisterRequest(Some(ObjectBody(req)));
    var mid := Run(m, before);
    RunAppend(m, before + [registration], after);
    RunAppend(m, before, [registration]);
    assert Run(mid, [registration]) == Step(mid, registration);
    UntouchedKeepsEntry(Step(mid, registration), after, sid);
  }

  /**
   * The provider keeps no device index and evicts nothing: two different sids
   * registered in turn with the same truthy device token are both stored.
   */
  lemma SharedTokenNotEvicted(m: Sessions, s1: string, s2: string, r1: Request, r2: Request)
    requires s1 != s2
    requires r1.sid == Some(s1) && r2.sid == Some(s2)
    requires r1.deviceToken == r2.deviceToken && Truthy(r1.deviceToken)
    ensures var t := Run(m, [RegisterRequest(Some(ObjectBody(r1))), RegisterRequest(Some(ObjectBody(r2)))]);
            Get(t, s1) == Some(r1) && Get(t, s2) == Some(r2)
  {
    var evs := [RegisterRequest(Some(ObjectBody(r1))), RegisterRequest(Some(ObjectBody(r2)))];
    var m1 := Step(m, evs[0]);
    assert Get(m1, s1) == Some(r1);
    var m2 := Step(m1, evs[1]);
    assert Get(m2, s2) == Some(r2);
    assert Get(m2, s1) == Get(m1, s1);
    assert evs[1..][1..] == [];
    assert Run(m2, []) == m2;
    assert Run(m1, evs[1..]) == Run(m2, evs[1..][1..]);
    assert Run(m, evs) == Run(m1, evs[1..]);
  }

  /** Scenario: a register request without a device token, or with an empty one, is refused and stores nothing. */
  lemma MissingTokenRefused(m: Sessions, sid: string)
    ensures OnRegisterEnd(m, Some(ObjectBody(Request(Some(sid), None)))) == (InvalidRequest, m)
    ensures OnRegisterEnd(m, Some(ObjectBody(Request(Some(sid), Some(Str("")))))) == (InvalidRequest, m)
  {
  }
}
