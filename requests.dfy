/**
 * The decisions of the `on_end` closures of the register and unregister request
 * handlers: from the parsed request body and the registry, the reply text and the
 * registry afterwards.
 */
module Requests {
  import opened Wrappers
  import opened Registry

  /**
   * What `JSON.parse` returned for the request body: the literal `null`, some
   * other non-object value (a boolean, number, string or array, whose `sid`
   * property is `undefined`), or an object.
   */
  datatype Body = NullLiteral | NonObject | ObjectBody(req: Request)

  /** The text a handler writes with `res.end`. */
  datatype Reply = Registered | Unregistered | InvalidRequest {
    function Text(): string
    {
      match this
      case Registered => "Registered"
      case Unregistered => "Unregistered"
      case InvalidRequest => "Invalid request."
    }
  }

  /**
   * How the as-written closure ends: with a reply, or with the TypeError that
   * reading `req.sid` on `null` throws, in which case no reply is written.
   */
  datatype Outcome = Replied(reply: Reply) | ThrewTypeError

  /** `req.sid` of a successfully parsed body, when it is defined. */
  function SidOf(parsed: Option<Body>): (s: Option<string>)
    ensures s.Some? <==> parsed.Some? && parsed.value.ObjectBody? && parsed.value.req.sid.Some?
    ensures s.Some? ==> s == parsed.value.req.sid
  {
    match parsed
    case Some(ObjectBody(req)) => req.sid
    case _ => None
  }

  /** The register closure exactly as written: `null` reaches `req.sid` outside the `try`. */
  function OnRegisterEndAsWritten(m: Sessions, parsed: Option<Body>): (r: (Outcome, Sessions))
    ensures r.0 == ThrewTypeError <==> parsed == Some(NullLiteral)
    ensures r.0 != Replied(Registered) ==> r.1 == m
  {
    match parsed
    case None => (Replied(InvalidRequest), m)
    case Some(NullLiteral) => (ThrewTypeError, m)
    case Some(NonObject) => (Replied(InvalidRequest), m)
    case Some(ObjectBody(req)) =>
      match req.sid
      case None => (Replied(InvalidRequest), m)
      case Some(sid) =>
        var (added, m') := AddSid(m, sid, req);
        (if added then Replied(Registered) else Replied(InvalidRequest), m')
  }

  /** The unregister closure exactly as written. */
  function OnUnregisterEndAsWritten(m: Sessions, parsed: Option<Body>): (r: (Outcome, Sessions))
    ensures r.0 == ThrewTypeError <==> parsed == Some(NullLiteral)
    ensures r.0 != Replied(Unregistered) ==> r.1 == m
  {
    match parsed
    case None => (Replied(InvalidRequest), m)
    case Some(NullLiteral) => (ThrewTypeError, m)
    case Some(NonObject) => (Replied(InvalidRequest), m)
    case Some(ObjectBody(req)) =>
      match req.sid
      case None => (Replied(InvalidRequest), m)
      case Some(sid) => (Replied(Unregistered), RemoveSid(m, sid))
  }

  /**
   * The register closure as intended: a `null` body is an invalid request like
   * every other body without a `sid`. It replies "Registered" exactly when the
   * body parsed, `sid` is defined and `_add_sid` accepted the device token, and
   * only then changes the registry.
   */
  function OnRegisterEnd(m: Sessions, parsed: Option<Body>): (r: (Reply, Sessions))
    ensures r.0 != Unregistered
    ensures r.0 == Registered <==>
              SidOf(parsed).Some? && Truthy(parsed.value.req.deviceToken)
    ensures r.0 == Registered ==>
              Get(r.1, SidOf(parsed).value) == Some(parsed.value.req) &&
              SameExcept(r.1, m, SidOf(parsed).value)
    ensures r.0 == InvalidRequest ==> r.1 == m
    ensures AllHaveTokens(m) ==> AllHaveTokens(r.1)
  {
    match SidOf(parsed)
    case None => (InvalidRequest, m)
    case Some(sid) =>
      var (added, m') := AddSid(m, sid, parsed.value.req);
      (if added then Registered else InvalidRequest, m')
  }

  /**
   * The unregister closure as intended: "Invalid request." with the registry
   * unchanged when the body did not parse or has no `sid`; otherwise the sid is
   * removed, present or not, and the reply is "Unregistered".
   */
  function OnUnregisterEnd(m: Sessions, parsed: Option<Body>): (r: (Reply, Sessions))
    ensures r.0 != Registered
    ensures r.0 == Unregistered <==> SidOf(parsed).Some?
    ensures r.0 == InvalidRequest ==> r.1 == m
    ensures r.0 == Unregistered ==>
              Get(r.1, SidOf(parsed).value) == None &&
              SameExcept(r.1, m, SidOf(parsed).value)
    ensures AllHaveTokens(m) ==> AllHaveTokens(r.1)
  {
    match SidOf(parsed)
    case None => (InvalidRequest, m)
    case Some(sid) => (Unregistered, RemoveSid(m, sid))
  }

  /** The body `null` makes both closures as written throw instead of replying. */
  lemma NullBodyGetsNoReply(m: Sessions)
    ensures OnRegisterEndAsWritten(m, Some(NullLiteral)).0 == ThrewTypeError
    ensures OnUnregisterEndAsWritten(m, Some(NullLiteral)).0 == ThrewTypeError
    ensures OnRegisterEnd(m, Some(NullLiteral)) == (InvalidRequest, m)
    ensures OnUnregisterEnd(m, Some(NullLiteral)) == (InvalidRequest, m)
  {
  }

  /** On every other parse result the corrected closures behave exactly as written. */
  lemma CorrectedAgreesElsewhere(m: Sessions, parsed: Option<Body>)
    requires parsed != Some(NullLiteral)
    ensures OnRegisterEndAsWritten(m, parsed) ==
              (Replied(OnRegisterEnd(m, parsed).0), OnRegisterEnd(m, parsed).1)
    ensures OnUnregisterEndAsWritten(m, parsed) ==
              (Replied(OnUnregisterEnd(m, parsed).0), OnUnregisterEnd(m, parsed).1)
  {
  }

  /** On every parse result the corrected closures leave the same table as the closures as written. */
  lemma SameTableAsWritten(m: Sessions, parsed: Option<Body>)
    ensures OnRegisterEndAsWritten(m, parsed).1 == OnRegisterEnd(m, parsed).1
    ensures OnUnregisterEndAsWritten(m, parsed).1 == OnUnregisterEnd(m, parsed).1
  {
  }

  /** Unregistering twice with the same body replies the same and changes nothing more. */
  lemma UnregisterIdempotent(m: Sessions, parsed: Option<Body>)
    ensures OnUnregisterEnd(OnUnregisterEnd(m, parsed).1, parsed) == OnUnregisterEnd(m, parsed)
  {
  }
}
