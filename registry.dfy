/**
 * The session registry of the Apple push provider: a table from session ids (sids)
 * to the registration object a client posted, and the pure operations on it.
 * The class in module Provider keeps such a table in a field and is specified
 * by the functions below.
 */
module Registry {
  import opened Wrappers

  /**
   * A JSON value, only as far as JavaScript truthiness can tell values apart.
   * Numbers are integers here (JSON.parse never yields NaN).
   */
  datatype Json = Null | Bool(b: bool) | Num(n: int) | Str(s: string) | Arr | Obj

  /** JavaScript truthiness of a property read: a missing property is `undefined`, which is falsy. */
  predicate Truthy(v: Option<Json>)
  {
    match v
    case None => false
    case Some(Null) => false
    case Some(Bool(b)) => b
    case Some(Num(n)) => n != 0
    case Some(Str(s)) => s != ""
    case Some(Arr) => true
    case Some(Obj) => true
  }

  /**
   * A decoded registration request: the JSON object a client posts. It is stored
   * as given; of its properties the provider reads only `sid` and `device-token`.
   */
  datatype Request = Request(sid: Option<string>, deviceToken: Option<Json>)

  /** The `sessions` table, keyed by sid. */
  type Sessions = map<string, Request>

  /** A message stanza as the stream server hands it over: its local element name (without a namespace prefix) and its `body` child's text, if any. */
  datatype Stanza = Stanza(name: string, body: Option<string>)

  /** Reading `sessions[sid]`: the stored registration or `undefined`. */
  function Get(m: Sessions, sid: string): Option<Request>
  {
    if sid in m then Some(m[sid]) else None
  }

  /** Every sid other than `sid` reads the same in both tables. */
  ghost predicate SameExcept(a: Sessions, b: Sessions, sid: string)
  {
    forall k :: k != sid ==> Get(a, k) == Get(b, k)
  }

  /** Every stored registration carries a truthy device token. */
  ghost predicate AllHaveTokens(m: Sessions)
  {
    forall k :: k in m ==> Truthy(m[k].deviceToken)
  }

  /**
   * `_add_sid(sid, info)`: stores `info` under `sid`, overwriting an earlier entry,
   * exactly when `info['device-token']` is truthy, and reports whether it did.
   */
  function AddSid(m: Sessions, sid: string, info: Request): (r: (bool, Sessions))
    ensures r.0 <==> Truthy(info.deviceToken)
    ensures r.0 ==> Get(r.1, sid) == Some(info)
    ensures !r.0 ==> r.1 == m
    ensures SameExcept(r.1, m, sid)
    ensures AllHaveTokens(m) ==> AllHaveTokens(r.1)
  {
    if Truthy(info.deviceToken) then (true, m[sid := info]) else (false, m)
  }

  /** `_remove_sid(sid)`: `delete sessions[sid]`, which never fails on an absent sid. */
  function RemoveSid(m: Sessions, sid: string): (r: Sessions)
    ensures Get(r, sid) == None
    ensures SameExcept(r, m, sid)
    ensures sid !in m ==> r == m
    ensures r.Keys == m.Keys - {sid}
    ensures AllHaveTokens(m) ==> AllHaveTokens(r)
  {
    m - {sid}
  }

  /** `stream_terminated`: removes the sid of the terminated stream when it is registered. */
  function StreamTerminated(m: Sessions, sid: string): (r: Sessions)
    ensures r == RemoveSid(m, sid)
  {
    if sid in m then RemoveSid(m, sid) else m
  }

  /**
   * The reachable part of `response_received`: the text of the message it would
   * push, present exactly when the stream's sid is registered and the stanza is a
   * `message` with a `body` child. The function returns before anything is sent.
   */
  function PushCandidate(m: Sessions, sid: string, stanza: Stanza): (r: Option<string>)
    ensures r.Some? <==> sid in m && stanza.name == "message" && stanza.body.Some?
    ensures r.Some? ==> r == stanza.body
  {
    if sid in m then
      if stanza.name == "message" then
        match stanza.body
        case Some(text) => Some(text)
        case None => None
      else None
    else None
  }

  /** Removing the same sid twice has the effect of removing it once. */
  lemma RemoveSidIdempotent(m: Sessions, sid: string)
    ensures RemoveSid(RemoveSid(m, sid), sid) == RemoveSid(m, sid)
  {
  }

  /** Registering the same sid and info twice has the effect of registering it once. */
  lemma AddSidIdempotent(m: Sessions, sid: string, info: Request)
    ensures AddSid(AddSid(m, sid, info).1, sid, info) == AddSid(m, sid, info)
  {
    if Truthy(info.deviceToken) {
      assert m[sid := info][sid := info] == m[sid := info];
    }
  }

  /** A later successful registration for a sid replaces the earlier one (last writer wins). */
  lemma AddSidOverwrites(m: Sessions, sid: string, first: Request, second: Request)
    requires Truthy(second.deviceToken)
    ensures AddSid(AddSid(m, sid, first).1, sid, second).1 == AddSid(m, sid, second).1
  {
  }

  /** Removing after a registration leaves no trace of the registration, nor of an older entry. */
  lemma RemoveUndoesAdd(m: Sessions, sid: string, info: Request)
    ensures RemoveSid(AddSid(m, sid, info).1, sid) == RemoveSid(m, sid)
  {
  }

  /** Operations on two different sids commute. */
  lemma AddRemoveCommute(m: Sessions, a: string, info: Request, b: string)
    requires a != b
    ensures RemoveSid(AddSid(m, a, info).1, b) == AddSid(RemoveSid(m, b), a, info).1
  {
  }
}
