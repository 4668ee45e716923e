/**
 * The `APNProvider` object: its `sessions` table is a field that the registry
 * operations update in place. Every method is specified by the functions of
 * modules Registry and Requests.
 */
module Provider {
  import opened Wrappers
  import opened Registry
  import opened Requests

  class APNProvider {
    var sessions: Sessions

    /** Only registrations with a truthy device token are ever stored. */
    ghost predicate Valid()
      reads this
    {
      AllHaveTokens(sessions)
    }

    /** The provider starts with an empty table. */
    constructor ()
      ensures Valid()
      ensures sessions == map[]
    {
      sessions := map[];
    }

    /** `_add_sid`: stores `info` under `sid` when its device token is truthy. */
    method AddSid(sid: string, info: Request) returns (added: bool)
      requires Valid()
      modifies this
      ensures Valid()
      ensures added <==> Truthy(info.deviceToken)
      ensures (added, sessions) == Registry.AddSid(old(sessions), sid, info)
    {
      if Truthy(info.deviceToken) {
        sessions := sessions[sid := info];
        added := true;
      } else {
        added := false;
      }
    }

    /** `_remove_sid`: deletes the entry for `sid`, if there is one. */
    method RemoveSid(sid: string)
      requires Valid()
      modifies this
      ensures Valid()
      ensures sid !in sessions
      ensures sessions == Registry.RemoveSid(old(sessions), sid)
    {
      sessions := sessions - {sid};
    }

    /** `stream_terminated`: removes the terminated stream's sid when it is registered. */
    method StreamTerminated(sid: string)
      requires Valid()
      modifies this
      ensures Valid()
      ensures sessions == Registry.StreamTerminated(old(sessions), sid)
      ensures sessions == Registry.RemoveSid(old(sessions), sid)
    {
      if sid in sessions {
        RemoveSid(sid);
      }
    }

    /**
     * `response_received`: looks the stream's sid up and inspects the stanza;
     * the result is the message text it would push. It modifies nothing.
     */
    method ResponseReceived(stanza: Stanza, sid: string) returns (pending: Option<string>)
      ensures pending == PushCandidate(sessions, sid, stanza)
    {
      pending := None;
      if sid in sessions {
        if stanza.name == "message" {
          if stanza.body.Some? {
            pending := stanza.body;
          }
        }
      }
    }

    /** The `on_end` closure of the register handler, as corrected for a `null` body (see Findings). */
    method OnRegisterEnd(parsed: Option<Body>) returns (reply: Reply)
      requires Valid()
      modifies this
      ensures Valid()
      ensures (reply, sessions) == Requests.OnRegisterEnd(old(sessions), parsed)
    {
      if parsed.None? {
        return InvalidRequest;
      }
      var body := parsed.value;
      if !body.ObjectBody? || body.req.sid.None? {
        return InvalidRequest;
      }
      var added := AddSid(body.req.sid.value, body.req);
      if added {
        reply := Registered;
      } else {
        reply := InvalidRequest;
      }
    }

    /** The `on_end` closure of the unregister handler, as corrected for a `null` body (see Findings). */
    method OnUnregisterEnd(parsed: Option<Body>) returns (reply: Reply)
      requires Valid()
      modifies this
      ensures Valid()
      ensures (reply, sessions) == Requests.OnUnregisterEnd(old(sessions), parsed)
    {
      if parsed.None? {
        return InvalidRequest;
      }
      var body := parsed.value;
      if !body.ObjectBody? || body.req.sid.None? {
        return InvalidRequest;
      }
      RemoveSid(body.req.sid.value);
      reply := Unregistered;
    }
  }
}
