/** The session router of internal/server/operator_ws.go: sessions by id, each with a bounded
    channel to its reader and a `closed` signal that fires once. Each method is atomic, as
    under the router's mutex. */
module Routing {
  import opened Prelude
  import opened Exec

  const TO_BROWSER := 64

  /** Value of one session's channels; `closes` counts how often `closed` was closed. */
  datatype Box = Box(queue: seq<Frame>, closed: bool, closes: nat)

  const FRESH := Box([], false, 0)

  function Shut(b: Box): Box { if b.closed then b else b.(closed := true, closes := b.closes + 1) }

  /** A frame for the session: queued, or the session is closed when its reader is 64 behind. */
  function Offer(b: Box, f: Frame): Box { if |b.queue| < TO_BROWSER then b.(queue := b.queue + [f]) else Shut(b) }

  class ActiveSession {
    var toBrowser: seq<Frame>
    var closed: bool
    ghost var closes: nat

    ghost function Value(): Box
      reads this
    {
      Box(toBrowser, closed, closes)
    }

    constructor ()
      ensures Value() == FRESH
    {
      toBrowser, closed, closes := [], false, 0;
    }

    method Close()
      modifies this
      ensures Value() == Shut(old(Value())) && closed && toBrowser == old(toBrowser)
      ensures closes == old(closes) + if old(closed) then 0 else 1
    {
      if !closed {
        closed, closes := true, closes + 1;
      }
    }

    method Put(f: Frame)
      modifies this
      ensures Value() == Offer(old(Value()), f)
      ensures |old(toBrowser)| < 64 ==> toBrowser == old(toBrowser) + [f] && closed == old(closed)
      ensures |old(toBrowser)| >= 64 ==> toBrowser == old(toBrowser) && closed
    {
      if |toBrowser| < TO_BROWSER {
        toBrowser := toBrowser + [f];
      } else {
        Close();
      }
    }
  }

  class Router {
    var sessions: map<string, ActiveSession>

    constructor ()
      ensures sessions == map[]
    {
      sessions := map[];
    }

    /** A second session for an id that is still attached is refused. */
    method Attach(sid: string, sess: ActiveSession) returns (ok: bool)
      modifies this
      ensures ok == (sid !in old(sessions))
      ensures sessions == if ok then old(sessions)[sid := sess] else old(sessions)
    {
      if sid in sessions {
        return false;
      }
      sessions := sessions[sid := sess];
      ok := true;
    }

    /** Removes whatever session the id has now, and closes it. */
    method Detach(sid: string)
      modifies this, sessions.Values
      ensures sessions == old(sessions) - {sid}
      ensures sid in old(sessions) ==> old(sessions)[sid].Value() == Shut(old(sessions[sid].Value()))
      ensures forall o :: o in old(sessions.Values) && (sid in old(sessions) ==> o != old(sessions)[sid]) ==>
                unchanged(o)
    {
      if sid in sessions {
        var sess := sessions[sid];
        sessions := sessions - {sid};
        sess.Close();
      }
    }

    /** Delivers a frame by its session id alone. */
    method Route(f: Frame)
      modifies sessions.Values
      ensures f.sid != "" && f.sid in sessions ==> sessions[f.sid].Value() == Offer(old(sessions[f.sid].Value()), f)
      ensures forall o :: o in sessions.Values && (f.sid in sessions ==> f.sid == "" || o != sessions[f.sid]) ==>
                unchanged(o)
    {
      if f.sid != "" && f.sid in sessions {
        sessions[f.sid].Put(f);
      }
    }
  }
}
