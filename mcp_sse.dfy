/**
 * The MCP SSE session table: a module-level map from session id to session, changed by
 * `createSession`, `removeSession` and `cleanupStaleSessions`, and `sendSseEvent`, which
 * enqueues one frame in the event-stream format of section 9.2 of the WHATWG HTML Living
 * Standard ("Server-sent events"). The random UUID and the clock are parameters.
 */
module McpSse {
  import opened Wrappers
  import opened JsText

  /** Sessions created more than an hour (in milliseconds) ago are stale. */
  const StaleAfter: int := 3600000

  /** A stream controller; all the model keeps of it is what was enqueued, in order. */
  class Controller {
    var enqueued: seq<string>

    constructor ()
      ensures enqueued == []
    {
      enqueued := [];
    }
  }

  datatype Session = Session(id: string, controller: Controller, createdAt: int)

  /** One event-stream frame: an `event` line, a `data` line and the blank line that dispatches it. */
  function Frame(event: string, data: string): string {
    "event: " + event + "\ndata: " + data + "\n\n"
  }

  /** `sendSseEvent(controller, event, data)`. */
  method SendSseEvent(controller: Controller, event: string, data: string)
    modifies controller
    ensures controller.enqueued == old(controller.enqueued) + [Frame(event, data)]
  {
    controller.enqueued := controller.enqueued + [Frame(event, data)];
  }

  /** What survives `cleanupStaleSessions` at time `now`: every session at most an hour old. */
  function Retained(sessions: map<string, Session>, now: int): (r: map<string, Session>)
    ensures r.Keys <= sessions.Keys
    ensures forall k :: k in r ==> r[k] == sessions[k]
  {
    map k | k in sessions && !(now - sessions[k].createdAt > StaleAfter) :: sessions[k]
  }

  class SessionStore {
    var sessions: map<string, Session>

    /** Every session is stored under its own id. */
    ghost predicate Valid()
      reads this
    {
      forall k :: k in sessions ==> sessions[k].id == k
    }

    constructor ()
      ensures sessions == map[] && Valid()
    {
      sessions := map[];
    }

    /** `createSession(controller)`, with `uuid` the fresh `crypto.randomUUID()` and `now` the clock. */
    method CreateSession(controller: Controller, uuid: string, now: int) returns (id: string)
      requires Valid()
      modifies this
      ensures Valid()
      ensures id == uuid && sessions == old(sessions)[uuid := Session(uuid, controller, now)]
      ensures GetSession(id) == Some(Session(id, controller, now))
    {
      id := uuid;
      sessions := sessions[id := Session(id, controller, now)];
    }

    /** `getSession(id)`. */
    function GetSession(id: string): (r: Option<Session>)
      reads this
      ensures r.Some? <==> id in sessions
      ensures r.Some? ==> r.value == sessions[id]
    {
      if id in sessions then Some(sessions[id]) else None
    }

    /** `removeSession(id)`. */
    method RemoveSession(id: string)
      requires Valid()
      modifies this
      ensures Valid()
      ensures sessions == old(sessions) - {id}
      ensures GetSession(id) == None
    {
      sessions := sessions - {id};
    }

    /** `cleanupStaleSessions()` at time `now`: the loop visits every entry and deletes the stale ones. */
    method CleanupStaleSessions(now: int)
      requires Valid()
      modifies this
      ensures Valid()
      ensures sessions == Retained(old(sessions), now)
    {
      var pending := sessions.Keys;
      ghost var start := sessions;
      while pending != {}
        invariant pending <= start.Keys
        invariant sessions.Keys <= start.Keys
        invariant forall k :: k in sessions ==> sessions[k] == start[k]
        invariant forall k :: k in start && k !in pending ==> (k in sessions <==> k in Retained(start, now))
        invariant forall k :: k in pending ==> k in sessions
        invariant Valid()
        decreases |pending|
      {
        var id :| id in pending;
        if now - sessions[id].createdAt > StaleAfter {
          sessions := sessions - {id};
        }
        pending := pending - {id};
      }
      assert sessions.Keys == Retained(start, now).Keys;
    }
  }

  // ------------------------------------------------------------------ properties

  /** A session is deleted by the cleanup exactly when it is more than 3,600,000 ms old. */
  lemma RetainedIff(sessions: map<string, Session>, now: int, k: string)
    requires k in sessions
    ensures k in Retained(sessions, now) <==> now - sessions[k].createdAt <= 3600000
  {
  }

  /** The comparison is strict: a session exactly an hour old is kept. */
  lemma HourOldKept(sessions: map<string, Session>, k: string)
    requires k in sessions
    ensures k in Retained(sessions, sessions[k].createdAt + 3600000)
    ensures k !in Retained(sessions, sessions[k].createdAt + 3600001)
  {
  }

  /** Cleaning up twice at the same time deletes nothing the second time. */
  lemma RetainedIdempotent(sessions: map<string, Session>, now: int)
    ensures Retained(Retained(sessions, now), now) == Retained(sessions, now)
  {
  }

  /**
   * Read back as an event stream, a frame whose event and data hold no line break is the lines
   * "event: <event>" and "data: <data>" followed by the empty line that dispatches the event.
   */
  lemma FrameLines(event: string, data: string)
    requires '\n' !in event && '\n' !in data
    ensures Split(Frame(event, data), '\n') == ["event: " + event, "data: " + data, "", ""]
  {
    NoBreak("event: ", event);
    NoBreak("data: ", data);
    FrameRegrouped(event, data);
    ThreeBreaks("event: " + event, "data: " + data);
  }

  lemma NoBreak(a: string, x: string)
    requires '\n' !in a && '\n' !in x
    ensures '\n' !in a + x
  {
  }

  lemma FrameRegrouped(event: string, data: string)
    ensures Frame(event, data) == ("event: " + event) + ['\n'] + (("data: " + data) + ['\n'] + ([] + ['\n'] + []))
  {
    assert "\ndata: " == ['\n'] + "data: ";
    assert "\n\n" == ['\n'] + ['\n'];
    Regroup("event: ", event, '\n', "data: ", data);
  }

  lemma Regroup(a: string, x: string, n: char, b: string, y: string)
    ensures a + x + ([n] + b) + y + ([n] + [n]) == (a + x) + [n] + ((b + y) + [n] + ([] + [n] + []))
  {
  }

  lemma ThreeBreaks(e: string, d: string)
    requires '\n' !in e && '\n' !in d
    ensures Split(e + ['\n'] + (d + ['\n'] + ([] + ['\n'] + [])), '\n') == [e, d, [], []]
  {
    SplitNone([], '\n');
    SplitAt([], '\n', []);
    SplitAt(d, '\n', [] + ['\n'] + []);
    SplitAt(e, '\n', d + ['\n'] + ([] + ['\n'] + []));
  }
}
