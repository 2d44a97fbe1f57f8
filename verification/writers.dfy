/**
 * Response writers. `Recorder` is the writer at the bottom of the chain (the
 * server's, or a test's `httptest.ResponseRecorder`): the first status
 * written is the response status, a body write without one implies 200, and
 * the body accumulates. `StatusWriter` is the middleware's wrapper: it
 * remembers the last status it was given and forwards every call.
 */
module Writers {
  import opened Wrappers

  const StatusOK: int := 200

  /** What the client receives so far. */
  datatype Response = Response(code: int, wroteHeader: bool, body: string)

  const Fresh: Response := Response(StatusOK, false, "")

  /** `WriteHeader(status)`: only the first call sets the status. */
  function AfterHeader(r: Response, status: int): Response {
    if r.wroteHeader then r else Response(status, true, r.body)
  }

  /** `Write(b)`: fixes the status (200 if none was written) and appends `b`. */
  function AfterWrite(r: Response, b: string): Response {
    Response(if r.wroteHeader then r.code else StatusOK, true, r.body + b)
  }

  /** What a handler emits: at most one status, then a body ("" means no body write). */
  datatype Reply = Reply(header: Option<int>, body: string)

  function Emit(r: Response, reply: Reply): Response {
    var h := if reply.header.Some? then AfterHeader(r, reply.header.value) else r;
    if reply.body == "" then h else AfterWrite(h, reply.body)
  }

  /** On a fresh writer the response is exactly the reply: its status (200 if none) and its body. */
  lemma EmitFresh(reply: Reply)
    ensures Emit(Fresh, reply).code == (if reply.header.Some? then reply.header.value else StatusOK)
    ensures Emit(Fresh, reply).body == reply.body
  {
  }

  /** Once a status is written, later statuses are ignored by the client but the body still grows. */
  lemma FirstHeaderWins(r: Response, a: int, b: int)
    ensures AfterHeader(AfterHeader(r, a), b) == AfterHeader(r, a)
    ensures AfterHeader(AfterHeader(r, a), b).code == (if r.wroteHeader then r.code else a)
  {
  }

  class Recorder {
    var code: int
    var wroteHeader: bool
    var body: string

    function View(): Response
      reads this
    {
      Response(code, wroteHeader, body)
    }

    constructor ()
      ensures View() == Fresh
    {
      code := StatusOK;
      wroteHeader := false;
      body := "";
    }

    method WriteHeader(status: int)
      modifies this
      ensures View() == AfterHeader(old(View()), status)
    {
      if wroteHeader {
        return;
      }
      code := status;
      wroteHeader := true;
    }

    method Write(b: string)
      modifies this
      ensures View() == AfterWrite(old(View()), b)
    {
      if !wroteHeader {
        WriteHeader(StatusOK);
      }
      body := body + b;
    }
  }

  /** `middleware.StatusWriter`: the wrapped writer and the last status given to `WriteHeader`. */
  class StatusWriter {
    const under: Recorder
    var status: int

    /** `&StatusWriter{w, http.StatusOK}`, built by `NewStatusWriterOverloader` for each request. */
    constructor (w: Recorder)
      ensures under == w && status == StatusOK
    {
      under := w;
      status := StatusOK;
    }

    /** Record the status, then forward it. */
    method WriteHeader(s: int)
      modifies this, under
      ensures status == s && under.View() == AfterHeader(old(under.View()), s)
    {
      status := s;
      under.WriteHeader(s);
    }
  }

  /** An `http.ResponseWriter` as the handlers see it: the bottom writer, or a `StatusWriter` over it. */
  datatype Writer = Raw(rec: Recorder) | Tracked(sw: StatusWriter)

  function Base(w: Writer): Recorder {
    match w
    case Raw(r) => r
    case Tracked(sw) => sw.under
  }

  function Objects(w: Writer): set<object> {
    match w
    case Raw(r) => {r}
    case Tracked(sw) => {sw, sw.under}
  }

  /** The status a `StatusWriter` remembers after `reply`: its last status, else what it had. */
  function TrackedAfter(status: int, reply: Reply): int {
    if reply.header.Some? then reply.header.value else status
  }

  /** Emit a reply through `w`: `WriteHeader` when it has a status, then `Write` when it has a body. */
  method Send(w: Writer, reply: Reply)
    modifies Objects(w)
    ensures Base(w).View() == Emit(old(Base(w).View()), reply)
    ensures w.Tracked? ==> w.sw.status == TrackedAfter(old(w.sw.status), reply)
  {
    if reply.header.Some? {
      match w
      case Raw(r) => r.WriteHeader(reply.header.value);
      case Tracked(sw) => sw.WriteHeader(reply.header.value);
    }
    if reply.body != "" {
      Base(w).Write(reply.body);
    }
  }
}
