/** The render pipeline `Exec`: inject the request's `Common` context into
    the page data, log the app event and page view, buffer the response
    (headers, status, body) and write it to the real response only when
    rendering fully succeeds. Template execution is an oracle; the analytics
    calls are appends to an event log. */
module Render {
  import opened Types
  import opened Registry
  import opened CommonContext

  /** The content type set when the caller supplies none. */
  const DefaultContentType := "text/html; charset=utf-8"

  /** `http.StatusNotModified`. */
  const StatusNotModified := 304

  /** A response as it reaches the client: status, headers and body. */
  datatype Response = Response(status: int, header: Header, body: string)

  /** The "app" user event logged for every render. `result` is the status
      that `strconv.Itoa` renders. */
  datatype UserEvent = UserEvent(
    kind: string,
    service: string,
    methodName: string,
    result: int,
    url: string,
    uid: Option<int>,
    message: string)

  /** A page view, as `eventsutil.LogPageView` records it. */
  datatype PageView = PageView(uid: Option<int>, url: Url)

  /** The errors `Exec` returns to its caller. */
  datatype ExecError =
    | SessionError(reason: string)      // session read failure other than ErrNoSession
    | TemplateNotFound(name: string)    // "Template %s not found"
    | ExecutionFailed(reason: string)   // the error of t.Execute
  {
    /** The error's text, as the caller's `err.Error()` reads it. */
    function Message(): string {
      match this
      case SessionError(reason) => reason
      case TemplateNotFound(name) => "Template " + name + " not found"
      case ExecutionFailed(reason) => reason
    }
  }

  /** What a template sees of the page data. */
  datatype PageValue = PageValue(common: Common, err: Option<string>)

  /** Page data passed by pointer: its `Common` field is overwritten in
      place; `err` is the value of its `Err` field, `None` when the type
      has no such field. */
  class PageData {
    var common: Common
    const err: Option<string>

    constructor (common: Common, err: Option<string>)
      ensures this.common == common && this.err == err
    {
      this.common := common;
      this.err := err;
    }

    function Value(): PageValue
      reads this
    {
      PageValue(common, err)
    }
  }

  /** The real response writer: the responses written to it, in order. */
  class ResponseSink {
    var written: seq<Response>

    constructor ()
      ensures written == []
    {
      written := [];
    }

    /** Writes a whole buffered response in one operation. */
    method WriteResponse(r: Response)
      modifies this
      ensures written == old(written) + [r]
    {
      written := written + [r];
    }
  }

  /** Where `metricutil.LogEvent` and `eventsutil.LogPageView` record. */
  class EventLog {
    var events: seq<UserEvent>
    var pageViews: seq<PageView>

    constructor ()
      ensures events == [] && pageViews == []
    {
      events, pageViews := [], [];
    }

    method LogEvent(e: UserEvent)
      modifies this
      ensures events == old(events) + [e] && pageViews == old(pageViews)
    {
      events := events + [e];
    }

    method LogPageView(v: PageView)
      modifies this
      ensures pageViews == old(pageViews) + [v] && events == old(events)
    {
      pageViews := pageViews + [v];
    }
  }

  /** The app event of a render of `name` with `status`. */
  function AppEvent(req: Request, site: Site, name: string, status: int, message: string): (e: UserEvent)
    ensures e.kind == "app" && e.service == site.appURL.text && e.methodName == name
    ensures e.result == status && e.url == req.url.text && e.uid == req.uid && e.message == message
  {
    UserEvent("app", site.appURL.text, name, status, req.url.text, req.uid, message)
  }

  /** The event message of a render: the correlation ID and the
      application error, when the page data has an `Err` field. */
  function EventMessage(err: Option<string>, errorID: string): string {
    if err.Some? then ErrorMessage(errorID, err.value) else ""
  }

  /** Copies every header of `src` into `dst`, one key at a time. */
  method CopyHeader(dst: Header, src: Header) returns (r: Header)
    ensures r.Keys == dst.Keys + src.Keys
    ensures forall k :: k in src ==> r[k] == src[k]
    ensures forall k :: k in dst && k !in src ==> r[k] == dst[k]
  {
    r := dst;
    var todo := src.Keys;
    while todo != {}
      invariant todo <= src.Keys
      invariant r.Keys == dst.Keys + (src.Keys - todo)
      invariant forall k :: k in src.Keys - todo ==> r[k] == src[k]
      invariant forall k :: k in dst && k !in src.Keys - todo ==> r[k] == dst[k]
      decreases todo
    {
      var k :| k in todo;
      r := r[k := src[k]];
      todo := todo - {k};
    }
  }

  /** The buffered headers after the content-type default: unchanged when a
      non-empty `Content-Type` was supplied, otherwise with `Content-Type`
      set to the HTML default and every other header as it was. */
  function WithContentType(h: Header): (r: Header)
    ensures HeaderGet(r, "Content-Type") != ""
    ensures HeaderGet(h, "Content-Type") != "" ==> r == h
    ensures HeaderGet(h, "Content-Type") == "" ==> r["Content-Type"] == [DefaultContentType]
    ensures forall k :: k != "Content-Type" ==> (k in r <==> k in h) && (k in h ==> r[k] == h[k])
  {
    if HeaderGet(h, "Content-Type") == "" then h["Content-Type" := [DefaultContentType]] else h
  }

  /** Runs the template registered as `name` on `data`: a lookup miss or
      an execution failure is an error, and otherwise the body produced. */
  method ExecuteTemplateBase(reg: TemplateRegistry, name: string, data: Option<PageValue>,
                             execute: (Unit, Option<PageValue>) -> Result<string, string>)
    returns (r: Result<string, ExecError>)
    ensures name !in reg.templates ==> r == Err(TemplateNotFound(name))
    ensures name !in reg.templates ==> r.error.Message() == "Template " + name + " not found"
    ensures name in reg.templates && execute(reg.templates[name], data).Err? ==>
      r == Err(ExecutionFailed(execute(reg.templates[name], data).error))
    ensures name in reg.templates && execute(reg.templates[name], data).Ok? ==>
      r == Ok(execute(reg.templates[name], data).value)
  {
    var t := reg.Get(name);
    if t.None? {
      return Err(TemplateNotFound(name));
    }
    match execute(t.value, data) {
      case Err(e) => r := Err(ExecutionFailed(e));
      case Ok(body) => r := Ok(body);
    }
  }

  /** The page data a template sees: nil, or the data with its `Common`. */
  function PageValueOf(data: PageData?): Option<PageValue>
    reads data
  {
    if data == null then None else Some(data.Value())
  }

  /** `Exec(req, resp, name, status, header, data)`. `draw` is the
      randomness of the correlation ID; `execute` runs a compiled unit.
      A session read failure returns at once and changes nothing. Otherwise
      the page data (when present) gets the injected `Common`, one app event
      and one page view are logged, and the response is buffered; the sink
      receives that buffer, once, only when the status is not 304 and the
      template is found and executes without error. */
  method Exec(reg: TemplateRegistry, req: Request, site: Site, resp: ResponseSink, log: EventLog,
              name: string, status: int, header: Header, data: PageData?,
              execute: (Unit, Option<PageValue>) -> Result<string, string>, draw: nat -> char)
    returns (r: Outcome<ExecError>)
    modifies resp, log, data
    // The session-error early exit: nothing is injected, logged or written.
    ensures data != null && req.session.SessionFailed? ==>
      && r == Fail(SessionError(req.session.reason))
      && data.common == old(data.common)
      && log.events == old(log.events) && log.pageViews == old(log.pageViews)
      && resp.written == old(resp.written)
    // Without page data no session is read and no context is injected.
    ensures data == null ==> !(r.Fail? && r.error.SessionError?)
    // The merge: the caller's Common is replaced by the injected one.
    ensures data != null && !req.session.SessionFailed? ==>
      data.common == InjectedCommon(old(data.common), req, site, name, ErrorIDFor(data.err, draw))
    // Exactly one app event and one page view past the early exit.
    ensures !(data != null && req.session.SessionFailed?) ==>
      && log.events == old(log.events) +
           [AppEvent(req, site, name, status,
                     if data == null then "" else EventMessage(data.err, ErrorIDFor(data.err, draw)))]
      && log.pageViews == old(log.pageViews) + [PageView(req.uid, req.url)]
    // Not Modified: success with nothing written and no template lookup.
    ensures !(data != null && req.session.SessionFailed?) && status == StatusNotModified ==>
      r == Pass && resp.written == old(resp.written)
    // A lookup miss: the error, nothing written.
    ensures !(data != null && req.session.SessionFailed?) && status != StatusNotModified &&
            name !in reg.templates ==>
      r == Fail(TemplateNotFound(name)) && resp.written == old(resp.written)
    // An execution failure: the error, nothing written.
    ensures !(data != null && req.session.SessionFailed?) && status != StatusNotModified &&
            name in reg.templates && execute(reg.templates[name], PageValueOf(data)).Err? ==>
      && r == Fail(ExecutionFailed(execute(reg.templates[name], PageValueOf(data)).error))
      && resp.written == old(resp.written)
    // Full success: the whole buffer, flushed once.
    ensures !(data != null && req.session.SessionFailed?) && status != StatusNotModified &&
            name in reg.templates && execute(reg.templates[name], PageValueOf(data)).Ok? ==>
      && r == Pass
      && resp.written == old(resp.written) +
           [Response(status, WithContentType(header), execute(reg.templates[name], PageValueOf(data)).value)]
    // The sink is written at most once, and only by a successful render.
    ensures resp.written == old(resp.written) ||
      (r == Pass && status != StatusNotModified && |resp.written| == |old(resp.written)| + 1 &&
       resp.written[..|old(resp.written)|] == old(resp.written))
  {
    var message := "";
    if data != null {
      if req.session.SessionFailed? {
        return Fail(SessionError(req.session.reason));
      }
      var existing := data.common;
      var errorID := "";
      if data.err.Some? {
        errorID := NewLen(ErrorIDLength, draw);
        message := ErrorMessage(errorID, data.err.value);
      }
      data.common := InjectedCommon(existing, req, site, name, errorID);
    }
    var appEvent := AppEvent(req, site, name, status, message);

    log.LogEvent(appEvent);
    log.LogPageView(PageView(req.uid, req.url));

    // The response buffer: headers, then status, then body.
    var bwHeader := CopyHeader(map[], header);
    assert bwHeader == header;
    bwHeader := WithContentType(bwHeader);
    var bwStatus := status;
    if status == StatusNotModified {
      return Pass;
    }

    var body := ExecuteTemplateBase(reg, name, PageValueOf(data), execute);
    if body.Err? {
      return Fail(body.error);
    }
    resp.WriteResponse(Response(bwStatus, bwHeader, body.value));
    r := Pass;
  }
}
