/** The per-request `Common` context that `Exec` injects into page data:
    the request collaborators it is built from, the Cache-Control
    propagation heuristic, the error correlation ID and the merge with the
    caller's partial `Common`. */
module CommonContext {
  import opened Types

  /** A session read from the session cookie. */
  datatype Session = Session(token: string)

  /** A resolved user. */
  datatype User = User(uid: int, login: string)

  /** What reading the session cookie yields: a session, the `ErrNoSession`
      error (an anonymous request, not a failure), or any other error. */
  datatype SessionRead = SessionFound(session: Session) | NoSession | SessionFailed(reason: string)

  /** The request and what the request-derived collaborators answer for it,
      taken as given:
      - `uid`: the user spec of `handlerutil.UserFromRequest`, by its UID;
      - `fullUser`, `emails`: `FullUserFromRequest`, `EmailsFromRequest`;
      - `session`: `appauth.ReadSessionCookie`;
      - `csrfToken`: `nosurf.Token`; `routeName`: `httpctx.RouteName`;
      - `routeVars`: `mux.Vars`; `spanID`: `traceutil.SpanID`;
      - `debug`: `handlerutil.DebugMode`; `returnTo`: `returnto.BestGuess`
        (its error is ignored, as in the source);
      - `query`: `req.URL.Query()`; `ctx`: `httpctx.FromRequest`. */
  datatype Request = Request(
    host: string,
    url: Url,
    header: Header,
    query: map<string, seq<string>>,
    session: SessionRead,
    uid: Option<int>,
    fullUser: Option<User>,
    emails: Option<seq<string>>,
    csrfToken: string,
    routeName: string,
    routeVars: map<string, string>,
    spanID: nat,
    debug: bool,
    returnTo: string,
    ctx: nat)

  /** Process-wide collaborators: `conf.AppURL`, URL resolution against it
      (`ResolveReference`), `canonicalurl.FromURL`, the
      `DisableExternalLinks` flag and the feature toggles. */
  datatype Site = Site(
    appURL: Url,
    resolve: (Url, Url) -> Url,
    canonical: Url -> Url,
    disableExternalLinks: bool,
    features: map<string, bool>)

  /** The fields available at the top level of every template `Exec` runs;
      a nil pointer or interface is `None`. */
  datatype Common = Common(
    requestHost: string,
    session: Option<Session>,
    csrfToken: string,
    currentUser: Option<User>,
    userEmails: Option<seq<string>>,
    currentRoute: string,
    currentURI: Option<Url>,
    currentURL: Option<Url>,
    currentQuery: map<string, seq<string>>,
    currentSpanID: nat,
    templateName: string,
    appURL: Option<Url>,
    canonicalURL: Option<Url>,
    hostName: string,
    ctx: Option<nat>,
    currentRouteVars: map<string, string>,
    debug: bool,
    returnTo: string,
    disableExternalLinks: bool,
    features: Option<map<string, bool>>,
    errorID: string,
    cacheControl: string,
    hideMOTD: bool,
    hideSearch: bool)

  /** The zero value of `Common`. */
  const ZeroCommon := Common("", None, "", None, None, "", None, None, map[], 0, "", None, None, "",
                             None, map[], false, "", false, None, "", "", false, false)

  /** The Cache-Control directive propagated to the page's own requests:
      `no-cache` when the request's Cache-Control value mentions `no-cache`
      or `max-age=0` anywhere, and nothing otherwise. */
  function CacheControlFor(cc: string): (r: string)
    ensures r == "no-cache" <==> IsSubstring("no-cache", cc) || IsSubstring("max-age=0", cc)
    ensures r == "no-cache" || r == ""
  {
    if Contains(cc, "no-cache") || Contains(cc, "max-age=0") then "no-cache" else ""
  }

  /** The heuristic on four typical inbound Cache-Control values: `no-cache`,
      `max-age=0, private`, an absent header and `max-age=3600`. */
  lemma CacheControlExamples()
    ensures CacheControlFor("no-cache") == "no-cache"
    ensures CacheControlFor("max-age=0, private") == "no-cache"
    ensures CacheControlFor("") == ""
    ensures CacheControlFor("max-age=3600") == ""
  {
    assert OccursAt("no-cache", "no-cache", 0);
    assert OccursAt("max-age=0", "max-age=0, private", 0);
    var long := "max-age=3600";
    forall i ensures !OccursAt("no-cache", long, i) && !OccursAt("max-age=0", long, i) {
      if 0 <= i <= |long| - 8 {
        assert long[i..i + 8][0] == long[i] != 'n';
      }
      if 0 <= i <= |long| - 9 {
        if i == 0 {
          assert long[..9][8] != '0';
        } else {
          assert long[i..i + 9][0] == long[i] != 'm';
        }
      }
    }
  }

  /** The length of an error correlation ID. */
  const ErrorIDLength: nat := 6

  /** `randstring.NewLen(n)`: `n` characters drawn from `draw`, the source
      of randomness. */
  function NewLen(n: nat, draw: nat -> char): (s: string)
    ensures |s| == n
    ensures forall i :: 0 <= i < n ==> s[i] == draw(i)
  {
    seq(n, (i: int) requires 0 <= i => draw(i))
  }

  /** The correlation ID of a render: a fresh random ID when the page data
      has an `Err` field, and empty otherwise. */
  function ErrorIDFor(err: Option<string>, draw: nat -> char): (id: string)
    ensures |id| == ErrorIDLength <==> err.Some?
    ensures err.None? ==> id == ""
  {
    if err.Some? then NewLen(ErrorIDLength, draw) else ""
  }

  /** The message of the app event that reports an application error. */
  function ErrorMessage(id: string, msg: string): (s: string)
    ensures |s| == 8 + |id| + 5 + |msg|
    ensures s[..8] == "ErrorID:" && s[8..8 + |id|] == id
    ensures s[8 + |id|..8 + |id| + 5] == " Msg:" && s[8 + |id| + 5..] == msg
  {
    "ErrorID:" + id + " Msg:" + msg
  }

  /** The correlation ID a log reader finds in an error event message. */
  function MessageErrorID(message: string): string {
    if |message| >= 8 + ErrorIDLength then message[8..8 + ErrorIDLength] else ""
  }

  /** The event message carries the correlation ID the user is shown, and
      the application error's text after it. */
  lemma ErrorMessageCarriesID(id: string, msg: string)
    requires |id| == ErrorIDLength
    ensures MessageErrorID(ErrorMessage(id, msg)) == id
    ensures ErrorMessage(id, msg)[8 + ErrorIDLength + 5..] == msg
  {
  }

  /** The session `Exec` puts into `Common`: absent when there is no
      session (the `ErrNoSession` case). */
  function SessionOf(s: SessionRead): (r: Option<Session>)
    ensures r.Some? <==> s.SessionFound?
    ensures s.SessionFound? ==> r == Some(s.session)
  {
    if s.SessionFound? then Some(s.session) else None
  }

  /** The page's current URL: the request URL resolved against the app URL. */
  function CurrentURL(req: Request, site: Site): Url {
    site.resolve(site.appURL, req.url)
  }

  /** The `Common` value `Exec` writes over the caller's `existing` one.
      Only `HideMOTD` is carried over, and `CanonicalURL` when the caller
      set one; every other field is computed from the request for template
      `name`, with correlation ID `errorID`. */
  function InjectedCommon(existing: Common, req: Request, site: Site, name: string, errorID: string): (c: Common)
    ensures c.hideMOTD == existing.hideMOTD
    ensures existing.canonicalURL.Some? ==> c.canonicalURL == existing.canonicalURL
    ensures existing.canonicalURL.None? ==> c.canonicalURL == Some(site.canonical(CurrentURL(req, site)))
    ensures c.templateName == name && c.errorID == errorID
    ensures c.cacheControl == CacheControlFor(HeaderGet(req.header, "Cache-Control"))
    ensures c.session == SessionOf(req.session)
    ensures c.currentURI == Some(req.url) && c.currentURL == Some(CurrentURL(req, site))
    ensures c.appURL == Some(site.appURL)
    ensures !c.hideSearch && c.hostName == ""
  {
    var currentURL := CurrentURL(req, site);
    var canonicalURL := if existing.canonicalURL.Some? then existing.canonicalURL
                        else Some(site.canonical(currentURL));
    Common(
      requestHost := req.host,
      session := SessionOf(req.session),
      csrfToken := req.csrfToken,
      currentUser := req.fullUser,
      userEmails := req.emails,
      currentRoute := req.routeName,
      currentURI := Some(req.url),
      currentURL := Some(currentURL),
      currentQuery := req.query,
      currentSpanID := req.spanID,
      templateName := name,
      appURL := Some(site.appURL),
      canonicalURL := canonicalURL,
      hostName := "",
      ctx := Some(req.ctx),
      currentRouteVars := req.routeVars,
      debug := req.debug,
      returnTo := req.returnTo,
      disableExternalLinks := site.disableExternalLinks,
      features := Some(site.features),
      errorID := errorID,
      cacheControl := CacheControlFor(HeaderGet(req.header, "Cache-Control")),
      hideMOTD := existing.hideMOTD,
      hideSearch := false)
  }

  /** Nothing of the caller's `Common` but `HideMOTD` and `CanonicalURL`
      reaches the injected value: two callers that agree on those two
      fields get the same context. */
  lemma InjectedCommonIgnoresOtherFields(e1: Common, e2: Common, req: Request, site: Site, name: string, errorID: string)
    requires e1.hideMOTD == e2.hideMOTD && e1.canonicalURL == e2.canonicalURL
    ensures InjectedCommon(e1, req, site, name, errorID) == InjectedCommon(e2, req, site, name, errorID)
  {
  }

  /** The injected value is the one derived for a caller who set nothing,
      with the caller's `HideMOTD` and, if set, `CanonicalURL` put back. */
  lemma InjectedCommonIsFreshButTwoFields(existing: Common, req: Request, site: Site, name: string, errorID: string)
    ensures
      var derived := InjectedCommon(ZeroCommon, req, site, name, errorID);
      InjectedCommon(existing, req, site, name, errorID) ==
        derived.(hideMOTD := existing.hideMOTD,
               canonicalURL := if existing.canonicalURL.Some? then existing.canonicalURL else derived.canonicalURL)
  {
  }

  /** Injecting twice for the same request is injecting once. */
  lemma InjectedCommonIdempotent(existing: Common, req: Request, site: Site, name: string, errorID: string)
    ensures
      var once := InjectedCommon(existing, req, site, name, errorID);
      InjectedCommon(once, req, site, name, errorID) == once
  {
  }
}
