/** What the answers hand out: every form, code, session and cookie in an answer is a row of the new tables,
    for what the request asked and for the browser that asked. */
module SsoAnswers {
  import opened Options
  import opened SsoModel
  import opened SsoPresented

  /** The cookies a browser holds after an answer that sets these. */
  function Stored(jar: Cookies, news: seq<(CookieName, Text)>): Cookies {
    if news == [] then jar
    else
      var before, next := Stored(jar, news[..|news| - 1]), news[|news| - 1];
      match next.0
      case RpBinding => before.(rpBinding := next.1)
      case RpAuth => before.(rpAuth := next.1)
      case RpStrict => before.(rpStrict := next.1)
      case IdpBinding => before.(idpBinding := next.1)
  }

  lemma StoredNone(jar: Cookies)
    ensures Stored(jar, []) == jar
  { }

  lemma StoredOne(jar: Cookies, name: CookieName, value: Text)
    ensures var j := Stored(jar, [(name, value)]);
            && j.rpBinding == (if name == RpBinding then value else jar.rpBinding)
            && j.rpAuth == (if name == RpAuth then value else jar.rpAuth)
            && j.idpBinding == (if name == IdpBinding then value else jar.idpBinding)
  {
    var one := [(name, value)];
    assert one[..0] == [];
  }

  lemma StoredTwo(jar: Cookies, strict: Text, binding: Text)
    ensures var j := Stored(jar, [(RpStrict, strict)] + [(RpBinding, binding)]);
            j.rpBinding == binding && j.rpAuth == jar.rpAuth && j.idpBinding == jar.idpBinding
  {
    var two := [(RpStrict, strict)] + [(RpBinding, binding)];
    assert two[..1] == [(RpStrict, strict)];
    StoredOne(jar, RpStrict, strict);
  }

  // ----- what an answer delivers -----

  /** A home page leaves the browser with a live binding: its own, or a new one. */
  ghost predicate HomeDelivers(r: Request, t: Store, a: Response) {
    var b := Stored(r.cookies, a.cookies).rpBinding;
    && a.status == 200 && r.target.Home? && b in t.browsers
    && ((b == r.cookies.rpBinding && t.browsers[b].expires > r.clock.check1)
        || t.browsers[b].expires == r.clock.issue + 15 * MINUTE)
  }

  /** A redirect to the provider carries a new flow of the presented binding and the digest of its verifier. */
  ghost predicate StartDelivers(r: Request, t: Store, a: Response, state: Text, challenge: Text) {
    && a.status == 302 && r.target.Start? && a.cookies == [] && state in t.pending
    && t.pending[state].expires == r.clock.issue + 3 * MINUTE && t.pending[state].value.browser == r.cookies.rpBinding
    && challenge == Challenge(t.pending[state].value.verifier)
  }

  /** A login page carries a new form for the asked state and challenge, bound to the provider binding the
      browser now holds. */
  ghost predicate FormDelivers(cfg: Config, r: Request, t: Store, a: Response, csrf: Text) {
    var b := Stored(r.cookies, a.cookies).idpBinding;
    && a.status == 200 && !cfg.autoAuthorizeReturn && csrf in t.forms && b in t.idpBrowsers
    && t.forms[csrf].value.browser == b && Asks(r, t.forms[csrf].value.state, t.forms[csrf].value.challenge)
    && t.forms[csrf].expires == r.clock.check3 + 3 * MINUTE
  }

  /** A redirect to the callback carries a new code for the state and challenge of the spent form, or, where
      codes are issued automatically, for those asked. */
  ghost predicate CodeDelivers(cfg: Config, s: Store, r: Request, t: Store, a: Response, code: Text, state: Text,
                               denied: bool) {
    && code in t.codes && t.codes[code].value.state == state
    && if r.target.Login? then
         && a.status == 303 && denied == cfg.deniedCallbackPath && r.target.csrf in s.forms
         && r.target.csrf !in t.forms && s.forms[r.target.csrf].value.browser == r.cookies.idpBinding
         && t.codes[code].value.state == s.forms[r.target.csrf].value.state
         && t.codes[code].value.challenge == s.forms[r.target.csrf].value.challenge
         && t.codes[code].expires == r.clock.issue + 3 * MINUTE
       else
         && a.status == 302 && !denied && cfg.autoAuthorizeReturn && Asks(r, state, t.codes[code].value.challenge)
         && t.codes[code].expires == r.clock.check3 + 3 * MINUTE
  }

  /** A completed sign-in leaves the browser with a new session of its own binding, and spends state and code. */
  ghost predicate SessionDelivers(r: Request, t: Store, a: Response) {
    var session := Stored(r.cookies, a.cookies).rpAuth;
    && a.status == 200 && r.target.Callback? && r.target.callback.Some? && session in t.accounts
    && t.accounts[session] == Row(r.cookies.rpBinding, r.clock.issue + 3 * MINUTE) && r.cookies.rpBinding in t.browsers
    && r.target.callback.value.state !in t.pending && r.target.callback.value.code !in t.codes
  }

  ghost predicate Delivers(cfg: Config, s: Store, r: Request, t: Store, a: Response) {
    match a.body
    case Nothing => true
    case HomePage => HomeDelivers(r, t, a)
    case ToProvider(state, challenge) => StartDelivers(r, t, a, state, challenge)
    case LoginForm(csrf) => FormDelivers(cfg, r, t, a, csrf)
    case ToCallback(code, state, denied) => CodeDelivers(cfg, s, r, t, a, code, state, denied)
    case SignInComplete => SessionDelivers(r, t, a)
    case PrivateAccount =>
      && a.status == 200 && r.target.AccountPage? && a.cookies == [] && r.cookies.rpAuth in t.accounts
      && t.accounts[r.cookies.rpAuth].value == r.cookies.rpBinding && r.cookies.rpBinding in t.browsers
  }

  lemma HomeAnswers(cfg: Config, s: Store, r: Request)
    requires r.target.Home?
    ensures var (t, a) := HomeStep(cfg, s, r); Delivers(cfg, s, r, t, a)
  {
    hide Stored;
    StoredNone(r.cookies);
    StoredOne(r.cookies, RpStrict, Opaque(s.issued));
    StoredOne(r.cookies, RpBinding, Opaque(s.issued));
    StoredTwo(r.cookies, Opaque(s.issued), Opaque(s.issued + 1));
    assert [] + [(RpBinding, Opaque(s.issued))] == [(RpBinding, Opaque(s.issued))];
  }

  lemma ExchangeAnswers(cfg: Config, s: Store, p: Store, r: Request, q: CallbackQuery)
    requires r.target == Callback(Some(q))
    ensures var (t, a) := ExchangeStep(s, r, q); Delivers(cfg, p, r, t, a)
  {
    hide Stored;
    StoredOne(r.cookies, RpAuth, Opaque(s.issued));
  }

  lemma CallbackAnswers(cfg: Config, s: Store, r: Request, q: Option<CallbackQuery>)
    requires r.target == Callback(q)
    ensures var (t, a) := CallbackStep(cfg, s, r, q); Delivers(cfg, s, r, t, a)
  {
    hide HomeDelivers, StartDelivers, FormDelivers, CodeDelivers, SessionDelivers, ExchangeStep, Recorded;
    if q.Some? {
      ExchangeAnswers(cfg, s, s, r, q.value);
      ExchangeAnswers(cfg, Recorded(s, Noted(StrictCookieWithheld), r.clock.strict, r.strictSynced), s, r, q.value);
    }
  }

  lemma GrantAnswers(cfg: Config, p: Store, s: Store, r: Request, q: AuthorizeQuery, b: Text,
                     cookies: seq<(CookieName, Text)>)
    requires Asks(r, q.state, q.challenge) && Stored(r.cookies, cookies).idpBinding == b && b in s.idpBrowsers
    ensures var (t, a) := GrantStep(cfg, s, r, q, b, cookies); Delivers(cfg, p, r, t, a)
  {
    hide Stored;
  }

  lemma AuthorizeAnswers(cfg: Config, s: Store, r: Request, q: Option<AuthorizeQuery>)
    requires r.target == Authorize(q)
    ensures var (t, a) := AuthorizeStep(cfg, s, r, q); Delivers(cfg, s, r, t, a)
  {
    hide Stored, GrantStep, HomeDelivers, StartDelivers, FormDelivers, CodeDelivers, SessionDelivers;
    if q.Some? && Asks(r, q.value.state, q.value.challenge) {
      StoredNone(r.cookies);
      StoredOne(r.cookies, IdpBinding, Opaque(s.issued));
      if r.cookies.idpBinding in s.idpBrowsers { GrantAnswers(cfg, s, s, r, q.value, r.cookies.idpBinding, []); }
      GrantAnswers(cfg, s, BindIdp(s, r.clock.check2), r, q.value, Opaque(s.issued),
                   [(IdpBinding, Opaque(s.issued))]);
    }
  }

  lemma LoginAnswers(cfg: Config, s: Store, r: Request, csrf: Text, u: string, p: string)
    requires r.target == Login(csrf, u, p)
    ensures var (t, a) := LoginStep(cfg, s, r, csrf, u, p); Delivers(cfg, s, r, t, a)
  {
    hide LiveAt;
  }

  lemma DispatchAnswers(cfg: Config, s: Store, r: Request)
    ensures var (t, a) := Dispatch(cfg, s, r); Delivers(cfg, s, r, t, a)
  {
    hide HomeStep, CallbackStep, AuthorizeStep, LoginStep;
    hide HomeDelivers, FormDelivers, CodeDelivers, SessionDelivers;
    match r.target
    case Home => HomeAnswers(cfg, s, r);
    case Callback(q) => CallbackAnswers(cfg, s, r, q);
    case Authorize(q) => AuthorizeAnswers(cfg, s, r, q);
    case Login(csrf, u, p) => LoginAnswers(cfg, s, r, csrf, u, p);
    case _ =>
  }

  lemma PruneDelivers(cfg: Config, s: Store, now: int, r: Request, t: Store, a: Response)
    requires Delivers(cfg, Prune(s, now), r, t, a)
    ensures Delivers(cfg, s, r, t, a)
  {
    hide HomeDelivers, StartDelivers, FormDelivers, SessionDelivers;
  }

  /** Whatever the store, whatever is asked: an answer delivers what the new tables hold. */
  lemma StepDelivers(cfg: Config, s: Store, r: Request)
    ensures var (t, a) := Step(cfg, s, r); Delivers(cfg, s, r, t, a)
  {
    hide Dispatch, Prune, HomeDelivers, StartDelivers, FormDelivers, CodeDelivers, SessionDelivers;
    DispatchAnswers(cfg, Prune(s, r.clock.prune), r);
    PruneDelivers(cfg, s, r.clock.prune, r, Dispatch(cfg, Prune(s, r.clock.prune), r).0,
                  Dispatch(cfg, Prune(s, r.clock.prune), r).1);
  }
}
