/** Eager pruning refines lazy expiry.  The specification here never deletes an
    expired row: it only looks up live rows and only counts live rows. */
module SsoLazy {
  import opened Options
  import opened SsoModel

  /** How many rows are live at `now`. */
  function LiveCount<V>(m: Table<V>, now: int): nat {
    |set k | k in m && m[k].expires > now|
  }

  function LazyHome(cfg: Config, s: Store, r: Request): (Store, Response) {
    var s1 := if cfg.strictCookieBoundary then Draw(s) else s;
    var strict := if cfg.strictCookieBoundary then [(RpStrict, Opaque(s.issued))] else [];
    if LiveAt(s.browsers, r.cookies.rpBinding, r.clock.check1) then
      (s1, Response(200, HomePage, strict))
    else if LiveCount(s.browsers, r.clock.prune) >= 128 then
      (s1, Response(429, Nothing, strict))
    else
      (BindRp(s1, r.clock.issue), Response(200, HomePage, strict + [(RpBinding, Opaque(s1.issued))]))
  }

  function LazyStart(s: Store, r: Request): (Store, Response) {
    if !LiveAt(s.browsers, r.cookies.rpBinding, r.clock.check1) then (s, Refuse(403))
    else if LiveCount(s.pending, r.clock.prune) >= 64 then (s, Refuse(429))
    else (StartFlow(s, r.cookies.rpBinding, r.clock.issue),
          Response(302, ToProvider(Opaque(s.issued), Challenge(Opaque(s.issued + 1))), []))
  }

  predicate LazyExchanges(s: Store, r: Request, q: CallbackQuery) {
    && LiveAt(s.pending, q.state, r.clock.check1) && LiveAt(s.codes, q.code, r.clock.check2)
    && var p, c := s.pending[q.state].value, s.codes[q.code].value;
    && LiveAt(s.browsers, p.browser, r.clock.check3) && p.browser == r.cookies.rpBinding
    && c == Code(q.state, Challenge(p.verifier))
  }

  function LazyCallback(cfg: Config, s: Store, r: Request, query: Option<CallbackQuery>): (Store, Response) {
    if cfg.strictCookieBoundary && r.cookies.rpStrict != Empty then
      (Recorded(s, Noted(StrictCookieLeaked), r.clock.strict, r.strictSynced), Refuse(403))
    else
      var s1 := if cfg.strictOnlyCallback
                then Recorded(s, Noted(StrictCookieWithheld), r.clock.strict, r.strictSynced) else s;
      if query.None? then (s1, Refuse(400))
      else if !LazyExchanges(s1, r, query.value) then (s1, Refuse(403))
      else if LiveCount(s1.accounts, r.clock.prune) >= 128 then (s1, Refuse(429))
      else
        var a := AcceptanceOf(s1, r, query.value);
        var s2 := AcceptCallback(s1, a, r.clock.record, r.synced);
        if s2.failed then (s2, Refuse(503))
        else (s2, Response(200, SignInComplete, [(RpAuth, a.session)]))
  }

  function LazyAuthorize(cfg: Config, s: Store, r: Request, query: Option<AuthorizeQuery>): (Store, Response) {
    if query.None? || !query.value.fixedFields || !DecodesAsState(query.value.state)
       || !DecodesAsChallenge(query.value.challenge) || LiveCount(s.forms, r.clock.prune) >= 64
    then (s, Refuse(400))
    else if LiveAt(s.idpBrowsers, r.cookies.idpBinding, r.clock.check1) then
      LazyGrant(cfg, s, r, query.value, r.cookies.idpBinding, [])
    else if LiveCount(s.idpBrowsers, r.clock.prune) >= 128 then (s, Refuse(429))
    else
      LazyGrant(cfg, BindIdp(s, r.clock.check2), r, query.value, Opaque(s.issued), [(IdpBinding, Opaque(s.issued))])
  }

  /** Without the option a form for the login page, with it a code at once, after a drawn value nobody uses. */
  function LazyGrant(cfg: Config, s: Store, r: Request, q: AuthorizeQuery, browser: Text,
                     cookies: seq<(CookieName, Text)>): (Store, Response) {
    if !cfg.autoAuthorizeReturn then
      (ServeForm(s, browser, q.state, q.challenge, r.clock.check3), Response(200, LoginForm(Opaque(s.issued)), cookies))
    else
      var code := Opaque(s.issued + 1);
      var coded := IssueCode(Draw(s), Automatic, q.state, q.challenge, r.clock.check3);
      var s1 := Recorded(coded, Authorized(code), r.clock.record, r.synced);
      (s1, if s1.failed then Response(503, Nothing, cookies)
           else Response(302, ToCallback(code, q.state, false), cookies))
  }

  function LazyAccount(s: Store, r: Request): (Store, Response) {
    var session, browser := r.cookies.rpAuth, r.cookies.rpBinding;
    if LiveAt(s.accounts, session, r.clock.check1) && s.accounts[session].value == browser
       && LiveAt(s.browsers, browser, r.clock.check2) then
      var s1 := Recorded(s, Read(session, browser, r.clock.check1, r.clock.check2), r.clock.record, r.synced);
      (s1, if s1.failed then Refuse(503) else Response(200, PrivateAccount, []))
    else (s, Refuse(401))
  }

  predicate LazySubmits(s: Store, r: Request, csrf: Text) {
    && LiveAt(s.forms, csrf, r.clock.check1)
    && LiveAt(s.idpBrowsers, s.forms[csrf].value.browser, r.clock.check2)
    && s.forms[csrf].value.browser == r.cookies.idpBinding
  }

  function LazyLogin(cfg: Config, s: Store, r: Request, csrf: Text, username: string, password: string): (Store,
      Response) {
    if !LazySubmits(s, r, csrf) then (s, Refuse(403))
    else
      var form := s.forms[csrf].value;
      var valid := username == cfg.username && password == cfg.password;
      var s1 := SpendForm(s, csrf);
      if valid && LiveCount(s.codes, r.clock.prune) >= 128 then (s1, Refuse(429))
      else
        var s2 := Recorded(s1, LoggedIn(csrf, r.cookies.idpBinding, valid), r.clock.record, r.synced);
        if s2.failed then (s2, Refuse(503))
        else if !valid then (s2, Refuse(401))
        else if cfg.loginDelay && r.cancelled then (s2, Refuse(0))
        else (IssueCode(s2, FromLogin(csrf), form.state, form.challenge, r.clock.issue),
              Response(303, ToCallback(Opaque(s2.issued), form.state, cfg.deniedCallbackPath), []))
  }

  /** The same fixture without pruning. */
  function LazyStep(cfg: Config, s: Store, r: Request): (Store, Response) {
    if r.target.Rejected? then (s, Refuse(r.target.status))
    else if s.failed then (s, Refuse(503))
    else match r.target
         case Rejected(status) => (s, Refuse(status))
         case Home => LazyHome(cfg, s, r)
         case Start => LazyStart(s, r)
         case DeniedCallback => (Recorded(s, Noted(ForbiddenRedirectRead), r.clock.record, r.synced), Refuse(403))
         case Callback(q) => LazyCallback(cfg, s, r, q)
         case AccountPage => LazyAccount(s, r)
         case Blank => (s, Response(200, Nothing, []))
         case UnknownPath => (s, Refuse(404))
         case Authorize(q) => LazyAuthorize(cfg, s, r, q)
         case LoginGet => (s, Refuse(405))
         case Login(csrf, u, p) => LazyLogin(cfg, s, r, csrf, u, p)
  }

  function LazyRun(cfg: Config, s: Store, rs: seq<Request>): Store {
    if rs == [] then s
    else LazyStep(cfg, LazyRun(cfg, s, rs[..|rs| - 1]), rs[|rs| - 1]).0
  }

  function LazyAnswers(cfg: Config, s: Store, rs: seq<Request>): seq<Response> {
    if rs == [] then []
    else LazyAnswers(cfg, s, rs[..|rs| - 1]) + [LazyStep(cfg, LazyRun(cfg, s, rs[..|rs| - 1]), rs[|rs| - 1]).1]
  }

  // ----- the abstraction -----

  /** From `now` on, both stores hold the same live rows, and agree on everything else. */
  ghost predicate Agree(eager: Store, unpruned: Store, now: int) {
    Prune(eager, now) == Prune(unpruned, now)
  }

  lemma LiveTwice<V>(m: Table<V>, now: int, later: int)
    requires now <= later
    ensures Live(Live(m, now), later) == Live(m, later)
  {}

  lemma PruneTwice(s: Store, now: int, later: int)
    requires now <= later
    ensures Prune(Prune(s, now), later) == Prune(s, later)
  {
    LiveTwice(s.browsers, now, later); LiveTwice(s.idpBrowsers, now, later); LiveTwice(s.pending, now, later);
    LiveTwice(s.forms, now, later); LiveTwice(s.codes, now, later); LiveTwice(s.accounts, now, later);
  }

  lemma AgreeLater(e: Store, l: Store, now: int, later: int)
    requires Agree(e, l, now) && now <= later
    ensures Agree(e, l, later)
  {
    PruneTwice(e, now, later);
    PruneTwice(l, now, later);
  }

  lemma CountIsSize<V>(m: Table<V>, now: int)
    ensures LiveCount(m, now) == |Live(m, now)|
  {
    assert Live(m, now).Keys == set k | k in m && m[k].expires > now;
  }

  lemma SameLookup<V>(m: Table<V>, k: Text, now: int, t: int)
    requires now <= t
    ensures LiveAt(Live(m, now), k, t) <==> LiveAt(m, k, t)
    ensures LiveAt(m, k, t) ==> Live(m, now)[k] == m[k]
  {}

  // ----- elementary changes keep the agreement -----

  lemma PutAgrees<V>(a: Table<V>, b: Table<V>, k: Text, row: Row<V>, now: int)
    requires Live(a, now) == Live(b, now)
    ensures Live(a[k := row], now) == Live(b[k := row], now)
  {
    if row.expires > now {
      assert Live(a[k := row], now) == Live(a, now)[k := row];
      assert Live(b[k := row], now) == Live(b, now)[k := row];
    } else {
      assert Live(a[k := row], now) == Live(a, now) - {k};
      assert Live(b[k := row], now) == Live(b, now) - {k};
    }
  }

  lemma TakeAgrees<V>(a: Table<V>, b: Table<V>, k: Text, now: int)
    requires Live(a, now) == Live(b, now)
    ensures Live(a - {k}, now) == Live(b - {k}, now)
  {
    assert Live(a - {k}, now) == Live(a, now) - {k};
    assert Live(b - {k}, now) == Live(b, now) - {k};
  }

  lemma DrawAgrees(e: Store, l: Store, now: int)
    requires Agree(e, l, now)
    ensures Agree(Draw(e), Draw(l), now) && e.issued == l.issued
  {
    hide Live;
  }

  lemma RecordedAgrees(e: Store, l: Store, x: Event, at: int, synced: bool, now: int)
    requires Agree(e, l, now) && KindOf(x).Some?
    ensures Agree(Recorded(e, x, at, synced), Recorded(l, x, at, synced), now)
    ensures Recorded(e, x, at, synced).failed == Recorded(l, x, at, synced).failed
    ensures Recorded(e, x, at, synced).issued == Recorded(l, x, at, synced).issued == e.issued == l.issued
    ensures Recorded(e, x, at, synced).accounts == e.accounts && Recorded(l, x, at, synced).accounts == l.accounts
  {
    hide Live;
  }

  lemma BindRpAgrees(e: Store, l: Store, at: int, now: int)
    requires Agree(e, l, now)
    ensures Agree(BindRp(e, at), BindRp(l, at), now) && e.issued == l.issued
  {
    hide Live;
    PutAgrees(e.browsers, l.browsers, Opaque(e.issued), Row((), at + BINDING_TTL), now);
  }

  lemma BindIdpAgrees(e: Store, l: Store, at: int, now: int)
    requires Agree(e, l, now)
    ensures Agree(BindIdp(e, at), BindIdp(l, at), now) && e.issued == l.issued
  {
    hide Live;
    PutAgrees(e.idpBrowsers, l.idpBrowsers, Opaque(e.issued), Row((), at + FLOW_TTL), now);
  }

  lemma StartFlowAgrees(e: Store, l: Store, browser: Text, at: int, now: int)
    requires Agree(e, l, now)
    ensures Agree(StartFlow(e, browser, at), StartFlow(l, browser, at), now) && e.issued == l.issued
  {
    hide Live;
    PutAgrees(e.pending, l.pending, Opaque(e.issued), Row(Flow(browser, Opaque(e.issued + 1)), at + FLOW_TTL), now);
  }

  lemma ServeFormAgrees(e: Store, l: Store, f: Form, at: int, now: int)
    requires Agree(e, l, now)
    ensures Agree(ServeForm(e, f.browser, f.state, f.challenge, at), ServeForm(l, f.browser, f.state, f.challenge, at),
                  now)
    ensures e.issued == l.issued
  {
    hide Live;
    PutAgrees(e.forms, l.forms, Opaque(e.issued), Row(f, at + FLOW_TTL), now);
  }

  lemma IssueAgrees(e: Store, l: Store, o: Origin, c: Code, at: int, now: int)
    requires Agree(e, l, now)
    ensures Agree(IssueCode(e, o, c.state, c.challenge, at), IssueCode(l, o, c.state, c.challenge, at), now)
    ensures e.issued == l.issued
  {
    hide Live;
    PutAgrees(e.codes, l.codes, Opaque(e.issued), Row(c, at + FLOW_TTL), now);
  }

  lemma SpendFormAgrees(e: Store, l: Store, csrf: Text, now: int)
    requires Agree(e, l, now)
    ensures Agree(SpendForm(e, csrf), SpendForm(l, csrf), now)
  {
    hide Live;
    TakeAgrees(e.forms, l.forms, csrf, now);
  }

  lemma SpendAgrees(e: Store, l: Store, state: Text, code: Text, now: int)
    requires Agree(e, l, now)
    ensures Agree(e.(pending := e.pending - {state}, codes := e.codes - {code}),
                  l.(pending := l.pending - {state}, codes := l.codes - {code}), now)
  {
    hide Live;
    TakeAgrees(e.pending, l.pending, state, now);
    TakeAgrees(e.codes, l.codes, code, now);
  }

  lemma OpenAgrees(e: Store, l: Store, k: Text, row: Row<Text>, issued: nat, now: int)
    requires Agree(e, l, now)
    ensures Agree(e.(accounts := e.accounts[k := row], issued := issued),
                  l.(accounts := l.accounts[k := row], issued := issued), now)
  {
    hide Live;
    PutAgrees(e.accounts, l.accounts, k, row, now);
  }

  lemma AcceptAgrees(e: Store, l: Store, a: Acceptance, at: int, synced: bool, now: int)
    requires Agree(e, l, now)
    ensures Agree(AcceptCallback(e, a, at, synced), AcceptCallback(l, a, at, synced), now)
    ensures AcceptCallback(e, a, at, synced).failed == AcceptCallback(l, a, at, synced).failed
  {
    hide Agree, Live, Recorded;
    SpendAgrees(e, l, a.state, a.code, now);
    var e1 := e.(pending := e.pending - {a.state}, codes := e.codes - {a.code});
    var l1 := l.(pending := l.pending - {a.state}, codes := l.codes - {a.code});
    RecordedAgrees(e1, l1, Accepted(a), at, synced, now);
    OpenAgrees(Recorded(e1, Accepted(a), at, synced), Recorded(l1, Accepted(a), at, synced),
               a.session, Row(a.browser, a.issued + FLOW_TTL), e.issued + 1, now);
  }

  lemma AutoAgrees(e: Store, l: Store, c: Code, at: int, recordAt: int, synced: bool, now: int)
    requires Agree(e, l, now)
    ensures var e', l' := AutoAuthorize(e, c.state, c.challenge, at, recordAt, synced),
                          AutoAuthorize(l, c.state, c.challenge, at, recordAt, synced);
            Agree(e', l', now) && e'.failed == l'.failed && e.issued == l.issued
  {
    hide Agree, IssueCode;
    IssueAgrees(e, l, Automatic, c, at, now);
    RecordedAgrees(IssueCode(e, Automatic, c.state, c.challenge, at), IssueCode(l, Automatic, c.state, c.challenge, at),
                   Authorized(Opaque(e.issued)), recordAt, synced, now);
  }

  // ----- each handler answers alike -----

  ghost predicate Alike(x: (Store, Response), y: (Store, Response), now: int) {
    x.1 == y.1 && Agree(x.0, y.0, now)
  }

  lemma PrunedAgrees(l: Store, now: int)
    ensures Agree(Prune(l, now), l, now)
  {
    PruneTwice(l, now, now);
  }

  lemma HomeAlike(cfg: Config, l: Store, r: Request, now: int)
    requires now == r.clock.prune && r.clock.Monotone()
    ensures Alike(HomeStep(cfg, Prune(l, now), r), LazyHome(cfg, l, r), now)
  {
    var e := Prune(l, now);
    SameLookup(l.browsers, r.cookies.rpBinding, now, r.clock.check1);
    CountIsSize(l.browsers, now);
    hide Agree, Live, LiveAt, LiveCount;
    PrunedAgrees(l, now);
    DrawAgrees(e, l, now);
    BindRpAgrees(e, l, r.clock.issue, now);
    BindRpAgrees(Draw(e), Draw(l), r.clock.issue, now);
  }

  lemma StartAlike(l: Store, r: Request, now: int)
    requires now == r.clock.prune && r.clock.Monotone()
    ensures Alike(StartStep(Prune(l, now), r), LazyStart(l, r), now)
  {
    var e := Prune(l, now);
    SameLookup(l.browsers, r.cookies.rpBinding, now, r.clock.check1);
    CountIsSize(l.pending, now);
    hide Agree, Live, LiveAt, LiveCount;
    PrunedAgrees(l, now);
    StartFlowAgrees(e, l, r.cookies.rpBinding, r.clock.issue, now);
  }

  lemma ExchangeLookups(l: Store, r: Request, q: CallbackQuery, now: int)
    requires now == r.clock.prune && r.clock.Monotone()
    ensures Exchanges(Prune(l, now), r, q) <==> LazyExchanges(l, r, q)
    ensures LazyExchanges(l, r, q) ==>
              Exchanges(l, r, q) && AcceptanceOf(Prune(l, now), r, q) == AcceptanceOf(l, r, q)
  {
    SameLookup(l.pending, q.state, now, r.clock.check1);
    SameLookup(l.codes, q.code, now, r.clock.check2);
    if q.state in l.pending {
      SameLookup(l.browsers, l.pending[q.state].value.browser, now, r.clock.check3);
    }
  }

  lemma PruneRecorded(l: Store, x: Event, at: int, synced: bool, now: int)
    requires KindOf(x).Some?
    ensures Recorded(Prune(l, now), x, at, synced) == Prune(Recorded(l, x, at, synced), now)
  {}

  lemma CallbackAlike(cfg: Config, l: Store, r: Request, q: Option<CallbackQuery>, now: int)
    requires now == r.clock.prune && r.clock.Monotone()
    ensures Alike(CallbackStep(cfg, Prune(l, now), r, q), LazyCallback(cfg, l, r, q), now)
  {
    hide Agree, Live, AcceptCallback, Exchanges, LazyExchanges, AcceptanceOf, LiveCount;
    PrunedAgrees(l, now);
    var w := Noted(StrictCookieWithheld);
    RecordedAgrees(Prune(l, now), l, Noted(StrictCookieLeaked), r.clock.strict, r.strictSynced, now);
    PruneRecorded(l, w, r.clock.strict, r.strictSynced, now);
    var l1 := if cfg.strictOnlyCallback then Recorded(l, w, r.clock.strict, r.strictSynced) else l;
    PrunedAgrees(l1, now);
    if q.Some? {
      ExchangeLookups(l1, r, q.value, now);
      CountIsSize(l1.accounts, now);
      if LazyExchanges(l1, r, q.value) {
        AcceptAgrees(Prune(l1, now), l1, AcceptanceOf(l1, r, q.value), r.clock.record, r.synced, now);
      }
    }
  }

  lemma AccountAlike(l: Store, r: Request, now: int)
    requires now == r.clock.prune && r.clock.Monotone()
    ensures Alike(AccountStep(Prune(l, now), r), LazyAccount(l, r), now)
  {
    var e, k := Prune(l, now), r.cookies.rpAuth;
    SameLookup(l.accounts, k, now, r.clock.check1);
    if LiveAt(l.accounts, k, r.clock.check1) {
      SameLookup(l.browsers, l.accounts[k].value, now, r.clock.check2);
    }
    hide Agree, Live;
    PrunedAgrees(l, now);
    if LiveAt(l.accounts, k, r.clock.check1) {
      RecordedAgrees(e, l, Read(k, r.cookies.rpBinding, r.clock.check1, r.clock.check2), r.clock.record, r.synced, now);
    }
  }

  lemma GrantAlike(cfg: Config, e: Store, l: Store, r: Request, q: AuthorizeQuery, b: Text,
                   cookies: seq<(CookieName, Text)>, now: int)
    requires Agree(e, l, now)
    ensures Alike(GrantStep(cfg, e, r, q, b, cookies), LazyGrant(cfg, l, r, q, b, cookies), now)
  {
    hide Agree, IssueCode, Recorded, ServeForm;
    DrawAgrees(e, l, now);
    AutoAgrees(Draw(e), Draw(l), Code(q.state, q.challenge), r.clock.check3, r.clock.record, r.synced, now);
    ServeFormAgrees(e, l, Form(b, q.state, q.challenge), r.clock.check3, now);
  }

  lemma AuthorizeAlike(cfg: Config, l: Store, r: Request, q: Option<AuthorizeQuery>, now: int)
    requires now == r.clock.prune && r.clock.Monotone()
    ensures Alike(AuthorizeStep(cfg, Prune(l, now), r, q), LazyAuthorize(cfg, l, r, q), now)
  {
    var e := Prune(l, now);
    SameLookup(l.idpBrowsers, r.cookies.idpBinding, now, r.clock.check1);
    CountIsSize(l.idpBrowsers, now);
    CountIsSize(l.forms, now);
    hide Agree, Live, LiveAt, LiveCount, GrantStep, LazyGrant;
    PrunedAgrees(l, now);
    if q.Some? {
      GrantAlike(cfg, e, l, r, q.value, r.cookies.idpBinding, [], now);
      BindIdpAgrees(e, l, r.clock.check2, now);
      GrantAlike(cfg, BindIdp(e, r.clock.check2), BindIdp(l, r.clock.check2), r, q.value, Opaque(l.issued),
                 [(IdpBinding, Opaque(l.issued))], now);
    }
  }

  lemma SubmitLookups(l: Store, r: Request, csrf: Text, now: int)
    requires now == r.clock.prune && r.clock.Monotone()
    ensures Submits(Prune(l, now), r, csrf) <==> LazySubmits(l, r, csrf)
    ensures LazySubmits(l, r, csrf) ==> csrf in l.forms && csrf in Prune(l, now).forms
                                        && Prune(l, now).forms[csrf] == l.forms[csrf]
  {
    SameLookup(l.forms, csrf, now, r.clock.check1);
    if csrf in l.forms {
      SameLookup(l.idpBrowsers, l.forms[csrf].value.browser, now, r.clock.check2);
    }
  }

  lemma LoginAlike(cfg: Config, l: Store, r: Request, csrf: Text, u: string, p: string, now: int)
    requires now == r.clock.prune && r.clock.Monotone()
    ensures Alike(LoginStep(cfg, Prune(l, now), r, csrf, u, p), LazyLogin(cfg, l, r, csrf, u, p), now)
  {
    hide Agree, Prune, LiveCount, Recorded, IssueCode, SpendForm, Submits, LazySubmits;
    var e := Prune(l, now);
    SubmitLookups(l, r, csrf, now);
    CodesAlike(l, now);
    PrunedAgrees(l, now);
    if LazySubmits(l, r, csrf) {
      var f, valid := l.forms[csrf].value, u == cfg.username && p == cfg.password;
      SubmitAgrees(e, l, r, csrf, f, valid, now);
    }
  }

  lemma CodesAlike(l: Store, now: int)
    ensures |Prune(l, now).codes| == LiveCount(l.codes, now)
  {
    CountIsSize(l.codes, now);
  }

  lemma SubmitAgrees(e: Store, l: Store, r: Request, csrf: Text, f: Form, valid: bool, now: int)
    requires Agree(e, l, now)
    ensures Agree(SpendForm(e, csrf), SpendForm(l, csrf), now)
    ensures var x := LoggedIn(csrf, r.cookies.idpBinding, valid);
            var e1, l1 := Recorded(SpendForm(e, csrf), x, r.clock.record, r.synced),
                Recorded(SpendForm(l, csrf), x, r.clock.record, r.synced);
            && Agree(e1, l1, now) && e1.failed == l1.failed && e1.issued == l1.issued
            && Agree(IssueCode(e1, FromLogin(csrf), f.state, f.challenge, r.clock.issue),
                     IssueCode(l1, FromLogin(csrf), f.state, f.challenge, r.clock.issue), now)
  {
    hide Agree, Recorded, IssueCode, SpendForm;
    var x := LoggedIn(csrf, r.cookies.idpBinding, valid);
    var e1, l1 := Recorded(SpendForm(e, csrf), x, r.clock.record, r.synced),
        Recorded(SpendForm(l, csrf), x, r.clock.record, r.synced);
    SpendFormAgrees(e, l, csrf, now);
    RecordedAgrees(SpendForm(e, csrf), SpendForm(l, csrf), x, r.clock.record, r.synced, now);
    IssueAgrees(e1, l1, FromLogin(csrf), Code(f.state, f.challenge), r.clock.issue, now);
  }

  lemma StepAlike(cfg: Config, e: Store, l: Store, r: Request)
    requires r.clock.Monotone() && Agree(e, l, r.clock.prune)
    ensures Alike(Step(cfg, e, r), LazyStep(cfg, l, r), r.clock.prune)
  {
    var now := r.clock.prune;
    assert Prune(e, now) == Prune(l, now) && e.failed == l.failed;
    hide Live, HomeStep, StartStep, CallbackStep, AccountStep, AuthorizeStep, LoginStep;
    hide LazyHome, LazyStart, LazyCallback, LazyAuthorize, LazyLogin, LazyAccount;
    if !r.target.Rejected? && !e.failed {
      PrunedAgrees(l, now);
      match r.target
      case Home => HomeAlike(cfg, l, r, now);
      case Start => StartAlike(l, r, now);
      case DeniedCallback => RecordedAgrees(Prune(l, now), l, Noted(ForbiddenRedirectRead), r.clock.record, r.synced,
                                            now);
      case Callback(q) => CallbackAlike(cfg, l, r, q, now);
      case AccountPage => AccountAlike(l, r, now);
      case Authorize(q) => AuthorizeAlike(cfg, l, r, q, now);
      case Login(csrf, u, p) => LoginAlike(cfg, l, r, csrf, u, p, now);
      case _ =>
    }
  }

  /** The fixture gives exactly the answers of the specification that never deletes an
      expired row, and ends with the same live rows, journal and failure flag. */
  lemma {:induction false} EagerRefinesLazy(cfg: Config, rs: seq<Request>)
    requires NonDecreasing(rs)
    ensures Answers(cfg, INITIAL, rs) == LazyAnswers(cfg, INITIAL, rs)
    ensures rs != [] ==> Agree(Run(cfg, INITIAL, rs), LazyRun(cfg, INITIAL, rs), rs[|rs| - 1].clock.prune)
  {
    if rs != [] {
      var front, r := rs[..|rs| - 1], rs[|rs| - 1];
      EagerRefinesLazy(cfg, front);
      var e, l := Run(cfg, INITIAL, front), LazyRun(cfg, INITIAL, front);
      if front != [] {
        var before := front[|front| - 1].clock;
        assert before == rs[|rs| - 2].clock && before.prune <= r.clock.prune;
        AgreeLater(e, l, before.prune, r.clock.prune);
      }
      StepAlike(cfg, e, l, r);
    }
  }
}
