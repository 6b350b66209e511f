/** The fixture itself: six tables, a counter and a flag changed in place by every
    handler.  Each method is proved to take exactly the step of the model. */
module SsoFixture {
  import opened Options
  import opened SsoModel

  lemma RecordedElsewhere(s: Store, e: Event, at: int, synced: bool)
    requires KindOf(e).Some?
    ensures Recorded(s, e, at, synced).issued == s.issued && Recorded(s, e, at, synced).accounts == s.accounts
  { }

  /** Deletes the rows of one table whose deadline is not after `now`. */
  method PruneTable<V>(m: Table<V>, now: int) returns (kept: Table<V>)
    ensures kept == Live(m, now)
  {
    kept := m;
    var todo := m.Keys;
    while todo != {}
      invariant todo <= m.Keys
      invariant kept == map k | k in m && (k in todo || m[k].expires > now) :: m[k]
      decreases |todo|
    {
      var k :| k in todo;
      if m[k].expires <= now { kept := kept - {k}; }
      todo := todo - {k};
    }
  }

  class Fixture {
    const cfg: Config
    var browsers: Table<()>
    var idpBrowsers: Table<()>
    var pending: Table<Flow>
    var forms: Table<Form>
    var codes: Table<Code>
    var accounts: Table<Text>
    var issued: nat
    var sequence: nat
    var failed: bool
    var journal: seq<Receipt>
    ghost var history: seq<Event>

    ghost function Snapshot(): Store
      reads this
    {
      Store(browsers, idpBrowsers, pending, forms, codes, accounts, issued, sequence, failed, journal, history)
    }

    constructor (cfg: Config)
      ensures Snapshot() == INITIAL && this.cfg == cfg
    {
      this.cfg := cfg;
      browsers, idpBrowsers, pending, forms, codes, accounts := map[], map[], map[], map[], map[], map[];
      issued, sequence, failed, journal, history := 0, 0, false, [], [];
    }

    method Opaque() returns (t: Text)
      modifies this`issued
      ensures Snapshot() == Draw(old(Snapshot())) && t == Text.Opaque(old(issued))
    {
      t := Text.Opaque(issued);
      issued := issued + 1;
    }

    method Record(kind: Kind, accepted: bool, at: int, synced: bool, ghost e: Event) returns (ok: bool)
      requires KindOf(e) == Some(kind) && AcceptedFlag(e) == accepted
      modifies this`sequence, this`failed, this`journal, this`history
      ensures Snapshot() == Recorded(old(Snapshot()), e, at, synced) && ok == !failed
    {
      if failed { return false; }
      sequence := sequence + 1;
      if synced {
        journal := journal + [Receipt(sequence, at, kind, accepted)];
        history := history + [e];
      } else {
        failed := true;
      }
      ok := !failed;
    }

    method Prune(now: int)
      modifies this
      ensures Snapshot() == SsoModel.Prune(old(Snapshot()), now)
    {
      var b := PruneTable(browsers, now);
      var i := PruneTable(idpBrowsers, now);
      var p := PruneTable(pending, now);
      var f := PruneTable(forms, now);
      var c := PruneTable(codes, now);
      var a := PruneTable(accounts, now);
      browsers, idpBrowsers, pending, forms, codes, accounts := b, i, p, f, c, a;
    }

    method Home(r: Request) returns (x: Response)
      modifies this
      ensures (Snapshot(), x) == HomeStep(cfg, old(Snapshot()), r)
    {
      var cookies := [];
      if cfg.strictCookieBoundary {
        var strict := Opaque();
        cookies := [(RpStrict, strict)];
      }
      var browser := r.cookies.rpBinding;
      if !LiveAt(browsers, browser, r.clock.check1) {
        if |browsers| >= 128 { return Response(429, Nothing, cookies); }
        browser := Opaque();
        browsers := browsers[browser := Row((), r.clock.issue + BINDING_TTL)];
        history := history + [Bound(browser, r.clock.issue)];
        cookies := cookies + [(RpBinding, browser)];
      }
      x := Response(200, HomePage, cookies);
    }

    method Start(r: Request) returns (x: Response)
      modifies this
      ensures (Snapshot(), x) == StartStep(old(Snapshot()), r)
    {
      var browser := r.cookies.rpBinding;
      if !LiveAt(browsers, browser, r.clock.check1) { return Refuse(403); }
      if |pending| >= 64 { return Refuse(429); }
      var state := Opaque();
      var verifier := Opaque();
      pending := pending[state := Row(Flow(browser, verifier), r.clock.issue + FLOW_TTL)];
      history := history + [Started(state, browser, verifier, r.clock.issue)];
      x := Response(302, ToProvider(state, Challenge(verifier)), []);
    }

    /** State and code are gone before the receipt is attempted, the session exists only after it. */
    method Accept(state: Text, code: Text, browser: Text, r: Request, ghost a: Acceptance)
      returns (ok: bool, session: Text)
      requires a.state == state && a.code == code && a.browser == browser && a.session == Text.Opaque(issued)
      requires a.issued == r.clock.issue
      modifies this
      ensures Snapshot() == AcceptCallback(old(Snapshot()), a, r.clock.record, r.synced)
      ensures ok == !failed && (ok ==> session == a.session)
    {
      hide Recorded;
      session := Empty;
      Spend(state, code);
      RecordedElsewhere(Snapshot(), Accepted(a), r.clock.record, r.synced);
      ok := Record(CallbackAccepted, true, r.clock.record, r.synced, Accepted(a));
      if ok { session := Open(browser, r.clock.issue); }
    }

    method Spend(state: Text, code: Text)
      modifies this`pending, this`codes
      ensures var s := old(Snapshot()); Snapshot() == s.(pending := s.pending - {state}, codes := s.codes - {code})
    {
      pending, codes := pending - {state}, codes - {code};
    }

    method Open(browser: Text, at: int) returns (session: Text)
      modifies this`issued, this`accounts
      ensures session == Text.Opaque(old(issued))
      ensures var s := old(Snapshot());
              Snapshot() == s.(issued := s.issued + 1, accounts := s.accounts[session := Row(browser, at + FLOW_TTL)])
    {
      session := Opaque();
      accounts := accounts[session := Row(browser, at + FLOW_TTL)];
    }

    method Exchange(r: Request, q: CallbackQuery) returns (x: Response)
      modifies this
      ensures (Snapshot(), x) == ExchangeStep(old(Snapshot()), r, q)
    {
      if q.state !in pending || q.code !in codes { return Refuse(403); }
      var p, c := pending[q.state], codes[q.code];
      if p.expires <= r.clock.check1 || c.expires <= r.clock.check2
        || !LiveAt(browsers, p.value.browser, r.clock.check3)
         || p.value.browser != r.cookies.rpBinding || c.value.state != q.state
         || c.value.challenge != Challenge(p.value.verifier)
      {
        return Refuse(403);
      }
      if |accounts| >= 128 { return Refuse(429); }
      var ok, session := Accept(q.state, q.code, p.value.browser, r, AcceptanceOf(Snapshot(), r, q));
      if !ok { return Refuse(503); }
      x := Response(200, SignInComplete, [(RpAuth, session)]);
    }

    method Callback(r: Request, query: Option<CallbackQuery>) returns (x: Response)
      modifies this
      ensures (Snapshot(), x) == CallbackStep(cfg, old(Snapshot()), r, query)
    {
      if cfg.strictCookieBoundary && r.cookies.rpStrict != Empty {
        var _ := Record(StrictCookieLeaked, true, r.clock.strict, r.strictSynced, Noted(StrictCookieLeaked));
        return Refuse(403);
      }
      if cfg.strictOnlyCallback {
        var _ := Record(StrictCookieWithheld, true, r.clock.strict, r.strictSynced, Noted(StrictCookieWithheld));
      }
      if query.None? { return Refuse(400); }
      x := Exchange(r, query.value);
    }

    method Account(r: Request) returns (x: Response)
      modifies this
      ensures (Snapshot(), x) == AccountStep(old(Snapshot()), r)
    {
      var session := r.cookies.rpAuth;
      if session !in accounts { return Refuse(401); }
      var a := accounts[session];
      if a.expires <= r.clock.check1 || !LiveAt(browsers, a.value, r.clock.check2) || a.value != r.cookies.rpBinding {
        return Refuse(401);
      }
      var ok := Record(AccountRead, true, r.clock.record, r.synced,
                       Read(session, r.cookies.rpBinding, r.clock.check1, r.clock.check2));
      if !ok { return Refuse(503); }
      x := Response(200, PrivateAccount, []);
    }

    method NewCode(state: Text, challenge: Text, at: int, ghost origin: Origin) returns (value: Text)
      modifies this`issued, this`codes, this`history
      ensures Snapshot() == IssueCode(old(Snapshot()), origin, state, challenge, at)
              && value == Text.Opaque(old(issued))
    {
      value := Opaque();
      codes := codes[value := Row(Code(state, challenge), at + FLOW_TTL)];
      history := history + [CodeIssued(value, origin, state, challenge, at)];
    }

    method Grant(r: Request, q: AuthorizeQuery, browser: Text, cookies: seq<(CookieName, Text)>) returns (x: Response)
      modifies this
      ensures (Snapshot(), x) == GrantStep(cfg, old(Snapshot()), r, q, browser, cookies)
    {
      var csrf := Opaque();
      if cfg.autoAuthorizeReturn {
        var value := NewCode(q.state, q.challenge, r.clock.check3, Automatic);
        var ok := Record(AutomaticAuthorization, true, r.clock.record, r.synced, Authorized(value));
        if !ok { return Response(503, Nothing, cookies); }
        return Response(302, ToCallback(value, q.state, false), cookies);
      }
      forms := forms[csrf := Row(Form(browser, q.state, q.challenge), r.clock.check3 + FLOW_TTL)];
      history := history + [FormServed(csrf, browser, q.state, q.challenge, r.clock.check3)];
      x := Response(200, LoginForm(csrf), cookies);
    }

    method NewIdpBrowser(at: int) returns (browser: Text)
      modifies this`issued, this`idpBrowsers, this`history
      ensures Snapshot() == BindIdp(old(Snapshot()), at) && browser == Text.Opaque(old(issued))
    {
      browser := Opaque();
      idpBrowsers := idpBrowsers[browser := Row((), at + FLOW_TTL)];
      history := history + [IdpBound(browser, at)];
    }

    method Authorize(r: Request, query: Option<AuthorizeQuery>) returns (x: Response)
      modifies this
      ensures (Snapshot(), x) == AuthorizeStep(cfg, old(Snapshot()), r, query)
    {
      if query.None? || !query.value.fixedFields
         || !DecodesAsState(query.value.state) || !DecodesAsChallenge(query.value.challenge) || |forms| >= 64
      {
        return Refuse(400);
      }
      var browser, cookies := r.cookies.idpBinding, [];
      if !LiveAt(idpBrowsers, browser, r.clock.check1) {
        if |idpBrowsers| >= 128 { return Refuse(429); }
        browser := NewIdpBrowser(r.clock.check2);
        cookies := [(IdpBinding, browser)];
      }
      x := Grant(r, query.value, browser, cookies);
    }

    method Login(r: Request, csrf: Text, username: string, password: string) returns (x: Response)
      modifies this
      ensures (Snapshot(), x) == LoginStep(cfg, old(Snapshot()), r, csrf, username, password)
    {
      hide Recorded, IssueCode, LiveAt, SpendForm;
      if csrf !in forms { return Refuse(403); }
      var row := forms[csrf];
      var a := row.value;
      if row.expires <= r.clock.check1 || !LiveAt(idpBrowsers, a.browser, r.clock.check2)
        || a.browser != r.cookies.idpBinding {
        return Refuse(403);
      }
      SpendSubmitted(csrf);
      var valid := username == cfg.username && password == cfg.password;
      if valid && |codes| >= 128 { return Refuse(429); }
      var ok := Record(IdpLogin, valid, r.clock.record, r.synced, LoggedIn(csrf, r.cookies.idpBinding, valid));
      if !ok { return Refuse(503); }
      if !valid { return Refuse(401); }
      if cfg.loginDelay && r.cancelled { return Refuse(0); }
      var value := NewCode(a.state, a.challenge, r.clock.issue, FromLogin(csrf));
      x := Response(303, ToCallback(value, a.state, cfg.deniedCallbackPath), []);
    }

    method SpendSubmitted(csrf: Text)
      modifies this`forms
      ensures Snapshot() == SpendForm(old(Snapshot()), csrf)
    {
      forms := forms - {csrf};
    }

    /** One request, handled under the lock. */
    method Handle(r: Request) returns (x: Response)
      modifies this
      ensures (Snapshot(), x) == Step(cfg, old(Snapshot()), r)
    {
      if r.target.Rejected? { return Refuse(r.target.status); }
      if failed { return Refuse(503); }
      Prune(r.clock.prune);
      match r.target
      case Home => x := Home(r);
      case Start => x := Start(r);
      case DeniedCallback =>
        var _ := Record(ForbiddenRedirectRead, true, r.clock.record, r.synced, Noted(ForbiddenRedirectRead));
        x := Refuse(403);
      case Callback(q) => x := Callback(r, q);
      case AccountPage => x := Account(r);
      case Blank => x := Response(200, Nothing, []);
      case UnknownPath => x := Refuse(404);
      case Authorize(q) => x := Authorize(r, q);
      case LoginGet => x := Refuse(405);
      case Login(csrf, u, p) => x := Login(r, csrf, u, p);
    }
  }
}
