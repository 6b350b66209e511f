/** The table limits: when they hold in every run, and the runs that break them. */
module SsoLimits {
  import opened Options
  import opened SsoModel
  import opened SsoJournal

  /** The limits of the five tables that every handler checks. */
  predicate FiveWithin(s: Store) {
    |s.browsers| <= 128 && |s.idpBrowsers| <= 128 && |s.pending| <= 64 && |s.forms| <= 64 && |s.accounts| <= 128
  }

  /** The code table is checked unless codes are issued automatically. */
  predicate Within(cfg: Config, s: Store) {
    FiveWithin(s) && (cfg.autoAuthorizeReturn || |s.codes| <= 128)
  }

  lemma PruneWithin(cfg: Config, s: Store, now: int)
    requires Within(cfg, s)
    ensures Within(cfg, Prune(s, now))
  {
    LiveCard(s.browsers, now); LiveCard(s.idpBrowsers, now); LiveCard(s.pending, now);
    LiveCard(s.forms, now); LiveCard(s.codes, now); LiveCard(s.accounts, now);
  }

  lemma RecordedWithin(cfg: Config, s: Store, e: Event, at: int, synced: bool)
    requires Within(cfg, s) && KindOf(e).Some?
    ensures Within(cfg, Recorded(s, e, at, synced)) && Recorded(s, e, at, synced).codes == s.codes
  {}

  lemma RpWithin(cfg: Config, s: Store, at: int)
    requires Within(cfg, s) && |s.browsers| < 128
    ensures Within(cfg, BindRp(s, at))
  {
    PutCard(s.browsers, Opaque(s.issued), Row((), at + BINDING_TTL));
  }

  lemma DrawWithin(cfg: Config, s: Store)
    requires Within(cfg, s)
    ensures Within(cfg, Draw(s))
  {}

  lemma HomeWithin(cfg: Config, s: Store, r: Request)
    requires Within(cfg, s)
    ensures Within(cfg, HomeStep(cfg, s, r).0)
  {
    hide Within;
    DrawWithin(cfg, s);
    if |s.browsers| < 128 {
      RpWithin(cfg, s, r.clock.issue);
      RpWithin(cfg, Draw(s), r.clock.issue);
    }
  }

  lemma StartWithin(cfg: Config, s: Store, r: Request)
    requires Within(cfg, s)
    ensures Within(cfg, StartStep(s, r).0)
  {
    PutCard(s.pending, Opaque(s.issued),
            Row(Flow(r.cookies.rpBinding, Opaque(s.issued + 1)), r.clock.issue + FLOW_TTL));
  }

  lemma AcceptWithin(cfg: Config, s: Store, a: Acceptance, at: int, synced: bool)
    requires Within(cfg, s) && |s.accounts| < 128
    ensures Within(cfg, AcceptCallback(s, a, at, synced))
  {
    TakeCard(s.pending, a.state);
    TakeCard(s.codes, a.code);
    PutCard(s.accounts, a.session, Row(a.browser, a.issued + FLOW_TTL));
  }

  lemma ExchangeWithin(cfg: Config, s: Store, r: Request, q: CallbackQuery)
    requires Within(cfg, s)
    ensures Within(cfg, ExchangeStep(s, r, q).0)
  {
    hide Within, AcceptCallback;
    if Exchanges(s, r, q) && |s.accounts| < 128 {
      AcceptWithin(cfg, s, AcceptanceOf(s, r, q), r.clock.record, r.synced);
    }
  }

  lemma CallbackWithin(cfg: Config, s: Store, r: Request, q: Option<CallbackQuery>)
    requires Within(cfg, s)
    ensures Within(cfg, CallbackStep(cfg, s, r, q).0)
  {
    hide Within, ExchangeStep;
    RecordedWithin(cfg, s, Noted(StrictCookieLeaked), r.clock.strict, r.strictSynced);
    RecordedWithin(cfg, s, Noted(StrictCookieWithheld), r.clock.strict, r.strictSynced);
    if q.Some? {
      ExchangeWithin(cfg, s, r, q.value);
      ExchangeWithin(cfg, Recorded(s, Noted(StrictCookieWithheld), r.clock.strict, r.strictSynced), r, q.value);
    }
  }

  lemma FormWithin(cfg: Config, s: Store, browser: Text, state: Text, challenge: Text, at: int)
    requires Within(cfg, s) && |s.forms| < 64
    ensures Within(cfg, ServeForm(s, browser, state, challenge, at))
  {
    PutCard(s.forms, Opaque(s.issued), Row(Form(browser, state, challenge), at + FLOW_TTL));
  }

  lemma IdpWithin(cfg: Config, s: Store, at: int)
    requires Within(cfg, s) && |s.idpBrowsers| < 128
    ensures Within(cfg, BindIdp(s, at)) && BindIdp(s, at).forms == s.forms
  {
    PutCard(s.idpBrowsers, Opaque(s.issued), Row((), at + FLOW_TTL));
  }

  lemma AutoWithin(cfg: Config, s: Store, state: Text, challenge: Text, at: int, recordAt: int, synced: bool)
    requires Within(cfg, s) && cfg.autoAuthorizeReturn
    ensures Within(cfg, AutoAuthorize(s, state, challenge, at, recordAt, synced))
  {
    hide Within;
    CodeWithin(cfg, s, Automatic, state, challenge, at);
    RecordedWithin(cfg, IssueCode(s, Automatic, state, challenge, at), Authorized(Opaque(s.issued)), recordAt, synced);
  }

  lemma GrantWithin(cfg: Config, s: Store, r: Request, q: AuthorizeQuery, b: Text, cs: seq<(CookieName, Text)>)
    requires Within(cfg, s) && |s.forms| < 64
    ensures Within(cfg, GrantStep(cfg, s, r, q, b, cs).0)
  {
    hide Within, ServeForm, AutoAuthorize;
    FormWithin(cfg, s, b, q.state, q.challenge, r.clock.check3);
    if cfg.autoAuthorizeReturn {
      DrawWithin(cfg, s);
      AutoWithin(cfg, Draw(s), q.state, q.challenge, r.clock.check3, r.clock.record, r.synced);
    }
  }

  lemma AuthorizeWithin(cfg: Config, s: Store, r: Request, q: Option<AuthorizeQuery>)
    requires Within(cfg, s)
    ensures Within(cfg, AuthorizeStep(cfg, s, r, q).0)
  {
    hide Within, GrantStep;
    if q.Some? && |s.forms| < 64 {
      GrantWithin(cfg, s, r, q.value, r.cookies.idpBinding, []);
      if |s.idpBrowsers| < 128 {
        IdpWithin(cfg, s, r.clock.check2);
        GrantWithin(cfg, BindIdp(s, r.clock.check2), r, q.value, Opaque(s.issued), [(IdpBinding, Opaque(s.issued))]);
      }
    }
  }

  lemma SpendWithin(cfg: Config, s: Store, csrf: Text)
    requires Within(cfg, s)
    ensures Within(cfg, SpendForm(s, csrf)) && SpendForm(s, csrf).codes == s.codes
  {
    TakeCard(s.forms, csrf);
  }

  lemma CodeWithin(cfg: Config, s: Store, o: Origin, state: Text, challenge: Text, at: int)
    requires Within(cfg, s) && (cfg.autoAuthorizeReturn || |s.codes| < 128)
    ensures Within(cfg, IssueCode(s, o, state, challenge, at))
  {
    PutCard(s.codes, Opaque(s.issued), Row(Code(state, challenge), at + FLOW_TTL));
  }

  lemma LoginWithin(cfg: Config, s: Store, r: Request, csrf: Text, u: string, p: string)
    requires Within(cfg, s)
    ensures Within(cfg, LoginStep(cfg, s, r, csrf, u, p).0)
  {
    hide Within, IssueCode, Recorded, SpendForm, LiveAt;
    SpendWithin(cfg, s, csrf);
    if csrf in s.forms {
      var f, valid := s.forms[csrf].value, u == cfg.username && p == cfg.password;
      var e := LoggedIn(csrf, r.cookies.idpBinding, valid);
      RecordedWithin(cfg, SpendForm(s, csrf), e, r.clock.record, r.synced);
      if |s.codes| < 128 {
        CodeWithin(cfg, Recorded(SpendForm(s, csrf), e, r.clock.record, r.synced), FromLogin(csrf), f.state,
                   f.challenge, r.clock.issue);
      }
    }
  }

  lemma DispatchWithin(cfg: Config, s: Store, r: Request)
    requires Within(cfg, s)
    ensures Within(cfg, Dispatch(cfg, s, r).0)
  {
    hide Within, HomeStep, StartStep, CallbackStep, AuthorizeStep, LoginStep;
    match r.target
    case Home => HomeWithin(cfg, s, r);
    case Start => StartWithin(cfg, s, r);
    case DeniedCallback => RecordedWithin(cfg, s, Noted(ForbiddenRedirectRead), r.clock.record, r.synced);
    case Callback(q) => CallbackWithin(cfg, s, r, q);
    case AccountPage =>
      if r.cookies.rpAuth in s.accounts {
        RecordedWithin(cfg, s,
                       Read(r.cookies.rpAuth, r.cookies.rpBinding, r.clock.check1, r.clock.check2),
                       r.clock.record, r.synced);
      }
    case Authorize(q) => AuthorizeWithin(cfg, s, r, q);
    case Login(csrf, u, p) => LoginWithin(cfg, s, r, csrf, u, p);
    case _ =>
  }

  lemma {:induction false} LimitsHold(cfg: Config, rs: seq<Request>)
    ensures Within(cfg, Run(cfg, INITIAL, rs))
  {
    if rs != [] {
      hide Within, Dispatch;
      var s, r := Run(cfg, INITIAL, rs[..|rs| - 1]), rs[|rs| - 1];
      LimitsHold(cfg, rs[..|rs| - 1]);
      if !r.target.Rejected? && !s.failed {
        PruneWithin(cfg, s, r.clock.prune);
        DispatchWithin(cfg, Prune(s, r.clock.prune), r);
      }
    }
  }

  // ----- the runs without a limit -----

  /** A well-formed authorization request at instant zero. */
  function AuthorizeAtZero(idpBinding: Text): Request {
    Request(Authorize(Some(AuthorizeQuery(true, Opaque(0), Challenge(Opaque(0))))),
            Cookies(Empty, Empty, Empty, idpBinding), Clock(0, 0, 0, 0, 0, 0, 0), true, true, false)
  }

  /** `n` authorization requests by one provider browser. */
  function Flood(n: nat): (rs: seq<Request>)
    ensures |rs| == n
  {
    if n == 0 then [] else Flood(n - 1) + [AuthorizeAtZero(if n == 1 then Empty else Opaque(0))]
  }

  /** One provider browser, `n` codes that are all live, and nothing else in the way. */
  ghost predicate Flooded(s: Store, n: nat) {
    && |s.codes| == n && !s.failed && s.forms == map[]
    && s.idpBrowsers == (if n == 0 then map[] else map[Opaque(0) := Row((), FLOW_TTL)]) && (n == 0 ==> s.issued == 0)
    && forall k :: k in s.codes ==> k.Opaque? && k.n < s.issued && s.codes[k].expires == FLOW_TTL
  }

  lemma FloodPruned(s: Store, n: nat)
    requires Flooded(s, n)
    ensures Flooded(Prune(s, 0), n)
  {
    assert Live(s.codes, 0) == s.codes;
    assert Live(s.idpBrowsers, 0) == s.idpBrowsers;
  }

  /** One more code, with the provider browser already bound. */
  lemma FloodAuto(s: Store, n: nat, state: Text, challenge: Text)
    requires |s.codes| == n && !s.failed && s.forms == map[] && s.idpBrowsers == map[Opaque(0) := Row((), FLOW_TTL)]
    requires forall k :: k in s.codes ==> k.Opaque? && k.n < s.issued && s.codes[k].expires == FLOW_TTL
    ensures Flooded(AutoAuthorize(Draw(s), state, challenge, 0, 0, true), n + 1)
  {
    assert Opaque(s.issued + 1) !in s.codes;
  }

  lemma FloodAgain(cfg: Config, s: Store, n: nat)
    requires cfg.autoAuthorizeReturn && Flooded(s, n) && n > 0
    ensures var r := AuthorizeAtZero(Opaque(0)); Flooded(AuthorizeStep(cfg, s, r, r.target.authorize).0, n + 1)
  {
    FloodAuto(s, n, Opaque(0), Challenge(Opaque(0)));
    hide Flooded, AutoAuthorize;
  }

  lemma FloodFirst(cfg: Config, s: Store)
    requires cfg.autoAuthorizeReturn && Flooded(s, 0)
    ensures var r := AuthorizeAtZero(Empty); Flooded(AuthorizeStep(cfg, s, r, r.target.authorize).0, 1)
  {
    assert BindIdp(s, 0).idpBrowsers == map[Opaque(0) := Row((), FLOW_TTL)];
    FloodAuto(BindIdp(s, 0), 0, Opaque(0), Challenge(Opaque(0)));
    hide Flooded, AutoAuthorize, BindIdp;
  }

  lemma FloodDispatched(cfg: Config, s: Store, b: Text)
    requires !s.failed
    ensures var r := AuthorizeAtZero(b);
            r.target.Authorize? && Step(cfg, s, r) == AuthorizeStep(cfg, Prune(s, 0), r, r.target.authorize)
  {
    hide AuthorizeStep, Prune;
  }

  lemma FloodAdvances(cfg: Config, s: Store, n: nat)
    requires cfg.autoAuthorizeReturn && Flooded(s, n)
    ensures Flooded(Step(cfg, s, AuthorizeAtZero(if n == 0 then Empty else Opaque(0))).0, n + 1)
  {
    assert !s.failed;
    hide Flooded, AuthorizeStep, Step, Prune, AuthorizeAtZero;
    FloodDispatched(cfg, s, if n == 0 then Empty else Opaque(0));
    FloodPruned(s, n);
    if n == 0 { FloodFirst(cfg, Prune(s, 0)); } else { FloodAgain(cfg, Prune(s, 0), n); }
  }

  lemma FloodNone(cfg: Config)
    ensures Flooded(Run(cfg, INITIAL, Flood(0)), 0)
  { }

  lemma FloodMore(cfg: Config, n: nat)
    ensures var r := AuthorizeAtZero(if n == 0 then Empty else Opaque(0));
            Run(cfg, INITIAL, Flood(n + 1)) == Step(cfg, Run(cfg, INITIAL, Flood(n)), r).0
  {
    hide Step, AuthorizeAtZero;
    var rs, r := Flood(n), AuthorizeAtZero(if n == 0 then Empty else Opaque(0));
    assert Flood(n + 1) == rs + [r] && (rs + [r])[..n] == rs;
  }

  /** With automatic authorization the code table has no limit: n requests leave n codes. */
  lemma {:induction false} FloodOverflows(cfg: Config, n: nat)
    requires cfg.autoAuthorizeReturn
    ensures Flooded(Run(cfg, INITIAL, Flood(n)), n)
  {
    hide Flooded, Step, Run, Flood, AuthorizeAtZero;
    if n == 0 {
      FloodNone(cfg);
    } else {
      FloodOverflows(cfg, n - 1);
      FloodMore(cfg, n - 1);
      FloodAdvances(cfg, Run(cfg, INITIAL, Flood(n - 1)), n - 1);
    }
  }

  /** Five tables keep their limits in every run under every configuration, and the code table keeps
      its limit in every run exactly when codes are not issued automatically. */
  lemma LimitsExactly(cfg: Config)
    ensures forall rs :: FiveWithin(Run(cfg, INITIAL, rs))
    ensures (forall rs :: |Run(cfg, INITIAL, rs).codes| <= 128) <==> !cfg.autoAuthorizeReturn
  {
    hide Run;
    forall rs ensures Within(cfg, Run(cfg, INITIAL, rs)) { LimitsHold(cfg, rs); }
    if cfg.autoAuthorizeReturn {
      FloodOverflows(cfg, 129);
      assert |Run(cfg, INITIAL, Flood(129)).codes| == 129;
    }
  }
}
