/** What the requests of a run presented: every event comes from one request, with that request's own
    cookies, query and credentials, so sessions, reads and codes go back to the browser that asked. */
module SsoPresented {
  import opened Options
  import opened SsoModel
  import opened SsoHistory
  import opened SsoRuns

  // ----- what one request adds to the history -----

  predicate Credentials(cfg: Config, r: Request) {
    r.target.Login? && r.target.username == cfg.username && r.target.password == cfg.password
  }

  /** The request is of the kind that makes this event, and presented what the event says. */
  predicate Presents(cfg: Config, r: Request, e: Event) {
    match e
    case Bound(_, at) => r.target.Home? && at == r.clock.issue
    case IdpBound(_, at) => r.target.Authorize? && at == r.clock.check2
    case Started(_, b, _, at) => r.target.Start? && r.cookies.rpBinding == b && at == r.clock.issue
    case FormServed(_, _, s, ch, _) => Asks(r, s, ch) && !cfg.autoAuthorizeReturn
    case CodeIssued(_, FromLogin(c), _, _, at) => Credentials(cfg, r) && r.target.csrf == c && at == r.clock.issue
    case CodeIssued(_, Automatic, s, ch, _) => Asks(r, s, ch) && cfg.autoAuthorizeReturn
    case LoggedIn(c, b, ok) =>
      r.target.Login? && r.target.csrf == c && r.cookies.idpBinding == b && (ok <==> Credentials(cfg, r))
    case Authorized(_) => r.target.Authorize? && cfg.autoAuthorizeReturn
    case Accepted(a) =>
      && r.target == Callback(Some(CallbackQuery(a.code, a.state))) && r.cookies.rpBinding == a.browser
      && a.checked == r.clock.check1 && a.codeChecked == r.clock.check2 && a.boundChecked == r.clock.check3
      && a.issued == r.clock.issue
    case Read(session, b, checked, boundChecked) =>
      && r.target.AccountPage? && r.cookies.rpAuth == session && r.cookies.rpBinding == b
      && checked == r.clock.check1 && boundChecked == r.clock.check2
    case Noted(_) => true
  }

  /** A well-formed authorization request for this state and challenge. */
  predicate Asks(r: Request, state: Text, challenge: Text) {
    && r.target == Authorize(Some(AuthorizeQuery(true, state, challenge)))
    && DecodesAsState(state) && DecodesAsChallenge(challenge)
  }

  ghost predicate Adds(cfg: Config, r: Request, h: seq<Event>, g: seq<Event>) {
    h <= g && forall i :: |h| <= i < |g| ==> Presents(cfg, r, g[i])
  }

  lemma AddsSame(cfg: Config, r: Request, h: seq<Event>)
    ensures Adds(cfg, r, h, h)
  { }

  lemma AddsMore(cfg: Config, r: Request, h: seq<Event>, g: seq<Event>, e: Event)
    requires Adds(cfg, r, h, g) && Presents(cfg, r, e)
    ensures Adds(cfg, r, h, g + [e])
  {
    hide Presents;
  }

  lemma RecordedAdds(cfg: Config, r: Request, h: seq<Event>, s: Store, e: Event, at: int, synced: bool)
    requires Adds(cfg, r, h, s.history) && KindOf(e).Some? && Presents(cfg, r, e)
    ensures Adds(cfg, r, h, Recorded(s, e, at, synced).history)
  {
    hide Adds, Presents;
    AddsMore(cfg, r, h, s.history, e);
  }

  lemma ExchangeAdds(cfg: Config, h: seq<Event>, s: Store, r: Request, q: CallbackQuery)
    requires Adds(cfg, r, h, s.history) && r.target == Callback(Some(q))
    ensures Adds(cfg, r, h, ExchangeStep(s, r, q).0.history)
  {
    hide Adds;
    if Exchanges(s, r, q) {
      var a := AcceptanceOf(s, r, q);
      RecordedAdds(cfg, r, h, s.(pending := s.pending - {a.state}, codes := s.codes - {a.code}), Accepted(a),
                   r.clock.record, r.synced);
    }
  }

  lemma CallbackAdds(cfg: Config, s: Store, r: Request, q: Option<CallbackQuery>)
    requires r.target == Callback(q)
    ensures Adds(cfg, r, s.history, CallbackStep(cfg, s, r, q).0.history)
  {
    hide Adds, ExchangeStep, Recorded;
    AddsSame(cfg, r, s.history);
    RecordedAdds(cfg, r, s.history, s, Noted(StrictCookieLeaked), r.clock.strict, r.strictSynced);
    RecordedAdds(cfg, r, s.history, s, Noted(StrictCookieWithheld), r.clock.strict, r.strictSynced);
    if q.Some? {
      ExchangeAdds(cfg, s.history, s, r, q.value);
      ExchangeAdds(cfg, s.history, Recorded(s, Noted(StrictCookieWithheld), r.clock.strict, r.strictSynced), r,
                   q.value);
    }
  }

  lemma GrantAdds(cfg: Config, h: seq<Event>, s: Store, r: Request, q: AuthorizeQuery, b: Text,
                  cs: seq<(CookieName, Text)>)
    requires Adds(cfg, r, h, s.history) && r.target == Authorize(Some(q)) && Asks(r, q.state, q.challenge)
    ensures Adds(cfg, r, h, GrantStep(cfg, s, r, q, b, cs).0.history)
  {
    hide Adds, Recorded;
    if cfg.autoAuthorizeReturn {
      AddsMore(cfg, r, h, s.history, CodeIssued(Opaque(s.issued + 1), Automatic, q.state, q.challenge, r.clock.check3));
      RecordedAdds(cfg, r, h, IssueCode(Draw(s), Automatic, q.state, q.challenge, r.clock.check3),
                   Authorized(Opaque(s.issued + 1)), r.clock.record, r.synced);
    } else {
      AddsMore(cfg, r, h, s.history, FormServed(Opaque(s.issued), b, q.state, q.challenge, r.clock.check3));
    }
  }

  lemma AuthorizeAdds(cfg: Config, s: Store, r: Request, q: Option<AuthorizeQuery>)
    requires r.target == Authorize(q)
    ensures Adds(cfg, r, s.history, AuthorizeStep(cfg, s, r, q).0.history)
  {
    hide Adds, GrantStep;
    AddsSame(cfg, r, s.history);
    if q.Some? && Asks(r, q.value.state, q.value.challenge) {
      GrantAdds(cfg, s.history, s, r, q.value, r.cookies.idpBinding, []);
      AddsMore(cfg, r, s.history, s.history, IdpBound(Opaque(s.issued), r.clock.check2));
      GrantAdds(cfg, s.history, BindIdp(s, r.clock.check2), r, q.value, Opaque(s.issued),
                [(IdpBinding, Opaque(s.issued))]);
    }
  }

  lemma CodeAdds(cfg: Config, r: Request, h: seq<Event>, s: Store, csrf: Text, state: Text, challenge: Text)
    requires Adds(cfg, r, h, s.history) && Credentials(cfg, r) && r.target.csrf == csrf
    ensures Adds(cfg, r, h, IssueCode(s, FromLogin(csrf), state, challenge, r.clock.issue).history)
  {
    hide Adds;
    AddsMore(cfg, r, h, s.history, CodeIssued(Opaque(s.issued), FromLogin(csrf), state, challenge, r.clock.issue));
  }

  lemma LoginAdds(cfg: Config, s: Store, r: Request, csrf: Text, u: string, p: string)
    requires r.target == Login(csrf, u, p)
    ensures Adds(cfg, r, s.history, LoginStep(cfg, s, r, csrf, u, p).0.history)
  {
    hide Adds, Recorded, IssueCode, LiveAt;
    AddsSame(cfg, r, s.history);
    assert SpendForm(s, csrf).history == s.history;
    hide SpendForm;
    if Submits(s, r, csrf) {
      var f, valid := s.forms[csrf].value, u == cfg.username && p == cfg.password;
      var e := LoggedIn(csrf, r.cookies.idpBinding, valid);
      RecordedAdds(cfg, r, s.history, SpendForm(s, csrf), e, r.clock.record, r.synced);
      if valid {
        CodeAdds(cfg, r, s.history, Recorded(SpendForm(s, csrf), e, r.clock.record, r.synced), csrf, f.state,
                 f.challenge);
      }
    }
  }

  lemma HomeAdds(cfg: Config, s: Store, r: Request)
    requires r.target.Home?
    ensures Adds(cfg, r, s.history, HomeStep(cfg, s, r).0.history)
  {
    hide Adds;
    AddsSame(cfg, r, s.history);
    AddsMore(cfg, r, s.history, s.history, Bound(Opaque(s.issued), r.clock.issue));
    AddsMore(cfg, r, s.history, s.history, Bound(Opaque(s.issued + 1), r.clock.issue));
  }

  lemma StartAdds(cfg: Config, s: Store, r: Request)
    requires r.target.Start?
    ensures Adds(cfg, r, s.history, StartStep(s, r).0.history)
  {
    hide Adds;
    AddsSame(cfg, r, s.history);
    AddsMore(cfg, r, s.history, s.history,
             Started(Opaque(s.issued), r.cookies.rpBinding, Opaque(s.issued + 1), r.clock.issue));
  }

  lemma AccountAdds(cfg: Config, s: Store, r: Request)
    requires r.target.AccountPage?
    ensures Adds(cfg, r, s.history, AccountStep(s, r).0.history)
  {
    hide Adds, Recorded, LiveAt;
    AddsSame(cfg, r, s.history);
    RecordedAdds(cfg, r, s.history, s, Read(r.cookies.rpAuth, r.cookies.rpBinding, r.clock.check1, r.clock.check2),
                 r.clock.record, r.synced);
  }

  lemma StepAdds(cfg: Config, s: Store, r: Request)
    ensures Adds(cfg, r, s.history, Step(cfg, s, r).0.history)
  {
    hide Adds, HomeStep, StartStep, CallbackStep, AccountStep, AuthorizeStep, LoginStep, Recorded;
    var t := Prune(s, r.clock.prune);
    AddsSame(cfg, r, s.history);
    match r.target
    case Home => HomeAdds(cfg, t, r);
    case Start => StartAdds(cfg, t, r);
    case DeniedCallback => RecordedAdds(cfg, r, s.history, t, Noted(ForbiddenRedirectRead), r.clock.record, r.synced);
    case Callback(q) => CallbackAdds(cfg, t, r, q);
    case AccountPage => AccountAdds(cfg, t, r);
    case Authorize(q) => AuthorizeAdds(cfg, t, r, q);
    case Login(csrf, u, p) => LoginAdds(cfg, t, r, csrf, u, p);
    case _ =>
  }

  // ----- every event of a run has its request -----

  /** Event `k` of the run's history was added by request `i`, which presented what it says. */
  ghost predicate MadeBy(cfg: Config, rs: seq<Request>, k: nat, i: nat) {
    && i < |rs| && |Run(cfg, INITIAL, rs[..i]).history| <= k < |Run(cfg, INITIAL, rs[..i + 1]).history|
    && k < |Run(cfg, INITIAL, rs).history| && Presents(cfg, rs[i], Run(cfg, INITIAL, rs).history[k])
  }

  /** Every event of every run was made by one of its requests. */
  lemma {:induction false} RequestOf(cfg: Config, rs: seq<Request>, k: nat) returns (i: nat)
    requires k < |Run(cfg, INITIAL, rs).history|
    ensures MadeBy(cfg, rs, k, i)
    decreases |rs|
  {
    NothingRan(cfg);
    hide Run, Step, Presents;
    var front, last := rs[..|rs| - 1], rs[|rs| - 1];
    assert rs == front + [last];
    RunMore(cfg, front, last);
    StepAdds(cfg, Run(cfg, INITIAL, front), last);
    if k < |Run(cfg, INITIAL, front).history| {
      i := RequestOf(cfg, front, k);
      assert front[..i] == rs[..i] && front[..i + 1] == rs[..i + 1];
    } else {
      i := |rs| - 1;
      assert rs[..i + 1] == rs;
    }
  }

  lemma NothingRan(cfg: Config)
    ensures Run(cfg, INITIAL, []).history == []
  { }

  lemma {:induction false} HistoryGrows(cfg: Config, rs: seq<Request>, i: nat, j: nat)
    requires i <= j <= |rs|
    ensures Run(cfg, INITIAL, rs[..i]).history <= Run(cfg, INITIAL, rs[..j]).history
    decreases j
  {
    hide Run, Step, Presents;
    if i < j {
      HistoryGrows(cfg, rs, i, j - 1);
      assert rs[..j] == rs[..j - 1] + [rs[j - 1]];
      RunMore(cfg, rs[..j - 1], rs[j - 1]);
      StepAdds(cfg, Run(cfg, INITIAL, rs[..j - 1]), rs[j - 1]);
    }
  }

  /** Earlier events come from earlier requests, or from the same one. */
  lemma RequestsInOrder(cfg: Config, rs: seq<Request>, k: nat, l: nat, i: nat, j: nat)
    requires k <= l && MadeBy(cfg, rs, k, i) && MadeBy(cfg, rs, l, j)
    ensures i <= j
  {
    if j < i { HistoryGrows(cfg, rs, j + 1, i); }
  }

  // ----- the browser that signs in is the browser that started -----

  lemma EventAt(h: seq<Event>, k: nat, e: Event) returns (i: nat)
    requires k <= |h| && e in h[..k]
    ensures i < k && h[i] == e
  {
    i :| 0 <= i < k && h[..k][i] == e;
  }

  /** Behind every session of every run: an earlier request to start the flow that presented the same
      binding cookie as the callback, and an earlier request that earned the code, by a login with the
      configured credentials or, where that option is on, by asking for it. */
  lemma SessionRequests(cfg: Config, rs: seq<Request>, k: nat) returns (start: nat, grant: nat, callback: nat)
    requires k < |Run(cfg, INITIAL, rs).history| && Run(cfg, INITIAL, rs).history[k].Accepted?
    ensures MadeBy(cfg, rs, k, callback) && start < callback && grant < callback
    ensures var a := Run(cfg, INITIAL, rs).history[k].a;
            && rs[callback].target == Callback(Some(CallbackQuery(a.code, a.state)))
            && rs[start].target.Start? && rs[start].cookies.rpBinding == rs[callback].cookies.rpBinding
            && (Credentials(cfg, rs[grant]) || (rs[grant].target.Authorize? && cfg.autoAuthorizeReturn))
  {
    hide Run, Step;
    var h := Run(cfg, INITIAL, rs).history;
    var a := h[k].a;
    callback := RequestOf(cfg, rs, k);
    SessionProvenance(cfg, rs, k);
    var i := EventAt(h, k, Started(a.state, a.browser, a.verifier, a.started));
    start := RequestOf(cfg, rs, i);
    RequestsInOrder(cfg, rs, i, k, start, callback);
    var o :| CodeIssued(a.code, o, a.state, Challenge(a.verifier), a.coded) in h[..k];
    var j := EventAt(h, k, CodeIssued(a.code, o, a.state, Challenge(a.verifier), a.coded));
    grant := RequestOf(cfg, rs, j);
    RequestsInOrder(cfg, rs, j, k, grant, callback);
  }

  /** Behind every read: an earlier callback request that presented the same binding cookie and was given
      the session this request presents. */
  lemma ReadRequests(cfg: Config, rs: seq<Request>, k: nat) returns (callback: nat, read: nat, a: Acceptance)
    requires k < |Run(cfg, INITIAL, rs).history| && Run(cfg, INITIAL, rs).history[k].Read?
    ensures MadeBy(cfg, rs, k, read) && callback < read && Accepted(a) in Run(cfg, INITIAL, rs).history
    ensures rs[callback].target == Callback(Some(CallbackQuery(a.code, a.state)))
    ensures rs[read].cookies.rpAuth == a.session && rs[read].cookies.rpBinding == rs[callback].cookies.rpBinding
  {
    hide Run, Step;
    var h := Run(cfg, INITIAL, rs).history;
    read := RequestOf(cfg, rs, k);
    ReadsAreTimely(cfg, rs, k);
    var b, j :| 0 <= j < k && h[j] == Accepted(b) && b.session == h[k].session && b.browser == h[k].browser;
    a := b;
    callback := RequestOf(cfg, rs, j);
    RequestsInOrder(cfg, rs, j, k, callback, read);
  }

  /** A flow belongs to the browser that started it: whoever presents another binding cookie cannot
      complete it, whatever state and code it presents. */
  lemma OnlyOwnFlow(cfg: Config, rs: seq<Request>, r: Request, q: CallbackQuery, b: Text, v: Text, at: int)
    requires r.target == Callback(Some(q)) && Started(q.state, b, v, at) in Run(cfg, INITIAL, rs).history
    requires r.cookies.rpBinding != b
    ensures Step(cfg, Run(cfg, INITIAL, rs), r).1.body != SignInComplete
  {
    if Step(cfg, Run(cfg, INITIAL, rs), r).1.body == SignInComplete {
      SignInPresented(cfg, rs, r, q);
      RunKeeps(cfg, rs);
      var h := Run(cfg, INITIAL, rs).history;
      hide Run, Step;
      var v', at', coded :| && Started(q.state, r.cookies.rpBinding, v', at') in h
                            && CodeIn(h, q.code, q.state, Challenge(v'), coded) && r.clock.check2 < coded + 3 * MINUTE;
      StartedOnce(h, q.state, b, v, at, r.cookies.rpBinding, v', at');
    }
  }

  lemma StartedOnce(h: seq<Event>, state: Text, b: Text, v: Text, at: int, b': Text, v': Text, at': int)
    requires Traced(h) && Started(state, b, v, at) in h && Started(state, b', v', at') in h
    ensures b == b'
  {
    var i :| 0 <= i < |h| && h[i] == Started(state, b, v, at);
    var j :| 0 <= j < |h| && h[j] == Started(state, b', v', at');
    if i < j {
      assert h[..j][i] == h[i];
      JustifiedAt(h, j);
    } else if j < i {
      assert h[..i][j] == h[j];
      JustifiedAt(h, i);
    }
  }

  // ----- what a released answer says about its request -----

  /** The rows a handler looks at were all put there by an event of the run. */
  lemma PrunedRows(cfg: Config, rs: seq<Request>, now: int)
    ensures var s := Run(cfg, INITIAL, rs); Rows(Prune(s, now)) && Prune(s, now).history == s.history
  {
    hide Run, Traced, Rows, Spent, Fresh;
    RunKeeps(cfg, rs);
    PruneKeeps(Run(cfg, INITIAL, rs), now);
  }

  lemma Dispatched(cfg: Config, s: Store, r: Request)
    requires Step(cfg, s, r).1.body != Nothing
    ensures Step(cfg, s, r) == Dispatch(cfg, Prune(s, r.clock.prune), r)
  {
    hide Dispatch, Prune;
  }

  ghost predicate FlowPresented(h: seq<Event>, r: Request, q: CallbackQuery) {
    exists v, at, coded ::
      && Started(q.state, r.cookies.rpBinding, v, at) in h && r.clock.check1 < at + 3 * MINUTE
      && CodeIn(h, q.code, q.state, Challenge(v), coded) && r.clock.check2 < coded + 3 * MINUTE
  }

  ghost predicate BindingPresented(h: seq<Event>, b: Text, now: int) {
    exists at :: Bound(b, at) in h && now < at + 15 * MINUTE
  }

  /** Signing in: the presented binding started the flow less than three minutes ago, the presented code was
      issued for it less than three minutes ago, and the binding itself is alive. */
  lemma SignInPresented(cfg: Config, rs: seq<Request>, r: Request, q: CallbackQuery)
    requires r.target == Callback(Some(q)) && Step(cfg, Run(cfg, INITIAL, rs), r).1.body == SignInComplete
    ensures FlowPresented(Run(cfg, INITIAL, rs).history, r, q)
    ensures BindingPresented(Run(cfg, INITIAL, rs).history, r.cookies.rpBinding, r.clock.check3)
  {
    hide Run, Step, CallbackStep, Rows, FlowPresented, BindingPresented;
    PrunedRows(cfg, rs, r.clock.prune);
    Dispatched(cfg, Run(cfg, INITIAL, rs), r);
    CallbackExchanges(cfg, Prune(Run(cfg, INITIAL, rs), r.clock.prune), r, q);
  }

  lemma CallbackExchanges(cfg: Config, s: Store, r: Request, q: CallbackQuery)
    requires Rows(s) && CallbackStep(cfg, s, r, Some(q)).1.body == SignInComplete
    ensures FlowPresented(s.history, r, q) && BindingPresented(s.history, r.cookies.rpBinding, r.clock.check3)
  {
    hide AcceptCallback, AcceptanceOf, Recorded, IdpBrowserRows, FormRows, AccountRows;
    CallbackTables(s, Noted(StrictCookieWithheld), r.clock.strict, r.strictSynced);
    var p, c, b := s.pending[q.state], s.codes[q.code], r.cookies.rpBinding;
    assert Started(q.state, b, p.value.verifier, p.expires - FLOW_TTL) in s.history;
    assert CodeIn(s.history, q.code, q.state, Challenge(p.value.verifier), c.expires - FLOW_TTL);
    assert Bound(b, s.browsers[b].expires - BINDING_TTL) in s.history;
  }

  lemma CallbackTables(s: Store, e: Event, at: int, synced: bool)
    requires KindOf(e).Some?
    ensures var t := Recorded(s, e, at, synced);
            t.pending == s.pending && t.codes == s.codes && t.browsers == s.browsers
  { }

  ghost predicate SessionPresented(h: seq<Event>, r: Request) {
    exists a :: Accepted(a) in h && a.session == r.cookies.rpAuth && a.browser == r.cookies.rpBinding
                && r.clock.check1 < a.issued + 3 * MINUTE
  }

  /** Reading the account: an accepted callback issued the presented session to the presented binding less
      than three minutes ago, and the binding itself is alive. */
  lemma ReadPresented(cfg: Config, rs: seq<Request>, r: Request)
    requires r.target.AccountPage? && Step(cfg, Run(cfg, INITIAL, rs), r).1.body == PrivateAccount
    ensures SessionPresented(Run(cfg, INITIAL, rs).history, r)
    ensures BindingPresented(Run(cfg, INITIAL, rs).history, r.cookies.rpBinding, r.clock.check2)
  {
    hide Run, Step, AccountStep, Rows, SessionPresented, BindingPresented;
    PrunedRows(cfg, rs, r.clock.prune);
    Dispatched(cfg, Run(cfg, INITIAL, rs), r);
    AccountPresented(Prune(Run(cfg, INITIAL, rs), r.clock.prune), r);
  }

  lemma AccountPresented(s: Store, r: Request)
    requires Rows(s) && AccountStep(s, r).1.body == PrivateAccount
    ensures SessionPresented(s.history, r) && BindingPresented(s.history, r.cookies.rpBinding, r.clock.check2)
  {
    hide Recorded, IdpBrowserRows, FormRows, FlowRows, CodeRows;
    var k := r.cookies.rpAuth;
    assert SessionIn(s.history, k, s.accounts[k].value, s.accounts[k].expires - FLOW_TTL);
    assert Bound(s.accounts[k].value, s.browsers[s.accounts[k].value].expires - BINDING_TTL) in s.history;
  }

  ghost predicate FormPresented(h: seq<Event>, r: Request, csrf: Text, state: Text) {
    && (exists ch, at :: FormServed(csrf, r.cookies.idpBinding, state, ch, at) in h && r.clock.check1 < at + 3 * MINUTE)
    && exists at :: IdpBound(r.cookies.idpBinding, at) in h && r.clock.check2 < at + 3 * MINUTE
  }

  /** Releasing a code by login: the presented form was served to the presented provider binding less than
      three minutes ago, that binding is alive, and the credentials are the configured ones. */
  lemma LoginPresented(cfg: Config, rs: seq<Request>, r: Request)
    requires r.target.Login? && Step(cfg, Run(cfg, INITIAL, rs), r).1.body.ToCallback?
    ensures Credentials(cfg, r)
    ensures FormPresented(Run(cfg, INITIAL, rs).history, r, r.target.csrf,
                          Step(cfg, Run(cfg, INITIAL, rs), r).1.body.state)
  {
    hide Run, Step, LoginStep, Rows, FormPresented;
    PrunedRows(cfg, rs, r.clock.prune);
    Dispatched(cfg, Run(cfg, INITIAL, rs), r);
    LoginSubmits(cfg, Prune(Run(cfg, INITIAL, rs), r.clock.prune), r, r.target.csrf, r.target.username,
                 r.target.password);
  }

  lemma LoginSubmits(cfg: Config, s: Store, r: Request, csrf: Text, u: string, p: string)
    requires Rows(s) && LoginStep(cfg, s, r, csrf, u, p).1.body.ToCallback?
    ensures u == cfg.username && p == cfg.password
    ensures FormPresented(s.history, r, csrf, LoginStep(cfg, s, r, csrf, u, p).1.body.state)
  {
    hide Recorded, IssueCode, SpendForm, BrowserRows, AccountRows, FlowRows, CodeRows;
    var f := s.forms[csrf];
    assert FormServed(csrf, f.value.browser, f.value.state, f.value.challenge, f.expires - FLOW_TTL) in s.history;
    assert IdpBound(f.value.browser, s.idpBrowsers[f.value.browser].expires - FLOW_TTL) in s.history;
  }

  /** Starting a flow: the presented binding was issued less than fifteen minutes ago. */
  lemma StartPresented(cfg: Config, rs: seq<Request>, r: Request)
    requires r.target.Start? && Step(cfg, Run(cfg, INITIAL, rs), r).1.body.ToProvider?
    ensures BindingPresented(Run(cfg, INITIAL, rs).history, r.cookies.rpBinding, r.clock.check1)
  {
    hide Run, Step, StartStep, Rows, BindingPresented;
    PrunedRows(cfg, rs, r.clock.prune);
    Dispatched(cfg, Run(cfg, INITIAL, rs), r);
    StartBound(Prune(Run(cfg, INITIAL, rs), r.clock.prune), r);
  }

  lemma StartBound(s: Store, r: Request)
    requires Rows(s) && StartStep(s, r).1.body.ToProvider?
    ensures BindingPresented(s.history, r.cookies.rpBinding, r.clock.check1)
  {
    hide StartFlow, IdpBrowserRows, FormRows, FlowRows, CodeRows, AccountRows;
    var b := r.cookies.rpBinding;
    assert Bound(b, s.browsers[b].expires - BINDING_TTL) in s.history;
  }
}
