/** The honest round trip: a browser that only follows the answers it gets signs in and reads its account, from
    any store with room and a working journal, as long as it keeps within the lifetimes. */
module SsoJourney {
  import opened Options
  import opened SsoModel
  import opened SsoPresented
  import opened SsoAnswers
  import opened SsoLazy

  // ----- answers along a run -----

  /** Each answer is that of the step taken in the store the earlier requests left. */
  lemma {:induction false} AnswerAt(cfg: Config, s: Store, rs: seq<Request>, i: nat)
    requires i < |rs|
    ensures |Answers(cfg, s, rs)| == |rs|
    ensures Answers(cfg, s, rs)[i] == Step(cfg, Run(cfg, s, rs[..i]), rs[i]).1
    ensures Run(cfg, s, rs[..i + 1]) == Step(cfg, Run(cfg, s, rs[..i]), rs[i]).0
  {
    hide Step;
    var front := rs[..|rs| - 1];
    assert rs[..i + 1][..i] == rs[..i];
    AnswersLength(cfg, s, rs);
    AnswersLength(cfg, s, front);
    if i < |front| {
      AnswerAt(cfg, s, front, i);
      assert front[..i] == rs[..i];
    }
  }

  lemma {:induction false} AnswersLength(cfg: Config, s: Store, rs: seq<Request>)
    ensures |Answers(cfg, s, rs)| == |rs|
  {
    hide Step;
    if rs != [] { AnswersLength(cfg, s, rs[..|rs| - 1]); }
  }

  /** In every run, every answer delivers what the tables then hold. */
  lemma RunDelivers(cfg: Config, rs: seq<Request>, i: nat)
    requires i < |rs|
    ensures |Answers(cfg, INITIAL, rs)| == |rs|
    ensures Delivers(cfg, Run(cfg, INITIAL, rs[..i]), rs[i], Run(cfg, INITIAL, rs[..i + 1]),
                     Answers(cfg, INITIAL, rs)[i])
  {
    hide Step, Run, Answers, Delivers;
    AnswerAt(cfg, INITIAL, rs, i);
    StepDelivers(cfg, Run(cfg, INITIAL, rs[..i]), rs[i]);
  }

  // ----- each request of the trip, from any store -----

  /** Until when the binding of this name counts, or the new one that is made for lack of it. */
  function Deadline(m: Table<()>, k: Text, now: int, renewed: int): int {
    if LiveAt(m, k, now) then m[k].expires else renewed
  }

  lemma HomeGoes(cfg: Config, s: Store, r: Request)
    requires r.target == Home && !s.failed && r.clock.Monotone()
    requires LiveAt(s.browsers, r.cookies.rpBinding, r.clock.check1) || |Live(s.browsers, r.clock.prune)| < 128
    ensures var (t, a) := Step(cfg, s, r);
            var jar := Stored(r.cookies, a.cookies);
            && a.body == HomePage && !t.failed && jar.idpBinding == r.cookies.idpBinding && jar.rpBinding in t.browsers
            && t.browsers[jar.rpBinding].expires
               == Deadline(s.browsers, r.cookies.rpBinding, r.clock.check1, r.clock.issue + 15 * MINUTE)
            && t.(browsers := map[], issued := 0, history := []) == Prune(s, r.clock.prune).(browsers := map[],
               issued := 0, history := [])
  {
    hide Stored, StartStep, CallbackStep, AccountStep, AuthorizeStep, LoginStep;
    var p := Prune(s, r.clock.prune);
    SameLookup(s.browsers, r.cookies.rpBinding, r.clock.prune, r.clock.check1);
    StoredNone(r.cookies);
    StoredOne(r.cookies, RpStrict, Opaque(p.issued));
    StoredOne(r.cookies, RpBinding, Opaque(p.issued));
    StoredTwo(r.cookies, Opaque(p.issued), Opaque(p.issued + 1));
    assert [] + [(RpBinding, Opaque(p.issued))] == [(RpBinding, Opaque(p.issued))];
  }

  lemma StartGoes(cfg: Config, s: Store, r: Request)
    requires r.target == Start && !s.failed && r.clock.Monotone()
    requires LiveAt(s.browsers, r.cookies.rpBinding, r.clock.check1) && |Live(s.pending, r.clock.prune)| < 64
    ensures var (t, a) := Step(cfg, s, r);
            && a.body.ToProvider? && StartDelivers(r, t, a, a.body.state, a.body.challenge) && !t.failed
            && DecodesAsState(a.body.state)
            && t.(pending := map[], issued := 0, history := []) == Prune(s, r.clock.prune).(pending := map[],
               issued := 0, history := [])
  {
    hide HomeStep, CallbackStep, AccountStep, AuthorizeStep, LoginStep;
    SameLookup(s.browsers, r.cookies.rpBinding, r.clock.prune, r.clock.check1);
  }

  lemma AuthorizeGoes(cfg: Config, s: Store, r: Request, state: Text, challenge: Text)
    requires Asks(r, state, challenge) && !s.failed && r.clock.Monotone() && !cfg.autoAuthorizeReturn
    requires |Live(s.forms, r.clock.prune)| < 64
    requires LiveAt(s.idpBrowsers, r.cookies.idpBinding, r.clock.check1)
             || |Live(s.idpBrowsers, r.clock.prune)| < 128
    ensures var (t, a) := Step(cfg, s, r);
            var jar := Stored(r.cookies, a.cookies);
            && a.body.LoginForm? && a.body.csrf in t.forms && jar.idpBinding in t.idpBrowsers && !t.failed
            && t.forms[a.body.csrf] == Row(Form(jar.idpBinding, state, challenge), r.clock.check3 + 3 * MINUTE)
            && jar.rpBinding == r.cookies.rpBinding && t.idpBrowsers[jar.idpBinding].expires
               == Deadline(s.idpBrowsers, r.cookies.idpBinding, r.clock.check1, r.clock.check2 + 3 * MINUTE)
            && t.(forms := map[], idpBrowsers := map[], issued := 0, history := [])
               == Prune(s, r.clock.prune).(forms := map[], idpBrowsers := map[], issued := 0, history := [])
  {
    hide Stored, HomeStep, StartStep, CallbackStep, AccountStep, LoginStep;
    var p := Prune(s, r.clock.prune);
    SameLookup(s.idpBrowsers, r.cookies.idpBinding, r.clock.prune, r.clock.check1);
    StoredNone(r.cookies);
    StoredOne(r.cookies, IdpBinding, Opaque(p.issued));
  }

  lemma AutoGranted(cfg: Config, s: Store, r: Request, q: AuthorizeQuery, b: Text, cookies: seq<(CookieName, Text)>)
    requires cfg.autoAuthorizeReturn && r.synced && !s.failed
    ensures var (t, a) := GrantStep(cfg, s, r, q, b, cookies);
            && a.body.ToCallback? && a.body.state == q.state && !a.body.denied && a.body.code in t.codes
            && t.codes[a.body.code] == Row(Code(q.state, q.challenge), r.clock.check3 + 3 * MINUTE)
            && a.cookies == cookies && !t.failed
            && t.browsers == s.browsers && t.pending == s.pending && t.accounts == s.accounts
  { }

  /** The automatic answer needs no login and no room for the code. */
  lemma AutoGoes(cfg: Config, s: Store, r: Request, state: Text, challenge: Text)
    requires Asks(r, state, challenge) && !s.failed && r.clock.Monotone() && cfg.autoAuthorizeReturn && r.synced
    requires |Live(s.forms, r.clock.prune)| < 64
    requires LiveAt(s.idpBrowsers, r.cookies.idpBinding, r.clock.check1)
             || |Live(s.idpBrowsers, r.clock.prune)| < 128
    ensures var (t, a) := Step(cfg, s, r);
            && a.body.ToCallback? && a.body.state == state && !a.body.denied && a.body.code in t.codes
            && t.codes[a.body.code] == Row(Code(state, challenge), r.clock.check3 + 3 * MINUTE)
            && Stored(r.cookies, a.cookies).rpBinding == r.cookies.rpBinding && !t.failed
            && t.browsers == Live(s.browsers, r.clock.prune) && t.pending == Live(s.pending, r.clock.prune)
            && t.accounts == Live(s.accounts, r.clock.prune)
  {
    hide Stored, HomeStep, StartStep, CallbackStep, AccountStep, LoginStep, GrantStep;
    var p, q := Prune(s, r.clock.prune), r.target.authorize.value;
    SameLookup(s.idpBrowsers, r.cookies.idpBinding, r.clock.prune, r.clock.check1);
    StoredNone(r.cookies);
    StoredOne(r.cookies, IdpBinding, Opaque(p.issued));
    AutoGranted(cfg, p, r, q, r.cookies.idpBinding, []);
    AutoGranted(cfg, BindIdp(p, r.clock.check2), r, q, Opaque(p.issued), [(IdpBinding, Opaque(p.issued))]);
  }

  lemma LoginGoes(cfg: Config, s: Store, r: Request, csrf: Text, form: Form)
    requires r.target == Login(csrf, cfg.username, cfg.password) && !s.failed && r.clock.Monotone() && r.synced
    requires LiveAt(s.forms, csrf, r.clock.check1) && s.forms[csrf].value == form && !(cfg.loginDelay && r.cancelled)
    requires form.browser == r.cookies.idpBinding && LiveAt(s.idpBrowsers, form.browser, r.clock.check2)
    requires |Live(s.codes, r.clock.prune)| < 128
    ensures var (t, a) := Step(cfg, s, r);
            && a.body.ToCallback? && a.body.state == form.state && a.body.denied == cfg.deniedCallbackPath
            && a.cookies == [] && a.body.code in t.codes && !t.failed
            && t.codes[a.body.code] == Row(Code(form.state, form.challenge), r.clock.issue + 3 * MINUTE)
            && t.browsers == Live(s.browsers, r.clock.prune) && t.pending == Live(s.pending, r.clock.prune)
            && t.accounts == Live(s.accounts, r.clock.prune)
  {
    hide HomeStep, StartStep, CallbackStep, AccountStep, AuthorizeStep;
    SameLookup(s.forms, csrf, r.clock.prune, r.clock.check1);
    SameLookup(s.idpBrowsers, form.browser, r.clock.prune, r.clock.check2);
  }

  lemma ExchangeGoes(s: Store, r: Request, q: CallbackQuery, v: Text)
    requires !s.failed && r.synced && |s.accounts| < 128
    requires LiveAt(s.pending, q.state, r.clock.check1) && s.pending[q.state].value == Flow(r.cookies.rpBinding, v)
    requires LiveAt(s.codes, q.code, r.clock.check2) && s.codes[q.code].value == Code(q.state, Challenge(v))
    requires LiveAt(s.browsers, r.cookies.rpBinding, r.clock.check3)
    ensures var (t, a) := ExchangeStep(s, r, q);
            && a.body == SignInComplete && a.cookies == [(RpAuth, Opaque(s.issued))] && Opaque(s.issued) in t.accounts
            && t.accounts[Opaque(s.issued)] == Row(r.cookies.rpBinding, r.clock.issue + 3 * MINUTE) && !t.failed
            && t.browsers == s.browsers
  {
    assert Exchanges(s, r, q);
  }

  lemma CallbackGoes(cfg: Config, s: Store, r: Request, q: CallbackQuery, v: Text)
    requires r.target == Callback(Some(q)) && !s.failed && r.clock.Monotone() && r.synced && r.strictSynced
    requires r.cookies.rpStrict == Empty && |Live(s.accounts, r.clock.prune)| < 128
    requires LiveAt(s.pending, q.state, r.clock.check1) && s.pending[q.state].value == Flow(r.cookies.rpBinding, v)
    requires LiveAt(s.codes, q.code, r.clock.check2) && s.codes[q.code].value == Code(q.state, Challenge(v))
    requires LiveAt(s.browsers, r.cookies.rpBinding, r.clock.check3)
    ensures var (t, a) := Step(cfg, s, r);
            && a.body == SignInComplete && a.cookies == [(RpAuth, Opaque(s.issued))] && Opaque(s.issued) in t.accounts
            && t.accounts[Opaque(s.issued)] == Row(r.cookies.rpBinding, r.clock.issue + 3 * MINUTE) && !t.failed
            && t.browsers == Live(s.browsers, r.clock.prune)
  {
    hide HomeStep, StartStep, AccountStep, AuthorizeStep, LoginStep, ExchangeStep;
    SameLookup(s.pending, q.state, r.clock.prune, r.clock.check1);
    SameLookup(s.codes, q.code, r.clock.prune, r.clock.check2);
    SameLookup(s.browsers, r.cookies.rpBinding, r.clock.prune, r.clock.check3);
    var p := Prune(s, r.clock.prune);
    ExchangeGoes(p, r, q, v);
    ExchangeGoes(Recorded(p, Noted(StrictCookieWithheld), r.clock.strict, true), r, q, v);
  }

  lemma AccountGoes(cfg: Config, s: Store, r: Request)
    requires r.target == AccountPage && !s.failed && r.clock.Monotone() && r.synced
    requires LiveAt(s.accounts, r.cookies.rpAuth, r.clock.check1)
    requires s.accounts[r.cookies.rpAuth].value == r.cookies.rpBinding
    requires LiveAt(s.browsers, r.cookies.rpBinding, r.clock.check2)
    ensures Step(cfg, s, r).1.body == PrivateAccount
  {
    hide HomeStep, StartStep, CallbackStep, AuthorizeStep, LoginStep;
    SameLookup(s.accounts, r.cookies.rpAuth, r.clock.prune, r.clock.check1);
    SameLookup(s.browsers, r.cookies.rpBinding, r.clock.prune, r.clock.check2);
  }

  // ----- the stages of the trip -----

  /** The flow `state` of the binding `b` can still be completed. */
  ghost predicate Waiting(t: Store, b: Text, state: Text, v: Text, bound: int, started: int) {
    && !t.failed && b in t.browsers && t.browsers[b].expires == bound
    && state in t.pending && t.pending[state] == Row(Flow(b, v), started + 3 * MINUTE)
  }

  lemma StillWaiting(t: Store, u: Store, now: int, b: Text, state: Text, v: Text, bound: int, started: int)
    requires Waiting(t, b, state, v, bound, started) && now < bound && now < started + 3 * MINUTE && !u.failed
    requires u.browsers == Live(t.browsers, now) && u.pending == Live(t.pending, now)
    ensures Waiting(u, b, state, v, bound, started)
  { }

  /** Both requests read the clock forwards, the second after the first. */
  predicate Consecutive(r: Request, next: Request) {
    r.clock.Monotone() && next.clock.Monotone() && r.clock.issue <= next.clock.prune
  }

  /** Home and start: a flow waits under the binding the browser holds. */
  lemma FlowOpens(cfg: Config, s: Store, home: Request, start: Request) returns (v: Text)
    requires home.target == Home && start.target == Start && !s.failed && Consecutive(home, start)
    requires LiveAt(s.browsers, home.cookies.rpBinding, home.clock.check1)
             || |Live(s.browsers, home.clock.prune)| < 128
    requires start.cookies == Stored(home.cookies, Step(cfg, s, home).1.cookies)
    requires |Live(s.pending, start.clock.prune)| < 64
    requires start.clock.check1
             < Deadline(s.browsers, home.cookies.rpBinding, home.clock.check1, home.clock.issue + 15 * MINUTE)
    ensures var (t, a) := Step(cfg, Step(cfg, s, home).0, start);
            && a.body.ToProvider? && a.body.challenge == Challenge(v) && DecodesAsState(a.body.state) && a.cookies == []
            && Waiting(t, start.cookies.rpBinding, a.body.state, v,
                       Deadline(s.browsers, home.cookies.rpBinding, home.clock.check1, home.clock.issue + 15 * MINUTE),
                       start.clock.issue)
            && start.cookies.idpBinding == home.cookies.idpBinding && SameElsewhere(s, t, start.clock.prune)
  {
    hide Step, Stored, Live;
    HomeGoes(cfg, s, home);
    var t := Step(cfg, s, home).0;
    LiveTwice(s.pending, home.clock.prune, start.clock.prune);
    StartGoes(cfg, t, start);
    var u, a := Step(cfg, t, start).0, Step(cfg, t, start).1;
    v := u.pending[a.body.state].value.verifier;
    StillBound(t.browsers, start.cookies.rpBinding, start.clock.prune);
    LiveTwice(s.idpBrowsers, home.clock.prune, start.clock.prune);
    LiveTwice(s.forms, home.clock.prune, start.clock.prune);
    LiveTwice(s.codes, home.clock.prune, start.clock.prune);
    LiveTwice(s.accounts, home.clock.prune, start.clock.prune);
  }

  lemma StillBound(m: Table<()>, b: Text, now: int)
    requires b in m && now < m[b].expires
    ensures b in Live(m, now) && Live(m, now)[b] == m[b]
  { }

  /** The tables the relying party's first two pages leave alone. */
  ghost predicate SameElsewhere(s: Store, t: Store, now: int) {
    && t.idpBrowsers == Live(s.idpBrowsers, now) && t.forms == Live(s.forms, now) && t.codes == Live(s.codes, now)
    && t.accounts == Live(s.accounts, now)
  }

  /** A code for the waiting flow is there until `expires`. */
  ghost predicate Coded(t: Store, code: Text, state: Text, v: Text, expires: int) {
    code in t.codes && t.codes[code] == Row(Code(state, Challenge(v)), expires)
  }

  /** Authorization and login: the provider hands out a code for the flow. */
  lemma CodeEarned(cfg: Config, s: Store, ask: Request, login: Request, state: Text, v: Text, bound: int, started: int)
    requires !cfg.autoAuthorizeReturn && Asks(ask, state, Challenge(v)) && Consecutive(ask, login) && login.synced
    requires Waiting(s, ask.cookies.rpBinding, state, v, bound, started)
    requires login.clock.prune < bound && login.clock.prune < started + 3 * MINUTE
    requires |Live(s.forms, ask.clock.prune)| < 64 && |Live(s.codes, login.clock.prune)| < 128
    requires LiveAt(s.idpBrowsers, ask.cookies.idpBinding, ask.clock.check1)
             || |Live(s.idpBrowsers, ask.clock.prune)| < 128
    requires var a := Step(cfg, s, ask).1;
             && login.cookies == Stored(ask.cookies, a.cookies)
             && (a.body.LoginForm? ==> login.target == Login(a.body.csrf, cfg.username, cfg.password))
    requires login.clock.check1 < ask.clock.check3 + 3 * MINUTE && !(cfg.loginDelay && login.cancelled)
    requires login.clock.check2
             < Deadline(s.idpBrowsers, ask.cookies.idpBinding, ask.clock.check1, ask.clock.check2 + 3 * MINUTE)
    ensures var (t, a) := Step(cfg, Step(cfg, s, ask).0, login);
            && a.body.ToCallback? && a.body.state == state && a.body.denied == cfg.deniedCallbackPath
            && a.cookies == [] && login.cookies.rpBinding == ask.cookies.rpBinding
            && Coded(t, a.body.code, state, v, login.clock.issue + 3 * MINUTE)
            && Waiting(t, ask.cookies.rpBinding, state, v, bound, started)
            && t.accounts == Live(s.accounts, login.clock.prune)
  {
    hide Step, Stored, Live, Waiting;
    WaitingMeans(s, ask.cookies.rpBinding, state, v, bound, started);
    AuthorizeGoes(cfg, s, ask, state, Challenge(v));
    var t := Step(cfg, s, ask).0;
    StillWaiting(s, t, ask.clock.prune, ask.cookies.rpBinding, state, v, bound, started);
    LiveTwice(s.codes, ask.clock.prune, login.clock.prune);
    LiveTwice(s.accounts, ask.clock.prune, login.clock.prune);
    LoginGoes(cfg, t, login, Step(cfg, s, ask).1.body.csrf, Form(login.cookies.idpBinding, state, Challenge(v)));
    var u := Step(cfg, t, login).0;
    StillWaiting(t, u, login.clock.prune, ask.cookies.rpBinding, state, v, bound, started);
  }

  lemma WaitingMeans(t: Store, b: Text, state: Text, v: Text, bound: int, started: int)
    requires Waiting(t, b, state, v, bound, started)
    ensures !t.failed && LiveIf(t.browsers, b, bound) && LiveIf(t.pending, state, started + 3 * MINUTE)
    ensures t.pending[state].value == Flow(b, v)
  { }

  predicate LiveIf<V>(m: Table<V>, k: Text, deadline: int) { k in m && m[k].expires == deadline }

  /** Callback and account page: the code completes the flow, and the session opens the account. */
  lemma AccountOpens(cfg: Config, s: Store, back: Request, read: Request, jar: Cookies, code: Text, state: Text,
                     v: Text,
                     bound: int, started: int, expires: int)
    requires back.target == Callback(Some(CallbackQuery(code, state))) && read.target == AccountPage
    requires back.cookies == jar.(rpStrict := Empty) && Consecutive(back, read)
    requires back.synced && back.strictSynced && read.synced && |Live(s.accounts, back.clock.prune)| < 128
    requires Waiting(s, jar.rpBinding, state, v, bound, started) && Coded(s, code, state, v, expires)
    requires back.clock.check1 < started + 3 * MINUTE && back.clock.check2 < expires && back.clock.check3 < bound
    requires read.cookies == Stored(jar, Step(cfg, s, back).1.cookies)
    requires read.clock.check1 < back.clock.issue + 3 * MINUTE && read.clock.check2 < bound
    ensures Step(cfg, s, back).1.body == SignInComplete
    ensures Step(cfg, Step(cfg, s, back).0, read).1.body == PrivateAccount
  {
    hide Step, Stored, Live, Waiting;
    WaitingMeans(s, jar.rpBinding, state, v, bound, started);
    CallbackGoes(cfg, s, back, CallbackQuery(code, state), v);
    StoredOne(jar, RpAuth, Opaque(s.issued));
    StillBound(s.browsers, jar.rpBinding, back.clock.prune);
    AccountGoes(cfg, Step(cfg, s, back).0, read);
  }

  // ----- the whole trip -----

  /** Six requests of a browser that has only what it came with, the credentials and the earlier answers.
      Coming from another site, it does not send the strict cookie to the callback. */
  ghost predicate FollowsForm(cfg: Config, rs: seq<Request>, answers: seq<Response>)
    requires |rs| == |answers| == 6
  {
    var held := Stored(Stored(rs[0].cookies, answers[0].cookies), answers[1].cookies);
    var later := Stored(Stored(held, answers[2].cookies), answers[3].cookies);
    && rs[0].target == Home
    && rs[1].target == Start && rs[1].cookies == Stored(rs[0].cookies, answers[0].cookies)
    && rs[2].cookies == held && AuthorizeFrom(rs[2], answers[1])
    && rs[3].cookies == Stored(held, answers[2].cookies)
    && (answers[2].body.LoginForm? ==>
          rs[3].target == Login(answers[2].body.csrf, cfg.username, cfg.password))
    && rs[4].cookies == later.(rpStrict := Empty) && CallbackFrom(rs[4], answers[3])
    && rs[5].target == AccountPage && rs[5].cookies == Stored(later, answers[4].cookies)
  }

  predicate AuthorizeFrom(r: Request, a: Response) {
    a.body.ToProvider? ==> r.target == Authorize(Some(AuthorizeQuery(true, a.body.state, a.body.challenge)))
  }

  predicate CallbackFrom(r: Request, a: Response) {
    a.body.ToCallback? ==>
      r.target == if a.body.denied then DeniedCallback else Callback(Some(CallbackQuery(a.body.code, a.body.state)))
  }

  /** The clock never runs backwards and no request is refused a journal write or cancelled. */
  predicate Smooth(rs: seq<Request>) {
    && (forall i :: 0 < i < |rs| ==> Consecutive(rs[i - 1], rs[i]))
    && forall r :: r in rs ==> r.synced && r.strictSynced && !r.cancelled
  }

  /** Until when the browser's binding at the relying party, and that at the provider, will count. */
  function BoundUntil(s: Store, home: Request): int {
    Deadline(s.browsers, home.cookies.rpBinding, home.clock.check1, home.clock.issue + 15 * MINUTE)
  }
  function ProviderUntil(s: Store, home: Request, ask: Request): int {
    Deadline(s.idpBrowsers, home.cookies.idpBinding, ask.clock.check1, ask.clock.check2 + 3 * MINUTE)
  }

  /** When each request comes, no table it needs is full of live rows. */
  ghost predicate RoomToAsk(s: Store, home: Request, start: Request, ask: Request) {
    && (LiveAt(s.browsers, home.cookies.rpBinding, home.clock.check1)
        || |Live(s.browsers, home.clock.prune)| < 128)
    && |Live(s.pending, start.clock.prune)| < 64 && |Live(s.forms, ask.clock.prune)| < 64
    && (LiveAt(s.idpBrowsers, home.cookies.idpBinding, ask.clock.check1)
        || |Live(s.idpBrowsers, ask.clock.prune)| < 128)
  }

  /** From any store: the six requests are answered with a completed sign-in and the private account. */
  lemma SignsInByForm(cfg: Config, s: Store, rs: seq<Request>)
    requires |rs| == 6 && Smooth(rs) && !s.failed && !cfg.autoAuthorizeReturn && !cfg.deniedCallbackPath
    requires |Answers(cfg, s, rs)| == 6 && FollowsForm(cfg, rs, Answers(cfg, s, rs))
    requires RoomToAsk(s, rs[0], rs[1], rs[2])
    requires |Live(s.codes, rs[3].clock.prune)| < 128 && |Live(s.accounts, rs[4].clock.prune)| < 128
    requires rs[3].clock.check1 < rs[2].clock.check3 + 3 * MINUTE
    requires rs[3].clock.check2 < ProviderUntil(s, rs[0], rs[2])
    requires rs[4].clock.check1 < rs[1].clock.issue + 3 * MINUTE && rs[4].clock.check2 < rs[3].clock.issue + 3 * MINUTE
    requires rs[5].clock.check1 < rs[4].clock.issue + 3 * MINUTE && rs[5].clock.check2 < BoundUntil(s, rs[0])
    ensures Answers(cfg, s, rs)[4].body == SignInComplete && Answers(cfg, s, rs)[5].body == PrivateAccount
  {
    hide Step, Stored, Live, Waiting, Coded, Run, Answers, LiveAt, BoundUntil, ProviderUntil, RoomToAsk, Smooth,
         Consecutive;
    var t := Along(cfg, s, rs);
    var a := Answers(cfg, s, rs);
    TripOrder(rs);
    var v := AskedInTime(cfg, s, rs[0], rs[1], rs[2]);
    var state, bound, started := a[1].body.state, BoundUntil(s, rs[0]), rs[1].clock.issue;
    EarnedInTime(cfg, s, t[2], rs[0], rs[1], rs[2], rs[3], state, v, bound);
    StoredNone(rs[3].cookies);
    LiveTwice(s.accounts, rs[3].clock.prune, rs[4].clock.prune);
    AccountOpens(cfg, t[4], rs[4], rs[5], rs[3].cookies, a[3].body.code, state, v, bound, started,
                 rs[3].clock.issue + 3 * MINUTE);
  }

  /** The provider is asked for the flow that waits. */
  lemma AskedInTime(cfg: Config, s: Store, home: Request, start: Request, ask: Request) returns (v: Text)
    requires home.target == Home && start.target == Start && !s.failed
    requires Consecutive(home, start) && Consecutive(start, ask) && RoomToAsk(s, home, start, ask)
    requires start.cookies == Stored(home.cookies, Step(cfg, s, home).1.cookies)
    requires start.clock.check1 < BoundUntil(s, home)
    requires var a := Step(cfg, Step(cfg, s, home).0, start).1;
             ask.cookies == Stored(start.cookies, a.cookies) && AuthorizeFrom(ask, a)
    ensures var (t, a) := Step(cfg, Step(cfg, s, home).0, start);
            && a.body.ToProvider? && Asks(ask, a.body.state, Challenge(v)) && SameElsewhere(s, t, start.clock.prune)
            && Waiting(t, ask.cookies.rpBinding, a.body.state, v, BoundUntil(s, home), start.clock.issue)
            && ask.cookies.idpBinding == home.cookies.idpBinding
  {
    hide Step, Stored, Live, Waiting, LiveAt, Deadline, SameElsewhere;
    v := FlowOpens(cfg, s, home, start);
    StoredNone(start.cookies);
    AsksFor(ask, Step(cfg, Step(cfg, s, home).0, start).1.body.state, v);
  }

  /** The code is earned with the room and in the time the first store leaves. */
  lemma EarnedInTime(cfg: Config, s: Store, t: Store, home: Request, start: Request, ask: Request, login: Request,
                     state: Text, v: Text, bound: int)
    requires SameElsewhere(s, t, start.clock.prune) && RoomToAsk(s, home, start, ask) && !cfg.autoAuthorizeReturn
    requires Asks(ask, state, Challenge(v)) && Consecutive(start, ask) && Consecutive(ask, login)
    requires Waiting(t, ask.cookies.rpBinding, state, v, bound, start.clock.issue)
    requires ask.cookies.idpBinding == home.cookies.idpBinding && login.synced && !login.cancelled
    requires var a := Step(cfg, t, ask).1;
             && login.cookies == Stored(ask.cookies, a.cookies)
             && (a.body.LoginForm? ==> login.target == Login(a.body.csrf, cfg.username, cfg.password))
    requires |Live(s.codes, login.clock.prune)| < 128 && login.clock.check1 < ask.clock.check3 + 3 * MINUTE
    requires login.clock.check2 < ProviderUntil(s, home, ask)
    requires login.clock.prune < bound && login.clock.prune < start.clock.issue + 3 * MINUTE
    ensures var (u, a) := Step(cfg, Step(cfg, t, ask).0, login);
            && a.body.ToCallback? && a.body.state == state && a.body.denied == cfg.deniedCallbackPath
            && a.cookies == [] && login.cookies.rpBinding == ask.cookies.rpBinding
            && Coded(u, a.body.code, state, v, login.clock.issue + 3 * MINUTE)
            && Waiting(u, login.cookies.rpBinding, state, v, bound, start.clock.issue)
            && u.accounts == Live(s.accounts, login.clock.prune)
  {
    hide Step, Stored, Live, Waiting, LiveAt, Deadline, Coded, Asks;
    Elsewhere(s, t, start.clock.prune, ask, login);
    CodeEarned(cfg, t, ask, login, state, v, bound, start.clock.issue);
  }

  lemma Steady(rs: seq<Request>, i: nat)
    requires Smooth(rs) && i + 1 < |rs|
    ensures Consecutive(rs[i], rs[i + 1])
    ensures rs[i].synced && rs[i].strictSynced && !rs[i].cancelled
    ensures rs[i + 1].synced && rs[i + 1].strictSynced && !rs[i + 1].cancelled
  {
    assert rs[i] in rs && rs[i + 1] in rs;
    var j := i + 1;
    assert Consecutive(rs[j - 1], rs[j]);
  }

  lemma TripOrder(rs: seq<Request>)
    requires Smooth(rs) && |rs| == 6
    ensures Consecutive(rs[0], rs[1]) && Consecutive(rs[1], rs[2]) && Consecutive(rs[2], rs[3])
    ensures Consecutive(rs[4], rs[5]) && rs[3].clock.prune <= rs[4].clock.prune
    ensures rs[1].clock.check1 <= rs[3].clock.prune <= rs[4].clock.check1
    ensures rs[4].clock.check1 <= rs[4].clock.check3 <= rs[5].clock.check2
    ensures rs[3].synced && !rs[3].cancelled && rs[4].synced && rs[4].strictSynced && rs[5].synced
  {
    hide Smooth;
    Steady(rs, 0);
    Steady(rs, 1);
    Steady(rs, 2);
    Steady(rs, 3);
    Steady(rs, 4);
  }

  lemma AsksFor(r: Request, state: Text, v: Text)
    requires r.target == Authorize(Some(AuthorizeQuery(true, state, Challenge(v)))) && DecodesAsState(state)
    ensures Asks(r, state, Challenge(v))
  { }

  /** The stores between the requests. */
  lemma Along(cfg: Config, s: Store, rs: seq<Request>) returns (t: seq<Store>)
    ensures |t| == |rs| + 1 && t[0] == s && |Answers(cfg, s, rs)| == |rs|
    ensures forall i :: 0 <= i < |rs| ==>
              Answers(cfg, s, rs)[i] == Step(cfg, t[i], rs[i]).1 && t[i + 1] == Step(cfg, t[i], rs[i]).0
  {
    NoRequest(cfg, s);
    hide Step, Run, Answers;
    t := seq(|rs| + 1, i requires 0 <= i <= |rs| => Run(cfg, s, rs[..i]));
    AnswersLength(cfg, s, rs);
    assert rs[..0] == [];
    forall i | 0 <= i < |rs|
      ensures Answers(cfg, s, rs)[i] == Step(cfg, t[i], rs[i]).1 && t[i + 1] == Step(cfg, t[i], rs[i]).0
    {
      AnswerAt(cfg, s, rs, i);
    }
  }

  lemma NoRequest(cfg: Config, s: Store)
    ensures Run(cfg, s, []) == s
  { }

  /** What is live later was live in the store the trip began with. */
  lemma Elsewhere(s: Store, t: Store, now: int, ask: Request, login: Request)
    requires SameElsewhere(s, t, now) && now <= ask.clock.prune <= ask.clock.check1 && now <= login.clock.prune
    ensures Live(t.forms, ask.clock.prune) == Live(s.forms, ask.clock.prune)
    ensures Live(t.idpBrowsers, ask.clock.prune) == Live(s.idpBrowsers, ask.clock.prune)
    ensures Live(t.codes, login.clock.prune) == Live(s.codes, login.clock.prune)
    ensures Live(t.accounts, login.clock.prune) == Live(s.accounts, login.clock.prune)
    ensures LiveAt(t.idpBrowsers, ask.cookies.idpBinding, ask.clock.check1)
            <==> LiveAt(s.idpBrowsers, ask.cookies.idpBinding, ask.clock.check1)
    ensures forall renewed :: Deadline(t.idpBrowsers, ask.cookies.idpBinding, ask.clock.check1, renewed)
                              == Deadline(s.idpBrowsers, ask.cookies.idpBinding, ask.clock.check1, renewed)
  {
    SameLookup(s.idpBrowsers, ask.cookies.idpBinding, now, ask.clock.check1);
    hide Live, LiveAt;
    LiveTwice(s.forms, now, ask.clock.prune);
    LiveTwice(s.idpBrowsers, now, ask.clock.prune);
    LiveTwice(s.codes, now, login.clock.prune);
    LiveTwice(s.accounts, now, login.clock.prune);
  }

  /** The request that a browser with these cookies makes next. */
  function Next(target: Target, jar: Cookies, clock: Clock): Request {
    Request(target, jar, clock, true, true, false)
  }

  function AuthorizeTarget(a: Response): Target {
    if a.body.ToProvider? then Authorize(Some(AuthorizeQuery(true, a.body.state, a.body.challenge))) else Blank
  }
  function LoginTarget(cfg: Config, a: Response): Target {
    if a.body.LoginForm? then Login(a.body.csrf, cfg.username, cfg.password) else Blank
  }
  function CallbackTarget(a: Response): Target {
    if !a.body.ToCallback? then Blank
    else if a.body.denied then DeniedCallback else Callback(Some(CallbackQuery(a.body.code, a.body.state)))
  }

  /** The trip such a browser makes from a store, with any cookies to begin with and at any times. */
  function Trip(cfg: Config, s: Store, jar: Cookies, clocks: seq<Clock>): (rs: seq<Request>)
    requires |clocks| == 6
    ensures |rs| == 6
  {
    var home := Next(Home, jar, clocks[0]);
    var (s1, a1) := Step(cfg, s, home);
    var start := Next(Start, Stored(jar, a1.cookies), clocks[1]);
    var (s2, a2) := Step(cfg, s1, start);
    var ask := Next(AuthorizeTarget(a2), Stored(start.cookies, a2.cookies), clocks[2]);
    var (s3, a3) := Step(cfg, s2, ask);
    var login := Next(LoginTarget(cfg, a3), Stored(ask.cookies, a3.cookies), clocks[3]);
    var (s4, a4) := Step(cfg, s3, login);
    var held := Stored(login.cookies, a4.cookies);
    var back := Next(CallbackTarget(a4), held.(rpStrict := Empty), clocks[4]);
    [home, start, ask, login, back, Next(AccountPage, Stored(held, Step(cfg, s4, back).1.cookies), clocks[5])]
  }

  /** There is such a trip from every store. */
  lemma TripFollows(cfg: Config, s: Store, jar: Cookies, clocks: seq<Clock>)
    requires |clocks| == 6
    ensures var rs := Trip(cfg, s, jar, clocks);
            |Answers(cfg, s, rs)| == 6 && FollowsForm(cfg, rs, Answers(cfg, s, rs))
  {
    hide Step, Stored, Run, Answers;
    var rs := Trip(cfg, s, jar, clocks);
    var t := Along(cfg, s, rs);
    var a := Answers(cfg, s, rs);
    assert a[0] == Step(cfg, s, rs[0]).1 && t[1] == Step(cfg, s, rs[0]).0;
    assert a[1] == Step(cfg, t[1], rs[1]).1 && t[2] == Step(cfg, t[1], rs[1]).0;
    assert a[2] == Step(cfg, t[2], rs[2]).1 && t[3] == Step(cfg, t[2], rs[2]).0;
    assert a[3] == Step(cfg, t[3], rs[3]).1 && t[4] == Step(cfg, t[3], rs[3]).0;
    assert a[4] == Step(cfg, t[4], rs[4]).1;
  }

  // ----- where codes are issued automatically -----

  /** Five requests: the provider's answer already leads to the callback. */
  ghost predicate FollowsRedirect(rs: seq<Request>, answers: seq<Response>)
    requires |rs| == |answers| == 5
  {
    var held := Stored(Stored(rs[0].cookies, answers[0].cookies), answers[1].cookies);
    var later := Stored(held, answers[2].cookies);
    && rs[0].target == Home
    && rs[1].target == Start && rs[1].cookies == Stored(rs[0].cookies, answers[0].cookies)
    && rs[2].cookies == held && AuthorizeFrom(rs[2], answers[1])
    && rs[3].cookies == later.(rpStrict := Empty) && CallbackFrom(rs[3], answers[2])
    && rs[4].target == AccountPage && rs[4].cookies == Stored(later, answers[3].cookies)
  }

  lemma ShortOrder(rs: seq<Request>)
    requires Smooth(rs) && |rs| == 5
    ensures Consecutive(rs[0], rs[1]) && Consecutive(rs[1], rs[2]) && Consecutive(rs[3], rs[4])
    ensures rs[2].clock.prune <= rs[3].clock.prune && rs[1].clock.check1 <= rs[2].clock.prune <= rs[3].clock.check1
    ensures rs[3].clock.check1 <= rs[3].clock.check3 <= rs[4].clock.check2
    ensures rs[2].synced && rs[3].synced && rs[3].strictSynced && rs[4].synced
  {
    hide Smooth;
    Steady(rs, 0);
    Steady(rs, 1);
    Steady(rs, 2);
    Steady(rs, 3);
  }

  /** The redirect carries a code for the waiting flow. */
  lemma CodeGiven(cfg: Config, s: Store, t: Store, home: Request, start: Request, ask: Request, state: Text, v: Text,
                  bound: int)
    requires SameElsewhere(s, t, start.clock.prune) && RoomToAsk(s, home, start, ask) && cfg.autoAuthorizeReturn
    requires Asks(ask, state, Challenge(v)) && Consecutive(start, ask) && ask.synced
    requires Waiting(t, ask.cookies.rpBinding, state, v, bound, start.clock.issue)
    requires ask.cookies.idpBinding == home.cookies.idpBinding
    requires ask.clock.prune < bound && ask.clock.prune < start.clock.issue + 3 * MINUTE
    ensures var (u, a) := Step(cfg, t, ask);
            && a.body.ToCallback? && a.body.state == state && !a.body.denied
            && Stored(ask.cookies, a.cookies).rpBinding == ask.cookies.rpBinding
            && Coded(u, a.body.code, state, v, ask.clock.check3 + 3 * MINUTE)
            && Waiting(u, ask.cookies.rpBinding, state, v, bound, start.clock.issue)
            && u.accounts == Live(s.accounts, ask.clock.prune)
  {
    hide Step, Stored, Live, Waiting, LiveAt, Asks;
    WaitingMeans(t, ask.cookies.rpBinding, state, v, bound, start.clock.issue);
    Elsewhere(s, t, start.clock.prune, ask, ask);
    AutoGoes(cfg, t, ask, state, Challenge(v));
    StillWaiting(t, Step(cfg, t, ask).0, ask.clock.prune, ask.cookies.rpBinding, state, v, bound, start.clock.issue);
  }

  /** From any store: with automatic authorization five requests are enough. */
  lemma SignsInByRedirect(cfg: Config, s: Store, rs: seq<Request>)
    requires |rs| == 5 && Smooth(rs) && !s.failed && cfg.autoAuthorizeReturn
    requires |Answers(cfg, s, rs)| == 5 && FollowsRedirect(rs, Answers(cfg, s, rs))
    requires RoomToAsk(s, rs[0], rs[1], rs[2]) && |Live(s.accounts, rs[3].clock.prune)| < 128
    requires rs[3].clock.check1 < rs[1].clock.issue + 3 * MINUTE && rs[3].clock.check2 < rs[2].clock.check3 + 3 * MINUTE
    requires rs[4].clock.check1 < rs[3].clock.issue + 3 * MINUTE && rs[4].clock.check2 < BoundUntil(s, rs[0])
    ensures Answers(cfg, s, rs)[3].body == SignInComplete && Answers(cfg, s, rs)[4].body == PrivateAccount
  {
    hide Step, Stored, Live, Waiting, Coded, Run, Answers, LiveAt, BoundUntil, RoomToAsk, Smooth, Consecutive;
    var t := Along(cfg, s, rs);
    var a := Answers(cfg, s, rs);
    ShortOrder(rs);
    var v := AskedInTime(cfg, s, rs[0], rs[1], rs[2]);
    var state, bound, started := a[1].body.state, BoundUntil(s, rs[0]), rs[1].clock.issue;
    CodeGiven(cfg, s, t[2], rs[0], rs[1], rs[2], state, v, bound);
    LiveTwice(s.accounts, rs[2].clock.prune, rs[3].clock.prune);
    AccountOpens(cfg, t[3], rs[3], rs[4], Stored(rs[2].cookies, a[2].cookies), a[2].body.code, state, v, bound, started,
                 rs[2].clock.check3 + 3 * MINUTE);
  }

  // ----- the trip as the end of a run -----

  lemma {:induction false} AnswersContinue(cfg: Config, s: Store, past: seq<Request>, rs: seq<Request>)
    ensures Answers(cfg, s, past + rs) == Answers(cfg, s, past) + Answers(cfg, Run(cfg, s, past), rs)
    ensures Run(cfg, s, past + rs) == Run(cfg, Run(cfg, s, past), rs)
    decreases |rs|
  {
    hide Step;
    if rs == [] {
      assert past + rs == past;
    } else {
      var front, last := rs[..|rs| - 1], rs[|rs| - 1];
      AnswersContinue(cfg, s, past, front);
      assert (past + rs)[..|past + rs| - 1] == past + front && (past + rs)[|past + rs| - 1] == last;
    }
  }

  /** After whatever run, if the journal never failed, a browser that follows the answers within the lifetimes
      signs in and reads its account. */
  lemma HonestRoundTrip(cfg: Config, past: seq<Request>, rs: seq<Request>)
    requires |rs| == 6 && Smooth(rs) && !cfg.autoAuthorizeReturn && !cfg.deniedCallbackPath
    requires |Answers(cfg, INITIAL, past + rs)| == |past| + 6
    requires FollowsForm(cfg, rs, Answers(cfg, INITIAL, past + rs)[|past|..])
    requires var s := Run(cfg, INITIAL, past);
             && !s.failed && RoomToAsk(s, rs[0], rs[1], rs[2])
             && |Live(s.codes, rs[3].clock.prune)| < 128 && |Live(s.accounts, rs[4].clock.prune)| < 128
             && rs[3].clock.check2 < ProviderUntil(s, rs[0], rs[2]) && rs[5].clock.check2 < BoundUntil(s, rs[0])
    requires rs[3].clock.check1 < rs[2].clock.check3 + 3 * MINUTE
    requires rs[4].clock.check1 < rs[1].clock.issue + 3 * MINUTE && rs[4].clock.check2 < rs[3].clock.issue + 3 * MINUTE
    requires rs[5].clock.check1 < rs[4].clock.issue + 3 * MINUTE
    ensures var a := Answers(cfg, INITIAL, past + rs);
            a[|past| + 4].body == SignInComplete && a[|past| + 5].body == PrivateAccount
  {
    hide Step, Run, Answers, Live, Stored, Smooth, FollowsForm, RoomToAsk, BoundUntil, ProviderUntil;
    AnswersContinue(cfg, INITIAL, past, rs);
    AnswersLength(cfg, INITIAL, past);
    AnswersLength(cfg, Run(cfg, INITIAL, past), rs);
    assert Answers(cfg, INITIAL, past + rs)[|past|..] == Answers(cfg, Run(cfg, INITIAL, past), rs);
    SignsInByForm(cfg, Run(cfg, INITIAL, past), rs);
  }
}
