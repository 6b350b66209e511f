/** The single sign-on fixture as a step function over values: both ends of an
    authorization-code flow with PKCE, sharing six expiring, capped tables, a
    receipt journal and a latched failure flag.  Every request is one atomic step. */
module SsoModel {
  import opened Options

  // ----- texts and tables -----

  /** Texts that travel in cookies, queries and forms.  `Opaque(n)` is the n-th
      value drawn from the random source, `Challenge(v)` the S256 digest of `v`.
      `Other` is any other text, with what decoding it as hex or as base64 gives. */
  datatype Text =
    | Empty
    | Opaque(n: nat)
    | Challenge(verifier: Text)
    | Other(id: nat, hex32: bool, base64x32: bool)

  predicate DecodesAsState(t: Text) {
    t.Opaque? || (t.Other? && t.hex32)
  }

  predicate DecodesAsChallenge(t: Text) {
    t.Challenge? || (t.Other? && t.base64x32)
  }

  datatype Row<V> = Row(value: V, expires: int)
  type Table<V> = map<Text, Row<V>>

  /** The row exists and its deadline is strictly after `now`. */
  predicate LiveAt<V>(m: Table<V>, k: Text, now: int) {
    k in m && m[k].expires > now
  }

  /** The rows of `m` that are still live at `now`. */
  function Live<V>(m: Table<V>, now: int): Table<V> {
    map k | k in m && m[k].expires > now :: m[k]
  }

  datatype Flow = Flow(browser: Text, verifier: Text)
  datatype Form = Form(browser: Text, state: Text, challenge: Text)
  datatype Code = Code(state: Text, challenge: Text)

  const MINUTE: int := 60_000_000_000
  const FLOW_TTL: int := 3 * MINUTE
  const BINDING_TTL: int := 15 * MINUTE

  // ----- configuration, requests and responses -----

  datatype Config = Config(
    username: string, password: string,
    loginDelay: bool, autoAuthorizeReturn: bool, deniedCallbackPath: bool,
    strictCookieBoundary: bool, strictOnlyCallback: bool)

  /** The clock readings of one request, in the order the handlers take them. */
  datatype Clock = Clock(prune: int, strict: int, check1: int, check2: int, check3: int, record: int, issue: int) {
    predicate Monotone() {
      prune <= strict <= check1 <= check2 <= check3 <= record <= issue
    }
  }

  datatype Cookies = Cookies(rpBinding: Text, rpAuth: Text, rpStrict: Text, idpBinding: Text)
  datatype CallbackQuery = CallbackQuery(code: Text, state: Text)
  /** `fixedFields`: client, redirect target, response type and method have their only accepted values. */
  datatype AuthorizeQuery = AuthorizeQuery(fixedFields: bool, state: Text, challenge: Text)

  /** A query is `None` when it does not parse or does not have exactly the expected keys. */
  datatype Target =
    | Rejected(status: int)  // refused before the lock: host, method, origin or form shape
    | Home | Start | DeniedCallback | Callback(callback: Option<CallbackQuery>) | AccountPage | Blank | UnknownPath
    | Authorize(authorize: Option<AuthorizeQuery>) | LoginGet | Login(csrf: Text, username: string, password: string)

  /** `strictSynced` and `synced` say whether the journal write of the cookie-boundary
      receipt and of the main receipt succeed; `cancelled` whether the client goes away
      during the login delay. */
  datatype Request = Request(target: Target, cookies: Cookies, clock: Clock,
                             strictSynced: bool, synced: bool, cancelled: bool)

  datatype Body =
    | Nothing | HomePage | ToProvider(state: Text, challenge: Text)
    | SignInComplete | PrivateAccount | LoginForm(csrf: Text)
    | ToCallback(code: Text, state: Text, denied: bool)
  datatype CookieName = RpBinding | RpAuth | RpStrict | IdpBinding
  datatype Response = Response(status: int, body: Body, cookies: seq<(CookieName, Text)>)

  function Refuse(status: int): Response { Response(status, Nothing, []) }

  // ----- receipts and history -----

  datatype Kind =
    | ForbiddenRedirectRead | StrictCookieLeaked | StrictCookieWithheld
    | CallbackAccepted | AccountRead | AutomaticAuthorization | IdpLogin
  datatype Receipt = Receipt(sequence: nat, at: int, kind: Kind, accepted: bool)

  datatype Origin = FromLogin(csrf: Text) | Automatic

  /** What an accepted callback presented, consumed and created.  `browser` is the binding cookie of the
      request, `checked`, `codeChecked` and `boundChecked` the instants at which the flow, the code and the
      binding were found alive, `issued` the instant of the session. */
  datatype Acceptance = Acceptance(
    state: Text, code: Text, browser: Text, verifier: Text, session: Text,
    bound: int, started: int, coded: int, checked: int, codeChecked: int, boundChecked: int, issued: int)

  /** What happened, with the secrets the journal leaves out.  The browser of `Started`, `LoggedIn` and
      `Read` is the binding cookie that the request presented. */
  datatype Event =
    | Bound(browser: Text, at: int)
    | IdpBound(browser: Text, at: int)
    | Started(state: Text, browser: Text, verifier: Text, at: int)
    | FormServed(csrf: Text, browser: Text, state: Text, challenge: Text, at: int)
    | CodeIssued(code: Text, origin: Origin, state: Text, challenge: Text, at: int)
    | LoggedIn(csrf: Text, browser: Text, accepted: bool)
    | Authorized(code: Text)
    | Accepted(a: Acceptance)
    | Read(session: Text, browser: Text, checked: int, boundChecked: int)
    | Noted(kind: Kind)

  /** The receipt kind an event is journalled under, if it is journalled. */
  function KindOf(e: Event): Option<Kind> {
    match e
    case LoggedIn(_, _, _) => Some(IdpLogin)
    case Authorized(_) => Some(AutomaticAuthorization)
    case Accepted(_) => Some(CallbackAccepted)
    case Read(_, _, _, _) => Some(AccountRead)
    case Noted(k) => Some(k)
    case _ => None
  }

  predicate AcceptedFlag(e: Event) {
    e.LoggedIn? ==> e.accepted
  }

  // ----- the store and its elementary changes -----

  /** `issued` counts the values drawn so far, `journal` holds the receipts whose write was acknowledged. */
  datatype Store = Store(
    browsers: Table<()>, idpBrowsers: Table<()>, pending: Table<Flow>,
    forms: Table<Form>, codes: Table<Code>, accounts: Table<Text>,
    issued: nat, sequence: nat, failed: bool,
    journal: seq<Receipt>, history: seq<Event>)

  const INITIAL: Store := Store(map[], map[], map[], map[], map[], map[], 0, 0, false, [], [])

  function Prune(s: Store, now: int): Store {
    s.(browsers := Live(s.browsers, now), idpBrowsers := Live(s.idpBrowsers, now),
       pending := Live(s.pending, now), forms := Live(s.forms, now),
       codes := Live(s.codes, now), accounts := Live(s.accounts, now))
  }

  function Draw(s: Store): Store { s.(issued := s.issued + 1) }

  function BindRp(s: Store, at: int): Store {
    s.(issued := s.issued + 1,
       browsers := s.browsers[Opaque(s.issued) := Row((), at + BINDING_TTL)],
       history := s.history + [Bound(Opaque(s.issued), at)])
  }

  function BindIdp(s: Store, at: int): Store {
    s.(issued := s.issued + 1,
       idpBrowsers := s.idpBrowsers[Opaque(s.issued) := Row((), at + FLOW_TTL)],
       history := s.history + [IdpBound(Opaque(s.issued), at)])
  }

  function StartFlow(s: Store, browser: Text, at: int): Store {
    var state, verifier := Opaque(s.issued), Opaque(s.issued + 1);
    s.(issued := s.issued + 2,
       pending := s.pending[state := Row(Flow(browser, verifier), at + FLOW_TTL)],
       history := s.history + [Started(state, browser, verifier, at)])
  }

  function ServeForm(s: Store, browser: Text, state: Text, challenge: Text, at: int): Store {
    var csrf := Opaque(s.issued);
    s.(issued := s.issued + 1,
       forms := s.forms[csrf := Row(Form(browser, state, challenge), at + FLOW_TTL)],
       history := s.history + [FormServed(csrf, browser, state, challenge, at)])
  }

  function IssueCode(s: Store, origin: Origin, state: Text, challenge: Text, at: int): Store {
    var code := Opaque(s.issued);
    s.(issued := s.issued + 1,
       codes := s.codes[code := Row(Code(state, challenge), at + FLOW_TTL)],
       history := s.history + [CodeIssued(code, origin, state, challenge, at)])
  }

  /** Writes one receipt.  A failed write uses up a sequence number and latches `failed`. */
  function Recorded(s: Store, e: Event, at: int, synced: bool): Store
    requires KindOf(e).Some?
  {
    if s.failed then s
    else if synced then
      s.(sequence := s.sequence + 1,
         journal := s.journal + [Receipt(s.sequence + 1, at, KindOf(e).value, AcceptedFlag(e))],
         history := s.history + [e])
    else s.(sequence := s.sequence + 1, failed := true)
  }

  function SpendForm(s: Store, csrf: Text): Store { s.(forms := s.forms - {csrf}) }

  /** Consumes state and code, then creates the session only if the receipt was acknowledged. */
  function AcceptCallback(s: Store, a: Acceptance, recordAt: int, synced: bool): Store {
    var spent := s.(pending := s.pending - {a.state}, codes := s.codes - {a.code});
    var receipted := Recorded(spent, Accepted(a), recordAt, synced);
    if receipted.failed then receipted
    else receipted.(issued := s.issued + 1,
                    accounts := s.accounts[a.session := Row(a.browser, a.issued + FLOW_TTL)])
  }

  /** The fault-injected authorization: the code exists before its receipt is written. */
  function AutoAuthorize(s: Store, state: Text, challenge: Text, at: int, recordAt: int, synced: bool): Store {
    Recorded(IssueCode(s, Automatic, state, challenge, at), Authorized(Opaque(s.issued)), recordAt, synced)
  }

  // ----- the handlers -----

  function HomeStep(cfg: Config, s: Store, r: Request): (Store, Response) {
    var s1 := if cfg.strictCookieBoundary then Draw(s) else s;
    var strict := if cfg.strictCookieBoundary then [(RpStrict, Opaque(s.issued))] else [];
    if LiveAt(s.browsers, r.cookies.rpBinding, r.clock.check1) then
      (s1, Response(200, HomePage, strict))
    else if |s.browsers| >= 128 then
      (s1, Response(429, Nothing, strict))
    else
      (BindRp(s1, r.clock.issue), Response(200, HomePage, strict + [(RpBinding, Opaque(s1.issued))]))
  }

  function StartStep(s: Store, r: Request): (Store, Response) {
    var browser := r.cookies.rpBinding;
    if !LiveAt(s.browsers, browser, r.clock.check1) then (s, Refuse(403))
    else if |s.pending| >= 64 then (s, Refuse(429))
    else (StartFlow(s, browser, r.clock.issue),
          Response(302, ToProvider(Opaque(s.issued), Challenge(Opaque(s.issued + 1))), []))
  }

  function CallbackStep(cfg: Config, s: Store, r: Request, query: Option<CallbackQuery>): (Store, Response) {
    if cfg.strictCookieBoundary && r.cookies.rpStrict != Empty then
      (Recorded(s, Noted(StrictCookieLeaked), r.clock.strict, r.strictSynced), Refuse(403))
    else
      var s1 := if cfg.strictOnlyCallback
                then Recorded(s, Noted(StrictCookieWithheld), r.clock.strict, r.strictSynced) else s;
      if query.None? then (s1, Refuse(400))
      else ExchangeStep(s1, r, query.value)
  }

  /** State and code are known, live, bound to this browser and to each other. */
  predicate Exchanges(s: Store, r: Request, q: CallbackQuery) {
    && q.state in s.pending && q.code in s.codes
    && var p, c := s.pending[q.state], s.codes[q.code];
    && p.expires > r.clock.check1 && c.expires > r.clock.check2
    && LiveAt(s.browsers, p.value.browser, r.clock.check3)
    && p.value.browser == r.cookies.rpBinding
    && c.value.state == q.state && c.value.challenge == Challenge(p.value.verifier)
  }

  function AcceptanceOf(s: Store, r: Request, q: CallbackQuery): Acceptance
    requires Exchanges(s, r, q)
  {
    var p, c := s.pending[q.state], s.codes[q.code];
    Acceptance(q.state, q.code, r.cookies.rpBinding, p.value.verifier, Opaque(s.issued),
               s.browsers[p.value.browser].expires - BINDING_TTL,
               p.expires - FLOW_TTL, c.expires - FLOW_TTL, r.clock.check1, r.clock.check2, r.clock.check3,
               r.clock.issue)
  }

  function ExchangeStep(s: Store, r: Request, q: CallbackQuery): (Store, Response) {
    if !Exchanges(s, r, q) then (s, Refuse(403))
    else if |s.accounts| >= 128 then (s, Refuse(429))
    else
      var a := AcceptanceOf(s, r, q);
      var s1 := AcceptCallback(s, a, r.clock.record, r.synced);
      if s1.failed then (s1, Refuse(503))
      else (s1, Response(200, SignInComplete, [(RpAuth, a.session)]))
  }

  function AccountStep(s: Store, r: Request): (Store, Response) {
    var session := r.cookies.rpAuth;
    if !LiveAt(s.accounts, session, r.clock.check1)
       || !LiveAt(s.browsers, s.accounts[session].value, r.clock.check2)
       || s.accounts[session].value != r.cookies.rpBinding
    then (s, Refuse(401))
    else
      var e := Read(session, r.cookies.rpBinding, r.clock.check1, r.clock.check2);
      var s1 := Recorded(s, e, r.clock.record, r.synced);
      if s1.failed then (s1, Refuse(503)) else (s1, Response(200, PrivateAccount, []))
  }

  function AuthorizeStep(cfg: Config, s: Store, r: Request, query: Option<AuthorizeQuery>): (Store, Response) {
    if query.None? || !query.value.fixedFields
       || !DecodesAsState(query.value.state) || !DecodesAsChallenge(query.value.challenge) || |s.forms| >= 64
    then (s, Refuse(400))
    else if LiveAt(s.idpBrowsers, r.cookies.idpBinding, r.clock.check1) then
      GrantStep(cfg, s, r, query.value, r.cookies.idpBinding, [])
    else if |s.idpBrowsers| >= 128 then (s, Refuse(429))
    else
      GrantStep(cfg, BindIdp(s, r.clock.check2), r, query.value, Opaque(s.issued), [(IdpBinding, Opaque(s.issued))])
  }

  function GrantStep(cfg: Config, s: Store, r: Request, q: AuthorizeQuery, browser: Text,
                     cookies: seq<(CookieName, Text)>): (Store, Response) {
    if cfg.autoAuthorizeReturn then
      var s1 := AutoAuthorize(Draw(s), q.state, q.challenge, r.clock.check3, r.clock.record, r.synced);
      if s1.failed then (s1, Response(503, Nothing, cookies))
      else (s1, Response(302, ToCallback(Opaque(s.issued + 1), q.state, false), cookies))
    else
      (ServeForm(s, browser, q.state, q.challenge, r.clock.check3), Response(200, LoginForm(Opaque(s.issued)), cookies))
  }

  /** The form is known, live and bound to this provider browser. */
  predicate Submits(s: Store, r: Request, csrf: Text) {
    && csrf in s.forms && s.forms[csrf].expires > r.clock.check1
    && LiveAt(s.idpBrowsers, s.forms[csrf].value.browser, r.clock.check2)
    && s.forms[csrf].value.browser == r.cookies.idpBinding
  }

  function LoginStep(cfg: Config, s: Store, r: Request, csrf: Text, username: string, password: string): (Store,
      Response) {
    if !Submits(s, r, csrf) then (s, Refuse(403))
    else
      var form := s.forms[csrf].value;
      var valid := username == cfg.username && password == cfg.password;
      var s1 := SpendForm(s, csrf);
      if valid && |s.codes| >= 128 then (s1, Refuse(429))
      else
        var s2 := Recorded(s1, LoggedIn(csrf, r.cookies.idpBinding, valid), r.clock.record, r.synced);
        if s2.failed then (s2, Refuse(503))
        else if !valid then (s2, Refuse(401))
        else if cfg.loginDelay && r.cancelled then (s2, Refuse(0))
        else (IssueCode(s2, FromLogin(csrf), form.state, form.challenge, r.clock.issue),
              Response(303, ToCallback(Opaque(s2.issued), form.state, cfg.deniedCallbackPath), []))
  }

  /** Dispatch after the failure check and the pruning. */
  function Dispatch(cfg: Config, s: Store, r: Request): (Store, Response) {
    match r.target
    case Rejected(status) => (s, Refuse(status))
    case Home => HomeStep(cfg, s, r)
    case Start => StartStep(s, r)
    case DeniedCallback => (Recorded(s, Noted(ForbiddenRedirectRead), r.clock.record, r.synced), Refuse(403))
    case Callback(q) => CallbackStep(cfg, s, r, q)
    case AccountPage => AccountStep(s, r)
    case Blank => (s, Response(200, Nothing, []))
    case UnknownPath => (s, Refuse(404))
    case Authorize(q) => AuthorizeStep(cfg, s, r, q)
    case LoginGet => (s, Refuse(405))
    case Login(csrf, u, p) => LoginStep(cfg, s, r, csrf, u, p)
  }

  function Step(cfg: Config, s: Store, r: Request): (Store, Response) {
    if r.target.Rejected? then (s, Refuse(r.target.status))
    else if s.failed then (s, Refuse(503))
    else Dispatch(cfg, Prune(s, r.clock.prune), r)
  }

  /** The store after a whole run. */
  function Run(cfg: Config, s: Store, rs: seq<Request>): Store {
    if rs == [] then s
    else Step(cfg, Run(cfg, s, rs[..|rs| - 1]), rs[|rs| - 1]).0
  }

  lemma RunMore(cfg: Config, rs: seq<Request>, r: Request)
    ensures Run(cfg, INITIAL, rs + [r]) == Step(cfg, Run(cfg, INITIAL, rs), r).0
  {
    hide Step;
    assert (rs + [r])[..|rs|] == rs;
  }

  /** No request is handled earlier than the one before it. */
  ghost predicate NonDecreasing(rs: seq<Request>) {
    && (forall i :: 0 <= i < |rs| ==> rs[i].clock.Monotone())
    && (forall i :: 0 < i < |rs| ==> rs[i - 1].clock.issue <= rs[i].clock.prune)
  }

  /** The answers given during a run, in order. */
  function Answers(cfg: Config, s: Store, rs: seq<Request>): seq<Response> {
    if rs == [] then []
    else Answers(cfg, s, rs[..|rs| - 1]) + [Step(cfg, Run(cfg, s, rs[..|rs| - 1]), rs[|rs| - 1]).1]
  }
}
