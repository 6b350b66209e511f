/** The acknowledged journal and the failure latch, over every run. */
module SsoJournal {
  import opened Options
  import opened Sets
  import opened SsoModel
  import opened SsoHistory

  // ----- receipts -----

  lemma CountsGrow(j: seq<Receipt>, r: Receipt)
    ensures Callbacks(j + [r]) == Callbacks(j) + if r.kind == CallbackAccepted then 1 else 0
    ensures Authorizations(j + [r]) == Authorizations(j) + if Authorizes(r) then 1 else 0
  {
    assert (j + [r])[..|j|] == j;
  }

  lemma CausalGrows(j: seq<Receipt>, r: Receipt)
    requires Causal(j) && r.sequence == |j| + 1
    requires Callbacks(j + [r]) <= Authorizations(j + [r])
    requires r.kind == AccountRead ==> Callbacks(j) > 0
    ensures Causal(j + [r])
  {
    assert (j + [r])[..|j|] == j;
  }

  lemma SilentGrows(h: seq<Event>, j: seq<Receipt>, e: Event)
    requires Projects(h, j) && KindOf(e).None?
    ensures Projects(h + [e], j)
  {
    assert (h + [e])[..|h|] == h;
  }

  lemma ReceiptGrows(h: seq<Event>, j: seq<Receipt>, e: Event, r: Receipt)
    requires Projects(h, j) && KindOf(e) == Some(r.kind) && r.accepted == AcceptedFlag(e)
    ensures Projects(h + [e], j + [r])
  {
    assert (h + [e])[..|h|] == h && (j + [r])[..|j|] == j;
  }

  /** One more authorization than callbacks and waiting codes need. */
  ghost predicate Room(s: Store) {
    !s.failed ==> Callbacks(s.journal) + |s.codes| < Authorizations(s.journal)
  }

  /** Writing a receipt, where a callback receipt needs room and a read needs a session. */
  lemma RecordedJournalled(s: Store, e: Event, at: int, synced: bool)
    requires Journalled(s) && KindOf(e).Some?
    requires KindOf(e).value == CallbackAccepted ==> Room(s)
    requires KindOf(e).value == AccountRead ==> s.accounts != map[]
    ensures Journalled(Recorded(s, e, at, synced))
    ensures !s.failed && synced && KindOf(e).value == CallbackAccepted ==>
            Callbacks(Recorded(s, e, at, synced).journal) > 0
    ensures !s.failed && KindOf(e).value == IdpLogin && AcceptedFlag(e) ==> Room(Recorded(s, e, at, synced))
  {
    if !s.failed && synced {
      var r := Receipt(s.sequence + 1, at, KindOf(e).value, AcceptedFlag(e));
      CountsGrow(s.journal, r);
      CausalGrows(s.journal, r);
      ReceiptGrows(s.history, s.journal, e, r);
    }
  }

  // ----- table sizes -----

  lemma LiveCard<V>(m: Table<V>, now: int)
    ensures |Live(m, now)| <= |m|
  {
    Smaller(Live(m, now).Keys, m.Keys);
  }

  lemma PutCard<V>(m: Table<V>, k: Text, row: Row<V>)
    ensures |m[k := row]| <= |m| + 1
  {
    assert m[k := row].Keys == m.Keys + {k};
  }

  lemma TakeCard<V>(m: Table<V>, k: Text)
    ensures |m - {k}| == |m| - if k in m then 1 else 0
  {
    assert (m - {k}).Keys == m.Keys - {k};
  }

  // ----- each change, each handler, each run -----

  lemma PruneJournalled(s: Store, now: int)
    requires Journalled(s)
    ensures Journalled(Prune(s, now))
  {
    hide Causal, Projects, Callbacks, Authorizations;
    LiveCard(s.codes, now);
    if s.accounts == map[] { assert Live(s.accounts, now) == map[]; }
  }

  /** Logging something silent, with no more codes and no more accounts than before. */
  lemma SilentJournalled(s: Store, e: Event, t: Store)
    requires Journalled(s) && KindOf(e).None?
    requires t.history == s.history + [e] && t.journal == s.journal && t.sequence == s.sequence && t.failed == s.failed
    requires |t.codes| <= |s.codes| && t.accounts == s.accounts
    ensures Journalled(t)
  {
    SilentGrows(s.history, s.journal, e);
  }

  lemma IssueJournalled(s: Store, o: Origin, state: Text, challenge: Text, at: int)
    requires Journalled(s) && Room(s)
    ensures Journalled(IssueCode(s, o, state, challenge, at))
  {
    hide Causal, Projects, Callbacks, Authorizations;
    PutCard(s.codes, Opaque(s.issued), Row(Code(state, challenge), at + FLOW_TTL));
    SilentGrows(s.history, s.journal, CodeIssued(Opaque(s.issued), o, state, challenge, at));
  }

  lemma AcceptJournalled(s: Store, a: Acceptance, recordAt: int, synced: bool)
    requires Journalled(s) && a.code in s.codes
    ensures Journalled(AcceptCallback(s, a, recordAt, synced))
  {
    hide Causal, Projects, Callbacks, Authorizations;
    TakeCard(s.codes, a.code);
    RecordedJournalled(s.(pending := s.pending - {a.state}, codes := s.codes - {a.code}), Accepted(a), recordAt,
                       synced);
  }

  lemma AutoSynced(s: Store, e: Event, codes: Table<Code>, at: int)
    requires Journalled(s) && !s.failed && e.CodeIssued? && |codes| <= |s.codes| + 1
    ensures Journalled(s.(codes := codes, issued := s.issued + 1, sequence := s.sequence + 1,
                          journal := s.journal + [Receipt(s.sequence + 1, at, AutomaticAuthorization, true)],
                          history := s.history + [e] + [Authorized(e.code)]))
  {
    hide Causal, Projects, Callbacks, Authorizations;
    var r := Receipt(s.sequence + 1, at, AutomaticAuthorization, true);
    SilentGrows(s.history, s.journal, e);
    CountsGrow(s.journal, r);
    CausalGrows(s.journal, r);
    ReceiptGrows(s.history + [e], s.journal, Authorized(e.code), r);
  }

  lemma AutoUnsynced(s: Store, e: Event, codes: Table<Code>)
    requires Journalled(s) && !s.failed && e.CodeIssued?
    ensures Journalled(s.(codes := codes, issued := s.issued + 1, sequence := s.sequence + 1, failed := true,
                          history := s.history + [e]))
  {
    hide Causal, Projects, Callbacks, Authorizations;
    SilentGrows(s.history, s.journal, e);
  }

  lemma AutoJournalled(s: Store, state: Text, challenge: Text, at: int, recordAt: int, synced: bool)
    requires Journalled(s) && !s.failed
    ensures Journalled(AutoAuthorize(s, state, challenge, at, recordAt, synced))
  {
    hide Journalled;
    var e, row := CodeIssued(Opaque(s.issued), Automatic, state, challenge, at),
        Row(Code(state, challenge), at + FLOW_TTL);
    PutCard(s.codes, Opaque(s.issued), row);
    if synced {
      AutoSynced(s, e, s.codes[Opaque(s.issued) := row], recordAt);
    } else {
      AutoUnsynced(s, e, s.codes[Opaque(s.issued) := row]);
    }
  }

  lemma TablesIrrelevant(s: Store, t: Store)
    requires Journalled(s) && t == s.(browsers := t.browsers, idpBrowsers := t.idpBrowsers, pending := t.pending,
                                      forms := t.forms, issued := t.issued)
    ensures Journalled(t)
  {
    hide Causal, Projects, Callbacks, Authorizations;
  }

  lemma SpendJournalled(s: Store, csrf: Text)
    requires Journalled(s) && !s.failed
    ensures Journalled(SpendForm(s, csrf)) && !SpendForm(s, csrf).failed
  {
    TablesIrrelevant(s, SpendForm(s, csrf));
  }

  lemma LoginJournalled(cfg: Config, s: Store, r: Request, csrf: Text, u: string, p: string)
    requires Journalled(s) && !s.failed
    ensures Journalled(LoginStep(cfg, s, r, csrf, u, p).0)
  {
    hide Journalled, Room, IssueCode, Recorded, LiveAt, SpendForm;
    SpendJournalled(s, csrf);
    if csrf in s.forms {
      var f, valid := s.forms[csrf].value, u == cfg.username && p == cfg.password;
      var e := LoggedIn(csrf, r.cookies.idpBinding, valid);
      RecordedJournalled(SpendForm(s, csrf), e, r.clock.record, r.synced);
      if valid {
        IssueJournalled(Recorded(SpendForm(s, csrf), e, r.clock.record, r.synced), FromLogin(csrf),
                        f.state, f.challenge, r.clock.issue);
      }
    }
  }

  lemma ExchangeJournalled(s: Store, r: Request, q: CallbackQuery)
    requires Journalled(s)
    ensures Journalled(ExchangeStep(s, r, q).0)
  {
    hide Journalled, AcceptCallback;
    if Exchanges(s, r, q) {
      AcceptJournalled(s, AcceptanceOf(s, r, q), r.clock.record, r.synced);
    }
  }

  lemma GrantJournalled(cfg: Config, s: Store, r: Request, q: AuthorizeQuery, browser: Text,
                        cookies: seq<(CookieName, Text)>)
    requires Journalled(s) && !s.failed
    ensures Journalled(GrantStep(cfg, s, r, q, browser, cookies).0)
  {
    hide Causal, Projects, Callbacks, Authorizations;
    AutoJournalled(Draw(s), q.state, q.challenge, r.clock.check3, r.clock.record, r.synced);
    SilentJournalled(s, FormServed(Opaque(s.issued), browser, q.state, q.challenge, r.clock.check3),
                     ServeForm(s, browser, q.state, q.challenge, r.clock.check3));
  }

  lemma HomeJournalled(cfg: Config, s: Store, r: Request)
    requires Journalled(s)
    ensures Journalled(HomeStep(cfg, s, r).0)
  {
    hide Journalled;
    TablesIrrelevant(s, Draw(s));
    SilentJournalled(s, Bound(Opaque(s.issued), r.clock.issue), BindRp(s, r.clock.issue));
    SilentJournalled(Draw(s), Bound(Opaque(s.issued + 1), r.clock.issue), BindRp(Draw(s), r.clock.issue));
  }

  lemma CallbackJournalled(cfg: Config, s: Store, r: Request, q: Option<CallbackQuery>)
    requires Journalled(s)
    ensures Journalled(CallbackStep(cfg, s, r, q).0)
  {
    hide Journalled, ExchangeStep, Room;
    RecordedJournalled(s, Noted(StrictCookieLeaked), r.clock.strict, r.strictSynced);
    RecordedJournalled(s, Noted(StrictCookieWithheld), r.clock.strict, r.strictSynced);
    if q.Some? {
      ExchangeJournalled(s, r, q.value);
      ExchangeJournalled(Recorded(s, Noted(StrictCookieWithheld), r.clock.strict, r.strictSynced), r, q.value);
    }
  }

  lemma AuthorizeJournalled(cfg: Config, s: Store, r: Request, q: Option<AuthorizeQuery>)
    requires Journalled(s) && !s.failed
    ensures Journalled(AuthorizeStep(cfg, s, r, q).0)
  {
    hide Journalled, GrantStep;
    var t := BindIdp(s, r.clock.check2);
    SilentJournalled(s, IdpBound(Opaque(s.issued), r.clock.check2), t);
    if q.Some? {
      GrantJournalled(cfg, s, r, q.value, r.cookies.idpBinding, []);
      GrantJournalled(cfg, t, r, q.value, Opaque(s.issued), [(IdpBinding, Opaque(s.issued))]);
    }
  }

  lemma DispatchJournalled(cfg: Config, s: Store, r: Request)
    requires Journalled(s) && !s.failed
    ensures Journalled(Dispatch(cfg, s, r).0)
  {
    hide Journalled, Room, HomeStep, CallbackStep, AuthorizeStep, LoginStep;
    match r.target
    case Home => HomeJournalled(cfg, s, r);
    case Start =>
      var b := r.cookies.rpBinding;
      SilentJournalled(s, Started(Opaque(s.issued), b, Opaque(s.issued + 1), r.clock.issue),
                       StartFlow(s, b, r.clock.issue));
    case DeniedCallback => RecordedJournalled(s, Noted(ForbiddenRedirectRead), r.clock.record, r.synced);
    case Callback(q) => CallbackJournalled(cfg, s, r, q);
    case AccountPage =>
      if r.cookies.rpAuth in s.accounts {
        RecordedJournalled(s,
                           Read(r.cookies.rpAuth, r.cookies.rpBinding, r.clock.check1, r.clock.check2),
                           r.clock.record, r.synced);
      }
    case Authorize(q) => AuthorizeJournalled(cfg, s, r, q);
    case Login(csrf, u, p) => LoginJournalled(cfg, s, r, csrf, u, p);
    case _ =>
  }

  lemma {:induction false} RunJournalled(cfg: Config, rs: seq<Request>)
    ensures Journalled(Run(cfg, INITIAL, rs))
  {
    if rs != [] {
      hide Journalled, Dispatch;
      var s, r := Run(cfg, INITIAL, rs[..|rs| - 1]), rs[|rs| - 1];
      RunJournalled(cfg, rs[..|rs| - 1]);
      if !r.target.Rejected? && !s.failed {
        PruneJournalled(s, r.clock.prune);
        DispatchJournalled(cfg, Prune(s, r.clock.prune), r);
      }
    }
  }

  /** Every prefix of the journal of every run is numbered 1, 2, 3, ..., holds no more
      accepted callbacks than accepted logins plus automatic authorizations, and no
      account read before the first accepted callback. */
  lemma {:induction false} EveryPrefix(cfg: Config, rs: seq<Request>, k: nat)
    requires k <= |Run(cfg, INITIAL, rs).journal|
    ensures var j := Run(cfg, INITIAL, rs).journal[..k];
            && Callbacks(j) <= Authorizations(j)
            && (forall i :: 0 <= i < |j| ==> j[i].sequence == i + 1)
            && (forall i :: 0 <= i < |j| && j[i].kind == AccountRead ==>
                  exists c :: 0 <= c < i && j[c].kind == CallbackAccepted)
  {
    var j := Run(cfg, INITIAL, rs).journal;
    RunJournalled(cfg, rs);
    hide Run;
    CausalPrefix(j, k);
    forall i | 0 <= i < k
      ensures j[..k][i].sequence == i + 1
      ensures j[..k][i].kind == AccountRead ==> exists c :: 0 <= c < i && j[..k][c].kind == CallbackAccepted
    {
      CausalPrefix(j, i + 1);
      assert j[..i + 1][..i] == j[..i];
      if j[i].kind == AccountRead {
        var c := SomeCallback(j[..i]);
        assert j[..k][c] == j[..i][c];
      }
    }
  }

  lemma {:induction false} CausalPrefix(j: seq<Receipt>, k: nat)
    requires Causal(j) && k <= |j|
    ensures Causal(j[..k]) && Callbacks(j[..k]) <= Authorizations(j[..k])
  {
    if k == |j| {
      assert j[..k] == j;
    } else {
      assert j[..|j| - 1][..k] == j[..k];
      CausalPrefix(j[..|j| - 1], k);
    }
  }

  lemma {:induction false} SomeCallback(j: seq<Receipt>) returns (c: nat)
    requires Callbacks(j) > 0
    ensures c < |j| && j[c].kind == CallbackAccepted
  {
    if j[|j| - 1].kind == CallbackAccepted { c := |j| - 1; }
    else { c := SomeCallback(j[..|j| - 1]); }
  }

  // ----- the failure latch -----

  /** Once a journal write has failed, nothing changes any more and nothing is answered but refusals. */
  lemma {:induction false} FailureIsFinal(cfg: Config, s: Store, rs: seq<Request>)
    requires s.failed
    ensures Run(cfg, s, rs) == s
    ensures forall x :: x in Answers(cfg, s, rs) ==> x.body == Nothing && x.cookies == []
  {
    if rs != [] {
      hide Dispatch;
      FailureIsFinal(cfg, s, rs[..|rs| - 1]);
    }
  }

  /** A code, a session or the private page leaves the recipient. */
  predicate Releases(x: Response) {
    x.body.ToCallback? || x.body.SignInComplete? || x.body.PrivateAccount?
  }

  /** The receipt that has to be acknowledged first. */
  function ReceiptFor(r: Request): Kind {
    match r.target
    case Authorize(_) => AutomaticAuthorization
    case Login(_, _, _) => IdpLogin
    case Callback(_) => CallbackAccepted
    case _ => AccountRead
  }

  /** The last thing journalled in this step, after at least one acknowledged write. */
  ghost predicate Acknowledged(s: Store, t: Store, k: Kind) {
    && !t.failed && s.journal < t.journal
    && t.journal[|t.journal| - 1].kind == k && t.journal[|t.journal| - 1].accepted
  }

  lemma ExchangeReleases(s: Store, r: Request, q: CallbackQuery)
    requires Releases(ExchangeStep(s, r, q).1)
    ensures Acknowledged(s, ExchangeStep(s, r, q).0, CallbackAccepted)
  {}

  lemma CallbackReleases(cfg: Config, s: Store, r: Request, q: Option<CallbackQuery>)
    requires Releases(CallbackStep(cfg, s, r, q).1)
    ensures Acknowledged(s, CallbackStep(cfg, s, r, q).0, CallbackAccepted)
  {
    hide ExchangeStep;
    var s1 := if cfg.strictOnlyCallback
              then Recorded(s, Noted(StrictCookieWithheld), r.clock.strict, r.strictSynced) else s;
    if q.Some? && Releases(ExchangeStep(s1, r, q.value).1) { ExchangeReleases(s1, r, q.value); }
  }

  lemma LoginReleases(cfg: Config, s: Store, r: Request, csrf: Text, u: string, p: string)
    requires !s.failed && Releases(LoginStep(cfg, s, r, csrf, u, p).1)
    ensures Acknowledged(s, LoginStep(cfg, s, r, csrf, u, p).0, IdpLogin)
  {}

  lemma GrantReleases(cfg: Config, s: Store, r: Request, q: AuthorizeQuery, b: Text, cookies: seq<(CookieName, Text)>)
    requires !s.failed && Releases(GrantStep(cfg, s, r, q, b, cookies).1)
    ensures Acknowledged(s, GrantStep(cfg, s, r, q, b, cookies).0, AutomaticAuthorization)
  {}

  lemma AuthorizeReleases(cfg: Config, s: Store, r: Request, q: Option<AuthorizeQuery>)
    requires !s.failed && Releases(AuthorizeStep(cfg, s, r, q).1)
    ensures Acknowledged(s, AuthorizeStep(cfg, s, r, q).0, AutomaticAuthorization)
  {
    hide GrantStep;
    if LiveAt(s.idpBrowsers, r.cookies.idpBinding, r.clock.check1) {
      GrantReleases(cfg, s, r, q.value, r.cookies.idpBinding, []);
    } else {
      GrantReleases(cfg, BindIdp(s, r.clock.check2), r, q.value, Opaque(s.issued), [(IdpBinding, Opaque(s.issued))]);
    }
  }

  /** Nothing is released without a receipt acknowledged in the same step. */
  lemma ReleaseNeedsReceipt(cfg: Config, s: Store, r: Request)
    requires Releases(Step(cfg, s, r).1)
    ensures Acknowledged(s, Step(cfg, s, r).0, ReceiptFor(r))
  {
    hide Acknowledged, CallbackStep, AuthorizeStep, LoginStep, AccountStep;
    var t := Prune(s, r.clock.prune);
    match r.target
    case Callback(q) => CallbackReleases(cfg, t, r, q); Unpruned(s, r, CallbackStep(cfg, t, r, q).0, CallbackAccepted);
    case Authorize(q) => AuthorizeReleases(cfg, t, r, q); Unpruned(s, r, AuthorizeStep(cfg, t, r, q).0,
        AutomaticAuthorization);
    case Login(c, u, p) => LoginReleases(cfg, t, r, c, u, p); Unpruned(s, r, LoginStep(cfg, t, r, c, u, p).0, IdpLogin);
    case AccountPage => AccountReleases(t, r); Unpruned(s, r, AccountStep(t, r).0, AccountRead);
    case _ =>
  }

  lemma AccountReleases(s: Store, r: Request)
    requires !s.failed && Releases(AccountStep(s, r).1)
    ensures Acknowledged(s, AccountStep(s, r).0, AccountRead)
  {}

  lemma Unpruned(s: Store, r: Request, t: Store, k: Kind)
    requires Acknowledged(Prune(s, r.clock.prune), t, k)
    ensures Acknowledged(s, t, k)
  {}
}
