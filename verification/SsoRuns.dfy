/** The step function keeps the history and the journal sound, so every run does. */
module SsoRuns {
  import opened Options
  import opened SsoModel
  import opened SsoHistory

  // ----- provenance, step by step -----

  lemma RecordedKeeps(s: Store, e: Event, at: int, synced: bool)
    requires KindOf(e).Some? && Kept(s)
    requires !s.failed && synced ==> Kept(s.(history := s.history + [e]))
    ensures Kept(Recorded(s, e, at, synced))
  {
    hide Kept;
    if !s.failed && synced {
      JournalIrrelevant(s.(history := s.history + [e]), Recorded(s, e, at, synced));
    } else if !s.failed {
      LatchKeeps(s, s.sequence + 1);
    }
  }

  lemma NotedKeeps(s: Store, k: Kind, at: int, synced: bool)
    requires Kept(s)
    ensures Kept(Recorded(s, Noted(k), at, synced))
  {
    hide Kept;
    LogKeeps(s, Noted(k), s.issued);
    RecordedKeeps(s, Noted(k), at, synced);
  }

  lemma HomeKeeps(cfg: Config, s: Store, r: Request)
    requires Kept(s)
    ensures Kept(HomeStep(cfg, s, r).0)
  {
    hide Kept;
    DrawKeeps(s);
    BindRpKeeps(s, r.clock.issue);
    BindRpKeeps(Draw(s), r.clock.issue);
  }

  lemma StartKeeps(s: Store, r: Request)
    requires Kept(s)
    ensures Kept(StartStep(s, r).0)
  {
    hide Kept;
    if r.cookies.rpBinding in s.browsers {
      StartFlowKeeps(s, r.cookies.rpBinding, r.clock.issue);
    }
  }

  lemma CallbackKeeps(cfg: Config, s: Store, r: Request, q: Option<CallbackQuery>)
    requires Kept(s)
    ensures Kept(CallbackStep(cfg, s, r, q).0)
  {
    hide Kept;
    NotedKeeps(s, StrictCookieLeaked, r.clock.strict, r.strictSynced);
    NotedKeeps(s, StrictCookieWithheld, r.clock.strict, r.strictSynced);
    if q.Some? {
      ExchangeKeeps(s, r, q.value);
      ExchangeKeeps(Recorded(s, Noted(StrictCookieWithheld), r.clock.strict, r.strictSynced), r, q.value);
    }
  }

  lemma ExchangeKeeps(s: Store, r: Request, q: CallbackQuery)
    requires Kept(s)
    ensures Kept(ExchangeStep(s, r, q).0)
  {
    hide Kept, AcceptCallback;
    if Exchanges(s, r, q) {
      AcceptCallbackKeeps(s, AcceptanceOf(s, r, q), r.clock.record, r.synced);
    }
  }

  lemma AccountKeeps(s: Store, r: Request)
    requires Kept(s)
    ensures Kept(AccountStep(s, r).0)
  {
    hide Kept;
    var session := r.cookies.rpAuth;
    if LiveAt(s.accounts, session, r.clock.check1) && LiveAt(s.browsers, s.accounts[session].value, r.clock.check2)
      && s.accounts[session].value == r.cookies.rpBinding {
      ReadKeeps(s, session, r.clock.check1, r.clock.check2);
      RecordedKeeps(s, Read(session, r.cookies.rpBinding, r.clock.check1, r.clock.check2), r.clock.record,
                    r.synced);
    }
  }

  lemma GrantKeeps(cfg: Config, s: Store, r: Request, q: AuthorizeQuery, browser: Text,
                   cookies: seq<(CookieName, Text)>)
    requires Kept(s) && !s.failed && browser in s.idpBrowsers
    ensures Kept(GrantStep(cfg, s, r, q, browser, cookies).0)
  {
    hide Kept;
    DrawKeeps(s);
    AutoAuthorizeKeeps(Draw(s), Code(q.state, q.challenge), r.clock.check3, r.clock.record, r.synced);
    ServeFormKeeps(s, browser, q.state, q.challenge, r.clock.check3);
  }

  lemma AuthorizeKeeps(cfg: Config, s: Store, r: Request, q: Option<AuthorizeQuery>)
    requires Kept(s) && !s.failed
    ensures Kept(AuthorizeStep(cfg, s, r, q).0)
  {
    hide Kept, GrantStep;
    BindIdpKeeps(s, r.clock.check2);
    if q.Some? {
      if r.cookies.idpBinding in s.idpBrowsers {
        GrantKeeps(cfg, s, r, q.value, r.cookies.idpBinding, []);
      }
      var bound := BindIdp(s, r.clock.check2);
      GrantKeeps(cfg, bound, r, q.value, Opaque(s.issued), [(IdpBinding, Opaque(s.issued))]);
    }
  }

  /** A waiting form was served and has not led to a code yet. */
  lemma WaitingForm(s: Store, csrf: Text)
    requires Kept(s) && csrf in s.forms
    ensures var f := s.forms[csrf];
            FormServed(csrf, f.value.browser, f.value.state, f.value.challenge, f.expires - FLOW_TTL) in s.history
    ensures forall x :: x in s.history && x.CodeIssued? ==> x.origin != FromLogin(csrf)
  {
    hide Traced, BrowserRows, IdpBrowserRows, FlowRows, CodeRows, AccountRows;
    hide SpentFlows, SpentCodes, VouchedRows, Fresh;
  }

  lemma LoginStepKeeps(cfg: Config, s: Store, r: Request, csrf: Text, u: string, p: string)
    requires Kept(s) && !s.failed
    ensures Kept(LoginStep(cfg, s, r, csrf, u, p).0)
  {
    hide Kept;
    if Submits(s, r, csrf) {
      var f, valid := s.forms[csrf], u == cfg.username && p == cfg.password;
      var e := LoggedIn(csrf, r.cookies.idpBinding, valid);
      WaitingForm(s, csrf);
      SpendFormKeeps(s, csrf);
      LoginKeeps(s, csrf, valid);
      RecordedKeeps(SpendForm(s, csrf), e, r.clock.record, r.synced);
      if valid && r.synced {
        LoginCodeKeeps(Recorded(SpendForm(s, csrf), e, r.clock.record, true), csrf, f.value.browser,
                       Code(f.value.state, f.value.challenge), f.expires - FLOW_TTL, r.clock.issue);
      }
    }
  }

  lemma StepKeeps(cfg: Config, s: Store, r: Request)
    requires Kept(s)
    ensures Kept(Step(cfg, s, r).0)
  {
    hide Kept, HomeStep, StartStep, CallbackStep, AccountStep, AuthorizeStep, LoginStep;
    if !r.target.Rejected? && !s.failed {
      PruneKeeps(s, r.clock.prune);
      var t := Prune(s, r.clock.prune);
      match r.target
      case Home => HomeKeeps(cfg, t, r);
      case Start => StartKeeps(t, r);
      case DeniedCallback => NotedKeeps(t, ForbiddenRedirectRead, r.clock.record, r.synced);
      case Callback(q) => CallbackKeeps(cfg, t, r, q);
      case AccountPage => AccountKeeps(t, r);
      case Authorize(q) => AuthorizeKeeps(cfg, t, r, q);
      case Login(csrf, u, p) => LoginStepKeeps(cfg, t, r, csrf, u, p);
      case _ =>
    }
  }

  /** Every run, whatever is requested and however the clock reads, has a justified history. */
  lemma {:induction false} RunKeeps(cfg: Config, rs: seq<Request>)
    ensures Kept(Run(cfg, INITIAL, rs))
  {
    if rs != [] {
      hide Kept, Step;
      RunKeeps(cfg, rs[..|rs| - 1]);
      StepKeeps(cfg, Run(cfg, INITIAL, rs[..|rs| - 1]), rs[|rs| - 1]);
    }
  }

  // ----- what a justified history means for a reader -----

  lemma {:induction false} JustifiedAt(h: seq<Event>, i: nat)
    requires Traced(h) && i < |h|
    ensures Justified(h[..i], h[i])
  {
    var front := h[..|h| - 1];
    if i < |h| - 1 {
      hide Justified;
      assert front[..i] == h[..i];
      JustifiedAt(front, i);
    }
  }

  /** Each state, each code and each session belongs to one accepted callback only. */
  lemma SingleUse(cfg: Config, rs: seq<Request>, i: nat, j: nat)
    requires var h := Run(cfg, INITIAL, rs).history;
             i < j < |h| && h[i].Accepted? && h[j].Accepted?
    ensures var h := Run(cfg, INITIAL, rs).history;
            h[i].a.state != h[j].a.state && h[i].a.code != h[j].a.code && h[i].a.session != h[j].a.session
  {
    var h := Run(cfg, INITIAL, rs).history;
    RunKeeps(cfg, rs);
    hide Run;
    assert Traced(h) by { hide Rows, Spent, Fresh; }
    JustifiedAt(h, j);
    assert h[i] == h[..j][i];
  }

  /** A served form is logged in through at most once, and leads to at most one code. */
  lemma FormsSingleUse(cfg: Config, rs: seq<Request>, i: nat, j: nat)
    requires var h := Run(cfg, INITIAL, rs).history; i < j < |h|
    ensures var h := Run(cfg, INITIAL, rs).history;
            && (h[i].LoggedIn? && h[j].LoggedIn? ==> h[i].csrf != h[j].csrf)
            && (h[i].CodeIssued? && h[j].CodeIssued? ==>
                  h[i].code != h[j].code && (h[i].origin.FromLogin? ==> h[i].origin != h[j].origin))
  {
    var h := Run(cfg, INITIAL, rs).history;
    RunKeeps(cfg, rs);
    hide Run;
    assert Traced(h) by { hide Rows, Spent, Fresh; }
    JustifiedAt(h, j);
    assert h[i] == h[..j][i];
  }

  /** The flow a session descends from: the start by the same browser, the code for the
      same state whose challenge digests that start's verifier, and the receipt that vouches for it. */
  ghost predicate Provenance(past: seq<Event>, a: Acceptance) {
    && Bound(a.browser, a.bound) in past
    && Started(a.state, a.browser, a.verifier, a.started) in past
    && (exists o :: CodeIssued(a.code, o, a.state, Challenge(a.verifier), a.coded) in past)
    && Vouched(past, a.code)
    && a.checked < a.started + 3 * MINUTE && a.codeChecked < a.coded + 3 * MINUTE
    && a.boundChecked < a.bound + 15 * MINUTE
  }

  /** Every session that exists, or ever existed, has its provenance in the history before it. */
  lemma SessionProvenance(cfg: Config, rs: seq<Request>, i: nat)
    requires var h := Run(cfg, INITIAL, rs).history; i < |h| && h[i].Accepted?
    ensures var h := Run(cfg, INITIAL, rs).history; Provenance(h[..i], h[i].a)
  {
    var h := Run(cfg, INITIAL, rs).history;
    RunKeeps(cfg, rs);
    hide Run;
    assert Traced(h) by { hide Rows, Spent, Fresh; }
    JustifiedAt(h, i);
  }

  lemma OpenSessionsAreAccepted(cfg: Config, rs: seq<Request>, session: Text)
    requires session in Run(cfg, INITIAL, rs).accounts
    ensures var s := Run(cfg, INITIAL, rs);
            exists i :: 0 <= i < |s.history| && s.history[i].Accepted? && s.history[i].a.session == session
                        && s.history[i].a.browser == s.accounts[session].value
                        && s.history[i].a.issued + 3 * MINUTE == s.accounts[session].expires
  {
    var s := Run(cfg, INITIAL, rs);
    RunKeeps(cfg, rs);
    hide Run, Traced, BrowserRows, IdpBrowserRows, FlowRows, FormRows, CodeRows, Spent, Fresh;
    assert SessionIn(s.history, session, s.accounts[session].value, s.accounts[session].expires - FLOW_TTL);
    var a :| Accepted(a) in s.history && a.session == session && a.browser == s.accounts[session].value
             && a.issued == s.accounts[session].expires - FLOW_TTL;
    var i :| 0 <= i < |s.history| && s.history[i] == Accepted(a);
  }

  /** Every successful read of the private account is later than the callback that opened
      the session, by the same browser, less than fifteen minutes after the binding was
      issued and less than three minutes after the session was; hence less than six minutes
      after the start, up to the time the callback's own handler took between its first
      check and issuing the session. */
  lemma ReadsAreTimely(cfg: Config, rs: seq<Request>, i: nat)
    requires var h := Run(cfg, INITIAL, rs).history; i < |h| && h[i].Read?
    ensures var h := Run(cfg, INITIAL, rs).history;
            exists a, k :: 0 <= k < i && h[k] == Accepted(a)
                    && a.session == h[i].session && a.browser == h[i].browser
                    && Provenance(h[..k], a)
                    && h[i].checked < a.issued + 3 * MINUTE && h[i].boundChecked < a.bound + 15 * MINUTE
                    && h[i].checked < a.started + 6 * MINUTE + (a.issued - a.checked)
  {
    var h := Run(cfg, INITIAL, rs).history;
    RunKeeps(cfg, rs);
    hide Run;
    assert Traced(h) by { hide Rows, Spent, Fresh; }
    JustifiedAt(h, i);
    var past := h[..i];
    var a, at :| Accepted(a) in past && a.session == h[i].session && a.browser == h[i].browser
                 && h[i].checked < a.issued + 3 * MINUTE
                 && Bound(a.browser, at) in past && h[i].boundChecked < at + 15 * MINUTE;
    var k :| 0 <= k < |past| && past[k] == Accepted(a);
    assert h[k] == Accepted(a);
    JustifiedAt(h, k);
    BoundOnce(h, a.browser, at, a.bound);
    assert Provenance(h[..k], a);
  }

  lemma BoundOnce(h: seq<Event>, b: Text, at1: int, at2: int)
    requires Traced(h) && Bound(b, at1) in h && Bound(b, at2) in h
    ensures at1 == at2
  {
    var i :| 0 <= i < |h| && h[i] == Bound(b, at1);
    var j :| 0 <= j < |h| && h[j] == Bound(b, at2);
    if i < j {
      assert h[..j][i] == h[i];
      JustifiedAt(h, j);
    } else if j < i {
      assert h[..i][j] == h[j];
      JustifiedAt(h, i);
    }
  }
}
