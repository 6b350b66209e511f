/** Six minutes after the start: exactly when an accepted callback keeps every later read within them. */
module SsoTiming {
  import opened Options
  import opened SsoModel
  import opened SsoPresented
  import opened SsoRuns

  // ----- what one request adds to the history -----

  /** The request at clock `c` appended events other than reads, dating an acceptance by its own last reading. */
  ghost predicate Quiet(h: seq<Event>, g: seq<Event>, c: Clock) {
    h <= g && forall i :: |h| <= i < |g| ==> !g[i].Read? && (g[i].Accepted? ==> g[i].a.issued == c.issue)
  }

  /** The request appended one read, dated by its first two checks. */
  ghost predicate Reading(h: seq<Event>, g: seq<Event>, c: Clock) {
    && |g| == |h| + 1 && g[..|h|] == h && g[|h|].Read?
    && g[|h|].checked == c.check1 && g[|h|].boundChecked == c.check2
  }

  lemma AccountReads(s: Store, r: Request)
    ensures var g := AccountStep(s, r).0.history; Quiet(s.history, g, r.clock) || Reading(s.history, g, r.clock)
  { }

  lemma StepExtends(cfg: Config, s: Store, r: Request)
    ensures var g := Step(cfg, s, r).0.history; Quiet(s.history, g, r.clock) || Reading(s.history, g, r.clock)
  {
    hide HomeStep, StartStep, CallbackStep, AccountStep, AuthorizeStep, LoginStep, Reading, Recorded;
    StepAdds(cfg, s, r);
    AccountReads(Prune(s, r.clock.prune), r);
  }

  // ----- histories of an orderly clock -----

  /** Up to `now`: sessions were issued by then, and no read came before a session issued earlier in the history. */
  ghost predicate Dated(h: seq<Event>, now: int) {
    && (forall i :: 0 <= i < |h| && h[i].Accepted? ==> h[i].a.issued <= now)
    && (forall i, j :: 0 <= i < j < |h| && h[i].Accepted? && h[j].Read? ==> h[i].a.issued <= h[j].checked)
    && (forall j :: 0 <= j < |h| && h[j].Read? ==> h[j].checked <= h[j].boundChecked)
  }

  lemma QuietDated(h: seq<Event>, g: seq<Event>, c: Clock, now: int)
    requires Dated(h, now) && Quiet(h, g, c) && now <= c.issue
    ensures Dated(g, c.issue)
  { }

  lemma ReadingDated(h: seq<Event>, g: seq<Event>, c: Clock, now: int)
    requires Dated(h, now) && Reading(h, g, c) && now <= c.check1 <= c.check2 && now <= c.issue
    ensures Dated(g, c.issue)
  {
    assert forall i :: 0 <= i < |h| ==> g[i] == h[i];
  }

  lemma {:induction false} RunDated(cfg: Config, rs: seq<Request>)
    requires NonDecreasing(rs) && rs != []
    ensures Dated(Run(cfg, INITIAL, rs).history, rs[|rs| - 1].clock.issue)
  {
    hide Dated, Quiet, Reading, Step;
    var front, r := rs[..|rs| - 1], rs[|rs| - 1];
    var s := Run(cfg, INITIAL, front);
    StepExtends(cfg, s, r);
    assert r.clock.Monotone();
    var now := if front == [] then r.clock.prune else front[|front| - 1].clock.issue;
    if front == [] { NothingDated(now); } else { RunDated(cfg, front); }
    var g := Step(cfg, s, r).0.history;
    if Quiet(s.history, g, r.clock) { QuietDated(s.history, g, r.clock, now); }
    else { ReadingDated(s.history, g, r.clock, now); }
  }

  lemma NothingDated(now: int)
    ensures Dated([], now)
  { }

  // ----- the six minutes -----

  /** The last request of the run signed in, and `a` says what it accepted. */
  ghost predicate SignsIn(cfg: Config, rs: seq<Request>, a: Acceptance) {
    && rs != [] && Step(cfg, Run(cfg, INITIAL, rs[..|rs| - 1]), rs[|rs| - 1]).1.body == SignInComplete
    && var h := Run(cfg, INITIAL, rs).history; h != [] && h[|h| - 1] == Accepted(a)
  }

  /** The session was issued in time, or the binding ends within the six minutes, or before the session is issued. */
  predicate Prompt(a: Acceptance) {
    || a.issued <= a.started + 3 * MINUTE
    || a.bound + 15 * MINUTE <= a.started + 6 * MINUTE
    || a.bound + 15 * MINUTE <= a.issued
  }

  ghost predicate ReadsWithin(h: seq<Event>, a: Acceptance) {
    forall e :: e in h && e.Read? && e.session == a.session ==> e.checked < a.started + 6 * MINUTE
  }

  /** Whatever the run, no read of a promptly accepted session comes six minutes after the start. */
  lemma PromptReads(cfg: Config, rs: seq<Request>, a: Acceptance, j: nat)
    requires NonDecreasing(rs) && Prompt(a)
    requires var h := Run(cfg, INITIAL, rs).history;
             j < |h| && Accepted(a) in h && h[j].Read? && h[j].session == a.session
    ensures Run(cfg, INITIAL, rs).history[j].checked < a.started + 6 * MINUTE
  {
    hide Run, Step, Provenance, NonDecreasing;
    var h := Run(cfg, INITIAL, rs).history;
    NothingRan(cfg);
    ReadsAreTimely(cfg, rs, j);
    var b, k :| 0 <= k < j && h[k] == Accepted(b) && b.session == h[j].session
                && h[j].checked < b.issued + 3 * MINUTE && h[j].boundChecked < b.bound + 15 * MINUTE;
    var i :| 0 <= i < |h| && h[i] == Accepted(a);
    if i < k { SingleUse(cfg, rs, i, k); } else if k < i { SingleUse(cfg, rs, k, i); }
    RunDated(cfg, rs);
    assert a == b;
  }

  lemma ExchangeOpens(s: Store, r: Request, q: CallbackQuery)
    requires !s.failed && ExchangeStep(s, r, q).1.body == SignInComplete
    ensures var t := ExchangeStep(s, r, q).0; Opened(t, r)
  {
    var a := AcceptanceOf(s, r, q);
    var t := ExchangeStep(s, r, q).0;
    assert t.history == s.history + [Accepted(a)];
    assert t.accounts[a.session] == Row(a.browser, a.issued + FLOW_TTL);
  }

  /** What a request that signed in leaves behind. */
  ghost predicate Opened(t: Store, r: Request) {
    && !t.failed && t.history != [] && t.history[|t.history| - 1].Accepted?
    && var a := t.history[|t.history| - 1].a;
    && a.issued == r.clock.issue && a.session in t.accounts
    && t.accounts[a.session] == Row(a.browser, a.issued + FLOW_TTL)
    && a.browser in t.browsers && t.browsers[a.browser].expires == a.bound + BINDING_TTL
  }

  lemma StepOpens(cfg: Config, s: Store, r: Request)
    requires Step(cfg, s, r).1.body == SignInComplete
    ensures Opened(Step(cfg, s, r).0, r)
  {
    hide Opened, ExchangeStep, HomeStep, StartStep, AccountStep, AuthorizeStep, LoginStep;
    var t := Prune(s, r.clock.prune);
    OnlyCallbacks(cfg, t, r);
    var u := if cfg.strictOnlyCallback then Recorded(t, Noted(StrictCookieWithheld), r.clock.strict, r.strictSynced)
        else t;
    var q := r.target.callback.value;
    ExchangeFailed(u, r, q);
    ExchangeOpens(u, r, q);
  }

  /** A failed store cannot answer a callback. */
  lemma ExchangeFailed(s: Store, r: Request, q: CallbackQuery)
    ensures s.failed ==> ExchangeStep(s, r, q).1.body != SignInComplete
  { }

  /** Only a callback with a query can sign in. */
  lemma OnlyCallbacks(cfg: Config, s: Store, r: Request)
    requires Dispatch(cfg, s, r).1.body == SignInComplete
    ensures r.target.Callback? && r.target.callback.Some?
  {
    hide ExchangeStep, AuthorizeStep, LoginStep, Recorded, LiveAt;
    match r.target
    case Authorize(q) => NeverAuthorizing(cfg, s, r, q);
    case Login(csrf, u, p) => NeverLogin(cfg, s, r, csrf, u, p);
    case _ =>
  }

  lemma NeverAuthorizing(cfg: Config, s: Store, r: Request, q: Option<AuthorizeQuery>)
    ensures AuthorizeStep(cfg, s, r, q).1.body != SignInComplete
  {
    hide AutoAuthorize, ServeForm, BindIdp, LiveAt;
  }

  lemma NeverLogin(cfg: Config, s: Store, r: Request, csrf: Text, u: string, p: string)
    ensures LoginStep(cfg, s, r, csrf, u, p).1.body != SignInComplete
  {
    hide Recorded, IssueCode, SpendForm, Submits;
  }

  /** A read of the private account at the single instant `t`. */
  function ReadAt(a: Acceptance, t: int): Request {
    Request(AccountPage, Cookies(a.browser, a.session, Empty, Empty), Clock(t, t, t, t, t, t, t), true, true, false)
  }

  lemma ReadSucceeds(cfg: Config, s: Store, a: Acceptance, t: int)
    requires !s.failed && a.session in s.accounts && s.accounts[a.session] == Row(a.browser, a.issued + FLOW_TTL)
    requires a.browser in s.browsers && s.browsers[a.browser].expires == a.bound + BINDING_TTL
    requires t < a.issued + FLOW_TTL && t < a.bound + BINDING_TTL
    ensures Read(a.session, a.browser, t, t) in Step(cfg, s, ReadAt(a, t)).0.history
  {
    var g := Step(cfg, s, ReadAt(a, t)).0.history;
    assert g == s.history + [Read(a.session, a.browser, t, t)];
    assert g[|g| - 1] == Read(a.session, a.browser, t, t);
  }

  /** A late issue under a binding that outlasts it: the run can go on to a read six minutes after the start. */
  lemma LateRead(cfg: Config, rs: seq<Request>, a: Acceptance) returns (more: seq<Request>)
    requires NonDecreasing(rs) && SignsIn(cfg, rs, a) && !Prompt(a)
    ensures NonDecreasing(rs + more) && !ReadsWithin(Run(cfg, INITIAL, rs + more).history, a)
  {
    hide Run, Step, NonDecreasing, ReadAt;
    var s, r := Run(cfg, INITIAL, rs[..|rs| - 1]), rs[|rs| - 1];
    var t := if a.issued < a.started + 6 * MINUTE then a.started + 6 * MINUTE else a.issued;
    assert rs == rs[..|rs| - 1] + [r];
    RunMore(cfg, rs[..|rs| - 1], r);
    StepOpens(cfg, s, r);
    RunMore(cfg, rs, ReadAt(a, t));
    OrderlyRead(rs, a, t);
    ReadSucceeds(cfg, Run(cfg, INITIAL, rs), a, t);
    more := [ReadAt(a, t)];
  }

  lemma OrderlyRead(rs: seq<Request>, a: Acceptance, t: int)
    requires NonDecreasing(rs) && (rs != [] ==> rs[|rs| - 1].clock.issue <= t)
    ensures NonDecreasing(rs + [ReadAt(a, t)])
  { }

  /** Over every run that has just signed in: all reads of the session, in whatever way the run goes
      on, come less than six minutes after the start, if and only if the acceptance was prompt. */
  lemma SixMinutes(cfg: Config, rs: seq<Request>, a: Acceptance)
    requires NonDecreasing(rs) && SignsIn(cfg, rs, a)
    ensures (forall more :: NonDecreasing(rs + more) ==> ReadsWithin(Run(cfg, INITIAL, rs + more).history, a)) <==>
            Prompt(a)
  {
    var h := Run(cfg, INITIAL, rs).history;
    assert h[|h| - 1] == Accepted(a);
    hide Run, SignsIn, Prompt, NonDecreasing;
    if Prompt(a) {
      forall more | NonDecreasing(rs + more) ensures ReadsWithin(Run(cfg, INITIAL, rs + more).history, a) {
        HistoryGrows(cfg, rs + more, |rs|, |rs + more|);
        assert (rs + more)[..|rs|] == rs && (rs + more)[..|rs + more|] == rs + more;
        var g := Run(cfg, INITIAL, rs + more).history;
        assert g[|h| - 1] == Accepted(a);
        forall e | e in g && e.Read? && e.session == a.session ensures e.checked < a.started + 6 * MINUTE {
          var j :| 0 <= j < |g| && g[j] == e;
          PromptReads(cfg, rs + more, a, j);
        }
      }
    } else {
      var more := LateRead(cfg, rs, a);
    }
  }
}
