/** One concrete run in which the private account is read six minutes after the start: the callback's
    handler checks in time, stalls, and dates the session from when it resumes. */
module SsoSlow {
  import opened Options
  import opened SsoModel
  import opened SsoTiming

  const PLAIN: Config := Config("user", "word", false, false, false, false, false)

  function At(t: int): Clock { Clock(t, t, t, t, t, t, t) }

  function Ask(target: Target, rpAuth: Text, clock: Clock): Request {
    Request(target, Cookies(Opaque(0), rpAuth, Empty, Opaque(3)), clock, true, true, false)
  }

  /** Checked after two minutes, issued after four. */
  const STALLED: Clock := Clock(2 * MINUTE, 2 * MINUTE, 2 * MINUTE, 2 * MINUTE, 2 * MINUTE, 4 * MINUTE, 4 * MINUTE)

  const VISIT: Request := Ask(Home, Empty, At(0))
  const START: Request := Ask(Target.Start, Empty, At(0))
  const ENTER: Request := Ask(Authorize(Some(AuthorizeQuery(true, Opaque(1), Challenge(Opaque(2))))), Empty, At(0))
  const LOGIN: Request := Ask(Login(Opaque(4), "user", "word"), Empty, At(0))
  const RETURN: Request := Ask(Callback(Some(CallbackQuery(Opaque(5), Opaque(1)))), Empty, STALLED)
  const READ: Request := Ask(AccountPage, Opaque(6), At(6 * MINUTE))

  // The store after each request.
  const BOUND: Store := BindRp(INITIAL, 0)
  const STARTED: Store := StartFlow(BOUND, Opaque(0), 0)
  const SERVED: Store := ServeForm(BindIdp(STARTED, 0), Opaque(3), Opaque(1), Challenge(Opaque(2)), 0)
  const CODED: Store := IssueCode(Recorded(SpendForm(SERVED, Opaque(4)), LoggedIn(Opaque(4), Opaque(3), true), 0, true),
                                  FromLogin(Opaque(4)), Opaque(1), Challenge(Opaque(2)), 0)
  const STALL: Acceptance :=
      Acceptance(Opaque(1), Opaque(5), Opaque(0), Opaque(2), Opaque(6), 0, 0, 0, 2 * MINUTE, 2 * MINUTE, 2 * MINUTE,
                 4 * MINUTE)
  const OPENED: Store := AcceptCallback(CODED, STALL, 4 * MINUTE, true)

  lemma Visited()
    ensures Step(PLAIN, INITIAL, VISIT).0 == BOUND && Step(PLAIN, BOUND, START).0 == STARTED
  {
    hide CallbackStep, AccountStep, AuthorizeStep, LoginStep;
    assert Prune(INITIAL, 0) == INITIAL;
    assert Prune(BOUND, 0) == BOUND;
  }

  lemma Entered()
    ensures Step(PLAIN, STARTED, ENTER).0 == SERVED
  {
    hide HomeStep, StartStep, CallbackStep, AccountStep, LoginStep;
    assert Prune(STARTED, 0) == STARTED;
  }

  lemma LoggedOn()
    ensures Step(PLAIN, SERVED, LOGIN).0 == CODED
  {
    hide HomeStep, StartStep, CallbackStep, AccountStep, AuthorizeStep;
    ServedStands();
    hide Prune, SERVED;
  }

  lemma ServedStands()
    ensures Prune(SERVED, 0) == SERVED && SERVED.codes == map[] && SERVED.issued == 5 && !SERVED.failed
    ensures SERVED.forms == map[Opaque(4) := Row(Form(Opaque(3), Opaque(1), Challenge(Opaque(2))), FLOW_TTL)]
    ensures SERVED.idpBrowsers == map[Opaque(3) := Row((), FLOW_TTL)]
  { }

  lemma CodedStands()
    ensures Prune(CODED, 2 * MINUTE) == CODED && CODED.accounts == map[] && CODED.issued == 6
    ensures CODED.pending == map[Opaque(1) := Row(Flow(Opaque(0), Opaque(2)), FLOW_TTL)]
    ensures CODED.codes == map[Opaque(5) := Row(Code(Opaque(1), Challenge(Opaque(2))), FLOW_TTL)]
    ensures CODED.browsers == map[Opaque(0) := Row((), BINDING_TTL)] && !CODED.failed
  {
    assert CODED.forms == map[];
  }

  lemma Stalled()
    ensures Step(PLAIN, CODED, RETURN).0 == OPENED && Step(PLAIN, CODED, RETURN).1.body == SignInComplete
  {
    hide HomeStep, StartStep, AccountStep, AuthorizeStep, LoginStep;
    CodedStands();
    hide CODED, Prune;
    assert Exchanges(CODED, RETURN, CallbackQuery(Opaque(5), Opaque(1)));
    assert AcceptanceOf(CODED, RETURN, CallbackQuery(Opaque(5), Opaque(1))) == STALL;
    hide Exchanges, AcceptanceOf, STALL;
  }

  lemma ReadLate()
    ensures Step(PLAIN, OPENED, READ).1.body == PrivateAccount
  {
    hide HomeStep, StartStep, CallbackStep, AuthorizeStep, LoginStep;
    assert OPENED.accounts == map[Opaque(6) := Row(Opaque(0), 7 * MINUTE)];
    assert OPENED.browsers == map[Opaque(0) := Row((), BINDING_TTL)];
  }

  const SLOW_RUN: seq<Request> := [VISIT, START, ENTER, LOGIN, RETURN]

  lemma SlowStates()
    ensures Run(PLAIN, INITIAL, SLOW_RUN[..4]) == CODED && Run(PLAIN, INITIAL, SLOW_RUN) == OPENED
  {
    hide Step, Run, BOUND, STARTED, SERVED, CODED, OPENED;
    NothingVisited();
    Visited();
    Entered();
    LoggedOn();
    Stalled();
    RunMore(PLAIN, [], VISIT);
    RunMore(PLAIN, [VISIT], START);
    RunMore(PLAIN, [VISIT, START], ENTER);
    RunMore(PLAIN, [VISIT, START, ENTER], LOGIN);
    RunMore(PLAIN, [VISIT, START, ENTER, LOGIN], RETURN);
    hide VISIT, START, ENTER, LOGIN, RETURN;
    assert [] + [VISIT] == [VISIT];
    assert [VISIT] + [START] == [VISIT, START];
    assert [VISIT, START] + [ENTER] == [VISIT, START, ENTER];
    assert [VISIT, START, ENTER] + [LOGIN] == SLOW_RUN[..4];
    assert [VISIT, START, ENTER, LOGIN] + [RETURN] == SLOW_RUN;
  }

  lemma NothingVisited()
    ensures Run(PLAIN, INITIAL, []) == INITIAL
  { }

  /** No clock runs backwards, the flow starts at instant zero, and six minutes later the session it
      led to still opens the private account: the run signs in with an acceptance that is not prompt. */
  lemma SixMinutesCanPass()
    ensures NonDecreasing(SLOW_RUN + [READ]) && SignsIn(PLAIN, SLOW_RUN, STALL) && !Prompt(STALL)
    ensures Started(Opaque(1), Opaque(0), Opaque(2), 0) in Run(PLAIN, INITIAL, SLOW_RUN).history
    ensures Step(PLAIN, Run(PLAIN, INITIAL, SLOW_RUN), READ).1.body == PrivateAccount && READ.clock.check1 == 6 * MINUTE
  {
    hide Step, Run, NonDecreasing, OPENED, CODED, READ, RETURN;
    SlowStates();
    Stalled();
    ReadLate();
    StartShows();
    Orderly();
    assert SLOW_RUN[4] == RETURN;
    ReadTime();
  }

  lemma ReadTime()
    ensures READ.clock.check1 == 6 * MINUTE
  { }

  lemma Orderly()
    ensures NonDecreasing(SLOW_RUN + [READ])
  {
    var rs := SLOW_RUN + [READ];
    assert rs == [VISIT, START, ENTER, LOGIN, RETURN, READ];
    forall i | 0 <= i < |rs| ensures rs[i].clock.Monotone() { }
  }

  lemma StartShows()
    ensures Started(Opaque(1), Opaque(0), Opaque(2), 0) in OPENED.history
    ensures OPENED.history[|OPENED.history| - 1] == Accepted(STALL)
  {
    assert STARTED.history[1] == Started(Opaque(1), Opaque(0), Opaque(2), 0);
    assert OPENED.history[1] == STARTED.history[1];
  }
}
