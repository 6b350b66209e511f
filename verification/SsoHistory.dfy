/** What holds in every run of the fixture: provenance of every session, single
    use of states, codes and forms, causality of the journal, and timing. */
module SsoHistory {
  import opened SsoModel

  // ----- the meaning of a history -----

  /** The values of an event that were drawn from the random source. */
  function Drawn(e: Event): set<Text> {
    match e
    case Bound(b, _) => {b}
    case IdpBound(b, _) => {b}
    case Started(s, _, v, _) => {s, v}
    case FormServed(c, _, _, _, _) => {c}
    case CodeIssued(c, _, _, _, _) => {c}
    case LoggedIn(c, _, _) => {c}
    case Accepted(a) => {a.session, a.state, a.code}
    case _ => {}
  }

  /** The code was issued for this state and challenge. */
  ghost predicate CodeIn(h: seq<Event>, code: Text, state: Text, challenge: Text, at: int) {
    exists o :: CodeIssued(code, o, state, challenge, at) in h
  }

  ghost predicate SessionIn(h: seq<Event>, session: Text, browser: Text, issued: int) {
    exists a :: Accepted(a) in h && a.session == session && a.browser == browser && a.issued == issued
  }

  /** A receipt vouches for a code: an accepted login on the form it came from, or an automatic authorization. */
  ghost predicate Vouched(h: seq<Event>, code: Text) {
    || Authorized(code) in h
    || exists e, b :: e in h && e.CodeIssued? && e.code == code && e.origin.FromLogin?
                      && LoggedIn(e.origin.csrf, b, true) in h
  }

  /** Each event is justified by the events before it, and nothing one-use happens twice. */
  ghost predicate Justified(past: seq<Event>, e: Event) {
    match e
    case Bound(b, _) => forall x :: x in past && x.Bound? ==> x.browser != b
    case IdpBound(b, _) => forall x :: x in past && x.IdpBound? ==> x.browser != b
    case Started(s, b, v, _) =>
      && (forall x :: x in past && x.Started? ==> x.state != s && x.verifier != v)
      && (exists at :: Bound(b, at) in past)
    case FormServed(c, b, _, _, _) =>
      && (forall x :: x in past && x.FormServed? ==> x.csrf != c)
      && (exists at :: IdpBound(b, at) in past)
    case CodeIssued(c, origin, s, ch, _) =>
      && (forall x :: x in past && x.CodeIssued? ==> x.code != c)
      && (origin.FromLogin? ==>
            && (forall x :: x in past && x.CodeIssued? ==> x.origin != origin)
            && (exists b, at ::
                  FormServed(origin.csrf, b, s, ch, at) in past && LoggedIn(origin.csrf, b, true) in past))
    case LoggedIn(c, b, _) =>
      && (forall x :: x in past && x.LoggedIn? ==> x.csrf != c)
      && (exists s, ch, at :: FormServed(c, b, s, ch, at) in past)
    case Authorized(c) => exists s, ch, at :: CodeIssued(c, Automatic, s, ch, at) in past
    case Accepted(a) =>
      && Bound(a.browser, a.bound) in past
      && Started(a.state, a.browser, a.verifier, a.started) in past && a.checked < a.started + FLOW_TTL
      && a.codeChecked < a.coded + FLOW_TTL && a.boundChecked < a.bound + BINDING_TTL
      && CodeIn(past, a.code, a.state, Challenge(a.verifier), a.coded) && Vouched(past, a.code)
      && (forall x :: x in past && x.Accepted? ==>
            x.a.state != a.state && x.a.code != a.code && x.a.session != a.session)
    case Read(session, b, checked, boundChecked) =>
      && (exists a :: Accepted(a) in past && a.session == session && a.browser == b && checked < a.issued + FLOW_TTL)
      && (exists at :: Bound(b, at) in past && boundChecked < at + BINDING_TTL)
    case Noted(_) => true
  }

  ghost predicate Traced(h: seq<Event>) {
    h == [] || (Traced(h[..|h| - 1]) && Justified(h[..|h| - 1], h[|h| - 1]))
  }

  lemma TracedGrows(h: seq<Event>, e: Event)
    requires Traced(h) && Justified(h, e)
    ensures Traced(h + [e])
  {
    assert (h + [e])[..|h|] == h;
  }

  // ----- the meaning of a journal -----

  predicate Authorizes(r: Receipt) {
    (r.kind == IdpLogin && r.accepted) || r.kind == AutomaticAuthorization
  }

  function Callbacks(j: seq<Receipt>): nat {
    if j == [] then 0
    else Callbacks(j[..|j| - 1]) + if j[|j| - 1].kind == CallbackAccepted then 1 else 0
  }

  function Authorizations(j: seq<Receipt>): nat {
    if j == [] then 0
    else Authorizations(j[..|j| - 1]) + if Authorizes(j[|j| - 1]) then 1 else 0
  }

  /** Numbered from one without a gap, callbacks covered by authorizations, reads preceded by a callback. */
  ghost predicate Causal(j: seq<Receipt>) {
    j == [] ||
    (var front, last := j[..|j| - 1], j[|j| - 1];
     && Causal(front)
     && last.sequence == |j|
     && Callbacks(j) <= Authorizations(j)
     && (last.kind == AccountRead ==> Callbacks(front) > 0))
  }

  /** The journal is the history with everything but kind and acceptance left out. */
  ghost predicate Projects(h: seq<Event>, j: seq<Receipt>) {
    if h == [] then j == []
    else if KindOf(h[|h| - 1]).None? then Projects(h[..|h| - 1], j)
    else j != [] && j[|j| - 1].kind == KindOf(h[|h| - 1]).value
         && j[|j| - 1].accepted == AcceptedFlag(h[|h| - 1])
         && Projects(h[..|h| - 1], j[..|j| - 1])
  }

  // ----- the invariant -----

  // Every row of every table was put there by an event.
  ghost predicate BrowserRows(m: Table<()>, h: seq<Event>) {
    forall k :: k in m ==> Bound(k, m[k].expires - BINDING_TTL) in h
  }

  ghost predicate IdpBrowserRows(m: Table<()>, h: seq<Event>) {
    forall k :: k in m ==> IdpBound(k, m[k].expires - FLOW_TTL) in h
  }

  ghost predicate FlowRows(m: Table<Flow>, h: seq<Event>) {
    forall k :: k in m ==> Started(k, m[k].value.browser, m[k].value.verifier, m[k].expires - FLOW_TTL) in h
  }

  ghost predicate FormRows(m: Table<Form>, h: seq<Event>) {
    forall k :: k in m ==>
      FormServed(k, m[k].value.browser, m[k].value.state, m[k].value.challenge, m[k].expires - FLOW_TTL) in h
  }

  ghost predicate CodeRows(m: Table<Code>, h: seq<Event>) {
    forall k :: k in m ==> CodeIn(h, k, m[k].value.state, m[k].value.challenge, m[k].expires - FLOW_TTL)
  }

  ghost predicate AccountRows(m: Table<Text>, h: seq<Event>) {
    forall k :: k in m ==> SessionIn(h, k, m[k].value, m[k].expires - FLOW_TTL)
  }

  ghost predicate Rows(s: Store) {
    && BrowserRows(s.browsers, s.history) && IdpBrowserRows(s.idpBrowsers, s.history)
    && FlowRows(s.pending, s.history) && FormRows(s.forms, s.history)
    && CodeRows(s.codes, s.history) && AccountRows(s.accounts, s.history)
  }

  // What was consumed is gone.
  ghost predicate SpentFlows(m: Table<Flow>, h: seq<Event>) {
    forall x :: x in h && x.Accepted? ==> x.a.state !in m
  }

  ghost predicate SpentCodes(m: Table<Code>, h: seq<Event>) {
    forall x :: x in h && x.Accepted? ==> x.a.code !in m
  }

  ghost predicate SpentForms(m: Table<Form>, h: seq<Event>) {
    forall x :: x in h && x.LoggedIn? ==> x.csrf !in m
  }

  ghost predicate VouchedRows(m: Table<Code>, h: seq<Event>) {
    forall k :: k in m ==> Vouched(h, k)
  }

  /** A form that led to a code was logged in through. */
  ghost predicate LoginsOf(h: seq<Event>) {
    forall x :: x in h && x.CodeIssued? && x.origin.FromLogin? ==>
      exists b :: LoggedIn(x.origin.csrf, b, true) in h
  }

  ghost predicate Fresh(h: seq<Event>, issued: nat) {
    forall x, t :: x in h && t in Drawn(x) ==> t.Opaque? && t.n < issued
  }

  ghost predicate Spent(s: Store) {
    && SpentFlows(s.pending, s.history) && SpentCodes(s.codes, s.history) && SpentForms(s.forms, s.history)
    && LoginsOf(s.history)
    && (!s.failed ==> VouchedRows(s.codes, s.history))
  }

  ghost predicate Kept(s: Store) {
    Traced(s.history) && Rows(s) && Spent(s) && Fresh(s.history, s.issued)
  }

  ghost predicate Journalled(s: Store) {
    && Causal(s.journal)
    && Projects(s.history, s.journal)
    && s.sequence == |s.journal| + (if s.failed then 1 else 0)
    && (!s.failed ==> Callbacks(s.journal) + |s.codes| <= Authorizations(s.journal))
    && (s.accounts != map[] ==> Callbacks(s.journal) > 0)
  }

  // ----- each elementary change keeps it -----

  lemma RowsGrow(s: Store, e: Event)
    requires Rows(s)
    ensures Rows(s.(history := s.history + [e]))
  {}

  /** Events that consume nothing leave everything consumed as it was. */
  lemma ConsumedGrows(s: Store, e: Event)
    requires SpentFlows(s.pending, s.history) && SpentCodes(s.codes, s.history) && SpentForms(s.forms, s.history)
    requires !e.Accepted? && !e.LoggedIn?
    ensures var h := s.history + [e];
            SpentFlows(s.pending, h) && SpentCodes(s.codes, h) && SpentForms(s.forms, h)
  {}

  lemma SpentGrows(s: Store, e: Event)
    requires Spent(s) && !e.Accepted? && !e.LoggedIn? && (e.CodeIssued? ==> e.origin.Automatic?)
    ensures Spent(s.(history := s.history + [e]))
  {
    forall k | Vouched(s.history, k) ensures Vouched(s.history + [e], k) {
      VouchedGrows(s.history, e, k);
    }
  }

  lemma VouchedGrows(h: seq<Event>, e: Event, k: Text)
    requires Vouched(h, k)
    ensures Vouched(h + [e], k)
  {
    if Authorized(k) !in h {
      var x, b :| x in h && x.CodeIssued? && x.code == k && x.origin.FromLogin?
          && LoggedIn(x.origin.csrf, b, true) in h;
      assert x in h + [e] && LoggedIn(x.origin.csrf, b, true) in h + [e];
    }
  }

  lemma FreshGrows(h: seq<Event>, issued: nat, e: Event, issued': nat)
    requires Fresh(h, issued) && issued <= issued'
    requires forall t :: t in Drawn(e) ==> t.Opaque? && t.n < issued'
    ensures Fresh(h + [e], issued')
  {}

  /** Logging an event that consumes nothing. */
  lemma LogKeeps(s: Store, e: Event, issued': nat)
    requires Kept(s) && Justified(s.history, e) && s.issued <= issued'
    requires forall t :: t in Drawn(e) ==> t.Opaque? && t.n < issued'
    requires !e.Accepted? && !e.LoggedIn? && (e.CodeIssued? ==> e.origin.Automatic?)
    ensures Kept(s.(history := s.history + [e], issued := issued'))
  {
    TracedGrows(s.history, e);
    RowsGrow(s, e);
    SpentGrows(s, e);
    FreshGrows(s.history, s.issued, e, issued');
  }

  lemma DrawKeeps(s: Store)
    requires Kept(s)
    ensures Kept(Draw(s))
  {}

  lemma RowsPruned(s: Store, now: int)
    requires Rows(s)
    ensures Rows(Prune(s, now))
  {
    hide SessionIn, CodeIn;
  }

  lemma SpentPruned(s: Store, now: int)
    requires Spent(s)
    ensures Spent(Prune(s, now))
  {
    hide LoginsOf, Vouched;
  }

  lemma PruneKeeps(s: Store, now: int)
    requires Kept(s)
    ensures Kept(Prune(s, now))
  {
    hide Traced, Rows, Spent, Fresh;
    RowsPruned(s, now);
    SpentPruned(s, now);
  }

  /** Latching the failure forgets nothing that was consumed. */
  lemma LatchKeeps(s: Store, sequence: nat)
    requires Kept(s)
    ensures Kept(s.(sequence := sequence)) && Kept(s.(sequence := sequence, failed := true))
  {
    hide Traced, BrowserRows, IdpBrowserRows, FlowRows, FormRows, CodeRows, AccountRows;
    hide SpentFlows, SpentForms, SpentCodes, VouchedRows, LoginsOf, Fresh;
  }

  lemma BindRpKeeps(s: Store, at: int)
    requires Kept(s)
    ensures Kept(BindRp(s, at))
  {
    hide Traced, IdpBrowserRows, FlowRows, FormRows, CodeRows, AccountRows;
    hide SpentFlows, SpentForms, SpentCodes, VouchedRows, LoginsOf;
    LogKeeps(s, Bound(Opaque(s.issued), at), s.issued + 1);
  }

  lemma BindIdpKeeps(s: Store, at: int)
    requires Kept(s)
    ensures Kept(BindIdp(s, at))
  {
    hide Traced, BrowserRows, FlowRows, FormRows, CodeRows, AccountRows;
    hide SpentFlows, SpentForms, SpentCodes, VouchedRows, LoginsOf;
    LogKeeps(s, IdpBound(Opaque(s.issued), at), s.issued + 1);
  }

  lemma FlowAdded(m: Table<Flow>, h: seq<Event>, issued: nat, f: Flow, at: int)
    requires FlowRows(m, h) && SpentFlows(m, h) && Fresh(h, issued)
    ensures var k := Opaque(issued);
            var m', h' := m[k := Row(f, at + FLOW_TTL)], h + [Started(k, f.browser, f.verifier, at)];
            FlowRows(m', h') && SpentFlows(m', h')
  {}

  lemma FlowJustified(s: Store, browser: Text, at: int)
    requires BrowserRows(s.browsers, s.history) && Fresh(s.history, s.issued) && browser in s.browsers
    ensures Justified(s.history, Started(Opaque(s.issued), browser, Opaque(s.issued + 1), at))
  {}

  lemma StartFlowKeeps(s: Store, browser: Text, at: int)
    requires Kept(s) && browser in s.browsers
    ensures Kept(StartFlow(s, browser, at))
  {
    hide Traced, Justified, BrowserRows, IdpBrowserRows, FlowRows, FormRows, CodeRows, AccountRows;
    hide SpentFlows, SpentForms, SpentCodes, VouchedRows, LoginsOf, Fresh;
    FlowJustified(s, browser, at);
    LogKeeps(s, Started(Opaque(s.issued), browser, Opaque(s.issued + 1), at), s.issued + 2);
    FlowAdded(s.pending, s.history, s.issued, Flow(browser, Opaque(s.issued + 1)), at);
  }

  lemma FormAdded(m: Table<Form>, h: seq<Event>, issued: nat, f: Form, at: int)
    requires FormRows(m, h) && SpentForms(m, h) && Fresh(h, issued)
    ensures var k := Opaque(issued);
            var m', h' := m[k := Row(f, at + FLOW_TTL)], h + [FormServed(k, f.browser, f.state, f.challenge, at)];
            FormRows(m', h') && SpentForms(m', h')
  {}

  lemma FormJustified(s: Store, f: Form, at: int)
    requires IdpBrowserRows(s.idpBrowsers, s.history) && Fresh(s.history, s.issued) && f.browser in s.idpBrowsers
    ensures Justified(s.history, FormServed(Opaque(s.issued), f.browser, f.state, f.challenge, at))
  {}

  lemma ServeFormKeeps(s: Store, browser: Text, state: Text, challenge: Text, at: int)
    requires Kept(s) && browser in s.idpBrowsers
    ensures Kept(ServeForm(s, browser, state, challenge, at))
  {
    hide Traced, Justified, BrowserRows, IdpBrowserRows, FlowRows, FormRows, CodeRows, AccountRows;
    hide SpentFlows, SpentForms, SpentCodes, VouchedRows, LoginsOf, Fresh;
    FormJustified(s, Form(browser, state, challenge), at);
    LogKeeps(s, FormServed(Opaque(s.issued), browser, state, challenge, at), s.issued + 1);
    FormAdded(s.forms, s.history, s.issued, Form(browser, state, challenge), at);
  }

  // Codes

  lemma CodeAdded(m: Table<Code>, h: seq<Event>, issued: nat, o: Origin, c: Code, at: int)
    requires CodeRows(m, h) && SpentCodes(m, h) && Fresh(h, issued)
    ensures var k := Opaque(issued);
            var m', h' := m[k := Row(c, at + FLOW_TTL)], h + [CodeIssued(k, o, c.state, c.challenge, at)];
            CodeRows(m', h') && SpentCodes(m', h')
  {}

  lemma LoginCodeVouched(m: Table<Code>, h: seq<Event>, csrf: Text, b: Text, code: Text, row: Row<Code>, at: int)
    requires VouchedRows(m, h) && LoginsOf(h) && LoggedIn(csrf, b, true) in h
    ensures var h' := h + [CodeIssued(code, FromLogin(csrf), row.value.state, row.value.challenge, at)];
            VouchedRows(m[code := row], h') && LoginsOf(h')
  {
    var e := CodeIssued(code, FromLogin(csrf), row.value.state, row.value.challenge, at);
    assert e in h + [e] && LoggedIn(csrf, b, true) in h + [e];
    forall k | k in m ensures Vouched(h + [e], k) { VouchedGrows(h, e, k); }
  }

  /** A code for an accepted login that has not had one yet. */
  lemma LoginCodeKeeps(s: Store, csrf: Text, b: Text, c: Code, served: int, at: int)
    requires Kept(s) && !s.failed
    requires FormServed(csrf, b, c.state, c.challenge, served) in s.history && LoggedIn(csrf, b, true) in s.history
    requires forall x :: x in s.history && x.CodeIssued? ==> x.origin != FromLogin(csrf)
    ensures Kept(IssueCode(s, FromLogin(csrf), c.state, c.challenge, at))
  {
    var e := CodeIssued(Opaque(s.issued), FromLogin(csrf), c.state, c.challenge, at);
    assert Justified(s.history, e) by { hide Traced, Rows, Spent; }
    hide Traced, Justified, BrowserRows, IdpBrowserRows, FlowRows, FormRows, CodeRows, AccountRows;
    hide SpentFlows, SpentForms, SpentCodes, VouchedRows, LoginsOf, Fresh;
    TracedGrows(s.history, e);
    RowsGrow(s, e);
    FreshGrows(s.history, s.issued, e, s.issued + 1);
    CodeAdded(s.codes, s.history, s.issued, FromLogin(csrf), c, at);
    LoginCodeVouched(s.codes, s.history, csrf, b, Opaque(s.issued), Row(c, at + FLOW_TTL), at);
    ConsumedGrows(s, e);
  }

  lemma CodeJustified(h: seq<Event>, issued: nat, c: Code, at: int)
    requires Fresh(h, issued)
    ensures Justified(h, CodeIssued(Opaque(issued), Automatic, c.state, c.challenge, at))
  {
    forall x | x in h && x.CodeIssued? ensures x.code != Opaque(issued) { assert x.code in Drawn(x); }
  }

  /** Issuing a code automatically and journalling it; the code waits unvouched only if the journal fails. */
  lemma AutoAuthorizeKeeps(s: Store, c: Code, at: int, recordAt: int, synced: bool)
    requires Kept(s) && !s.failed
    ensures Kept(AutoAuthorize(s, c.state, c.challenge, at, recordAt, synced))
  {
    hide Traced, Justified, BrowserRows, IdpBrowserRows, FlowRows, FormRows, CodeRows, AccountRows;
    hide SpentFlows, SpentForms, SpentCodes, VouchedRows, LoginsOf, Fresh;
    var code, row := Opaque(s.issued), Row(c, at + FLOW_TTL);
    var e := CodeIssued(code, Automatic, c.state, c.challenge, at);
    var s1 := s.(history := s.history + [e], issued := s.issued + 1);
    CodeJustified(s.history, s.issued, c, at);
    LogKeeps(s, e, s.issued + 1);
    CodeAdded(s.codes, s.history, s.issued, Automatic, c, at);
    assert e in s1.history;
    hide Kept;
    AuthorizedKeeps(s1, Authorized(code), row);
  }

  lemma AuthorizedJustified(h: seq<Event>, r: Event)
    requires r.Authorized? && exists st, ch, at :: CodeIssued(r.code, Automatic, st, ch, at) in h
    ensures Justified(h, r)
  { }

  lemma AuthorizedVouches(m: Table<Code>, h: seq<Event>, r: Event, row: Row<Code>)
    requires VouchedRows(m, h) && r.Authorized?
    ensures VouchedRows(m[r.code := row], h + [r])
  {
    assert r in h + [r];
    forall k | k in m ensures Vouched(h + [r], k) { VouchedGrows(h, r, k); }
  }

  lemma AuthorizedKeeps(s: Store, r: Event, row: Row<Code>)
    requires Kept(s) && !s.failed && r.Authorized?
    requires CodeRows(s.codes[r.code := row], s.history) && SpentCodes(s.codes[r.code := row], s.history)
    requires exists st, ch, at :: CodeIssued(r.code, Automatic, st, ch, at) in s.history
    ensures Kept(s.(codes := s.codes[r.code := row], failed := true))
    ensures Kept(s.(codes := s.codes[r.code := row], history := s.history + [r]))
  {
    hide Traced, Justified, BrowserRows, IdpBrowserRows, FlowRows, FormRows, CodeRows, AccountRows;
    hide SpentFlows, SpentForms, SpentCodes, LoginsOf, Fresh, VouchedRows;
    AuthorizedJustified(s.history, r);
    AuthorizedVouches(s.codes, s.history, r, row);
    LogKeeps(s.(codes := s.codes[r.code := row], failed := true), r, s.issued);
  }

  // Logins

  lemma FormSpent(m: Table<Form>, h: seq<Event>, issued: nat, csrf: Text, b: Text, ok: bool)
    requires FormRows(m, h) && SpentForms(m, h) && Fresh(h, issued) && csrf in m && b == m[csrf].value.browser
    ensures Justified(h, LoggedIn(csrf, b, ok))
    ensures var h' := h + [LoggedIn(csrf, b, ok)];
            FormRows(m - {csrf}, h') && SpentForms(m - {csrf}, h') && Fresh(h', issued)
    ensures exists st, ch, at :: FormServed(csrf, b, st, ch, at) in h
  {
    var f := m[csrf];
    assert FormServed(csrf, b, f.value.state, f.value.challenge, f.expires - FLOW_TTL) in h;
  }

  lemma LoginKeepsRest(s: Store, e: Event)
    requires Spent(s) && e.LoggedIn?
    ensures var h := s.history + [e];
            SpentFlows(s.pending, h) && SpentCodes(s.codes, h) && LoginsOf(h)
            && (!s.failed ==> VouchedRows(s.codes, h))
  {
    hide SpentForms;
    if !s.failed {
      forall k | k in s.codes ensures Vouched(s.history + [e], k) { VouchedGrows(s.history, e, k); }
    }
  }

  lemma SpendFormKeeps(s: Store, csrf: Text)
    requires Kept(s)
    ensures Kept(SpendForm(s, csrf))
  {
    hide Traced, BrowserRows, IdpBrowserRows, FlowRows, CodeRows, AccountRows;
    hide SpentFlows, SpentCodes, VouchedRows, LoginsOf, Fresh;
  }

  /** Consuming a served form and journalling the attempt. */
  lemma LoginKeeps(s: Store, csrf: Text, ok: bool)
    requires Kept(s) && csrf in s.forms
    ensures var e := LoggedIn(csrf, s.forms[csrf].value.browser, ok);
            Kept(s.(forms := s.forms - {csrf}, history := s.history + [e]))
  {
    hide Traced, Justified, BrowserRows, IdpBrowserRows, FlowRows, FormRows, CodeRows, AccountRows;
    hide SpentFlows, SpentForms, SpentCodes, VouchedRows, LoginsOf, Fresh;
    var b := s.forms[csrf].value.browser;
    var e := LoggedIn(csrf, b, ok);
    FormSpent(s.forms, s.history, s.issued, csrf, b, ok);
    TracedGrows(s.history, e);
    RowsGrow(s, e);
    LoginKeepsRest(s, e);
  }

  // Callbacks

  /** What the callback handler has checked when it accepts. */
  ghost predicate Exchangeable(s: Store, a: Acceptance) {
    && a.state in s.pending && a.code in s.codes && a.browser in s.browsers
    && s.pending[a.state] == Row(Flow(a.browser, a.verifier), a.started + FLOW_TTL)
    && s.codes[a.code] == Row(Code(a.state, Challenge(a.verifier)), a.coded + FLOW_TTL)
    && s.browsers[a.browser].expires == a.bound + BINDING_TTL && a.checked < a.started + FLOW_TTL
    && a.codeChecked < a.coded + FLOW_TTL && a.boundChecked < a.bound + BINDING_TTL && a.session == Opaque(s.issued)
  }

  lemma AcceptJustified(s: Store, a: Acceptance)
    requires Kept(s) && !s.failed && Exchangeable(s, a)
    ensures Justified(s.history, Accepted(a))
    ensures forall t :: t in Drawn(Accepted(a)) ==> t.Opaque? && t.n <= s.issued
  {
    hide Traced, IdpBrowserRows, FormRows, AccountRows, SpentForms, LoginsOf, Vouched, CodeIn;
    var h := s.history;
    assert Started(a.state, a.browser, a.verifier, a.started) in h;
    assert CodeIn(h, a.code, a.state, Challenge(a.verifier), a.coded);
    CodeDrawn(h, s.issued, a.code, a.state, Challenge(a.verifier), a.coded);
    assert a.state in Drawn(Started(a.state, a.browser, a.verifier, a.started));
  }

  lemma CodeDrawn(h: seq<Event>, issued: nat, code: Text, state: Text, challenge: Text, at: int)
    requires Fresh(h, issued) && CodeIn(h, code, state, challenge, at)
    ensures code.Opaque? && code.n < issued
  {
    var o :| CodeIssued(code, o, state, challenge, at) in h;
    assert code in Drawn(CodeIssued(code, o, state, challenge, at));
  }

  lemma SpendingKeeps(s: Store, state: Text, code: Text)
    requires Kept(s)
    ensures Kept(s.(pending := s.pending - {state}, codes := s.codes - {code}))
  {
    hide Traced, BrowserRows, IdpBrowserRows, FormRows, AccountRows;
    hide SpentForms, LoginsOf, Fresh, Vouched, CodeIn;
  }

  lemma AcceptedSpent(s: Store, a: Acceptance)
    requires Spent(s) && !s.failed
    ensures var t :=
            s.(pending := s.pending - {a.state}, codes := s.codes - {a.code}, history := s.history + [Accepted(a)]);
            Spent(t)
  {
    var e := Accepted(a);
    forall k | k in s.codes ensures Vouched(s.history + [e], k) { VouchedGrows(s.history, e, k); }
    hide Vouched;
  }

  lemma AccountAdded(m: Table<Text>, h: seq<Event>, a: Acceptance)
    requires AccountRows(m, h)
    ensures AccountRows(m[a.session := Row(a.browser, a.issued + FLOW_TTL)], h + [Accepted(a)])
  {
    assert Accepted(a) in h + [Accepted(a)];
    hide SessionIn;
    forall k | k in m ensures SessionIn(h + [Accepted(a)], k, m[k].value, m[k].expires - FLOW_TTL) {
      SessionGrows(h, Accepted(a), k, m[k].value, m[k].expires - FLOW_TTL);
    }
    SessionNew(h, a);
  }

  lemma SessionGrows(h: seq<Event>, e: Event, k: Text, b: Text, at: int)
    requires SessionIn(h, k, b, at)
    ensures SessionIn(h + [e], k, b, at)
  {
    var a :| Accepted(a) in h && a.session == k && a.browser == b && a.issued == at;
    assert Accepted(a) in h + [e];
  }

  lemma SessionNew(h: seq<Event>, a: Acceptance)
    ensures SessionIn(h + [Accepted(a)], a.session, a.browser, a.issued)
  {
    assert Accepted(a) in h + [Accepted(a)];
  }

  lemma ReceiptKeeps(s: Store, a: Acceptance)
    requires Kept(s) && !s.failed && Exchangeable(s, a)
    ensures Kept(s.(pending := s.pending - {a.state}, codes := s.codes - {a.code},
                    history := s.history + [Accepted(a)], issued := s.issued + 1,
                    accounts := s.accounts[a.session := Row(a.browser, a.issued + FLOW_TTL)]))
  {
    hide Traced, Justified, BrowserRows, IdpBrowserRows, FlowRows, FormRows, CodeRows, AccountRows;
    hide SpentFlows, SpentForms, SpentCodes, VouchedRows, LoginsOf, Fresh;
    AcceptJustified(s, a);
    SpendingKeeps(s, a.state, a.code);
    RowsGrow(s.(pending := s.pending - {a.state}, codes := s.codes - {a.code}), Accepted(a));
    TracedGrows(s.history, Accepted(a));
    AcceptedSpent(s, a);
    FreshGrows(s.history, s.issued, Accepted(a), s.issued + 1);
    AccountAdded(s.accounts, s.history, a);
  }

  lemma AcceptCallbackKeeps(s: Store, a: Acceptance, recordAt: int, synced: bool)
    requires Kept(s) && (!s.failed ==> Exchangeable(s, a))
    ensures Kept(AcceptCallback(s, a, recordAt, synced))
  {
    hide Kept, Exchangeable;
    SpendingKeeps(s, a.state, a.code);
    var spent := s.(pending := s.pending - {a.state}, codes := s.codes - {a.code});
    if !s.failed && !synced {
      LatchKeeps(spent, s.sequence + 1);
    } else if !s.failed {
      ReceiptKeeps(s, a);
      JournalIrrelevant(s.(pending := spent.pending, codes := spent.codes,
                    history := s.history + [Accepted(a)], issued := s.issued + 1,
                    accounts := s.accounts[a.session := Row(a.browser, a.issued + FLOW_TTL)]),
                    AcceptCallback(s, a, recordAt, synced));
    }
  }

  /** The invariant does not look at the journal. */
  lemma JournalIrrelevant(s: Store, t: Store)
    requires Kept(s) && t == s.(journal := t.journal, sequence := t.sequence)
    ensures Kept(t)
  {
    hide Traced, BrowserRows, IdpBrowserRows, FlowRows, FormRows, CodeRows, AccountRows;
    hide SpentFlows, SpentForms, SpentCodes, VouchedRows, LoginsOf, Fresh;
  }

  lemma ReadJustified(s: Store, session: Text, checked: int, boundChecked: int)
    requires AccountRows(s.accounts, s.history) && BrowserRows(s.browsers, s.history)
    requires LiveAt(s.accounts, session, checked) && LiveAt(s.browsers, s.accounts[session].value, boundChecked)
    ensures Justified(s.history, Read(session, s.accounts[session].value, checked, boundChecked))
  {
    var row := s.accounts[session];
    assert SessionIn(s.history, session, row.value, row.expires - FLOW_TTL);
    assert Bound(row.value, s.browsers[row.value].expires - BINDING_TTL) in s.history;
  }

  lemma ReadKeeps(s: Store, session: Text, checked: int, boundChecked: int)
    requires Kept(s) && LiveAt(s.accounts, session, checked)
             && LiveAt(s.browsers, s.accounts[session].value, boundChecked)
    ensures Kept(s.(history := s.history + [Read(session, s.accounts[session].value, checked, boundChecked)]))
  {
    hide Traced, Justified, BrowserRows, IdpBrowserRows, FlowRows, FormRows, CodeRows, AccountRows, Spent, Fresh;
    ReadJustified(s, session, checked, boundChecked);
    LogKeeps(s, Read(session, s.accounts[session].value, checked, boundChecked), s.issued);
  }
}
