/** Where every reply comes from, over every run of the query pipelines. */
module Sources {
  import opened Dns
  import opened Edns
  import opened ResponseCache
  import opened Policy
  import opened Serving
  import opened Decisions
  import Lists

  /** A run, by what the server is, the rules it starts with and its events. */
  datatype History = History(setup: Setup, init: Rules, events: seq<Event>)

  ghost function At(r: History, i: nat): State
    requires i <= |r.events|
  {
    Run(r.setup, r.init, r.events[..i])
  }

  /** Event i is a step of this handler, which serves this query. */
  ghost predicate StepOf(r: History, i: nat, h: nat, mode: Mode, query: Msg) {
    && i < |r.events| && r.events[i].Step? && r.events[i].h == h
    && h in At(r, i).inFlight && At(r, i).inFlight[h].mode == mode && At(r, i).inFlight[h].query == query
  }

  ghost function StageAt(r: History, i: nat, h: nat): Stage
    requires i <= |r.events| && h in At(r, i).inFlight
  {
    At(r, i).inFlight[h].stage
  }

  /** Answered on the spot: not one question, the discovery zone, or not admitted by a list at that moment. */
  ghost predicate OnTheSpot(r: History, i: nat, h: nat, mode: Mode, query: Msg, m: Msg) {
    && StepOf(r, i, h, mode, query)
    && var rules := At(r, i).rules;
    || (StageAt(r, i, h).Checking? && LocallyFirst(r.setup, mode, rules, query, m))
    || (StageAt(r, i, h).Blocking? && !BlocklistAdmits(rules, query) && Answers(query, m, 3))
  }

  ghost predicate LocallyFirst(setup: Setup, mode: Mode, rules: Rules, query: Msg, m: Msg) {
    if |query.question| != 1 then Answers(query, m, 1)
    else if mode.Dot? && setup.ddr(query).Some? then m == setup.ddr(query).value
    else !AllowlistAdmits(rules, query) && Answers(query, m, 5)
  }

  /** From the cache: the entry under the query's key, which was fresh at that moment, under the query's ID. */
  ghost predicate FromCache(r: History, i: nat, h: nat, mode: Mode, query: Msg, m: Msg) {
    && StepOf(r, i, h, mode, query) && StageAt(r, i, h).LookingUp?
    && FreshEntry(r.setup, At(r, i).view, query, r.events[i].now) && m == At(r, i).view[CacheKey(r.setup.mn, query)].msg.(id := query.id)
  }

  ghost predicate Missed(r: History, i: nat, h: nat, mode: Mode, query: Msg) {
    && StepOf(r, i, h, mode, query) && StageAt(r, i, h).LookingUp?
    && !FreshEntry(r.setup, At(r, i).view, query, r.events[i].now)
  }

  /** From upstream, after a miss: the reply, a stale entry or SERVFAIL. */
  ghost predicate FromUpstream(r: History, i: nat, h: nat, mode: Mode, query: Msg, m: Msg) {
    && StepOf(r, i, h, mode, query) && StageAt(r, i, h).Resolving? && (exists k: nat :: k < i && Missed(r, k, h, mode, query))
    && Resolved(r.setup, mode, At(r, i).view, query, r.events[i].up, r.events[i].now, m)
  }

  /** Refused for one name of an answer that came from cache or upstream before. */
  ghost predicate Vetoed(r: History, i: nat, h: nat, mode: Mode, query: Msg, m: Msg) {
    && StepOf(r, i, h, mode, query) && StageAt(r, i, h).Screening?
    && var resp, rules := StageAt(r, i, h).resp, At(r, i).rules;
    && rules.allow.Some? && Answers(query, m, 5) && (exists rr :: rr in resp.answer && !RecordAllowed(rules, rr))
    && Got(r, i, h, mode, query, resp)
  }

  /** This was got from cache or upstream before event n. */
  ghost predicate Got(r: History, n: nat, h: nat, mode: Mode, query: Msg, m: Msg) {
    exists i: nat :: i < n && (FromCache(r, i, h, mode, query, m) || FromUpstream(r, i, h, mode, query, m))
  }

  ghost predicate Given(r: History, h: nat, mode: Mode, query: Msg, m: Msg) {
    || (exists i: nat :: OnTheSpot(r, i, h, mode, query, m))
    || Got(r, |r.events|, h, mode, query, m)
    || (exists i: nat :: Vetoed(r, i, h, mode, query, m))
  }

  ghost predicate HasMissed(r: History, h: nat, mode: Mode, query: Msg) {
    exists k: nat :: k < |r.events| && Missed(r, k, h, mode, query)
  }

  /** The stage of a handler says where its reply comes from. */
  ghost predicate Explained(r: History, h: nat, x: Handler) {
    match x.stage
    case Counting => HasMissed(r, h, x.mode, x.query)
    case Resolving => HasMissed(r, h, x.mode, x.query)
    case Storing(m) => Got(r, |r.events|, h, x.mode, x.query, m)
    case Screening(m, _, _) => Got(r, |r.events|, h, x.mode, x.query, m)
    case Sending(m, _) => Given(r, h, x.mode, x.query, m)
    case _ => true
  }

  /** A reply that was sent is what the handler was given, as it looks on the wire, and it was delivered. */
  ghost predicate SentIsGiven(r: History, note: Note)
    requires note.Sent?
  {
    exists m :: Given(r, note.h, note.mode, note.query, m) && note.reply == Wire(r.setup, note.mode, note.query, m)
  }

  function Longer(r: History, e: Event): History {
    r.(events := r.events + [e])
  }

  // ---- what was so stays so

  lemma SameBefore(r: History, e: Event, i: nat)
    requires i <= |r.events|
    ensures At(Longer(r, e), i) == At(r, i) && (i < |r.events| ==> Longer(r, e).events[i] == r.events[i])
  {
    assert Longer(r, e).events[..i] == r.events[..i];
  }

  lemma StepStays(r: History, e: Event, i: nat, h: nat, mode: Mode, query: Msg)
    requires i < |r.events|
    ensures StepOf(Longer(r, e), i, h, mode, query) <==> StepOf(r, i, h, mode, query)
    ensures StepOf(r, i, h, mode, query) ==> StageAt(Longer(r, e), i, h) == StageAt(r, i, h)
  {
    hide At;
    SameBefore(r, e, i);
  }

  lemma GotStays(r: History, e: Event, n: nat, h: nat, mode: Mode, query: Msg, m: Msg)
    requires n <= |r.events| && Got(r, n, h, mode, query, m)
    ensures Got(Longer(r, e), n, h, mode, query, m)
  {
    hide At, StepOf, StageAt, FreshEntry, Resolved, CacheKey;
    var i: nat :| i < n && (FromCache(r, i, h, mode, query, m) || FromUpstream(r, i, h, mode, query, m));
    SameBefore(r, e, i);
    StepStays(r, e, i, h, mode, query);
    if FromUpstream(r, i, h, mode, query, m) {
      var k: nat :| k < i && Missed(r, k, h, mode, query);
      MissedStays(r, e, k, h, mode, query);
      assert FromUpstream(Longer(r, e), i, h, mode, query, m);
    } else {
      assert FromCache(Longer(r, e), i, h, mode, query, m);
    }
  }

  lemma MissedStays(r: History, e: Event, k: nat, h: nat, mode: Mode, query: Msg)
    requires k < |r.events| && Missed(r, k, h, mode, query)
    ensures Missed(Longer(r, e), k, h, mode, query)
  {
    hide At, StepOf, StageAt, FreshEntry;
    SameBefore(r, e, k);
    StepStays(r, e, k, h, mode, query);
  }

  lemma OnTheSpotStays(r: History, e: Event, i: nat, h: nat, mode: Mode, query: Msg, m: Msg)
    requires OnTheSpot(r, i, h, mode, query, m)
    ensures OnTheSpot(Longer(r, e), i, h, mode, query, m)
  {
    hide At, StageAt, LocallyFirst, BlocklistAdmits;
    SameBefore(r, e, i);
    StepStays(r, e, i, h, mode, query);
  }

  lemma VetoedStays(r: History, e: Event, i: nat, h: nat, mode: Mode, query: Msg, m: Msg)
    requires Vetoed(r, i, h, mode, query, m)
    ensures Vetoed(Longer(r, e), i, h, mode, query, m)
  {
    hide At, StageAt, Got, RecordAllowed;
    SameBefore(r, e, i);
    StepStays(r, e, i, h, mode, query);
    GotStays(r, e, i, h, mode, query, StageAt(r, i, h).resp);
  }

  lemma GotLater(r: History, n: nat, h: nat, mode: Mode, query: Msg, m: Msg)
    requires n <= |r.events| && Got(r, n, h, mode, query, m)
    ensures Got(r, |r.events|, h, mode, query, m)
  {
    hide FromCache, FromUpstream;
  }

  lemma GivenStays(r: History, e: Event, h: nat, mode: Mode, query: Msg, m: Msg)
    requires Given(r, h, mode, query, m)
    ensures Given(Longer(r, e), h, mode, query, m)
  {
    hide OnTheSpot, Vetoed, Got;
    if i: nat :| OnTheSpot(r, i, h, mode, query, m) {
      OnTheSpotStays(r, e, i, h, mode, query, m);
    } else if i: nat :| Vetoed(r, i, h, mode, query, m) {
      VetoedStays(r, e, i, h, mode, query, m);
    } else {
      GotStays(r, e, |r.events|, h, mode, query, m);
      GotLater(Longer(r, e), |r.events|, h, mode, query, m);
    }
  }

  lemma HasMissedStays(r: History, e: Event, h: nat, mode: Mode, query: Msg)
    requires HasMissed(r, h, mode, query)
    ensures HasMissed(Longer(r, e), h, mode, query)
  {
    hide Missed;
    var k: nat :| k < |r.events| && Missed(r, k, h, mode, query);
    MissedStays(r, e, k, h, mode, query);
  }

  lemma GotStill(r: History, e: Event, h: nat, mode: Mode, query: Msg, m: Msg)
    requires Got(r, |r.events|, h, mode, query, m)
    ensures Got(Longer(r, e), |r.events| + 1, h, mode, query, m)
  {
    hide Got;
    GotStays(r, e, |r.events|, h, mode, query, m);
    GotLater(Longer(r, e), |r.events|, h, mode, query, m);
  }

  lemma ExplainedStays(r: History, e: Event, h: nat, x: Handler)
    requires Explained(r, h, x)
    ensures Explained(Longer(r, e), h, x)
  {
    hide Given, Got, HasMissed;
    match x.stage
    case Counting => HasMissedStays(r, e, h, x.mode, x.query);
    case Resolving => HasMissedStays(r, e, h, x.mode, x.query);
    case Storing(m) => GotStill(r, e, h, x.mode, x.query, m);
    case Screening(m, _, _) => GotStill(r, e, h, x.mode, x.query, m);
    case Sending(m, _) => GivenStays(r, e, h, x.mode, x.query, m);
    case _ =>
  }

  // ---- one step

  lemma NowStep(r: History, e: Event, s: State, x: Handler)
    requires e.Step? && s == Run(r.setup, r.init, r.events) && e.h in s.inFlight && x == s.inFlight[e.h]
    ensures var l, n := Longer(r, e), |r.events|;
            && At(l, n) == s && l.events[n] == e && StepOf(l, n, e.h, x.mode, x.query) && StageAt(l, n, e.h) == x.stage
            && Run(l.setup, l.init, l.events) == Advance(r.setup, s, e.h, e.now, e.up, e.victim, e.wrote)
  {
    hide Advance;
    var l, n := Longer(r, e), |r.events|;
    assert l.events[..n] == r.events;
  }

  ghost predicate Now(r: History, e: Event, s: State, x: Handler, t: State) {
    && e.Step? && s == Run(r.setup, r.init, r.events) && e.h in s.inFlight && x == s.inFlight[e.h]
    && t == Advance(r.setup, s, e.h, e.now, e.up, e.victim, e.wrote)
  }

  /** The allowlist. */
  lemma CheckExplains(r: History, e: Event, s: State, x: Handler, t: State)
    requires Now(r, e, s, x, t) && x.stage.Checking?
    ensures e.h in t.inFlight && Explained(Longer(r, e), e.h, t.inFlight[e.h])
  {
    var l, n := Longer(r, e), |r.events|;
    NowStep(r, e, s, x);
    RefusalIff(s.rules, x.query);
    hide Run, At, RefusalByAllow, RefusalByBlock, Refusal, AllowlistAdmits, BlocklistAdmits, Got, Vetoed, StepOf, StageAt;
    var local := LocalFirst(r.setup, x.mode, s.rules, x.query);
    assert t.inFlight[e.h] == x.(stage := if local.Some? then Sending(local.value, true) else Blocking);
    if local.Some? {
      assert LocallyFirst(r.setup, x.mode, s.rules, x.query, local.value);
      assert OnTheSpot(l, n, e.h, x.mode, x.query, local.value);
    }
  }

  /** The blocklist. */
  lemma BlockExplains(r: History, e: Event, s: State, x: Handler, t: State)
    requires Now(r, e, s, x, t) && x.stage.Blocking?
    ensures e.h in t.inFlight && Explained(Longer(r, e), e.h, t.inFlight[e.h])
  {
    var l, n := Longer(r, e), |r.events|;
    NowStep(r, e, s, x);
    RefusalIff(s.rules, x.query);
    hide Run, At, RefusalByAllow, RefusalByBlock, Refusal, AllowlistAdmits, BlocklistAdmits, LocallyFirst, Got, Vetoed, StepOf, StageAt;
    var local := RefusalByBlock(s.rules, x.query);
    assert t.inFlight[e.h] == x.(stage := if local.Some? then Sending(local.value, true) else LookingUp);
    if local.Some? {
      assert OnTheSpot(l, n, e.h, x.mode, x.query, local.value);
    }
  }

  /** The cache. */
  lemma LookupExplains(r: History, e: Event, s: State, x: Handler, t: State)
    requires Now(r, e, s, x, t) && x.stage.LookingUp?
    ensures e.h in t.inFlight && Explained(Longer(r, e), e.h, t.inFlight[e.h])
  {
    var l, n := Longer(r, e), |r.events|;
    NowStep(r, e, s, x);
    FoundIs(r.setup, s.view, x.query, e.now);
    hide Run, At, Found, FreshEntry, CacheKey, StepOf, StageAt, FromUpstream, Given;
    var hit := Found(r.setup, s.view, x.query, e.now);
    assert t.inFlight[e.h] == x.(stage := if hit.Some? then Screening(hit.value.(id := x.query.id), 0, false) else Counting);
    if hit.Some? {
      assert FromCache(l, n, e.h, x.mode, x.query, hit.value.(id := x.query.id));
    } else {
      assert Missed(l, n, e.h, x.mode, x.query);
    }
  }

  /** The upstream. */
  lemma ResolveExplains(r: History, e: Event, s: State, x: Handler, t: State)
    requires Now(r, e, s, x, t) && x.stage.Resolving? && Explained(r, e.h, x)
    ensures e.h in t.inFlight && Explained(Longer(r, e), e.h, t.inFlight[e.h])
  {
    var l, n := Longer(r, e), |r.events|;
    NowStep(r, e, s, x);
    OutcomeIs(r.setup, x.mode, s.view, x.query, e.up, e.now);
    hide Run, At, Outcome, Offered, Resolved, StepOf, StageAt, FromCache, Missed, Given;
    var k: nat :| k < n && Missed(r, k, e.h, x.mode, x.query);
    MissedStays(r, e, k, e.h, x.mode, x.query);
    var m := Outcome(r.setup, x.mode, s.view, x.query, e.up, e.now);
    assert t.inFlight[e.h] == x.(stage := if Offered(r.setup, x.mode, e.up, m) then Storing(m) else Screening(m, 0, false));
    assert FromUpstream(l, n, e.h, x.mode, x.query, m);
  }

  lemma ScreenExplains(r: History, e: Event, s: State, x: Handler, t: State)
    requires Now(r, e, s, x, t) && x.stage.Screening? && Explained(r, e.h, x)
    ensures e.h in t.inFlight && Explained(Longer(r, e), e.h, t.inFlight[e.h])
  {
    var l, n, m := Longer(r, e), |r.events|, x.stage.resp;
    NowStep(r, e, s, x);
    assert Got(r, n, e.h, x.mode, x.query, m);
    hide Run, At, StepOf, StageAt, Got, OnTheSpot, Look, Explained;
    GotStays(r, e, n, e.h, x.mode, x.query, m);
    GotStill(r, e, e.h, x.mode, x.query, m);
    if s.rules.allow.None? || x.stage.at >= |m.answer| {
      assert t.inFlight[e.h] == x.(stage := Sending(m, false));
      assert Given(l, e.h, x.mode, x.query, m);
    } else {
      var y := Look(s.rules, x.query, m, x.stage.at, x.stage.owned);
      assert t.inFlight[e.h] == x.(stage := y);
      LookSays(s.rules, x.query, m, x.stage.at, x.stage.owned);
      if y.Sending? {
        assert Vetoed(l, n, e.h, x.mode, x.query, y.resp);
        assert Given(l, e.h, x.mode, x.query, y.resp);
      }
    }
    ByStage(l, e.h, t.inFlight[e.h]);
  }

  lemma ByStage(r: History, h: nat, x: Handler)
    requires match x.stage
             case Screening(m, _, _) => Got(r, |r.events|, h, x.mode, x.query, m)
             case Sending(m, _) => Given(r, h, x.mode, x.query, m)
             case _ => false
    ensures Explained(r, h, x)
  {
    hide Got, Given;
  }

  /** A look at a name goes on, or refuses with REFUSED because the record is not allowed. */
  lemma LookSays(rules: Rules, query: Msg, resp: Msg, at: nat, owned: bool)
    requires at < |resp.answer| && rules.allow.Some?
    ensures match Look(rules, query, resp, at, owned)
            case Screening(m, _, _) => m == resp
            case Sending(m, local) => !local && Answers(query, m, 5) && !RecordAllowed(rules, resp.answer[at])
            case _ => false
  {
    hide HasOpt, Lists.AllowedBySets;
  }

  /** What is left: counting and storing keep what was found, sending sends it. */
  lemma RestExplains(r: History, e: Event, s: State, x: Handler, t: State)
    requires Now(r, e, s, x, t) && (x.stage.Counting? || x.stage.Storing?) && Explained(r, e.h, x)
    ensures e.h in t.inFlight && Explained(Longer(r, e), e.h, t.inFlight[e.h])
  {
    hide Run, Got, HasMissed, Given;
    ExplainedStays(r, e, e.h, x);
  }

  lemma SendExplains(r: History, e: Event, s: State, x: Handler, t: State)
    requires Now(r, e, s, x, t) && x.stage.Sending? && Explained(r, e.h, x)
    ensures e.h !in t.inFlight
    ensures t.log == s.log || exists note :: t.log == s.log + [note] && note.Sent? && note.h == e.h && SentIsGiven(Longer(r, e), note)
  {
    hide Run, Given, Wire, Delivered, Bucketed;
    var m := x.stage.resp;
    GivenStays(r, e, e.h, x.mode, x.query, m);
    var note := Sent(e.h, x.mode, x.query, Wire(r.setup, x.mode, x.query, m));
    assert SentIsGiven(Longer(r, e), note);
    assert t.log == s.log || t.log == s.log + [note];
  }

  // ---- every run

  ghost predicate Accounted(r: History, s: State) {
    && (forall h :: h in s.inFlight ==> h < s.n.total && Explained(r, h, s.inFlight[h]))
    && (forall j :: 0 <= j < |s.log| && s.log[j].Sent? ==> s.log[j].h < s.n.total && s.log[j].h !in s.inFlight && SentIsGiven(r, s.log[j]))
    && Distinct(s.log)
  }

  /** No handler sends twice. */
  ghost predicate Distinct(log: seq<Note>) {
    forall i, j :: 0 <= i < j < |log| && log[i].Sent? && log[j].Sent? ==> log[i].h != log[j].h
  }

  lemma SentStays(r: History, e: Event, note: Note)
    requires note.Sent? && SentIsGiven(r, note)
    ensures SentIsGiven(Longer(r, e), note)
  {
    hide Given, Wire;
    var m :| Given(r, note.h, note.mode, note.query, m) && note.reply == Wire(r.setup, note.mode, note.query, m);
    GivenStays(r, e, note.h, note.mode, note.query, m);
  }

  /** What one step of a handler leaves alone. */
  lemma OneMoves(r: History, e: Event, s: State, x: Handler, t: State)
    requires Now(r, e, s, x, t)
    ensures t.n.total == s.n.total && t.inFlight.Keys <= s.inFlight.Keys && (forall h :: h in t.inFlight && h != e.h ==> t.inFlight[h] == s.inFlight[h])
    ensures !x.stage.Sending? ==> t.log == s.log || exists note :: t.log == s.log + [note] && !note.Sent?
  {
    hide Run, LocalFirst, RefusalByBlock, Found, Outcome, Offered, Look, Wire, Delivered;
    if x.stage.Screening? && s.rules.allow.Some? && x.stage.at < |x.stage.resp.answer| {
      assert !t.log[|s.log|].Sent?;
    }
  }

  lemma HandlerStep(r: History, e: Event, s: State, x: Handler, t: State)
    requires Now(r, e, s, x, t) && Accounted(r, s)
    ensures Accounted(Longer(r, e), t)
  {
    hide Run, Advance, Explained, SentIsGiven;
    OneMoves(r, e, s, x, t);
    match x.stage {
      case Checking => CheckExplains(r, e, s, x, t);
      case Blocking => BlockExplains(r, e, s, x, t);
      case LookingUp => LookupExplains(r, e, s, x, t);
      case Counting => RestExplains(r, e, s, x, t);
      case Resolving => ResolveExplains(r, e, s, x, t);
      case Storing(_) => RestExplains(r, e, s, x, t);
      case Screening(_, _, _) => ScreenExplains(r, e, s, x, t);
      case Sending(_, _) => SendExplains(r, e, s, x, t);
    }
    forall h | h in t.inFlight ensures h < t.n.total && Explained(Longer(r, e), h, t.inFlight[h]) {
      if h != e.h {
        ExplainedStays(r, e, h, s.inFlight[h]);
      }
    }
    forall j | 0 <= j < |s.log| && s.log[j].Sent? ensures SentIsGiven(Longer(r, e), s.log[j]) {
      SentStays(r, e, s.log[j]);
    }
  }

  /** Arrivals, reloads and deletions. */
  lemma OtherStep(r: History, e: Event, s: State, t: State)
    requires s == Run(r.setup, r.init, r.events) && t == Next(r.setup, s, e) && Accounted(r, s) && (e.Step? ==> e.h !in s.inFlight)
    ensures Accounted(Longer(r, e), t)
  {
    hide Run, Advance, Explained, SentIsGiven, Reloading;
    forall h | h in t.inFlight ensures h < t.n.total && Explained(Longer(r, e), h, t.inFlight[h]) {
      if h in s.inFlight && t.inFlight[h] == s.inFlight[h] {
        ExplainedStays(r, e, h, s.inFlight[h]);
      } else {
        Arrived(Longer(r, e), h, t.inFlight[h]);
      }
    }
    forall j | 0 <= j < |s.log| && s.log[j].Sent? ensures SentIsGiven(Longer(r, e), s.log[j]) {
      SentStays(r, e, s.log[j]);
    }
  }

  lemma Arrived(r: History, h: nat, x: Handler)
    requires x.stage.Checking?
    ensures Explained(r, h, x)
  {
  }

  lemma {:induction false} RunAccounts(r: History)
    ensures Accounted(r, Run(r.setup, r.init, r.events))
    decreases |r.events|
  {
    if r.events != [] {
      var n := |r.events| - 1;
      var before, e := r.(events := r.events[..n]), r.events[n];
      assert Longer(before, e) == r;
      RunAccounts(before);
      var s := Run(r.setup, r.init, before.events);
      var t := Run(r.setup, r.init, r.events);
      assert t == Next(r.setup, s, e);
      hide Run, Accounted, Advance;
      if e.Step? && e.h in s.inFlight {
        HandlerStep(before, e, s, s.inFlight[e.h], t);
      } else {
        OtherStep(before, e, s, t);
      }
    }
  }

  /** In every run every reply sent is, as it looks on the wire: an answer on the spot to a query that a check
      of its own did not admit; or the entry that was fresh when the handler looked; or, after a miss,
      what the upstream said, a stale entry or SERVFAIL; or REFUSED because of a record of the last two.
      No query is answered twice. */
  lemma EveryReplyHasItsSource(r: History, j: nat)
    requires var log := Run(r.setup, r.init, r.events).log; j < |log| && log[j].Sent?
    ensures var note := Run(r.setup, r.init, r.events).log[j];
            exists m ::
              && note.reply == Wire(r.setup, note.mode, note.query, m)
              && (|| (exists i: nat :: OnTheSpot(r, i, note.h, note.mode, note.query, m))
                  || (exists i: nat :: FromCache(r, i, note.h, note.mode, note.query, m))
                  || (exists i: nat :: FromUpstream(r, i, note.h, note.mode, note.query, m))
                  || (exists i: nat :: Vetoed(r, i, note.h, note.mode, note.query, m)))
    ensures var log := Run(r.setup, r.init, r.events).log; forall i :: 0 <= i < |log| && i != j && log[i].Sent? ==> log[i].h != log[j].h
  {
    hide Run, OnTheSpot, FromCache, FromUpstream, Vetoed, Wire, Explained;
    RunAccounts(r);
    var note := Run(r.setup, r.init, r.events).log[j];
    var m :| Given(r, note.h, note.mode, note.query, m) && note.reply == Wire(r.setup, note.mode, note.query, m);
  }

  // ---- what is counted on the way

  datatype Tally = Tally(arrived: nat, hits: nat, misses: nat, bypassed: nat, asked: nat)

  /** What one event adds: an arrival; a lookup by whether it finds a fresh entry, where Mode 2 without a cache
      does not count as a miss; a question to the upstream. */
  ghost function Added(setup: Setup, s: State, e: Event, t: Tally): Tally {
    if e.Arrive? then t.(arrived := t.arrived + 1)
    else if e.Step? && e.h in s.inFlight then
      var x := s.inFlight[e.h];
      if x.stage.LookingUp? then
        if FreshEntry(setup, s.view, x.query, e.now) then t.(hits := t.hits + 1)
        else if x.mode.Dot? && !setup.hasCache then t.(bypassed := t.bypassed + 1)
        else t.(misses := t.misses + 1)
      else if x.stage.Counting? then t.(asked := t.asked + 1)
      else t
    else t
  }

  ghost function Tallied(r: History): Tally
    decreases |r.events|
  {
    if r.events == [] then Tally(0, 0, 0, 0, 0)
    else
      var before := r.(events := r.events[..|r.events| - 1]);
      Added(r.setup, Run(r.setup, r.init, before.events), r.events[|r.events| - 1], Tallied(before))
  }

  ghost predicate Counts(n: Counters, t: Tally) {
    n.total == t.arrived && n.hits == t.hits && n.misses == t.misses && n.bypassed == t.bypassed && n.upstream == t.asked
  }

  lemma StepCounts(setup: Setup, s: State, e: Event, t: Tally)
    requires Counts(s.n, t)
    ensures Counts(Next(setup, s, e).n, Added(setup, s, e, t))
  {
    hide LocalFirst, RefusalByBlock, Found, FreshEntry, Outcome, Offered, Look, Wire, Delivered, Reloading, CacheKey;
    if e.Step? && e.h in s.inFlight && s.inFlight[e.h].stage.LookingUp? {
      FoundIs(setup, s.view, s.inFlight[e.h].query, e.now);
    }
  }

  /** In every run the counters are what happened: arrivals, lookups that found a fresh entry, lookups that did
      not, and questions to the upstream. */
  lemma {:induction false} CountersCount(r: History)
    ensures Counts(Run(r.setup, r.init, r.events).n, Tallied(r))
    decreases |r.events|
  {
    if r.events != [] {
      var n := |r.events| - 1;
      var before := r.(events := r.events[..n]);
      CountersCount(before);
      StepCounts(r.setup, Run(r.setup, r.init, before.events), r.events[n], Tallied(before));
      hide Next, Added, Counts;
    }
  }
}
