/** A handler that runs alone is one run of the interleaved machine: the programs of `Server` and the
    steps of `Serving` describe the same thing. */
module HandlerRuns {
  import opened Dns
  import opened ResponseCache
  import opened Policy
  import opened Serving
  import opened Server
  import CacheHistory

  ghost function After(setup: Setup, s: State, events: seq<Event>): State
    decreases |events|
  {
    if events == [] then s else After(setup, Next(setup, s, events[0]), events[1..])
  }

  ghost predicate Reaches(setup: Setup, s: State, t: State) {
    exists events :: After(setup, s, events) == t
  }

  lemma Stay(setup: Setup, s: State)
    ensures Reaches(setup, s, s)
  {
    assert After(setup, s, []) == s;
  }

  lemma Before(setup: Setup, s: State, e: Event, u: State, t: State)
    requires u == Next(setup, s, e) && Reaches(setup, u, t)
    ensures Reaches(setup, s, t)
  {
    hide Next;
    var events :| After(setup, u, events) == t;
    assert ([e] + events)[1..] == events;
    assert After(setup, s, [e] + events) == t;
  }

  /** What one handler's run brings along: the query, what the upstream said, the time, the write. */
  datatype Job = Job(h: nat, mode: Mode, query: Msg, up: Upstream, now: int, wrote: bool)

  /** Where a handler's run ends: the cache and the counters it leaves, its reply last in the log, no
      upstream answer in the log but its own, and every other handler untouched. */
  ghost predicate Done(u: State, t: State, b: Job, v': View, n': Counters, reply: Option<Msg>) {
    && t.view == v' && t.n == n' && t.rules == u.rules && t.inFlight == u.inFlight - {b.h}
    && (reply.Some? ==> t.log != [] && t.log[|t.log| - 1] == Sent(b.h, b.mode, b.query, reply.value))
    && forall note :: note in t.log && note.Answered? ==> note in u.log || (b.up.Replied? && note == OwnAnswer(b))
  }

  function OwnAnswer(b: Job): Note
    requires b.up.Replied?
  {
    Answered(b.h, b.mode, b.query, b.now, b.up.raw, b.up.verdict)
  }

  ghost predicate At(u: State, b: Job, stage: Stage) {
    b.h in u.inFlight && u.inFlight[b.h] == Handler(b.mode, b.query, stage)
  }

  function Go(b: Job, victim: string): Event {
    Step(b.h, b.now, b.up, victim, b.wrote)
  }

  /** A step that moves only this handler, logs at most this handler's note, and leads to where its run
      ends. */
  lemma Onward(setup: Setup, u: State, e: Event, next: State, t: State, b: Job, v': View, n': Counters, reply: Option<Msg>)
    requires next == Next(setup, u, e) && Reaches(setup, next, t) && Done(next, t, b, v', n', reply)
    requires next.rules == u.rules && next.inFlight - {b.h} == u.inFlight - {b.h}
    requires forall note :: note in next.log && note.Answered? ==> note in u.log || (b.up.Replied? && note == OwnAnswer(b))
    ensures Reaches(setup, u, t) && Done(u, t, b, v', n', reply)
  {
    hide Next, Reaches;
    Before(setup, u, e, next, t);
  }

  lemma FromSending(setup: Setup, u: State, b: Job, resp: Msg, local: bool, n': Counters, reply: Option<Msg>) returns (t: State)
    requires At(u, b, Sending(resp, local)) && Ends(setup, b.mode, u.n, n', b.query, resp, b.wrote, reply)
    ensures Reaches(setup, u, t) && Done(u, t, b, u.view, n', reply)
  {
    hide Wire, Delivered, Reaches;
    t := Next(setup, u, Go(b, ""));
    Stay(setup, t);
    Before(setup, u, Go(b, ""), t, t);
  }

  /** What screening comes to from a record on, while the rules stand. */
  ghost function ScreenedFrom(rules: Rules, query: Msg, resp: Msg, at: nat): Msg
    requires at <= |resp.answer|
  {
    if rules.allow.None? || Offence(rules, resp.answer[at..]).None? then resp
    else Deny(query, Offence(rules, resp.answer[at..]).value)
  }

  /** One look, and what is left to be screened after it. */
  lemma LookIs(rules: Rules, query: Msg, resp: Msg, at: nat, owned: bool)
    requires rules.allow.Some? && at < |resp.answer| && (owned ==> HasTarget(resp.answer[at]) && OwnerAllowed(rules, resp.answer[at]))
    ensures match Look(rules, query, resp, at, owned)
            case Screening(m, n, o) =>
              && m == resp && at <= n <= |resp.answer| && (n == at ==> o && !owned)
              && (o ==> n == at && HasTarget(resp.answer[n]) && OwnerAllowed(rules, resp.answer[n]))
              && ScreenedFrom(rules, query, resp, n) == ScreenedFrom(rules, query, resp, at)
            case Sending(m, local) => !local && m == ScreenedFrom(rules, query, resp, at)
            case _ => false
  {
    hide Deny, TypeAllowed;
    var rest := resp.answer[at..];
    assert rest[0] == resp.answer[at] && rest[1..] == resp.answer[at + 1..];
  }

  lemma FromScreening(setup: Setup, u: State, b: Job, resp: Msg, at: nat, owned: bool, n': Counters, reply: Option<Msg>) returns (t: State)
    requires At(u, b, Screening(resp, at, owned)) && at <= |resp.answer|
    requires owned ==> at < |resp.answer| && HasTarget(resp.answer[at]) && OwnerAllowed(u.rules, resp.answer[at])
    requires Ends(setup, b.mode, u.n, n', b.query, ScreenedFrom(u.rules, b.query, resp, at), b.wrote, reply)
    ensures Reaches(setup, u, t) && Done(u, t, b, u.view, n', reply)
    decreases |resp.answer| - at, !owned
  {
    hide Ends, Reaches, Look, OwnerAllowed;
    var next := Next(setup, u, Go(b, ""));
    assert next == Screen(u, b.h);
    if u.rules.allow.None? || at >= |resp.answer| {
      t := FromSending(setup, next, b, resp, false, n', reply);
    } else {
      hide ScreenedFrom;
      LookIs(u.rules, b.query, resp, at, owned);
      match Look(u.rules, b.query, resp, at, owned) {
        case Screening(m, n, o) => t := FromScreening(setup, next, b, resp, n, o, n', reply);
        case Sending(m, _) => t := FromSending(setup, next, b, m, false, n', reply);
      }
    }
    assert next.inFlight - {b.h} == u.inFlight - {b.h};
    Onward(setup, u, Go(b, ""), next, t, b, u.view, n', reply);
  }

  lemma ToScreening(setup: Setup, u: State, b: Job, resp: Msg, n': Counters, reply: Option<Msg>) returns (t: State)
    requires At(u, b, Screening(resp, 0, false)) && Ends(setup, b.mode, u.n, n', b.query, Screened(u.rules, b.query, resp), b.wrote, reply)
    ensures Reaches(setup, u, t) && Done(u, t, b, u.view, n', reply)
  {
    hide Ends, Reaches;
    assert resp.answer[0..] == resp.answer;
    t := FromScreening(setup, u, b, resp, 0, false, n', reply);
  }

  lemma FromStoring(setup: Setup, u: State, b: Job, resp: Msg, v': View, n': Counters, reply: Option<Msg>) returns (t: State)
    requires At(u, b, Storing(resp)) && PutStep(setup.o, setup.mn, u.view, v', b.query, resp, b.now)
    requires Ends(setup, b.mode, u.n, n', b.query, Screened(u.rules, b.query, resp), b.wrote, reply)
    ensures Reaches(setup, u, t) && Done(u, t, b, v', n', reply)
  {
    hide Ends, Reaches, Screened, PutStep, CacheHistory.Apply;
    CacheHistory.PutIsStore(setup.o, setup.mn, u.view, v', b.query, resp, b.now);
    var victim :| v' == CacheHistory.Apply(setup.o, setup.mn, u.view, CacheHistory.Store(b.query, resp, b.now, victim));
    var next := Next(setup, u, Go(b, victim));
    t := ToScreening(setup, next, b, resp, n', reply);
    assert next.inFlight - {b.h} == u.inFlight - {b.h};
    Onward(setup, u, Go(b, victim), next, t, b, v', n', reply);
  }

  lemma FromResolving(setup: Setup, u: State, b: Job, resp: Msg, v': View, n': Counters, reply: Option<Msg>) returns (t: State)
    requires At(u, b, Resolving) && Filled(setup, b.mode, u.view, v', b.query, b.up, b.now, resp)
    requires Ends(setup, b.mode, u.n, n', b.query, Screened(u.rules, b.query, resp), b.wrote, reply)
    ensures Reaches(setup, u, t) && Done(u, t, b, v', n', reply)
  {
    hide Ends, Reaches, Screened, PutStep, Outcome, Offered;
    var next := Next(setup, u, Go(b, ""));
    if Offered(setup, b.mode, b.up, resp) {
      t := FromStoring(setup, next, b, resp, v', n', reply);
    } else {
      t := ToScreening(setup, next, b, resp, n', reply);
    }
    assert next.inFlight - {b.h} == u.inFlight - {b.h};
    Onward(setup, u, Go(b, ""), next, t, b, v', n', reply);
  }

  lemma FromCounting(setup: Setup, u: State, b: Job, resp: Msg, v': View, n': Counters, reply: Option<Msg>) returns (t: State)
    requires At(u, b, Counting) && Filled(setup, b.mode, u.view, v', b.query, b.up, b.now, resp)
    requires Ends(setup, b.mode, u.n.(upstream := u.n.upstream + 1), n', b.query, Screened(u.rules, b.query, resp), b.wrote, reply)
    ensures Reaches(setup, u, t) && Done(u, t, b, v', n', reply)
  {
    hide Ends, Reaches, Screened, Filled;
    var next := Next(setup, u, Go(b, ""));
    t := FromResolving(setup, next, b, resp, v', n', reply);
    assert next.inFlight - {b.h} == u.inFlight - {b.h};
    Onward(setup, u, Go(b, ""), next, t, b, v', n', reply);
  }

  /** The expired entry that the lookup deletes goes in a step of its own. */
  lemma FromMissed(setup: Setup, u: State, b: Job, resp: Msg, v': View, n': Counters, reply: Option<Msg>) returns (t: State)
    requires b.query.question != [] && At(u, b, Counting)
    requires Filled(setup, b.mode, Remaining(setup, u.view, b.query, b.now), v', b.query, b.up, b.now, resp)
    requires Ends(setup, b.mode, u.n.(upstream := u.n.upstream + 1), n', b.query, Screened(u.rules, b.query, resp), b.wrote, reply)
    ensures Reaches(setup, u, t) && Done(u, t, b, v', n', reply)
  {
    hide Ends, Reaches, Screened, Filled, KeyOf;
    if Remaining(setup, u.view, b.query, b.now) == u.view {
      t := FromCounting(setup, u, b, resp, v', n', reply);
    } else {
      var e := Forget(CacheKey(setup.mn, b.query));
      var next := Next(setup, u, e);
      t := FromCounting(setup, next, b, resp, v', n', reply);
      Onward(setup, u, e, next, t, b, v', n', reply);
    }
  }

  lemma FromLookingUp(setup: Setup, u: State, b: Job, v': View, n: Counters, n': Counters, reply: Option<Msg>) returns (t: State)
    requires b.query.question != [] && At(u, b, LookingUp) && u.n == n.(total := n.total + 1)
    requires var hit := Found(setup, u.view, b.query, b.now);
             if hit.Some? then
               v' == u.view && Ends(setup, b.mode, Ingress(setup, b.mode, n, FromCache), n', b.query, Screened(u.rules, b.query, hit.value.(id := b.query.id)), b.wrote, reply)
             else
               var w := Remaining(setup, u.view, b.query, b.now);
               var resp := Outcome(setup, b.mode, w, b.query, b.up, b.now);
               && Filled(setup, b.mode, w, v', b.query, b.up, b.now, resp)
               && Ends(setup, b.mode, Ingress(setup, b.mode, n, FromUpstream), n', b.query, Screened(u.rules, b.query, resp), b.wrote, reply)
    ensures Reaches(setup, u, t) && Done(u, t, b, v', n', reply)
  {
    hide Ends, Reaches, Screened, Filled, Remaining, Found, Outcome;
    var next := Next(setup, u, Go(b, ""));
    if Found(setup, u.view, b.query, b.now).Some? {
      t := ToScreening(setup, next, b, Found(setup, u.view, b.query, b.now).value.(id := b.query.id), n', reply);
    } else {
      var w := Remaining(setup, u.view, b.query, b.now);
      t := FromMissed(setup, next, b, Outcome(setup, b.mode, w, b.query, b.up, b.now), v', n', reply);
    }
    assert next.inFlight - {b.h} == u.inFlight - {b.h};
    Onward(setup, u, Go(b, ""), next, t, b, v', n', reply);
  }

  lemma FromBlocking(setup: Setup, u: State, b: Job, v': View, n: Counters, n': Counters, reply: Option<Msg>) returns (t: State)
    requires At(u, b, Blocking) && u.n == n.(total := n.total + 1) && LocalFirst(setup, b.mode, u.rules, b.query).None?
    requires Handled(setup, b.mode, u.rules, u.view, v', n, n', b.query, b.up, b.now, b.wrote, reply)
    ensures Reaches(setup, u, t) && Done(u, t, b, v', n', reply)
  {
    hide Ends, Reaches, Screened, Filled, Remaining, Found, Outcome, Local, RefusalByBlock;
    LocalSplits(setup, b.mode, u.rules, b.query);
    var next := Next(setup, u, Go(b, ""));
    var local := RefusalByBlock(u.rules, b.query);
    if local.Some? {
      t := FromSending(setup, next, b, local.value, true, n', reply);
    } else {
      t := FromLookingUp(setup, next, b, v', n, n', reply);
    }
    assert next.inFlight - {b.h} == u.inFlight - {b.h};
    Onward(setup, u, Go(b, ""), next, t, b, v', n', reply);
  }

  lemma FromChecking(setup: Setup, u: State, b: Job, v': View, n: Counters, n': Counters, reply: Option<Msg>) returns (t: State)
    requires At(u, b, Checking) && u.n == n.(total := n.total + 1)
    requires Handled(setup, b.mode, u.rules, u.view, v', n, n', b.query, b.up, b.now, b.wrote, reply)
    ensures Reaches(setup, u, t) && Done(u, t, b, v', n', reply)
  {
    hide Ends, Reaches, Screened, Filled, Remaining, Found, Outcome, Local, LocalFirst;
    LocalSplits(setup, b.mode, u.rules, b.query);
    var next := Next(setup, u, Go(b, ""));
    var local := LocalFirst(setup, b.mode, u.rules, b.query);
    if local.Some? {
      t := FromSending(setup, next, b, local.value, true, n', reply);
    } else {
      t := FromBlocking(setup, next, b, v', n, n', reply);
    }
    assert next.inFlight - {b.h} == u.inFlight - {b.h};
    Onward(setup, u, Go(b, ""), next, t, b, v', n', reply);
  }

  /** While the rules stand, the two checks one after the other are the policy's one answer. */
  lemma LocalSplits(setup: Setup, mode: Mode, rules: Rules, query: Msg)
    ensures var first := LocalFirst(setup, mode, rules, query);
            Local(setup, mode, rules, query) == (if first.Some? then first else RefusalByBlock(rules, query))
    ensures LocalFirst(setup, mode, rules, query).None? ==> |query.question| == 1
  {
    hide RefusalByAllow, RefusalByBlock;
  }

  /** Whatever a handler method does from some state, alone, the machine can do from that state by
      letting one query arrive and run to its end. */
  lemma HandledIsARun(setup: Setup, s: State, b: Job, v': View, n': Counters, reply: Option<Msg>) returns (t: State)
    requires b.h == s.n.total && b.h !in s.inFlight
    requires Handled(setup, b.mode, s.rules, s.view, v', s.n, n', b.query, b.up, b.now, b.wrote, reply)
    ensures Reaches(setup, s, t) && Done(s, t, b, v', n', reply) && t.inFlight == s.inFlight
  {
    hide Reaches, Handled;
    var e := Arrive(b.mode, b.query);
    var next := Next(setup, s, e);
    t := FromChecking(setup, next, b, v', s.n, n', reply);
    assert next.inFlight - {b.h} == s.inFlight == s.inFlight - {b.h};
    Onward(setup, s, e, next, t, b, v', n', reply);
  }
}
