/** What holds over every run of the server, whatever the clients, the upstreams and the operator do. */
module Guarantees {
  import opened Dns
  import opened Edns
  import opened ResponseCache
  import opened Policy
  import opened Lists
  import opened Serving
  import CacheHistory
  import Validation
  import Chain

  // ---- the shared cache

  /** In every reachable state each entry has response code NOERROR or NXDOMAIN, is filed under its own
      question, came from an upstream reply the validator did not refuse, and the size bound holds. */
  lemma CacheHoldsOnlyGoodAnswers(setup: Setup, init: Rules, events: seq<Event>, key: string)
    requires Truncates(setup.truncate) && setup.o.maxSize > 0
    ensures var s := Run(setup, init, events);
            && |s.view| <= setup.o.maxSize
            && (key in s.view ==> var m := s.view[key].msg; GoodRcode(m) && Keyed(setup.mn, key, m) && Vetted(setup, s.log, m))
  {
    hide Truncates, Run, Keyed, Vetted, GoodRcode, InForce, Ops, Lifetime;
    RunKeeps(setup, init, events);
    CacheHistory.RefinesTimedMap(setup.o, setup.mn, Ops(Run(setup, init, events).log), key);
  }

  /** That is the handlers' doing: `Put` alone takes the server's own SERVFAIL for any query. */
  lemma PutAloneTakesServfail(o: ResponseCache.Options, query: Msg)
    requires o.enabled && |query.question| == 1
    ensures Stores(o, query, Synthesized(query, RCODE_SERVER_FAILURE))
  {
    hide Canonical;
  }

  // ---- policy

  /** A cache lookup or an upstream query in the log belongs to a query with one question that passed
      the allowlist in force when its handler asked it and, later, the blocklist in force when the
      handler asked that: what a list refuses when it is asked goes no further. */
  lemma RefusedGoesNoFurther(setup: Setup, init: Rules, events: seq<Event>, i: nat)
    requires Truncates(setup.truncate)
    requires var log := Run(setup, init, events).log; i < |log| && (log[i].Looked? || log[i].Asked?)
    ensures var log := Run(setup, init, events).log;
            exists j, k :: 0 <= j < k < i && PassedAt(init, log, log[i].h, log[i].query, j, k) &&
              AllowlistAdmits(InForce(init, log[..j]), log[i].query) && BlocklistAdmits(InForce(init, log[..k]), log[i].query)
  {
    hide Truncates, Run, InForce, RefusalByAllow, RefusalByBlock, AllowlistAdmits, BlocklistAdmits;
    RunKeeps(setup, init, events);
    var log := Run(setup, init, events).log;
    var h, query, before := log[i].h, log[i].query, log[..i];
    assert NoteOk(setup, init, before, log[i]);
    var k :| 0 <= k < i && before[k] == BlockSeen(h, query) && RefusalByBlock(InForce(init, before[..k]), query).None? && AllowPassed(init, before[..k], h, query);
    var j :| 0 <= j < k && before[..k][j] == AllowSeen(h, query) && |query.question| == 1 && RefusalByAllow(InForce(init, before[..k][..j]), query).None?;
    assert before[..k] == log[..k] && before[..k][..j] == log[..j];
    assert PassedAt(init, log, h, query, j, k);
    RefusalIff(InForce(init, log[..j]), query);
    RefusalIff(InForce(init, log[..k]), query);
  }

  ghost predicate PassedAt(init: Rules, log: seq<Note>, h: nat, query: Msg, j: nat, k: nat) {
    && j < |log| && log[j] == AllowSeen(h, query) && |query.question| == 1 && RefusalByAllow(InForce(init, log[..j]), query).None?
    && k < |log| && log[k] == BlockSeen(h, query) && RefusalByBlock(InForce(init, log[..k]), query).None?
  }

  // ---- when the two lists were never asked at one moment

  predicate NoReloadOf(log: seq<Note>, which: Which, j: nat, k: nat) {
    forall i :: j <= i < k && i < |log| ==> !(log[i].Reloaded? && log[i].which == which)
  }

  /** The log of a run: each reload changes one list of the rules before it. */
  ghost predicate WellLogged(init: Rules, log: seq<Note>) {
    forall i :: 0 <= i < |log| && log[i].Reloaded? ==> ReloadOk(InForce(init, log[..i]), log[i].which, log[i].rules)
  }

  lemma RunIsWellLogged(setup: Setup, init: Rules, events: seq<Event>)
    requires Truncates(setup.truncate)
    ensures WellLogged(init, Run(setup, init, events).log)
  {
    hide Truncates, Run, InForce, ReloadOk;
    RunKeeps(setup, init, events);
    var log := Run(setup, init, events).log;
    forall i | 0 <= i < |log| && log[i].Reloaded? ensures ReloadOk(InForce(init, log[..i]), log[i].which, log[i].rules) {
      assert NoteOk(setup, init, log[..i], log[i]);
    }
  }

  /** A list that is not reloaded stands, and so do the settings that are never reloaded. */
  lemma {:induction false} ListStands(init: Rules, log: seq<Note>, which: Which, j: nat, k: nat)
    requires WellLogged(init, log) && j <= k <= |log| && NoReloadOf(log, which, j, k)
    ensures var r, t := InForce(init, log[..j]), InForce(init, log[..k]);
            && t.qtypes == r.qtypes && t.blockEnabled == r.blockEnabled
            && (if which.OfAllow? then t.allow == r.allow else t.block == r.block)
  {
    if j < k {
      ListStands(init, log, which, j, k - 1);
      assert log[..k][..k - 1] == log[..k - 1];
    }
  }

  /** The first reload of a list in a stretch of the log, or its end. */
  lemma {:induction false} FirstReload(log: seq<Note>, which: Which, j: nat, k: nat) returns (m: nat)
    requires j <= k <= |log|
    ensures j <= m <= k && NoReloadOf(log, which, j, m) && (m < k ==> log[m].Reloaded? && log[m].which == which)
    decreases k - j
  {
    if j == k || (log[j].Reloaded? && log[j].which == which) {
      m := j;
    } else {
      m := FirstReload(log, which, j + 1, k);
    }
  }

  /** A reload of the allowlist and, after it, one of the blocklist. */
  predicate AllowThenBlock(log: seq<Note>, j: nat, k: nat) {
    exists a, b :: j <= a < b < k && b < |log| && log[a].Reloaded? && log[a].which.OfAllow? && log[b].Reloaded? && log[b].which.OfBlock?
  }

  ghost predicate OneMoment(init: Rules, log: seq<Note>, query: Msg, j: nat, k: nat) {
    exists m :: j <= m <= k && m <= |log| && Refusal(InForce(init, log[..m]), query).None?
  }

  /** Unless the allowlist and then the blocklist were reloaded between its two checks, there was a moment
      at which the rules in force admitted the query as a whole. */
  lemma OneMomentAdmits(init: Rules, log: seq<Note>, h: nat, query: Msg, j: nat, k: nat)
    requires WellLogged(init, log) && j < k && PassedAt(init, log, h, query, j, k) && !AllowThenBlock(log, j, k)
    ensures OneMoment(init, log, query, j, k)
  {
    hide InForce, WellLogged;
    var m := FirstReload(log, OfAllow, j, k);
    ListStands(init, log, OfAllow, j, m);
    ListStands(init, log, OfBlock, m, k);
    AllowDecides(InForce(init, log[..j]), InForce(init, log[..m]), query);
    BlockDecides(InForce(init, log[..k]), InForce(init, log[..m]), query);
  }

  lemma AllowDecides(r: Rules, t: Rules, query: Msg)
    requires r.allow == t.allow && r.qtypes == t.qtypes
    ensures RefusalByAllow(r, query) == RefusalByAllow(t, query)
  {
    hide AllowedBySets;
  }

  lemma AllowDecidesRecords(r: Rules, t: Rules)
    requires r.allow == t.allow && r.qtypes == t.qtypes
    ensures forall rr :: OwnerAllowed(r, rr) == OwnerAllowed(t, rr) && TargetAllowed(r, rr) == TargetAllowed(t, rr)
  {
    hide AllowedBySets;
  }

  lemma BlockDecides(r: Rules, t: Rules, query: Msg)
    requires r.block == t.block && r.blockEnabled == t.blockEnabled
    ensures RefusalByBlock(r, query) == RefusalByBlock(t, query)
  {
    hide Matched;
  }

  /** In particular, lists that never change and refuse a query keep it from the cache and from every
      upstream for good. */
  lemma RefusedForGood(setup: Setup, rules: Rules, events: seq<Event>, i: nat)
    requires Truncates(setup.truncate) && forall e :: e in events ==> !e.ReloadAllow? && !e.ReloadBlock?
    requires var log := Run(setup, rules, events).log; i < |log| && (log[i].Looked? || log[i].Asked?)
    ensures var query := Run(setup, rules, events).log[i].query; AllowlistAdmits(rules, query) && BlocklistAdmits(rules, query)
  {
    hide Truncates, Run, InForce, Refusal, PassedAt, WellLogged, AllowlistAdmits, BlocklistAdmits;
    var log := Run(setup, rules, events).log;
    RefusedGoesNoFurther(setup, rules, events, i);
    var j, k :| 0 <= j < k < i && PassedAt(rules, log, log[i].h, log[i].query, j, k);
    NoReload(setup, rules, events);
    RunIsWellLogged(setup, rules, events);
    OneMomentAdmits(rules, log, log[i].h, log[i].query, j, k);
    var m :| j <= m <= k && Refusal(InForce(rules, log[..m]), log[i].query).None?;
    RulesStand(rules, log, m);
    RefusalIff(rules, log[i].query);
  }

  lemma {:induction false} RulesStand(rules: Rules, log: seq<Note>, k: nat)
    requires k <= |log| && forall i :: 0 <= i < |log| ==> !log[i].Reloaded?
    ensures InForce(rules, log[..k]) == rules
  {
    if k > 0 {
      RulesStand(rules, log, k - 1);
      assert log[..k][..k - 1] == log[..k - 1];
    }
  }

  lemma {:induction false} NoReload(setup: Setup, rules: Rules, events: seq<Event>)
    requires forall e :: e in events ==> !e.ReloadAllow? && !e.ReloadBlock?
    ensures forall i :: 0 <= i < |Run(setup, rules, events).log| ==> !Run(setup, rules, events).log[i].Reloaded?
  {
    hide Next;
    if events != [] {
      var n := |events| - 1;
      NoReload(setup, rules, events[..n]);
      assert events[n] in events;
      StepNotes(setup, Run(setup, rules, events[..n]), events[n]);
    }
  }

  lemma StepNotes(setup: Setup, s: State, e: Event)
    requires !e.ReloadAllow? && !e.ReloadBlock? && forall i :: 0 <= i < |s.log| ==> !s.log[i].Reloaded?
    ensures forall i :: 0 <= i < |Next(setup, s, e).log| ==> !Next(setup, s, e).log[i].Reloaded?
  {
    hide LocalFirst, RefusalByBlock, CacheHistory.Apply, Look, Wire, Outcome, Found, Offered, Delivered;
  }

  /** Every reply sent, fresh, cached, stale or truncated, apart from the local discovery zone: each
      answer record has an owner, and a CNAME or DNAME target, that passed the allowlist in force when
      this handler looked at it; all come from one upstream reply that the validator did not refuse; and
      with validation on, AD is set exactly on its verdict. */
  lemma SentIsScreenedAndSourced(setup: Setup, init: Rules, events: seq<Event>, i: nat)
    requires Truncates(setup.truncate)
    requires var log := Run(setup, init, events).log;
             i < |log| && log[i].Sent? && !Discovery(setup, log[i].mode, log[i].query) && (log[i].reply.answer != [] || log[i].reply.authenticated)
    ensures var log := Run(setup, init, events).log;
            var reply := log[i].reply;
            && AnswerPassed(init, log[..i], log[i].h, reply.answer)
            && exists k ::
                 && 0 <= k < i && Accepted(setup, log[k])
                 && (setup.validates ==> (reply.authenticated <==> log[k].verdict.Secure?))
                 && forall rr :: rr in reply.answer ==> rr in log[k].raw.answer
  {
    hide Truncates, Run, AnswerPassed;
    RunKeeps(setup, init, events);
    var log := Run(setup, init, events).log;
    var reply, before := log[i].reply, log[..i];
    assert NoteOk(setup, init, before, log[i]);
    var k :| 0 <= k < |before| && Accepted(setup, before[k])
      && (setup.validates ==> (reply.authenticated <==> before[k].verdict.Secure?))
      && forall rr :: rr in reply.answer ==> rr in before[k].raw.answer;
    assert log[k] == before[k];
  }

  predicate LookOf(note: Note, h: nat) {
    (note.OwnerSeen? || note.TargetSeen?) && note.h == h
  }

  /** No reload of the allowlist between two looks of this handler. */
  predicate StillWhileLooking(log: seq<Note>, h: nat) {
    forall j, k :: 0 <= j < k < |log| && LookOf(log[j], h) && LookOf(log[k], h) ==> NoReloadOf(log, OfAllow, j, k)
  }

  ghost predicate Clean(rules: Rules, answer: seq<RR>) {
    forall rr :: rr in answer ==> RecordAllowed(rules, rr)
  }

  /** Then the rules in force at any of its looks allow the whole answer. */
  lemma OneMomentScreens(init: Rules, log: seq<Note>, h: nat, answer: seq<RR>, m: nat)
    requires WellLogged(init, log) && init.allow.Some? && AnswerPassed(init, log, h, answer) && StillWhileLooking(log, h)
    requires m < |log| && LookOf(log[m], h)
    ensures Clean(InForce(init, log[..m]), answer)
  {
    hide InForce, OwnerAllowed, TargetAllowed, WellLogged;
    forall rr | rr in answer ensures RecordAllowed(InForce(init, log[..m]), rr) {
      assert RecordPassed(init, log, h, rr);
      var j :| 0 <= j < |log| && log[j] == OwnerSeen(h, rr) && OwnerAllowed(InForce(init, log[..j]), rr);
      LooksAgree(init, log, h, j, m);
      if HasTarget(rr) {
        var k :| 0 <= k < |log| && log[k] == TargetSeen(h, rr) && TargetAllowed(InForce(init, log[..k]), rr);
        LooksAgree(init, log, h, k, m);
      } else {
        NoTarget(InForce(init, log[..m]), rr);
      }
    }
  }

  lemma LooksAgree(init: Rules, log: seq<Note>, h: nat, j: nat, m: nat)
    requires WellLogged(init, log) && StillWhileLooking(log, h) && j < |log| && m < |log| && LookOf(log[j], h) && LookOf(log[m], h)
    ensures forall rr :: OwnerAllowed(InForce(init, log[..j]), rr) == OwnerAllowed(InForce(init, log[..m]), rr)
    ensures forall rr :: TargetAllowed(InForce(init, log[..j]), rr) == TargetAllowed(InForce(init, log[..m]), rr)
  {
    hide InForce, OwnerAllowed, TargetAllowed, WellLogged, LookOf;
    if j < m {
      ListStands(init, log, OfAllow, j, m);
    } else if m < j {
      ListStands(init, log, OfAllow, m, j);
    }
    AllowDecidesRecords(InForce(init, log[..j]), InForce(init, log[..m]));
  }

  lemma NoTarget(rules: Rules, rr: RR)
    requires !HasTarget(rr)
    ensures TargetAllowed(rules, rr)
  {
  }

  /** The verdicts in the log are the validator's, each for some state of the key cache and clock. */
  ghost predicate Honest(cf: Chain.Config, options: Validation.Options, note: Note) {
    note.Answered? ==> exists s, s' :: (note.verdict, s') == Validation.Validate(cf, options, s, note.raw)
  }

  /** What AD on a reply means for the upstream reply it comes from: every record of the answer, key
      material apart, is one that `raw` holds in a verified RRset, if the validator is switched on; and it
      has verified anything exactly if it is, and `raw` has a signature with its records. */
  ghost predicate Vouched(cf: Chain.Config, options: Validation.Options, s: Chain.Session, s': Chain.Session, raw: Msg, reply: Msg) {
    && (Validation.Checked(cf, options, s, raw) != {} <==> options.enabled && exists sig :: Validation.Covering(raw, sig))
    && (forall slot :: slot in Validation.Checked(cf, options, s, raw) ==> Validation.SignedSet(cf, s.tick, s'.tick, raw, slot))
    && (options.enabled ==> forall rr :: rr in reply.answer && Validation.Gated(rr) ==>
          rr in raw.answer && Validation.Authenticated(cf, s.tick, s'.tick, raw, Validation.SlotOfRR(rr)))
  }

  /** From the socket back to the root: whatever cache, stale window, policy and truncation did in between,
      a reply sent with AD comes from one upstream reply the validator called secure, and is vouched for
      exactly as far as the validator looked at that. */
  lemma AdMeansAuthenticated(setup: Setup, init: Rules, events: seq<Event>, i: nat, cf: Chain.Config, options: Validation.Options)
    requires Truncates(setup.truncate) && setup.validates
    requires var log := Run(setup, init, events).log;
             && (forall note :: note in log ==> Honest(cf, options, note))
             && i < |log| && log[i].Sent? && !Discovery(setup, log[i].mode, log[i].query) && log[i].reply.authenticated
    ensures var log := Run(setup, init, events).log;
            exists raw, s, s' ::
              && (Validation.Secure, s') == Validation.Validate(cf, options, s, raw) && Vouched(cf, options, s, s', raw, log[i].reply)
              && exists k :: 0 <= k < i && log[k].Answered? && log[k].raw == raw && log[k].verdict.Secure?
  {
    hide Truncates, Run, AnswerPassed, Discovery, Validation.Validate, Validation.Authenticated, Validation.Gated, Validation.SlotOfRR, Validation.SignedSet, Validation.Covering, Validation.Checked;
    SentIsScreenedAndSourced(setup, init, events, i);
    var log := Run(setup, init, events).log;
    var reply := log[i].reply;
    var k :| && 0 <= k < i && Accepted(setup, log[k]) && log[k].verdict.Secure?
             && forall rr :: rr in reply.answer ==> rr in log[k].raw.answer;
    assert log[k] in log;
    var s, s' :| (log[k].verdict, s') == Validation.Validate(cf, options, s, log[k].raw);
    Validation.SecureIsSignedIff(cf, options, s, log[k].raw, s');
    if log[k].raw.answer != [] && options.enabled {
      Validation.SecureMeans(cf, options, s, log[k].raw, s');
    } else {
      EmptyOrNot(reply.answer);
    }
    assert Vouched(cf, options, s, s', log[k].raw, reply);
  }

  /** With a validator that is present but switched off, every reply that carries an answer is sent with
      AD, and nothing behind any of them was verified. */
  lemma DisabledSetsAd(setup: Setup, init: Rules, events: seq<Event>, i: nat, cf: Chain.Config, options: Validation.Options)
    requires Truncates(setup.truncate) && setup.validates && !options.enabled
    requires var log := Run(setup, init, events).log;
             && (forall note :: note in log ==> Honest(cf, options, note))
             && i < |log| && log[i].Sent? && !Discovery(setup, log[i].mode, log[i].query) && log[i].reply.answer != []
    ensures Run(setup, init, events).log[i].reply.authenticated
    ensures forall s, raw :: Validation.Checked(cf, options, s, raw) == {}
  {
    hide Truncates, Run, AnswerPassed, Discovery;
    SentIsScreenedAndSourced(setup, init, events, i);
    var log := Run(setup, init, events).log;
    var k :| 0 <= k < i && Accepted(setup, log[k]) && (log[i].reply.authenticated <==> log[k].verdict.Secure?);
    assert log[k] in log;
    var s, s' :| (log[k].verdict, s') == Validation.Validate(cf, options, s, log[k].raw);
    Validation.DisabledIsSecure(cf, options, s, log[k].raw);
  }

  // ---- counters

  function InCounting(s: State): set<nat> {
    set h | h in s.inFlight && s.inFlight[h].stage.Counting?
  }

  ghost predicate Balanced(s: State) {
    && s.n.total == s.n.success + s.n.servfail + s.n.nxdomain + s.n.other + s.n.dropped + |s.inFlight|
    && s.n.misses + s.n.bypassed == s.n.upstream + |InCounting(s)|
    && forall h :: h in s.inFlight ==> h < s.n.total
  }

  lemma MoveBalances(s: State, s': State, h: nat, stage: Stage)
    requires Balanced(s) && h in s.inFlight && s'.inFlight == s.inFlight[h := s.inFlight[h].(stage := stage)]
    ensures |s'.inFlight| == |s.inFlight|
    ensures |InCounting(s')| + (if s.inFlight[h].stage.Counting? then 1 else 0) == |InCounting(s)| + (if stage.Counting? then 1 else 0)
    ensures forall k :: k in s'.inFlight ==> k < s.n.total
  {
    assert s'.inFlight.Keys == s.inFlight.Keys;
    assert |s'.inFlight| == |s'.inFlight.Keys| && |s.inFlight| == |s.inFlight.Keys|;
    MoveCounts(InCounting(s), InCounting(s'), h);
  }

  lemma MoveCounts(a: set<nat>, b: set<nat>, h: nat)
    requires a - {h} == b - {h}
    ensures |b| + (if h in a then 1 else 0) == |a| + (if h in b then 1 else 0)
  {
    assert h in a ==> a == (a - {h}) + {h};
    assert h !in a ==> a == a - {h};
    assert h in b ==> b == (b - {h}) + {h};
    assert h !in b ==> b == b - {h};
  }

  lemma LeaveBalances(s: State, s': State, h: nat)
    requires Balanced(s) && h in s.inFlight && !s.inFlight[h].stage.Counting? && s'.inFlight == s.inFlight - {h}
    ensures |s'.inFlight| == |s.inFlight| - 1 && InCounting(s') == InCounting(s)
    ensures forall k :: k in s'.inFlight ==> k < s.n.total
  {
    assert s'.inFlight.Keys == s.inFlight.Keys - {h};
    assert |s'.inFlight| == |s'.inFlight.Keys| && |s.inFlight| == |s.inFlight.Keys|;
  }

  lemma ArriveBalances(s: State, s': State, x: Handler)
    requires Balanced(s) && !x.stage.Counting? && s'.inFlight == s.inFlight[s.n.total := x]
    ensures |s'.inFlight| == |s.inFlight| + 1 && InCounting(s') == InCounting(s)
    ensures forall k :: k in s'.inFlight ==> k <= s.n.total
  {
    assert s'.inFlight.Keys == s.inFlight.Keys + {s.n.total};
    assert |s'.inFlight| == |s'.inFlight.Keys| && |s.inFlight| == |s.inFlight.Keys|;
  }

  lemma StepBalances(setup: Setup, s: State, e: Event, s': State)
    requires Balanced(s) && s' == Next(setup, s, e)
    ensures Balanced(s')
  {
    hide InCounting, Advance;
    match e
    case Arrive(mode, query) => ArriveBalances(s, s', Handler(mode, query, Checking));
    case ReloadAllow(_) => SameBalance(s, s');
    case ReloadBlock(_) => SameBalance(s, s');
    case Forget(_) => SameBalance(s, s');
    case Step(h, now, up, victim, wrote) =>
      if h in s.inFlight {
        AdvanceBalances(setup, s, h, now, up, victim, wrote, s');
      }
  }

  lemma AdvanceBalances(setup: Setup, s: State, h: nat, now: int, up: Upstream, victim: string, wrote: bool, s': State)
    requires Balanced(s) && h in s.inFlight && s' == Advance(setup, s, h, now, up, victim, wrote)
    ensures Balanced(s')
  {
    if s.inFlight[h].stage.Sending? {
      hide InCounting, Finish;
      FinishCounts(setup, s, h, s.inFlight[h].stage.resp, wrote);
      LeaveBalances(s, s', h);
    } else {
      hide InCounting, Advance;
      AdvanceMoves(setup, s, h, now, up, victim, wrote, s');
      MoveBalances(s, s', h, s'.inFlight[h].stage);
    }
  }

  /** Sending removes one handler and counts it once, in a bucket or as dropped. */
  lemma FinishCounts(setup: Setup, s: State, h: nat, resp: Msg, wrote: bool)
    requires h in s.inFlight
    ensures var t := Finish(setup, s, h, resp, wrote);
            && t.inFlight == s.inFlight - {h}
            && t.n.success + t.n.servfail + t.n.nxdomain + t.n.other + t.n.dropped ==
               s.n.success + s.n.servfail + s.n.nxdomain + s.n.other + s.n.dropped + 1
            && t.n == s.n.(success := t.n.success, servfail := t.n.servfail, nxdomain := t.n.nxdomain, other := t.n.other, dropped := t.n.dropped)
  {
    hide Wire, Delivered;
  }

  /** Short of sending, a step moves one handler and counts exactly on the way into or out of the
      point between the two increments. */
  lemma AdvanceMoves(setup: Setup, s: State, h: nat, now: int, up: Upstream, victim: string, wrote: bool, s': State)
    requires h in s.inFlight && !s.inFlight[h].stage.Sending? && s' == Advance(setup, s, h, now, up, victim, wrote)
    ensures h in s'.inFlight && s'.inFlight == s.inFlight[h := s.inFlight[h].(stage := s'.inFlight[h].stage)]
    ensures s'.n == s.n.(hits := s'.n.hits, misses := s'.n.misses, bypassed := s'.n.bypassed, upstream := s'.n.upstream)
    ensures s'.n.upstream == s.n.upstream + if s.inFlight[h].stage.Counting? then 1 else 0
    ensures s'.n.misses + s'.n.bypassed == s.n.misses + s.n.bypassed + if s'.inFlight[h].stage.Counting? then 1 else 0
  {
    hide LocalFirst, RefusalByBlock, CacheHistory.Apply, OwnerAllowed, TargetAllowed, TypeAllowed, Deny, Outcome, Found, Offered;
  }

  lemma SameBalance(s: State, s': State)
    requires s.inFlight == s'.inFlight
    ensures InCounting(s') == InCounting(s)
  {
  }

  /** At every moment: queries received are the four response buckets, the replies dropped before they
      were counted, and the queries in flight; and misses are upstream queries, up to handlers between
      the two increments and to Mode 2 queries served without a cache. */
  lemma {:induction false} CountersBalance(setup: Setup, init: Rules, events: seq<Event>)
    ensures Balanced(Run(setup, init, events))
  {
    hide Next, Balanced;
    if events == [] {
      InitBalances(init);
    } else {
      var n := |events| - 1;
      CountersBalance(setup, init, events[..n]);
      StepBalances(setup, Run(setup, init, events[..n]), events[n], Run(setup, init, events));
    }
  }

  lemma InitBalances(init: Rules)
    ensures Balanced(Init(init))
  {
    assert InCounting(Init(init)) == {};
  }

  ghost predicate NoBypass(setup: Setup, s: State) {
    s.n.bypassed == 0 && forall h :: h in s.inFlight ==> setup.hasCache || !s.inFlight[h].mode.Dot?
  }

  lemma StepNoBypass(setup: Setup, s: State, e: Event)
    requires NoBypass(setup, s) && (e.Arrive? ==> setup.hasCache || !e.mode.Dot?)
    ensures NoBypass(setup, Next(setup, s, e))
  {
    hide LocalFirst, RefusalByBlock, CacheHistory.Apply, Look, Wire, Outcome, Found, Offered, Delivered;
  }

  lemma {:induction false} RunNoBypass(setup: Setup, init: Rules, events: seq<Event>)
    requires forall e :: e in events && e.Arrive? ==> setup.hasCache || !e.mode.Dot?
    ensures NoBypass(setup, Run(setup, init, events))
  {
    hide Next;
    if events != [] {
      var n := |events| - 1;
      RunNoBypass(setup, init, events[..n]);
      StepNoBypass(setup, Run(setup, init, events[..n]), events[n]);
    }
  }

  /** Mode 1 alone, or any mix of modes over a cache: with nothing in flight the buckets and the drops
      add up to the total, and every miss is an upstream query. */
  lemma AtRest(setup: Setup, init: Rules, events: seq<Event>)
    requires forall e :: e in events && e.Arrive? ==> setup.hasCache || !e.mode.Dot?
    requires Run(setup, init, events).inFlight == map[]
    ensures var n := Run(setup, init, events).n;
            n.total == n.success + n.servfail + n.nxdomain + n.other + n.dropped && n.misses == n.upstream
  {
    hide Run;
    CountersBalance(setup, init, events);
    RunNoBypass(setup, init, events);
    assert InCounting(Run(setup, init, events)) == {};
  }

  // ---- a hit equals the fresh reply

  /** What is sent for a response screened under given rules. */
  ghost function Served(setup: Setup, mode: Mode, rules: Rules, query: Msg, resp: Msg): Msg {
    Wire(setup, mode, query, Screened(rules, query, resp))
  }

  /** Truncation and packed size do not look at the transaction ID. */
  ghost predicate IdBlind(setup: Setup) {
    && (forall m: Msg, i: nat, n: nat :: setup.truncate(m.(id := i), n) == setup.truncate(m, n).(id := i))
    && (forall m: Msg, i: nat :: var a, b := setup.pack(m.(id := i)), setup.pack(m); a.Some? == b.Some? && (a.Some? ==> |a.value| == |b.value|))
  }

  /** The two queries ask the same in the same way, apart from the ID. */
  predicate SameClient(mode: Mode, a: Msg, b: Msg) {
    && a.question == b.question && HasOpt(a) == HasOpt(b) && WantsDnssec(a) == WantsDnssec(b)
    && (mode.Udp? ==> UdpLimit(a) == UdpLimit(b))
  }

  lemma NormalizedSame(a: Msg, b: Msg, m: Msg, w: Msg)
    requires HasOpt(a) == HasOpt(b) && WantsDnssec(a) == WantsDnssec(b) && SameButId(m, w)
    ensures SameButId(Normalized(m, a), Normalized(w, b))
  {
    hide HasOpt, WantsDnssec, Filter;
  }

  lemma ScreenedSame(rules: Rules, a: Msg, b: Msg, m: Msg, w: Msg)
    requires a.question == b.question && HasOpt(a) == HasOpt(b) && SameButId(m, w)
    ensures SameButId(Screened(rules, a, m), Screened(rules, b, w))
  {
    hide HasOpt, RecordAllowed;
  }

  lemma WireSame(setup: Setup, mode: Mode, a: Msg, b: Msg, m: Msg, w: Msg)
    requires IdBlind(setup) && SameClient(mode, a, b) && SameButId(m, w)
    ensures SameButId(Wire(setup, mode, a, m), Wire(setup, mode, b, w))
  {
    hide HasOpt, WantsDnssec, Normalized, UdpLimit;
    NormalizedSame(a, b, m, w);
    NormalizedSame(a, b, Synthesized(a, RCODE_SERVER_FAILURE), Synthesized(b, RCODE_SERVER_FAILURE));
    var r, t := Normalized(m, a), Normalized(w, b);
    assert r == t.(id := r.id);
  }

  /** The store a hit comes from: the latest under the key, for the same DO bit and a question that shares
      the key, which for registered types and classes is the same question. */
  ghost predicate Supplies(setup: Setup, s: State, query: Msg, hit: Msg, i: nat) {
    var ops := Ops(s.log);
    && i < |ops| && ops[i].Store? && (exists h :: Wrote(h, ops[i]) in s.log) && Stores(setup.o, ops[i].req, ops[i].resp)
    && |query.question| == 1 && |ops[i].req.question| == 1 && WantsDnssec(ops[i].req) == WantsDnssec(query)
    && CacheHistory.SameKeyed(setup.mn, ops[i].req.question[0], query.question[0])
    && (Registered(setup.mn, query.question[0]) ==> ops[i].req.question == query.question)
    && ops[i].resp == hit
    && forall j :: i < j < |ops| ==> !CacheHistory.Sets(setup.o, setup.mn, ops[j], CacheKey(setup.mn, query))
  }

  lemma HitIsSupplied(setup: Setup, init: Rules, s: State, query: Msg, now: int) returns (i: nat)
    requires Inv(setup, init, s) && Proper(setup.mn) && setup.o.maxSize > 0
    requires |query.question| == 1 && Found(setup, s.view, query, now).Some?
    ensures Supplies(setup, s, query, Found(setup, s.view, query, now).value, i)
  {
    hide Inv, Proper, Registered, CacheKey, WantsDnssec, Ops, Lifetime, SameQuestion, CacheHistory.Run, CacheHistory.Sets, CacheHistory.SameKeyed;
    ViewIs(setup, init, s);
    var ops := Ops(s.log);
    CacheHistory.HitIsLatestPut(setup.o, setup.mn, ops, query, now);
    var k :| && 0 <= k < |ops| && ops[k].Store? && Stores(setup.o, ops[k].req, ops[k].resp)
      && CacheHistory.SameKeyed(setup.mn, ops[k].req.question[0], query.question[0]) && WantsDnssec(ops[k].req) == WantsDnssec(query)
      && (Registered(setup.mn, query.question[0]) ==> ops[k].req.question[0] == query.question[0])
      && Hit(s.view, CacheKey(setup.mn, query), now) == Some(ops[k].resp)
      && forall j :: k < j < |ops| ==> !ops[j].Clear? && !CacheHistory.Sets(setup.o, setup.mn, ops[j], CacheKey(setup.mn, query));
    i := k;
    var h := OpsFromLog(s.log, i);
    StoredOneQuestion(setup, init, s, h, ops[i]);
    assert ops[i].req.question == [ops[i].req.question[0]] && query.question == [query.question[0]];
  }

  /** In every reachable state, a hit serves this client, under any rules, what the same rules make of the
      stored reply for the client that stored it, up to the transaction ID; and that store is the latest
      under the key. */
  lemma HitEqualsFresh(setup: Setup, init: Rules, events: seq<Event>, query: Msg, now: int, mode: Mode, rules: Rules)
    requires Truncates(setup.truncate) && IdBlind(setup) && Proper(setup.mn) && setup.o.maxSize > 0
    requires |query.question| == 1 && Found(setup, Run(setup, init, events).view, query, now).Some?
    ensures var s := Run(setup, init, events);
            var hit := Found(setup, s.view, query, now).value;
            exists i: nat :: Supplies(setup, s, query, hit, i) &&
              (SameClient(mode, query, Ops(s.log)[i].req) ==>
                 SameButId(Served(setup, mode, rules, query, hit.(id := query.id)), Served(setup, mode, rules, Ops(s.log)[i].req, Ops(s.log)[i].resp)))
  {
    hide Truncates, IdBlind, Proper, Run, Inv, Found, Served;
    var s := Run(setup, init, events);
    RunKeeps(setup, init, events);
    var hit := Found(setup, s.view, query, now).value;
    var i := HitIsSupplied(setup, init, s, query, now);
    var op := Ops(s.log)[i];
    if SameClient(mode, query, op.req) {
      ServedSame(setup, mode, rules, query, op.req, hit.(id := query.id), op.resp);
    }
  }

  lemma ServedSame(setup: Setup, mode: Mode, rules: Rules, a: Msg, b: Msg, m: Msg, w: Msg)
    requires IdBlind(setup) && SameClient(mode, a, b) && SameButId(m, w)
    ensures SameButId(Served(setup, mode, rules, a, m), Served(setup, mode, rules, b, w))
  {
    hide IdBlind, Wire, Screened, HasOpt, WantsDnssec, UdpLimit;
    ScreenedSame(rules, a, b, m, w);
    WireSame(setup, mode, a, b, Screened(rules, a, m), Screened(rules, b, w));
  }

  lemma StoredOneQuestion(setup: Setup, init: Rules, s: State, h: nat, op: CacheHistory.Op)
    requires Inv(setup, init, s) && Wrote(h, op) in s.log
    ensures op.Store? && |op.req.question| == 1
  {
    hide Vetted, GoodRcode, InForce, ViewAfter, Origin;
    var i :| 0 <= i < |s.log| && s.log[i] == Wrote(h, op);
    assert NoteOk(setup, init, s.log[..i], s.log[i]);
  }

  lemma {:induction false} OpsFromLog(log: seq<Note>, i: nat) returns (h: nat)
    requires i < |Ops(log)| && Ops(log)[i].Store?
    ensures Wrote(h, Ops(log)[i]) in log
  {
    var n := |log| - 1;
    if i < |Ops(log[..n])| {
      h := OpsFromLog(log[..n], i);
    } else {
      h := log[n].h;
    }
  }
}
