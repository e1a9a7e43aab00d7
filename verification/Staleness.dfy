/** How old an answer the server may give.  An entry is bounded by its lifetime and the stale window since
    it was last put; whether that bounds its age since an upstream vouched for it is another matter. */
module Staleness {
  import opened Dns
  import opened Edns
  import opened ResponseCache
  import opened Policy
  import opened Serving
  import opened Server
  import opened HandlerRuns
  import opened Guarantees
  import opened Validation
  import CacheHistory
  import Framing
  import Lists
  import Chain
  import Signatures
  import KeyCache

  // ---- what a bogus reply makes a handler store

  /** In every reachable state, a handler that gets a reply the validator refuses goes on to store
      something exactly if it serves Mode 1 and the cache has a stale entry for its query; and what it
      stores is that entry, whatever was wrong with the reply. */
  lemma BogusStoresIff(setup: Setup, init: Rules, events: seq<Event>, h: nat, up: Upstream, now: int, victim: string, wrote: bool)
    requires Truncates(setup.truncate) && up.Replied? && Refused(setup, up.verdict)
    requires var s := Run(setup, init, events); h in s.inFlight && s.inFlight[h].stage.Resolving?
    ensures var s := Run(setup, init, events);
            var x := s.inFlight[h];
            var stale := FoundStale(setup, s.view, x.query, now);
            var after := Next(setup, s, Step(h, now, up, victim, wrote)).inFlight[h].stage;
            if !x.mode.Dot? && stale.Some? then after == Storing(stale.value.(id := x.query.id)) else !after.Storing?
  {
    hide Truncates, Run, Inv, FoundStale, Failure, Cacheable;
    var s := Run(setup, init, events);
    RunKeeps(setup, init, events);
    FailureIs(setup, init, s, s.inFlight[h].mode, s.inFlight[h].query, now);
    StaleNeedsCache(setup, s.view, s.inFlight[h].query, now);
  }

  lemma StaleNeedsCache(setup: Setup, v: View, query: Msg, now: int)
    ensures FoundStale(setup, v, query, now).Some? ==>
              && setup.hasCache && setup.o.enabled && query.question != [] && setup.o.serveStaleMaxS > 0
              && var key := CacheKey(setup.mn, query);
              key in v && FoundStale(setup, v, query, now).value == v[key].msg && v[key].expiresAt < now
  {
    hide KeyOf, WantsDnssec;
  }

  /** A handler stores its own upstream reply as the validator let it through, or, exactly where that
      reply was refused, the stale entry it found in its place. */
  lemma StoredIsOwnOrRevived(setup: Setup, init: Rules, events: seq<Event>, b: nat)
    requires Truncates(setup.truncate)
    requires b < |Run(setup, init, events).log| && Run(setup, init, events).log[b].Wrote?
    ensures var log := Run(setup, init, events).log;
            log[b].op.Store? && exists a: nat :: a < b && OriginAt(setup, log, a, log[b].h, log[b].op.req, log[b].op.resp)
  {
    hide Truncates, Run, OriginAt;
    RunKeeps(setup, init, events);
    var log := Run(setup, init, events).log;
    assert NoteOk(setup, init, log[..b], log[b]);
    var a: nat :| OriginAt(setup, log[..b], a, log[b].h, log[b].op.req, log[b].op.resp);
    OriginInLonger(setup, log, b, a, log[b].h, log[b].op.req, log[b].op.resp);
  }

  lemma OriginInLonger(setup: Setup, log: seq<Note>, b: nat, a: nat, h: nat, query: Msg, resp: Msg)
    requires b <= |log| && OriginAt(setup, log[..b], a, h, query, resp)
    ensures a < b && OriginAt(setup, log, a, h, query, resp)
  {
    hide ViewAfter, FoundStale, Adopted, Refused;
    assert log[..b][..a] == log[..a] && log[..b][a] == log[a];
  }

  // ---- without revivals age is bounded

  /** The entry was put by the handler whose reply it is, and expires one lifetime after that. */
  ghost predicate PutFrom(setup: Setup, log: seq<Note>, e: Stored, a: nat, b: nat) {
    && a < b < |log| && log[a].Answered? && log[b].Wrote? && log[b].h == log[a].h && log[b].op.Store?
    && Lifetime(setup.o, e.msg).Some? && log[b].op.resp == e.msg
    && e.expiresAt == log[b].op.now + Lifetime(setup.o, e.msg).value * SECOND
    && OriginAt(setup, log, a, log[b].h, log[b].op.req, e.msg)
  }

  lemma EntryWasPut(setup: Setup, init: Rules, events: seq<Event>, key: string) returns (a: nat, b: nat)
    requires Truncates(setup.truncate) && setup.o.maxSize > 0 && key in Run(setup, init, events).view
    ensures var s := Run(setup, init, events); PutFrom(setup, s.log, s.view[key], a, b)
  {
    hide Truncates, Run, Inv, Lifetime, CacheHistory.Run, CacheHistory.Latest, Ops, OriginAt, CacheKey, SameQuestion;
    var s := Run(setup, init, events);
    RunKeeps(setup, init, events);
    ViewIs(setup, init, s);
    var ops := Ops(s.log);
    CacheHistory.RefinesTimedMap(setup.o, setup.mn, ops, key);
    CacheHistory.LatestMeans(setup.o, setup.mn, ops, key);
    var i :| 0 <= i < |ops| && CacheHistory.Sets(setup.o, setup.mn, ops[i], key) && s.view[key] == CacheHistory.NewEntry(setup.o, ops[i].resp, ops[i].now);
    var h := OpsFromLog(s.log, i);
    b :| 0 <= b < |s.log| && s.log[b] == Wrote(h, ops[i]);
    StoredIsOwnOrRevived(setup, init, events, b);
    a :| a < b && OriginAt(setup, s.log, a, h, ops[i].req, ops[i].resp);
    OriginIsAnswer(setup, s.log, a, h, ops[i].req, ops[i].resp);
  }

  lemma OriginIsAnswer(setup: Setup, log: seq<Note>, a: nat, h: nat, query: Msg, resp: Msg)
    requires OriginAt(setup, log, a, h, query, resp)
    ensures a < |log| && log[a].Answered? && log[a].h == h
    ensures !Revives(setup, log, a) ==> Accepted(setup, log[a]) && resp == Adopted(setup, log[a].raw, log[a].verdict)
  {
    hide FoundStale, ViewAfter, Adopted;
  }

  /** If no reply in the run met a stale entry it revived, every answer from the cache, fresh or stale, is
      the accepted reply of the handler that put it, and its age since that reply is at most a lifetime
      (and for a stale answer the window) beyond the time the handler took to put it. */
  lemma AgeIsBounded(setup: Setup, init: Rules, events: seq<Event>, query: Msg, now: int)
    requires Truncates(setup.truncate) && setup.o.maxSize > 0
    requires forall a: nat :: !Revives(setup, Run(setup, init, events).log, a)
    requires var v := Run(setup, init, events).view; Found(setup, v, query, now).Some? || FoundStale(setup, v, query, now).Some?
    ensures var s := Run(setup, init, events);
            var hit := Found(setup, s.view, query, now);
            var m := if hit.Some? then hit.value else FoundStale(setup, s.view, query, now).value;
            exists a: nat, b: nat, e ::
              && PutFrom(setup, s.log, e, a, b) && e.msg == m
              && Accepted(setup, s.log[a]) && m == Adopted(setup, s.log[a].raw, s.log[a].verdict)
              && now - s.log[a].now <= (s.log[b].op.now - s.log[a].now) + (Lifetime(setup.o, m).value + if hit.Some? then 0 else setup.o.serveStaleMaxS) * SECOND
  {
    hide Truncates, Run, Lifetime, KeyOf, WantsDnssec, OriginAt, Revives, Adopted, Accepted;
    var s := Run(setup, init, events);
    var key := CacheKey(setup.mn, query);
    assert key in s.view;
    var a, b := EntryWasPut(setup, init, events, key);
    OriginIsAnswer(setup, s.log, a, s.log[b].h, s.log[b].op.req, s.log[b].op.resp);
    assert PutFrom(setup, s.log, s.view[key], a, b);
  }

  // ---- a revival breaks the bound

  /** Where the guard holds, the entry that had expired is put again, and is fresh for a whole lifetime
      from the moment a bogus reply came in; unless the entry is for another question that shares the key,
      which takes a type or class without a mnemonic. */
  lemma StaleBecomesFresh(setup: Setup, init: Rules, events: seq<Event>, h: nat, up: Upstream, now: int)
    requires Truncates(setup.truncate) && up.Replied? && Refused(setup, up.verdict)
    requires var s := Run(setup, init, events);
             && h in s.inFlight && s.inFlight[h].stage.Resolving? && !s.inFlight[h].mode.Dot?
             && FoundStale(setup, s.view, s.inFlight[h].query, now).Some?
    ensures var s := Run(setup, init, events);
            var query := s.inFlight[h].query;
            var key, m := CacheKey(setup.mn, query), FoundStale(setup, s.view, query, now).value.(id := query.id);
            var t := Run(setup, init, events + [Step(h, now, up, "", false), Step(h, now, up, "", false)]);
            && s.view[key].expiresAt < now && Lifetime(setup.o, m).Some? && key in t.view
            && t.view[key] == (if Keyable(query, m) then Stored(m, now + Lifetime(setup.o, m).value * SECOND) else s.view[key])
            && (Proper(setup.mn) && Registered(setup.mn, query.question[0]) ==> Keyable(query, m))
  {
    hide Truncates, Proper, Run, FoundStale, Inv, Lifetime, CacheKey, Registered, Keyable;
    var s := Run(setup, init, events);
    var query := s.inFlight[h].query;
    var e := Step(h, now, up, "", false);
    RunKeeps(setup, init, events);
    BogusStoresIff(setup, init, events, h, up, now, "", false);
    StaleNeedsCache(setup, s.view, query, now);
    StaleIsStorable(setup, init, s, query, now);
    var m := FoundStale(setup, s.view, query, now).value.(id := query.id);
    var es := events + [e];
    assert es[..|es| - 1] == events && Run(setup, init, es) == Next(setup, s, e) by {
      RunSnoc(setup, init, events, e);
    }
    RunSnoc(setup, init, es, e);
    assert es + [e] == events + [e, e];
    CacheHistory.ApplyIs(setup.o, setup.mn, s.view, query, m, now, "");
  }

  lemma RunSnoc(setup: Setup, init: Rules, events: seq<Event>, e: Event)
    ensures Run(setup, init, events + [e]) == Next(setup, Run(setup, init, events), e)
  {
    var es := events + [e];
    assert es[..|es| - 1] == events;
  }

  lemma StaleIsStorable(setup: Setup, init: Rules, s: State, query: Msg, now: int)
    requires Inv(setup, init, s) && FoundStale(setup, s.view, query, now).Some?
    ensures var m := FoundStale(setup, s.view, query, now).value.(id := query.id);
            && Lifetime(setup.o, m).Some? && query.question != []
            && (Proper(setup.mn) && Registered(setup.mn, query.question[0]) ==> Keyable(query, m))
  {
    hide Inv, Proper, KeyOf, SameQuestion, Lifetime, Registered, WantsDnssec, Vetted;
    var key := CacheKey(setup.mn, query);
    var m := FoundStale(setup, s.view, query, now).value;
    EntryIs(setup, init, s, key);
    LifetimeIgnoresId(setup.o, m, query.id);
    if Proper(setup.mn) && Registered(setup.mn, query.question[0]) {
      var q: Question, d: bool :| key == KeyOf(setup.mn, q, d) && (m.question == [] || (|m.question| == 1 && SameQuestion(q, m.question[0])));
      KeyIdentifies(setup.mn, query.question[0], WantsDnssec(query), q, d);
    }
  }

  lemma LifetimeIgnoresId(o: ResponseCache.Options, m: Msg, id: nat)
    ensures Lifetime(o, m.(id := id)) == Lifetime(o, m)
  {
  }

  // ---- and no bound is left

  lemma RunThen(setup: Setup, init: Rules, events: seq<Event>, t: State) returns (all: seq<Event>)
    requires Reaches(setup, Run(setup, init, events), t)
    ensures Run(setup, init, all) == t
  {
    hide Run, Next;
    var more :| After(setup, Run(setup, init, events), more) == t;
    all := events + more;
    RunIsAfter(setup, init, events, more);
  }

  lemma {:induction false} RunIsAfter(setup: Setup, init: Rules, events: seq<Event>, more: seq<Event>)
    ensures Run(setup, init, events + more) == After(setup, Run(setup, init, events), more)
    decreases |more|
  {
    hide Run, Next;
    if more == [] {
      assert events + more == events;
    } else {
      RunSnoc(setup, init, events, more[0]);
      RunIsAfter(setup, init, events + [more[0]], more[1..]);
      assert events + [more[0]] + more[1..] == events + more;
    }
  }

  lemma SomeEnd(setup: Setup, mode: Mode, n: Counters, query: Msg, resp: Msg, wrote: bool) returns (n': Counters, reply: Option<Msg>)
    ensures Ends(setup, mode, n, n', query, resp, wrote, reply)
  {
    var wire := Wire(setup, mode, query, resp);
    if Delivered(setup, mode, wire, wrote) {
      n', reply := Bucketed(n, resp.rcode), Some(wire);
    } else {
      n', reply := n.(dropped := n.dropped + 1), None;
    }
  }

  /** A miss that stores: one query, run to its end from a quiet state. */
  lemma MissStores(setup: Setup, init: Rules, events: seq<Event>, query: Msg, up: Upstream, now: int) returns (all: seq<Event>)
    requires var s := Run(setup, init, events);
             && s.inFlight == map[] && s.rules == init && |query.question| == 1 && Local(setup, Udp, init, query).None?
             && setup.o.serveStaleMaxS > 0 && Found(setup, s.view, query, now).None?
             && var resp := Outcome(setup, Udp, s.view, query, up, now);
             && Offered(setup, Udp, up, resp) && Stores(setup.o, query, resp) && (CacheKey(setup.mn, query) in s.view || |s.view| < setup.o.maxSize)
    ensures var s, t := Run(setup, init, events), Run(setup, init, all);
            var resp := Outcome(setup, Udp, s.view, query, up, now);
            && t.inFlight == map[] && t.rules == init
            && t.view == s.view[CacheKey(setup.mn, query) := CacheHistory.NewEntry(setup.o, resp, now)]
            && forall note :: note in t.log && note.Answered? ==>
                 note in s.log || (up.Replied? && note == Answered(s.n.total, Udp, query, now, up.raw, up.verdict))
  {
    hide Run, Reaches, Local, Found, Outcome, Offered, Ends, Screened, Lifetime, CacheKey, SameQuestion;
    var s := Run(setup, init, events);
    var b := Job(s.n.total, Udp, query, up, now, true);
    var resp := Outcome(setup, Udp, s.view, query, up, now);
    var key := CacheKey(setup.mn, query);
    var v' := s.view[key := CacheHistory.NewEntry(setup.o, resp, now)];
    NothingForgotten(setup, s.view, query, now);
    assert MakesRoom(setup.o, s.view, s.view, key);
    assert PutStep(setup.o, setup.mn, s.view, v', query, resp, now);
    var n', reply := SomeEnd(setup, Udp, Ingress(setup, Udp, s.n, FromUpstream), query, Screened(init, query, resp), true);
    assert Handled(setup, Udp, init, s.view, v', s.n, n', query, up, now, true, reply);
    var t := HandledIsARun(setup, s, b, v', n', reply);
    all := RunThen(setup, init, events, t);
  }

  lemma NothingForgotten(setup: Setup, v: View, query: Msg, now: int)
    requires query.question != [] && setup.o.serveStaleMaxS > 0
    ensures Remaining(setup, v, query, now) == v
  {
    hide KeyOf, WantsDnssec;
  }

  /** Two upstream replies: one the validator accepts with a given verdict, and one it refuses. */
  datatype Feed = Feed(good: Msg, verdict: Verdict, bad: Msg, fault: BogusReason)

  /** A validating server with serve-stale, and a reply it accepts and would cache. */
  ghost predicate Setting(setup: Setup, init: Rules, query: Msg, feed: Feed) {
    && setup.hasCache && setup.validates && setup.o.enabled && setup.o.serveStaleMaxS > 0 && setup.o.maxSize > 0
    && |query.question| == 1 && Local(setup, Udp, init, query).None? && !feed.verdict.Bogus?
    && var resp := Adopted(setup, feed.good, feed.verdict);
    Stores(setup.o, query, resp) && Cacheable(setup.o, Udp, resp) && Lifetime(setup.o, resp).value >= 0
  }

  /** One and the same validator gives the two replies these verdicts. */
  ghost predicate Judges(cf: Chain.Config, options: Validation.Options, feed: Feed) {
    && (exists s, s' :: (feed.verdict, s') == Validate(cf, options, s, feed.good))
    && (exists s, s' :: (Bogus(feed.fault), s') == Validate(cf, options, s, feed.bad))
  }

  /** One expiry, and then the moment after it. */
  ghost function Period(setup: Setup, feed: Feed): int
    requires Lifetime(setup.o, Adopted(setup, feed.good, feed.verdict)).Some?
  {
    Lifetime(setup.o, Adopted(setup, feed.good, feed.verdict)).value * SECOND + 1
  }

  /** The accepted reply came at time 0 only; everything else that came was the refused one. */
  predicate FromFeed(feed: Feed, note: Note) {
    note.Answered? ==>
      (note.now == 0 && note.raw == feed.good && note.verdict == feed.verdict) || (note.raw == feed.bad && note.verdict == Bogus(feed.fault))
  }

  ghost predicate Kept(setup: Setup, init: Rules, query: Msg, feed: Feed, s: State, expiresAt: int) {
    && query.question != [] && s.inFlight == map[] && s.rules == init
    && var key := CacheKey(setup.mn, query);
    && key in s.view && s.view[key].expiresAt == expiresAt && SameButId(s.view[key].msg, Adopted(setup, feed.good, feed.verdict))
    && forall note :: note in s.log ==> FromFeed(feed, note)
  }

  lemma StoredOnce(setup: Setup, init: Rules, query: Msg, feed: Feed) returns (events: seq<Event>)
    requires Setting(setup, init, query, feed)
    ensures Kept(setup, init, query, feed, Run(setup, init, events), Period(setup, feed) - 1)
  {
    hide Local, Stores, Cacheable, Lifetime, CacheKey, Adopted;
    var up := Replied(feed.good, feed.verdict);
    assert Run(setup, init, []) == Init(init);
    hide Run;
    events := MissStores(setup, init, [], query, up, 0);
  }

  /** The same entry, put again by a bogus reply the moment it has expired. */
  lemma StoredAgain(setup: Setup, init: Rules, query: Msg, feed: Feed, events: seq<Event>, expiresAt: int) returns (all: seq<Event>)
    requires Setting(setup, init, query, feed) && Kept(setup, init, query, feed, Run(setup, init, events), expiresAt)
    ensures Kept(setup, init, query, feed, Run(setup, init, all), expiresAt + Period(setup, feed))
  {
    hide Run, Local, Lifetime, CacheKey, Adopted;
    var s := Run(setup, init, events);
    var up, now := Replied(feed.bad, Bogus(feed.fault)), expiresAt + 1;
    var stale := s.view[CacheKey(setup.mn, query)].msg;
    assert Outcome(setup, Udp, s.view, query, up, now) == stale.(id := query.id);
    IdIsIgnored(setup, query, Adopted(setup, feed.good, feed.verdict), stale.(id := query.id));
    hide Outcome, Stores, Cacheable;
    all := MissStores(setup, init, events, query, up, now);
  }

  lemma IdIsIgnored(setup: Setup, query: Msg, m: Msg, w: Msg)
    requires SameButId(w, m)
    ensures Stores(setup.o, query, w) == Stores(setup.o, query, m) && Cacheable(setup.o, Udp, w) == Cacheable(setup.o, Udp, m)
    ensures Lifetime(setup.o, w) == Lifetime(setup.o, m)
  {
    LifetimeIgnoresId(setup.o, m, w.id);
  }

  lemma {:induction false} PutAgain(setup: Setup, init: Rules, query: Msg, feed: Feed, n: nat) returns (events: seq<Event>)
    requires Setting(setup, init, query, feed)
    ensures Kept(setup, init, query, feed, Run(setup, init, events), (n + 1) * Period(setup, feed) - 1)
  {
    hide Run, Kept, Period, Adopted;
    if n == 0 {
      events := StoredOnce(setup, init, query, feed);
    } else {
      events := PutAgain(setup, init, query, feed, n - 1);
      assert (n + 1) * Period(setup, feed) - 1 == n * Period(setup, feed) - 1 + Period(setup, feed);
      events := StoredAgain(setup, init, query, feed, events, n * Period(setup, feed) - 1);
    }
  }

  /** For every n, and whatever validator gives the two replies their verdicts, there is a run with honest
      verdicts throughout that puts the accepted reply n more times, although it came only at time 0. */
  lemma StoredEverAgain(setup: Setup, init: Rules, query: Msg, feed: Feed, cf: Chain.Config, options: Validation.Options, n: nat)
    returns (events: seq<Event>)
    requires Setting(setup, init, query, feed) && Judges(cf, options, feed)
    ensures Kept(setup, init, query, feed, Run(setup, init, events), (n + 1) * Period(setup, feed) - 1)
    ensures forall note :: note in Run(setup, init, events).log ==> Honest(cf, options, note)
  {
    hide Run, Period, Adopted, Validate, Setting;
    events := PutAgain(setup, init, query, feed, n);
    forall note | note in Run(setup, init, events).log ensures Honest(cf, options, note) {
      assert FromFeed(feed, note);
    }
  }

  /** So no bound on the age of an answer holds over runs: past any time there is a fresh hit on a reply
      accepted at time 0 and never since, in a run where every verdict is the validator's. */
  lemma NoBoundOnAge(setup: Setup, init: Rules, query: Msg, feed: Feed, cf: Chain.Config, options: Validation.Options, bound: nat)
    returns (events: seq<Event>, now: int)
    requires Setting(setup, init, query, feed) && Judges(cf, options, feed)
    ensures var s := Run(setup, init, events);
            && now > bound && Found(setup, s.view, query, now).Some?
            && SameButId(Found(setup, s.view, query, now).value, Adopted(setup, feed.good, feed.verdict))
            && (forall note :: note in s.log && note.Answered? && !Refused(setup, note.verdict) ==> note.now == 0)
            && forall note :: note in s.log ==> Honest(cf, options, note)
  {
    hide Run, CacheKey, Local, Cacheable, Lifetime, SameQuestion, Judges, Honest, Adopted;
    events := StoredEverAgain(setup, init, query, feed, cf, options, bound + 1);
    now := (bound + 2) * Period(setup, feed) - 1;
    assert Period(setup, feed) >= 1;
    assert now >= bound + 1 by {
      assert (bound + 2) * Period(setup, feed) >= bound + 2;
    }
    var s := Run(setup, init, events);
    assert forall note :: note in s.log ==> FromFeed(feed, note);
  }

  // ---- at an input

  /** A site where every signature has run out, and a server with a stale window of one second. */
  function Expired(): Chain.Config {
    Chain.Config(
      Signatures.Crypto((k: Key) => 0, (sig: Sig, now: int) => false, (sig: Sig, k: Key, rrs: seq<RR>) => Signatures.BadSig,
                        (k: Key, digestType: nat) => None, (n: Nsec3, name: Name) => false, (n: Nsec3, name: Name) => false),
      Chain.World((n: nat, zone: Name, rrtype: nat) => Chain.NetworkError, (n: nat) => 0, (n: nat, es: KeyCache.Entries) => es), [], true)
  }

  function SmallServer(mn: Mnemonics, pack: Framing.Packer, truncate: (Msg, nat) -> Msg): Setup {
    Setup(ResponseCache.Options(true, 100, 0, 86400, 0, 1), mn, true, true, (m: Msg) => None, pack, truncate)
  }

  function Query(): Msg {
    Msg(7, false, 0, false, false, false, [Question("a.x.", 1, 1)], [], [], [])
  }

  /** An unsigned address with a TTL of five minutes is accepted as insecure; the same address with an expired
      signature is bogus. */
  function Replies(): Feed {
    var a := OtherRR("a.x.", 300, 1, "192.0.2.1");
    Feed(Query().(isResponse := true, answer := [a]), InsecureAnswer,
         Query().(isResponse := true, answer := [a, RrsigRR(300, Sig("a.x.", 1, 8, 1, "x.", "s"))]), OutOfPeriod)
  }

  lemma RepliesAreJudged(s: Chain.Session)
    ensures Validate(Expired(), Validation.Options(true, false), s, Replies().good) == (InsecureAnswer, s)
    ensures Validate(Expired(), Validation.Options(true, false), s, Replies().bad) == (Bogus(OutOfPeriod), s)
  {
    var a, sig := OtherRR("a.x.", 300, 1, "192.0.2.1"), Sig("a.x.", 1, 8, 1, "x.", "s");
    var one, two, sigs := [a], [a, RrsigRR(300, sig)], [sig];
    assert one[..0] == [] && two[..1] == one && sigs[..0] == [];
    assert AnswerSigs(one) == [];
    assert AnswerSigs(two) == AnswerSigs(one) + [sig] == sigs;
    hide AnswerSigs, RRsetAt, FindKey, SlotOfSig, AcceptWalked;
    assert CheckSigs(Expired(), s, Replies().bad, []) == Progress({}, None, s);
    assert CheckSig(Expired(), s, Replies().bad, sig) == (Stop(Bogus(OutOfPeriod)), s);
    assert CheckSigs(Expired(), s, Replies().bad, sigs) == Progress({}, Some(Bogus(OutOfPeriod)), s);
  }

  /** Past any time, a run with the verdicts of that one validator and a fresh hit on what came at time 0. */
  lemma NoBoundAtAnInput(mn: Mnemonics, pack: Framing.Packer, truncate: (Msg, nat) -> Msg, bound: nat) returns (events: seq<Event>, now: int)
    ensures var setup, init := SmallServer(mn, pack, truncate), Rules(None, false, Lists.EMPTY, None);
            var s := Run(setup, init, events);
            && now > bound && Found(setup, s.view, Query(), now).Some?
            && (forall note :: note in s.log && note.Answered? && !Refused(setup, note.verdict) ==> note.now == 0)
            && forall note :: note in s.log ==> Honest(Expired(), Validation.Options(true, false), note)
  {
    hide Run, KeyOf, Found, Validate, Honest;
    var setup, feed := SmallServer(mn, pack, truncate), Replies();
    var m := Adopted(setup, feed.good, feed.verdict);
    MinTtlMeans(m);
    assert m.answer[0] in m.answer && Bounds(m, m.answer[0]) && MinTtlOf(m) == 300;
    hide MinTtlOf, Canonical;
    RepliesAreJudged(Chain.Session(map[], 0, 0));
    events, now := NoBoundOnAge(setup, Rules(None, false, Lists.EMPTY, None), Query(), feed, Expired(), Validation.Options(true, false), bound);
  }
}
