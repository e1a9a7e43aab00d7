/** Types without a mnemonic share cache keys: a run in which a query for one is served the reply to another. */
module SharedKeys {
  import opened Dns
  import opened Edns
  import opened ResponseCache
  import opened Policy
  import opened Serving
  import opened Server
  import opened HandlerRuns
  import opened Guarantees
  import opened Staleness
  import CacheHistory
  import Framing
  import Lists
  import Validation

  /** A hit, run to its end from a quiet state. */
  lemma HitSends(setup: Setup, init: Rules, events: seq<Event>, query: Msg, now: int) returns (all: seq<Event>)
    requires var s := Run(setup, init, events);
             && s.inFlight == map[] && s.rules == init && Local(setup, Udp, init, query).None? && Found(setup, s.view, query, now).Some?
             && setup.pack(Served(setup, Udp, init, query, Found(setup, s.view, query, now).value.(id := query.id))).Some?
    ensures var s, t := Run(setup, init, events), Run(setup, init, all);
            t.log != [] && t.log[|t.log| - 1] == Sent(s.n.total, Udp, query, Served(setup, Udp, init, query, Found(setup, s.view, query, now).value.(id := query.id)))
  {
    hide Run, Reaches, Local, Found, Screened, Wire;
    var s := Run(setup, init, events);
    var b := Job(s.n.total, Udp, query, Upstream.Failed, now, true);
    var resp := Screened(init, query, Found(setup, s.view, query, now).value.(id := query.id));
    var n', reply := SomeEnd(setup, Udp, Ingress(setup, Udp, s.n, FromCache), query, resp, true);
    assert Handled(setup, Udp, init, s.view, s.view, s.n, n', query, Upstream.Failed, now, true, reply);
    var t := HandledIsARun(setup, s, b, s.view, n', reply);
    all := RunThen(setup, init, events, t);
  }

  /** Two queries that share a key but ask for different types, and a reply to the first that is cached. */
  ghost predicate Sharing(setup: Setup, init: Rules, first: Msg, second: Msg, raw: Msg) {
    && setup.hasCache && !setup.validates && setup.o.enabled && setup.o.serveStaleMaxS > 0 && setup.o.maxSize > 0
    && init.allow.None? && |first.question| == 1 && |second.question| == 1 && first.question != second.question
    && CacheKey(setup.mn, first) == CacheKey(setup.mn, second) && raw.question == first.question
    && Local(setup, Udp, init, first).None? && Local(setup, Udp, init, second).None?
    && Stores(setup.o, first, raw) && Cacheable(setup.o, Udp, raw) && Lifetime(setup.o, raw).value >= 0
  }

  /** The first query's reply is stored, and the second query gets it: its question, its answer. */
  lemma OtherTypeIsServed(setup: Setup, init: Rules, first: Msg, second: Msg, raw: Msg) returns (events: seq<Event>)
    requires Truncates(setup.truncate) && Sharing(setup, init, first, second, raw) && forall m :: setup.pack(m).Some?
    ensures var log := Run(setup, init, events).log;
            && log != [] && var last := log[|log| - 1];
            && last.Sent? && last.query == second && last.reply.question == first.question && last.reply.question != second.question
            && last.reply == Wire(setup, Udp, second, raw.(id := second.id))
  {
    hide Local, Stores, Cacheable, Lifetime, CacheKey, Truncates, Wire;
    assert Run(setup, init, []) == Init(init);
    hide Run;
    var e1 := MissStores(setup, init, [], first, Replied(raw, Validation.Secure), 0);
    var s := Run(setup, init, e1);
    assert Found(setup, s.view, second, 0) == Some(raw);
    hide Found;
    events := HitSends(setup, init, e1, second, 0);
    assert Screened(init, second, raw.(id := second.id)) == raw.(id := second.id);
    QuestionIsKept(setup, second, raw.(id := second.id));
  }

  lemma QuestionIsKept(setup: Setup, query: Msg, resp: Msg)
    requires Truncates(setup.truncate)
    ensures Wire(setup, Udp, query, resp).question == resp.question
  {
    hide Normalized;
    NormalizedMeans(resp, query);
  }

  /** At an input: two private-use types, for which the library has no mnemonic. */
  lemma OtherTypeAtAnInput(mn: Mnemonics) returns (events: seq<Event>)
    requires mn.typeName(65280) == "" && mn.typeName(65281) == ""
    ensures var setup := Setup(ResponseCache.Options(true, 100, 0, 86400, 0, 1), mn, true, false, (m: Msg) => None, (m: Msg) => Some([]), (m: Msg, n: nat) => m);
            var second := Msg(8, false, 0, false, false, false, [Question("a.x.", 65281, 1)], [], [], []);
            var log := Run(setup, Rules(None, false, Lists.EMPTY, None), events).log;
            && log != [] && var last := log[|log| - 1];
            last.Sent? && last.query == second && last.reply.question == [Question("a.x.", 65280, 1)]
  {
    hide Run, Canonical;
    var setup := Setup(ResponseCache.Options(true, 100, 0, 86400, 0, 1), mn, true, false, (m: Msg) => None, (m: Msg) => Some([]), (m: Msg, n: nat) => m);
    var init := Rules(None, false, Lists.EMPTY, None);
    var first := Msg(7, false, 0, false, false, false, [Question("a.x.", 65280, 1)], [], [], []);
    var second := Msg(8, false, 0, false, false, false, [Question("a.x.", 65281, 1)], [], [], []);
    var raw := first.(isResponse := true, answer := [OtherRR("a.x.", 300, 65280, "data")]);
    MinTtlMeans(raw);
    assert raw.answer[0] in raw.answer && Bounds(raw, raw.answer[0]) && MinTtlOf(raw) == 300;
    hide MinTtlOf;
    KeyIsShared(mn, first, second);
    events := OtherTypeIsServed(setup, init, first, second, raw);
  }

  lemma KeyIsShared(mn: Mnemonics, first: Msg, second: Msg)
    requires |first.question| == 1 && |second.question| == 1 && CacheHistory.SameKeyed(mn, first.question[0], second.question[0]) && WantsDnssec(first) == WantsDnssec(second)
    ensures CacheKey(mn, first) == CacheKey(mn, second)
  {
    hide WantsDnssec;
  }
}
