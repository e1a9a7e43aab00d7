/** The query handlers as written: they edit one reply in place between the cache and the socket.  Each
    is proved against the decisions of `Serving`, with nothing else running in between. */
module Server {
  import opened Dns
  import opened Edns
  import opened ResponseCache
  import opened Policy
  import opened Framing
  import opened Validation
  import opened Chain
  import opened Serving

  /** Of these counters `bypassed` and `dropped` are the model's own. */
  class Stats {
    var n: Counters

    constructor ()
      ensures n == Counters(0, 0, 0, 0, 0, 0, 0, 0, 0, 0)
    {
      n := Counters(0, 0, 0, 0, 0, 0, 0, 0, 0, 0);
    }

    method RecordResponse(rcode: nat)
      modifies this
      ensures n == Bucketed(old(n), rcode)
    {
      match rcode
      case 0 => n := n.(success := n.success + 1);
      case 2 => n := n.(servfail := n.servfail + 1);
      case 3 => n := n.(nxdomain := n.nxdomain + 1);
      case _ => n := n.(other := n.other + 1);
    }
  }

  datatype Path = Locally | FromCache | FromUpstream

  /** What one query adds to the counters before its reply is sent. */
  function Ingress(setup: Setup, mode: Mode, n: Counters, path: Path): Counters {
    var m := n.(total := n.total + 1);
    match path
    case Locally => m
    case FromCache => m.(hits := m.hits + 1)
    case FromUpstream =>
      if mode.Dot? && !setup.hasCache then m.(bypassed := m.bypassed + 1, upstream := m.upstream + 1)
      else m.(misses := m.misses + 1, upstream := m.upstream + 1)
  }

  ghost predicate Ends(setup: Setup, mode: Mode, n: Counters, n': Counters, query: Msg, resp: Msg, wrote: bool, reply: Option<Msg>) {
    var wire := Wire(setup, mode, query, resp);
    if Delivered(setup, mode, wire, wrote) then reply == Some(wire) && n' == Bucketed(n, resp.rcode)
    else reply == None && n' == n.(dropped := n.dropped + 1)
  }

  function Remaining(setup: Setup, v: View, query: Msg, now: int): View
    requires query.question != []
  {
    if setup.hasCache && setup.o.enabled then AfterGet(setup.o, v, CacheKey(setup.mn, query), now) else v
  }

  /** One query from arrival to reply: what is sent, what the cache holds afterwards, what is counted. */
  ghost predicate Handled(setup: Setup, mode: Mode, rules: Rules, v: View, v': View, n: Counters, n': Counters,
                          query: Msg, up: Upstream, now: int, wrote: bool, reply: Option<Msg>) {
    var local := Local(setup, mode, rules, query);
    if local.Some? then
      v' == v && Ends(setup, mode, Ingress(setup, mode, n, Locally), n', query, local.value, wrote, reply)
    else
      var hit := Found(setup, v, query, now);
      if hit.Some? then
        v' == v && Ends(setup, mode, Ingress(setup, mode, n, FromCache), n', query, Screened(rules, query, hit.value.(id := query.id)), wrote, reply)
      else
        var w := Remaining(setup, v, query, now);
        var resp := Outcome(setup, mode, w, query, up, now);
        && Filled(setup, mode, w, v', query, up, now, resp)
        && Ends(setup, mode, Ingress(setup, mode, n, FromUpstream), n', query, Screened(rules, query, resp), wrote, reply)
  }

  /** What a miss leaves behind: the response, and the cache with or without it. */
  ghost predicate Filled(setup: Setup, mode: Mode, w: View, v': View, query: Msg, up: Upstream, now: int, resp: Msg) {
    && resp == Outcome(setup, mode, w, query, up, now)
    && if Offered(setup, mode, up, resp) then PutStep(setup.o, setup.mn, w, v', query, resp, now) else v' == w
  }

  lemma HandledLocally(setup: Setup, mode: Mode, rules: Rules, v: View, n: Counters, n': Counters, query: Msg, up: Upstream, now: int, wrote: bool, reply: Option<Msg>)
    requires Local(setup, mode, rules, query).Some?
    requires Ends(setup, mode, n.(total := n.total + 1), n', query, Local(setup, mode, rules, query).value, wrote, reply)
    ensures Handled(setup, mode, rules, v, v, n, n', query, up, now, wrote, reply)
  {
    hide Local, Found, Filled, Ends, Screened, Remaining, Outcome;
  }

  lemma HandledFromCache(setup: Setup, mode: Mode, rules: Rules, v: View, n: Counters, n': Counters, query: Msg, up: Upstream, now: int, wrote: bool, reply: Option<Msg>)
    requires Local(setup, mode, rules, query).None? && Found(setup, v, query, now).Some?
    requires Ends(setup, mode, n.(total := n.total + 1, hits := n.hits + 1), n', query,
                  Screened(rules, query, Found(setup, v, query, now).value.(id := query.id)), wrote, reply)
    ensures Handled(setup, mode, rules, v, v, n, n', query, up, now, wrote, reply)
  {
    hide Local, Found, Filled, Ends, Screened, Remaining, Outcome;
  }

  lemma HandledUpstream(setup: Setup, mode: Mode, rules: Rules, v: View, v': View, n: Counters, n': Counters, query: Msg, up: Upstream, now: int, wrote: bool, reply: Option<Msg>)
    requires query.question != [] && Local(setup, mode, rules, query).None? && Found(setup, v, query, now).None?
    requires var w := Remaining(setup, v, query, now);
             var resp := Outcome(setup, mode, w, query, up, now);
             Filled(setup, mode, w, v', query, up, now, resp) &&
             Ends(setup, mode, Ingress(setup, mode, n, FromUpstream), n', query, Screened(rules, query, resp), wrote, reply)
    ensures Handled(setup, mode, rules, v, v', n, n', query, up, now, wrote, reply)
  {
    hide Local, Found, Filled, Ends, Screened, Remaining, Outcome;
  }

  class Listener {
    const setup: Setup
    const cache: Cache?
    const policy: Policy
    const validator: Validator?
    const options: Validation.Options
    const stats: Stats

    constructor (setup: Setup, cache: Cache?, policy: Policy, validator: Validator?, options: Validation.Options, stats: Stats)
      ensures this.setup == setup.(hasCache := cache != null, validates := validator != null,
                                   o := if cache != null then cache.o else setup.o, mn := if cache != null then cache.mn else setup.mn)
      ensures this.cache == cache && this.policy == policy && this.validator == validator && this.options == options && this.stats == stats
    {
      this.setup := setup.(hasCache := cache != null, validates := validator != null,
                           o := if cache != null then cache.o else setup.o, mn := if cache != null then cache.mn else setup.mn);
      this.cache, this.policy, this.validator, this.options, this.stats := cache, policy, validator, options, stats;
    }

    ghost predicate Valid()
      reads this, cache
    {
      && setup.hasCache == (cache != null) && setup.validates == (validator != null)
      && (cache != null ==> cache.Valid() && cache.o == setup.o && cache.mn == setup.mn)
    }

    ghost function Held(): View
      reads this, cache, if cache == null then {} else cache.repr
      requires Valid()
    {
      if cache == null then map[] else cache.Contents()
    }

    /** The reply belongs to this handler: the cache does not hold it. */
    ghost predicate Own(m: Message)
      reads this, cache
    {
      cache != null ==> m !in cache.repr
    }

    /** What the upstream said, with the validator's verdict on it when there is a validator. */
    ghost predicate Judged(raw: Option<Msg>, up: Upstream, before: Option<Session>, after: Option<Session>) {
      match raw
      case None => up == Upstream.Failed && after == before
      case Some(m) =>
        && up.Replied? && up.raw == m
        && (if before.Some? && validator != null then (up.verdict, after) == (var r := Validate(validator.cf, options, before.value, m); (r.0, Some(r.1)))
            else after == before)
    }

    ghost function Walks(): Option<Session>
      reads this, validator, if validator == null then {} else {validator.keyCache}
    {
      if validator == null then None else Some(validator.State())
    }

    method UpstreamFailureResponse(query: Msg, now: int) returns (r: Message)
      requires Valid()
      ensures fresh(r) && r.m == Failure(setup, Tcp, Held(), query, now)
    {
      if cache != null {
        var stale := cache.GetStale(query, now);
        if stale != null {
          stale.m := stale.m.(id := query.id);
          return stale;
        }
      }
      r := new Message(Synthesized(query, RCODE_SERVER_FAILURE));
    }

    method CacheableResponse(resp: Msg) returns (r: bool)
      requires Valid() && cache != null
      ensures r == Cacheable(setup.o, Tcp, resp)
    {
      if resp.rcode == RCODE_SUCCESS && |resp.answer| > 0 {
        return true;
      }
      if cache.o.negTTLMax > 0 {
        if resp.rcode == RCODE_NAME_ERROR || (resp.rcode == RCODE_SUCCESS && |resp.answer| == 0) {
          return true;
        }
      }
      return false;
    }

    method ApplyDNSSEC(mode: Mode, response: Message, query: Msg, now: int) returns (r: Message, ghost up: Upstream)
      requires Valid() && validator != null && Own(response) && !mode.Dot?
      modifies validator, validator.keyCache, response
      ensures Valid() && Held() == old(Held()) && (r == response || fresh(r)) && Own(r)
      ensures Judged(Some(old(response.m)), up, old(Walks()), Walks())
      ensures r.m == Outcome(setup, mode, Held(), query, up, now)
    {
      hide Validate, Failure, Listener.Held;
      var verdict := ValidateResponse(validator, options, response.m);
      up := Replied(response.m, verdict);
      match verdict
      case Secure =>
        response.m := response.m.(authenticated := true);
        r := response;
      case InsecureAnswer =>
        response.m := response.m.(authenticated := false);
        r := response;
      case Bogus(_) =>
        r := UpstreamFailureResponse(query, now);
        SameFailure(setup, mode, Held(), query, now);
    }

    /** The cache keeps a copy, so the edits that follow do not reach the entry. */
    method Offer(query: Msg, r: Message, eligible: bool, now: int)
      requires Valid() && Own(r)
      modifies cache
      ensures Valid() && Own(r) && r.m == old(r.m)
      ensures if cache != null && query.question != [] && eligible then PutStep(setup.o, setup.mn, old(Held()), Held(), query, r.m, now)
              else Held() == old(Held())
    {
      hide PutStep;
      if cache != null && |query.question| > 0 && eligible {
        cache.Put(query, r, now);
      }
    }

    method AskMode1(mode: Mode, query: Msg, raw: Option<Msg>, now: int) returns (r: Message, ghost up: Upstream)
      requires Valid() && !mode.Dot?
      modifies validator, if validator == null then {} else {validator.keyCache}
      ensures Valid() && Held() == old(Held()) && fresh(r) && Own(r)
      ensures Judged(raw, up, old(Walks()), Walks()) && r.m == Outcome(setup, mode, Held(), query, up, now)
    {
      hide Validate, Failure, Listener.Held;
      if raw.None? {
        r := UpstreamFailureResponse(query, now);
        up := Upstream.Failed;
        SameFailure(setup, mode, Held(), query, now);
        return;
      }
      r := new Message(raw.value);
      if validator != null {
        r, up := ApplyDNSSEC(mode, r, query, now);
      } else {
        up := Replied(raw.value, Secure);
      }
    }

    /** A miss in Mode 1: ask, validate, store. */
    method ResolveMode1(mode: Mode, query: Msg, raw: Option<Msg>, now: int) returns (r: Message, ghost up: Upstream)
      requires Valid() && !mode.Dot? && query.question != []
      modifies cache, validator, if validator == null then {} else {validator.keyCache}
      ensures Valid() && fresh(r) && Own(r)
      ensures Judged(raw, up, old(Walks()), Walks()) && Filled(setup, mode, old(Held()), Held(), query, up, now, r.m)
    {
      hide Judged, Outcome, PutStep, Cacheable, Listener.Held, Listener.Walks;
      r, up := AskMode1(mode, query, raw, now);
      var eligible := false;
      if raw.Some? && cache != null {
        eligible := CacheableResponse(r.m);
        SameEligibility(setup.o, mode, r.m);
      }
      JudgedShape(raw, up, old(Walks()), Walks());
      Offer(query, r, eligible, now);
    }

    lemma JudgedShape(raw: Option<Msg>, up: Upstream, before: Option<Session>, after: Option<Session>)
      requires Judged(raw, up, before, after)
      ensures up.Replied? <==> raw.Some?
    {
    }

    method AskMode2(query: Msg, raw: Option<Msg>, ghost now: int) returns (r: Message, ghost up: Upstream)
      requires Valid()
      modifies validator, if validator == null then {} else {validator.keyCache}
      ensures Valid() && Held() == old(Held()) && fresh(r) && Own(r)
      ensures Judged(raw, up, old(Walks()), Walks()) && r.m == Outcome(setup, Dot, Held(), query, up, now)
    {
      hide Validate, Listener.Held;
      if raw.None? {
        up := Upstream.Failed;
        r := new Message(Synthesized(query, RCODE_SERVER_FAILURE));
        return;
      }
      r := new Message(raw.value);
      if validator == null {
        up := Replied(raw.value, Secure);
        return;
      }
      var verdict := ValidateResponse(validator, options, r.m);
      up := Replied(raw.value, verdict);
      match verdict
      case Secure => r.m := r.m.(authenticated := true);
      case InsecureAnswer => r.m := r.m.(authenticated := false);
      case Bogus(_) => r := new Message(Synthesized(query, RCODE_SERVER_FAILURE));
    }

    /** A miss in Mode 2: no stale answers, and only NOERROR is stored. */
    method ResolveMode2(query: Msg, raw: Option<Msg>, now: int) returns (r: Message, ghost up: Upstream)
      requires Valid() && query.question != []
      modifies cache, validator, if validator == null then {} else {validator.keyCache}
      ensures Valid() && fresh(r) && Own(r)
      ensures Judged(raw, up, old(Walks()), Walks()) && Filled(setup, Dot, old(Held()), Held(), query, up, now, r.m)
    {
      hide Judged, Outcome, PutStep, Listener.Held, Listener.Walks;
      r, up := AskMode2(query, raw, now);
      JudgedShape(raw, up, old(Walks()), Walks());
      FailedIsServfail(setup, Held(), query, up, now);
      Offer(query, r, r.m.rcode == RCODE_SUCCESS, now);
    }

    /** `packUDP` and the datagram: it counts as sent once it packs. */
    method SendUdp(query: Msg, response: Message) returns (reply: Option<Msg>)
      requires Valid() && Own(response)
      modifies stats, response
      ensures Valid() && Held() == old(Held()) && Walks() == old(Walks()) && policy.Now() == old(policy.Now())
      ensures Ends(setup, Udp, old(stats.n), stats.n, query, old(response.m), true, reply)
    {
      hide Normalized, UdpLimit, Listener.Held;
      EnsureResponseEDNS(response, query);
      NormalizedKeepsRcode(old(response.m), query);
      var before := response.m.rcode;
      var wire := setup.truncate(response.m, UdpLimit(query));
      if setup.pack(wire).None? {
        stats.n := stats.n.(dropped := stats.n.dropped + 1);
        return None;
      }
      stats.RecordResponse(before);
      return Some(wire);
    }

    /** `packStream`, the prefix and the body; the bucket goes by the reply, not by its replacement. */
    method SendStream(mode: Mode, query: Msg, response: Message, wrote: bool) returns (reply: Option<Msg>)
      requires Valid() && Own(response) && !mode.Udp?
      modifies stats, response
      ensures Valid() && Held() == old(Held()) && Walks() == old(Walks()) && policy.Now() == old(policy.Now())
      ensures Ends(setup, mode, old(stats.n), stats.n, query, old(response.m), wrote, reply)
    {
      hide Normalized, Listener.Held;
      EnsureResponseEDNS(response, query);
      NormalizedKeepsRcode(old(response.m), query);
      var buf, replaced := PackStream(setup.pack, response.m, query);
      if buf.None? || !wrote {
        stats.n := stats.n.(dropped := stats.n.dropped + 1);
        return None;
      }
      stats.RecordResponse(response.m.rcode);
      return Some(if replaced then Oversize(query) else response.m);
    }

    method CacheGet(query: Msg, now: int) returns (hit: Message?)
      requires Valid() && query.question != []
      modifies cache
      ensures Valid() && (hit != null ==> fresh(hit) && Own(hit))
      ensures match Found(setup, old(Held()), query, now)
              case None => hit == null && Held() == Remaining(setup, old(Held()), query, now)
              case Some(m) => hit != null && hit.m == m && Held() == old(Held())
    {
      hide KeyOf, WantsDnssec;
      if cache != null {
        hit := cache.Get(query, now);
      } else {
        hit := null;
      }
    }

    /** A hit, renumbered and screened under the rules of this moment. */
    method ServeHit(query: Msg, now: int) returns (r: Message?)
      requires Valid() && query.question != []
      modifies stats, policy`denied, cache
      ensures Valid() && policy.Now() == old(policy.Now()) && Walks() == old(Walks()) && (r != null ==> fresh(r) && Own(r))
      ensures match Found(setup, old(Held()), query, now)
              case None => r == null && Held() == Remaining(setup, old(Held()), query, now) && stats.n == old(stats.n)
              case Some(m) => r != null && r.m == Screened(policy.Now(), query, m.(id := query.id)) && Held() == old(Held()) &&
                              stats.n == old(stats.n).(hits := old(stats.n).hits + 1)
    {
      hide Found, Screened, Remaining, Listener.Held, Listener.Walks, Policy.Now;
      var cached := CacheGet(query, now);
      if cached == null {
        return null;
      }
      stats.n := stats.n.(hits := stats.n.hits + 1);
      cached.m := cached.m.(id := query.id);
      r := policy.Answer(query, cached);
    }

    /** A miss in Mode 1, from the counters to the screened reply. */
    method ServeMode1(mode: Mode, query: Msg, raw: Option<Msg>, now: int) returns (r: Message, ghost up: Upstream)
      requires Valid() && !mode.Dot? && query.question != []
      modifies stats, policy`denied, cache, validator, if validator == null then {} else {validator.keyCache}
      ensures Valid() && policy.Now() == old(policy.Now()) && fresh(r) && Own(r)
      ensures stats.n == old(stats.n).(misses := old(stats.n).misses + 1, upstream := old(stats.n).upstream + 1)
      ensures Judged(raw, up, old(Walks()), Walks())
      ensures var resp := Outcome(setup, mode, old(Held()), query, up, now);
              Filled(setup, mode, old(Held()), Held(), query, up, now, resp) && r.m == Screened(policy.Now(), query, resp)
    {
      hide Filled, Outcome, Screened, Judged, Listener.Held, Listener.Walks, Listener.Valid, Policy.Now;
      stats.n := stats.n.(misses := stats.n.misses + 1);
      stats.n := stats.n.(upstream := stats.n.upstream + 1);
      r, up := ResolveMode1(mode, query, raw, now);
      FilledIs(setup, mode, old(Held()), Held(), query, up, now, r.m);
      r := policy.Answer(query, r);
    }

    /** A miss in Mode 2; it is counted as one only where there is a cache to miss. */
    method ServeMode2(query: Msg, raw: Option<Msg>, now: int) returns (r: Message, ghost up: Upstream)
      requires Valid() && query.question != []
      modifies stats, policy`denied, cache, validator, if validator == null then {} else {validator.keyCache}
      ensures Valid() && policy.Now() == old(policy.Now()) && fresh(r) && Own(r)
      ensures stats.n == (if setup.hasCache then old(stats.n).(misses := old(stats.n).misses + 1, upstream := old(stats.n).upstream + 1)
                          else old(stats.n).(bypassed := old(stats.n).bypassed + 1, upstream := old(stats.n).upstream + 1))
      ensures Judged(raw, up, old(Walks()), Walks())
      ensures var resp := Outcome(setup, Dot, old(Held()), query, up, now);
              Filled(setup, Dot, old(Held()), Held(), query, up, now, resp) && r.m == Screened(policy.Now(), query, resp)
    {
      hide Filled, Outcome, Screened, Judged, Listener.Held, Listener.Walks, Policy.Now;
      if cache != null {
        stats.n := stats.n.(misses := stats.n.misses + 1);
      } else {
        stats.n := stats.n.(bypassed := stats.n.bypassed + 1);
      }
      stats.n := stats.n.(upstream := stats.n.upstream + 1);
      r, up := ResolveMode2(query, raw, now);
      FilledIs(setup, Dot, old(Held()), Held(), query, up, now, r.m);
      r := policy.Answer(query, r);
    }

    method AnswerLocally(mode: Mode, query: Msg) returns (r: Message?)
      requires Valid()
      modifies policy`denied, policy`blocked
      ensures Valid() && Held() == old(Held()) && Walks() == old(Walks()) && policy.Now() == old(policy.Now()) && (r != null ==> fresh(r) && Own(r))
      ensures match Local(setup, mode, policy.Now(), query)
              case None => r == null && |query.question| == 1
              case Some(m) => r != null && r.m == m
    {
      hide Refusal;
      if |query.question| != 1 {
        r := new Message(Synthesized(query, RCODE_FORMAT_ERROR));
      } else if mode.Dot? && setup.ddr(query).Some? {
        r := new Message(setup.ddr(query).value);
      } else {
        var refusal := policy.Response(query);
        if refusal.None? {
          return null;
        }
        r := new Message(refusal.value);
      }
    }

    method Received()
      requires Valid()
      modifies stats
      ensures Valid() && Held() == old(Held()) && Walks() == old(Walks()) && policy.Now() == old(policy.Now())
      ensures stats.n == old(stats.n).(total := old(stats.n).total + 1)
    {
      hide Listener.Held;
      stats.n := stats.n.(total := stats.n.total + 1);
    }

    /** One datagram. */
    method HandleDNSQuery(query: Msg, raw: Option<Msg>, now: int) returns (reply: Option<Msg>, ghost up: Upstream)
      requires Valid()
      modifies stats, policy`denied, policy`blocked, cache, validator, if validator == null then {} else {validator.keyCache}
      ensures Valid() && policy.Now() == old(policy.Now())
      ensures Handled(setup, Udp, old(policy.Now()), old(Held()), Held(), old(stats.n), stats.n, query, up, now, true, reply)
      ensures if Local(setup, Udp, old(policy.Now()), query).None? && Found(setup, old(Held()), query, now).None?
              then Judged(raw, up, old(Walks()), Walks()) else Walks() == old(Walks())
    {
      hide Handled, Local, Found, Filled, Ends, Screened, Remaining, Judged, Outcome, Listener.Held, Listener.Walks, Listener.Valid, Listener.Own, Policy.Now;
      ghost var rules, held, n := policy.Now(), Held(), stats.n;
      up := Upstream.Failed;
      Received();
      var local := AnswerLocally(Udp, query);
      if local != null {
        reply := SendUdp(query, local);
        HandledLocally(setup, Udp, rules, held, n, stats.n, query, up, now, true, reply);
        return;
      }
      var cached := ServeHit(query, now);
      if cached != null {
        reply := SendUdp(query, cached);
        HandledFromCache(setup, Udp, rules, held, n, stats.n, query, up, now, true, reply);
        return;
      }
      var response;
      response, up := ServeMode1(Udp, query, raw, now);
      reply := SendUdp(query, response);
      HandledUpstream(setup, Udp, rules, held, Held(), n, stats.n, query, up, now, true, reply);
    }

    /** One message of a TCP connection: each source of a reply is tried only if the ones before it
        gave none, and all share the sending tail. */
    method HandleTCPMessage(query: Msg, raw: Option<Msg>, now: int, wrote: bool) returns (reply: Option<Msg>, ghost up: Upstream)
      requires Valid()
      modifies stats, policy`denied, policy`blocked, cache, validator, if validator == null then {} else {validator.keyCache}
      ensures Valid() && policy.Now() == old(policy.Now())
      ensures Handled(setup, Tcp, old(policy.Now()), old(Held()), Held(), old(stats.n), stats.n, query, up, now, wrote, reply)
      ensures if Local(setup, Tcp, old(policy.Now()), query).None? && Found(setup, old(Held()), query, now).None?
              then Judged(raw, up, old(Walks()), Walks()) else Walks() == old(Walks())
    {
      hide Handled, Local, Found, Filled, Ends, Screened, Remaining, Judged, Outcome, Listener.Held, Listener.Walks, Listener.Valid, Listener.Own, Policy.Now;
      ghost var rules, held, n := policy.Now(), Held(), stats.n;
      up := Upstream.Failed;
      Received();
      var response := AnswerLocally(Tcp, query);
      if response == null {
        response := ServeHit(query, now);
      }
      if response == null {
        response, up := ServeMode1(Tcp, query, raw, now);
      }
      reply := SendStream(Tcp, query, response, wrote);
      if Local(setup, Tcp, rules, query).Some? {
        HandledLocally(setup, Tcp, rules, held, n, stats.n, query, up, now, wrote, reply);
      } else if Found(setup, held, query, now).Some? {
        HandledFromCache(setup, Tcp, rules, held, n, stats.n, query, up, now, wrote, reply);
      } else {
        HandledUpstream(setup, Tcp, rules, held, Held(), n, stats.n, query, up, now, wrote, reply);
      }
    }

    /** One message of a DoT connection: the discovery zone answers before the policy. */
    method HandleDoTMessage(query: Msg, raw: Option<Msg>, now: int, wrote: bool) returns (reply: Option<Msg>, ghost up: Upstream)
      requires Valid()
      modifies stats, policy`denied, policy`blocked, cache, validator, if validator == null then {} else {validator.keyCache}
      ensures Valid() && policy.Now() == old(policy.Now())
      ensures Handled(setup, Dot, old(policy.Now()), old(Held()), Held(), old(stats.n), stats.n, query, up, now, wrote, reply)
      ensures if Local(setup, Dot, old(policy.Now()), query).None? && Found(setup, old(Held()), query, now).None?
              then Judged(raw, up, old(Walks()), Walks()) else Walks() == old(Walks())
    {
      hide Handled, Local, Found, Filled, Ends, Screened, Remaining, Judged, Outcome, Listener.Held, Listener.Walks, Listener.Valid, Listener.Own, Policy.Now;
      ghost var rules, held, n := policy.Now(), Held(), stats.n;
      up := Upstream.Failed;
      Received();
      var response := AnswerLocally(Dot, query);
      if response == null {
        response := ServeHit(query, now);
      }
      if response == null {
        response, up := ServeMode2(query, raw, now);
      }
      reply := SendStream(Dot, query, response, wrote);
      if Local(setup, Dot, rules, query).Some? {
        HandledLocally(setup, Dot, rules, held, n, stats.n, query, up, now, wrote, reply);
      } else if Found(setup, held, query, now).Some? {
        HandledFromCache(setup, Dot, rules, held, n, stats.n, query, up, now, wrote, reply);
      } else {
        HandledUpstream(setup, Dot, rules, held, Held(), n, stats.n, query, up, now, wrote, reply);
      }
    }
  }

  lemma SameFailure(setup: Setup, mode: Mode, v: View, query: Msg, now: int)
    requires !mode.Dot?
    ensures Failure(setup, mode, v, query, now) == Failure(setup, Tcp, v, query, now)
  {
  }

  lemma FilledIs(setup: Setup, mode: Mode, w: View, v': View, query: Msg, up: Upstream, now: int, resp: Msg)
    requires Filled(setup, mode, w, v', query, up, now, resp)
    ensures resp == Outcome(setup, mode, w, query, up, now)
  {
  }

  lemma SameEligibility(o: ResponseCache.Options, mode: Mode, resp: Msg)
    requires !mode.Dot?
    ensures Cacheable(o, mode, resp) == Cacheable(o, Tcp, resp)
  {
  }

  lemma FailedIsServfail(setup: Setup, v: View, query: Msg, up: Upstream, now: int)
    ensures up.Failed? ==> Outcome(setup, Dot, v, query, up, now).rcode == RCODE_SERVER_FAILURE
  {
  }

  lemma NormalizedKeepsRcode(response: Msg, query: Msg)
    ensures Normalized(response, query).rcode == response.rcode
  {
    hide Normalized;
    NormalizedMeans(response, query);
  }
}
