/** What a query is answered with, from its own point of view: every case, by what a caller can see. */
module Decisions {
  import opened Dns
  import opened Edns
  import opened ResponseCache
  import opened Policy
  import opened Framing
  import opened Validation
  import opened Serving
  import opened Server

  /** Neither malformed, nor for the discovery zone, nor refused by the lists. */
  ghost predicate GoesOn(setup: Setup, mode: Mode, rules: Rules, query: Msg) {
    && |query.question| == 1 && !(mode.Dot? && setup.ddr(query).Some?)
    && AllowlistAdmits(rules, query) && BlocklistAdmits(rules, query)
  }

  /** The cache holds an answer to the query that expires no earlier than now. */
  ghost predicate FreshEntry(setup: Setup, v: View, query: Msg, now: int) {
    setup.hasCache && setup.o.enabled && query.question != [] && CacheKey(setup.mn, query) in v && now <= v[CacheKey(setup.mn, query)].expiresAt
  }

  /** Or one that has expired, but less than the stale window ago. */
  ghost predicate StaleEntry(setup: Setup, v: View, query: Msg, now: int) {
    && setup.hasCache && setup.o.enabled && query.question != [] && CacheKey(setup.mn, query) in v && setup.o.serveStaleMaxS > 0
    && var end := v[CacheKey(setup.mn, query)].expiresAt; end < now <= end + setup.o.serveStaleMaxS * 1_000_000_000
  }

  /** The upstream gave no reply, or one that the validator refuses. */
  predicate NoGoodReply(setup: Setup, up: Upstream) {
    up.Failed? || (setup.validates && up.verdict.Bogus?)
  }

  /** What is answered on the spot: FORMERR for anything but one question; the discovery zone in Mode 2; REFUSED
      if the allowlist or the types do not admit the query, NXDOMAIN if the blocklist does not. */
  lemma LocalIs(setup: Setup, mode: Mode, rules: Rules, query: Msg)
    ensures Local(setup, mode, rules, query) == None <==> GoesOn(setup, mode, rules, query)
    ensures !GoesOn(setup, mode, rules, query) ==>
              var r := Local(setup, mode, rules, query).value;
              if |query.question| != 1 then Answers(query, r, 1)
              else if mode.Dot? && setup.ddr(query).Some? then r == setup.ddr(query).value
              else Answers(query, r, if AllowlistAdmits(rules, query) then 3 else 5)
  {
    hide AllowlistAdmits, BlocklistAdmits, Refusal;
    RefusalIff(rules, query);
  }

  /** What a query that goes on finds in the cache: the entry under its key, exactly while that is fresh. */
  lemma FoundIs(setup: Setup, v: View, query: Msg, now: int)
    ensures Found(setup, v, query, now) == if FreshEntry(setup, v, query, now) then Some(v[CacheKey(setup.mn, query)].msg) else None
  {
    hide CacheKey;
  }

  /** What it gets otherwise: the upstream's reply, with AD exactly if it was found secure where there is a
      validator; and without a good reply SERVFAIL, except that Mode 1 falls back on a stale entry. */
  ghost predicate Resolved(setup: Setup, mode: Mode, v: View, query: Msg, up: Upstream, now: int, m: Msg) {
    if !NoGoodReply(setup, up) then m == if setup.validates then up.raw.(authenticated := up.verdict.Secure?) else up.raw
    else if !mode.Dot? && StaleEntry(setup, v, query, now) then m == v[CacheKey(setup.mn, query)].msg.(id := query.id)
    else Answers(query, m, 2)
  }

  lemma OutcomeIs(setup: Setup, mode: Mode, v: View, query: Msg, up: Upstream, now: int)
    ensures Resolved(setup, mode, v, query, up, now, Outcome(setup, mode, v, query, up, now))
  {
    hide CacheKey;
  }

  /** What is put into the cache: only where there is one and an upstream did reply; in Mode 1 a NOERROR with
      answers and, if negative caching is on, NXDOMAIN and an empty NOERROR; in Mode 2 any NOERROR. */
  lemma OfferedIff(setup: Setup, mode: Mode, up: Upstream, resp: Msg)
    ensures Offered(setup, mode, up, resp) <==>
            && setup.hasCache && up.Replied?
            && if mode.Dot? then resp.rcode == 0
               else (resp.rcode == 0 && resp.answer != []) || (setup.o.negTTLMax > 0 && (resp.rcode == 3 || (resp.rcode == 0 && resp.answer == [])))
  {
  }

  /** The size a client may be sent over UDP: 512 bytes without EDNS; else what its last OPT says, between 512
      and our own 1232. */
  lemma UdpLimitIs(query: Msg)
    ensures (forall rr :: rr in query.additional ==> !rr.OptRR?) ==> UdpLimit(query) == 512
    ensures forall i :: 0 <= i < |query.additional| && query.additional[i].OptRR? && (forall j :: i < j < |query.additional| ==> !query.additional[j].OptRR?) ==>
              var size := query.additional[i].udpSize;
              && 512 <= UdpLimit(query) <= 1232 && (512 <= size <= 1232 ==> UdpLimit(query) == size)
              && (size < 512 ==> UdpLimit(query) == 512) && (size > 1232 ==> UdpLimit(query) == 1232)
  {
    hide LastOpt;
    var rrs := query.additional;
    if LastOpt(rrs).Some? {
      assert rrs[LastOpt(rrs).value] in rrs;
    }
    forall i | 0 <= i < |rrs| && rrs[i].OptRR? && (forall j :: i < j < |rrs| ==> !rrs[j].OptRR?) ensures LastOpt(rrs) == Some(i) {
      LastOptIs(rrs, i);
    }
  }

  /** Which bucket rises: that of the response code before packing, and no other counter of the four. */
  lemma BucketIs(n: Counters, rcode: nat)
    ensures var m := Bucketed(n, rcode);
            && m.success == n.success + (if rcode == 0 then 1 else 0) && m.servfail == n.servfail + (if rcode == 2 then 1 else 0)
            && m.nxdomain == n.nxdomain + (if rcode == 3 then 1 else 0) && m.other == n.other + (if rcode in {0, 2, 3} then 0 else 1)
            && m == n.(success := m.success, servfail := m.servfail, nxdomain := m.nxdomain, other := m.other)
  {
  }

  /** A reply goes out on a stream as it is unless it is too long for the prefix, and then as a SERVFAIL under
      the query's own ID and question. */
  lemma CarriedIs(pack: Packer, response: Msg, query: Msg)
    ensures pack(response).None? || |pack(response).value| <= 65535 ==> Carried(pack, response, query) == response
    ensures pack(response).Some? && |pack(response).value| > 65535 ==> Answers(query, Carried(pack, response, query), 2)
  {
    hide Normalized;
    NormalizedMeans(Synthesized(query, RCODE_SERVER_FAILURE), query);
    assert Filter(NotDnssec, []) == [];
  }

  /** A datagram counts as sent if it packs; on a stream the write has to succeed as well. */
  lemma DeliveredIff(setup: Setup, mode: Mode, wire: Msg, wrote: bool)
    ensures Delivered(setup, mode, wire, wrote) <==> setup.pack(wire).Some? && (mode == Udp || wrote)
  {
  }

  /** On the wire a client that did not ask for DNSSEC finds none in the answer, and on a stream every reply
      that fits arrives with all its other records. */
  lemma WireRespects(setup: Setup, mode: Mode, query: Msg, resp: Msg)
    requires Truncates(setup.truncate)
    ensures var w := Wire(setup, mode, query, resp);
            && (!WantsDnssec(query) ==> forall rr :: rr in w.answer ==> rr in resp.answer && RRType(rr) !in {46, 47, 50, 48, 43})
            && (mode.Udp? ==> w == setup.truncate(Normalized(resp, query), UdpLimit(query)))
            && (!mode.Udp? && (setup.pack(Normalized(resp, query)).None? || |setup.pack(Normalized(resp, query)).value| <= 65535) ==>
                  w == Normalized(resp, query) && forall rr :: rr in resp.answer && (WantsDnssec(query) || RRType(rr) !in {46, 47, 50, 48, 43}) ==> rr in w.answer)
  {
    hide Normalized, WantsDnssec, HasOpt, LastOpt, UdpLimit;
    NormalizedMeans(resp, query);
    NormalizedMeans(Synthesized(query, RCODE_SERVER_FAILURE), query);
    CarriedIs(setup.pack, Normalized(resp, query), query);
  }
}
