/** Outgoing replies: EDNS normalisation, in place on the message about to be sent. */
module Edns {
  import opened Dns

  const UDP_BUF_SIZE: nat := 1232

  /** A message on the heap: replies are edited in place between the cache and the socket. */
  class Message {
    var m: Msg

    constructor (m: Msg)
      ensures this.m == m
    {
      this.m := m;
    }

    /** `dns.Msg.Copy`: a new object, so later edits of either do not reach the other. */
    method Copy() returns (c: Message)
      ensures fresh(c) && c.m == m
    {
      c := new Message(m);
    }
  }

  /** `IsEdns0`: the last OPT record of the additional section. */
  function LastOpt(rrs: seq<RR>): (r: Option<nat>)
    ensures r.Some? ==> r.value < |rrs| && rrs[r.value].OptRR?
    ensures r.None? ==> forall i :: 0 <= i < |rrs| ==> !rrs[i].OptRR?
  {
    if rrs == [] then None
    else if rrs[|rrs| - 1].OptRR? then Some(|rrs| - 1)
    else LastOpt(rrs[..|rrs| - 1])
  }

  predicate HasOpt(m: Msg) {
    LastOpt(m.additional).Some?
  }

  predicate WantsDnssec(query: Msg) {
    HasOpt(query) && query.additional[LastOpt(query.additional).value].dnssecOk
  }

  predicate NotDnssec(rr: RR) {
    var t := RRType(rr);
    t != TYPE_RRSIG && t != TYPE_NSEC && t != TYPE_NSEC3 && t != TYPE_DNSKEY && t != TYPE_DS
  }

  predicate NotOpt(rr: RR) {
    RRType(rr) != TYPE_OPT
  }

  function StripDnssec(m: Msg): Msg {
    m.(answer := Filter(NotDnssec, m.answer),
       authority := Filter(NotDnssec, m.authority),
       additional := Filter(NotDnssec, m.additional))
  }

  function StripOpt(m: Msg): Msg {
    m.(additional := Filter(NotOpt, m.additional))
  }

  function SetOpt(m: Msg, dnssecOk: bool): Msg {
    var at := LastOpt(m.additional);
    m.(additional := if at.None? then m.additional + [OptRR(dnssecOk, UDP_BUF_SIZE, [])]
                     else m.additional[at.value := OptRR(dnssecOk, UDP_BUF_SIZE, m.additional[at.value].options)])
  }

  /** The reply a client may see: DNSSEC records only if it asked, an OPT exactly if it sent one. */
  function Normalized(response: Msg, query: Msg): Msg {
    var r := if WantsDnssec(query) then response else StripDnssec(response);
    if HasOpt(query) then SetOpt(r, WantsDnssec(query)) else StripOpt(r)
  }

  /** The in-place filter: the write index never passes the read index, so nothing is lost. */
  method FilterInPlace(keep: RR -> bool, rrs: array<RR>) returns (n: nat)
    modifies rrs
    ensures n <= rrs.Length && rrs[..n] == Filter(keep, old(rrs[..]))
  {
    hide Filter;
    n := 0;
    ghost var was := rrs[..];
    FilterNothing(keep);
    assert was[..0] == [] && rrs[..0] == [];
    for i := 0 to rrs.Length
      invariant n <= i
      invariant rrs[..n] == Filter(keep, was[..i])
      invariant forall k :: i <= k < rrs.Length ==> rrs[k] == was[k]
    {
      FilterSnoc(keep, was, i);
      if keep(rrs[i]) {
        ghost var kept := rrs[..n];
        rrs[n] := rrs[i];
        n := n + 1;
        assert rrs[..n] == kept + [was[i]];
      }
    }
    assert was[..rrs.Length] == was;
  }

  lemma FilterNothing(keep: RR -> bool)
    ensures Filter(keep, []) == []
  {
  }

  method FilterSection(keep: RR -> bool, section: seq<RR>) returns (r: seq<RR>)
    ensures r == Filter(keep, section)
  {
    var backing := new RR[|section|](i requires 0 <= i < |section| => section[i]);
    assert backing[..] == section;
    var n := FilterInPlace(keep, backing);
    r := backing[..n];
  }

  method EnsureResponseEDNS(response: Message, query: Msg)
    modifies response
    ensures response.m == Normalized(old(response.m), query)
  {
    var clientDO := WantsDnssec(query);
    if !clientDO {
      var answer := FilterSection(NotDnssec, response.m.answer);
      var authority := FilterSection(NotDnssec, response.m.authority);
      var additional := FilterSection(NotDnssec, response.m.additional);
      response.m := response.m.(answer := answer, authority := authority, additional := additional);
    }
    if !HasOpt(query) {
      var additional := FilterSection(NotOpt, response.m.additional);
      response.m := response.m.(additional := additional);
      return;
    }
    response.m := SetOpt(response.m, clientDO);
  }

  lemma {:induction false} LastOptIs(rrs: seq<RR>, i: nat)
    requires i < |rrs| && rrs[i].OptRR? && forall j :: i < j < |rrs| ==> !rrs[j].OptRR?
    ensures LastOpt(rrs) == Some(i)
  {
    if i < |rrs| - 1 {
      LastOptIs(rrs[..|rrs| - 1], i);
    }
  }

  lemma {:induction false} LastOptIsLast(rrs: seq<RR>)
    ensures LastOpt(rrs).Some? ==> forall j :: LastOpt(rrs).value < j < |rrs| ==> !rrs[j].OptRR?
  {
    if rrs != [] && !rrs[|rrs| - 1].OptRR? {
      LastOptIsLast(rrs[..|rrs| - 1]);
    }
  }

  lemma SetOptMeans(m: Msg, dnssecOk: bool)
    ensures var r := SetOpt(m, dnssecOk);
            HasOpt(r) && WantsDnssec(r) == dnssecOk && r.additional[LastOpt(r.additional).value].udpSize == UDP_BUF_SIZE
    ensures forall rr :: rr in SetOpt(m, dnssecOk).additional ==> rr in m.additional || rr.OptRR?
  {
    hide LastOpt;
    LastOptIsLast(m.additional);
    LastOptIs(SetOpt(m, dnssecOk).additional, if HasOpt(m) then LastOpt(m.additional).value else |m.additional|);
  }

  /** What is left of a section. */
  function Shown(section: seq<RR>, query: Msg): seq<RR> {
    if WantsDnssec(query) then section else Filter(NotDnssec, section)
  }

  /** What the client gets: an OPT exactly if it sent one, echoing its DO bit and our buffer size; no
      DNSSEC record unless it asked; header and question untouched, and every other record of every
      section kept in its place. */
  lemma NormalizedMeans(response: Msg, query: Msg)
    ensures var r := Normalized(response, query);
            && (HasOpt(query) ==> HasOpt(r) && WantsDnssec(r) == WantsDnssec(query) &&
                                  r.additional[LastOpt(r.additional).value].udpSize == 1232)
            && (!HasOpt(query) ==> forall rr :: rr in r.additional ==> NotOpt(rr))
            && (!WantsDnssec(query) ==> forall rr :: rr in r.answer + r.authority + r.additional ==> NotDnssec(rr))
            && r.answer == Shown(response.answer, query) && r.authority == Shown(response.authority, query)
            && Filter(NotOpt, r.additional) == Filter(NotOpt, Shown(response.additional, query))
            && r.(answer := [], authority := [], additional := []) == response.(answer := [], authority := [], additional := [])
  {
    hide LastOpt, Filter, SetOpt, HasOpt, WantsDnssec;
    var s := if WantsDnssec(query) then response else StripDnssec(response);
    if HasOpt(query) {
      SetOptMeans(s, WantsDnssec(query));
      SetOptKeeps(s, WantsDnssec(query));
    } else {
      FilterAll(NotOpt, Filter(NotOpt, s.additional));
    }
  }

  /** Replacing or appending an OPT leaves the other additional records as they were. */
  lemma SetOptKeeps(m: Msg, dnssecOk: bool)
    ensures SetOpt(m, dnssecOk).(additional := m.additional) == m
    ensures Filter(NotOpt, SetOpt(m, dnssecOk).additional) == Filter(NotOpt, m.additional)
  {
    hide Filter;
    var opt := OptRR(dnssecOk, UDP_BUF_SIZE, []);
    var longer := m.additional + [opt];
    assert longer[..|m.additional|] == m.additional;
    FilterSnoc(NotOpt, longer, |m.additional|);
    assert longer[..|longer|] == longer;
    var at := LastOpt(m.additional);
    if at.Some? {
      FilterReplaced(m.additional, at.value, OptRR(dnssecOk, UDP_BUF_SIZE, m.additional[at.value].options));
    }
  }

  lemma {:induction false} FilterReplaced(rrs: seq<RR>, i: nat, opt: RR)
    requires i < |rrs| && !NotOpt(rrs[i]) && !NotOpt(opt)
    ensures Filter(NotOpt, rrs[i := opt]) == Filter(NotOpt, rrs)
  {
    hide NotOpt, Filter;
    var n, other := |rrs| - 1, rrs[i := opt];
    assert rrs[..n + 1] == rrs && other[..n + 1] == other;
    FilterSnoc(NotOpt, rrs, n);
    FilterSnoc(NotOpt, other, n);
    if i == n {
      assert other[..n] == rrs[..n];
    } else {
      FilterReplaced(rrs[..n], i, opt);
      assert other[..n] == rrs[..n][i := opt];
    }
  }

  /** The types a client that did not ask for DNSSEC is not sent: RRSIG, NSEC, NSEC3, DNSKEY and DS. */
  lemma NotDnssecIff(rr: RR)
    ensures NotDnssec(rr) <==> RRType(rr) !in {46, 47, 50, 48, 43}
    ensures NotOpt(rr) <==> RRType(rr) != 41
  {
  }

  /** A client speaks EDNS exactly if its query has an OPT, and asks for DNSSEC exactly if the last one has the
      DO bit. */
  lemma WantsDnssecIff(query: Msg)
    ensures HasOpt(query) <==> exists rr :: rr in query.additional && rr.OptRR?
    ensures WantsDnssec(query) <==>
            exists i :: 0 <= i < |query.additional| && query.additional[i].OptRR? && query.additional[i].dnssecOk &&
              forall j :: i < j < |query.additional| ==> !query.additional[j].OptRR?
  {
    hide LastOpt;
    var rrs := query.additional;
    LastOptIsLast(rrs);
    if HasOpt(query) {
      assert rrs[LastOpt(rrs).value] in rrs;
    }
    if i :| 0 <= i < |rrs| && rrs[i].OptRR? && rrs[i].dnssecOk && forall j :: i < j < |rrs| ==> !rrs[j].OptRR? {
      LastOptIs(rrs, i);
    }
  }
}
