/** With an upstream that answers consistently, the shared key cache cannot be observed. */
module Transparency {
  import opened Dns
  import opened Signatures
  import opened Zones
  import opened Denial
  import opened KeyCache
  import opened Chain
  import opened Trust

  /** A fixed answer to every question. */
  type Upstream = (Name, nat) -> Reply

  // ---- the walk without a cache

  ghost function Served(a: Upstream, zone: Name, rrtype: nat): Fetched {
    var reply := a(zone, rrtype);
    if reply.NetworkError? then NotFetched(Unreachable)
    else if reply.NoMessage? || reply.msg.rcode != RCODE_SUCCESS then NotFetched(BadRcode)
    else if RecordsOf(reply.msg.answer, rrtype) == [] then NotFetched(NoRecords)
    else Fetched(RecordsOf(reply.msg.answer, rrtype), SigsOver(reply.msg.answer, rrtype))
  }

  ghost function PlainWalk(cf: Config, a: Upstream, now: int, zone: Name, depth: nat): WalkResult
    requires EndsWithDot(zone)
    decreases |zone|
  {
    if depth > MAX_CHAIN_DEPTH then Failed(DepthExceeded) else
    var f := Served(a, zone, TYPE_DNSKEY);
    if f.NotFetched? then Failed(f.reason) else
    if KeysOf(f.rrset) == [] then Failed(NoKeys) else
    if zone == ROOT then JudgeRoot(cf, now, f) else
    if !a(zone, TYPE_DS).Reply? then Failed(Unreachable) else
    var p := PlainWalk(cf, a, now, Parent(zone), depth + 1);
    if !p.Keys? then p else
    JudgeDelegation(cf.crypto, now, zone, f, a(zone, TYPE_DS).msg, p.keys)
  }

  // ---- coherent caches

  /** A slot holds what the upstream would answer now.  Of a DS reply it holds the answer only. */
  ghost predicate Faithful(a: Upstream, slot: Slot, rrs: seq<RR>) {
    && (slot.1 == TYPE_DNSKEY ==>
          Served(a, slot.0, slot.1).Fetched? && rrs == Kept(a(slot.0, slot.1).msg.answer, slot.1))
    && (slot.1 == TYPE_DS ==>
          && a(slot.0, slot.1).Reply? && RecordsOf(a(slot.0, slot.1).msg.answer, slot.1) != []
          && rrs == Kept(a(slot.0, slot.1).msg.answer, slot.1))
  }

  ghost predicate Coherent(a: Upstream, es: Entries) {
    forall slot | slot in es :: Faithful(a, slot, es[slot].rrs)
  }

  /** The upstream answers as `a`, the clock stands at `now`, and the other queries that share the
      cache keep it coherent. */
  ghost predicate Consistent(cf: Config, a: Upstream, now: int) {
    && cf.wired
    && (forall n, zone, rrtype :: cf.world.answer(n, zone, rrtype) == a(zone, rrtype))
    && (forall n :: cf.world.clock(n) == now)
    && (forall n, es :: Coherent(a, es) ==> Coherent(a, cf.world.others(n, es)))
  }

  /** Keeping the typed records and all signatures loses nothing a later split looks for. */
  lemma {:induction false} SplitOfKept(rrs: seq<RR>, rrtype: nat)
    requires rrtype != TYPE_RRSIG
    ensures RecordsOf(Kept(rrs, rrtype), rrtype) == RecordsOf(rrs, rrtype)
    ensures SigsOver(Kept(rrs, rrtype), rrtype) == SigsOver(rrs, rrtype)
  {
    if rrs != [] {
      var n := |rrs| - 1;
      SplitOfKept(rrs[..n], rrtype);
      var kept := Kept(rrs[..n], rrtype);
      assert (kept + [rrs[n]])[..|kept|] == kept;
      assert kept + [] == kept;
    }
  }

  lemma FetchIsTransparent(cf: Config, a: Upstream, now: int, s: Session, zone: Name)
    requires Consistent(cf, a, now) && Coherent(a, s.entries)
    ensures var (f, s') := Fetch(cf, s, zone, TYPE_DNSKEY);
            f == Served(a, zone, TYPE_DNSKEY) && Coherent(a, s'.entries)
  {
    hide RecordsOf, SigsOver, Kept, MinTtl;
    var es := cf.world.others(s.tick, s.entries);
    assert Coherent(a, es);
    var reply := a(zone, TYPE_DNSKEY);
    if reply.Reply? {
      SplitOfKept(reply.msg.answer, TYPE_DNSKEY);
    }
    var (hit, s1) := LookedUp(cf, s, (zone, TYPE_DNSKEY));
    assert Coherent(a, s1.entries);
  }

  /** A cached DS reply differs from a fresh one only where the judgement never looks. */
  ghost predicate SameDs(d: DsFetched, reply: Reply) {
    if !reply.Reply? then d == DsNotFetched(Unreachable)
    else
      && d.DsFetched?
      && RecordsOf(d.msg.answer, TYPE_DS) == RecordsOf(reply.msg.answer, TYPE_DS)
      && SigsOver(d.msg.answer, TYPE_DS) == SigsOver(reply.msg.answer, TYPE_DS)
      && (RecordsOf(d.msg.answer, TYPE_DS) == [] ==> d.msg == reply.msg)
  }

  lemma DsIsTransparent(cf: Config, a: Upstream, now: int, s: Session, zone: Name)
    requires Consistent(cf, a, now) && Coherent(a, s.entries)
    ensures var (d, s') := FetchDs(cf, s, zone);
            SameDs(d, a(zone, TYPE_DS)) && Coherent(a, s'.entries)
  {
    hide RecordsOf, SigsOver, Kept, MinTtl;
    var es := cf.world.others(s.tick, s.entries);
    assert Coherent(a, es);
    var reply := a(zone, TYPE_DS);
    if reply.Reply? {
      SplitOfKept(reply.msg.answer, TYPE_DS);
    }
    var (hit, s1) := LookedUp(cf, s, (zone, TYPE_DS));
    assert Coherent(a, s1.entries);
  }

  lemma SameJudgement(c: Crypto, now: int, zone: Name, f: Fetched, d: DsFetched, reply: Reply, parentKeys: seq<Key>)
    requires EndsWithDot(zone) && f.Fetched? && reply.Reply? && SameDs(d, reply)
    ensures JudgeDelegation(c, now, zone, f, d.msg, parentKeys) == JudgeDelegation(c, now, zone, f, reply.msg, parentKeys)
  {
    hide RecordsOf, SigsOver, VerifySet, DeniesDS, SelfSigned, EntryPoints;
  }

  /** Transparency of one walk, together with what it leaves behind for the next. */
  lemma {:induction false} WalkIsTransparent(cf: Config, a: Upstream, now: int, s: Session, zone: Name, depth: nat,
                                             r: WalkResult, s': Session)
    requires EndsWithDot(zone) && Consistent(cf, a, now) && Coherent(a, s.entries)
    requires (r, s') == Walk(cf, s, zone, depth)
    ensures r == PlainWalk(cf, a, now, zone, depth) && Coherent(a, s'.entries)
    decreases |zone|
  {
    hide Fetch, FetchDs, JudgeRoot, JudgeDelegation, Coherent, KeysOf, Served;
    if depth <= MAX_CHAIN_DEPTH {
      FetchIsTransparent(cf, a, now, s, zone);
      var (f, s1) := Fetch(cf, s, zone, TYPE_DNSKEY);
      if f.Fetched? && KeysOf(f.rrset) != [] && zone != ROOT {
        DsIsTransparent(cf, a, now, s1, zone);
        var (d, s2) := FetchDs(cf, s1, zone);
        if d.DsFetched? {
          var (p, s3) := Walk(cf, s2, Parent(zone), depth + 1);
          WalkIsTransparent(cf, a, now, s2, Parent(zone), depth + 1, p, s3);
          if p.Keys? {
            SameJudgement(cf.crypto, now, zone, f, d, a(zone, TYPE_DS), p.keys);
          }
        }
      }
    }
  }

  /** The session after a list of walks. */
  ghost function After(cf: Config, s: Session, zones: seq<Name>): Session
    requires forall z :: z in zones ==> EndsWithDot(z)
  {
    if zones == [] then s
    else Walk(cf, After(cf, s, zones[..|zones| - 1]), zones[|zones| - 1], 0).1
  }

  /** Whatever was validated before, a walk returns what it would return without any cache. */
  lemma {:induction false} CacheIsTransparent(cf: Config, a: Upstream, now: int, tick: nat, sent: nat, earlier: seq<Name>, zone: Name)
    requires Consistent(cf, a, now) && EndsWithDot(zone) && forall z :: z in earlier ==> EndsWithDot(z)
    ensures var s := After(cf, Session(map[], tick, sent), earlier);
            Coherent(a, s.entries) && Walk(cf, s, zone, 0).0 == PlainWalk(cf, a, now, zone, 0)
    decreases |earlier|
  {
    hide Walk, PlainWalk, Consistent, Faithful;
    var empty := Session(map[], tick, sent);
    if earlier != [] {
      var n := |earlier| - 1;
      CacheIsTransparent(cf, a, now, tick, sent, earlier[..n], earlier[n]);
      var before := After(cf, empty, earlier[..n]);
      var (r, s') := Walk(cf, before, earlier[n], 0);
      WalkIsTransparent(cf, a, now, before, earlier[n], 0, r, s');
    }
    var s := After(cf, empty, earlier);
    var (r, s') := Walk(cf, s, zone, 0);
    WalkIsTransparent(cf, a, now, s, zone, 0, r, s');
  }

  // ---- exactly when a consistent upstream yields keys

  ghost predicate SignedBySome(c: Crypto, now: int, sigs: seq<Sig>, keys: seq<Key>, rrset: seq<RR>) {
    exists sig, k :: Tests(c, now, sigs, keys, rrset, Ok, sig, k)
  }

  ghost predicate SelfSignedBySome(c: Crypto, now: int, f: Fetched, entry: Key -> bool)
    requires f.Fetched?
  {
    exists sig, k :: Tests(c, now, f.sigs, KeysOf(f.rrset), f.rrset, Ok, sig, k) && entry(k)
  }

  ghost function NamedByDs(c: Crypto, dsRRs: seq<RR>): Key -> bool {
    k => exists rr :: rr in dsRRs && rr.DsRR? && MatchesDs(c, k, rr.ds)
  }

  ghost function AnchoredBy(c: Crypto, anchors: seq<Anchor>): Key -> bool {
    k => Anchored(c, anchors, k)
  }

  /** The upstream serves a complete chain: no search order, no error cases, no cache. */
  ghost predicate ServesChain(cf: Config, a: Upstream, now: int, zone: Name)
    requires EndsWithDot(zone)
    decreases |zone|
  {
    && var f := Served(a, zone, TYPE_DNSKEY);
    && f.Fetched?
    && if zone == ROOT then
         SelfSignedBySome(cf.crypto, now, f, AnchoredBy(cf.crypto, cf.anchors))
       else
         && a(zone, TYPE_DS).Reply?
         && ServesChain(cf, a, now, Parent(zone))
         && var dsRRs, dsSigs := RecordsOf(a(zone, TYPE_DS).msg.answer, TYPE_DS), SigsOver(a(zone, TYPE_DS).msg.answer, TYPE_DS);
         && SignedBySome(cf.crypto, now, dsSigs, KeysOf(Served(a, Parent(zone), TYPE_DNSKEY).rrset), dsRRs)
         && SelfSignedBySome(cf.crypto, now, f, NamedByDs(cf.crypto, dsRRs))
  }

  lemma SelfSignedIff(c: Crypto, now: int, f: Fetched, seps: seq<Key>, entry: Key -> bool)
    requires f.Fetched? && forall k :: k in seps <==> k in KeysOf(f.rrset) && entry(k)
    ensures seps != [] && SelfSigned(c, now, f, seps).Keys? <==> SelfSignedBySome(c, now, f, entry)
    ensures SelfSigned(c, now, f, seps).Keys? ==> SelfSigned(c, now, f, seps).keys == KeysOf(f.rrset)
  {
    hide VerifySet, KeysOf;
    VerifiedIff(c, now, f.rrset, f.sigs, seps);
    if sig, k :| Tests(c, now, f.sigs, seps, f.rrset, Ok, sig, k) {
      assert Tests(c, now, f.sigs, KeysOf(f.rrset), f.rrset, Ok, sig, k);
    }
    if sig, k :| Tests(c, now, f.sigs, KeysOf(f.rrset), f.rrset, Ok, sig, k) && entry(k) {
      assert Tests(c, now, f.sigs, seps, f.rrset, Ok, sig, k);
    }
  }

  lemma RootIff(cf: Config, now: int, f: Fetched)
    requires f.Fetched?
    ensures JudgeRoot(cf, now, f).Keys? <==> SelfSignedBySome(cf.crypto, now, f, AnchoredBy(cf.crypto, cf.anchors))
    ensures JudgeRoot(cf, now, f).Keys? ==> JudgeRoot(cf, now, f).keys == KeysOf(f.rrset)
  {
    hide SelfSigned, KeysOf, AnchoredKeys;
    var keys := KeysOf(f.rrset);
    var seps := AnchoredKeys(cf.crypto, cf.anchors, keys);
    forall k ensures k in seps <==> k in keys && AnchoredBy(cf.crypto, cf.anchors)(k) {
      AnchoredKeysAre(cf.crypto, cf.anchors, keys, k);
    }
    SelfSignedIff(cf.crypto, now, f, seps, AnchoredBy(cf.crypto, cf.anchors));
  }

  lemma DelegationIff(c: Crypto, now: int, zone: Name, f: Fetched, ds: Msg, parentKeys: seq<Key>)
    requires f.Fetched? && EndsWithDot(zone)
    ensures var dsRRs, dsSigs := RecordsOf(ds.answer, TYPE_DS), SigsOver(ds.answer, TYPE_DS);
            JudgeDelegation(c, now, zone, f, ds, parentKeys).Keys? <==>
              && SignedBySome(c, now, dsSigs, parentKeys, dsRRs)
              && SelfSignedBySome(c, now, f, NamedByDs(c, dsRRs))
    ensures var r := JudgeDelegation(c, now, zone, f, ds, parentKeys); r.Keys? ==> r.keys == KeysOf(f.rrset)
  {
    hide SelfSigned, KeysOf, EntryPoints, VerifySet, DeniesDS, RecordsOf, SigsOver, MatchesDs;
    var dsRRs, dsSigs := RecordsOf(ds.answer, TYPE_DS), SigsOver(ds.answer, TYPE_DS);
    var seps := EntryPoints(c, dsRRs, KeysOf(f.rrset));
    forall k ensures k in seps <==> k in KeysOf(f.rrset) && NamedByDs(c, dsRRs)(k) {
      EntryPointsAre(c, dsRRs, KeysOf(f.rrset), k);
    }
    assert seps != [] ==> seps[0] in seps;
    SelfSignedIff(c, now, f, seps, NamedByDs(c, dsRRs));
    VerifiedIff(c, now, dsRRs, dsSigs, parentKeys);
  }

  /** Completeness and soundness in one: the walk returns keys exactly when the upstream serves a
      complete chain and the zone is at most 24 labels deep. */
  lemma {:induction false} KeysIffServed(cf: Config, a: Upstream, now: int, zone: Name, depth: nat, r: WalkResult)
    requires EndsWithDot(zone) && r == PlainWalk(cf, a, now, zone, depth)
    ensures r.Keys? <==> depth + Labels(zone) <= 24 && ServesChain(cf, a, now, zone)
    ensures r.Keys? ==> Served(a, zone, TYPE_DNSKEY).Fetched? && r.keys == KeysOf(Served(a, zone, TYPE_DNSKEY).rrset)
    decreases |zone|
  {
    hide JudgeRoot, JudgeDelegation, KeysOf, Served, SelfSignedBySome, SignedBySome, RecordsOf, SigsOver, Parent;
    var f := Served(a, zone, TYPE_DNSKEY);
    if depth <= MAX_CHAIN_DEPTH && f.Fetched? {
      if KeysOf(f.rrset) == [] {
        NoKeyNoSignature(cf.crypto, now, f);
      }
      if zone == ROOT {
        RootIff(cf, now, f);
      } else {
        var p := PlainWalk(cf, a, now, Parent(zone), depth + 1);
        KeysIffServed(cf, a, now, Parent(zone), depth + 1, p);
        if p.Keys? && a(zone, TYPE_DS).Reply? {
          DelegationIff(cf.crypto, now, zone, f, a(zone, TYPE_DS).msg, p.keys);
        }
      }
    }
  }

  lemma NoKeyNoSignature(c: Crypto, now: int, f: Fetched)
    requires f.Fetched? && KeysOf(f.rrset) == []
    ensures forall entry :: !SelfSignedBySome(c, now, f, entry)
  {
  }
}
