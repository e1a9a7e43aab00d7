/** How old a key set the walk may judge by: expiry of the key cache, over time. */
module KeyAge {
  import opened Dns
  import opened Zones
  import opened KeyCache
  import opened Chain
  import opened Transparency

  /** What the upstream said and when: these records for that slot at that time. */
  type Heard = (Slot, seq<RR>, int) -> bool

  predicate Typed(rr: RR, rrtype: nat) {
    !rr.RrsigRR? && RRType(rr) == rrtype
  }

  ghost predicate Smallest(rrs: seq<RR>, rrtype: nat, m: nat) {
    && (exists rr :: rr in rrs && Typed(rr, rrtype) && Ttl(rr) == m)
    && forall rr :: rr in rrs && Typed(rr, rrtype) ==> m <= Ttl(rr)
  }

  /** The seconds a set may be kept: the smallest TTL of its records of the type, but at least a minute and
      at most a day. */
  ghost predicate LifeIs(rrs: seq<RR>, rrtype: nat, l: int) {
    exists m: nat :: Smallest(rrs, rrtype, m) && l == (if m < 60 then 60 else if m > 86400 then 86400 else m)
  }

  /** Every entry is something the upstream said, no later than tick n, and expires when its life is over. */
  ghost predicate Dated(cf: Config, heard: Heard, n: nat, es: Entries) {
    forall slot :: slot in es ==> DatedEntry(cf, heard, n, slot, es[slot])
  }

  ghost predicate DatedEntry(cf: Config, heard: Heard, n: nat, slot: Slot, e: Entry) {
    exists t, l :: heard(slot, e.rrs, t) && LifeIs(e.rrs, slot.1, l) && t <= cf.world.clock(n) && e.expiresAt == t + l * 1_000_000_000
  }

  /** The clock does not go back, what the upstream answers is heard when it is put, and the other queries
      that share the cache put only what was heard. */
  ghost predicate Timely(cf: Config, heard: Heard) {
    && cf.wired
    && (forall i, j :: 0 <= i <= j ==> cf.world.clock(i) <= cf.world.clock(j))
    && (forall n: nat, zone, rrtype :: cf.world.answer(n, zone, rrtype).Reply? ==>
          heard((zone, rrtype), Kept(cf.world.answer(n, zone, rrtype).msg.answer, rrtype), cf.world.clock(n + 1)))
    && (forall n, es :: Dated(cf, heard, n, es) ==> Dated(cf, heard, n, cf.world.others(n, es)))
  }

  lemma Later(cf: Config, heard: Heard, n: nat, m: nat, es: Entries)
    requires Timely(cf, heard) && n <= m && Dated(cf, heard, n, es)
    ensures Dated(cf, heard, m, es)
  {
    hide LifeIs;
    assert cf.world.clock(n) <= cf.world.clock(m);
    forall slot | slot in es ensures DatedEntry(cf, heard, m, slot, es[slot]) {
      assert DatedEntry(cf, heard, n, slot, es[slot]);
      var t, l :| heard(slot, es[slot].rrs, t) && LifeIs(es[slot].rrs, slot.1, l) && t <= cf.world.clock(n) && es[slot].expiresAt == t + l * 1_000_000_000;
      assert t <= cf.world.clock(m);
    }
  }

  // ---- one lookup

  /** What a lookup returns was said by the upstream no longer ago than its life; an entry older than that is
      not returned and is gone afterwards, and no other entry is touched. */
  lemma LookupIsRecent(cf: Config, heard: Heard, s: Session, slot: Slot)
    requires Timely(cf, heard) && Dated(cf, heard, s.tick, s.entries)
    ensures var (hit, s1) := LookedUp(cf, s, slot);
            && (hit.Some? ==> exists t, l :: heard(slot, hit.value, t) && LifeIs(hit.value, slot.1, l) && t <= Now(cf, s) <= t + l * 1_000_000_000)
            && Dated(cf, heard, s1.tick, s1.entries)
    ensures var (hit, s1), es := LookedUp(cf, s, slot), cf.world.others(s.tick, s.entries);
            && (hit.Some? <==> slot in es && Now(cf, s) <= es[slot].expiresAt) && (hit.Some? ==> hit.value == es[slot].rrs)
            && s1.entries == if slot in es && hit.None? then es - {slot} else es
  {
    hide LifeIs;
    var es := cf.world.others(s.tick, s.entries);
    assert Dated(cf, heard, s.tick, es);
    var (hit, s1) := LookedUp(cf, s, slot);
    if hit.Some? {
      assert DatedEntry(cf, heard, s.tick, slot, es[slot]);
    }
    assert Dated(cf, heard, s.tick, s1.entries);
    hide Timely, Dated;
    Later(cf, heard, s.tick, s1.tick, s1.entries);
  }

  // ---- one store

  lemma {:induction false} SmallestIs(rrs: seq<RR>)
    requires rrs != []
    ensures (exists rr :: rr in rrs && Ttl(rr) == MinTtl(rrs)) && forall rr :: rr in rrs ==> MinTtl(rrs) <= Ttl(rr)
  {
    hide Ttl;
    var n := |rrs| - 1;
    assert rrs == rrs[..n] + [rrs[n]];
    if n > 0 {
      SmallestIs(rrs[..n]);
    }
  }

  lemma {:induction false} RecordsAre(rrs: seq<RR>, rrtype: nat)
    ensures RecordsOf(rrs, rrtype) == Filter((rr: RR) => Typed(rr, rrtype), rrs)
  {
    if rrs != [] {
      RecordsAre(rrs[..|rrs| - 1], rrtype);
    }
  }

  lemma LifeOfStored(rrs: seq<RR>, rrtype: nat)
    requires RecordsOf(rrs, rrtype) != []
    ensures var m := MinTtl(RecordsOf(rrs, rrtype)); LifeIs(rrs, rrtype, if m < 60 then 60 else if m > 86400 then 86400 else m)
  {
    hide RecordsOf, MinTtl, Filter, Typed;
    var records := RecordsOf(rrs, rrtype);
    RecordsAre(rrs, rrtype);
    SmallestIs(records);
    assert Smallest(rrs, rrtype, MinTtl(records)) by {
      var rr :| rr in records && Ttl(rr) == MinTtl(records);
      assert rr in rrs && Typed(rr, rrtype);
    }
  }

  lemma StoreIsDated(cf: Config, heard: Heard, s: Session, slot: Slot, rrs: seq<RR>)
    requires Timely(cf, heard) && Dated(cf, heard, s.tick, s.entries) && heard(slot, rrs, Now(cf, s)) && RecordsOf(rrs, slot.1) != []
    ensures Dated(cf, heard, s.tick, Stored(cf, s, slot, rrs, MinTtl(RecordsOf(rrs, slot.1))).entries)
  {
    hide LifeIs, RecordsOf, MinTtl, Timely;
    LifeOfStored(rrs, slot.1);
    var es := Stored(cf, s, slot, rrs, MinTtl(RecordsOf(rrs, slot.1))).entries;
    forall other | other in es ensures DatedEntry(cf, heard, s.tick, other, es[other]) {
      if other != slot || rrs == [] {
        assert DatedEntry(cf, heard, s.tick, other, s.entries[other]);
      }
    }
  }

  lemma KeptHasRecords(rrs: seq<RR>, rrtype: nat)
    requires rrtype != TYPE_RRSIG
    ensures RecordsOf(Kept(rrs, rrtype), rrtype) == RecordsOf(rrs, rrtype)
  {
    SplitOfKept(rrs, rrtype);
  }

  // ---- fetches and walks

  lemma FetchKeepsDates(cf: Config, heard: Heard, s: Session, zone: Name)
    requires Timely(cf, heard) && Dated(cf, heard, s.tick, s.entries)
    ensures var s' := Fetch(cf, s, zone, TYPE_DNSKEY).1; Dated(cf, heard, s'.tick, s'.entries)
    ensures var s' := FetchDs(cf, s, zone).1; Dated(cf, heard, s'.tick, s'.entries)
  {
    LookupIsRecent(cf, heard, s, (zone, TYPE_DNSKEY));
    LookupIsRecent(cf, heard, s, (zone, TYPE_DS));
    var k, d := LookedUp(cf, s, (zone, TYPE_DNSKEY)).1, LookedUp(cf, s, (zone, TYPE_DS)).1;
    assert k.tick == s.tick + 1 && d.tick == s.tick + 1;
    KeepsOne(cf, heard, k, zone, TYPE_DNSKEY);
    KeepsOne(cf, heard, d, zone, TYPE_DS);
    hide Dated, Timely, LookedUp, RecordsOf, SigsOver, Kept, MinTtl;
    var reply := cf.world.answer(d.tick, zone, TYPE_DS);
    if reply.Reply? {
      KeptHasRecords(reply.msg.answer, TYPE_DS);
    }
  }

  /** Asking, and putting what comes back. */
  lemma KeepsOne(cf: Config, heard: Heard, s: Session, zone: Name, rrtype: nat)
    requires Timely(cf, heard) && Dated(cf, heard, s.tick, s.entries)
    ensures var (reply, s2) := Asked(cf, s, zone, rrtype);
            && Dated(cf, heard, s2.tick, s2.entries)
            && (reply.Reply? && RecordsOf(Kept(reply.msg.answer, rrtype), rrtype) != [] ==>
                  var rrs := Kept(reply.msg.answer, rrtype);
                  Dated(cf, heard, s2.tick, Stored(cf, s2, (zone, rrtype), rrs, MinTtl(RecordsOf(rrs, rrtype))).entries))
  {
    hide RecordsOf, Kept, MinTtl, Dated, Stored;
    var (reply, s2) := Asked(cf, s, zone, rrtype);
    Later(cf, heard, s.tick, s2.tick, s.entries);
    if reply.Reply? && RecordsOf(Kept(reply.msg.answer, rrtype), rrtype) != [] {
      assert heard((zone, rrtype), Kept(reply.msg.answer, rrtype), cf.world.clock(s.tick + 1));
      StoreIsDated(cf, heard, s2, (zone, rrtype), Kept(reply.msg.answer, rrtype));
    }
  }

  lemma {:induction false} WalkKeepsDates(cf: Config, heard: Heard, s: Session, zone: Name, depth: nat, s': Session)
    requires EndsWithDot(zone) && Timely(cf, heard) && Dated(cf, heard, s.tick, s.entries) && s' == Walk(cf, s, zone, depth).1
    ensures Dated(cf, heard, s'.tick, s'.entries)
    decreases |zone|
  {
    hide Timely, Dated, Fetch, FetchDs, JudgeRoot, JudgeDelegation, KeysOf;
    if depth <= MAX_CHAIN_DEPTH {
      FetchKeepsDates(cf, heard, s, zone);
      var s1 := Fetch(cf, s, zone, TYPE_DNSKEY).1;
      FetchKeepsDates(cf, heard, s1, zone);
      var s2 := FetchDs(cf, s1, zone).1;
      if zone != ROOT {
        WalkKeepsDates(cf, heard, s2, Parent(zone), depth + 1, Walk(cf, s2, Parent(zone), depth + 1).1);
      }
    }
  }

  lemma {:induction false} DatesOverRuns(cf: Config, heard: Heard, tick: nat, sent: nat, zones: seq<Name>)
    requires Timely(cf, heard) && forall z :: z in zones ==> EndsWithDot(z)
    ensures var s := After(cf, Session(map[], tick, sent), zones); Dated(cf, heard, s.tick, s.entries)
  {
    hide Walk, Timely;
    if zones != [] {
      hide Dated;
      var n := |zones| - 1;
      DatesOverRuns(cf, heard, tick, sent, zones[..n]);
      var s := After(cf, Session(map[], tick, sent), zones[..n]);
      WalkKeepsDates(cf, heard, s, zones[n], 0, Walk(cf, s, zones[n], 0).1);
    }
  }

  /** After any walks, a fetch takes a set from the cache only if the upstream said it no longer ago than its
      smallest TTL, held between a minute and a day; and if whatever the upstream ever said for the slot
      is older than that, the upstream is asked. */
  lemma KeysAreRecent(cf: Config, heard: Heard, tick: nat, sent: nat, zones: seq<Name>, zone: Name, rrtype: nat, f: Fetched, s': Session)
    requires Timely(cf, heard) && (forall z :: z in zones ==> EndsWithDot(z)) && rrtype != TYPE_RRSIG
    requires (f, s') == Fetch(cf, After(cf, Session(map[], tick, sent), zones), zone, rrtype)
    ensures var s := After(cf, Session(map[], tick, sent), zones);
            && (s'.sent == s.sent ==> exists rrs, t, l ::
                  && heard((zone, rrtype), rrs, t) && LifeIs(rrs, rrtype, l) && t <= Now(cf, s) <= t + l * 1_000_000_000
                  && f == Fetched(Filter((rr: RR) => Typed(rr, rrtype), rrs), SigsOver(rrs, rrtype)))
            && ((forall rrs, t, l :: heard((zone, rrtype), rrs, t) && LifeIs(rrs, rrtype, l) ==> Now(cf, s) > t + l * 1_000_000_000) ==> s'.sent == s.sent + 1)
  {
    hide Walk, Timely, After, LifeIs, Dated, Kept, MinTtl, SigsOver, RecordsOf;
    var s := After(cf, Session(map[], tick, sent), zones);
    DatesOverRuns(cf, heard, tick, sent, zones);
    LookupIsRecent(cf, heard, s, (zone, rrtype));
    Wired(cf, heard);
    hide LookedUp;
    var (hit, _) := LookedUp(cf, s, (zone, rrtype));
    if hit.Some? {
      RecordsAre(hit.value, rrtype);
    }
  }

  /** The same for DS sets. */
  lemma DsIsRecent(cf: Config, heard: Heard, tick: nat, sent: nat, zones: seq<Name>, zone: Name, d: DsFetched, s': Session)
    requires Timely(cf, heard) && (forall z :: z in zones ==> EndsWithDot(z))
    requires (d, s') == FetchDs(cf, After(cf, Session(map[], tick, sent), zones), zone)
    ensures var s := After(cf, Session(map[], tick, sent), zones);
            && (s'.sent == s.sent ==> exists rrs, t, l ::
                  && heard((zone, TYPE_DS), rrs, t) && LifeIs(rrs, TYPE_DS, l) && t <= Now(cf, s) <= t + l * 1_000_000_000
                  && d.DsFetched? && d.msg.answer == rrs && d.msg.rcode == RCODE_SUCCESS)
            && ((forall rrs, t, l :: heard((zone, TYPE_DS), rrs, t) && LifeIs(rrs, TYPE_DS, l) ==> Now(cf, s) > t + l * 1_000_000_000) ==> s'.sent == s.sent + 1)
  {
    hide Walk, Timely, After, LifeIs, Dated, Kept, MinTtl, RecordsOf;
    var s := After(cf, Session(map[], tick, sent), zones);
    DatesOverRuns(cf, heard, tick, sent, zones);
    LookupIsRecent(cf, heard, s, (zone, TYPE_DS));
    Wired(cf, heard);
    hide LookedUp;
  }

  lemma Wired(cf: Config, heard: Heard)
    requires Timely(cf, heard)
    ensures cf.wired
  {
  }

  /** What the upstream says is remembered: a fetch that asks and gets records leaves them in the cache for
      their life. */
  lemma FetchRemembers(cf: Config, s: Session, zone: Name, rrtype: nat, f: Fetched, s': Session)
    requires rrtype != TYPE_RRSIG && (f, s') == Fetch(cf, s, zone, rrtype) && f.Fetched? && s'.sent == s.sent + 1
    ensures var reply := cf.world.answer(s.tick + 1, zone, rrtype);
            && reply.Reply? && reply.msg.rcode == RCODE_SUCCESS && f == Fetched(RecordsOf(reply.msg.answer, rrtype), SigsOver(reply.msg.answer, rrtype))
            && exists l :: LifeIs(Kept(reply.msg.answer, rrtype), rrtype, l) && (zone, rrtype) in s'.entries &&
                 s'.entries[(zone, rrtype)] == Entry(Kept(reply.msg.answer, rrtype), cf.world.clock(s.tick + 2) + l * 1_000_000_000)
  {
    hide RecordsOf, SigsOver, Kept, MinTtl, LifeIs;
    var rrs := Kept(cf.world.answer(s.tick + 1, zone, rrtype).msg.answer, rrtype);
    SplitOfKept(cf.world.answer(s.tick + 1, zone, rrtype).msg.answer, rrtype);
    LifeOfStored(rrs, rrtype);
    KeptIsThere(rrs, rrtype);
  }

  lemma DsIsRemembered(cf: Config, s: Session, zone: Name, d: DsFetched, s': Session)
    requires (d, s') == FetchDs(cf, s, zone) && d.DsFetched? && s'.sent == s.sent + 1
    ensures cf.world.answer(s.tick + 1, zone, TYPE_DS) == Reply(d.msg)
    ensures RecordsOf(d.msg.answer, TYPE_DS) != [] ==>
              exists l :: LifeIs(Kept(d.msg.answer, TYPE_DS), TYPE_DS, l) && (zone, TYPE_DS) in s'.entries &&
                s'.entries[(zone, TYPE_DS)] == Entry(Kept(d.msg.answer, TYPE_DS), cf.world.clock(s.tick + 2) + l * 1_000_000_000)
  {
    hide RecordsOf, SigsOver, Kept, MinTtl, LifeIs;
    if RecordsOf(d.msg.answer, TYPE_DS) != [] {
      SplitOfKept(d.msg.answer, TYPE_DS);
      LifeOfStored(Kept(d.msg.answer, TYPE_DS), TYPE_DS);
      KeptIsThere(Kept(d.msg.answer, TYPE_DS), TYPE_DS);
    }
  }

  lemma KeptIsThere(rrs: seq<RR>, rrtype: nat)
    requires RecordsOf(rrs, rrtype) != []
    ensures rrs != []
  {
  }

  /** And it is not asked for again while that life lasts, if nobody else touches the cache. */
  lemma FreshIsNotAskedAgain(cf: Config, s: Session, zone: Name, rrtype: nat, rrs: seq<RR>, expiresAt: int)
    requires cf.wired && cf.world.others(s.tick, s.entries) == s.entries
    requires (zone, rrtype) in s.entries && s.entries[(zone, rrtype)] == Entry(rrs, expiresAt) && Now(cf, s) <= expiresAt
    ensures Fetch(cf, s, zone, rrtype) == (Fetched(RecordsOf(rrs, rrtype), SigsOver(rrs, rrtype)), s.(tick := s.tick + 1))
    ensures rrtype == TYPE_DS ==> FetchDs(cf, s, zone) == (DsFetched(CachedDs(rrs)), s.(tick := s.tick + 1))
  {
  }
}
