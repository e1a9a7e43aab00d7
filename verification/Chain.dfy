/** The walk from a signer zone up to a root trust anchor (`authenticatedDNSKEYs`).

    `Walk` is the specification: the walk as a function of everything it can observe.  The class
    `Validator` is the program; its methods are proved equal to `Walk`. */
module Chain {
  import opened Dns
  import opened Signatures
  import opened Zones
  import opened Denial
  import opened KeyCache

  const MAX_CHAIN_DEPTH: nat := 24

  datatype Reply = NetworkError | NoMessage | Reply(msg: Msg)

  /** Everything outside the walk, indexed by how many lookups and fetches it has made so far.  The
      upstream may answer the same question differently each time, the clock may jump, and before
      every cache lookup other queries may have rewritten the shared key cache in any way. */
  datatype World = World(
    answer: (nat, Name, nat) -> Reply,
    clock: nat -> int,
    others: (nat, Entries) -> Entries)

  datatype Anchor = Anchor(keyTag: nat, algorithm: nat, digestType: nat, digest: string)

  datatype Config = Config(crypto: Crypto, world: World, anchors: seq<Anchor>, wired: bool)

  datatype Session = Session(entries: Entries, tick: nat, sent: nat)

  datatype Reason =
    | NotWired | Unreachable | BadRcode | NoRecords | NoKeys | DepthExceeded
    | NoAnchors | NoAnchorMatch | DsAbsent | DsNotAuthentic | NoDsMatch | NotSelfSigned

  datatype Fetched = Fetched(rrset: seq<RR>, sigs: seq<Sig>) | NotFetched(reason: Reason)

  datatype DsFetched = DsFetched(msg: Msg) | DsNotFetched(reason: Reason)

  datatype WalkResult = Keys(keys: seq<Key>) | Insecure | Failed(reason: Reason)

  // ---- record lists

  /** The records of one type, without signatures, in order. */
  function RecordsOf(rrs: seq<RR>, rrtype: nat): seq<RR> {
    if rrs == [] then []
    else
      var last := rrs[|rrs| - 1];
      RecordsOf(rrs[..|rrs| - 1], rrtype) +
      if !last.RrsigRR? && RRType(last) == rrtype then [last] else []
  }

  /** The signatures over one type, in order. */
  function SigsOver(rrs: seq<RR>, rrtype: nat): seq<Sig> {
    if rrs == [] then []
    else
      var last := rrs[|rrs| - 1];
      SigsOver(rrs[..|rrs| - 1], rrtype) +
      if last.RrsigRR? && last.sig.typeCovered == rrtype then [last.sig] else []
  }

  /** What the cache keeps of an answer: the typed records and every signature. */
  function Kept(rrs: seq<RR>, rrtype: nat): seq<RR> {
    if rrs == [] then []
    else
      var last := rrs[|rrs| - 1];
      Kept(rrs[..|rrs| - 1], rrtype) +
      if RRType(last) == rrtype || RRType(last) == TYPE_RRSIG then [last] else []
  }

  function KeysOf(rrs: seq<RR>): seq<Key> {
    if rrs == [] then []
    else
      var last := rrs[|rrs| - 1];
      KeysOf(rrs[..|rrs| - 1]) + if last.DnskeyRR? then [last.key] else []
  }

  function MinTtl(rrs: seq<RR>): nat {
    if rrs == [] then 0
    else
      var t, rest := Ttl(rrs[|rrs| - 1]), MinTtl(rrs[..|rrs| - 1]);
      if |rrs| == 1 || t < rest then t else rest
  }

  method SplitRRSIGs(rrs: seq<RR>, rrtype: nat) returns (rrset: seq<RR>, sigs: seq<Sig>)
    ensures rrset == RecordsOf(rrs, rrtype) && sigs == SigsOver(rrs, rrtype)
  {
    rrset, sigs := [], [];
    for i := 0 to |rrs|
      invariant rrset == RecordsOf(rrs[..i], rrtype) && sigs == SigsOver(rrs[..i], rrtype)
    {
      assert rrs[..i + 1][..i] == rrs[..i];
      if rrs[i].RrsigRR? {
        if rrs[i].sig.typeCovered == rrtype {
          sigs := sigs + [rrs[i].sig];
        }
        continue;
      }
      if RRType(rrs[i]) == rrtype {
        rrset := rrset + [rrs[i]];
      }
    }
    assert rrs[..|rrs|] == rrs;
  }

  method KeepTyped(rrs: seq<RR>, rrtype: nat) returns (keep: seq<RR>)
    ensures keep == Kept(rrs, rrtype)
  {
    keep := [];
    for i := 0 to |rrs|
      invariant keep == Kept(rrs[..i], rrtype)
    {
      assert rrs[..i + 1][..i] == rrs[..i];
      if RRType(rrs[i]) == rrtype || RRType(rrs[i]) == TYPE_RRSIG {
        keep := keep + [rrs[i]];
      }
    }
    assert rrs[..|rrs|] == rrs;
  }

  method CollectKeys(rrs: seq<RR>) returns (keys: seq<Key>)
    ensures keys == KeysOf(rrs)
  {
    keys := [];
    for i := 0 to |rrs|
      invariant keys == KeysOf(rrs[..i])
    {
      assert rrs[..i + 1][..i] == rrs[..i];
      if rrs[i].DnskeyRR? {
        keys := keys + [rrs[i].key];
      }
    }
    assert rrs[..|rrs|] == rrs;
  }

  method MinRRsetTTL(rrs: seq<RR>) returns (min: nat)
    ensures min == MinTtl(rrs)
    ensures rrs != [] ==> (exists rr :: rr in rrs && Ttl(rr) == min) && forall rr :: rr in rrs ==> min <= Ttl(rr)
  {
    min := 0;
    for i := 0 to |rrs|
      invariant min == MinTtl(rrs[..i])
      invariant i > 0 ==> exists j :: 0 <= j < i && Ttl(rrs[j]) == min
      invariant forall j :: 0 <= j < i ==> min <= Ttl(rrs[j])
    {
      assert rrs[..i + 1][..i] == rrs[..i];
      var t := Ttl(rrs[i]);
      if i == 0 || t < min {
        min := t;
      }
    }
    assert rrs[..|rrs|] == rrs;
  }

  // ---- trust anchors and DS matching

  predicate HexEq(a: string, b: string) {
    Lower(a) == Lower(b)
  }

  method EqualHexDigest(a: string, b: string) returns (r: bool)
    ensures r == HexEq(a, b)
  {
    if |a| != |b| {
      return false;
    }
    for i := 0 to |a|
      invariant forall j :: 0 <= j < i ==> LowerChar(a[j]) == LowerChar(b[j])
    {
      if LowerChar(a[i]) != LowerChar(b[i]) {
        assert Lower(a)[i] != Lower(b)[i];
        return false;
      }
    }
    return true;
  }

  predicate MatchesAnchor(c: Crypto, k: Key, a: Anchor) {
    && c.keyTag(k) == a.keyTag && k.algorithm == a.algorithm
    && c.toDS(k, a.digestType).Some? && HexEq(c.toDS(k, a.digestType).value, a.digest)
  }

  predicate Anchored(c: Crypto, anchors: seq<Anchor>, k: Key) {
    exists a :: a in anchors && MatchesAnchor(c, k, a)
  }

  predicate MatchesDs(c: Crypto, k: Key, ds: Ds) {
    && c.keyTag(k) == ds.keyTag && k.algorithm == ds.algorithm
    && c.toDS(k, ds.digestType).Some? && HexEq(c.toDS(k, ds.digestType).value, ds.digest)
  }

  function AnchoredKeys(c: Crypto, anchors: seq<Anchor>, keys: seq<Key>): seq<Key> {
    if keys == [] then []
    else
      var k := keys[|keys| - 1];
      AnchoredKeys(c, anchors, keys[..|keys| - 1]) + if Anchored(c, anchors, k) then [k] else []
  }

  function KeysMatching(c: Crypto, ds: Ds, keys: seq<Key>): seq<Key> {
    if keys == [] then []
    else
      var k := keys[|keys| - 1];
      KeysMatching(c, ds, keys[..|keys| - 1]) + if MatchesDs(c, k, ds) then [k] else []
  }

  /** The secure entry points: for every DS in turn, the keys it names. */
  function EntryPoints(c: Crypto, dsRRs: seq<RR>, keys: seq<Key>): seq<Key> {
    if dsRRs == [] then []
    else
      var last := dsRRs[|dsRRs| - 1];
      EntryPoints(c, dsRRs[..|dsRRs| - 1], keys) + if last.DsRR? then KeysMatching(c, last.ds, keys) else []
  }

  method VerifyKeyAgainstAnchors(c: Crypto, k: Key, anchors: seq<Anchor>) returns (r: bool)
    ensures r == Anchored(c, anchors, k)
  {
    for i := 0 to |anchors|
      invariant forall j :: 0 <= j < i ==> !MatchesAnchor(c, k, anchors[j])
    {
      var a := anchors[i];
      if c.keyTag(k) != a.keyTag || k.algorithm != a.algorithm {
        continue;
      }
      var d := c.toDS(k, a.digestType);
      if d.None? {
        continue;
      }
      if Lower(d.value) == Lower(a.digest) {
        assert MatchesAnchor(c, k, anchors[i]);
        return true;
      }
    }
    return false;
  }

  method CollectAnchored(c: Crypto, anchors: seq<Anchor>, keys: seq<Key>) returns (seps: seq<Key>)
    ensures seps == AnchoredKeys(c, anchors, keys)
  {
    seps := [];
    for i := 0 to |keys|
      invariant seps == AnchoredKeys(c, anchors, keys[..i])
    {
      assert keys[..i + 1][..i] == keys[..i];
      var ok := VerifyKeyAgainstAnchors(c, keys[i], anchors);
      if ok {
        seps := seps + [keys[i]];
      }
    }
    assert keys[..|keys|] == keys;
  }

  method CollectEntryPoints(c: Crypto, dsRRs: seq<RR>, keys: seq<Key>) returns (seps: seq<Key>)
    ensures seps == EntryPoints(c, dsRRs, keys)
  {
    seps := [];
    for i := 0 to |dsRRs|
      invariant seps == EntryPoints(c, dsRRs[..i], keys)
    {
      assert dsRRs[..i + 1][..i] == dsRRs[..i];
      if !dsRRs[i].DsRR? {
        continue;
      }
      var ds := dsRRs[i].ds;
      ghost var before := seps;
      for j := 0 to |keys|
        invariant seps == before + KeysMatching(c, ds, keys[..j])
      {
        assert keys[..j + 1][..j] == keys[..j];
        var k := keys[j];
        if c.keyTag(k) == ds.keyTag && k.algorithm == ds.algorithm {
          var d := c.toDS(k, ds.digestType);
          if d.Some? {
            var same := EqualHexDigest(d.value, ds.digest);
            if same {
              seps := seps + [k];
            }
          }
        }
      }
      assert keys[..|keys|] == keys;
    }
    assert dsRRs[..|dsRRs|] == dsRRs;
  }

  // ---- the specification of fetching

  ghost function Now(cf: Config, s: Session): int {
    cf.world.clock(s.tick)
  }

  ghost function LookedUp(cf: Config, s: Session, slot: Slot): (r: (Option<seq<RR>>, Session))
    ensures r.1.tick == s.tick + 1 && r.1.sent == s.sent
  {
    var es := cf.world.others(s.tick, s.entries);
    (Lookup(es, slot, Now(cf, s)), Session(AfterLookup(es, slot, Now(cf, s)), s.tick + 1, s.sent))
  }

  ghost function Asked(cf: Config, s: Session, zone: Name, rrtype: nat): (r: (Reply, Session))
    ensures r.1.tick == s.tick + 1 && r.1.sent == s.sent + 1
  {
    (cf.world.answer(s.tick, zone, rrtype), s.(tick := s.tick + 1, sent := s.sent + 1))
  }

  ghost function Stored(cf: Config, s: Session, slot: Slot, rrs: seq<RR>, ttl: nat): (r: Session)
    ensures r.tick == s.tick && r.sent == s.sent
  {
    s.(entries := Store(s.entries, slot, rrs, ttl, Now(cf, s)))
  }

  ghost function Fetch(cf: Config, s: Session, zone: Name, rrtype: nat): (r: (Fetched, Session))
    ensures s.tick <= r.1.tick && s.sent <= r.1.sent <= s.sent + 1
  {
    if !cf.wired then (NotFetched(NotWired), s) else
    var slot := (zone, rrtype);
    var (hit, s1) := LookedUp(cf, s, slot);
    if hit.Some? then (Fetched(RecordsOf(hit.value, rrtype), SigsOver(hit.value, rrtype)), s1) else
    var (reply, s2) := Asked(cf, s1, zone, rrtype);
    if reply.NetworkError? then (NotFetched(Unreachable), s2) else
    if reply.NoMessage? || reply.msg.rcode != RCODE_SUCCESS then (NotFetched(BadRcode), s2) else
    var keep := Kept(reply.msg.answer, rrtype);
    if RecordsOf(keep, rrtype) == [] then (NotFetched(NoRecords), s2) else
    (Fetched(RecordsOf(keep, rrtype), SigsOver(keep, rrtype)), Stored(cf, s2, slot, keep, MinTtl(RecordsOf(keep, rrtype))))
  }

  function CachedDs(rrs: seq<RR>): Msg {
    Msg(0, false, RCODE_SUCCESS, false, false, false, [], rrs, [], [])
  }

  /** A cached DS set comes back as a message of its own, with no authority section. */
  ghost function FetchDs(cf: Config, s: Session, zone: Name): (r: (DsFetched, Session))
    ensures s.tick <= r.1.tick && s.sent <= r.1.sent <= s.sent + 1
  {
    if !cf.wired then (DsNotFetched(NotWired), s) else
    var slot := (zone, TYPE_DS);
    var (hit, s1) := LookedUp(cf, s, slot);
    if hit.Some? then (DsFetched(CachedDs(hit.value)), s1) else
    var (reply, s2) := Asked(cf, s1, zone, TYPE_DS);
    if reply.NetworkError? || reply.NoMessage? then (DsNotFetched(Unreachable), s2) else
    var dsRRs := RecordsOf(reply.msg.answer, TYPE_DS);
    if dsRRs == [] then (DsFetched(reply.msg), s2) else
    (DsFetched(reply.msg), Stored(cf, s2, slot, Kept(reply.msg.answer, TYPE_DS), MinTtl(dsRRs)))
  }

  // ---- the specification of the walk

  ghost function SelfSigned(c: Crypto, now: int, f: Fetched, seps: seq<Key>): WalkResult
    requires f.Fetched?
  {
    var v := VerifySet(c, now, f.rrset, f.sigs, seps);
    if v.Verified? then Keys(KeysOf(f.rrset))
    else if UnprocessableKey(v) then Insecure
    else Failed(NotSelfSigned)
  }

  ghost function JudgeRoot(cf: Config, now: int, f: Fetched): WalkResult
    requires f.Fetched?
  {
    var seps := AnchoredKeys(cf.crypto, cf.anchors, KeysOf(f.rrset));
    if cf.anchors == [] then Failed(NoAnchors)
    else if seps == [] then Failed(NoAnchorMatch)
    else SelfSigned(cf.crypto, now, f, seps)
  }

  ghost function JudgeDelegation(c: Crypto, now: int, zone: Name, f: Fetched, ds: Msg, parentKeys: seq<Key>): WalkResult
    requires f.Fetched? && EndsWithDot(zone)
  {
    var dsRRs, dsSigs := RecordsOf(ds.answer, TYPE_DS), SigsOver(ds.answer, TYPE_DS);
    if dsRRs == [] then
      if ds.rcode == RCODE_SUCCESS && DeniesDS(c, now, zone, ds.authority, parentKeys) then Insecure
      else Failed(DsAbsent)
    else
      var v := VerifySet(c, now, dsRRs, dsSigs, parentKeys);
      if UnprocessableKey(v) then Insecure
      else if !v.Verified? then Failed(DsNotAuthentic)
      else if EntryPoints(c, dsRRs, KeysOf(f.rrset)) == [] then Failed(NoDsMatch)
      else SelfSigned(c, now, f, EntryPoints(c, dsRRs, KeysOf(f.rrset)))
  }

  /** The walk from a canonical zone name. */
  ghost function Walk(cf: Config, s: Session, zone: Name, depth: nat): (r: (WalkResult, Session))
    requires EndsWithDot(zone)
    ensures s.tick <= r.1.tick && s.sent <= r.1.sent
    decreases |zone|
  {
    if depth > MAX_CHAIN_DEPTH then (Failed(DepthExceeded), s) else
    var (f, s1) := Fetch(cf, s, zone, TYPE_DNSKEY);
    if f.NotFetched? then (Failed(f.reason), s1) else
    if KeysOf(f.rrset) == [] then (Failed(NoKeys), s1) else
    if zone == ROOT then (JudgeRoot(cf, Now(cf, s1), f), s1) else
    var (d, s2) := FetchDs(cf, s1, zone);
    if d.DsNotFetched? then (Failed(d.reason), s2) else
    var (p, s3) := Walk(cf, s2, Parent(zone), depth + 1);
    if !p.Keys? then (p, s3) else
    (JudgeDelegation(cf.crypto, Now(cf, s3), zone, f, d.msg, p.keys), s3)
  }

  // ---- the program

  class Validator {
    const cf: Config
    const keyCache: RRsetCache
    var tick: nat
    var sent: nat

    constructor (cf: Config)
      ensures this.cf == cf && fresh(keyCache) && State() == Session(map[], 0, 0)
    {
      this.cf := cf;
      keyCache := new RRsetCache();
      tick, sent := 0, 0;
    }

    ghost function State(): Session
      reads this, keyCache
    {
      Session(keyCache.entries, tick, sent)
    }

    /** One cache lookup, after whatever other queries did to the cache. */
    method CacheGet(zone: Name, rrtype: nat) returns (hit: Option<seq<RR>>)
      modifies this, keyCache
      ensures (hit, State()) == LookedUp(cf, old(State()), SlotOf(zone, rrtype))
    {
      keyCache.entries := cf.world.others(tick, keyCache.entries);
      hit := keyCache.Get(zone, rrtype, cf.world.clock(tick));
      tick := tick + 1;
    }

    method Ask(zone: Name, rrtype: nat) returns (reply: Reply)
      modifies this, keyCache
      ensures (reply, State()) == Asked(cf, old(State()), zone, rrtype)
    {
      reply := cf.world.answer(tick, zone, rrtype);
      tick, sent := tick + 1, sent + 1;
    }

    method FetchRRset(zone: Name, rrtype: nat) returns (f: Fetched)
      requires Canonical(zone) == zone
      modifies this, keyCache
      ensures (f, State()) == Fetch(cf, old(State()), zone, rrtype)
    {
      if !cf.wired {
        return NotFetched(NotWired);
      }
      var hit := CacheGet(zone, rrtype);
      if hit.Some? {
        var rrset, sigs := SplitRRSIGs(hit.value, rrtype);
        return Fetched(rrset, sigs);
      }
      var reply := Ask(zone, rrtype);
      if reply.NetworkError? {
        return NotFetched(Unreachable);
      }
      if reply.NoMessage? || reply.msg.rcode != RCODE_SUCCESS {
        return NotFetched(BadRcode);
      }
      var keep := KeepTyped(reply.msg.answer, rrtype);
      var rrset, sigs := SplitRRSIGs(keep, rrtype);
      if |rrset| == 0 {
        return NotFetched(NoRecords);
      }
      var ttl := MinRRsetTTL(rrset);
      keyCache.Put(zone, rrtype, keep, ttl, cf.world.clock(tick));
      return Fetched(rrset, sigs);
    }

    method FetchDSResponse(zone: Name) returns (d: DsFetched)
      requires Canonical(zone) == zone
      modifies this, keyCache
      ensures (d, State()) == FetchDs(cf, old(State()), zone)
    {
      if !cf.wired {
        return DsNotFetched(NotWired);
      }
      var hit := CacheGet(zone, TYPE_DS);
      if hit.Some? {
        return DsFetched(CachedDs(hit.value));
      }
      var reply := Ask(zone, TYPE_DS);
      if reply.NetworkError? || reply.NoMessage? {
        return DsNotFetched(Unreachable);
      }
      var dsRRs, _ := SplitRRSIGs(reply.msg.answer, TYPE_DS);
      if |dsRRs| > 0 {
        var keep := KeepTyped(reply.msg.answer, TYPE_DS);
        var ttl := MinRRsetTTL(dsRRs);
        keyCache.Put(zone, TYPE_DS, keep, ttl, cf.world.clock(tick));
      }
      return DsFetched(reply.msg);
    }

    method CheckSelfSigned(f: Fetched, keys: seq<Key>, seps: seq<Key>) returns (r: WalkResult)
      requires f.Fetched? && keys == KeysOf(f.rrset)
      ensures r == SelfSigned(cf.crypto, Now(cf, State()), f, seps)
    {
      var v := VerifyRRsetWithKeySet(cf.crypto, cf.world.clock(tick), f.rrset, f.sigs, seps);
      if v == Verified {
        return Keys(keys);
      }
      if UnprocessableKey(v) {
        return Insecure;
      }
      return Failed(NotSelfSigned);
    }

    method AuthenticatedDNSKEYs(name: Name, depth: nat) returns (r: WalkResult)
      modifies this, keyCache
      ensures (r, State()) == Walk(cf, old(State()), Canonical(name), depth)
      decreases |Canonical(name)|
    {
      if depth > MAX_CHAIN_DEPTH {
        return Failed(DepthExceeded);
      }
      var zone := Canonical(name);
      CanonicalIdempotent(name);
      var f := FetchRRset(zone, TYPE_DNSKEY);
      if f.NotFetched? {
        return Failed(f.reason);
      }
      var keys := CollectKeys(f.rrset);
      if |keys| == 0 {
        return Failed(NoKeys);
      }
      if zone == ROOT {
        if |cf.anchors| == 0 {
          return Failed(NoAnchors);
        }
        var seps := CollectAnchored(cf.crypto, cf.anchors, keys);
        if |seps| == 0 {
          return Failed(NoAnchorMatch);
        }
        r := CheckSelfSigned(f, keys, seps);
        return;
      }
      var d := FetchDSResponse(zone);
      if d.DsNotFetched? {
        return Failed(d.reason);
      }
      ParentOfCanonical(zone);
      var p := AuthenticatedDNSKEYs(Parent(zone), depth + 1);
      if !p.Keys? {
        return p;
      }
      r := CheckDelegation(zone, f, keys, d.msg, p.keys);
    }

    method CheckDelegation(zone: Name, f: Fetched, keys: seq<Key>, ds: Msg, parentKeys: seq<Key>) returns (r: WalkResult)
      requires f.Fetched? && keys == KeysOf(f.rrset) && Canonical(zone) == zone
      ensures r == JudgeDelegation(cf.crypto, Now(cf, State()), zone, f, ds, parentKeys)
    {
      var now := cf.world.clock(tick);
      var dsRRs, dsSigs := SplitRRSIGs(ds.answer, TYPE_DS);
      if |dsRRs| == 0 {
        if ds.rcode == RCODE_SUCCESS {
          var denied := ProvesNoDS(cf.crypto, now, zone, ds.authority, parentKeys);
          if denied {
            return Insecure;
          }
        }
        return Failed(DsAbsent);
      }
      var v := VerifyRRsetWithKeySet(cf.crypto, now, dsRRs, dsSigs, parentKeys);
      if v != Verified {
        if UnprocessableKey(v) {
          return Insecure;
        }
        return Failed(DsNotAuthentic);
      }
      var seps := CollectEntryPoints(cf.crypto, dsRRs, keys);
      if |seps| == 0 {
        return Failed(NoDsMatch);
      }
      r := CheckSelfSigned(f, keys, seps);
    }
  }
}
