/** What the walk's verdicts mean, whatever the upstream, the clock and the shared key cache do. */
module Trust {
  import opened Dns
  import opened Signatures
  import opened Zones
  import opened Denial
  import opened Chain

  // ---- chains of trust

  /** One delegation: a DNSKEY set signed by `sep`, and the DS set that names `sep`. */
  datatype Link = Link(rrs: seq<RR>, sep: Key, sig: Sig, at: nat, dsSet: seq<RR>, ds: Ds, dsSig: Sig, dsKey: Key, dsAt: nat)

  ghost predicate SignedAt(cf: Config, at: nat, sig: Sig, k: Key, rrs: seq<RR>, rrtype: nat) {
    && (forall rr :: rr in rrs ==> RRType(rr) == rrtype)
    && sig.typeCovered == rrtype && Candidate(cf.crypto, sig, k)
    && cf.crypto.inPeriod(sig, cf.world.clock(at))
    && cf.crypto.verify(sig, k, rrs) == Ok
  }

  /** `links` leads from `zone` to a root key that matches an anchor: every DNSKEY set is signed by one
      of its own keys, that key is anchored or named by a DS set, and the DS set is signed by a key of
      the parent's link.  Every signature was in period at some clock reading between lo and hi. */
  ghost predicate TrustChain(cf: Config, lo: nat, hi: nat, zone: Name, links: seq<Link>)
    requires EndsWithDot(zone)
    decreases |links|
  {
    && links != []
    && var l := links[0];
    && l.sep in KeysOf(l.rrs)
    && lo <= l.at <= hi && SignedAt(cf, l.at, l.sig, l.sep, l.rrs, TYPE_DNSKEY)
    && if zone == ROOT then
         |links| == 1 && Anchored(cf.crypto, cf.anchors, l.sep)
       else
         && (exists rr :: rr in l.dsSet && rr.DsRR? && rr.ds == l.ds)
         && MatchesDs(cf.crypto, l.sep, l.ds)
         && lo <= l.dsAt <= hi && SignedAt(cf, l.dsAt, l.dsSig, l.dsKey, l.dsSet, TYPE_DS)
         && TrustChain(cf, lo, hi, Parent(zone), links[1..])
         && l.dsKey in KeysOf(links[1].rrs)
  }

  ghost predicate Trusted(cf: Config, lo: nat, hi: nat, zone: Name, keys: seq<Key>)
    requires EndsWithDot(zone)
  {
    exists links: seq<Link> :: TrustChain(cf, lo, hi, zone, links) && KeysOf(links[0].rrs) == keys
  }

  lemma {:induction false} WidenChain(cf: Config, lo: nat, hi: nat, lo': nat, hi': nat, zone: Name, links: seq<Link>)
    requires EndsWithDot(zone) && TrustChain(cf, lo, hi, zone, links) && lo' <= lo && hi <= hi'
    ensures TrustChain(cf, lo', hi', zone, links)
    decreases |links|
  {
    if zone != ROOT {
      WidenChain(cf, lo, hi, lo', hi', Parent(zone), links[1..]);
    }
  }

  lemma WidenTrusted(cf: Config, lo: nat, hi: nat, lo': nat, hi': nat, zone: Name, keys: seq<Key>)
    requires EndsWithDot(zone) && Trusted(cf, lo, hi, zone, keys) && lo' <= lo && hi <= hi'
    ensures Trusted(cf, lo', hi', zone, keys)
  {
    var links: seq<Link> :| TrustChain(cf, lo, hi, zone, links) && KeysOf(links[0].rrs) == keys;
    WidenChain(cf, lo, hi, lo', hi', zone, links);
  }

  lemma {:induction false} RecordsHaveType(rrs: seq<RR>, rrtype: nat)
    ensures forall rr :: rr in RecordsOf(rrs, rrtype) ==> RRType(rr) == rrtype
  {
    if rrs != [] {
      RecordsHaveType(rrs[..|rrs| - 1], rrtype);
    }
  }

  lemma {:induction false} SigsHaveType(rrs: seq<RR>, rrtype: nat)
    ensures forall sig :: sig in SigsOver(rrs, rrtype) ==> sig.typeCovered == rrtype
  {
    if rrs != [] {
      SigsHaveType(rrs[..|rrs| - 1], rrtype);
    }
  }

  /** A digest of the key is on record: tag and algorithm are the key's, and so is the digest, up to case. */
  predicate Identifies(c: Crypto, k: Key, tag: nat, algorithm: nat, digestType: nat, digest: string) {
    && tag == c.keyTag(k) && algorithm == k.algorithm && c.toDS(k, digestType).Some?
    && var own := c.toDS(k, digestType).value;
       |own| == |digest| && forall i :: 0 <= i < |own| ==> LowerChar(own[i]) == LowerChar(digest[i])
  }

  lemma HexEqIs(a: string, b: string)
    ensures HexEq(a, b) <==> |a| == |b| && forall i :: 0 <= i < |a| ==> LowerChar(a[i]) == LowerChar(b[i])
  {
    if HexEq(a, b) {
      forall i | 0 <= i < |a| ensures LowerChar(a[i]) == LowerChar(b[i]) {
        assert Lower(a)[i] == Lower(b)[i];
      }
    }
  }

  lemma MatchIsIdentity(c: Crypto, k: Key, a: Anchor, ds: Ds)
    ensures MatchesAnchor(c, k, a) <==> Identifies(c, k, a.keyTag, a.algorithm, a.digestType, a.digest)
    ensures MatchesDs(c, k, ds) <==> Identifies(c, k, ds.keyTag, ds.algorithm, ds.digestType, ds.digest)
  {
    hide HexEq;
    if c.toDS(k, a.digestType).Some? {
      HexEqIs(c.toDS(k, a.digestType).value, a.digest);
    }
    if c.toDS(k, ds.digestType).Some? {
      HexEqIs(c.toDS(k, ds.digestType).value, ds.digest);
    }
  }

  /** The root entry points: the served keys that some anchor identifies. */
  lemma RootEntriesAre(c: Crypto, anchors: seq<Anchor>, keys: seq<Key>, k: Key)
    ensures k in AnchoredKeys(c, anchors, keys) <==>
            k in keys && exists a :: a in anchors && Identifies(c, k, a.keyTag, a.algorithm, a.digestType, a.digest)
  {
    hide Identifies, MatchesAnchor, AnchoredKeys;
    AnchoredKeysAre(c, anchors, keys, k);
    forall a: Anchor ensures MatchesAnchor(c, k, a) <==> Identifies(c, k, a.keyTag, a.algorithm, a.digestType, a.digest) {
      MatchIsIdentity(c, k, a, Ds(0, 0, 0, ""));
    }
  }

  /** The entry points of any other zone: the served keys that some record of the DS set identifies. */
  lemma ZoneEntriesAre(c: Crypto, dsRRs: seq<RR>, keys: seq<Key>, k: Key)
    ensures k in EntryPoints(c, dsRRs, keys) <==>
            k in keys && exists rr :: rr in dsRRs && rr.DsRR? && Identifies(c, k, rr.ds.keyTag, rr.ds.algorithm, rr.ds.digestType, rr.ds.digest)
  {
    hide Identifies, MatchesDs, EntryPoints;
    EntryPointsAre(c, dsRRs, keys, k);
    forall rr: RR | rr.DsRR? ensures MatchesDs(c, k, rr.ds) <==> Identifies(c, k, rr.ds.keyTag, rr.ds.algorithm, rr.ds.digestType, rr.ds.digest) {
      MatchIsIdentity(c, k, Anchor(0, 0, 0, ""), rr.ds);
    }
  }

  lemma {:induction false} AnchoredKeysAre(c: Crypto, anchors: seq<Anchor>, keys: seq<Key>, k: Key)
    ensures k in AnchoredKeys(c, anchors, keys) <==> k in keys && Anchored(c, anchors, k)
  {
    if keys != [] {
      var n := |keys| - 1;
      AnchoredKeysAre(c, anchors, keys[..n], k);
      assert keys == keys[..n] + [keys[n]];
    }
  }

  lemma {:induction false} KeysMatchingAre(c: Crypto, ds: Ds, keys: seq<Key>, k: Key)
    ensures k in KeysMatching(c, ds, keys) <==> k in keys && MatchesDs(c, k, ds)
  {
    if keys != [] {
      var n := |keys| - 1;
      KeysMatchingAre(c, ds, keys[..n], k);
      assert keys == keys[..n] + [keys[n]];
    }
  }

  lemma {:induction false} EntryPointsAre(c: Crypto, dsRRs: seq<RR>, keys: seq<Key>, k: Key)
    ensures k in EntryPoints(c, dsRRs, keys) <==>
            k in keys && exists rr :: rr in dsRRs && rr.DsRR? && MatchesDs(c, k, rr.ds)
  {
    hide MatchesDs, KeysMatching;
    if dsRRs != [] {
      var n := |dsRRs| - 1;
      EntryPointsAre(c, dsRRs[..n], keys, k);
      assert dsRRs == dsRRs[..n] + [dsRRs[n]];
      if dsRRs[n].DsRR? {
        KeysMatchingAre(c, dsRRs[n].ds, keys, k);
      }
    }
  }

  ghost predicate Typed(f: Fetched, rrtype: nat)
    requires f.Fetched?
  {
    && (forall rr :: rr in f.rrset ==> RRType(rr) == rrtype)
    && (forall sig :: sig in f.sigs ==> sig.typeCovered == rrtype)
  }

  /** A fetched set is of one type, whatever the cache or the upstream handed over. */
  lemma FetchedIsTyped(cf: Config, s: Session, zone: Name, rrtype: nat)
    requires Fetch(cf, s, zone, rrtype).0.Fetched?
    ensures Typed(Fetch(cf, s, zone, rrtype).0, rrtype)
  {
    var (hit, s1) := LookedUp(cf, s, (zone, rrtype));
    var rrs := if hit.Some? then hit.value else Kept(Asked(cf, s1, zone, rrtype).0.msg.answer, rrtype);
    RecordsHaveType(rrs, rrtype);
    SigsHaveType(rrs, rrtype);
  }

  /** The signer of a self-signed set is one of the entry points it was checked against. */
  lemma SelfSignedBy(c: Crypto, now: int, f: Fetched, seps: seq<Key>) returns (sig: Sig, sep: Key)
    requires f.Fetched? && SelfSigned(c, now, f, seps).Keys?
    ensures Tests(c, now, f.sigs, seps, f.rrset, Ok, sig, sep)
  {
    VerifiedIff(c, now, f.rrset, f.sigs, seps);
    sig, sep :| Tests(c, now, f.sigs, seps, f.rrset, Ok, sig, sep);
  }

  lemma RootIsTrusted(cf: Config, lo: nat, hi: nat, f: Fetched)
    requires f.Fetched? && lo <= hi && Typed(f, TYPE_DNSKEY)
    requires JudgeRoot(cf, cf.world.clock(hi), f).Keys?
    ensures Trusted(cf, lo, hi, ROOT, JudgeRoot(cf, cf.world.clock(hi), f).keys)
  {
    hide VerifySet, KeysOf, AnchoredKeys, Anchored, Candidate;
    var seps := AnchoredKeys(cf.crypto, cf.anchors, KeysOf(f.rrset));
    var sig, sep := SelfSignedBy(cf.crypto, cf.world.clock(hi), f, seps);
    AnchoredKeysAre(cf.crypto, cf.anchors, KeysOf(f.rrset), sep);
    var links := [Link(f.rrset, sep, sig, hi, [], Ds(0, 0, 0, ""), sig, sep, 0)];
    assert TrustChain(cf, lo, hi, ROOT, links);
  }

  lemma DelegationIsTrusted(cf: Config, lo: nat, hi: nat, zone: Name, f: Fetched, ds: Msg, parentKeys: seq<Key>)
    requires EndsWithDot(zone) && zone != ROOT && f.Fetched? && lo <= hi && Typed(f, TYPE_DNSKEY)
    requires Trusted(cf, lo, hi, Parent(zone), parentKeys)
    requires JudgeDelegation(cf.crypto, cf.world.clock(hi), zone, f, ds, parentKeys).Keys?
    ensures Trusted(cf, lo, hi, zone, JudgeDelegation(cf.crypto, cf.world.clock(hi), zone, f, ds, parentKeys).keys)
  {
    hide VerifySet, KeysOf, RecordsOf, SigsOver, EntryPoints, MatchesDs, DeniesDS, Candidate, Parent;
    var above: seq<Link> :| TrustChain(cf, lo, hi, Parent(zone), above) && KeysOf(above[0].rrs) == parentKeys;
    var c, now := cf.crypto, cf.world.clock(hi);
    var dsRRs, dsSigs := RecordsOf(ds.answer, TYPE_DS), SigsOver(ds.answer, TYPE_DS);
    RecordsHaveType(ds.answer, TYPE_DS);
    SigsHaveType(ds.answer, TYPE_DS);
    VerifiedIff(c, now, dsRRs, dsSigs, parentKeys);
    var dsSig, dsKey :| Tests(c, now, dsSigs, parentKeys, dsRRs, Ok, dsSig, dsKey);
    var seps := EntryPoints(c, dsRRs, KeysOf(f.rrset));
    var sig, sep := SelfSignedBy(c, now, f, seps);
    EntryPointsAre(c, dsRRs, KeysOf(f.rrset), sep);
    var rr :| rr in dsRRs && rr.DsRR? && MatchesDs(c, sep, rr.ds);
    var links := [Link(f.rrset, sep, sig, hi, dsRRs, rr.ds, dsSig, dsKey, hi)] + above;
    assert links[1..] == above;
    assert SignedAt(cf, hi, sig, sep, f.rrset, TYPE_DNSKEY);
    assert SignedAt(cf, hi, dsSig, dsKey, dsRRs, TYPE_DS);
    assert TrustChain(cf, lo, hi, zone, links);
  }

  /** Soundness: keys the walk returns hang on a chain of trust.  Nothing is assumed about `cf.world`
      or about the cache the walk starts from. */
  lemma {:induction false} WalkIsSound(cf: Config, s: Session, zone: Name, depth: nat, r: WalkResult, s': Session)
    requires EndsWithDot(zone) && (r, s') == Walk(cf, s, zone, depth) && r.Keys?
    ensures Trusted(cf, s.tick, s'.tick, zone, r.keys)
    decreases |zone|
  {
    hide Fetch, FetchDs, JudgeRoot, JudgeDelegation, Trusted;
    var (f, s1) := Fetch(cf, s, zone, TYPE_DNSKEY);
    FetchedIsTyped(cf, s, zone, TYPE_DNSKEY);
    if zone == ROOT {
      RootIsTrusted(cf, s.tick, s'.tick, f);
    } else {
      var (d, s2) := FetchDs(cf, s1, zone);
      var (p, s3) := Walk(cf, s2, Parent(zone), depth + 1);
      WalkIsSound(cf, s2, Parent(zone), depth + 1, p, s3);
      WidenTrusted(cf, s2.tick, s3.tick, s.tick, s'.tick, Parent(zone), p.keys);
      DelegationIsTrusted(cf, s.tick, s'.tick, zone, f, d.msg, p.keys);
    }
  }

  // ---- insecure is never free

  /** Why a zone is not anchored: the parent denies its DS, the parent key over its DS cannot be used,
      or the entry point over its own keys cannot be used. */
  datatype Cause =
    | Denied(parentKeys: seq<Key>, section: seq<RR>, rr: RR)
    | DsKeyUnusable(parentKeys: seq<Key>, dsSet: seq<RR>, sig: Sig, key: Key, o: Outcome)
    | EntryPointUnusable(keySet: seq<RR>, sig: Sig, key: Key, o: Outcome)

  ghost predicate Explains(cf: Config, lo: nat, hi: nat, zone: Name, at: nat, cause: Cause)
    requires EndsWithDot(zone)
  {
    && lo <= at <= hi
    && var c, now := cf.crypto, cf.world.clock(at);
    match cause
    case Denied(parentKeys, section, rr) =>
      && zone != ROOT && Trusted(cf, lo, hi, Parent(zone), parentKeys)
      && rr in section && Vouched(c, now, rr, section, parentKeys)
      && DenialShape(c, now, zone, section, parentKeys, rr)
    case DsKeyUnusable(parentKeys, dsSet, sig, key, o) =>
      && zone != ROOT && Trusted(cf, lo, hi, Parent(zone), parentKeys)
      && key in parentKeys && sig.typeCovered == TYPE_DS
      && c.inPeriod(sig, now) && Candidate(c, sig, key)
      && UnprocessableOutcome(o) && c.verify(sig, key, dsSet) == o
    case EntryPointUnusable(keySet, sig, key, o) =>
      && key in KeysOf(keySet) && EntryPoint(cf, lo, hi, zone, at, key)
      && c.inPeriod(sig, now) && Candidate(c, sig, key)
      && UnprocessableOutcome(o) && c.verify(sig, key, keySet) == o
  }

  ghost predicate NamedBy(cf: Config, at: nat, parentKeys: seq<Key>, dsSet: seq<RR>, dsSig: Sig, dsKey: Key, rr: RR, key: Key) {
    && dsKey in parentKeys && SignedAt(cf, at, dsSig, dsKey, dsSet, TYPE_DS)
    && rr in dsSet && rr.DsRR? && MatchesDs(cf.crypto, key, rr.ds)
  }

  /** Anchored at the root; elsewhere named by a DS set signed with trusted parent keys. */
  ghost predicate EntryPoint(cf: Config, lo: nat, hi: nat, zone: Name, at: nat, key: Key)
    requires EndsWithDot(zone)
  {
    if zone == ROOT then Anchored(cf.crypto, cf.anchors, key)
    else exists parentKeys, dsSet, dsSig, dsKey, rr ::
      Trusted(cf, lo, hi, Parent(zone), parentKeys) && NamedBy(cf, at, parentKeys, dsSet, dsSig, dsKey, rr, key)
  }

  ghost predicate Justified(cf: Config, lo: nat, hi: nat, zone: Name)
    requires EndsWithDot(zone)
  {
    exists k: nat, at, cause :: k <= Labels(zone) && Explains(cf, lo, hi, Up(zone, k), at, cause)
  }

  lemma {:induction false} UpOfParent(zone: Name, k: nat)
    requires EndsWithDot(zone)
    ensures Up(Parent(zone), k) == Up(zone, k + 1)
  {
    if k > 0 {
      UpOfParent(zone, k - 1);
    }
  }

  lemma WidenExplains(cf: Config, lo: nat, hi: nat, lo': nat, hi': nat, zone: Name, at: nat, cause: Cause)
    requires EndsWithDot(zone) && Explains(cf, lo, hi, zone, at, cause) && lo' <= lo && hi <= hi'
    ensures Explains(cf, lo', hi', zone, at, cause)
  {
    match cause
    case Denied(parentKeys, _, _) =>
      WidenTrusted(cf, lo, hi, lo', hi', Parent(zone), parentKeys);
    case DsKeyUnusable(parentKeys, _, _, _, _) =>
      WidenTrusted(cf, lo, hi, lo', hi', Parent(zone), parentKeys);
    case EntryPointUnusable(_, _, key, _) =>
      if zone != ROOT {
        var parentKeys, dsSet, dsSig, dsKey, rr :|
          Trusted(cf, lo, hi, Parent(zone), parentKeys) && NamedBy(cf, at, parentKeys, dsSet, dsSig, dsKey, rr, key);
        WidenTrusted(cf, lo, hi, lo', hi', Parent(zone), parentKeys);
      }
  }

  /** A self-signature check that comes out insecure names an entry point that could not be used. */
  lemma UnusableEntryPoint(cf: Config, lo: nat, hi: nat, zone: Name, f: Fetched, seps: seq<Key>)
    requires EndsWithDot(zone) && f.Fetched? && lo <= hi
    requires SelfSigned(cf.crypto, cf.world.clock(hi), f, seps).Insecure?
    requires forall k :: k in seps ==> k in KeysOf(f.rrset) && EntryPoint(cf, lo, hi, zone, hi, k)
    ensures exists cause :: Explains(cf, lo, hi, zone, hi, cause)
  {
    var c, now := cf.crypto, cf.world.clock(hi);
    UnprocessableHasSource(c, now, f.rrset, f.sigs, seps);
    var o, sig, k :| UnprocessableOutcome(o) && Tests(c, now, f.sigs, seps, f.rrset, o, sig, k);
    assert Explains(cf, lo, hi, zone, hi, EntryPointUnusable(f.rrset, sig, k, o));
  }

  lemma InsecureRootIsExplained(cf: Config, lo: nat, hi: nat, f: Fetched)
    requires f.Fetched? && lo <= hi && JudgeRoot(cf, cf.world.clock(hi), f).Insecure?
    ensures exists cause :: Explains(cf, lo, hi, ROOT, hi, cause)
  {
    hide VerifySet, SelfSigned, KeysOf, AnchoredKeys, Anchored;
    var seps := AnchoredKeys(cf.crypto, cf.anchors, KeysOf(f.rrset));
    forall k | k in seps ensures k in KeysOf(f.rrset) && EntryPoint(cf, lo, hi, ROOT, hi, k) {
      AnchoredKeysAre(cf.crypto, cf.anchors, KeysOf(f.rrset), k);
    }
    UnusableEntryPoint(cf, lo, hi, ROOT, f, seps);
  }

  lemma InsecureDelegationIsExplained(cf: Config, lo: nat, hi: nat, zone: Name, f: Fetched, ds: Msg, parentKeys: seq<Key>)
    requires EndsWithDot(zone) && zone != ROOT && f.Fetched? && lo <= hi
    requires Trusted(cf, lo, hi, Parent(zone), parentKeys)
    requires JudgeDelegation(cf.crypto, cf.world.clock(hi), zone, f, ds, parentKeys).Insecure?
    ensures exists cause :: Explains(cf, lo, hi, zone, hi, cause)
  {
    var c, now := cf.crypto, cf.world.clock(hi);
    var dsRRs, dsSigs := RecordsOf(ds.answer, TYPE_DS), SigsOver(ds.answer, TYPE_DS);
    RecordsHaveType(ds.answer, TYPE_DS);
    SigsHaveType(ds.answer, TYPE_DS);
    var v := VerifySet(c, now, dsRRs, dsSigs, parentKeys);
    if dsRRs == [] {
      DenialRestsOnParentKeys(c, now, zone, ds.authority, parentKeys);
      var rr :| rr in ds.authority && Vouched(c, now, rr, ds.authority, parentKeys) && DenialShape(c, now, zone, ds.authority, parentKeys, rr);
      assert Explains(cf, lo, hi, zone, hi, Denied(parentKeys, ds.authority, rr));
    } else if UnprocessableKey(v) {
      UnprocessableHasSource(c, now, dsRRs, dsSigs, parentKeys);
      var o, sig, k :| UnprocessableOutcome(o) && Tests(c, now, dsSigs, parentKeys, dsRRs, o, sig, k);
      assert Explains(cf, lo, hi, zone, hi, DsKeyUnusable(parentKeys, dsRRs, sig, k, o));
    } else {
      VerifiedIff(c, now, dsRRs, dsSigs, parentKeys);
      var dsSig, dsKey :| Tests(c, now, dsSigs, parentKeys, dsRRs, Ok, dsSig, dsKey);
      var seps := EntryPoints(c, dsRRs, KeysOf(f.rrset));
      forall k | k in seps ensures k in KeysOf(f.rrset) && EntryPoint(cf, lo, hi, zone, hi, k) {
        EntryPointsAre(c, dsRRs, KeysOf(f.rrset), k);
        var rr :| rr in dsRRs && rr.DsRR? && MatchesDs(c, k, rr.ds);
        assert NamedBy(cf, hi, parentKeys, dsRRs, dsSig, dsKey, rr, k);
      }
      UnusableEntryPoint(cf, lo, hi, zone, f, seps);
    }
  }

  lemma ExplainedIsJustified(cf: Config, lo: nat, hi: nat, zone: Name, at: nat, cause: Cause)
    requires EndsWithDot(zone) && Explains(cf, lo, hi, zone, at, cause)
    ensures Justified(cf, lo, hi, zone)
  {
    hide Explains;
    assert Up(zone, 0) == zone;
  }

  lemma AncestorJustifies(cf: Config, lo: nat, hi: nat, lo': nat, hi': nat, zone: Name)
    requires EndsWithDot(zone) && zone != ROOT && Justified(cf, lo, hi, Parent(zone)) && lo' <= lo && hi <= hi'
    ensures Justified(cf, lo', hi', zone)
  {
    hide Explains;
    var k: nat, at, cause :| k <= Labels(Parent(zone)) && Explains(cf, lo, hi, Up(Parent(zone), k), at, cause);
    WidenExplains(cf, lo, hi, lo', hi', Up(Parent(zone), k), at, cause);
    UpOfParent(zone, k);
    assert Explains(cf, lo', hi', Up(zone, k + 1), at, cause);
  }

  /** "Insecure" is reported only when the zone or one of its ancestors has a cause: an authenticated
      denial of its DS under trusted parent keys, or a signing key that could not be processed. */
  lemma {:induction false} InsecureIsNeverFree(cf: Config, s: Session, zone: Name, depth: nat, r: WalkResult, s': Session)
    requires EndsWithDot(zone) && (r, s') == Walk(cf, s, zone, depth) && r.Insecure?
    ensures Justified(cf, s.tick, s'.tick, zone)
    decreases |zone|
  {
    hide Fetch, FetchDs, JudgeRoot, JudgeDelegation, Explains, Trusted, Justified;
    var lo, hi := s.tick, s'.tick;
    var (f, s1) := Fetch(cf, s, zone, TYPE_DNSKEY);
    if zone == ROOT {
      InsecureRootIsExplained(cf, lo, hi, f);
      var cause :| Explains(cf, lo, hi, ROOT, hi, cause);
      ExplainedIsJustified(cf, lo, hi, zone, hi, cause);
    } else {
      var (d, s2) := FetchDs(cf, s1, zone);
      var (p, s3) := Walk(cf, s2, Parent(zone), depth + 1);
      if p.Keys? {
        WalkIsSound(cf, s2, Parent(zone), depth + 1, p, s3);
        WidenTrusted(cf, s2.tick, s3.tick, lo, hi, Parent(zone), p.keys);
        InsecureDelegationIsExplained(cf, lo, hi, zone, f, d.msg, p.keys);
        var cause :| Explains(cf, lo, hi, zone, hi, cause);
        ExplainedIsJustified(cf, lo, hi, zone, hi, cause);
      } else {
        InsecureIsNeverFree(cf, s2, Parent(zone), depth + 1, p, s3);
        AncestorJustifies(cf, s2.tick, s3.tick, lo, hi, zone);
      }
    }
  }

  // ---- how long a walk can be

  /** At most two fetches per delegation and one for the root, never more than fifty, and success only
      from a zone at most 24 labels deep. */
  lemma {:induction false} WalkIsBounded(cf: Config, s: Session, zone: Name, depth: nat, r: WalkResult, s': Session)
    requires EndsWithDot(zone) && (r, s') == Walk(cf, s, zone, depth)
    ensures s'.sent - s.sent <= 2 * Labels(zone) + 1
    ensures depth <= 25 ==> s'.sent - s.sent <= 2 * (25 - depth)
    ensures r.Keys? ==> depth + Labels(zone) <= 24
    decreases |zone|
  {
    hide JudgeRoot, JudgeDelegation, Fetch, FetchDs;
    if depth <= MAX_CHAIN_DEPTH && zone != ROOT {
      var s2 := FetchDs(cf, Fetch(cf, s, zone, TYPE_DNSKEY).1, zone).1;
      var (p, s3) := Walk(cf, s2, Parent(zone), depth + 1);
      WalkIsBounded(cf, s2, Parent(zone), depth + 1, p, s3);
    }
  }
}
