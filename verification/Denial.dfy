/** Authenticated denial of a DS RRset: sections 8.6 and 8.9 of RFC 5155, section 5.4 of RFC 4035. */
module Denial {
  import opened Dns
  import opened Signatures
  import opened Zones

  /** "A delegation is here and it has no DS." */
  predicate DelegationWithoutDS(bitmap: seq<nat>) {
    TYPE_NS in bitmap && TYPE_DS !in bitmap && TYPE_SOA !in bitmap
  }

  predicate Covers(sig: Sig, rr: RR) {
    sig.typeCovered == RRType(rr) && Canonical(sig.owner) == Canonical(Owner(rr))
  }

  /** The signatures in a section that cover one record, in order. */
  function Covering(section: seq<RR>, rr: RR): seq<Sig> {
    if section == [] then []
    else
      var last := section[|section| - 1];
      Covering(section[..|section| - 1], rr) +
      if last.RrsigRR? && Covers(last.sig, rr) then [last.sig] else []
  }

  /** One record vouched for by the parent: some signature in the section that covers it verifies
      under a parent key.  Nothing here depends on the other records of the section. */
  ghost predicate Vouched(c: Crypto, now: int, rr: RR, section: seq<RR>, keys: seq<Key>) {
    exists ttl, sig, k :: Vouches(c, now, rr, section, keys, ttl, sig, k)
  }

  ghost predicate Vouches(c: Crypto, now: int, rr: RR, section: seq<RR>, keys: seq<Key>, ttl: nat, sig: Sig, k: Key) {
    && RrsigRR(ttl, sig) in section && sig.typeCovered == RRType(rr) && Canonical(sig.owner) == Canonical(Owner(rr))
    && k in keys && c.keyTag(k) == sig.keyTag && k.algorithm == sig.algorithm
    && c.inPeriod(sig, now) && c.verify(sig, k, [rr]) == Ok
  }

  /** The per-record check handed to the denial rules. */
  function Verifier(c: Crypto, now: int, section: seq<RR>, keys: seq<Key>): RR -> bool {
    rr => VerifySet(c, now, [rr], Covering(section, rr), keys).Verified?
  }

  method VerifyDenialRecord(c: Crypto, now: int, rr: RR, section: seq<RR>, keys: seq<Key>) returns (r: bool)
    ensures r == Verifier(c, now, section, keys)(rr)
  {
    var covering: seq<Sig> := [];
    for i := 0 to |section|
      invariant covering == Covering(section[..i], rr)
    {
      assert section[..i + 1][..i] == section[..i];
      if section[i].RrsigRR? && Covers(section[i].sig, rr) {
        covering := covering + [section[i].sig];
      }
    }
    assert section[..|section|] == section;
    if |covering| == 0 {
      return false;
    }
    var v := VerifyRRsetWithKeySet(c, now, [rr], covering, keys);
    r := v == Verified;
  }

  lemma {:induction false} CoveringIff(section: seq<RR>, rr: RR, sig: Sig)
    ensures sig in Covering(section, rr) <==> Covers(sig, rr) && exists ttl :: RrsigRR(ttl, sig) in section
  {
    hide Canonical, RRType, Owner;
    if section != [] {
      var n := |section| - 1;
      CoveringIff(section[..n], rr, sig);
      assert section == section[..n] + [section[n]];
      if section[n].RrsigRR? && section[n].sig == sig {
        assert RrsigRR(section[n].ttl, sig) in section;
      }
    }
  }

  lemma VerifierIsVouched(c: Crypto, now: int, section: seq<RR>, keys: seq<Key>, rr: RR)
    ensures Verifier(c, now, section, keys)(rr) <==> Vouched(c, now, rr, section, keys)
  {
    var covering := Covering(section, rr);
    VerifiedIff(c, now, [rr], covering, keys);
    if sig, k :| Tests(c, now, covering, keys, [rr], Ok, sig, k) {
      CoveringIff(section, rr, sig);
      var ttl :| RrsigRR(ttl, sig) in section;
      assert Vouches(c, now, rr, section, keys, ttl, sig, k);
    }
    if ttl, sig, k :| Vouches(c, now, rr, section, keys, ttl, sig, k) {
      CoveringIff(section, rr, sig);
      assert Tests(c, now, covering, keys, [rr], Ok, sig, k);
    }
  }

  ghost predicate ProperAncestor(a: Name, child: Name)
    requires EndsWithDot(child)
  {
    a != child && exists k: nat :: Up(child, k) == a
  }

  ghost predicate MatchesChild(c: Crypto, verified: RR -> bool, section: seq<RR>, child: Name, i: nat) {
    && i < |section| && section[i].Nsec3RR? && verified(section[i])
    && c.nsec3Match(section[i].nsec3, child)
  }

  /** The first verified NSEC3 that matches the child shows a delegation without DS. */
  ghost predicate DeniedByMatch(c: Crypto, verified: RR -> bool, child: Name, section: seq<RR>) {
    exists i: nat ::
      && MatchesChild(c, verified, section, child, i)
      && (forall j: nat | j < i :: !MatchesChild(c, verified, section, child, j))
      && DelegationWithoutDS(section[i].nsec3.bitmap)
  }

  ghost predicate OptOutCover(c: Crypto, verified: RR -> bool, child: Name, rr: RR) {
    rr.Nsec3RR? && verified(rr) && rr.nsec3.flags % 2 == 1 && c.nsec3Cover(rr.nsec3, child)
  }

  ghost predicate Encloser(c: Crypto, verified: RR -> bool, child: Name, rr: RR, a: Name)
    requires EndsWithDot(child)
  {
    rr.Nsec3RR? && verified(rr) && ProperAncestor(a, child) && c.nsec3Match(rr.nsec3, a)
  }

  /** No verified NSEC3 matches the child, a verified opt-out NSEC3 covers it and a verified NSEC3
      matches one of its proper ancestors. */
  ghost predicate DeniedByOptOut(c: Crypto, verified: RR -> bool, child: Name, section: seq<RR>)
    requires EndsWithDot(child)
  {
    && (forall i: nat :: !MatchesChild(c, verified, section, child, i))
    && (exists rr :: rr in section && OptOutCover(c, verified, child, rr))
    && (exists rr, a :: rr in section && Encloser(c, verified, child, rr, a))
  }

  ghost predicate NamesChild(verified: RR -> bool, section: seq<RR>, child: Name, i: nat) {
    i < |section| && section[i].NsecRR? && verified(section[i]) && Canonical(section[i].owner) == child
  }

  ghost predicate DeniedByNsec(verified: RR -> bool, child: Name, section: seq<RR>) {
    exists i: nat ::
      && NamesChild(verified, section, child, i)
      && (forall j: nat | j < i :: !NamesChild(verified, section, child, j))
      && DelegationWithoutDS(section[i].bitmap)
  }

  /** What the authority section of a DS reply may prove; NSEC counts only without NSEC3. */
  ghost predicate DeniesDS(c: Crypto, now: int, child: Name, section: seq<RR>, keys: seq<Key>)
    requires EndsWithDot(child)
  {
    var verified := Verifier(c, now, section, keys);
    if exists rr :: rr in section && rr.Nsec3RR? then
      DeniedByMatch(c, verified, child, section) || DeniedByOptOut(c, verified, child, section)
    else
      DeniedByNsec(verified, child, section)
  }

  /** The search tests the child itself and then every name above it. */
  method ClosestEncloserMatch(c: Crypto, child: Name, n3: Nsec3) returns (r: bool)
    ensures r <==> exists k: nat :: c.nsec3Match(n3, Up(Canonical(child), k))
  {
    hide Canonical, AfterFirstDot;
    var start := Canonical(child);
    var name := start;
    ghost var k: nat := 0;
    while true
      invariant EndsWithDot(name) && name == Up(start, k)
      invariant forall j: nat | j < k :: !c.nsec3Match(n3, Up(start, j))
      decreases |name|
    {
      if c.nsec3Match(n3, name) {
        return true;
      }
      var next := Parent(name);
      if next == name {
        break;
      }
      name := next;
      k := k + 1;
    }
    forall j: nat ensures !c.nsec3Match(n3, Up(start, j)) {
      if j >= k {
        UpFromRoot(start, k, j);
      }
    }
    return false;
  }

  method Nsec3ProvesNoDS(c: Crypto, child: Name, section: seq<RR>, verified: RR -> bool) returns (r: bool)
    requires Canonical(child) == child
    ensures r <==> DeniedByMatch(c, verified, child, section) || DeniedByOptOut(c, verified, child, section)
  {
    for i := 0 to |section|
      invariant forall j: nat | j < i :: !MatchesChild(c, verified, section, child, j)
    {
      if section[i].Nsec3RR? && verified(section[i]) && c.nsec3Match(section[i].nsec3, child) {
        assert MatchesChild(c, verified, section, child, i);
        return DelegationWithoutDS(section[i].nsec3.bitmap);
      }
    }
    var covered := false;
    for i := 0 to |section|
      invariant !covered
      invariant forall j | 0 <= j < i :: !OptOutCover(c, verified, child, section[j])
    {
      if section[i].Nsec3RR? && verified(section[i]) && section[i].nsec3.flags % 2 == 1 &&
         c.nsec3Cover(section[i].nsec3, child) {
        assert OptOutCover(c, verified, child, section[i]);
        covered := true;
        break;
      }
    }
    if !covered {
      return false;
    }
    for i := 0 to |section|
      invariant forall j, a | 0 <= j < i :: !Encloser(c, verified, child, section[j], a)
    {
      if section[i].Nsec3RR? && verified(section[i]) {
        var enclosing := ClosestEncloserMatch(c, child, section[i].nsec3);
        if enclosing {
          ghost var k: nat :| c.nsec3Match(section[i].nsec3, Up(child, k));
          assert !MatchesChild(c, verified, section, child, i);
          assert Encloser(c, verified, child, section[i], Up(child, k));
          return true;
        }
        forall a ensures !Encloser(c, verified, child, section[i], a) {
          if ProperAncestor(a, child) {
            ghost var k: nat :| Up(child, k) == a;
            assert !c.nsec3Match(section[i].nsec3, Up(child, k));
          }
        }
      }
    }
    return false;
  }

  method NsecProvesNoDS(child: Name, section: seq<RR>, verified: RR -> bool) returns (r: bool)
    ensures r <==> DeniedByNsec(verified, child, section)
  {
    for i := 0 to |section|
      invariant forall j: nat | j < i :: !NamesChild(verified, section, child, j)
    {
      if section[i].NsecRR? && verified(section[i]) && Canonical(section[i].owner) == child {
        assert NamesChild(verified, section, child, i);
        return DelegationWithoutDS(section[i].bitmap);
      }
    }
    return false;
  }

  method ProvesNoDS(c: Crypto, now: int, name: Name, section: seq<RR>, keys: seq<Key>) returns (r: bool)
    ensures r <==> DeniesDS(c, now, Canonical(name), section, keys)
  {
    var child := Canonical(name);
    CanonicalIdempotent(name);
    var nsec3s, nsecs := 0, 0;
    for i := 0 to |section|
      invariant nsec3s > 0 <==> exists j :: 0 <= j < i && section[j].Nsec3RR?
      invariant nsecs > 0 <==> exists j :: 0 <= j < i && section[j].NsecRR?
      invariant nsec3s >= 0 && nsecs >= 0
    {
      if section[i].Nsec3RR? {
        nsec3s := nsec3s + 1;
      } else if section[i].NsecRR? {
        nsecs := nsecs + 1;
      }
    }
    var verified := Verifier(c, now, section, keys);
    if nsec3s > 0 {
      r := Nsec3ProvesNoDS(c, child, section, verified);
    } else if nsecs > 0 {
      r := NsecProvesNoDS(child, section, verified);
    } else {
      r := false;
    }
  }

  lemma DelegationIs(bitmap: seq<nat>)
    ensures DelegationWithoutDS(bitmap) <==> 2 in bitmap && 43 !in bitmap && 6 !in bitmap
  {
  }

  /** Every accepted denial rests on a record the parent's keys vouch for, and what that record says
      is one of the three shapes; the encloser of an opt-out proof lies strictly above the child. */
  lemma DenialRestsOnParentKeys(c: Crypto, now: int, child: Name, section: seq<RR>, keys: seq<Key>)
    requires EndsWithDot(child) && DeniesDS(c, now, child, section, keys)
    ensures exists rr :: rr in section && Vouched(c, now, rr, section, keys) && DenialShape(c, now, child, section, keys, rr)
  {
    hide Verifier, Vouched, ProperAncestor, Canonical;
    var verified := Verifier(c, now, section, keys);
    var rr;
    if !exists r :: r in section && r.Nsec3RR? {
      var i: nat :| NamesChild(verified, section, child, i) && DelegationWithoutDS(section[i].bitmap);
      rr := section[i];
      DelegationIs(rr.bitmap);
      assert DenialShape(c, now, child, section, keys, rr);
    } else if DeniedByMatch(c, verified, child, section) {
      var i: nat :| MatchesChild(c, verified, section, child, i) && DelegationWithoutDS(section[i].nsec3.bitmap);
      rr := section[i];
      DelegationIs(rr.nsec3.bitmap);
      assert DenialShape(c, now, child, section, keys, rr);
    } else {
      rr :| rr in section && OptOutCover(c, verified, child, rr);
      var encloser, a :| encloser in section && Encloser(c, verified, child, encloser, a);
      VerifierIsVouched(c, now, section, keys, encloser);
      assert Vouched(c, now, encloser, section, keys) && ProperAncestor(a, child) && c.nsec3Match(encloser.nsec3, a);
      assert DenialShape(c, now, child, section, keys, rr);
    }
    VerifierIsVouched(c, now, section, keys, rr);
  }

  ghost predicate DenialShape(c: Crypto, now: int, child: Name, section: seq<RR>, keys: seq<Key>, rr: RR)
    requires EndsWithDot(child)
  {
    || (rr.NsecRR? && Canonical(rr.owner) == child && 2 in rr.bitmap && 43 !in rr.bitmap && 6 !in rr.bitmap)
    || (rr.Nsec3RR? && c.nsec3Match(rr.nsec3, child) && 2 in rr.nsec3.bitmap && 43 !in rr.nsec3.bitmap && 6 !in rr.nsec3.bitmap)
    || (rr.Nsec3RR? && rr.nsec3.flags % 2 == 1 && c.nsec3Cover(rr.nsec3, child) &&
        exists encloser, a ::
          && encloser in section && encloser.Nsec3RR? && Vouched(c, now, encloser, section, keys)
          && ProperAncestor(a, child) && c.nsec3Match(encloser.nsec3, a))
  }

  // ---- and every such denial is accepted

  /** A record of the section that speaks for the child and that the parent's keys vouch for. */
  ghost predicate Speaks(c: Crypto, now: int, child: Name, section: seq<RR>, keys: seq<Key>, i: nat, hashed: bool) {
    && i < |section| && Vouched(c, now, section[i], section, keys)
    && if hashed then section[i].Nsec3RR? && c.nsec3Match(section[i].nsec3, child) else section[i].NsecRR? && Canonical(section[i].owner) == child
  }

  function Bitmap(rr: RR): seq<nat>
    requires rr.NsecRR? || rr.Nsec3RR?
  {
    if rr.NsecRR? then rr.bitmap else rr.nsec3.bitmap
  }

  /** The first record that speaks for the child says: a delegation, no DS, not the apex. */
  ghost predicate FirstSays(c: Crypto, now: int, child: Name, section: seq<RR>, keys: seq<Key>, hashed: bool) {
    exists i: nat ::
      && Speaks(c, now, child, section, keys, i, hashed) && (forall j: nat | j < i :: !Speaks(c, now, child, section, keys, j, hashed))
      && 2 in Bitmap(section[i]) && 43 !in Bitmap(section[i]) && 6 !in Bitmap(section[i])
  }

  /** No hashed record speaks for the child, one with the opt-out flag covers it, and one matches an ancestor. */
  ghost predicate OptedOut(c: Crypto, now: int, child: Name, section: seq<RR>, keys: seq<Key>)
    requires EndsWithDot(child)
  {
    && (forall i: nat :: !Speaks(c, now, child, section, keys, i, true))
    && (exists rr :: rr in section && rr.Nsec3RR? && Vouched(c, now, rr, section, keys) && rr.nsec3.flags % 2 == 1 && c.nsec3Cover(rr.nsec3, child))
    && (exists rr, a :: rr in section && rr.Nsec3RR? && Vouched(c, now, rr, section, keys) && ProperAncestor(a, child) && c.nsec3Match(rr.nsec3, a))
  }

  /** Exactly when an authority section denies the DS: with hashed records by those, else by plain ones. */
  lemma DenialIff(c: Crypto, now: int, child: Name, section: seq<RR>, keys: seq<Key>)
    requires EndsWithDot(child)
    ensures DeniesDS(c, now, child, section, keys) <==>
            if exists rr :: rr in section && rr.Nsec3RR? then FirstSays(c, now, child, section, keys, true) || OptedOut(c, now, child, section, keys)
            else FirstSays(c, now, child, section, keys, false)
  {
    hide Verifier, Vouched, ProperAncestor, Canonical;
    var verified := Verifier(c, now, section, keys);
    forall rr ensures verified(rr) <==> Vouched(c, now, rr, section, keys) {
      VerifierIsVouched(c, now, section, keys, rr);
    }
    forall i: nat
      ensures MatchesChild(c, verified, section, child, i) <==> Speaks(c, now, child, section, keys, i, true)
      ensures NamesChild(verified, section, child, i) <==> Speaks(c, now, child, section, keys, i, false)
    {
    }
    MatchIff(c, now, child, section, keys, verified);
    NsecIff(c, now, child, section, keys, verified);
    OptOutIff(c, now, child, section, keys, verified);
    hide DeniedByMatch, DeniedByNsec, DeniedByOptOut, FirstSays, OptedOut;
  }

  lemma MatchIff(c: Crypto, now: int, child: Name, section: seq<RR>, keys: seq<Key>, verified: RR -> bool)
    requires forall i: nat :: MatchesChild(c, verified, section, child, i) <==> Speaks(c, now, child, section, keys, i, true)
    ensures DeniedByMatch(c, verified, child, section) <==> FirstSays(c, now, child, section, keys, true)
  {
    if i: nat :| MatchesChild(c, verified, section, child, i) && (forall j: nat | j < i :: !MatchesChild(c, verified, section, child, j)) && DelegationWithoutDS(section[i].nsec3.bitmap) {
      assert Speaks(c, now, child, section, keys, i, true);
    }
    if i: nat :| Speaks(c, now, child, section, keys, i, true) && (forall j: nat | j < i :: !Speaks(c, now, child, section, keys, j, true)) && 2 in Bitmap(section[i]) && 43 !in Bitmap(section[i]) && 6 !in Bitmap(section[i]) {
      assert MatchesChild(c, verified, section, child, i);
    }
  }

  lemma NsecIff(c: Crypto, now: int, child: Name, section: seq<RR>, keys: seq<Key>, verified: RR -> bool)
    requires forall i: nat :: NamesChild(verified, section, child, i) <==> Speaks(c, now, child, section, keys, i, false)
    ensures DeniedByNsec(verified, child, section) <==> FirstSays(c, now, child, section, keys, false)
  {
    hide Canonical;
    if i: nat :| NamesChild(verified, section, child, i) && (forall j: nat | j < i :: !NamesChild(verified, section, child, j)) && DelegationWithoutDS(section[i].bitmap) {
      assert Speaks(c, now, child, section, keys, i, false);
    }
    if i: nat :| Speaks(c, now, child, section, keys, i, false) && (forall j: nat | j < i :: !Speaks(c, now, child, section, keys, j, false)) && 2 in Bitmap(section[i]) && 43 !in Bitmap(section[i]) && 6 !in Bitmap(section[i]) {
      assert NamesChild(verified, section, child, i);
    }
  }

  lemma OptOutIff(c: Crypto, now: int, child: Name, section: seq<RR>, keys: seq<Key>, verified: RR -> bool)
    requires EndsWithDot(child) && (forall rr :: verified(rr) <==> Vouched(c, now, rr, section, keys))
    requires forall i: nat :: MatchesChild(c, verified, section, child, i) <==> Speaks(c, now, child, section, keys, i, true)
    ensures DeniedByOptOut(c, verified, child, section) <==> OptedOut(c, now, child, section, keys)
  {
    hide ProperAncestor, Vouched;
    if rr :| rr in section && OptOutCover(c, verified, child, rr) {
      assert Vouched(c, now, rr, section, keys);
    }
    if rr :| rr in section && rr.Nsec3RR? && Vouched(c, now, rr, section, keys) && rr.nsec3.flags % 2 == 1 && c.nsec3Cover(rr.nsec3, child) {
      assert OptOutCover(c, verified, child, rr);
    }
    if rr, a :| rr in section && Encloser(c, verified, child, rr, a) {
      assert Vouched(c, now, rr, section, keys);
    }
    if rr, a :| rr in section && rr.Nsec3RR? && Vouched(c, now, rr, section, keys) && ProperAncestor(a, child) && c.nsec3Match(rr.nsec3, a) {
      assert Encloser(c, verified, child, rr, a);
    }
  }
}
