/** The one signature check of the validator (`verifyRRsetWithKeySet`) and the cryptography it calls.

    Cryptography is a parameter: every result below holds for every choice of these functions. */
module Signatures {
  import opened Dns

  /** What `RRSIG.Verify` reports.  `BadSig` stands for every error that is not about the key. */
  datatype Outcome = Ok | BadKey | BadAlg | BadKeyAlg | BadSig

  datatype Crypto = Crypto(
    keyTag: Key -> nat,
    inPeriod: (Sig, int) -> bool,
    verify: (Sig, Key, seq<RR>) -> Outcome,
    toDS: (Key, nat) -> Option<string>,
    nsec3Match: (Nsec3, Name) -> bool,
    nsec3Cover: (Nsec3, Name) -> bool)

  /** The library could not load the key or run the algorithm: the signature was never tested. */
  predicate UnprocessableOutcome(o: Outcome) {
    o.BadKey? || o.BadAlg? || o.BadKeyAlg?
  }

  predicate Candidate(c: Crypto, sig: Sig, k: Key) {
    c.keyTag(k) == sig.keyTag && k.algorithm == sig.algorithm
  }

  datatype SetResult = Verified | NoSignature | Untested | Rejected(last: Outcome)

  predicate UnprocessableKey(r: SetResult) {
    r.Rejected? && UnprocessableOutcome(r.last)
  }

  /** Every verification one signature leads to, in key order. */
  function KeyAttempts(c: Crypto, sig: Sig, keys: seq<Key>, rrset: seq<RR>): seq<Outcome> {
    if keys == [] then []
    else
      var k := keys[|keys| - 1];
      KeyAttempts(c, sig, keys[..|keys| - 1], rrset) +
      if Candidate(c, sig, k) then [c.verify(sig, k, rrset)] else []
  }

  /** Every verification a scan without early exit would make, signature by signature. */
  function Attempts(c: Crypto, now: int, sigs: seq<Sig>, keys: seq<Key>, rrset: seq<RR>): seq<Outcome> {
    if sigs == [] then []
    else
      var sig := sigs[|sigs| - 1];
      Attempts(c, now, sigs[..|sigs| - 1], keys, rrset) +
      if c.inPeriod(sig, now) then KeyAttempts(c, sig, keys, rrset) else []
  }

  /** The verdict over all attempts: one success is enough, otherwise the last failure decides. */
  function VerifySet(c: Crypto, now: int, rrset: seq<RR>, sigs: seq<Sig>, keys: seq<Key>): SetResult {
    var tried := Attempts(c, now, sigs, keys, rrset);
    if sigs == [] then NoSignature
    else if Ok in tried then Verified
    else if tried == [] then Untested
    else Rejected(tried[|tried| - 1])
  }

  /** The scan stops at the first success and remembers the last error. */
  method VerifyRRsetWithKeySet(c: Crypto, now: int, rrset: seq<RR>, sigs: seq<Sig>, keys: seq<Key>)
    returns (r: SetResult)
    ensures r == VerifySet(c, now, rrset, sigs, keys)
  {
    if |sigs| == 0 {
      return NoSignature;
    }
    r := Untested;
    for i := 0 to |sigs|
      invariant Ok !in Attempts(c, now, sigs[..i], keys, rrset)
      invariant r == Summary(Attempts(c, now, sigs[..i], keys, rrset))
    {
      assert sigs[..i + 1][..i] == sigs[..i];
      if !c.inPeriod(sigs[i], now) {
        continue;
      }
      ghost var before := Attempts(c, now, sigs[..i], keys, rrset);
      for j := 0 to |keys|
        invariant Ok !in before + KeyAttempts(c, sigs[i], keys[..j], rrset)
        invariant r == Summary(before + KeyAttempts(c, sigs[i], keys[..j], rrset))
      {
        assert keys[..j + 1][..j] == keys[..j];
        if !Candidate(c, sigs[i], keys[j]) {
          continue;
        }
        var o := c.verify(sigs[i], keys[j], rrset);
        if o == Ok {
          AttemptIsWitnessed(c, now, sigs, keys, rrset, sigs[i], keys[j]);
          return Verified;
        }
        r := Rejected(o);
      }
      assert keys[..|keys|] == keys;
    }
    assert sigs[..|sigs|] == sigs;
  }

  ghost function Summary(tried: seq<Outcome>): SetResult {
    if tried == [] then Untested else Rejected(tried[|tried| - 1])
  }

  lemma {:induction false} KeyAttemptIsWitnessed(c: Crypto, sig: Sig, keys: seq<Key>, rrset: seq<RR>, k: Key)
    requires k in keys && Candidate(c, sig, k)
    ensures c.verify(sig, k, rrset) in KeyAttempts(c, sig, keys, rrset)
  {
    var n := |keys| - 1;
    if keys[n] != k {
      KeyAttemptIsWitnessed(c, sig, keys[..n], rrset, k);
    }
  }

  /** Every in-period signature meets every candidate key. */
  lemma {:induction false} AttemptIsWitnessed(c: Crypto, now: int, sigs: seq<Sig>, keys: seq<Key>, rrset: seq<RR>,
                                              sig: Sig, k: Key)
    requires sig in sigs && k in keys && c.inPeriod(sig, now) && Candidate(c, sig, k)
    ensures c.verify(sig, k, rrset) in Attempts(c, now, sigs, keys, rrset)
  {
    var n := |sigs| - 1;
    if sigs[n] == sig {
      KeyAttemptIsWitnessed(c, sig, keys, rrset, k);
    } else {
      AttemptIsWitnessed(c, now, sigs[..n], keys, rrset, sig, k);
    }
  }

  ghost predicate Tests(c: Crypto, now: int, sigs: seq<Sig>, keys: seq<Key>, rrset: seq<RR>, o: Outcome, sig: Sig, k: Key) {
    && sig in sigs && k in keys
    && c.inPeriod(sig, now) && Candidate(c, sig, k)
    && c.verify(sig, k, rrset) == o
  }

  lemma {:induction false} KeyAttemptHasSource(c: Crypto, sig: Sig, keys: seq<Key>, rrset: seq<RR>, o: Outcome)
    requires o in KeyAttempts(c, sig, keys, rrset)
    ensures exists k :: k in keys && Candidate(c, sig, k) && c.verify(sig, k, rrset) == o
  {
    var n := |keys| - 1;
    if o in KeyAttempts(c, sig, keys[..n], rrset) {
      KeyAttemptHasSource(c, sig, keys[..n], rrset, o);
    } else {
      assert keys[n] in keys;
    }
  }

  /** Every attempt comes from an in-period signature and a candidate key. */
  lemma {:induction false} AttemptHasSource(c: Crypto, now: int, sigs: seq<Sig>, keys: seq<Key>, rrset: seq<RR>, o: Outcome)
    requires o in Attempts(c, now, sigs, keys, rrset)
    ensures exists sig, k :: Tests(c, now, sigs, keys, rrset, o, sig, k)
  {
    var n := |sigs| - 1;
    if o in Attempts(c, now, sigs[..n], keys, rrset) {
      AttemptHasSource(c, now, sigs[..n], keys, rrset, o);
      var sig, k :| Tests(c, now, sigs[..n], keys, rrset, o, sig, k);
      assert Tests(c, now, sigs, keys, rrset, o, sig, k);
    } else {
      KeyAttemptHasSource(c, sigs[n], keys, rrset, o);
      var k :| k in keys && Candidate(c, sigs[n], k) && c.verify(sigs[n], k, rrset) == o;
      assert Tests(c, now, sigs, keys, rrset, o, sigs[n], k);
    }
  }

  /** A set verifies exactly when some in-period signature verifies under some candidate key. */
  lemma VerifiedIff(c: Crypto, now: int, rrset: seq<RR>, sigs: seq<Sig>, keys: seq<Key>)
    ensures VerifySet(c, now, rrset, sigs, keys).Verified? <==>
            exists sig, k :: Tests(c, now, sigs, keys, rrset, Ok, sig, k)
  {
    if VerifySet(c, now, rrset, sigs, keys).Verified? {
      AttemptHasSource(c, now, sigs, keys, rrset, Ok);
    }
    if sig, k :| Tests(c, now, sigs, keys, rrset, Ok, sig, k) {
      AttemptIsWitnessed(c, now, sigs, keys, rrset, sig, k);
    }
  }

  /** "Unprocessable" always points at one in-period signature whose key could not be used, and at no
      signature that verified. */
  lemma UnprocessableHasSource(c: Crypto, now: int, rrset: seq<RR>, sigs: seq<Sig>, keys: seq<Key>)
    requires UnprocessableKey(VerifySet(c, now, rrset, sigs, keys))
    ensures exists o, sig, k :: UnprocessableOutcome(o) && Tests(c, now, sigs, keys, rrset, o, sig, k)
    ensures !exists sig, k :: Tests(c, now, sigs, keys, rrset, Ok, sig, k)
  {
    VerifiedIff(c, now, rrset, sigs, keys);
    AttemptHasSource(c, now, sigs, keys, rrset, VerifySet(c, now, rrset, sigs, keys).last);
  }

  // ---- which failure is remembered

  ghost predicate LastFor(c: Crypto, sig: Sig, keys: seq<Key>, j: nat) {
    && j < |keys| && Candidate(c, sig, keys[j])
    && forall l :: j < l < |keys| ==> !Candidate(c, sig, keys[l])
  }

  predicate Attempted(c: Crypto, now: int, sig: Sig, keys: seq<Key>) {
    c.inPeriod(sig, now) && exists k :: k in keys && Candidate(c, sig, k)
  }

  /** The last signature that is in period and has a candidate key, with the last of those keys. */
  ghost predicate LastTried(c: Crypto, now: int, sigs: seq<Sig>, keys: seq<Key>, i: nat, j: nat) {
    && i < |sigs| && c.inPeriod(sigs[i], now) && LastFor(c, sigs[i], keys, j)
    && forall l :: i < l < |sigs| ==> !Attempted(c, now, sigs[l], keys)
  }

  lemma {:induction false} KeyEnd(c: Crypto, sig: Sig, keys: seq<Key>, rrset: seq<RR>) returns (j: nat)
    requires KeyAttempts(c, sig, keys, rrset) != []
    ensures LastFor(c, sig, keys, j)
    ensures var tried := KeyAttempts(c, sig, keys, rrset); tried[|tried| - 1] == c.verify(sig, keys[j], rrset)
  {
    j := |keys| - 1;
    if !Candidate(c, sig, keys[j]) {
      var n := j;
      j := KeyEnd(c, sig, keys[..n], rrset);
      assert forall l :: j < l < n ==> keys[..n][l] == keys[l];
    }
  }

  lemma {:induction false} AttemptsEnd(c: Crypto, now: int, sigs: seq<Sig>, keys: seq<Key>, rrset: seq<RR>) returns (i: nat, j: nat)
    requires Attempts(c, now, sigs, keys, rrset) != []
    ensures LastTried(c, now, sigs, keys, i, j)
    ensures var tried := Attempts(c, now, sigs, keys, rrset); tried[|tried| - 1] == c.verify(sigs[i], keys[j], rrset)
  {
    hide KeyAttempts, Candidate;
    var n := |sigs| - 1;
    if c.inPeriod(sigs[n], now) && KeyAttempts(c, sigs[n], keys, rrset) != [] {
      i := n;
      j := KeyEnd(c, sigs[n], keys, rrset);
    } else {
      i, j := AttemptsEnd(c, now, sigs[..n], keys, rrset);
      if Attempted(c, now, sigs[n], keys) {
        var k :| k in keys && Candidate(c, sigs[n], k);
        KeyAttemptIsWitnessed(c, sigs[n], keys, rrset, k);
      }
      assert forall l :: i < l < n ==> sigs[..n][l] == sigs[l];
    }
  }

  lemma LastTriedIsOne(c: Crypto, now: int, sigs: seq<Sig>, keys: seq<Key>, i: nat, j: nat, i': nat, j': nat)
    requires LastTried(c, now, sigs, keys, i, j) && LastTried(c, now, sigs, keys, i', j')
    ensures i == i' && j == j'
  {
    assert Attempted(c, now, sigs[i], keys) by {
      assert keys[j] in keys;
    }
    assert Attempted(c, now, sigs[i'], keys) by {
      assert keys[j'] in keys;
    }
  }

  /** One signature that was processed and is wrong does not make the verdict a hard failure.  A set is
      unprocessable exactly when nothing verifies and the last attempt of all, the last in-period
      signature that has a candidate key under the last such key, could not be processed. */
  lemma LastAttemptDecides(c: Crypto, now: int, rrset: seq<RR>, sigs: seq<Sig>, keys: seq<Key>)
    ensures UnprocessableKey(VerifySet(c, now, rrset, sigs, keys)) <==>
            && (forall sig, k :: !Tests(c, now, sigs, keys, rrset, Ok, sig, k))
            && exists i: nat, j: nat :: LastTried(c, now, sigs, keys, i, j) && UnprocessableOutcome(c.verify(sigs[i], keys[j], rrset))
  {
    hide Attempts, LastTried, Tests;
    VerifiedIff(c, now, rrset, sigs, keys);
    NoSignatureNoAttempt(c, now, keys, rrset);
    if Attempts(c, now, sigs, keys, rrset) != [] {
      var i, j := AttemptsEnd(c, now, sigs, keys, rrset);
      forall i': nat, j': nat | LastTried(c, now, sigs, keys, i', j') ensures i' == i && j' == j {
        LastTriedIsOne(c, now, sigs, keys, i, j, i', j');
      }
    } else {
      forall i: nat, j: nat ensures !LastTried(c, now, sigs, keys, i, j) {
        if LastTried(c, now, sigs, keys, i, j) {
          TriedIsAttempted(c, now, sigs, keys, rrset, i, j);
        }
      }
    }
  }

  lemma NoSignatureNoAttempt(c: Crypto, now: int, keys: seq<Key>, rrset: seq<RR>)
    ensures Attempts(c, now, [], keys, rrset) == []
  {
  }

  lemma TriedIsAttempted(c: Crypto, now: int, sigs: seq<Sig>, keys: seq<Key>, rrset: seq<RR>, i: nat, j: nat)
    requires LastTried(c, now, sigs, keys, i, j)
    ensures Attempts(c, now, sigs, keys, rrset) != []
  {
    hide Attempts;
    AttemptIsWitnessed(c, now, sigs, keys, rrset, sigs[i], keys[j]);
  }
}
