/** The other direction: what is properly signed is secure, what is properly denied is insecure, and every
    failure has its exact cause. */
module Completeness {
  import opened Dns
  import opened Signatures
  import opened Zones
  import opened Denial
  import opened KeyCache
  import opened Chain
  import opened Trust
  import opened Transparency
  import opened Validation

  // ---- which key a signature is tested under

  predicate Agrees(c: Crypto, sig: Sig, key: Key) {
    c.keyTag(key) == sig.keyTag && key.algorithm == sig.algorithm
  }

  predicate BringsKey(c: Crypto, sig: Sig, rr: RR) {
    rr.DnskeyRR? && Agrees(c, sig, rr.key) && Canonical(rr.key.owner) == Canonical(sig.signer)
  }

  ghost predicate FirstBrought(c: Crypto, rrs: seq<RR>, sig: Sig, key: Key) {
    exists i :: 0 <= i < |rrs| && BringsKey(c, sig, rrs[i]) && rrs[i].key == key && forall j :: 0 <= j < i ==> !BringsKey(c, sig, rrs[j])
  }

  ghost predicate FirstAgreeing(c: Crypto, keys: seq<Key>, sig: Sig, key: Key) {
    exists i :: 0 <= i < |keys| && Agrees(c, sig, keys[i]) && keys[i] == key && forall j :: 0 <= j < i ==> !Agrees(c, sig, keys[j])
  }

  lemma {:induction false} FindKeyIs(c: Crypto, rrs: seq<RR>, sig: Sig)
    ensures var r := FindKey(c, rrs, sig);
            if r.Some? then FirstBrought(c, rrs, sig, r.value) else forall rr :: rr in rrs ==> !BringsKey(c, sig, rr)
  {
    hide Canonical;
    if rrs != [] && !BringsKey(c, sig, rrs[0]) {
      FindKeyIs(c, rrs[1..], sig);
      var r := FindKey(c, rrs[1..], sig);
      if r.Some? {
        var i :| 0 <= i < |rrs[1..]| && BringsKey(c, sig, rrs[1..][i]) && rrs[1..][i].key == r.value && forall j :: 0 <= j < i ==> !BringsKey(c, sig, rrs[1..][j]);
        assert rrs[i + 1] == rrs[1..][i];
        forall j | 0 <= j < i + 1 ensures !BringsKey(c, sig, rrs[j]) {
          assert j > 0 ==> rrs[j] == rrs[1..][j - 1];
        }
      }
    }
  }

  lemma {:induction false} FirstCandidateIs(c: Crypto, keys: seq<Key>, sig: Sig)
    ensures var r := FirstCandidate(c, keys, sig);
            if r.Some? then FirstAgreeing(c, keys, sig, r.value) else forall k :: k in keys ==> !Agrees(c, sig, k)
  {
    if keys != [] && !Agrees(c, sig, keys[0]) {
      FirstCandidateIs(c, keys[1..], sig);
      var r := FirstCandidate(c, keys[1..], sig);
      if r.Some? {
        var i :| 0 <= i < |keys[1..]| && Agrees(c, sig, keys[1..][i]) && keys[1..][i] == r.value && forall j :: 0 <= j < i ==> !Agrees(c, sig, keys[1..][j]);
        assert keys[i + 1] == keys[1..][i];
        forall j | 0 <= j < i + 1 ensures !Agrees(c, sig, keys[j]) {
          assert j > 0 ==> keys[j] == keys[1..][j - 1];
        }
      }
    }
  }

  predicate Brings(c: Crypto, msg: Msg, sig: Sig) {
    exists rr :: rr in msg.answer + msg.authority && BringsKey(c, sig, rr)
  }

  /** The key that decides: the first the message brings along or, if it brings none, the first of the
      authenticated set of the signer that agrees in tag and algorithm. */
  ghost predicate Decides(c: Crypto, msg: Msg, w: WalkResult, sig: Sig, key: Key) {
    if Brings(c, msg, sig) then FirstBrought(c, msg.answer + msg.authority, sig, key)
    else w.Keys? && FirstAgreeing(c, w.keys, sig, key)
  }

  /** A root key-signing key is held to the anchors, if there are any. */
  ghost predicate OffAnchor(cf: Config, key: Key) {
    && cf.anchors != [] && key.owner == "." && key.flags % 2 == 1 && (key.flags / 256) % 2 == 1
    && forall a :: a in cf.anchors ==>
         !(cf.crypto.keyTag(key) == a.keyTag && key.algorithm == a.algorithm && cf.crypto.toDS(key, a.digestType).Some? &&
           Lower(cf.crypto.toDS(key, a.digestType).value) == Lower(a.digest))
  }

  lemma DecidesOne(c: Crypto, msg: Msg, w: WalkResult, sig: Sig, key: Key, other: Key)
    requires Decides(c, msg, w, sig, key) && Decides(c, msg, w, sig, other)
    ensures key == other
  {
    hide BringsKey, Agrees;
  }

  // ---- one signature

  /** Every outcome of one signature, with its exact cause. */
  lemma StepIs(cf: Config, s: Session, msg: Msg, sig: Sig, w: WalkResult)
    requires w == Walk(cf, s, Canonical(sig.signer), 0).0
    ensures var c, rrset, step := cf.crypto, RRsetAt(msg.answer, SlotOfSig(sig)), CheckSig(cf, s, msg, sig).0;
            var tested := c.inPeriod(sig, Now(cf, s)) && rrset != [];
            && (step == Stop(Bogus(OutOfPeriod)) <==> !c.inPeriod(sig, Now(cf, s)))
            && (step == Skip <==> c.inPeriod(sig, Now(cf, s)) && rrset == [])
            && (step == Stop(Bogus(KeyNotFound)) <==> tested && !Brings(c, msg, sig) && !cf.wired)
            && (forall reason :: step == Stop(Bogus(ChainFailed(reason))) <==> tested && !Brings(c, msg, sig) && cf.wired && w == Failed(reason))
            && (step == Stop(Bogus(NoMatchingKey)) <==>
                  tested && !Brings(c, msg, sig) && cf.wired && w.Keys? && forall k :: k in w.keys ==> !Agrees(c, sig, k))
    ensures var c, rrset, step := cf.crypto, RRsetAt(msg.answer, SlotOfSig(sig)), CheckSig(cf, s, msg, sig).0;
            var tested := c.inPeriod(sig, Now(cf, s)) && rrset != [] && (Brings(c, msg, sig) || cf.wired);
            && (step == Stop(Bogus(BadSignature)) <==> tested && exists key :: Decides(c, msg, w, sig, key) && c.verify(sig, key, rrset) == BadSig)
            && (step == Stop(Bogus(AnchorMismatch)) <==> tested && exists key :: Decides(c, msg, w, sig, key) && c.verify(sig, key, rrset) == Ok && OffAnchor(cf, key))
            && (step == Stop(InsecureAnswer) <==>
                  tested && ((!Brings(c, msg, sig) && w.Insecure?) ||
                             exists key :: Decides(c, msg, w, sig, key) && c.verify(sig, key, rrset) in {BadKey, BadAlg, BadKeyAlg}))
            && (step == Covered <==> tested && exists key :: Decides(c, msg, w, sig, key) && c.verify(sig, key, rrset) == Ok && !OffAnchor(cf, key))
  {
    hide Walk, RRsetAt, SlotOfSig, Canonical, FindKey, FirstCandidate, BringsKey, Agrees, FirstBrought, FirstAgreeing, Accept;
    var c, rrset := cf.crypto, RRsetAt(msg.answer, SlotOfSig(sig));
    var all := msg.answer + msg.authority;
    FindKeyIs(c, all, sig);
    var own := FindKey(c, all, sig);
    if own.Some? {
      BroughtIsThere(c, all, sig, own.value);
      AcceptIs(cf, sig, own.value, rrset);
      forall key | Decides(c, msg, w, sig, key) ensures key == own.value {
        DecidesOne(c, msg, w, sig, key, own.value);
      }
    } else if w.Keys? {
      FirstCandidateIs(c, w.keys, sig);
      var k := FirstCandidate(c, w.keys, sig);
      if k.Some? {
        AgreeingIsThere(c, w.keys, sig, k.value);
        AcceptIs(cf, sig, k.value, rrset);
        forall key | Decides(c, msg, w, sig, key) ensures key == k.value {
          DecidesOne(c, msg, w, sig, key, k.value);
        }
      } else {
        NoneAgrees(c, w.keys, sig);
      }
    }
  }

  lemma BroughtIsThere(c: Crypto, rrs: seq<RR>, sig: Sig, key: Key)
    requires FirstBrought(c, rrs, sig, key)
    ensures exists rr :: rr in rrs && BringsKey(c, sig, rr)
  {
    hide BringsKey;
  }

  lemma AgreeingIsThere(c: Crypto, keys: seq<Key>, sig: Sig, key: Key)
    requires FirstAgreeing(c, keys, sig, key)
    ensures exists k :: k in keys && Agrees(c, sig, k)
  {
    hide Agrees;
  }

  lemma NoneAgrees(c: Crypto, keys: seq<Key>, sig: Sig)
    requires forall k :: k in keys ==> !Agrees(c, sig, k)
    ensures forall key :: !FirstAgreeing(c, keys, sig, key)
  {
    hide Agrees;
  }

  lemma AcceptIs(cf: Config, sig: Sig, key: Key, rrset: seq<RR>)
    ensures var step, o := Accept(cf, sig, key, rrset), cf.crypto.verify(sig, key, rrset);
            step == match o
                    case Ok => if OffAnchor(cf, key) then Stop(Bogus(AnchorMismatch)) else Covered
                    case BadSig => Stop(Bogus(BadSignature))
                    case _ => Stop(InsecureAnswer)
  {
    hide Lower;
  }

  // ---- one answer, against a consistent upstream

  /** What an authenticated key set amounts to where the upstream answers consistently. */
  ghost predicate SetOf(cf: Config, a: Upstream, now: int, signer: Name, keys: seq<Key>)
    requires EndsWithDot(signer)
  {
    && Labels(signer) <= 24 && ServesChain(cf, a, now, signer)
    && Served(a, signer, TYPE_DNSKEY).Fetched? && keys == KeysOf(Served(a, signer, TYPE_DNSKEY).rrset)
  }

  /** The signature is in period and, if its records are there, fits them under the key that decides. */
  ghost predicate Fits(cf: Config, a: Upstream, now: int, msg: Msg, sig: Sig) {
    && cf.crypto.inPeriod(sig, now)
    && (RRsetAt(msg.answer, SlotOfSig(sig)) != [] ==>
          exists key, w: WalkResult ::
            && (Brings(cf.crypto, msg, sig) || (w.Keys? && SetOf(cf, a, now, Canonical(sig.signer), w.keys)))
            && Decides(cf.crypto, msg, w, sig, key)
            && cf.crypto.verify(sig, key, RRsetAt(msg.answer, SlotOfSig(sig))) == Ok && !OffAnchor(cf, key))
  }

  lemma WalkedSet(cf: Config, a: Upstream, now: int, s: Session, signer: Name, w: WalkResult, s': Session)
    requires EndsWithDot(signer) && Consistent(cf, a, now) && Coherent(a, s.entries) && (w, s') == Walk(cf, s, signer, 0)
    ensures Coherent(a, s'.entries) && forall keys :: w == Keys(keys) <==> SetOf(cf, a, now, signer, keys)
  {
    hide Walk, PlainWalk, Coherent, Consistent, ServesChain, Served;
    WalkIsTransparent(cf, a, now, s, signer, 0, w, s');
    KeysIffServed(cf, a, now, signer, 0, w);
  }

  lemma StepFits(cf: Config, a: Upstream, now: int, s: Session, msg: Msg, sig: Sig, step: Step, s': Session)
    requires Consistent(cf, a, now) && Coherent(a, s.entries) && (step, s') == CheckSig(cf, s, msg, sig)
    ensures Coherent(a, s'.entries) && (!step.Stop? <==> Fits(cf, a, now, msg, sig))
    ensures !step.Stop? ==> (step.Covered? <==> RRsetAt(msg.answer, SlotOfSig(sig)) != [])
  {
    hide Walk, Coherent, SetOf, RRsetAt, SlotOfSig, Canonical, OffAnchor, FindKey, Accept, AcceptWalked, FirstBrought, FirstAgreeing;
    var (w, t) := Walk(cf, s, Canonical(sig.signer), 0);
    StepIs(cf, s, msg, sig, w);
    WalkedSet(cf, a, now, s, Canonical(sig.signer), w, t);
    ConsistentNow(cf, a, now, s);
    hide CheckSig;
    SessionIs(cf, s, msg, sig, t);
  }

  lemma ConsistentNow(cf: Config, a: Upstream, now: int, s: Session)
    requires Consistent(cf, a, now)
    ensures Now(cf, s) == now && cf.wired
  {
  }

  lemma SessionIs(cf: Config, s: Session, msg: Msg, sig: Sig, t: Session)
    requires t == Walk(cf, s, Canonical(sig.signer), 0).1
    ensures CheckSig(cf, s, msg, sig).1 == s || CheckSig(cf, s, msg, sig).1 == t
  {
    hide Walk, RRsetAt, FindKey, Accept, AcceptWalked;
  }

  lemma {:induction false} AllFit(cf: Config, a: Upstream, now: int, s: Session, msg: Msg, sigs: seq<Sig>, p: Progress)
    requires Consistent(cf, a, now) && Coherent(a, s.entries) && p == CheckSigs(cf, s, msg, sigs)
    ensures p.stopped.None? <==> forall sig :: sig in sigs ==> Fits(cf, a, now, msg, sig)
    ensures p.stopped.None? ==> Coherent(a, p.session.entries)
    ensures p.stopped.None? ==> forall slot :: slot in p.covered <==> exists sig :: sig in sigs && SlotOfSig(sig) == slot && RRsetAt(msg.answer, slot) != []
    decreases |sigs|
  {
    hide CheckSig, Fits, Coherent, Consistent, RRsetAt, SlotOfSig;
    if sigs != [] {
      var n := |sigs| - 1;
      var before := CheckSigs(cf, s, msg, sigs[..n]);
      AllFit(cf, a, now, s, msg, sigs[..n], before);
      assert sigs == sigs[..n] + [sigs[n]];
      if before.stopped.None? {
        var (step, s') := CheckSig(cf, before.session, msg, sigs[n]);
        StepFits(cf, a, now, before.session, msg, sigs[n], step, s');
      }
    }
  }

  /** Exactly when an answer is secure, against an upstream that answers consistently: validation is off, or
      there is no answer, or there are signatures, every one in period and fitting its records under the
      key that decides, and every record that is not key material has one. */
  lemma SecureIff(cf: Config, a: Upstream, now: int, options: Options, s: Session, msg: Msg)
    requires Consistent(cf, a, now) && Coherent(a, s.entries)
    ensures Validate(cf, options, s, msg).0 == Secure <==>
            || !options.enabled || msg.answer == []
            || (&& (exists rr :: rr in msg.answer && rr.RrsigRR?)
                && (forall rr :: rr in msg.answer && rr.RrsigRR? ==> Fits(cf, a, now, msg, rr.sig))
                && forall rr :: rr in msg.answer && NeedsCover(rr) ==> HasCover(msg, rr))
  {
    hide CheckSigs, Fits, Coherent, Consistent, AnswerSigs, RRsetAt, SlotOfSig, SlotOfRR, Gated, HasCover, NeedsCover;
    var sigs := AnswerSigs(msg.answer);
    var p := CheckSigs(cf, s, msg, sigs);
    AnswerSigsAre(msg.answer);
    AllFit(cf, a, now, s, msg, sigs, p);
    NoSecureStop(cf, s, msg, sigs, p);
    SignedIff(msg.answer);
    assert (forall sig :: sig in sigs ==> Fits(cf, a, now, msg, sig)) <==> forall rr :: rr in msg.answer && rr.RrsigRR? ==> Fits(cf, a, now, msg, rr.sig) by {
      forall rr | rr in msg.answer && rr.RrsigRR? ensures rr.sig in sigs {
      }
    }
    forall rr | rr in msg.answer ensures Gated(rr) <==> NeedsCover(rr) {
      CoverIs(msg, rr);
    }
    forall rr | rr in msg.answer && Gated(rr) && p.stopped.None? ensures SlotOfRR(rr) in p.covered <==> HasCover(msg, rr) {
      CoverIs(msg, rr);
      GatedIsThere(msg, rr);
      if HasCover(msg, rr) {
        var g :| g in msg.answer && g.RrsigRR? && SlotOfSig(g.sig) == SlotOfRR(rr);
        assert g.sig in sigs;
      }
      if sig :| sig in sigs && SlotOfSig(sig) == SlotOfRR(rr) {
        var g :| g in msg.answer && g.RrsigRR? && g.sig == sig;
      }
    }
  }

  /** Some signature of the answer has the record's owner and covers its type. */
  ghost predicate HasCover(msg: Msg, rr: RR) {
    exists g :: g in msg.answer && g.RrsigRR? && g.sig.typeCovered == RRType(rr) && SameName(g.sig.owner, Owner(rr))
  }

  /** Everything but signatures, DNSKEY and DS needs one. */
  predicate NeedsCover(rr: RR) {
    RRType(rr) !in {46, 48, 43}
  }

  lemma CoverIs(msg: Msg, rr: RR)
    ensures HasCover(msg, rr) <==> exists g :: g in msg.answer && g.RrsigRR? && SlotOfSig(g.sig) == SlotOfRR(rr)
    ensures Gated(rr) <==> NeedsCover(rr)
  {
    hide Canonical, SameName;
    forall g | g in msg.answer && g.RrsigRR? ensures SlotOfSig(g.sig) == SlotOfRR(rr) <==> g.sig.typeCovered == RRType(rr) && SameName(g.sig.owner, Owner(rr)) {
      CanonicalIff(g.sig.owner, Owner(rr));
    }
  }

  /** The records a signature is tested on: those of the answer with its owner and the type it covers. */
  lemma {:induction false} SetIs(rrs: seq<RR>, sig: Sig)
    ensures RRsetAt(rrs, SlotOfSig(sig)) == Filter((rr: RR) => RRType(rr) != 46 && RRType(rr) == sig.typeCovered && SameName(Owner(rr), sig.owner), rrs)
  {
    hide Canonical, SameName;
    if rrs != [] {
      var n := |rrs| - 1;
      SetIs(rrs[..n], sig);
      CanonicalIff(Owner(rrs[n]), sig.owner);
    }
  }

  /** What the sections of a reply are read for, in order. */
  lemma {:induction false} SigsAre(rrs: seq<RR>, rrtype: nat)
    ensures forall sig :: sig in SigsOver(rrs, rrtype) <==> exists rr :: rr in rrs && rr.RrsigRR? && rr.sig == sig && sig.typeCovered == rrtype
    ensures forall k :: k in KeysOf(rrs) <==> exists rr :: rr in rrs && rr.DnskeyRR? && rr.key == k
  {
    if rrs != [] {
      var n := |rrs| - 1;
      SigsAre(rrs[..n], rrtype);
      assert rrs == rrs[..n] + [rrs[n]];
    }
  }

  lemma GatedIsThere(msg: Msg, rr: RR)
    requires rr in msg.answer && Gated(rr)
    ensures RRsetAt(msg.answer, SlotOfRR(rr)) != []
  {
    hide SlotOf;
    RRsetMembers(msg.answer, SlotOfRR(rr), rr);
  }

  lemma {:induction false} AnswerSigsAre(rrs: seq<RR>)
    ensures forall sig :: sig in AnswerSigs(rrs) <==> exists rr :: rr in rrs && rr.RrsigRR? && rr.sig == sig
  {
    if rrs != [] {
      var n := |rrs| - 1;
      AnswerSigsAre(rrs[..n]);
      assert rrs == rrs[..n] + [rrs[n]];
    }
  }

  lemma NoSecureStop(cf: Config, s: Session, msg: Msg, sigs: seq<Sig>, p: Progress)
    requires p == CheckSigs(cf, s, msg, sigs) && forall sig :: sig in sigs ==> sig in AnswerSigs(msg.answer)
    ensures p.stopped != Some(Secure)
  {
    hide CheckSigs, Authenticated, InPeriodAt, Unanchored, AnswerSigs, RRsetAt;
    ProgressIsSound(cf, s, msg, sigs, p);
  }

  // ---- every verdict, in any world

  /** The scan over the signatures gets to number n and stops there with this verdict. */
  ghost predicate StopsAt(cf: Config, s: Session, msg: Msg, n: nat, v: Verdict) {
    var sigs := AnswerSigs(msg.answer);
    && n < |sigs| && CheckSigs(cf, s, msg, sigs[..n]).stopped.None?
    && CheckSig(cf, CheckSigs(cf, s, msg, sigs[..n]).session, msg, sigs[n]).0 == Stop(v)
  }

  ghost predicate NoStop(cf: Config, s: Session, msg: Msg) {
    forall n: nat, v :: !StopsAt(cf, s, msg, n, v)
  }

  lemma {:induction false} FirstStop(cf: Config, s: Session, msg: Msg, k: nat)
    requires k <= |AnswerSigs(msg.answer)|
    ensures var p := CheckSigs(cf, s, msg, AnswerSigs(msg.answer)[..k]);
            if p.stopped.Some? then exists n: nat :: n < k && StopsAt(cf, s, msg, n, p.stopped.value)
            else forall n: nat, v :: n < k ==> !StopsAt(cf, s, msg, n, v)
  {
    hide CheckSig, AnswerSigs;
    var sigs := AnswerSigs(msg.answer);
    if k > 0 {
      FirstStop(cf, s, msg, k - 1);
      assert sigs[..k][..k - 1] == sigs[..k - 1];
      var before, p := CheckSigs(cf, s, msg, sigs[..k - 1]), CheckSigs(cf, s, msg, sigs[..k]);
      if before.stopped.None? && p.stopped.Some? {
        assert StopsAt(cf, s, msg, k - 1, p.stopped.value);
      }
    }
  }

  lemma OneStop(cf: Config, s: Session, msg: Msg, n: nat, v: Verdict, p: Progress)
    requires StopsAt(cf, s, msg, n, v) && p == CheckSigs(cf, s, msg, AnswerSigs(msg.answer))
    ensures p.stopped == Some(v)
  {
    hide CheckSig, AnswerSigs;
    var sigs := AnswerSigs(msg.answer);
    assert sigs[..n + 1][..n] == sigs[..n];
    StopPersists(cf, s, msg, sigs, n + 1);
  }

  /** The verdict on an answer: that of the first signature that stops the scan; without one, insecure if
      there is no signature at all (bogus if all must be signed) or a record has none, else secure. */
  lemma VerdictIs(cf: Config, options: Options, s: Session, msg: Msg)
    requires options.enabled && msg.answer != []
    ensures var v, signed := Validate(cf, options, s, msg).0, exists rr :: rr in msg.answer && rr.RrsigRR?;
            && (forall n: nat, stop :: StopsAt(cf, s, msg, n, stop) ==> v == stop)
            && (!signed ==> v == if options.validateAll then Bogus(NoSignatures) else InsecureAnswer)
            && (signed && NoStop(cf, s, msg) ==> v == if exists rr :: rr in msg.answer && NeedsCover(rr) && !HasCover(msg, rr) then InsecureAnswer else Secure)
            && (v.Bogus? && v != Bogus(NoSignatures) ==> exists n: nat :: StopsAt(cf, s, msg, n, v))
            && (v == Bogus(NoSignatures) ==> (!signed && options.validateAll) || exists n: nat :: StopsAt(cf, s, msg, n, v))
  {
    hide CheckSigs, AnswerSigs, StopsAt, SlotOfRR, Gated, HasCover, NeedsCover;
    forall rr | rr in msg.answer ensures Gated(rr) <==> NeedsCover(rr) {
      CoverIs(msg, rr);
    }
    var sigs := AnswerSigs(msg.answer);
    var p := CheckSigs(cf, s, msg, sigs);
    AnswerSigsAre(msg.answer);
    FirstStop(cf, s, msg, |sigs|);
    assert sigs[..|sigs|] == sigs;
    NoSecureStop(cf, s, msg, sigs, p);
    SignedIff(msg.answer);
    if p.stopped.None? {
      CoveredIff(cf, s, msg, p);
    } else {
      var n: nat :| StopsAt(cf, s, msg, n, p.stopped.value);
    }
    forall n: nat, stop | StopsAt(cf, s, msg, n, stop) ensures Validate(cf, options, s, msg).0 == stop {
      OneStop(cf, s, msg, n, stop, p);
      StopNeedsSignature(cf, s, msg, n, stop);
    }
  }

  lemma SignedIff(rrs: seq<RR>)
    ensures AnswerSigs(rrs) != [] <==> exists rr :: rr in rrs && rr.RrsigRR?
  {
    hide AnswerSigs;
    AnswerSigsAre(rrs);
    if AnswerSigs(rrs) != [] {
      assert AnswerSigs(rrs)[0] in AnswerSigs(rrs);
    }
    if rr :| rr in rrs && rr.RrsigRR? {
      assert rr.sig in AnswerSigs(rrs);
    }
  }

  lemma CoveredIff(cf: Config, s: Session, msg: Msg, p: Progress)
    requires p == CheckSigs(cf, s, msg, AnswerSigs(msg.answer)) && p.stopped.None?
    ensures forall rr :: rr in msg.answer && Gated(rr) ==> (SlotOfRR(rr) in p.covered <==> HasCover(msg, rr))
  {
    hide CheckSigs, AnswerSigs, RRsetAt, SlotOfSig, SlotOfRR, Gated, HasCover, Sourced, InPeriodAt, Unanchored;
    var sigs := AnswerSigs(msg.answer);
    AnswerSigsAre(msg.answer);
    ProgressIsSound(cf, s, msg, sigs, p);
    forall rr | rr in msg.answer && Gated(rr) ensures SlotOfRR(rr) in p.covered <==> HasCover(msg, rr) {
      CoverIs(msg, rr);
      GatedIsThere(msg, rr);
      if SlotOfRR(rr) in p.covered {
        var sig, key :| Authenticates(cf, s.tick, p.session.tick, msg, SlotOfRR(rr), sig, key);
        var g :| g in msg.answer && g.RrsigRR? && g.sig == sig;
      }
      if HasCover(msg, rr) {
        var g :| g in msg.answer && g.RrsigRR? && SlotOfSig(g.sig) == SlotOfRR(rr);
        assert g.sig in sigs;
      }
    }
  }

  lemma StopNeedsSignature(cf: Config, s: Session, msg: Msg, n: nat, v: Verdict)
    requires StopsAt(cf, s, msg, n, v)
    ensures AnswerSigs(msg.answer) != []
  {
    hide CheckSigs, AnswerSigs, CheckSig;
  }

  // ---- exactly when a consistent upstream leaves a zone insecure

  /** Nothing verifies, and the last attempt of all could not be processed. */
  ghost predicate Unprocessed(c: Crypto, now: int, rrset: seq<RR>, sigs: seq<Sig>, keys: seq<Key>) {
    && (forall sig, k :: !Tests(c, now, sigs, keys, rrset, Ok, sig, k))
    && exists i: nat, j: nat :: LastTried(c, now, sigs, keys, i, j) && UnprocessableOutcome(c.verify(sigs[i], keys[j], rrset))
  }

  /** The delegation to a zone whose parent is trusted: its DS is denied, or the signature over it cannot be
      processed, or that over the zone's own keys cannot. */
  ghost predicate BreaksHere(c: Crypto, now: int, zone: Name, f: Fetched, ds: Msg, parentKeys: seq<Key>)
    requires f.Fetched? && EndsWithDot(zone)
  {
    var dsRRs, dsSigs := RecordsOf(ds.answer, TYPE_DS), SigsOver(ds.answer, TYPE_DS);
    if dsRRs == [] then ds.rcode == RCODE_SUCCESS && DeniesDS(c, now, zone, ds.authority, parentKeys)
    else
      || Unprocessed(c, now, dsRRs, dsSigs, parentKeys)
      || (SignedBySome(c, now, dsSigs, parentKeys, dsRRs) && Unprocessed(c, now, f.rrset, f.sigs, EntryPoints(c, dsRRs, KeysOf(f.rrset))))
  }

  ghost predicate ServesBreak(cf: Config, a: Upstream, now: int, zone: Name)
    requires EndsWithDot(zone)
    decreases |zone|
  {
    && var f := Served(a, zone, TYPE_DNSKEY);
    && f.Fetched? && KeysOf(f.rrset) != []
    && if zone == ROOT then Unprocessed(cf.crypto, now, f.rrset, f.sigs, AnchoredKeys(cf.crypto, cf.anchors, KeysOf(f.rrset)))
       else
         && a(zone, TYPE_DS).Reply?
         && (|| ServesBreak(cf, a, now, Parent(zone))
             || (&& ServesChain(cf, a, now, Parent(zone)) && Served(a, Parent(zone), TYPE_DNSKEY).Fetched?
                 && BreaksHere(cf.crypto, now, zone, f, a(zone, TYPE_DS).msg, KeysOf(Served(a, Parent(zone), TYPE_DNSKEY).rrset))))
  }

  lemma SelfSignedIs(c: Crypto, now: int, f: Fetched, seps: seq<Key>)
    requires f.Fetched?
    ensures SelfSigned(c, now, f, seps).Insecure? <==> Unprocessed(c, now, f.rrset, f.sigs, seps)
  {
    hide VerifySet, Tests, LastTried;
    LastAttemptDecides(c, now, f.rrset, f.sigs, seps);
    VerifiedIff(c, now, f.rrset, f.sigs, seps);
  }

  lemma NoKeysNoAttempt(c: Crypto, now: int, rrset: seq<RR>, sigs: seq<Sig>)
    ensures !Unprocessed(c, now, rrset, sigs, [])
  {
    hide Tests;
  }

  lemma RootBreaksIff(cf: Config, now: int, f: Fetched)
    requires f.Fetched?
    ensures JudgeRoot(cf, now, f).Insecure? <==> Unprocessed(cf.crypto, now, f.rrset, f.sigs, AnchoredKeys(cf.crypto, cf.anchors, KeysOf(f.rrset)))
  {
    hide SelfSigned, Unprocessed, AnchoredKeys, KeysOf;
    var seps := AnchoredKeys(cf.crypto, cf.anchors, KeysOf(f.rrset));
    SelfSignedIs(cf.crypto, now, f, seps);
    NoKeysNoAttempt(cf.crypto, now, f.rrset, f.sigs);
    NoAnchorsNoKeys(cf.crypto, KeysOf(f.rrset));
  }

  lemma {:induction false} NoAnchorsNoKeys(c: Crypto, keys: seq<Key>)
    ensures AnchoredKeys(c, [], keys) == []
  {
    if keys != [] {
      NoAnchorsNoKeys(c, keys[..|keys| - 1]);
    }
  }

  lemma DelegationBreaksIff(c: Crypto, now: int, zone: Name, f: Fetched, ds: Msg, parentKeys: seq<Key>)
    requires f.Fetched? && EndsWithDot(zone)
    ensures JudgeDelegation(c, now, zone, f, ds, parentKeys).Insecure? <==> BreaksHere(c, now, zone, f, ds, parentKeys)
  {
    hide SelfSigned, DeniesDS, VerifySet, RecordsOf, SigsOver, KeysOf, EntryPoints, Tests, LastTried;
    var dsRRs, dsSigs := RecordsOf(ds.answer, TYPE_DS), SigsOver(ds.answer, TYPE_DS);
    var seps := EntryPoints(c, dsRRs, KeysOf(f.rrset));
    LastAttemptDecides(c, now, dsRRs, dsSigs, parentKeys);
    VerifiedIff(c, now, dsRRs, dsSigs, parentKeys);
    hide Unprocessed;
    SelfSignedIs(c, now, f, seps);
    NoKeysNoAttempt(c, now, f.rrset, f.sigs);
    UnprocessedIs(c, now, dsRRs, dsSigs, parentKeys);
  }

  lemma UnprocessedIs(c: Crypto, now: int, rrset: seq<RR>, sigs: seq<Sig>, keys: seq<Key>)
    ensures UnprocessableKey(VerifySet(c, now, rrset, sigs, keys)) <==> Unprocessed(c, now, rrset, sigs, keys)
  {
    hide VerifySet, Tests, LastTried;
    LastAttemptDecides(c, now, rrset, sigs, keys);
  }

  /** The walk ends insecure exactly when the chain is served down to some delegation that breaks, and the
      zone is at most 24 labels deep. */
  lemma {:induction false} InsecureIffServed(cf: Config, a: Upstream, now: int, zone: Name, depth: nat, r: WalkResult)
    requires EndsWithDot(zone) && r == PlainWalk(cf, a, now, zone, depth)
    ensures r.Insecure? <==> depth + Labels(zone) <= 24 && ServesBreak(cf, a, now, zone)
    decreases |zone|
  {
    hide JudgeRoot, JudgeDelegation, KeysOf, Served, Unprocessed, BreaksHere, Parent, ServesChain, AnchoredKeys;
    var f := Served(a, zone, TYPE_DNSKEY);
    if depth <= MAX_CHAIN_DEPTH && f.Fetched? && KeysOf(f.rrset) != [] {
      if zone == ROOT {
        RootBreaksIff(cf, now, f);
      } else if a(zone, TYPE_DS).Reply? {
        var p := PlainWalk(cf, a, now, Parent(zone), depth + 1);
        InsecureIffServed(cf, a, now, Parent(zone), depth + 1, p);
        KeysIffServed(cf, a, now, Parent(zone), depth + 1, p);
        if p.Keys? {
          DelegationBreaksIff(cf.crypto, now, zone, f, a(zone, TYPE_DS).msg, p.keys);
        }
      }
    }
  }
}
