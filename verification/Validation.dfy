/** The verdict on one response (`ValidateResponse`): secure, insecure or bogus. */
module Validation {
  import opened Dns
  import opened Signatures
  import opened Zones
  import opened KeyCache
  import opened Chain
  import opened Trust

  datatype BogusReason =
    | NoSignatures | OutOfPeriod | KeyNotFound | ChainFailed(reason: Reason)
    | NoMatchingKey | BadSignature | AnchorMismatch

  datatype Verdict = Secure | InsecureAnswer | Bogus(reason: BogusReason)

  datatype Options = Options(enabled: bool, validateAll: bool)

  // ---- sorting the answer

  function AnswerSigs(rrs: seq<RR>): seq<Sig> {
    if rrs == [] then []
    else
      var last := rrs[|rrs| - 1];
      AnswerSigs(rrs[..|rrs| - 1]) + if last.RrsigRR? then [last.sig] else []
  }

  function SlotOfRR(rr: RR): Slot {
    SlotOf(Owner(rr), RRType(rr))
  }

  function SlotOfSig(sig: Sig): Slot {
    SlotOf(sig.owner, sig.typeCovered)
  }

  predicate InSet(rr: RR, slot: Slot) {
    RRType(rr) != TYPE_RRSIG && SlotOfRR(rr) == slot
  }

  /** The RRset of an answer with a given owner and type, in order. */
  function RRsetAt(rrs: seq<RR>, slot: Slot): seq<RR> {
    if rrs == [] then []
    else
      var last := rrs[|rrs| - 1];
      RRsetAt(rrs[..|rrs| - 1], slot) + if InSet(last, slot) then [last] else []
  }

  method CollectSigs(rrs: seq<RR>) returns (sigs: seq<Sig>)
    ensures sigs == AnswerSigs(rrs)
  {
    sigs := [];
    for i := 0 to |rrs|
      invariant sigs == AnswerSigs(rrs[..i])
    {
      assert rrs[..i + 1][..i] == rrs[..i];
      if rrs[i].RrsigRR? {
        sigs := sigs + [rrs[i].sig];
      }
    }
    assert rrs[..|rrs|] == rrs;
  }

  method BuildRRsets(rrs: seq<RR>) returns (sets: map<Slot, seq<RR>>)
    ensures forall slot :: RRsetAt(rrs, slot) == if slot in sets then sets[slot] else []
    ensures forall slot :: slot in sets ==> sets[slot] != []
  {
    sets := map[];
    for i := 0 to |rrs|
      invariant forall slot :: RRsetAt(rrs[..i], slot) == if slot in sets then sets[slot] else []
      invariant forall slot :: slot in sets ==> sets[slot] != []
    {
      assert rrs[..i + 1][..i] == rrs[..i];
      if RRType(rrs[i]) == TYPE_RRSIG {
        continue;
      }
      var slot := SlotOfRR(rrs[i]);
      var so := if slot in sets then sets[slot] else [];
      sets := sets[slot := so + [rrs[i]]];
    }
    assert rrs[..|rrs|] == rrs;
  }

  predicate IsSigner(c: Crypto, key: Key, sig: Sig) {
    Candidate(c, sig, key) && Canonical(key.owner) == Canonical(sig.signer)
  }

  function FindKey(c: Crypto, rrs: seq<RR>, sig: Sig): (r: Option<Key>)
    ensures r.Some? ==> IsSigner(c, r.value, sig) && exists ttl :: DnskeyRR(ttl, r.value) in rrs
    ensures r.None? ==> forall rr :: rr in rrs && rr.DnskeyRR? ==> !IsSigner(c, rr.key, sig)
  {
    if rrs == [] then None
    else if rrs[0].DnskeyRR? && IsSigner(c, rrs[0].key, sig) then
      assert DnskeyRR(rrs[0].ttl, rrs[0].key) in rrs;
      Some(rrs[0].key)
    else FindKey(c, rrs[1..], sig)
  }

  method FindDNSKEY(c: Crypto, rrs: seq<RR>, sig: Sig) returns (r: Option<Key>)
    ensures r == FindKey(c, rrs, sig)
  {
    for i := 0 to |rrs|
      invariant FindKey(c, rrs, sig) == FindKey(c, rrs[i..], sig)
    {
      assert rrs[i..][0] == rrs[i] && rrs[i..][1..] == rrs[i + 1..];
      if rrs[i].DnskeyRR? && IsSigner(c, rrs[i].key, sig) {
        return Some(rrs[i].key);
      }
    }
    return None;
  }

  function FirstCandidate(c: Crypto, keys: seq<Key>, sig: Sig): (r: Option<Key>)
    ensures r.Some? ==> r.value in keys && Candidate(c, sig, r.value)
  {
    if keys == [] then None
    else if Candidate(c, sig, keys[0]) then Some(keys[0])
    else FirstCandidate(c, keys[1..], sig)
  }

  predicate IsRootKSK(key: Key) {
    key.owner == ROOT && key.flags % 2 == 1 && (key.flags / 256) % 2 == 1
  }

  // ---- the specification

  datatype Step = Skip | Covered | Stop(verdict: Verdict)

  ghost function Accept(cf: Config, sig: Sig, key: Key, rrset: seq<RR>): Step {
    var o := cf.crypto.verify(sig, key, rrset);
    if UnprocessableOutcome(o) then Stop(InsecureAnswer)
    else if o != Ok then Stop(Bogus(BadSignature))
    else if cf.anchors != [] && IsRootKSK(key) && !Anchored(cf.crypto, cf.anchors, key) then Stop(Bogus(AnchorMismatch))
    else Covered
  }

  ghost function AcceptWalked(cf: Config, sig: Sig, w: WalkResult, rrset: seq<RR>): Step {
    match w
    case Insecure => Stop(InsecureAnswer)
    case Failed(reason) => Stop(Bogus(ChainFailed(reason)))
    case Keys(keys) =>
      var k := FirstCandidate(cf.crypto, keys, sig);
      if k.None? then Stop(Bogus(NoMatchingKey)) else Accept(cf, sig, k.value, rrset)
  }

  /** One answer signature. */
  ghost function CheckSig(cf: Config, s: Session, msg: Msg, sig: Sig): (r: (Step, Session))
    ensures s.tick <= r.1.tick
  {
    var rrset := RRsetAt(msg.answer, SlotOfSig(sig));
    var key := FindKey(cf.crypto, msg.answer + msg.authority, sig);
    if !cf.crypto.inPeriod(sig, Now(cf, s)) then (Stop(Bogus(OutOfPeriod)), s)
    else if rrset == [] then (Skip, s)
    else if key.Some? then (Accept(cf, sig, key.value, rrset), s)
    else if !cf.wired then (Stop(Bogus(KeyNotFound)), s)
    else
      var (w, s') := Walk(cf, s, Canonical(sig.signer), 0);
      (AcceptWalked(cf, sig, w, rrset), s')
  }

  datatype Progress = Progress(covered: set<Slot>, stopped: Option<Verdict>, session: Session)

  ghost function CheckSigs(cf: Config, s: Session, msg: Msg, sigs: seq<Sig>): (r: Progress)
    ensures s.tick <= r.session.tick
  {
    if sigs == [] then Progress({}, None, s) else
    var before := CheckSigs(cf, s, msg, sigs[..|sigs| - 1]);
    if before.stopped.Some? then before else
    var sig := sigs[|sigs| - 1];
    var (step, s') := CheckSig(cf, before.session, msg, sig);
    match step
    case Skip => before.(session := s')
    case Covered => Progress(before.covered + {SlotOfSig(sig)}, None, s')
    case Stop(v) => Progress(before.covered, Some(v), s')
  }

  /** Records whose authenticity the verdict is about: not signatures, not key material. */
  predicate Gated(rr: RR) {
    RRType(rr) != TYPE_RRSIG && RRType(rr) != TYPE_DNSKEY && RRType(rr) != TYPE_DS
  }

  ghost function Validate(cf: Config, options: Options, s: Session, msg: Msg): (r: (Verdict, Session))
    ensures s.tick <= r.1.tick
  {
    var sigs := AnswerSigs(msg.answer);
    if !options.enabled || msg.answer == [] then (Secure, s)
    else if sigs == [] then (if options.validateAll then Bogus(NoSignatures) else InsecureAnswer, s)
    else
      var p := CheckSigs(cf, s, msg, sigs);
      if p.stopped.Some? then (p.stopped.value, p.session)
      else if exists rr :: rr in msg.answer && Gated(rr) && SlotOfRR(rr) !in p.covered then (InsecureAnswer, p.session)
      else (Secure, p.session)
  }

  // ---- the program

  method CheckKey(v: Validator, sig: Sig, key: Key, rrset: seq<RR>) returns (step: Step)
    ensures step == Accept(v.cf, sig, key, rrset)
  {
    var o := v.cf.crypto.verify(sig, key, rrset);
    if o != Ok {
      return Stop(if UnprocessableOutcome(o) then InsecureAnswer else Bogus(BadSignature));
    }
    if |v.cf.anchors| > 0 && IsRootKSK(key) {
      var anchored := VerifyKeyAgainstAnchors(v.cf.crypto, key, v.cf.anchors);
      if !anchored {
        return Stop(Bogus(AnchorMismatch));
      }
    }
    return Covered;
  }

  method CheckSignature(v: Validator, msg: Msg, rrset: seq<RR>, sig: Sig) returns (step: Step)
    requires rrset == RRsetAt(msg.answer, SlotOfSig(sig))
    modifies v, v.keyCache
    ensures (step, v.State()) == CheckSig(v.cf, old(v.State()), msg, sig)
  {
    hide Walk, Accept;
    if !v.cf.crypto.inPeriod(sig, v.cf.world.clock(v.tick)) {
      return Stop(Bogus(OutOfPeriod));
    }
    if |rrset| == 0 {
      return Skip;
    }
    var key := FindDNSKEY(v.cf.crypto, msg.answer + msg.authority, sig);
    if key.None? {
      if !v.cf.wired {
        return Stop(Bogus(KeyNotFound));
      }
      var w := v.AuthenticatedDNSKEYs(sig.signer, 0);
      if w.Insecure? {
        return Stop(InsecureAnswer);
      }
      if w.Failed? {
        return Stop(Bogus(ChainFailed(w.reason)));
      }
      for i := 0 to |w.keys|
        invariant key.None?
        invariant FirstCandidate(v.cf.crypto, w.keys, sig) == FirstCandidate(v.cf.crypto, w.keys[i..], sig)
      {
        assert w.keys[i..][0] == w.keys[i] && w.keys[i..][1..] == w.keys[i + 1..];
        if Candidate(v.cf.crypto, sig, w.keys[i]) {
          key := Some(w.keys[i]);
          break;
        }
      }
      if key.None? {
        return Stop(Bogus(NoMatchingKey));
      }
    }
    step := CheckKey(v, sig, key.value, rrset);
  }

  /** The coverage check, over the sets of the answer in any order. */
  method AllCovered(answer: seq<RR>, rrsets: map<Slot, seq<RR>>, validated: set<Slot>) returns (r: bool)
    requires forall slot :: RRsetAt(answer, slot) == if slot in rrsets then rrsets[slot] else []
    requires forall slot :: slot in rrsets ==> rrsets[slot] != []
    ensures r <==> !exists rr :: rr in answer && Gated(rr) && SlotOfRR(rr) !in validated
  {
    hide Canonical;
    var slots := rrsets.Keys;
    while slots != {}
      invariant slots <= rrsets.Keys
      invariant forall slot | slot in rrsets.Keys - slots :: slot.1 == TYPE_DNSKEY || slot.1 == TYPE_DS || slot in validated
      decreases slots
    {
      var slot :| slot in slots;
      slots := slots - {slot};
      RRsetMembers(answer, slot, rrsets[slot][0]);
      if RRType(rrsets[slot][0]) == TYPE_DNSKEY || RRType(rrsets[slot][0]) == TYPE_DS {
        continue;
      }
      if slot !in validated {
        return false;
      }
    }
    forall rr | rr in answer && Gated(rr) ensures SlotOfRR(rr) in validated {
      RRsetMembers(answer, SlotOfRR(rr), rr);
    }
    return true;
  }

  method ValidateResponse(v: Validator, options: Options, msg: Msg) returns (verdict: Verdict)
    modifies v, v.keyCache
    ensures (verdict, v.State()) == Validate(v.cf, options, old(v.State()), msg)
  {
    hide CheckSig, SlotOf, RRsetAt, AnswerSigs, Gated, SlotOfRR;
    if !options.enabled || |msg.answer| == 0 {
      return Secure;
    }
    var sigs := CollectSigs(msg.answer);
    if |sigs| == 0 {
      return if options.validateAll then Bogus(NoSignatures) else InsecureAnswer;
    }
    var rrsets := BuildRRsets(msg.answer);
    var validated: set<Slot> := {};
    ghost var s := v.State();
    for i := 0 to |sigs|
      invariant CheckSigs(v.cf, s, msg, sigs[..i]) == Progress(validated, None, v.State())
    {
      assert sigs[..i + 1][..i] == sigs[..i];
      var slot := SlotOfSig(sigs[i]);
      var rrset := if slot in rrsets then rrsets[slot] else [];
      var step := CheckSignature(v, msg, rrset, sigs[i]);
      if step.Stop? {
        StopPersists(v.cf, s, msg, sigs, i + 1);
        return step.verdict;
      }
      if step.Covered? {
        validated := validated + {slot};
      }
    }
    assert sigs[..|sigs|] == sigs;
    var covered := AllCovered(msg.answer, rrsets, validated);
    return if covered then Secure else InsecureAnswer;
  }

  lemma {:induction false} RRsetMembers(rrs: seq<RR>, slot: Slot, rr: RR)
    ensures rr in RRsetAt(rrs, slot) <==> rr in rrs && InSet(rr, slot)
  {
    if rrs != [] {
      var n := |rrs| - 1;
      RRsetMembers(rrs[..n], slot, rr);
      assert rrs == rrs[..n] + [rrs[n]];
    }
  }

  lemma {:induction false} StopPersists(cf: Config, s: Session, msg: Msg, sigs: seq<Sig>, i: nat)
    requires i <= |sigs| && CheckSigs(cf, s, msg, sigs[..i]).stopped.Some?
    ensures CheckSigs(cf, s, msg, sigs) == CheckSigs(cf, s, msg, sigs[..i])
    decreases |sigs|
  {
    hide CheckSig;
    if i == |sigs| {
      assert sigs[..i] == sigs;
    } else {
      var n := |sigs| - 1;
      assert sigs[..n][..i] == sigs[..i];
      StopPersists(cf, s, msg, sigs[..n], i);
    }
  }

  // ---- what the verdicts mean

  /** Where a verification key came from: the message itself, or a chain of trust. */
  ghost predicate Sourced(cf: Config, lo: nat, hi: nat, msg: Msg, sig: Sig, key: Key) {
    || (Canonical(key.owner) == Canonical(sig.signer) && exists ttl :: DnskeyRR(ttl, key) in msg.answer + msg.authority)
    || (exists keys :: Trusted(cf, lo, hi, Canonical(sig.signer), keys) && key in keys)
  }

  ghost predicate Authenticates(cf: Config, lo: nat, hi: nat, msg: Msg, slot: Slot, sig: Sig, key: Key) {
    && SlotOfSig(sig) == slot && sig in AnswerSigs(msg.answer)
    && Candidate(cf.crypto, sig, key) && Sourced(cf, lo, hi, msg, sig, key)
    && cf.crypto.verify(sig, key, RRsetAt(msg.answer, slot)) == Ok
    && (cf.anchors != [] && IsRootKSK(key) ==> Anchored(cf.crypto, cf.anchors, key))
  }

  ghost predicate Authenticated(cf: Config, lo: nat, hi: nat, msg: Msg, slot: Slot) {
    exists sig, key :: Authenticates(cf, lo, hi, msg, slot, sig, key)
  }

  ghost predicate InPeriodAt(cf: Config, lo: nat, hi: nat, sig: Sig) {
    exists at: nat :: lo <= at <= hi && cf.crypto.inPeriod(sig, cf.world.clock(at))
  }

  /** An honest reason not to authenticate: the signer's zone is not anchored, or its key is unusable. */
  ghost predicate Unanchored(cf: Config, lo: nat, hi: nat, msg: Msg, sig: Sig) {
    || Justified(cf, lo, hi, Canonical(sig.signer))
    || (exists key ::
          && Candidate(cf.crypto, sig, key) && Sourced(cf, lo, hi, msg, sig, key)
          && UnprocessableOutcome(cf.crypto.verify(sig, key, RRsetAt(msg.answer, SlotOfSig(sig)))))
  }

  lemma {:induction false} WidenJustified(cf: Config, lo: nat, hi: nat, lo': nat, hi': nat, zone: Name)
    requires EndsWithDot(zone) && Justified(cf, lo, hi, zone) && lo' <= lo && hi <= hi'
    ensures Justified(cf, lo', hi', zone)
  {
    hide Explains, Labels, Up;
    var k: nat, at, cause :| k <= Labels(zone) && Explains(cf, lo, hi, Up(zone, k), at, cause);
    WidenExplains(cf, lo, hi, lo', hi', Up(zone, k), at, cause);
  }

  lemma WidenSourced(cf: Config, lo: nat, hi: nat, lo': nat, hi': nat, msg: Msg, sig: Sig, key: Key)
    requires Sourced(cf, lo, hi, msg, sig, key) && lo' <= lo && hi <= hi'
    ensures Sourced(cf, lo', hi', msg, sig, key)
  {
    hide Trusted, Canonical;
    if keys :| Trusted(cf, lo, hi, Canonical(sig.signer), keys) && key in keys {
      WidenTrusted(cf, lo, hi, lo', hi', Canonical(sig.signer), keys);
    }
  }

  /** One signature: what being covered, and what stopping insecure, says. */
  lemma StepMeans(cf: Config, s: Session, msg: Msg, sig: Sig, step: Step, s': Session)
    requires (step, s') == CheckSig(cf, s, msg, sig) && sig in AnswerSigs(msg.answer)
    ensures !step.Stop? ==> InPeriodAt(cf, s.tick, s'.tick, sig)
    ensures step.Covered? ==> Authenticated(cf, s.tick, s'.tick, msg, SlotOfSig(sig))
    ensures step == Stop(InsecureAnswer) ==> Unanchored(cf, s.tick, s'.tick, msg, sig)
  {
    hide Walk, Trusted, Justified, RRsetAt, AnswerSigs, Canonical, SlotOf, Anchored, FirstCandidate, FindKey, Candidate;
    var c, rrset := cf.crypto, RRsetAt(msg.answer, SlotOfSig(sig));
    var found := FindKey(c, msg.answer + msg.authority, sig);
    var (w, _) := Walk(cf, s, Canonical(sig.signer), 0);
    if c.inPeriod(sig, Now(cf, s)) && rrset != [] {
      if found.Some? {
        SourceMeans(cf, s.tick, s'.tick, msg, sig, found.value);
      } else if cf.wired && w.Insecure? {
        InsecureIsNeverFree(cf, s, Canonical(sig.signer), 0, w, s');
      } else if cf.wired && w.Keys? {
        WalkIsSound(cf, s, Canonical(sig.signer), 0, w, s');
        var k := FirstCandidate(c, w.keys, sig);
        if k.Some? {
          SourceMeans(cf, s.tick, s'.tick, msg, sig, k.value);
        }
      }
    }
  }

  lemma SourceMeans(cf: Config, lo: nat, hi: nat, msg: Msg, sig: Sig, key: Key)
    requires sig in AnswerSigs(msg.answer) && Candidate(cf.crypto, sig, key) && Sourced(cf, lo, hi, msg, sig, key)
    ensures var step := Accept(cf, sig, key, RRsetAt(msg.answer, SlotOfSig(sig)));
            && (step.Covered? ==> Authenticated(cf, lo, hi, msg, SlotOfSig(sig)))
            && (step == Stop(InsecureAnswer) ==> Unanchored(cf, lo, hi, msg, sig))
            && !step.Skip?
  {
    hide Sourced, Justified, RRsetAt, AnswerSigs, Canonical, SlotOf, Anchored, Candidate;
    if Accept(cf, sig, key, RRsetAt(msg.answer, SlotOfSig(sig))).Covered? {
      assert Authenticates(cf, lo, hi, msg, SlotOfSig(sig), sig, key);
    }
  }

  lemma WidenAuthenticated(cf: Config, lo: nat, hi: nat, lo': nat, hi': nat, msg: Msg, slot: Slot)
    requires Authenticated(cf, lo, hi, msg, slot) && lo' <= lo && hi <= hi'
    ensures Authenticated(cf, lo', hi', msg, slot)
  {
    hide Sourced, RRsetAt, AnswerSigs, Anchored, SlotOf;
    var sig, key :| Authenticates(cf, lo, hi, msg, slot, sig, key);
    WidenSourced(cf, lo, hi, lo', hi', msg, sig, key);
    assert Authenticates(cf, lo', hi', msg, slot, sig, key);
  }

  ghost predicate Sound(cf: Config, lo: nat, msg: Msg, sigs: seq<Sig>, p: Progress) {
    && (p.stopped.None? ==> forall sig :: sig in sigs ==> InPeriodAt(cf, lo, p.session.tick, sig))
    && (forall slot :: slot in p.covered ==> Authenticated(cf, lo, p.session.tick, msg, slot))
    && (p.stopped == Some(InsecureAnswer) ==> exists sig :: sig in sigs && Unanchored(cf, lo, p.session.tick, msg, sig))
    && (p.stopped.None? ==> forall sig :: sig in sigs && RRsetAt(msg.answer, SlotOfSig(sig)) != [] ==> SlotOfSig(sig) in p.covered)
    && p.stopped != Some(Secure)
  }

  lemma {:induction false} ProgressIsSound(cf: Config, s: Session, msg: Msg, sigs: seq<Sig>, p: Progress)
    requires p == CheckSigs(cf, s, msg, sigs) && forall sig :: sig in sigs ==> sig in AnswerSigs(msg.answer)
    ensures Sound(cf, s.tick, msg, sigs, p)
    decreases |sigs|
  {
    hide CheckSig, Authenticated, Unanchored, RRsetAt, AnswerSigs, SlotOfSig, InPeriodAt;
    if sigs != [] {
      var n := |sigs| - 1;
      var before := CheckSigs(cf, s, msg, sigs[..n]);
      ProgressIsSound(cf, s, msg, sigs[..n], before);
      assert sigs == sigs[..n] + [sigs[n]];
      if before.stopped.None? {
        var (step, s') := CheckSig(cf, before.session, msg, sigs[n]);
        StepMeans(cf, before.session, msg, sigs[n], step, s');
        StepKeeps(cf, s, before, msg, sigs[..n], sigs[n], step, s');
        SkippedIsEmpty(cf, before.session, msg, sigs[n]);
      }
    }
  }

  lemma SkippedIsEmpty(cf: Config, s: Session, msg: Msg, sig: Sig)
    ensures CheckSig(cf, s, msg, sig).0.Skip? ==> RRsetAt(msg.answer, SlotOfSig(sig)) == []
    ensures CheckSig(cf, s, msg, sig).0 != Stop(Secure)
  {
    hide Walk, RRsetAt, FindKey, FirstCandidate, SlotOf;
  }

  /** Later clock readings do not weaken what earlier signatures established. */
  lemma StepKeeps(cf: Config, s: Session, before: Progress, msg: Msg, sigs: seq<Sig>, sig: Sig, step: Step, s': Session)
    requires Sound(cf, s.tick, msg, sigs, before) && s.tick <= before.session.tick <= s'.tick && before.stopped.None?
    requires step == Stop(InsecureAnswer) ==> Unanchored(cf, before.session.tick, s'.tick, msg, sig)
    requires step.Covered? ==> Authenticated(cf, before.session.tick, s'.tick, msg, SlotOfSig(sig))
    requires !step.Stop? ==> InPeriodAt(cf, before.session.tick, s'.tick, sig)
    ensures !step.Stop? ==> InPeriodAt(cf, s.tick, s'.tick, sig)
    ensures forall g :: g in sigs ==> InPeriodAt(cf, s.tick, s'.tick, g)
    ensures forall slot :: slot in before.covered ==> Authenticated(cf, s.tick, s'.tick, msg, slot)
    ensures step.Covered? ==> Authenticated(cf, s.tick, s'.tick, msg, SlotOfSig(sig))
    ensures step == Stop(InsecureAnswer) ==> Unanchored(cf, s.tick, s'.tick, msg, sig)
  {
    hide Authenticated, Justified, Sourced, RRsetAt, SlotOf, Canonical, Candidate;
    forall slot | slot in before.covered ensures Authenticated(cf, s.tick, s'.tick, msg, slot) {
      WidenAuthenticated(cf, s.tick, before.session.tick, s.tick, s'.tick, msg, slot);
    }
    if step.Covered? {
      WidenAuthenticated(cf, before.session.tick, s'.tick, s.tick, s'.tick, msg, SlotOfSig(sig));
    }
    if step == Stop(InsecureAnswer) {
      var at := before.session.tick;
      if Justified(cf, at, s'.tick, Canonical(sig.signer)) {
        WidenJustified(cf, at, s'.tick, s.tick, s'.tick, Canonical(sig.signer));
      } else {
        var key :| Candidate(cf.crypto, sig, key) && Sourced(cf, at, s'.tick, msg, sig, key)
                && UnprocessableOutcome(cf.crypto.verify(sig, key, RRsetAt(msg.answer, SlotOfSig(sig))));
        WidenSourced(cf, at, s'.tick, s.tick, s'.tick, msg, sig, key);
      }
    }
  }

  /** A secure verdict on a non-empty answer: every signature was in period, and every record that is
      not key material belongs to an RRset that verified under a key from the message or from a chain
      of trust. */
  lemma SecureMeans(cf: Config, options: Options, s: Session, msg: Msg, s': Session)
    requires options.enabled && msg.answer != [] && (Secure, s') == Validate(cf, options, s, msg)
    ensures AnswerSigs(msg.answer) != []
    ensures forall sig :: sig in AnswerSigs(msg.answer) ==> InPeriodAt(cf, s.tick, s'.tick, sig)
    ensures forall rr :: rr in msg.answer && Gated(rr) ==> Authenticated(cf, s.tick, s'.tick, msg, SlotOfRR(rr))
  {
    hide CheckSigs, Authenticated, InPeriodAt, Unanchored, AnswerSigs, SlotOfRR, RRsetAt;
    var sigs := AnswerSigs(msg.answer);
    ProgressIsSound(cf, s, msg, sigs, CheckSigs(cf, s, msg, sigs));
  }

  /** A record set of the answer that a signature was tested on and fits. */
  ghost predicate SignedSet(cf: Config, lo: nat, hi: nat, msg: Msg, slot: Slot) {
    RRsetAt(msg.answer, slot) != [] && Authenticated(cf, lo, hi, msg, slot)
  }

  /** A signature of the answer whose records are there too. */
  predicate Covering(msg: Msg, sig: Sig) {
    sig in AnswerSigs(msg.answer) && RRsetAt(msg.answer, SlotOfSig(sig)) != []
  }

  /** The record sets the validator verified a signature over; none if it is switched off, or if the
      answer is empty or without signatures. */
  ghost function Checked(cf: Config, options: Options, s: Session, msg: Msg): set<Slot> {
    if !options.enabled || msg.answer == [] then {} else CheckSigs(cf, s, msg, AnswerSigs(msg.answer)).covered
  }

  /** Behind a secure verdict the validator has verified something exactly when it is switched on and some
      signature of the answer comes with the records it covers; and then what it verified is signed.  Any
      record that is not key material is enough for that; an empty answer, or signatures on their own,
      are called secure with nothing verified, and so is everything when validation is off. */
  lemma SecureIsSignedIff(cf: Config, options: Options, s: Session, msg: Msg, s': Session)
    requires (Secure, s') == Validate(cf, options, s, msg)
    ensures Checked(cf, options, s, msg) != {} <==> options.enabled && exists sig :: Covering(msg, sig)
    ensures forall slot :: slot in Checked(cf, options, s, msg) ==> SignedSet(cf, s.tick, s'.tick, msg, slot)
    ensures options.enabled && (exists rr :: rr in msg.answer && Gated(rr)) ==> exists sig :: Covering(msg, sig)
  {
    hide CheckSigs, InPeriodAt, Unanchored, AnswerSigs, SlotOfRR, RRsetAt, Sourced, Candidate;
    var sigs := AnswerSigs(msg.answer);
    NoAnswerNoSignature();
    if options.enabled && msg.answer != [] {
      var p := CheckSigs(cf, s, msg, sigs);
      ProgressIsSound(cf, s, msg, sigs, p);
      CoveredIsThere(cf, s, msg, sigs, p);
      if sig :| Covering(msg, sig) {
        assert SlotOfSig(sig) in Checked(cf, options, s, msg);
      }
      if slot :| slot in p.covered {
        var sig, key :| Authenticates(cf, s.tick, s'.tick, msg, slot, sig, key);
        assert Covering(msg, sig);
      }
      if rr :| rr in msg.answer && Gated(rr) {
        var sig, key :| Authenticates(cf, s.tick, s'.tick, msg, SlotOfRR(rr), sig, key);
        RRsetMembers(msg.answer, SlotOfRR(rr), rr);
        assert Covering(msg, sig);
      }
    }
  }

  lemma {:induction false} CoveredIsThere(cf: Config, s: Session, msg: Msg, sigs: seq<Sig>, p: Progress)
    requires p == CheckSigs(cf, s, msg, sigs)
    ensures forall slot :: slot in p.covered ==> RRsetAt(msg.answer, slot) != []
    decreases |sigs|
  {
    hide CheckSig, RRsetAt, SlotOfSig;
    if sigs != [] {
      var n := |sigs| - 1;
      var before := CheckSigs(cf, s, msg, sigs[..n]);
      CoveredIsThere(cf, s, msg, sigs[..n], before);
      CoveredNow(cf, before.session, msg, sigs[n]);
    }
  }

  lemma CoveredNow(cf: Config, s: Session, msg: Msg, sig: Sig)
    ensures CheckSig(cf, s, msg, sig).0.Covered? ==> RRsetAt(msg.answer, SlotOfSig(sig)) != []
  {
    hide Walk, RRsetAt, FindKey, FirstCandidate, SlotOf;
  }

  /** Switched off, the validator calls every message secure and looks at none. */
  lemma DisabledIsSecure(cf: Config, options: Options, s: Session, msg: Msg)
    requires !options.enabled
    ensures Validate(cf, options, s, msg) == (Secure, s) && Checked(cf, options, s, msg) == {}
  {
  }

  // ---- which key a signature was verified under

  ghost predicate ChainKeys(cf: Config, lo: nat, hi: nat, sig: Sig, keys: seq<Key>, rrset: seq<RR>) {
    && Trusted(cf, lo, hi, Canonical(sig.signer), keys)
    && FirstCandidate(cf.crypto, keys, sig).Some? && cf.crypto.verify(sig, FirstCandidate(cf.crypto, keys, sig).value, rrset) == Ok
  }

  /** A key the message brings along decides alone; only without one is there a chain of trust. */
  ghost predicate RestsOn(cf: Config, lo: nat, hi: nat, msg: Msg, sig: Sig) {
    var own, rrset := FindKey(cf.crypto, msg.answer + msg.authority, sig), RRsetAt(msg.answer, SlotOfSig(sig));
    if own.Some? then cf.crypto.verify(sig, own.value, rrset) == Ok
    else exists keys :: ChainKeys(cf, lo, hi, sig, keys, rrset)
  }

  lemma WidenRests(cf: Config, lo: nat, hi: nat, lo': nat, hi': nat, msg: Msg, sig: Sig)
    requires RestsOn(cf, lo, hi, msg, sig) && lo' <= lo && hi <= hi'
    ensures RestsOn(cf, lo', hi', msg, sig)
  {
    hide Trusted, Canonical, RRsetAt, FindKey, FirstCandidate, SlotOfSig;
    var rrset := RRsetAt(msg.answer, SlotOfSig(sig));
    if keys :| ChainKeys(cf, lo, hi, sig, keys, rrset) {
      WidenTrusted(cf, lo, hi, lo', hi', Canonical(sig.signer), keys);
      assert ChainKeys(cf, lo', hi', sig, keys, rrset);
    }
  }

  /** And with a key of its own no walk is made at all. */
  lemma StepRests(cf: Config, s: Session, msg: Msg, sig: Sig, step: Step, s': Session)
    requires (step, s') == CheckSig(cf, s, msg, sig)
    ensures step.Covered? ==> RestsOn(cf, s.tick, s'.tick, msg, sig)
    ensures FindKey(cf.crypto, msg.answer + msg.authority, sig).Some? ==> s' == s
  {
    hide Walk, Trusted, RRsetAt, Canonical, SlotOf, Anchored, FirstCandidate, FindKey;
    if step.Covered? && FindKey(cf.crypto, msg.answer + msg.authority, sig).None? {
      var (w, _) := Walk(cf, s, Canonical(sig.signer), 0);
      WalkIsSound(cf, s, Canonical(sig.signer), 0, w, s');
      assert ChainKeys(cf, s.tick, s'.tick, sig, w.keys, RRsetAt(msg.answer, SlotOfSig(sig)));
    }
  }

  lemma {:induction false} SigsRest(cf: Config, s: Session, msg: Msg, sigs: seq<Sig>, p: Progress)
    requires p == CheckSigs(cf, s, msg, sigs)
    ensures p.stopped.None? ==> forall sig :: sig in sigs && RRsetAt(msg.answer, SlotOfSig(sig)) != [] ==> RestsOn(cf, s.tick, p.session.tick, msg, sig)
    ensures (forall sig :: sig in sigs ==> FindKey(cf.crypto, msg.answer + msg.authority, sig).Some?) ==> p.session == s
    decreases |sigs|
  {
    hide CheckSig, RRsetAt, SlotOfSig, RestsOn, FindKey;
    if sigs != [] {
      var n := |sigs| - 1;
      var before := CheckSigs(cf, s, msg, sigs[..n]);
      SigsRest(cf, s, msg, sigs[..n], before);
      assert sigs == sigs[..n] + [sigs[n]];
      if before.stopped.None? {
        var (step, s') := CheckSig(cf, before.session, msg, sigs[n]);
        StepRests(cf, before.session, msg, sigs[n], step, s');
        SkippedIsEmpty(cf, before.session, msg, sigs[n]);
        if step.Covered? {
          WidenRests(cf, before.session.tick, s'.tick, s.tick, s'.tick, msg, sigs[n]);
        }
        forall sig | sig in sigs[..n] && RRsetAt(msg.answer, SlotOfSig(sig)) != [] ensures RestsOn(cf, s.tick, s'.tick, msg, sig) {
          WidenRests(cf, s.tick, before.session.tick, s.tick, s'.tick, msg, sig);
        }
      }
    }
  }

  /** What a secure verdict rests on, signature by signature: a chain of trust exactly where the message
      brings no key of the signer along, and otherwise that key, on its own word; if every signature has
      such a key, no upstream is asked and no cache entry read. */
  lemma WhereSecureRests(cf: Config, options: Options, s: Session, msg: Msg, s': Session)
    requires options.enabled && (Secure, s') == Validate(cf, options, s, msg)
    ensures forall sig :: Covering(msg, sig) ==> RestsOn(cf, s.tick, s'.tick, msg, sig)
    ensures (forall sig :: sig in AnswerSigs(msg.answer) ==> FindKey(cf.crypto, msg.answer + msg.authority, sig).Some?) ==> s' == s
  {
    hide CheckSigs, AnswerSigs, RRsetAt, SlotOfSig, RestsOn, FindKey, Gated, SlotOfRR, Authenticated, InPeriodAt, Unanchored;
    var sigs := AnswerSigs(msg.answer);
    NoAnswerNoSignature();
    ProgressIsSound(cf, s, msg, sigs, CheckSigs(cf, s, msg, sigs));
    SigsRest(cf, s, msg, sigs, CheckSigs(cf, s, msg, sigs));
  }

  /** At an input: an address, a signature over it, and the key that made it, all in one answer.  Wherever
      that key verifies that signature, the answer is secure, whatever the anchors say and although no
      upstream is asked. */
  lemma OwnKeyIsEnough(cf: Config, options: Options, s: Session)
    requires var key, sig := Key("x.", 256, 8, "k"), Sig("a.x.", 1, 8, 1, "x.", "s");
             var a := OtherRR("a.x.", 60, 1, "192.0.2.1");
             cf.crypto.keyTag(key) == 1 && cf.crypto.inPeriod(sig, Now(cf, s)) && cf.crypto.verify(sig, key, [a]) == Ok
    ensures var key, sig := Key("x.", 256, 8, "k"), Sig("a.x.", 1, 8, 1, "x.", "s");
            var answer := [OtherRR("a.x.", 60, 1, "192.0.2.1"), RrsigRR(60, sig), DnskeyRR(60, key)];
            Validate(cf, options, s, Msg(7, true, 0, false, true, false, [Question("a.x.", 1, 1)], answer, [], [])) == (Secure, s)
  {
    hide CheckSigs, AnswerSigs, RRsetAt, FindKey, SlotOfSig, SlotOfRR;
    var key, sig := Key("x.", 256, 8, "k"), Sig("a.x.", 1, 8, 1, "x.", "s");
    var a := OtherRR("a.x.", 60, 1, "192.0.2.1");
    var answer := [a, RrsigRR(60, sig), DnskeyRR(60, key)];
    var msg := Msg(7, true, 0, false, true, false, [Question("a.x.", 1, 1)], answer, [], []);
    OwnSections(cf.crypto, a, sig, key);
    OneOwnKey(cf, s, msg, sig, key, a);
  }

  lemma OwnSections(c: Crypto, a: RR, sig: Sig, key: Key)
    requires a == OtherRR("a.x.", 60, 1, "192.0.2.1") && sig == Sig("a.x.", 1, 8, 1, "x.", "s") && key == Key("x.", 256, 8, "k") && c.keyTag(key) == 1
    ensures var answer := [a, RrsigRR(60, sig), DnskeyRR(60, key)];
            && AnswerSigs(answer) == [sig] && SlotOfSig(sig) == SlotOfRR(a) && RRsetAt(answer, SlotOfRR(a)) == [a]
            && FindKey(c, answer + [], sig) == Some(key)
  {
    hide Canonical;
    var one, two, answer := [a], [a, RrsigRR(60, sig)], [a, RrsigRR(60, sig), DnskeyRR(60, key)];
    assert one[..0] == [] && two[..1] == one && answer[..2] == two && answer + [] == answer;
    assert AnswerSigs(one) == [] && AnswerSigs(two) == [sig];
    assert RRsetAt(one, SlotOfRR(a)) == [a] && RRsetAt(two, SlotOfRR(a)) == [a];
    assert answer[1..][1..] == [DnskeyRR(60, key)];
    assert FindKey(c, answer[1..], sig) == FindKey(c, answer[1..][1..], sig) == Some(key);
  }

  lemma OneOwnKey(cf: Config, s: Session, msg: Msg, sig: Sig, key: Key, a: RR)
    requires cf.crypto.inPeriod(sig, Now(cf, s)) && RRsetAt(msg.answer, SlotOfSig(sig)) == [a] && key.owner != ROOT
    requires FindKey(cf.crypto, msg.answer + msg.authority, sig) == Some(key) && cf.crypto.verify(sig, key, [a]) == Ok
    ensures CheckSigs(cf, s, msg, [sig]) == Progress({SlotOfSig(sig)}, None, s)
  {
    hide SlotOfSig, RRsetAt, FindKey, AcceptWalked;
    var sigs := [sig];
    assert sigs[..0] == [] && CheckSigs(cf, s, msg, []) == Progress({}, None, s);
    assert CheckSig(cf, s, msg, sig) == (Covered, s);
  }

  lemma NoAnswerNoSignature()
    ensures AnswerSigs([]) == []
  {
  }

  /** At an input: an NXDOMAIN without any signature is secure. */
  lemma UnsignedNxdomainIsSecure(cf: Config, options: Options, s: Session)
    ensures var nxdomain := Msg(7, true, RCODE_NAME_ERROR, false, true, false, [Question("a.x.", 1, 1)], [], [SoaRR("x.", 60)], []);
            Validate(cf, options, s, nxdomain) == (Secure, s) && !exists sig :: Covering(nxdomain, sig)
  {
    hide CheckSigs;
    NoAnswerNoSignature();
  }

  /** And so is an answer that is one signature in period and nothing else. */
  lemma LoneSignatureIsSecure(cf: Config, options: Options, s: Session, sig: Sig)
    requires cf.crypto.inPeriod(sig, Now(cf, s))
    ensures var lone := Msg(7, true, RCODE_SUCCESS, false, true, false, [Question("a.x.", 1, 1)], [RrsigRR(60, sig)], [], []);
            Validate(cf, options, s, lone) == (Secure, s) && !exists g :: Covering(lone, g)
  {
    hide CheckSigs, SlotOf, SlotOfSig, AnswerSigs, RRsetAt;
    var lone := Msg(7, true, RCODE_SUCCESS, false, true, false, [Question("a.x.", 1, 1)], [RrsigRR(60, sig)], [], []);
    LoneSections(sig, SlotOfSig(sig));
    OneSkip(cf, s, lone, sig);
  }

  lemma LoneSections(sig: Sig, slot: Slot)
    ensures AnswerSigs([RrsigRR(60, sig)]) == [sig] && RRsetAt([RrsigRR(60, sig)], slot) == []
  {
    hide SlotOf;
    var answer := [RrsigRR(60, sig)];
    assert answer[..0] == [];
  }

  lemma OneSkip(cf: Config, s: Session, msg: Msg, sig: Sig)
    requires cf.crypto.inPeriod(sig, Now(cf, s)) && RRsetAt(msg.answer, SlotOfSig(sig)) == []
    ensures CheckSigs(cf, s, msg, [sig]) == Progress({}, None, s)
  {
    hide SlotOfSig, RRsetAt, FindKey, AcceptWalked, Accept;
    var sigs := [sig];
    assert sigs[..0] == [] && CheckSigs(cf, s, msg, []) == Progress({}, None, s);
    assert CheckSig(cf, s, msg, sig) == (Skip, s);
  }

  /** An insecure verdict always has a cause: no signature at all, a signer that is honestly
      unanchored, or a record that no signature in the answer covers. */
  lemma InsecureMeans(cf: Config, options: Options, s: Session, msg: Msg, s': Session)
    requires (InsecureAnswer, s') == Validate(cf, options, s, msg)
    ensures
      || (AnswerSigs(msg.answer) == [] && !options.validateAll)
      || (exists sig :: sig in AnswerSigs(msg.answer) && Unanchored(cf, s.tick, s'.tick, msg, sig))
      || (exists rr :: rr in msg.answer && Gated(rr) && forall sig :: sig in AnswerSigs(msg.answer) ==> SlotOfSig(sig) != SlotOfRR(rr))
  {
    hide CheckSigs, Authenticated, InPeriodAt, Unanchored, AnswerSigs, RRsetAt, SlotOf;
    var sigs := AnswerSigs(msg.answer);
    var p := CheckSigs(cf, s, msg, sigs);
    ProgressIsSound(cf, s, msg, sigs, p);
    if sigs != [] && p.stopped.None? {
      var rr :| rr in msg.answer && Gated(rr) && SlotOfRR(rr) !in p.covered;
      RRsetMembers(msg.answer, SlotOfRR(rr), rr);
    }
  }
}
