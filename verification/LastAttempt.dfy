/** A signature that was tested and is wrong need not end in a hard failure: one walk, from the anchored
    root down, whose verdict depends on the order of two signatures. */
module LastAttempt {
  import opened Dns
  import opened Signatures
  import opened Zones
  import opened Denial
  import opened KeyCache
  import opened Chain
  import opened Transparency

  const ROOT_KEY: Key := Key(".", 257, 8, "r")
  const X_KEY: Key := Key("x.", 257, 8, "1")
  const X_LEGACY_KEY: Key := Key("x.", 256, 8, "2")
  const A_KEY: Key := Key("a.x.", 257, 8, "a")
  const A_DS: RR := DsRR("a.x.", 60, Ds(3, 8, 2, "00"))

  /** Over the DS of `a.x.`: one signature that is wrong, and one whose key cannot be loaded. */
  const WRONG: Sig := Sig("a.x.", TYPE_DS, 8, 1, "x.", "wrong")
  const UNREAD: Sig := Sig("a.x.", TYPE_DS, 8, 2, "x.", "unread")

  function Good(owner: Name, rrtype: nat, tag: nat, signer: Name): Sig {
    Sig(owner, rrtype, 8, tag, signer, "good")
  }

  function Tag(k: Key): nat {
    if k.material == "r" then 10 else if k.material == "1" then 1 else if k.material == "2" then 2 else 3
  }

  function Sample(): Crypto {
    Crypto((k: Key) => Tag(k),
           (sig: Sig, now: int) => true,
           (sig: Sig, k: Key, rrs: seq<RR>) => if sig.data == "wrong" then BadSig else if sig.data == "unread" then BadKey else Ok,
           (k: Key, digestType: nat) => Some("00"),
           (n: Nsec3, name: Name) => false,
           (n: Nsec3, name: Name) => false)
  }

  /** The root and `x.` are signed and chained; only the signatures over the DS of `a.x.` are at issue. */
  function Zone(zone: Name, rrtype: nat, first: Sig, second: Sig): seq<RR> {
    if zone == "." && rrtype == TYPE_DNSKEY then [DnskeyRR(60, ROOT_KEY), RrsigRR(60, Good(".", TYPE_DNSKEY, 10, "."))]
    else if zone == "x." && rrtype == TYPE_DNSKEY then
      [DnskeyRR(60, X_KEY), DnskeyRR(60, X_LEGACY_KEY), RrsigRR(60, Good("x.", TYPE_DNSKEY, 1, "x."))]
    else if zone == "x." && rrtype == TYPE_DS then [DsRR("x.", 60, Ds(1, 8, 2, "00")), RrsigRR(60, Good("x.", TYPE_DS, 10, "."))]
    else if zone == "a.x." && rrtype == TYPE_DNSKEY then [DnskeyRR(60, A_KEY)]
    else if zone == "a.x." && rrtype == TYPE_DS then [A_DS, RrsigRR(60, first), RrsigRR(60, second)]
    else []
  }

  function Answers(first: Sig, second: Sig): Upstream {
    (zone: Name, rrtype: nat) => Reply(Msg(0, true, RCODE_SUCCESS, false, true, false, [Question(zone, rrtype, 1)], Zone(zone, rrtype, first, second), [], []))
  }

  function Site(first: Sig, second: Sig): Config {
    Config(Sample(),
           World((n: nat, zone: Name, rrtype: nat) => Answers(first, second)(zone, rrtype), (n: nat) => 0, (n: nat, es: Entries) => es),
           [Anchor(10, 8, 2, "00")], true)
  }

  // ---- reading the sections

  lemma OneMore(rrs: seq<RR>, rr: RR, rrtype: nat)
    ensures RecordsOf(rrs + [rr], rrtype) == RecordsOf(rrs, rrtype) + if !rr.RrsigRR? && RRType(rr) == rrtype then [rr] else []
    ensures SigsOver(rrs + [rr], rrtype) == SigsOver(rrs, rrtype) + if rr.RrsigRR? && rr.sig.typeCovered == rrtype then [rr.sig] else []
    ensures KeysOf(rrs + [rr]) == KeysOf(rrs) + if rr.DnskeyRR? then [rr.key] else []
  {
    assert (rrs + [rr])[..|rrs|] == rrs;
  }

  lemma Nothing(rrtype: nat)
    ensures RecordsOf([], rrtype) == [] && SigsOver([], rrtype) == [] && KeysOf([]) == []
  {
  }

  lemma Two(a: RR, b: RR, rrtype: nat)
    requires !a.RrsigRR? && RRType(a) == rrtype && b.RrsigRR? && b.sig.typeCovered == rrtype
    ensures RecordsOf([a, b], rrtype) == [a] && SigsOver([a, b], rrtype) == [b.sig]
  {
    hide RecordsOf, SigsOver, KeysOf;
    Nothing(rrtype);
    OneMore([], a, rrtype);
    OneMore([a], b, rrtype);
    assert [] + [a] == [a] && [a] + [b] == [a, b];
  }

  lemma RootZone(first: Sig, second: Sig)
    ensures Served(Answers(first, second), ".", TYPE_DNSKEY) == Fetched([DnskeyRR(60, ROOT_KEY)], [Good(".", TYPE_DNSKEY, 10, ".")])
    ensures KeysOf([DnskeyRR(60, ROOT_KEY)]) == [ROOT_KEY]
  {
    hide RecordsOf, SigsOver, KeysOf;
    Nothing(TYPE_DNSKEY);
    OneMore([], DnskeyRR(60, ROOT_KEY), TYPE_DNSKEY);
    assert [] + [DnskeyRR(60, ROOT_KEY)] == [DnskeyRR(60, ROOT_KEY)];
    Two(DnskeyRR(60, ROOT_KEY), RrsigRR(60, Good(".", TYPE_DNSKEY, 10, ".")), TYPE_DNSKEY);
  }

  lemma ParentKeys(first: Sig, second: Sig)
    ensures var keys := [DnskeyRR(60, X_KEY), DnskeyRR(60, X_LEGACY_KEY)];
            Served(Answers(first, second), "x.", TYPE_DNSKEY) == Fetched(keys, [Good("x.", TYPE_DNSKEY, 1, "x.")]) && KeysOf(keys) == [X_KEY, X_LEGACY_KEY]
  {
    hide RecordsOf, SigsOver, KeysOf;
    var a, b, c := DnskeyRR(60, X_KEY), DnskeyRR(60, X_LEGACY_KEY), RrsigRR(60, Good("x.", TYPE_DNSKEY, 1, "x."));
    Nothing(TYPE_DNSKEY);
    OneMore([], a, TYPE_DNSKEY);
    OneMore([a], b, TYPE_DNSKEY);
    OneMore([a, b], c, TYPE_DNSKEY);
    assert [] + [a] == [a] && [a] + [b] == [a, b] && [a, b] + [c] == [a, b, c];
  }

  lemma ChildKeys(first: Sig, second: Sig)
    ensures Served(Answers(first, second), "a.x.", TYPE_DNSKEY) == Fetched([DnskeyRR(60, A_KEY)], []) && KeysOf([DnskeyRR(60, A_KEY)]) == [A_KEY]
  {
    hide RecordsOf, SigsOver, KeysOf;
    Nothing(TYPE_DNSKEY);
    OneMore([], DnskeyRR(60, A_KEY), TYPE_DNSKEY);
    assert [] + [DnskeyRR(60, A_KEY)] == [DnskeyRR(60, A_KEY)];
  }

  lemma ChildDs(first: Sig, second: Sig)
    requires first.typeCovered == TYPE_DS && second.typeCovered == TYPE_DS
    ensures RecordsOf(Zone("x.", TYPE_DS, first, second), TYPE_DS) == [DsRR("x.", 60, Ds(1, 8, 2, "00"))]
    ensures SigsOver(Zone("x.", TYPE_DS, first, second), TYPE_DS) == [Good("x.", TYPE_DS, 10, ".")]
    ensures RecordsOf(Zone("a.x.", TYPE_DS, first, second), TYPE_DS) == [A_DS] && SigsOver(Zone("a.x.", TYPE_DS, first, second), TYPE_DS) == [first, second]
  {
    hide RecordsOf, SigsOver, KeysOf;
    Two(DsRR("x.", 60, Ds(1, 8, 2, "00")), RrsigRR(60, Good("x.", TYPE_DS, 10, ".")), TYPE_DS);
    var a, b, c := A_DS, RrsigRR(60, first), RrsigRR(60, second);
    Two(a, b, TYPE_DS);
    OneMore([a, b], c, TYPE_DS);
    assert [a, b] + [c] == [a, b, c];
  }

  // ---- the chain above

  lemma ZonesAbove()
    ensures Parent("a.x.") == "x." && Parent("x.") == "." && Labels("x.") == 1
  {
    assert "a.x."[1..] == ".x." && ".x."[1..] == "x." && "x."[1..] == "." && "."[1..] == "";
    assert AfterFirstDot("x.") == "" && AfterFirstDot("a.x.") == "x.";
  }

  lemma ChainToX(first: Sig, second: Sig)
    requires first.typeCovered == TYPE_DS && second.typeCovered == TYPE_DS
    ensures ServesChain(Site(first, second), Answers(first, second), 0, "x.")
  {
    hide RecordsOf, SigsOver, KeysOf, Served, Parent;
    var cf, a := Site(first, second), Answers(first, second);
    ZonesAbove();
    RootZone(first, second);
    ParentKeys(first, second);
    ChildDs(first, second);
    var rootSig, xSig, dsSig := Good(".", TYPE_DNSKEY, 10, "."), Good("x.", TYPE_DNSKEY, 1, "x."), Good("x.", TYPE_DS, 10, ".");
    assert HexEq("00", "00");
    assert MatchesAnchor(cf.crypto, ROOT_KEY, cf.anchors[0]);
    assert Anchored(cf.crypto, cf.anchors, ROOT_KEY);
    var root := Served(a, ".", TYPE_DNSKEY);
    assert Tests(cf.crypto, 0, root.sigs, KeysOf(root.rrset), root.rrset, Ok, rootSig, ROOT_KEY);
    assert ServesChain(cf, a, 0, ".");
    var x, ds := Served(a, "x.", TYPE_DNSKEY), DsRR("x.", 60, Ds(1, 8, 2, "00"));
    assert Tests(cf.crypto, 0, [dsSig], [ROOT_KEY], [ds], Ok, dsSig, ROOT_KEY);
    assert ds in [ds] && MatchesDs(cf.crypto, X_KEY, ds.ds);
    assert X_KEY in KeysOf(x.rrset) && Tests(cf.crypto, 0, x.sigs, KeysOf(x.rrset), x.rrset, Ok, xSig, X_KEY);
  }

  // ---- the two attempts

  lemma OneAttempt(sig: Sig, rrset: seq<RR>)
    requires sig == WRONG || sig == UNREAD
    ensures KeyAttempts(Sample(), sig, [X_KEY, X_LEGACY_KEY], rrset) == [if sig == WRONG then BadSig else BadKey]
  {
    var keys, one := [X_KEY, X_LEGACY_KEY], [X_KEY];
    assert one[..0] == [] && keys[..1] == one;
    assert KeyAttempts(Sample(), sig, one, rrset) == if sig == WRONG then [BadSig] else [];
  }

  lemma BothAttempts(first: Sig, second: Sig, rrset: seq<RR>)
    requires {first, second} == {WRONG, UNREAD}
    ensures Attempts(Sample(), 0, [first, second], [X_KEY, X_LEGACY_KEY], rrset) ==
            [if first == WRONG then BadSig else BadKey, if second == WRONG then BadSig else BadKey]
  {
    hide KeyAttempts;
    assert first in {WRONG, UNREAD} && second in {WRONG, UNREAD};
    OneAttempt(first, rrset);
    OneAttempt(second, rrset);
    var one, two := [first], [first, second];
    assert one[..0] == [] && two[..1] == one;
    assert Attempts(Sample(), 0, one, [X_KEY, X_LEGACY_KEY], rrset) == KeyAttempts(Sample(), first, [X_KEY, X_LEGACY_KEY], rrset);
  }

  lemma Judged(first: Sig, second: Sig)
    requires {first, second} == {WRONG, UNREAD} && WRONG != UNREAD && first != second
    ensures PlainWalk(Site(first, second), Answers(first, second), 0, "a.x.", 0) == if second == UNREAD then Insecure else Failed(DsNotAuthentic)
  {
    hide RecordsOf, SigsOver, KeysOf, Served, Attempts, SelfSigned, EntryPoints, DeniesDS, Parent, ServesChain;
    var cf, a := Site(first, second), Answers(first, second);
    assert first in {WRONG, UNREAD} && second in {WRONG, UNREAD};
    ZonesAbove();
    ChainToX(first, second);
    ParentKeys(first, second);
    ChildKeys(first, second);
    ChildDs(first, second);
    BothAttempts(first, second, [A_DS]);
    var p := PlainWalk(cf, a, 0, "x.", 1);
    KeysIffServed(cf, a, 0, "x.", 1, p);
    assert p == Keys([X_KEY, X_LEGACY_KEY]);
  }

  lemma SiteIsConsistent(first: Sig, second: Sig)
    ensures Consistent(Site(first, second), Answers(first, second), 0)
  {
    hide Coherent;
  }

  /** The walk to `a.x.` ends insecure if the signature whose key cannot be loaded comes last, and fails
      hard if the wrong one does, from an empty key cache or any that holds what the upstream serves. */
  lemma BadSignatureCanEndInsecure(s: Session)
    requires Coherent(Answers(WRONG, UNREAD), s.entries) && Coherent(Answers(UNREAD, WRONG), s.entries)
    ensures Attempts(Sample(), 0, [WRONG, UNREAD], [X_KEY, X_LEGACY_KEY], [A_DS]) == [BadSig, BadKey]
    ensures Walk(Site(WRONG, UNREAD), s, "a.x.", 0).0 == Insecure
    ensures Walk(Site(UNREAD, WRONG), s, "a.x.", 0).0 == Failed(DsNotAuthentic)
  {
    hide Walk, PlainWalk, Coherent, Consistent, Attempts;
    assert WRONG != UNREAD by {
      assert WRONG.keyTag != UNREAD.keyTag;
    }
    BothAttempts(WRONG, UNREAD, [A_DS]);
    Judged(WRONG, UNREAD);
    Judged(UNREAD, WRONG);
    SiteIsConsistent(WRONG, UNREAD);
    SiteIsConsistent(UNREAD, WRONG);
    var (r, s') := Walk(Site(WRONG, UNREAD), s, "a.x.", 0);
    WalkIsTransparent(Site(WRONG, UNREAD), Answers(WRONG, UNREAD), 0, s, "a.x.", 0, r, s');
    var (q, t') := Walk(Site(UNREAD, WRONG), s, "a.x.", 0);
    WalkIsTransparent(Site(UNREAD, WRONG), Answers(UNREAD, WRONG), 0, s, "a.x.", 0, q, t');
  }
}
