/** DNS names, records and messages, as far as the forwarder looks inside them. */
module Dns {

  datatype Option<+T> = None | Some(value: T)

  /** Times are in nanoseconds. */
  const SECOND: int := 1_000_000_000

  const TYPE_NS: nat := 2
  const TYPE_CNAME: nat := 5
  const TYPE_SOA: nat := 6
  const TYPE_DNAME: nat := 39
  const TYPE_OPT: nat := 41
  const TYPE_DS: nat := 43
  const TYPE_RRSIG: nat := 46
  const TYPE_NSEC: nat := 47
  const TYPE_DNSKEY: nat := 48
  const TYPE_NSEC3: nat := 50

  const RCODE_SUCCESS: nat := 0
  const RCODE_FORMAT_ERROR: nat := 1
  const RCODE_SERVER_FAILURE: nat := 2
  const RCODE_NAME_ERROR: nat := 3
  const RCODE_REFUSED: nat := 5

  /** Presentation form, without escapes. */
  type Name = string

  const ROOT: Name := "."

  function LowerChar(c: char): char {
    if 'A' <= c <= 'Z' then (c as int + 32) as char else c
  }

  function Lower(s: string): (r: string)
    ensures |r| == |s|
    ensures forall i :: 0 <= i < |s| ==> r[i] == LowerChar(s[i])
  {
    seq(|s|, i requires 0 <= i < |s| => LowerChar(s[i]))
  }

  function EndsWithDot(s: string): bool {
    |s| > 0 && s[|s| - 1] == '.'
  }

  /** Lower case with a trailing dot: two spellings of one name become equal. */
  function Canonical(name: Name): (r: Name)
    ensures EndsWithDot(r)
  {
    var l := Lower(name);
    if EndsWithDot(l) then l else l + "."
  }

  lemma CanonicalIdempotent(name: Name)
    ensures Canonical(Canonical(name)) == Canonical(name)
  {
    var c := Canonical(name);
    assert forall i :: 0 <= i < |c| ==> LowerChar(c[i]) == c[i];
    assert Lower(c) == c;
  }

  datatype Key = Key(owner: Name, flags: nat, algorithm: nat, material: string)

  datatype Sig = Sig(owner: Name, typeCovered: nat, algorithm: nat, keyTag: nat, signer: Name, data: string)

  datatype Nsec3 = Nsec3(owner: Name, hashParams: string, flags: nat, bitmap: seq<nat>)

  datatype Ds = Ds(keyTag: nat, algorithm: nat, digestType: nat, digest: string)

  /** The constructor is the Go type of a record; `RRType` is the type in its header.  `OtherRR`
      carries any header type, so the two can disagree there, as they can in Go. */
  datatype RR =
    | DnskeyRR(ttl: nat, key: Key)
    | DsRR(owner: Name, ttl: nat, ds: Ds)
    | RrsigRR(ttl: nat, sig: Sig)
    | NsecRR(owner: Name, ttl: nat, bitmap: seq<nat>)
    | Nsec3RR(ttl: nat, nsec3: Nsec3)
    | SoaRR(owner: Name, ttl: nat)
    | CnameRR(owner: Name, ttl: nat, target: Name)
    | DnameRR(owner: Name, ttl: nat, target: Name)
    | OptRR(dnssecOk: bool, udpSize: nat, options: seq<string>)
    | OtherRR(owner: Name, ttl: nat, rrtype: nat, rdata: string)

  function RRType(rr: RR): nat {
    match rr
    case DnskeyRR(_, _) => TYPE_DNSKEY
    case DsRR(_, _, _) => TYPE_DS
    case RrsigRR(_, _) => TYPE_RRSIG
    case NsecRR(_, _, _) => TYPE_NSEC
    case Nsec3RR(_, _) => TYPE_NSEC3
    case SoaRR(_, _) => TYPE_SOA
    case CnameRR(_, _, _) => TYPE_CNAME
    case DnameRR(_, _, _) => TYPE_DNAME
    case OptRR(_, _, _) => TYPE_OPT
    case OtherRR(_, _, t, _) => t
  }

  function Owner(rr: RR): Name {
    match rr
    case DnskeyRR(_, key) => key.owner
    case RrsigRR(_, sig) => sig.owner
    case Nsec3RR(_, n3) => n3.owner
    case OptRR(_, _, _) => ROOT
    case _ => rr.owner
  }

  /** The TTL field of an OPT pseudo-record holds the EDNS flags; DO is bit 15. */
  function Ttl(rr: RR): nat {
    if rr.OptRR? then (if rr.dnssecOk then 0x8000 else 0) else rr.ttl
  }

  datatype Question = Question(name: Name, qtype: nat, qclass: nat)

  datatype Msg = Msg(
    id: nat,
    isResponse: bool,
    rcode: nat,
    authenticated: bool,
    recursionAvailable: bool,
    truncated: bool,
    question: seq<Question>,
    answer: seq<RR>,
    authority: seq<RR>,
    additional: seq<RR>)

  /** A locally built reply: an empty answer that echoes the query's ID and question. */
  function Synthesized(query: Msg, rcode: nat): Msg {
    Msg(query.id, true, rcode, false, false, false, query.question, [], [], [])
  }

  /** The order-preserving filter that every section clean-up in the forwarder amounts to. */
  function Filter<T(!new)>(keep: T -> bool, xs: seq<T>): (r: seq<T>)
    ensures |r| <= |xs|
    ensures forall x :: x in r <==> x in xs && keep(x)
  {
    if xs == [] then []
    else Filter(keep, xs[..|xs| - 1]) + (if keep(xs[|xs| - 1]) then [xs[|xs| - 1]] else [])
  }

  /** Peeling a last element, the shape every loop over a prefix needs. */
  lemma FilterSnoc<T(!new)>(keep: T -> bool, xs: seq<T>, i: nat)
    requires i < |xs|
    ensures Filter(keep, xs[..i + 1]) == Filter(keep, xs[..i]) + (if keep(xs[i]) then [xs[i]] else [])
  {
    assert xs[..i + 1][..i] == xs[..i];
  }

  /** A filter that every element passes changes nothing. */
  lemma {:induction false} FilterAll<T(!new)>(keep: T -> bool, xs: seq<T>)
    requires forall x :: x in xs ==> keep(x)
    ensures Filter(keep, xs) == xs
  {
    if xs != [] {
      var n := |xs| - 1;
      FilterAll(keep, xs[..n]);
      assert xs == xs[..n] + [xs[n]];
    }
  }

  /** Same name up to case, same type, same class: the test every correlation guard makes. */
  predicate SameQuestion(a: Question, b: Question) {
    a.qtype == b.qtype && a.qclass == b.qclass && Canonical(a.name) == Canonical(b.name)
  }

  /** A reply answers a query when both carry exactly one question and it is the same one. */
  predicate MatchesQuery(query: Msg, resp: Msg) {
    |query.question| == 1 && |resp.question| == 1 && SameQuestion(query.question[0], resp.question[0])
  }

  /** The letters of a name, without a trailing dot. */
  function Bare(name: Name): Name {
    if EndsWithDot(name) then name[..|name| - 1] else name
  }

  /** The same name: letter by letter up to case, with or without the trailing dot. */
  predicate SameName(a: Name, b: Name) {
    |Bare(a)| == |Bare(b)| && forall i :: 0 <= i < |Bare(a)| ==> LowerChar(Bare(a)[i]) == LowerChar(Bare(b)[i])
  }

  lemma CanonicalIs(name: Name)
    ensures |Canonical(name)| == |Bare(name)| + 1 && forall i :: 0 <= i < |Bare(name)| ==> Canonical(name)[i] == LowerChar(Bare(name)[i])
  {
    assert name != "" ==> (LowerChar(name[|name| - 1]) == '.' <==> name[|name| - 1] == '.');
  }

  lemma CanonicalIff(a: Name, b: Name)
    ensures Canonical(a) == Canonical(b) <==> SameName(a, b)
  {
    CanonicalIs(a);
    CanonicalIs(b);
    var c, d := Canonical(a), Canonical(b);
    if SameName(a, b) {
      assert c[|c| - 1] == '.' && d[|d| - 1] == '.';
      assert c == d;
    }
    if c == d {
      forall i | 0 <= i < |Bare(a)| ensures LowerChar(Bare(a)[i]) == LowerChar(Bare(b)[i]) {
        assert c[i] == d[i];
      }
    }
  }

  /** Two questions are taken for the same exactly if name, type and class are, the name up to case. */
  lemma SameQuestionIff(a: Question, b: Question)
    ensures SameQuestion(a, b) <==> SameName(a.name, b.name) && a.qtype == b.qtype && a.qclass == b.qclass
  {
    hide Canonical, SameName;
    CanonicalIff(a.name, b.name);
  }
}
