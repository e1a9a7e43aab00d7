/** The response cache shared by every listener (`internal/cache`). */
module ResponseCache {
  import opened Dns
  import opened Edns

  datatype Options = Options(enabled: bool, maxSize: int, ttlMin: int, ttlMax: int, negTTLMax: int, serveStaleMaxS: int)

  /** `New`: zero or invalid sizes fall back to defaults, a negative floor to zero. */
  function WithDefaults(o: Options): Options {
    o.(maxSize := if o.maxSize <= 0 then 4096 else o.maxSize,
       ttlMin := if o.ttlMin < 0 then 0 else o.ttlMin,
       ttlMax := if o.ttlMax <= 0 then 86400 else o.ttlMax)
  }

  // ---- keys

  /** The library's tables of type and class mnemonics; unregistered numbers have none. */
  datatype Mnemonics = Mnemonics(typeName: nat -> string, className: nat -> string)

  ghost predicate Proper(mn: Mnemonics) {
    && (forall t :: '|' !in mn.typeName(t)) && (forall c :: '|' !in mn.className(c))
    && (forall t, u :: mn.typeName(t) != "" && mn.typeName(t) == mn.typeName(u) ==> t == u)
    && (forall c, d :: mn.className(c) != "" && mn.className(c) == mn.className(d) ==> c == d)
  }

  function KeyOf(mn: Mnemonics, q: Question, dnssecOk: bool): string {
    q.name + "|" + mn.typeName(q.qtype) + "|" + mn.className(q.qclass) + "|" + if dnssecOk then "1" else "0"
  }

  function CacheKey(mn: Mnemonics, req: Msg): string
    requires req.question != []
  {
    KeyOf(mn, req.question[0], WantsDnssec(req))
  }

  /** The last separator splits uniquely, however many there are before it. */
  lemma SplitAtLast(a: string, x: string, b: string, y: string)
    requires a + "|" + x == b + "|" + y && '|' !in x && '|' !in y
    ensures a == b && x == y
  {
    var l, r := a + "|" + x, b + "|" + y;
    assert l[|a|] == '|' && r[|b|] == '|';
    assert forall i :: |a| < i < |l| ==> l[i] == x[i - |a| - 1];
    assert forall i :: |b| < i < |r| ==> r[i] == y[i - |b| - 1];
    assert a == l[..|a|] && b == r[..|b|] && x == l[|a| + 1..] && y == r[|b| + 1..];
  }

  /** Two keys are equal exactly when name, type mnemonic, class mnemonic and DO bit are, even though a
      name may contain the separator. */
  lemma KeysEqualIff(mn: Mnemonics, q: Question, qDO: bool, r: Question, rDO: bool)
    requires Proper(mn)
    ensures KeyOf(mn, q, qDO) == KeyOf(mn, r, rDO) <==>
            q.name == r.name && mn.typeName(q.qtype) == mn.typeName(r.qtype) && mn.className(q.qclass) == mn.className(r.qclass) && qDO == rDO
  {
    if KeyOf(mn, q, qDO) == KeyOf(mn, r, rDO) {
      var q2, r2 := q.name + "|" + mn.typeName(q.qtype), r.name + "|" + mn.typeName(r.qtype);
      var q3, r3 := q2 + "|" + mn.className(q.qclass), r2 + "|" + mn.className(r.qclass);
      SplitAtLast(q3, if qDO then "1" else "0", r3, if rDO then "1" else "0");
      SplitAtLast(q2, mn.className(q.qclass), r2, mn.className(r.qclass));
      SplitAtLast(q.name, mn.typeName(q.qtype), r.name, mn.typeName(r.qtype));
    }
  }

  predicate Registered(mn: Mnemonics, q: Question) {
    mn.typeName(q.qtype) != "" && mn.className(q.qclass) != ""
  }

  /** For registered types and classes a key identifies the question; unregistered types share one. */
  lemma KeyIdentifies(mn: Mnemonics, q: Question, qDO: bool, r: Question, rDO: bool)
    requires Proper(mn)
    ensures Registered(mn, q) ==> (KeyOf(mn, q, qDO) == KeyOf(mn, r, rDO) <==> q == r && qDO == rDO)
    ensures mn.typeName(q.qtype) == "" && mn.typeName(r.qtype) == "" && q.name == r.name && q.qclass == r.qclass ==>
            KeyOf(mn, q, qDO) == KeyOf(mn, r, qDO)
  {
    KeysEqualIff(mn, q, qDO, r, rDO);
  }

  // ---- lifetimes

  /** The records whose TTL bounds a positive entry: all but an OPT in the additional section, whose
      TTL field holds EDNS flags. */
  predicate Bounds(resp: Msg, rr: RR) {
    rr in resp.answer || rr in resp.authority || (rr in resp.additional && NotOpt(rr))
  }

  function LowerTtl(rrs: seq<RR>, skipOpt: bool, start: nat): nat {
    if rrs == [] then start
    else
      var rest, last := LowerTtl(rrs[..|rrs| - 1], skipOpt, start), rrs[|rrs| - 1];
      if (skipOpt ==> NotOpt(last)) && Ttl(last) < rest then Ttl(last) else rest
  }

  /** The scan starts from one day, and a result of one day is taken to mean "no record". */
  function MinTtlOf(resp: Msg): nat {
    var min := LowerTtl(resp.additional, true, LowerTtl(resp.authority, false, LowerTtl(resp.answer, false, 86400)));
    if min == 86400 then 60 else min
  }

  method LowerOver(rrs: seq<RR>, skipOpt: bool, start: nat) returns (min: nat)
    ensures min == LowerTtl(rrs, skipOpt, start)
  {
    min := start;
    for i := 0 to |rrs|
      invariant min == LowerTtl(rrs[..i], skipOpt, start)
    {
      assert rrs[..i + 1][..i] == rrs[..i];
      if skipOpt && RRType(rrs[i]) == TYPE_OPT {
        continue;
      }
      if Ttl(rrs[i]) < min {
        min := Ttl(rrs[i]);
      }
    }
    assert rrs[..|rrs|] == rrs;
  }

  method ExtractMinTTL(resp: Msg) returns (r: nat)
    ensures r == MinTtlOf(resp)
  {
    var min := LowerOver(resp.answer, false, 86400);
    min := LowerOver(resp.authority, false, min);
    min := LowerOver(resp.additional, true, min);
    return if min == 86400 then 60 else min;
  }

  lemma {:induction false} LowerTtlMeans(rrs: seq<RR>, skipOpt: bool, start: nat)
    ensures var r := LowerTtl(rrs, skipOpt, start);
            && r <= start
            && (r == start || exists rr :: rr in rrs && (skipOpt ==> NotOpt(rr)) && Ttl(rr) == r)
            && forall rr :: rr in rrs && (skipOpt ==> NotOpt(rr)) ==> r <= Ttl(rr)
  {
    if rrs != [] {
      var n := |rrs| - 1;
      LowerTtlMeans(rrs[..n], skipOpt, start);
      assert rrs == rrs[..n] + [rrs[n]];
    }
  }

  /** The minimum TTL, except that a minimum of one day or more counts as sixty seconds. */
  lemma MinTtlMeans(resp: Msg)
    ensures if forall rr :: Bounds(resp, rr) ==> Ttl(rr) >= 86400 then MinTtlOf(resp) == 60
            else (exists rr :: Bounds(resp, rr) && Ttl(rr) == MinTtlOf(resp)) && forall rr :: Bounds(resp, rr) ==> MinTtlOf(resp) <= Ttl(rr)
  {
    hide LowerTtl;
    var a := LowerTtl(resp.answer, false, 86400);
    var b := LowerTtl(resp.authority, false, a);
    LowerTtlMeans(resp.answer, false, 86400);
    LowerTtlMeans(resp.authority, false, a);
    LowerTtlMeans(resp.additional, true, b);
  }

  predicate IsNegative(resp: Msg) {
    resp.rcode == RCODE_NAME_ERROR || (resp.rcode == RCODE_SUCCESS && resp.answer == [])
  }

  function SoaTtl(rrs: seq<RR>): nat {
    if rrs == [] then 0 else if rrs[0].SoaRR? then rrs[0].ttl else SoaTtl(rrs[1..])
  }

  method NegTTL(resp: Msg) returns (r: nat)
    ensures r == SoaTtl(resp.authority)
  {
    for i := 0 to |resp.authority|
      invariant SoaTtl(resp.authority) == SoaTtl(resp.authority[i..])
    {
      assert resp.authority[i..][1..] == resp.authority[i + 1..];
      if resp.authority[i].SoaRR? {
        return resp.authority[i].ttl;
      }
    }
    return 0;
  }

  /** Seconds a response may be kept; None when it is not stored at all. */
  function Lifetime(o: Options, resp: Msg): Option<int> {
    if IsNegative(resp) then
      var ttl := SoaTtl(resp.authority);
      if o.negTTLMax <= 0 || ttl <= 0 then None
      else Some(if ttl > o.negTTLMax then o.negTTLMax else ttl)
    else
      var ttl := MinTtlOf(resp);
      var floored := if ttl < o.ttlMin then o.ttlMin else ttl;
      Some(if floored > o.ttlMax then o.ttlMax else floored)
  }

  /** A positive lifetime respects the ceiling, and beyond the configured floor never outlives the
      shortest-lived record; a negative one never outlives the SOA or the negative ceiling. */
  lemma LifetimeIsBounded(o: Options, resp: Msg)
    requires Lifetime(o, resp).Some?
    ensures var l := Lifetime(o, resp).value;
            if IsNegative(resp) then l <= o.negTTLMax && l <= SoaTtl(resp.authority) && l > 0
            else l <= o.ttlMax && forall rr :: Bounds(resp, rr) ==> l <= Ttl(rr) || l <= o.ttlMin
  {
    hide SoaTtl, MinTtlOf;
    MinTtlMeans(resp);
  }

  /** The smallest TTL over all records but OPT, or 60 when none is below a day. */
  ghost predicate SmallestTtl(resp: Msg, m: nat) {
    if forall rr :: Bounds(resp, rr) ==> Ttl(rr) >= 86400 then m == 60
    else (exists rr :: Bounds(resp, rr) && Ttl(rr) == m) && forall rr :: Bounds(resp, rr) ==> m <= Ttl(rr)
  }

  predicate FirstSoa(section: seq<RR>, i: nat) {
    i < |section| && section[i].SoaRR? && forall j :: 0 <= j < i ==> !section[j].SoaRR?
  }

  lemma {:induction false} SoaTtlAt(section: seq<RR>, i: nat)
    requires FirstSoa(section, i)
    ensures SoaTtl(section) == section[i].ttl
  {
    if i > 0 {
      SoaTtlAt(section[1..], i - 1);
    }
  }

  lemma {:induction false} NoSoa(section: seq<RR>)
    requires forall rr :: rr in section ==> !rr.SoaRR?
    ensures SoaTtl(section) == 0
  {
    if section != [] {
      assert section[0] in section;
      NoSoa(section[1..]);
    }
  }

  /** The lifetime, from the records: for an answer the smallest TTL, raised to the floor and cut to the
      ceiling; for NXDOMAIN and an empty NOERROR the TTL of the first SOA, cut to the negative ceiling, and
      none at all if that is zero, or there is no SOA, or negative caching is off. */
  lemma LifetimeIs(o: Options, resp: Msg)
    ensures resp.rcode != 3 && (resp.rcode == 0 ==> resp.answer != []) ==>
              exists m: nat :: SmallestTtl(resp, m) &&
                var floored := if m < o.ttlMin then o.ttlMin else m;
                Lifetime(o, resp) == Some(if floored > o.ttlMax then o.ttlMax else floored)
    ensures resp.rcode == 3 || (resp.rcode == 0 && resp.answer == []) ==>
              && (forall i: nat :: FirstSoa(resp.authority, i) ==>
                    var ttl := resp.authority[i].ttl;
                    Lifetime(o, resp) == if o.negTTLMax > 0 && ttl > 0 then Some(if ttl > o.negTTLMax then o.negTTLMax else ttl) else None)
              && ((forall rr :: rr in resp.authority ==> !rr.SoaRR?) ==> Lifetime(o, resp) == None)
  {
    hide SoaTtl, MinTtlOf;
    MinTtlMeans(resp);
    assert SmallestTtl(resp, MinTtlOf(resp));
    forall i: nat | FirstSoa(resp.authority, i) ensures SoaTtl(resp.authority) == resp.authority[i].ttl {
      SoaTtlAt(resp.authority, i);
    }
    if forall rr :: rr in resp.authority ==> !rr.SoaRR? {
      NoSoa(resp.authority);
    }
  }

  // ---- the cache as a timed map

  datatype Stored = Stored(msg: Msg, expiresAt: int)

  type View = map<string, Stored>

  function Hit(v: View, key: string, now: int): Option<Msg> {
    if key in v && now <= v[key].expiresAt then Some(v[key].msg) else None
  }

  function StaleHit(o: Options, v: View, key: string, now: int): Option<Msg> {
    if o.serveStaleMaxS > 0 && key in v && 0 < now - v[key].expiresAt <= o.serveStaleMaxS * SECOND then Some(v[key].msg) else None
  }

  function AfterGet(o: Options, v: View, key: string, now: int): View {
    if key in v && now > v[key].expiresAt && o.serveStaleMaxS <= 0 then v - {key} else v
  }

  /** The stored question is absent, or is the one the entry is keyed by. */
  predicate Keyable(req: Msg, resp: Msg) {
    req.question != [] && (resp.question == [] || (|resp.question| == 1 && SameQuestion(req.question[0], resp.question[0])))
  }

  predicate Stores(o: Options, req: Msg, resp: Msg) {
    o.enabled && Keyable(req, resp) && Lifetime(o, resp).Some?
  }

  ghost predicate Oldest(v: View, victim: string) {
    victim in v && forall k :: k in v ==> v[victim].expiresAt <= v[k].expiresAt
  }

  /** Making room: only for a new key in a full cache, and then an entry with the earliest expiry goes. */
  ghost predicate MakesRoom(o: Options, v: View, w: View, key: string) {
    if key !in v && |v| >= o.maxSize then exists victim :: Oldest(v, victim) && w == v - {victim} else w == v
  }

  ghost predicate PutStep(o: Options, mn: Mnemonics, v: View, v': View, req: Msg, resp: Msg, now: int) {
    if !Stores(o, req, resp) then v' == v
    else
      var key := CacheKey(mn, req);
      exists w :: MakesRoom(o, v, w, key) && v' == w[key := Stored(resp, now + Lifetime(o, resp).value * SECOND)]
  }

  /** Fresh and stale windows do not overlap and leave no gap between them. */
  lemma WindowsAreAdjacent(o: Options, v: View, key: string, now: int)
    requires key in v && o.serveStaleMaxS > 0
    ensures !(Hit(v, key, now).Some? && StaleHit(o, v, key, now).Some?)
    ensures Hit(v, key, now).Some? || StaleHit(o, v, key, now).Some? <==> now <= v[key].expiresAt + o.serveStaleMaxS * SECOND
  {
  }

  /** Put, then Get: what is put under a question of its own, with a lifetime, is found under every request
      with the same key from then on until exactly that lifetime is over, and after that as a stale entry
      for exactly the stale window. */
  lemma PutThenGet(o: Options, mn: Mnemonics, v: View, v': View, req: Msg, resp: Msg, at: int, other: Msg, now: int)
    requires PutStep(o, mn, v, v', req, resp, at) && o.enabled && req.question != [] && Lifetime(o, resp).Some?
    requires resp.question == [] || (|resp.question| == 1 && SameQuestion(req.question[0], resp.question[0]))
    requires other.question != [] && CacheKey(mn, other) == CacheKey(mn, req)
    ensures var key, end := CacheKey(mn, other), at + Lifetime(o, resp).value * 1_000_000_000;
            && Hit(v', key, now) == (if now <= end then Some(resp) else None)
            && StaleHit(o, v', key, now) == (if o.serveStaleMaxS > 0 && end < now <= end + o.serveStaleMaxS * 1_000_000_000 then Some(resp) else None)
  {
    hide MakesRoom, Lifetime, KeyOf, WantsDnssec, SameQuestion;
  }

  /** What is not put changes nothing: a cache that is off, no question, a reply to another question or to
      several, or no lifetime. */
  lemma NotPut(o: Options, mn: Mnemonics, v: View, v': View, req: Msg, resp: Msg, at: int)
    requires PutStep(o, mn, v, v', req, resp, at)
    requires !o.enabled || req.question == [] || Lifetime(o, resp).None? || |resp.question| > 1 ||
             (|resp.question| == 1 && !SameQuestion(req.question[0], resp.question[0]))
    ensures v' == v
  {
    hide MakesRoom, Lifetime, KeyOf, WantsDnssec, SameQuestion;
  }

  /** Every entry of v but that under one key is in v' too. */
  ghost predicate KeptBut(v: View, v': View, key: string) {
    forall k :: k in v && k != key ==> k in v' && v'[k] == v[k]
  }

  /** A put leaves every other entry alone, except that a new key in a full cache costs one entry with the
      earliest expiry. */
  lemma PutKeepsOthers(o: Options, mn: Mnemonics, v: View, v': View, req: Msg, resp: Msg, at: int)
    requires PutStep(o, mn, v, v', req, resp, at) && req.question != []
    ensures var key := CacheKey(mn, req);
            || KeptBut(v, v', key)
            || (key !in v && |v| >= o.maxSize && exists victim :: Oldest(v, victim) && victim !in v' && KeptBut(v, v', victim))
  {
    hide Lifetime, CacheKey, SameQuestion, Oldest;
    if Stores(o, req, resp) {
      var key, e := CacheKey(mn, req), Stored(resp, at + Lifetime(o, resp).value * SECOND);
      var w :| MakesRoom(o, v, w, key) && v' == w[key := e];
      if key !in v && |v| >= o.maxSize {
        var victim :| Oldest(v, victim) && w == v - {victim};
        OldestIsThere(v, victim);
      }
    }
  }

  lemma OldestIsThere(v: View, victim: string)
    requires Oldest(v, victim)
    ensures victim in v
  {
  }

  /** A lookup deletes the entry it finds expired, if it is no good as a stale one, and nothing else. */
  lemma GetDropsIff(o: Options, v: View, key: string, now: int)
    ensures var w := AfterGet(o, v, key, now);
            && (key in v ==> (key !in w <==> now > v[key].expiresAt && o.serveStaleMaxS <= 0))
            && forall k :: (k in w ==> k in v && w[k] == v[k]) && (k in v && k != key ==> k in w)
  {
  }

  /** Settings that make sense are kept; the others get a size of 4096, no floor, a ceiling of a day. */
  lemma DefaultsMean(o: Options)
    ensures var d := WithDefaults(o);
            && d.maxSize > 0 && d.ttlMin >= 0 && d.ttlMax > 0
            && (if o.maxSize > 0 then d.maxSize == o.maxSize else d.maxSize == 4096)
            && (o.ttlMin >= 0 ==> d.ttlMin == o.ttlMin) && (o.ttlMin < 0 ==> d.ttlMin == 0)
            && (if o.ttlMax > 0 then d.ttlMax == o.ttlMax else d.ttlMax == 86400)
            && d.enabled == o.enabled && d.negTTLMax == o.negTTLMax && d.serveStaleMaxS == o.serveStaleMaxS
  {
  }

  // ---- the program

  datatype Entry = Entry(resp: Message, expiresAt: int)

  class Cache {
    const o: Options
    const mn: Mnemonics
    var entries: map<string, Entry>
    ghost var repr: set<Message>

    /** Stored messages belong to the cache alone: nothing it hands out or takes in is one of them. */
    ghost predicate Valid()
      reads this
    {
      && o.maxSize > 0 && |entries| <= o.maxSize && "" !in entries
      && forall k :: k in entries ==> entries[k].resp in repr
    }

    ghost function Contents(): (v: View)
      reads this, repr
      requires Valid()
      ensures v.Keys == entries.Keys
    {
      map k | k in entries :: Stored(entries[k].resp.m, entries[k].expiresAt)
    }

    constructor (options: Options, mn: Mnemonics)
      ensures Valid() && o == WithDefaults(options) && this.mn == mn && repr == {} && entries == map[]
    {
      o, this.mn, entries, repr := WithDefaults(options), mn, map[], {};
    }

    method Get(req: Msg, now: int) returns (r: Message?)
      requires Valid()
      modifies this`entries
      ensures Valid()
      ensures r != null ==> fresh(r)
      ensures if !o.enabled || req.question == [] then r == null && Contents() == old(Contents())
              else
                && Contents() == AfterGet(o, old(Contents()), CacheKey(mn, req), now)
                && match Hit(old(Contents()), CacheKey(mn, req), now)
                   case None => r == null
                   case Some(m) => r != null && r.m == m
    {
      if !o.enabled || |req.question| == 0 {
        return null;
      }
      var key := CacheKey(mn, req);
      if key !in entries {
        return null;
      }
      var e := entries[key];
      if now > e.expiresAt {
        if o.serveStaleMaxS <= 0 {
          Remove(key);
        }
        return null;
      }
      r := e.resp.Copy();
    }

    method GetStale(req: Msg, now: int) returns (r: Message?)
      requires Valid()
      ensures r != null ==> fresh(r)
      ensures if !o.enabled || req.question == [] then r == null
              else match StaleHit(o, Contents(), CacheKey(mn, req), now)
                   case None => r == null
                   case Some(m) => r != null && r.m == m
    {
      if !o.enabled || o.serveStaleMaxS <= 0 || |req.question| == 0 {
        return null;
      }
      var key := CacheKey(mn, req);
      if key !in entries {
        return null;
      }
      var e := entries[key];
      var staleFor := now - e.expiresAt;
      if staleFor <= 0 || staleFor > o.serveStaleMaxS * SECOND {
        return null;
      }
      r := e.resp.Copy();
    }

    /** Entries are visited in any order; of several with the earliest expiry any one may be found. */
    method FindOldest() returns (oldestKey: string)
      requires "" !in entries && entries != map[]
      ensures oldestKey in entries && forall k :: k in entries ==> entries[oldestKey].expiresAt <= entries[k].expiresAt
    {
      oldestKey := "";
      var oldestTime := 0;
      var rest := entries.Keys;
      while rest != {}
        invariant rest <= entries.Keys
        invariant oldestKey == "" <==> rest == entries.Keys
        invariant oldestKey != "" ==> oldestKey in entries && oldestTime == entries[oldestKey].expiresAt
        invariant forall k :: k in entries.Keys - rest ==> oldestTime <= entries[k].expiresAt
        decreases rest
      {
        var k :| k in rest;
        rest := rest - {k};
        if oldestKey == "" || entries[k].expiresAt < oldestTime {
          oldestKey, oldestTime := k, entries[k].expiresAt;
        }
      }
      assert entries.Keys != {};
    }

    method EvictOldest()
      requires Valid() && entries != map[]
      modifies this`entries
      ensures Valid()
      ensures exists victim :: Oldest(old(Contents()), victim) && Contents() == old(Contents()) - {victim}
      ensures |entries| == |old(entries)| - 1
    {
      var oldestKey := FindOldest();
      ghost var v := Contents();
      assert Oldest(v, oldestKey);
      hide Oldest, Cache.Contents;
      Remove(oldestKey);
      assert Oldest(v, oldestKey) && Contents() == v - {oldestKey};
    }

    method Remove(key: string)
      requires Valid() && key in entries
      modifies this`entries
      ensures Valid() && |entries| == |old(entries)| - 1
      ensures Contents() == old(Contents()) - {key}
    {
      entries := entries - {key};
      assert entries.Keys == old(entries).Keys - {key};
      assert |entries| == |entries.Keys| && |old(entries)| == |old(entries).Keys|;
    }

    /** The seconds a response may be kept, or None if it is not cacheable at all. */
    method Kept(resp: Msg) returns (r: Option<int>)
      ensures r == Lifetime(o, resp)
    {
      hide MinTtlOf, SoaTtl;
      if IsNegative(resp) {
        if o.negTTLMax <= 0 {
          return None;
        }
        var ttl := NegTTL(resp);
        if ttl <= 0 {
          return None;
        }
        return Some(if ttl > o.negTTLMax then o.negTTLMax else ttl);
      }
      var ttl: int := ExtractMinTTL(resp);
      if ttl < o.ttlMin {
        ttl := o.ttlMin;
      }
      if ttl > o.ttlMax {
        ttl := o.ttlMax;
      }
      return Some(ttl);
    }

    method Put(req: Msg, resp: Message, now: int)
      requires Valid()
      modifies this
      ensures Valid() && fresh(repr - old(repr)) && repr >= old(repr)
      ensures PutStep(o, mn, old(Contents()), Contents(), req, resp.m, now)
    {
      hide MakesRoom, SameQuestion, Lifetime, KeyOf, Cache.Contents;
      if !o.enabled || |req.question| == 0 {
        return;
      }
      if |resp.m.question| > 1 {
        return;
      }
      if |resp.m.question| == 1 && !SameQuestion(req.question[0], resp.m.question[0]) {
        return;
      }
      var ttl := Kept(resp.m);
      if ttl.None? {
        return;
      }
      KeyIsNotEmpty(mn, req);
      Insert(CacheKey(mn, req), resp, now + ttl.value * SECOND);
    }

    method MakeRoom(key: string)
      requires Valid()
      modifies this`entries
      ensures Valid() && (key in entries || |entries| < o.maxSize)
      ensures MakesRoom(o, old(Contents()), Contents(), key)
    {
      hide Oldest;
      SameSize(Contents(), entries);
      if |entries| >= o.maxSize && key !in entries {
        EvictOldest();
      }
    }

    method Insert(key: string, resp: Message, expiresAt: int)
      requires Valid() && key != ""
      modifies this
      ensures Valid() && fresh(repr - old(repr)) && repr >= old(repr)
      ensures exists w :: MakesRoom(o, old(Contents()), w, key) && Contents() == w[key := Stored(resp.m, expiresAt)]
    {
      hide MakesRoom, Cache.Contents;
      MakeRoom(key);
      ghost var w := Contents();
      Write(key, resp, expiresAt);
      assert MakesRoom(o, old(Contents()), w, key) && Contents() == w[key := Stored(resp.m, expiresAt)];
    }

    method Write(key: string, resp: Message, expiresAt: int)
      requires Valid() && key != "" && (key in entries || |entries| < o.maxSize)
      modifies this
      ensures Valid() && fresh(repr - old(repr)) && repr >= old(repr)
      ensures Contents() == old(Contents())[key := Stored(resp.m, expiresAt)]
    {
      var copy := resp.Copy();
      SizeAfterUpdate(entries, key, Entry(copy, expiresAt));
      entries := entries[key := Entry(copy, expiresAt)];
      repr := repr + {copy};
    }
  }

  lemma KeyIsNotEmpty(mn: Mnemonics, req: Msg)
    ensures req.question != [] ==> CacheKey(mn, req) != ""
  {
  }

  lemma SameSize<A, B>(v: map<string, A>, w: map<string, B>)
    requires v.Keys == w.Keys
    ensures |v| == |w|
  {
    assert |v| == |v.Keys| && |w| == |w.Keys|;
  }

  lemma SizeAfterUpdate<A>(m: map<string, A>, k: string, a: A)
    ensures |m[k := a]| == if k in m then |m| else |m| + 1
  {
    assert m[k := a].Keys == m.Keys + {k};
    assert |m| == |m.Keys| && |m[k := a]| == |m[k := a].Keys|;
  }
}
