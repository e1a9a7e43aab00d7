/** Every history of the response cache refines a map that remembers the latest `Put` of each key. */
module CacheHistory {
  import opened Dns
  import opened Edns
  import opened ResponseCache

  /** `Drop` is the second half of a lookup that found an expired entry: it runs under a lock of its own,
      so by then the key may hold something else. */
  datatype Op =
    | Store(req: Msg, resp: Msg, now: int, victim: string)
    | Lookup(req: Msg, now: int)
    | Drop(key: string)
    | Clear

  ghost function Apply(o: Options, mn: Mnemonics, v: View, op: Op): View {
    match op
    case Store(req, resp, now, victim) =>
      if !Stores(o, req, resp) then v
      else
        var key := CacheKey(mn, req);
        var e := Stored(resp, now + Lifetime(o, resp).value * SECOND);
        if key in v || |v| < o.maxSize then v[key := e]
        else if Oldest(v, victim) then (v - {victim})[key := e]
        else v
    case Lookup(req, now) => v
    case Drop(key) => v - {key}
    case Clear => map[]
  }

  ghost function Run(o: Options, mn: Mnemonics, ops: seq<Op>): View {
    if ops == [] then map[] else Apply(o, mn, Run(o, mn, ops[..|ops| - 1]), ops[|ops| - 1])
  }

  ghost function NewEntry(o: Options, resp: Msg, now: int): Stored
    requires Lifetime(o, resp).Some?
  {
    Stored(resp, now + Lifetime(o, resp).value * SECOND)
  }

  lemma ApplyIs(o: Options, mn: Mnemonics, v: View, req: Msg, resp: Msg, now: int, victim: string)
    ensures var w := Apply(o, mn, v, Store(req, resp, now, victim));
            if !Stores(o, req, resp) then w == v
            else if CacheKey(mn, req) in v || |v| < o.maxSize then w == v[CacheKey(mn, req) := NewEntry(o, resp, now)]
            else Oldest(v, victim) ==> w == (v - {victim})[CacheKey(mn, req) := NewEntry(o, resp, now)]
  {
    hide Lifetime, KeyOf, Oldest, SameQuestion, WantsDnssec;
  }

  /** What `Cache.Put` does is one of these operations, for some victim. */
  lemma PutIsStore(o: Options, mn: Mnemonics, v: View, v': View, req: Msg, resp: Msg, now: int)
    requires PutStep(o, mn, v, v', req, resp, now)
    ensures exists victim :: v' == Apply(o, mn, v, Store(req, resp, now, victim))
  {
    hide Apply, Lifetime, CacheKey, Oldest, SameQuestion;
    if Stores(o, req, resp) {
      var key, e := CacheKey(mn, req), NewEntry(o, resp, now);
      var w :| MakesRoom(o, v, w, key) && v' == w[key := e];
      if key !in v && |v| >= o.maxSize {
        var victim :| Oldest(v, victim) && w == v - {victim};
        ApplyIs(o, mn, v, req, resp, now, victim);
      } else {
        ApplyIs(o, mn, v, req, resp, now, "");
      }
    } else {
      ApplyIs(o, mn, v, req, resp, now, "");
    }
  }

  /** The simple timed map: no size limit, no eviction, no lazy deletion. */
  ghost predicate Sets(o: Options, mn: Mnemonics, op: Op, key: string) {
    op.Store? && Stores(o, op.req, op.resp) && CacheKey(mn, op.req) == key
  }

  ghost function Remembered(o: Options, mn: Mnemonics, latest: Option<Stored>, op: Op, key: string): Option<Stored> {
    if op.Clear? then None
    else if Sets(o, mn, op, key) then Some(Stored(op.resp, op.now + Lifetime(o, op.resp).value * SECOND))
    else latest
  }

  ghost function Latest(o: Options, mn: Mnemonics, ops: seq<Op>, key: string): Option<Stored> {
    if ops == [] then None
    else Remembered(o, mn, Latest(o, mn, ops[..|ops| - 1], key), ops[|ops| - 1], key)
  }

  /** The cache never exceeds its size, and whatever it holds is the latest `Put` of that key. */
  lemma {:induction false} RefinesTimedMap(o: Options, mn: Mnemonics, ops: seq<Op>, key: string)
    requires o.maxSize > 0
    ensures var v := Run(o, mn, ops); |v| <= o.maxSize && (key in v ==> Latest(o, mn, ops, key) == Some(v[key]))
  {
    hide Apply, Remembered;
    if ops != [] {
      var n := |ops| - 1;
      RefinesTimedMap(o, mn, ops[..n], key);
      var v := Run(o, mn, ops[..n]);
      StepSize(o, mn, v, ops[n]);
      StepRefines(o, mn, v, ops[n], key, Latest(o, mn, ops[..n], key));
    }
  }

  lemma StepRefines(o: Options, mn: Mnemonics, v: View, op: Op, key: string, latest: Option<Stored>)
    requires key in v ==> latest == Some(v[key])
    ensures var w := Apply(o, mn, v, op); key in w ==> Remembered(o, mn, latest, op, key) == Some(w[key])
  {
    hide Lifetime, KeyOf, SameQuestion, Oldest;
  }

  lemma StepSize(o: Options, mn: Mnemonics, v: View, op: Op)
    requires o.maxSize > 0 && |v| <= o.maxSize
    ensures |Apply(o, mn, v, op)| <= o.maxSize
  {
    hide Lifetime, KeyOf, SameQuestion;
    if op.Store? && Stores(o, op.req, op.resp) {
      var key, e := CacheKey(mn, op.req), Stored(op.resp, op.now + Lifetime(o, op.resp).value * SECOND);
      SizeAfterUpdate(v, key, e);
      SizeAfterUpdate(v - {op.victim}, key, e);
      SizeAfterRemove(v, op.victim);
    } else if op.Drop? {
      SizeAfterRemove(v, op.key);
    }
  }

  lemma SizeAfterRemove<A>(m: map<string, A>, k: string)
    ensures |m - {k}| == if k in m then |m| - 1 else |m|
  {
    assert (m - {k}).Keys == m.Keys - {k};
    assert |m - {k}| == |(m - {k}).Keys| && |m| == |m.Keys|;
  }

  /** The latest `Put` of a key: nothing after it stores under the key or clears the cache. */
  lemma {:induction false} LatestMeans(o: Options, mn: Mnemonics, ops: seq<Op>, key: string)
    requires Latest(o, mn, ops, key).Some?
    ensures exists i :: 0 <= i < |ops| && Sets(o, mn, ops[i], key) && Latest(o, mn, ops, key).value == NewEntry(o, ops[i].resp, ops[i].now) &&
              forall j :: i < j < |ops| ==> !ops[j].Clear? && !Sets(o, mn, ops[j], key)
  {
    hide Lifetime, KeyOf, SameQuestion;
    var n := |ops| - 1;
    if !Sets(o, mn, ops[n], key) {
      LatestMeans(o, mn, ops[..n], key);
      var i :| 0 <= i < n && Sets(o, mn, ops[..n][i], key) && Latest(o, mn, ops[..n], key).value == NewEntry(o, ops[..n][i].resp, ops[..n][i].now) &&
        forall j :: i < j < n ==> !ops[..n][j].Clear? && !Sets(o, mn, ops[..n][j], key);
      assert ops[i] == ops[..n][i];
      forall j | i < j < |ops| ensures !ops[j].Clear? && !Sets(o, mn, ops[j], key) {
        assert j < n ==> ops[j] == ops[..n][j];
      }
    }
  }

  /** Questions that share a key: the same name, and types and classes with the same mnemonics. */
  predicate SameKeyed(mn: Mnemonics, a: Question, b: Question) {
    a.name == b.name && mn.typeName(a.qtype) == mn.typeName(b.qtype) && mn.className(a.qclass) == mn.className(b.qclass)
  }

  /** A hit is the latest surviving `Put` for the same name, DO bit, and type and class as far as their
      mnemonics tell them apart: for registered ones, the same question. */
  lemma HitIsLatestPut(o: Options, mn: Mnemonics, ops: seq<Op>, req: Msg, now: int)
    requires Proper(mn) && o.maxSize > 0 && req.question != []
    requires Hit(Run(o, mn, ops), CacheKey(mn, req), now).Some?
    ensures exists i ::
      && 0 <= i < |ops| && ops[i].Store? && Stores(o, ops[i].req, ops[i].resp)
      && SameKeyed(mn, ops[i].req.question[0], req.question[0]) && WantsDnssec(ops[i].req) == WantsDnssec(req)
      && (Registered(mn, req.question[0]) ==> ops[i].req.question[0] == req.question[0])
      && Hit(Run(o, mn, ops), CacheKey(mn, req), now) == Some(ops[i].resp)
      && forall j :: i < j < |ops| ==> !ops[j].Clear? && !Sets(o, mn, ops[j], CacheKey(mn, req))
  {
    hide Lifetime, KeyOf, Run, Latest, WantsDnssec, Proper;
    var key := CacheKey(mn, req);
    RefinesTimedMap(o, mn, ops, key);
    LatestMeans(o, mn, ops, key);
    var i :| 0 <= i < |ops| && Sets(o, mn, ops[i], key) && Latest(o, mn, ops, key).value == NewEntry(o, ops[i].resp, ops[i].now) &&
      forall j :: i < j < |ops| ==> !ops[j].Clear? && !Sets(o, mn, ops[j], key);
    KeysEqualIff(mn, req.question[0], WantsDnssec(req), ops[i].req.question[0], WantsDnssec(ops[i].req));
    KeyIdentifies(mn, req.question[0], WantsDnssec(req), ops[i].req.question[0], WantsDnssec(ops[i].req));
  }
}
