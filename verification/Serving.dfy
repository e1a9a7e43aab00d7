/** Every run of the query pipelines: the Mode 1 listeners (UDP and TCP) and the Mode 2 listener (DoT)
    share one cache, one policy and one set of counters, and each list may be reloaded at any moment.
    A step below is what one goroutine does under one lock: the allowlist and the blocklist have locks of
    their own, and screening an answer takes the allowlist's once for every name it looks at. */
module Serving {
  import opened Dns
  import opened Edns
  import opened ResponseCache
  import opened Policy
  import opened Framing
  import opened Validation
  import CacheHistory
  import Lists

  datatype Mode = Udp | Tcp | Dot

  /** The server's fixed parts.  The local answers of the discovery zone, packing and truncation are
      parameters. */
  datatype Setup = Setup(
    o: ResponseCache.Options,
    mn: Mnemonics,
    hasCache: bool,
    validates: bool,
    ddr: Msg -> Option<Msg>,
    pack: Packer,
    truncate: (Msg, nat) -> Msg)

  datatype Upstream = Failed | Replied(raw: Msg, verdict: Verdict)

  // ---- what the handlers decide

  /** What is answered before the blocklist is asked. */
  ghost function LocalFirst(setup: Setup, mode: Mode, rules: Rules, query: Msg): Option<Msg> {
    if |query.question| != 1 then Some(Synthesized(query, RCODE_FORMAT_ERROR))
    else if mode.Dot? && setup.ddr(query).Some? then setup.ddr(query)
    else RefusalByAllow(rules, query)
  }

  /** The answer given without looking further, when the lists stand still. */
  ghost function Local(setup: Setup, mode: Mode, rules: Rules, query: Msg): Option<Msg> {
    if |query.question| != 1 then Some(Synthesized(query, RCODE_FORMAT_ERROR))
    else if mode.Dot? && setup.ddr(query).Some? then setup.ddr(query)
    else Refusal(rules, query)
  }

  function Found(setup: Setup, v: View, query: Msg, now: int): Option<Msg> {
    if setup.hasCache && setup.o.enabled && query.question != [] then Hit(v, CacheKey(setup.mn, query), now) else None
  }

  function FoundStale(setup: Setup, v: View, query: Msg, now: int): Option<Msg> {
    if setup.hasCache && setup.o.enabled && query.question != [] then StaleHit(setup.o, v, CacheKey(setup.mn, query), now) else None
  }

  /** Mode 1 may answer a failure with a stale entry; Mode 2 never does. */
  function Failure(setup: Setup, mode: Mode, v: View, query: Msg, now: int): Msg {
    var stale := if mode.Dot? then None else FoundStale(setup, v, query, now);
    if stale.Some? then stale.value.(id := query.id) else Synthesized(query, RCODE_SERVER_FAILURE)
  }

  /** An upstream reply as the validator lets it through. */
  function Adopted(setup: Setup, raw: Msg, verdict: Verdict): Msg {
    if setup.validates then raw.(authenticated := verdict.Secure?) else raw
  }

  predicate Refused(setup: Setup, verdict: Verdict) {
    setup.validates && verdict.Bogus?
  }

  function Outcome(setup: Setup, mode: Mode, v: View, query: Msg, up: Upstream, now: int): Msg {
    if up.Failed? || Refused(setup, up.verdict) then Failure(setup, mode, v, query, now)
    else Adopted(setup, up.raw, up.verdict)
  }

  predicate Cacheable(o: ResponseCache.Options, mode: Mode, resp: Msg) {
    if mode.Dot? then resp.rcode == RCODE_SUCCESS
    else (resp.rcode == RCODE_SUCCESS && resp.answer != []) || (o.negTTLMax > 0 && IsNegative(resp))
  }

  predicate Offered(setup: Setup, mode: Mode, up: Upstream, resp: Msg) {
    setup.hasCache && up.Replied? && Cacheable(setup.o, mode, resp)
  }

  function UdpLimit(query: Msg): nat {
    if !HasOpt(query) then 512
    else
      var size := query.additional[LastOpt(query.additional).value].udpSize;
      if size < 512 then 512 else if size > UDP_BUF_SIZE then UDP_BUF_SIZE else size
  }

  /** The message that is packed last. */
  function Wire(setup: Setup, mode: Mode, query: Msg, resp: Msg): Msg {
    var r := Normalized(resp, query);
    if mode.Udp? then setup.truncate(r, UdpLimit(query)) else Carried(setup.pack, r, query)
  }

  // ---- the machine

  /** `Screening` is about to look at the owner of answer record `at` or, if `owned`, at its target. */
  datatype Stage =
    | Checking
    | Blocking
    | LookingUp
    | Counting
    | Resolving
    | Storing(resp: Msg)
    | Screening(resp: Msg, at: nat, owned: bool)
    | Sending(resp: Msg, local: bool)

  datatype Handler = Handler(mode: Mode, query: Msg, stage: Stage)

  /** `bypassed` counts the Mode 2 queries that go upstream because there is no cache to miss. */
  datatype Counters = Counters(
    total: nat, hits: nat, misses: nat, bypassed: nat, upstream: nat,
    success: nat, servfail: nat, nxdomain: nat, other: nat, dropped: nat)

  datatype Which = OfAllow | OfBlock

  datatype Note =
    | Reloaded(which: Which, rules: Rules)
    | AllowSeen(h: nat, query: Msg)
    | BlockSeen(h: nat, query: Msg)
    | Looked(h: nat, query: Msg)
    | Asked(h: nat, query: Msg)
    | Answered(h: nat, mode: Mode, query: Msg, now: int, raw: Msg, verdict: Verdict)
    | Wrote(h: nat, op: CacheHistory.Op)
    | Forgot(key: string)
    | OwnerSeen(h: nat, rr: RR)
    | TargetSeen(h: nat, rr: RR)
    | Sent(h: nat, mode: Mode, query: Msg, reply: Msg)

  datatype State = State(view: View, rules: Rules, inFlight: map<nat, Handler>, n: Counters, log: seq<Note>)

  /** `Forget` is the second half of a lookup that found an expired entry, under a lock of its own. */
  datatype Event =
    | Arrive(mode: Mode, query: Msg)
    | ReloadAllow(sets: Lists.Sets)
    | ReloadBlock(sets: Lists.Sets)
    | Forget(key: string)
    | Step(h: nat, now: int, up: Upstream, victim: string, wrote: bool)

  function Init(rules: Rules): State {
    State(map[], rules, map[], Counters(0, 0, 0, 0, 0, 0, 0, 0, 0, 0), [])
  }

  function Noted(s: State, note: Note): State {
    s.(log := s.log + [note])
  }

  function To(s: State, h: nat, stage: Stage): State
    requires h in s.inFlight
  {
    s.(inFlight := s.inFlight[h := s.inFlight[h].(stage := stage)])
  }

  /** Exactly one bucket per reply sent, chosen by the response code before packing. */
  function Bucketed(n: Counters, rcode: nat): Counters {
    if rcode == RCODE_SUCCESS then n.(success := n.success + 1)
    else if rcode == RCODE_SERVER_FAILURE then n.(servfail := n.servfail + 1)
    else if rcode == RCODE_NAME_ERROR then n.(nxdomain := n.nxdomain + 1)
    else n.(other := n.other + 1)
  }

  /** A datagram counts once packed; on a stream the write has to succeed too. */
  predicate Delivered(setup: Setup, mode: Mode, wire: Msg, wrote: bool) {
    setup.pack(wire).Some? && (mode.Udp? || wrote)
  }

  function Finish(setup: Setup, s: State, h: nat, resp: Msg, wrote: bool): State
    requires h in s.inFlight
  {
    var x := s.inFlight[h];
    var wire := Wire(setup, x.mode, x.query, resp);
    var t := s.(inFlight := s.inFlight - {h});
    if Delivered(setup, x.mode, wire, wrote) then Noted(t.(n := Bucketed(s.n, resp.rcode)), Sent(h, x.mode, x.query, wire))
    else t.(n := s.n.(dropped := s.n.dropped + 1))
  }

  function Lookup(setup: Setup, s: State, h: nat, now: int): State
    requires h in s.inFlight
  {
    var x := s.inFlight[h];
    var hit := Found(setup, s.view, x.query, now);
    var n := if hit.Some? then s.n.(hits := s.n.hits + 1)
             else if x.mode.Dot? && !setup.hasCache then s.n.(bypassed := s.n.bypassed + 1)
             else s.n.(misses := s.n.misses + 1);
    Noted(To(s.(n := n), h, if hit.Some? then Screening(hit.value.(id := x.query.id), 0, false) else Counting), Looked(h, x.query))
  }

  function Resolve(setup: Setup, s: State, h: nat, up: Upstream, now: int): State
    requires h in s.inFlight
  {
    var x := s.inFlight[h];
    var resp := Outcome(setup, x.mode, s.view, x.query, up, now);
    var t := To(s, h, if Offered(setup, x.mode, up, resp) then Storing(resp) else Screening(resp, 0, false));
    if up.Replied? then Noted(t, Answered(h, x.mode, x.query, now, up.raw, up.verdict)) else t
  }

  /** One look at one name of the answer, under the rules of that moment. */
  ghost function Look(rules: Rules, query: Msg, resp: Msg, at: nat, owned: bool): Stage
    requires at < |resp.answer|
  {
    var rr := resp.answer[at];
    if owned then
      if TargetAllowed(rules, rr) then Screening(resp, at + 1, false) else Sending(Deny(query, "answer outside allowlist"), false)
    else if OwnerAllowed(rules, rr) then
      if HasTarget(rr) then Screening(resp, at, true) else Screening(resp, at + 1, false)
    else
      Sending(Deny(query, if TypeAllowed(rules, RRType(rr)) then "answer outside allowlist" else "answer type not allowed"), false)
  }

  ghost function Screen(s: State, h: nat): State
    requires h in s.inFlight && s.inFlight[h].stage.Screening?
  {
    var x := s.inFlight[h];
    var resp, at := x.stage.resp, x.stage.at;
    if s.rules.allow.None? || at >= |resp.answer| then To(s, h, Sending(resp, false))
    else
      Noted(To(s, h, Look(s.rules, x.query, resp, at, x.stage.owned)),
            if x.stage.owned then TargetSeen(h, resp.answer[at]) else OwnerSeen(h, resp.answer[at]))
  }

  ghost function Advance(setup: Setup, s: State, h: nat, now: int, up: Upstream, victim: string, wrote: bool): State
    requires h in s.inFlight
  {
    var x := s.inFlight[h];
    match x.stage
    case Checking =>
      var local := LocalFirst(setup, x.mode, s.rules, x.query);
      Noted(To(s, h, if local.Some? then Sending(local.value, true) else Blocking), AllowSeen(h, x.query))
    case Blocking =>
      var local := RefusalByBlock(s.rules, x.query);
      Noted(To(s, h, if local.Some? then Sending(local.value, true) else LookingUp), BlockSeen(h, x.query))
    case LookingUp => Lookup(setup, s, h, now)
    case Counting => Noted(To(s.(n := s.n.(upstream := s.n.upstream + 1)), h, Resolving), Asked(h, x.query))
    case Resolving => Resolve(setup, s, h, up, now)
    case Storing(resp) =>
      var op := CacheHistory.Store(x.query, resp, now, victim);
      Noted(To(s.(view := CacheHistory.Apply(setup.o, setup.mn, s.view, op)), h, Screening(resp, 0, false)), Wrote(h, op))
    case Screening(_, _, _) => Screen(s, h)
    case Sending(resp, _) => Finish(setup, s, h, resp, wrote)
  }

  /** Whether there is an allowlist, and which types it admits, is settled before the server starts. */
  function Reloading(rules: Rules, e: Event): Rules
    requires e.ReloadAllow? || e.ReloadBlock?
  {
    if e.ReloadBlock? then rules.(block := e.sets)
    else if rules.allow.Some? then rules.(allow := Some(e.sets))
    else rules
  }

  ghost function Next(setup: Setup, s: State, e: Event): State {
    match e
    case Arrive(mode, query) =>
      s.(inFlight := s.inFlight[s.n.total := Handler(mode, query, Checking)], n := s.n.(total := s.n.total + 1))
    case ReloadAllow(_) => Noted(s.(rules := Reloading(s.rules, e)), Reloaded(OfAllow, Reloading(s.rules, e)))
    case ReloadBlock(_) => Noted(s.(rules := Reloading(s.rules, e)), Reloaded(OfBlock, Reloading(s.rules, e)))
    case Forget(key) => Noted(s.(view := s.view - {key}), Forgot(key))
    case Step(h, now, up, victim, wrote) => if h in s.inFlight then Advance(setup, s, h, now, up, victim, wrote) else s
  }

  ghost function Run(setup: Setup, init: Rules, events: seq<Event>): State {
    if events == [] then Init(init) else Next(setup, Run(setup, init, events[..|events| - 1]), events[|events| - 1])
  }

  // ---- what the log says

  /** The rules in force after a log. */
  ghost function InForce(init: Rules, log: seq<Note>): Rules {
    if log == [] then init
    else if log[|log| - 1].Reloaded? then log[|log| - 1].rules
    else InForce(init, log[..|log| - 1])
  }

  ghost function Ops(log: seq<Note>): seq<CacheHistory.Op> {
    if log == [] then [] else Ops(log[..|log| - 1]) + OpOf(log[|log| - 1])
  }

  ghost function OpOf(note: Note): seq<CacheHistory.Op> {
    match note
    case Wrote(_, op) => [op]
    case Forgot(key) => [CacheHistory.Drop(key)]
    case _ => []
  }

  /** What the cache held after a log. */
  ghost function ViewAfter(setup: Setup, log: seq<Note>): View {
    CacheHistory.Run(setup.o, setup.mn, Ops(log))
  }

  /** The allowlist in force when this handler asked it let the query pass. */
  ghost predicate AllowPassed(init: Rules, log: seq<Note>, h: nat, query: Msg) {
    exists j :: 0 <= j < |log| && log[j] == AllowSeen(h, query) && |query.question| == 1 && RefusalByAllow(InForce(init, log[..j]), query).None?
  }

  /** So did, later, the blocklist in force when the handler asked that. */
  ghost predicate Passed(init: Rules, log: seq<Note>, h: nat, query: Msg) {
    exists j :: 0 <= j < |log| && log[j] == BlockSeen(h, query) && RefusalByBlock(InForce(init, log[..j]), query).None? &&
      AllowPassed(init, log[..j], h, query)
  }

  ghost predicate OwnerPassed(init: Rules, log: seq<Note>, h: nat, rr: RR) {
    exists j :: 0 <= j < |log| && log[j] == OwnerSeen(h, rr) && OwnerAllowed(InForce(init, log[..j]), rr)
  }

  ghost predicate TargetPassed(init: Rules, log: seq<Note>, h: nat, rr: RR) {
    exists j :: 0 <= j < |log| && log[j] == TargetSeen(h, rr) && TargetAllowed(InForce(init, log[..j]), rr)
  }

  /** Owner and target each passed the allowlist in force when this handler looked at them. */
  ghost predicate RecordPassed(init: Rules, log: seq<Note>, h: nat, rr: RR) {
    OwnerPassed(init, log, h, rr) && (HasTarget(rr) ==> TargetPassed(init, log, h, rr))
  }

  ghost predicate AnswerPassed(init: Rules, log: seq<Note>, h: nat, answer: seq<RR>) {
    init.allow.Some? ==> forall rr :: rr in answer ==> RecordPassed(init, log, h, rr)
  }

  predicate SameButId(a: Msg, b: Msg) {
    a == b.(id := a.id)
  }

  predicate Accepted(setup: Setup, note: Note) {
    note.Answered? && !Refused(setup, note.verdict)
  }

  /** The message is an upstream reply the validator let through, up to its ID. */
  ghost predicate Vetted(setup: Setup, log: seq<Note>, m: Msg) {
    exists j :: 0 <= j < |log| && Accepted(setup, log[j]) && SameButId(m, Adopted(setup, log[j].raw, log[j].verdict))
  }

  ghost function StaleAt(setup: Setup, log: seq<Note>, a: nat): Option<Msg>
    requires a < |log| && log[a].Answered?
  {
    FoundStale(setup, ViewAfter(setup, log[..a]), log[a].query, log[a].now)
  }

  /** A bogus reply to a Mode 1 handler that found a stale entry: the entry will be stored again. */
  ghost predicate Revives(setup: Setup, log: seq<Note>, a: nat) {
    a < |log| && log[a].Answered? && Refused(setup, log[a].verdict) && !log[a].mode.Dot? && StaleAt(setup, log, a).Some?
  }

  /** Where a handler got what it stores: its own upstream reply, unless that revives a stale entry. */
  ghost predicate OriginAt(setup: Setup, log: seq<Note>, a: nat, h: nat, query: Msg, resp: Msg) {
    && a < |log| && log[a].Answered? && log[a].h == h && log[a].query == query
    && if Refused(setup, log[a].verdict) then Revives(setup, log, a) && resp == StaleAt(setup, log, a).value.(id := query.id)
       else resp == Adopted(setup, log[a].raw, log[a].verdict)
  }

  ghost predicate Origin(setup: Setup, log: seq<Note>, h: nat, query: Msg, resp: Msg) {
    exists a: nat :: OriginAt(setup, log, a, h, query, resp)
  }

  predicate Empty(m: Msg) {
    m.answer == [] && !m.authenticated
  }

  ghost predicate Backed(setup: Setup, log: seq<Note>, m: Msg) {
    Empty(m) || Vetted(setup, log, m)
  }

  /** Everything the reply says comes from one reply the validator let through, and with validation on
      the AD bit is exactly its verdict. */
  ghost predicate Sourced(setup: Setup, log: seq<Note>, m: Msg) {
    Empty(m) ||
    exists j ::
      && 0 <= j < |log| && Accepted(setup, log[j])
      && (setup.validates ==> (m.authenticated <==> log[j].verdict.Secure?))
      && forall rr :: rr in m.answer ==> rr in log[j].raw.answer
  }

  predicate Discovery(setup: Setup, mode: Mode, query: Msg) {
    mode.Dot? && setup.ddr(query).Some?
  }

  predicate GoodRcode(m: Msg) {
    m.rcode == RCODE_SUCCESS || m.rcode == RCODE_NAME_ERROR
  }

  /** A reload changes one list and nothing else. */
  predicate ReloadOk(was: Rules, which: Which, rules: Rules) {
    match which
    case OfAllow => rules == was.(allow := rules.allow) && rules.allow.Some? == was.allow.Some?
    case OfBlock => rules == was.(block := rules.block)
  }

  ghost predicate NoteOk(setup: Setup, init: Rules, before: seq<Note>, note: Note) {
    match note
    case Reloaded(which, rules) => ReloadOk(InForce(init, before), which, rules)
    case Looked(h, query) => Passed(init, before, h, query)
    case Asked(h, query) => Passed(init, before, h, query)
    case Wrote(h, op) =>
      op.Store? && |op.req.question| == 1 && GoodRcode(op.resp) && Vetted(setup, before, op.resp) && Origin(setup, before, h, op.req, op.resp)
    case Sent(h, mode, query, reply) =>
      Discovery(setup, mode, query) ||
      (Sourced(setup, before, reply) && AnswerPassed(init, before, h, reply.answer))
    case _ => true
  }

  /** The stored question is absent, or the one the key was built from. */
  ghost predicate Keyed(mn: Mnemonics, key: string, m: Msg) {
    exists q: Question, dnssecOk: bool ::
      key == KeyOf(mn, q, dnssecOk) && (m.question == [] || (|m.question| == 1 && SameQuestion(q, m.question[0])))
  }

  ghost predicate EntryOk(setup: Setup, log: seq<Note>, key: string, m: Msg) {
    GoodRcode(m) && Keyed(setup.mn, key, m) && Vetted(setup, log, m) && Lifetime(setup.o, m).Some?
  }

  ghost predicate HandlerOk(setup: Setup, init: Rules, log: seq<Note>, h: nat, x: Handler) {
    match x.stage
    case Checking => true
    case Blocking => AllowPassed(init, log, h, x.query)
    case LookingUp => Passed(init, log, h, x.query)
    case Counting => Passed(init, log, h, x.query)
    case Resolving => Passed(init, log, h, x.query)
    case Storing(resp) =>
      |x.query.question| == 1 && GoodRcode(resp) && Vetted(setup, log, resp) && Origin(setup, log, h, x.query, resp)
    case Screening(resp, at, owned) =>
      && Backed(setup, log, resp) && at <= |resp.answer| && AnswerPassed(init, log, h, resp.answer[..at])
      && (owned ==> at < |resp.answer| && OwnerPassed(init, log, h, resp.answer[at]))
    case Sending(resp, local) =>
      if local then Discovery(setup, x.mode, x.query) || Empty(resp)
      else Backed(setup, log, resp) && AnswerPassed(init, log, h, resp.answer)
  }

  ghost predicate Inv(setup: Setup, init: Rules, s: State) {
    && s.rules == InForce(init, s.log) && s.rules.allow.Some? == init.allow.Some? && s.rules.qtypes == init.qtypes
    && s.view == ViewAfter(setup, s.log)
    && (forall k :: k in s.view ==> EntryOk(setup, s.log, k, s.view[k].msg))
    && (forall h :: h in s.inFlight ==> HandlerOk(setup, init, s.log, h, s.inFlight[h]))
    && forall i :: 0 <= i < |s.log| ==> NoteOk(setup, init, s.log[..i], s.log[i])
  }

  /** What is assumed of truncation: it may drop records and set TC, nothing else. */
  ghost predicate Truncates(truncate: (Msg, nat) -> Msg) {
    forall m, n :: var t := truncate(m, n);
      && t == m.(truncated := t.truncated, answer := t.answer, authority := t.authority, additional := t.additional)
      && forall rr :: rr in t.answer ==> rr in m.answer
  }

  // ---- what was once true of the log stays true

  lemma AllowPassedStays(init: Rules, log: seq<Note>, note: Note, h: nat, query: Msg)
    requires AllowPassed(init, log, h, query)
    ensures AllowPassed(init, log + [note], h, query)
  {
    hide InForce, RefusalByAllow;
    var j :| 0 <= j < |log| && log[j] == AllowSeen(h, query) && |query.question| == 1 && RefusalByAllow(InForce(init, log[..j]), query).None?;
    assert (log + [note])[..j] == log[..j] && (log + [note])[j] == log[j];
  }

  lemma PassedStays(init: Rules, log: seq<Note>, note: Note, h: nat, query: Msg)
    requires Passed(init, log, h, query)
    ensures Passed(init, log + [note], h, query)
  {
    hide InForce, RefusalByBlock, AllowPassed;
    var j :| 0 <= j < |log| && log[j] == BlockSeen(h, query) && RefusalByBlock(InForce(init, log[..j]), query).None? && AllowPassed(init, log[..j], h, query);
    assert (log + [note])[..j] == log[..j] && (log + [note])[j] == log[j];
  }

  lemma OwnerStays(init: Rules, log: seq<Note>, note: Note, h: nat, rr: RR)
    requires OwnerPassed(init, log, h, rr)
    ensures OwnerPassed(init, log + [note], h, rr)
  {
    hide InForce, OwnerAllowed;
    var j :| 0 <= j < |log| && log[j] == OwnerSeen(h, rr) && OwnerAllowed(InForce(init, log[..j]), rr);
    assert (log + [note])[..j] == log[..j] && (log + [note])[j] == log[j];
  }

  lemma TargetStays(init: Rules, log: seq<Note>, note: Note, h: nat, rr: RR)
    requires TargetPassed(init, log, h, rr)
    ensures TargetPassed(init, log + [note], h, rr)
  {
    hide InForce, TargetAllowed;
    var j :| 0 <= j < |log| && log[j] == TargetSeen(h, rr) && TargetAllowed(InForce(init, log[..j]), rr);
    assert (log + [note])[..j] == log[..j] && (log + [note])[j] == log[j];
  }

  lemma AnswerStays(init: Rules, log: seq<Note>, note: Note, h: nat, answer: seq<RR>)
    requires AnswerPassed(init, log, h, answer)
    ensures AnswerPassed(init, log + [note], h, answer)
  {
    hide OwnerPassed, TargetPassed;
    forall rr | rr in answer && init.allow.Some? ensures RecordPassed(init, log + [note], h, rr) {
      OwnerStays(init, log, note, h, rr);
      if HasTarget(rr) {
        TargetStays(init, log, note, h, rr);
      }
    }
  }

  lemma OriginStays(setup: Setup, log: seq<Note>, note: Note, h: nat, query: Msg, resp: Msg)
    requires Origin(setup, log, h, query, resp)
    ensures Origin(setup, log + [note], h, query, resp)
  {
    hide ViewAfter, FoundStale, Adopted, Refused;
    var a: nat :| OriginAt(setup, log, a, h, query, resp);
    assert (log + [note])[..a] == log[..a] && (log + [note])[a] == log[a];
    assert OriginAt(setup, log + [note], a, h, query, resp);
  }

  lemma VettedStays(setup: Setup, log: seq<Note>, note: Note, m: Msg)
    requires Vetted(setup, log, m)
    ensures Vetted(setup, log + [note], m)
  {
    hide Adopted, SameButId;
    var j :| 0 <= j < |log| && Accepted(setup, log[j]) && SameButId(m, Adopted(setup, log[j].raw, log[j].verdict));
    assert (log + [note])[j] == log[j];
  }

  lemma HandlerStays(setup: Setup, init: Rules, log: seq<Note>, note: Note, h: nat, x: Handler)
    requires HandlerOk(setup, init, log, h, x)
    ensures HandlerOk(setup, init, log + [note], h, x)
  {
    hide Passed, AllowPassed, AnswerPassed, OwnerPassed, Vetted, Origin;
    if Passed(init, log, h, x.query) {
      PassedStays(init, log, note, h, x.query);
    }
    match x.stage
    case Blocking => AllowPassedStays(init, log, note, h, x.query);
    case Storing(resp) =>
      VettedStays(setup, log, note, resp);
      OriginStays(setup, log, note, h, x.query, resp);
    case Screening(resp, at, owned) =>
      BackedStays(setup, log, note, resp);
      AnswerStays(init, log, note, h, resp.answer[..at]);
      if owned {
        OwnerStays(init, log, note, h, resp.answer[at]);
      }
    case Sending(resp, local) =>
      if !local {
        BackedStays(setup, log, note, resp);
        AnswerStays(init, log, note, h, resp.answer);
      }
    case _ =>
  }

  lemma BackedStays(setup: Setup, log: seq<Note>, note: Note, m: Msg)
    requires Backed(setup, log, m)
    ensures Backed(setup, log + [note], m)
  {
    hide Vetted;
    if Vetted(setup, log, m) {
      VettedStays(setup, log, note, m);
    }
  }

  lemma ViewGrows(setup: Setup, log: seq<Note>, note: Note)
    ensures ViewAfter(setup, log + [note]) ==
            if OpOf(note) == [] then ViewAfter(setup, log) else CacheHistory.Apply(setup.o, setup.mn, ViewAfter(setup, log), OpOf(note)[0])
  {
    hide CacheHistory.Apply;
    var all := log + [note];
    assert all[..|all| - 1] == log;
    assert Ops(all) == Ops(log) + OpOf(note);
    if OpOf(note) != [] {
      assert Ops(all)[..|Ops(all)| - 1] == Ops(log);
    } else {
      assert Ops(all) == Ops(log);
    }
  }

  /** One note at a time: what is new must be right, what is old stays right. */
  lemma Kept(setup: Setup, init: Rules, s: State, s': State, note: Note)
    requires Inv(setup, init, s) && s'.log == s.log + [note] && NoteOk(setup, init, s.log, note)
    requires s'.rules == (if note.Reloaded? then note.rules else s.rules) && s'.rules.allow.Some? == s.rules.allow.Some? && s'.rules.qtypes == s.rules.qtypes
    requires s'.view == if OpOf(note) == [] then s.view else CacheHistory.Apply(setup.o, setup.mn, s.view, OpOf(note)[0])
    requires forall k :: k in s'.view ==> (k in s.view && s'.view[k] == s.view[k]) || EntryOk(setup, s'.log, k, s'.view[k].msg)
    requires forall h :: h in s'.inFlight ==> (h in s.inFlight && s'.inFlight[h] == s.inFlight[h]) || HandlerOk(setup, init, s'.log, h, s'.inFlight[h])
    ensures Inv(setup, init, s')
  {
    hide HandlerOk, NoteOk, Vetted, Keyed, GoodRcode, Lifetime, CacheHistory.Apply;
    assert s'.log[..|s'.log| - 1] == s.log;
    assert s'.rules == InForce(init, s'.log);
    ViewGrows(setup, s.log, note);
    hide ViewAfter, InForce;
    forall h | h in s'.inFlight ensures HandlerOk(setup, init, s'.log, h, s'.inFlight[h]) {
      if h in s.inFlight && s'.inFlight[h] == s.inFlight[h] {
        HandlerStays(setup, init, s.log, note, h, s.inFlight[h]);
      }
    }
    forall k | k in s'.view ensures EntryOk(setup, s'.log, k, s'.view[k].msg) {
      if k in s.view && s'.view[k] == s.view[k] {
        VettedStays(setup, s.log, note, s.view[k].msg);
      }
    }
    forall i | 0 <= i < |s'.log| ensures NoteOk(setup, init, s'.log[..i], s'.log[i]) {
      assert i < |s.log| ==> s'.log[..i] == s.log[..i] && s'.log[i] == s.log[i];
    }
  }

  lemma KeptQuietly(setup: Setup, init: Rules, s: State, s': State)
    requires Inv(setup, init, s) && s'.log == s.log && s'.rules == s.rules && s'.view == s.view
    requires forall h :: h in s'.inFlight ==> (h in s.inFlight && s'.inFlight[h] == s.inFlight[h]) || HandlerOk(setup, init, s'.log, h, s'.inFlight[h])
    ensures Inv(setup, init, s')
  {
    hide HandlerOk, NoteOk, EntryOk, InForce, ViewAfter;
  }

  // ---- every step keeps the invariant

  lemma CheckKeeps(setup: Setup, init: Rules, s: State, h: nat, s': State)
    requires Inv(setup, init, s) && h in s.inFlight && s.inFlight[h].stage.Checking?
    requires s' == Advance(setup, s, h, 0, Failed, "", false)
    ensures Inv(setup, init, s')
  {
    hide Inv, RefusalByAllow, EntryOk;
    var x, note := s.inFlight[h], AllowSeen(h, s.inFlight[h].query);
    var local := LocalFirst(setup, x.mode, s.rules, x.query);
    RulesInForce(setup, init, s);
    if local.None? {
      assert AllowPassed(init, s'.log, h, x.query) by {
        assert s'.log[..|s.log|] == s.log && s'.log[|s.log|] == note;
      }
    } else {
      RefusalIsEmpty(s.rules, x.query);
    }
    Kept(setup, init, s, s', note);
  }

  lemma BlockKeeps(setup: Setup, init: Rules, s: State, h: nat, s': State)
    requires Inv(setup, init, s) && h in s.inFlight && s.inFlight[h].stage.Blocking?
    requires s' == Advance(setup, s, h, 0, Failed, "", false)
    ensures Inv(setup, init, s')
  {
    hide Inv, RefusalByBlock, EntryOk, AllowPassed;
    var x, note := s.inFlight[h], BlockSeen(h, s.inFlight[h].query);
    var local := RefusalByBlock(s.rules, x.query);
    RulesInForce(setup, init, s);
    HandlerIs(setup, init, s, h);
    if local.None? {
      assert Passed(init, s'.log, h, x.query) by {
        assert s'.log[..|s.log|] == s.log && s'.log[|s.log|] == note;
      }
    } else {
      RefusalIsEmpty(s.rules, x.query);
    }
    Kept(setup, init, s, s', note);
  }

  lemma RulesInForce(setup: Setup, init: Rules, s: State)
    requires Inv(setup, init, s)
    ensures s.rules == InForce(init, s.log) && s.rules.allow.Some? == init.allow.Some?
  {
  }

  lemma RefusalIsEmpty(rules: Rules, query: Msg)
    ensures RefusalByAllow(rules, query).Some? ==> Empty(RefusalByAllow(rules, query).value)
    ensures RefusalByBlock(rules, query).Some? ==> Empty(RefusalByBlock(rules, query).value)
  {
  }

  lemma EntryIs(setup: Setup, init: Rules, s: State, key: string)
    requires Inv(setup, init, s) && key in s.view
    ensures EntryOk(setup, s.log, key, s.view[key].msg)
  {
  }

  /** Renumbering a reply does not change where it came from. */
  lemma VettedId(setup: Setup, log: seq<Note>, m: Msg, id: nat)
    requires Vetted(setup, log, m)
    ensures Vetted(setup, log, m.(id := id))
  {
    hide Adopted;
    var j :| 0 <= j < |log| && Accepted(setup, log[j]) && SameButId(m, Adopted(setup, log[j].raw, log[j].verdict));
    assert SameButId(m.(id := id), Adopted(setup, log[j].raw, log[j].verdict));
  }

  lemma LookupKeeps(setup: Setup, init: Rules, s: State, h: nat, now: int, s': State)
    requires Inv(setup, init, s) && h in s.inFlight && s.inFlight[h].stage.LookingUp?
    requires s' == Lookup(setup, s, h, now)
    ensures Inv(setup, init, s')
  {
    hide Inv, Passed, Vetted, KeyOf, EntryOk;
    var x, note := s.inFlight[h], Looked(h, s.inFlight[h].query);
    HandlerIs(setup, init, s, h);
    PassedStays(init, s.log, note, h, x.query);
    var hit := Found(setup, s.view, x.query, now);
    if hit.Some? {
      EntryIs(setup, init, s, CacheKey(setup.mn, x.query));
      EntryVetted(setup, s.log, CacheKey(setup.mn, x.query), hit.value);
      VettedId(setup, s.log, hit.value, x.query.id);
      VettedStays(setup, s.log, note, hit.value.(id := x.query.id));
    }
    Kept(setup, init, s, s', note);
  }

  lemma EntryVetted(setup: Setup, log: seq<Note>, key: string, m: Msg)
    requires EntryOk(setup, log, key, m)
    ensures Vetted(setup, log, m) && GoodRcode(m) && Lifetime(setup.o, m).Some?
  {
  }

  lemma HandlerIs(setup: Setup, init: Rules, s: State, h: nat)
    requires Inv(setup, init, s) && h in s.inFlight
    ensures HandlerOk(setup, init, s.log, h, s.inFlight[h])
  {
  }

  lemma CountKeeps(setup: Setup, init: Rules, s: State, h: nat, s': State)
    requires Inv(setup, init, s) && h in s.inFlight && s.inFlight[h].stage.Counting?
    requires s' == Advance(setup, s, h, 0, Failed, "", false)
    ensures Inv(setup, init, s')
  {
    hide Inv, Passed, EntryOk;
    HandlerIs(setup, init, s, h);
    PassedStays(init, s.log, Asked(h, s.inFlight[h].query), h, s.inFlight[h].query);
    Kept(setup, init, s, s', Asked(h, s.inFlight[h].query));
  }

  /** A reply to a failure is a stale entry, which was vetted when it came, or an empty SERVFAIL; and
      whatever the cache holds, Mode 1 would store again. */
  lemma FailureIs(setup: Setup, init: Rules, s: State, mode: Mode, query: Msg, now: int)
    requires Inv(setup, init, s)
    ensures var m := Failure(setup, mode, s.view, query, now);
            var stale := FoundStale(setup, s.view, query, now);
            if mode.Dot? || stale.None? then m == Synthesized(query, RCODE_SERVER_FAILURE) && Empty(m) && !Cacheable(setup.o, mode, m)
            else m == stale.value.(id := query.id) && Vetted(setup, s.log, m) && GoodRcode(m) && Cacheable(setup.o, mode, m)
  {
    hide Inv, Vetted, KeyOf, EntryOk, MinTtlOf, SoaTtl;
    var stale := FoundStale(setup, s.view, query, now);
    if !mode.Dot? && stale.Some? {
      EntryIs(setup, init, s, CacheKey(setup.mn, query));
      EntryVetted(setup, s.log, CacheKey(setup.mn, query), stale.value);
      VettedId(setup, s.log, stale.value, query.id);
    }
  }

  lemma ResolveKeeps(setup: Setup, init: Rules, s: State, h: nat, up: Upstream, now: int, s': State)
    requires Inv(setup, init, s) && h in s.inFlight && s.inFlight[h].stage.Resolving?
    requires s' == Resolve(setup, s, h, up, now)
    ensures Inv(setup, init, s')
  {
    hide Inv, Vetted, EntryOk, Failure, Origin, FoundStale, Lifetime, Passed;
    var x := s.inFlight[h];
    var resp := Outcome(setup, x.mode, s.view, x.query, up, now);
    HandlerIs(setup, init, s, h);
    PassedHasQuestion(init, s.log, h, x.query);
    FailureIs(setup, init, s, x.mode, x.query, now);
    if up.Failed? {
      KeptQuietly(setup, init, s, s');
    } else {
      var note := Answered(h, x.mode, x.query, now, up.raw, up.verdict);
      if Refused(setup, up.verdict) {
        if Vetted(setup, s.log, resp) {
          VettedStays(setup, s.log, note, resp);
        }
      } else {
        AdoptedIsVetted(setup, s.log, note);
      }
      if Offered(setup, x.mode, up, resp) {
        ViewIs(setup, init, s);
        OriginOfResponse(setup, s.log, s.view, note, resp);
      }
      Kept(setup, init, s, s', note);
    }
  }

  lemma PassedHasQuestion(init: Rules, log: seq<Note>, h: nat, query: Msg)
    requires Passed(init, log, h, query)
    ensures |query.question| == 1
  {
    hide InForce, RefusalByBlock, RefusalByAllow;
  }

  lemma ViewIs(setup: Setup, init: Rules, s: State)
    requires Inv(setup, init, s)
    ensures s.view == ViewAfter(setup, s.log)
  {
  }

  lemma OriginOfResponse(setup: Setup, log: seq<Note>, v: View, note: Note, resp: Msg)
    requires note.Answered? && v == ViewAfter(setup, log)
    requires if Refused(setup, note.verdict)
             then !note.mode.Dot? && FoundStale(setup, v, note.query, note.now).Some? &&
                  resp == FoundStale(setup, v, note.query, note.now).value.(id := note.query.id)
             else resp == Adopted(setup, note.raw, note.verdict)
    ensures Origin(setup, log + [note], note.h, note.query, resp)
  {
    hide FoundStale, ViewAfter, Adopted, Refused;
    var all, a := log + [note], |log|;
    assert all[..a] == log && all[a] == note;
    assert OriginAt(setup, all, a, note.h, note.query, resp);
  }

  lemma AdoptedIsVetted(setup: Setup, log: seq<Note>, note: Note)
    requires note.Answered? && !Refused(setup, note.verdict)
    ensures Vetted(setup, log + [note], Adopted(setup, note.raw, note.verdict))
  {
    hide Adopted;
    var all := log + [note];
    assert all[|log|] == note && SameButId(Adopted(setup, note.raw, note.verdict), Adopted(setup, note.raw, note.verdict));
  }

  lemma StoreKeeps(setup: Setup, init: Rules, s: State, h: nat, now: int, victim: string, s': State)
    requires Inv(setup, init, s) && h in s.inFlight && s.inFlight[h].stage.Storing?
    requires s' == Advance(setup, s, h, now, Failed, victim, false)
    ensures Inv(setup, init, s')
  {
    hide Inv, Vetted, Keyed, Origin, Lifetime, CacheHistory.Apply;
    var x := s.inFlight[h];
    var op := CacheHistory.Store(x.query, x.stage.resp, now, victim);
    var note := Wrote(h, op);
    HandlerIs(setup, init, s, h);
    VettedStays(setup, s.log, note, x.stage.resp);
    forall k | k in s'.view ensures (k in s.view && s'.view[k] == s.view[k]) || EntryOk(setup, s'.log, k, s'.view[k].msg) {
      StoredIsKeyed(setup, s.view, op, k);
    }
    assert x.stage.resp.answer[..0] == [];
    Kept(setup, init, s, s', note);
  }

  lemma StoredIsKeyed(setup: Setup, v: View, op: CacheHistory.Op, k: string)
    requires op.Store?
    ensures var w := CacheHistory.Apply(setup.o, setup.mn, v, op);
            k in w ==> (k in v && w[k] == v[k]) || (w[k].msg == op.resp && Keyed(setup.mn, k, op.resp) && Lifetime(setup.o, op.resp).Some?)
  {
    hide Lifetime, KeyOf, SameQuestion, Oldest;
    if Stores(setup.o, op.req, op.resp) {
      assert Keyed(setup.mn, CacheKey(setup.mn, op.req), op.resp);
    }
  }

  lemma ScreenKeeps(setup: Setup, init: Rules, s: State, h: nat, s': State)
    requires Inv(setup, init, s) && h in s.inFlight && s.inFlight[h].stage.Screening?
    requires s' == Screen(s, h)
    ensures Inv(setup, init, s')
  {
    hide Inv, Backed, EntryOk, AnswerPassed, OwnerPassed, Look, Deny;
    var x := s.inFlight[h];
    var resp, at, owned := x.stage.resp, x.stage.at, x.stage.owned;
    HandlerIs(setup, init, s, h);
    RulesInForce(setup, init, s);
    if s.rules.allow.None? || at >= |resp.answer| {
      assert at >= |resp.answer| ==> resp.answer[..at] == resp.answer;
      NoAllowlistPasses(init, s.log, h, resp.answer);
      KeptQuietly(setup, init, s, s');
    } else {
      var rr := resp.answer[at];
      var note := if owned then TargetSeen(h, rr) else OwnerSeen(h, rr);
      BackedStays(setup, s.log, note, resp);
      AnswerStays(init, s.log, note, h, resp.answer[..at]);
      LookPasses(init, s.log, s.rules, h, x.query, resp, at, owned);
      DenialIsBacked(setup, init, s'.log, h, x.query);
      Kept(setup, init, s, s', note);
    }
  }

  lemma NoAllowlistPasses(init: Rules, log: seq<Note>, h: nat, answer: seq<RR>)
    ensures init.allow.None? ==> AnswerPassed(init, log, h, answer)
  {
  }

  lemma DenialIsBacked(setup: Setup, init: Rules, log: seq<Note>, h: nat, query: Msg)
    ensures forall reason :: Backed(setup, log, Deny(query, reason)) && AnswerPassed(init, log, h, Deny(query, reason).answer)
  {
  }

  /** A look that lets a name pass leaves a note of it under the rules in force. */
  lemma LookPasses(init: Rules, log: seq<Note>, rules: Rules, h: nat, query: Msg, resp: Msg, at: nat, owned: bool)
    requires rules == InForce(init, log) && at < |resp.answer| && AnswerPassed(init, log, h, resp.answer[..at])
    requires owned ==> OwnerPassed(init, log, h, resp.answer[at])
    ensures var rr := resp.answer[at];
            var after := log + [if owned then TargetSeen(h, rr) else OwnerSeen(h, rr)];
            match Look(rules, query, resp, at, owned)
            case Screening(m, n, o) =>
              && m == resp && n <= |resp.answer| && AnswerPassed(init, after, h, resp.answer[..n])
              && (o ==> n < |resp.answer| && OwnerPassed(init, after, h, resp.answer[n]))
            case Sending(m, local) => !local && exists reason :: m == Deny(query, reason)
            case _ => false
  {
    hide InForce, OwnerAllowed, TargetAllowed, Deny;
    var rr := resp.answer[at];
    var note := if owned then TargetSeen(h, rr) else OwnerSeen(h, rr);
    var after := log + [note];
    assert after[..|log|] == log && after[|log|] == note;
    AnswerStays(init, log, note, h, resp.answer[..at]);
    assert resp.answer[..at + 1] == resp.answer[..at] + [rr];
    if owned {
      OwnerStays(init, log, note, h, rr);
      assert TargetAllowed(rules, rr) ==> TargetPassed(init, after, h, rr);
    } else {
      assert OwnerAllowed(rules, rr) ==> OwnerPassed(init, after, h, rr);
    }
  }

  /** Nothing after the screening adds a record to the answer or sets the AD bit. */
  lemma WireAddsNothing(setup: Setup, mode: Mode, query: Msg, resp: Msg)
    requires Truncates(setup.truncate)
    ensures var w := Wire(setup, mode, query, resp); (forall rr :: rr in w.answer ==> rr in resp.answer) && (w.authenticated == resp.authenticated || Empty(w))
  {
    hide Normalized;
    NormalizedMeans(resp, query);
    NormalizedMeans(Synthesized(query, RCODE_SERVER_FAILURE), query);
  }

  lemma EmptyOrNot(rrs: seq<RR>)
    ensures rrs == [] || exists rr :: rr in rrs
  {
    if rrs != [] {
      assert rrs[0] in rrs;
    }
  }

  lemma SourcedSubset(setup: Setup, log: seq<Note>, m: Msg, w: Msg)
    requires Backed(setup, log, m)
    requires (forall rr :: rr in w.answer ==> rr in m.answer) && (w.authenticated == m.authenticated || Empty(w))
    ensures Sourced(setup, log, w)
  {
    if Empty(m) {
      EmptyOrNot(w.answer);
    } else {
      var j :| 0 <= j < |log| && Accepted(setup, log[j]) && SameButId(m, Adopted(setup, log[j].raw, log[j].verdict));
      assert m.answer == log[j].raw.answer;
    }
  }

  lemma NothingPasses(init: Rules, log: seq<Note>, h: nat)
    ensures AnswerPassed(init, log, h, [])
  {
  }

  lemma PassedSubset(init: Rules, log: seq<Note>, h: nat, answer: seq<RR>, fewer: seq<RR>)
    requires AnswerPassed(init, log, h, answer) && forall rr :: rr in fewer ==> rr in answer
    ensures AnswerPassed(init, log, h, fewer)
  {
    hide RecordPassed;
  }

  lemma FinishKeeps(setup: Setup, init: Rules, s: State, h: nat, resp: Msg, wrote: bool, s': State)
    requires Truncates(setup.truncate)
    requires Inv(setup, init, s) && h in s.inFlight && s.inFlight[h].stage.Sending? && resp == s.inFlight[h].stage.resp
    requires s' == Finish(setup, s, h, resp, wrote)
    ensures Inv(setup, init, s')
  {
    hide Inv, Vetted, EntryOk, AnswerPassed, Wire, Truncates, Sourced;
    var x := s.inFlight[h];
    var wire := Wire(setup, x.mode, x.query, resp);
    if Delivered(setup, x.mode, wire, wrote) {
      HandlerIs(setup, init, s, h);
      WireAddsNothing(setup, x.mode, x.query, resp);
      if !Discovery(setup, x.mode, x.query) || !x.stage.local {
        SourcedSubset(setup, s.log, resp, wire);
        if x.stage.local {
          EmptyOrNot(wire.answer);
          NothingPasses(init, s.log, h);
        } else {
          PassedSubset(init, s.log, h, resp.answer, wire.answer);
        }
      }
      Kept(setup, init, s, s', Sent(h, x.mode, x.query, wire));
    } else {
      KeptQuietly(setup, init, s, s');
    }
  }

  lemma AdvanceKeeps(setup: Setup, init: Rules, s: State, h: nat, now: int, up: Upstream, victim: string, wrote: bool, s': State)
    requires Truncates(setup.truncate) && Inv(setup, init, s) && h in s.inFlight
    requires s' == Advance(setup, s, h, now, up, victim, wrote)
    ensures Inv(setup, init, s')
  {
    hide Inv, Truncates, Finish, Lookup, Resolve, LocalFirst, RefusalByBlock, CacheHistory.Apply, Screen;
    match s.inFlight[h].stage
    case Checking => CheckKeeps(setup, init, s, h, s');
    case Blocking => BlockKeeps(setup, init, s, h, s');
    case LookingUp => LookupKeeps(setup, init, s, h, now, s');
    case Counting => CountKeeps(setup, init, s, h, s');
    case Resolving => ResolveKeeps(setup, init, s, h, up, now, s');
    case Storing(_) => StoreKeeps(setup, init, s, h, now, victim, s');
    case Screening(_, _, _) => ScreenKeeps(setup, init, s, h, s');
    case Sending(resp, _) => FinishKeeps(setup, init, s, h, resp, wrote, s');
  }

  lemma ReloadKeeps(setup: Setup, init: Rules, s: State, which: Which, s': State)
    requires Inv(setup, init, s) && ReloadOk(s.rules, which, s'.rules)
    requires s' == Noted(s.(rules := s'.rules), Reloaded(which, s'.rules))
    ensures Inv(setup, init, s')
  {
    hide Inv, EntryOk, HandlerOk;
    RulesInForce(setup, init, s);
    Kept(setup, init, s, s', Reloaded(which, s'.rules));
  }

  lemma NextKeeps(setup: Setup, init: Rules, s: State, e: Event, s': State)
    requires Truncates(setup.truncate) && Inv(setup, init, s) && s' == Next(setup, s, e)
    ensures Inv(setup, init, s')
  {
    hide Inv, Truncates, Advance, EntryOk;
    match e
    case Arrive(_, _) => KeptQuietly(setup, init, s, s');
    case ReloadAllow(_) => ReloadKeeps(setup, init, s, OfAllow, s');
    case ReloadBlock(_) => ReloadKeeps(setup, init, s, OfBlock, s');
    case Forget(key) => Kept(setup, init, s, s', Forgot(key));
    case Step(h, now, up, victim, wrote) =>
      if h in s.inFlight {
        AdvanceKeeps(setup, init, s, h, now, up, victim, wrote, s');
      }
  }

  lemma {:induction false} RunKeeps(setup: Setup, init: Rules, events: seq<Event>)
    requires Truncates(setup.truncate)
    ensures Inv(setup, init, Run(setup, init, events))
  {
    hide Truncates, Next;
    if events != [] {
      var n := |events| - 1;
      hide Inv;
      RunKeeps(setup, init, events[..n]);
      NextKeeps(setup, init, Run(setup, init, events[..n]), events[n], Run(setup, init, events));
    }
  }
}
