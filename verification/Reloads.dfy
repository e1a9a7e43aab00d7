/** Reloads that fall between two looks of one handler: exactly which orders of reloads let a query, or an
    answer, pass although no rules ever in force admit it. */
module Reloads {
  import opened Dns
  import opened Edns
  import opened ResponseCache
  import opened Lists
  import opened Policy
  import opened Serving
  import opened Guarantees
  import Validation
  import CacheHistory

  lemma Then(setup: Setup, init: Rules, events: seq<Event>, e: Event) returns (r: seq<Event>)
    ensures r == events + [e] && Run(setup, init, r) == Next(setup, Run(setup, init, events), e)
  {
    r := events + [e];
    assert r[..|r| - 1] == events;
  }

  lemma Starts(setup: Setup, init: Rules)
    ensures Run(setup, init, []) == Init(init)
  {
  }

  /** The rules in force are those of the start or of some reload. */
  lemma {:induction false} InForceIs(init: Rules, log: seq<Note>, j: nat)
    requires j <= |log|
    ensures InForce(init, log[..j]) == init || exists which :: Reloaded(which, InForce(init, log[..j])) in log
  {
    if j > 0 {
      assert log[..j][..j - 1] == log[..j - 1];
      InForceIs(init, log, j - 1);
      assert log[j - 1] in log;
    }
  }

  function Tick(h: nat, up: Upstream): Event {
    Step(h, 0, up, "", true)
  }

  // ---- what an order is

  /** The notes of a log that matter, in order. */
  function Trace<T>(pick: Note -> Option<T>, log: seq<Note>): seq<T> {
    if log == [] then []
    else Trace(pick, log[..|log| - 1]) + var x := pick(log[|log| - 1]); if x.Some? then [x.value] else []
  }

  /** A note that matters stands in the trace after everything that matters before it. */
  lemma {:induction false} TraceAt<T>(pick: Note -> Option<T>, log: seq<Note>, p: nat)
    requires p < |log| && pick(log[p]).Some?
    ensures var at := |Trace(pick, log[..p])|; at < |Trace(pick, log)| && Trace(pick, log)[at] == pick(log[p]).value
    ensures |Trace(pick, log[..p])| < |Trace(pick, log[..p + 1])|
  {
    var n := |log| - 1;
    assert log[..p + 1][..p] == log[..p];
    if p < n {
      TraceAt(pick, log[..n], p);
      assert log[..n][..p] == log[..p] && log[..n][..p + 1] == log[..p + 1] && log[..n][p] == log[p];
    }
  }

  lemma {:induction false} TraceGrows<T>(pick: Note -> Option<T>, log: seq<Note>, p: nat, q: nat)
    requires p <= q <= |log|
    ensures |Trace(pick, log[..p])| <= |Trace(pick, log[..q])|
  {
    if p < q {
      TraceGrows(pick, log, p, q - 1);
      assert log[..q][..q - 1] == log[..q - 1];
    }
  }

  lemma TraceKeepsOrder<T>(pick: Note -> Option<T>, log: seq<Note>, p: nat, q: nat)
    requires p < q < |log| && pick(log[p]).Some? && pick(log[q]).Some?
    ensures var a, b := |Trace(pick, log[..p])|, |Trace(pick, log[..q])|;
            a < b < |Trace(pick, log)| && Trace(pick, log)[a] == pick(log[p]).value && Trace(pick, log)[b] == pick(log[q]).value
  {
    hide Trace;
    TraceAt(pick, log, p);
    TraceAt(pick, log, q);
    TraceGrows(pick, log, p + 1, q);
  }

  lemma TraceStart<T>(pick: Note -> Option<T>)
    ensures Trace(pick, []) == []
  {
  }

  lemma TraceSnoc<T>(pick: Note -> Option<T>, log: seq<Note>, note: Note)
    ensures Trace(pick, log + [note]) == Trace(pick, log) + if pick(note).Some? then [pick(note).value] else []
  {
    assert (log + [note])[..|log|] == log;
  }

  // ---- between the allowlist and the blocklist

  function ReloadKind(note: Note): Option<Which> {
    if note.Reloaded? then Some(note.which) else None
  }

  /** The reloads between two moments. */
  function Kinds(log: seq<Note>, j: nat, k: nat): seq<Which>
    requires j <= k <= |log|
  {
    Trace(ReloadKind, log[j..k])
  }

  predicate AllowBeforeBlock(kinds: seq<Which>) {
    exists a, b :: 0 <= a < b < |kinds| && kinds[a].OfAllow? && kinds[b].OfBlock?
  }

  lemma OrderIsSeen(log: seq<Note>, j: nat, k: nat)
    requires j <= k <= |log| && AllowThenBlock(log, j, k)
    ensures AllowBeforeBlock(Kinds(log, j, k))
  {
    hide Trace;
    var a, b :| j <= a < b < k && log[a].Reloaded? && log[a].which.OfAllow? && log[b].Reloaded? && log[b].which.OfBlock?;
    var part := log[j..k];
    assert part[a - j] == log[a] && part[b - j] == log[b];
    TraceKeepsOrder(ReloadKind, part, a - j, b - j);
  }

  /** However the run goes and whatever the lists hold, a query that passes both lists with these reloads in
      between was admitted by the rules of one moment. */
  ghost predicate AlwaysOneMoment(setup: Setup, query: Msg, kinds: seq<Which>) {
    forall init: Rules, events: seq<Event>, h: nat, j: nat, k: nat ::
      var log := Run(setup, init, events).log;
      j < k < |log| && PassedAt(init, log, h, query, j, k) && Kinds(log, j, k) == kinds ==> OneMoment(init, log, query, j, k)
  }

  /** That is so exactly if no reload of the allowlist comes before one of the blocklist. */
  lemma QuerySlipsIff(setup: Setup, query: Msg, kinds: seq<Which>)
    requires Truncates(setup.truncate) && |query.question| == 1 && query.question[0].name != ""
    ensures AlwaysOneMoment(setup, query, kinds) <==> !AllowBeforeBlock(kinds)
  {
    hide Truncates, Run, PassedAt, OneMoment, WellLogged, Kinds, AllowThenBlock, InForce;
    if !AllowBeforeBlock(kinds) {
      forall init: Rules, events: seq<Event>, h: nat, j: nat, k: nat |
        (var log := Run(setup, init, events).log; j < k < |log| && PassedAt(init, log, h, query, j, k) && Kinds(log, j, k) == kinds)
        ensures OneMoment(init, Run(setup, init, events).log, query, j, k)
      {
        var log := Run(setup, init, events).log;
        RunIsWellLogged(setup, init, events);
        if AllowThenBlock(log, j, k) {
          OrderIsSeen(log, j, k);
        }
        OneMomentAdmits(init, log, h, query, j, k);
      }
    } else {
      var events, k := SlipsBetweenLists(setup, query, kinds);
      NeverIsNotOnce(First(query), Run(setup, First(query), events).log, query, k);
    }
  }

  lemma NeverIsNotOnce(init: Rules, log: seq<Note>, query: Msg, k: nat)
    requires forall m :: 0 <= m <= |log| ==> Refusal(InForce(init, log[..m]), query).Some?
    ensures !OneMoment(init, log, query, 0, k)
  {
  }

  function List(names: set<string>): Sets {
    Sets(names, {}, {})
  }

  /** The name alone, and some other name. */
  function Itself(query: Msg): Sets
    requires query.question != []
  {
    List({Normalize(query.question[0].name)})
  }

  function Another(query: Msg): Sets
    requires query.question != []
  {
    Sets({}, {}, {if Normalize(query.question[0].name) == "a.x" then "b.x" else "a.x"})
  }

  /** The name is allowed, and blocked. */
  function First(query: Msg): Rules
    requires query.question != []
  {
    Rules(Some(Itself(query)), true, Itself(query), None)
  }

  lemma FirstLists(query: Msg, rules: Rules)
    requires query.question != [] && query.question[0].name != "" && rules.blockEnabled && rules.qtypes.None?
    ensures rules.allow == Some(Itself(query)) ==> RefusalByAllow(rules, query).None?
    ensures rules.allow == Some(Another(query)) ==> RefusalByAllow(rules, query).Some?
    ensures rules.block == Itself(query) ==> RefusalByBlock(rules, query).Some?
    ensures rules.block == EMPTY ==> RefusalByBlock(rules, query).None?
  {
    hide Normalize;
  }

  /** What each reload brings: from the first of the allowlist on, another name; in the blocklist the name
      until the reload that matters, and nothing from it on. */
  function Brings(query: Msg, which: Which, late: bool): Event
    requires query.question != []
  {
    if which.OfAllow? then ReloadAllow(Another(query)) else ReloadBlock(if late then EMPTY else Itself(query))
  }

  ghost predicate Playing(init: Rules, query: Msg, s: State, kinds: seq<Which>, late: bool)
    requires query.question != []
  {
    && s.inFlight == map[0 := Handler(Udp, query, Blocking)] && s.log != [] && s.log[0] == AllowSeen(0, query)
    && Trace(ReloadKind, s.log) == kinds && s.rules == InForce(init, s.log)
    && s.rules == init.(allow := Some(if OfAllow in kinds then Another(query) else Itself(query)), block := if late then EMPTY else Itself(query))
    && forall note :: note in s.log && note.Reloaded? ==> Refusal(note.rules, query).Some?
  }

  lemma {:induction false} PlayKinds(setup: Setup, query: Msg, kinds: seq<Which>, a: nat, b: nat, n: nat) returns (events: seq<Event>)
    requires |query.question| == 1 && query.question[0].name != ""
    requires a < b < |kinds| && kinds[a].OfAllow? && kinds[b].OfBlock? && n <= |kinds|
    ensures Playing(First(query), query, Run(setup, First(query), events), kinds[..n], n > b)
  {
    hide Run, InForce, Trace, RefusalByAllow, RefusalByBlock, Itself, Another;
    var init := First(query);
    if n == 0 {
      FirstLists(query, init);
      Starts(setup, init);
      var e1 := Then(setup, init, [], Arrive(Udp, query));
      events := Then(setup, init, e1, Tick(0, Upstream.Failed));
      assert kinds[..0] == [];
      assert Run(setup, init, events).log == [AllowSeen(0, query)];
      TraceStart(ReloadKind);
      TraceSnoc(ReloadKind, [], AllowSeen(0, query));
      InForceSnoc(init, [], AllowSeen(0, query));
      InForceStart(init);
      assert [] + [AllowSeen(0, query)] == [AllowSeen(0, query)];
    } else {
      var before := PlayKinds(setup, query, kinds, a, b, n - 1);
      var s := Run(setup, init, before);
      events := Then(setup, init, before, Brings(query, kinds[n - 1], n > b));
      assert kinds[..n] == kinds[..n - 1] + [kinds[n - 1]];
      assert n > b ==> kinds[a] in kinds[..n - 1];
      PlayOne(setup, init, query, s, kinds[..n - 1], kinds[n - 1], n - 1 > b, n > b);
    }
  }

  lemma PlayOne(setup: Setup, init: Rules, query: Msg, s: State, kinds: seq<Which>, which: Which, late: bool, late': bool)
    requires query.question != [] && query.question[0].name != "" && init == First(query)
    requires Playing(init, query, s, kinds, late) && (late ==> late') && (late' && !late ==> which.OfBlock?) && (late' ==> OfAllow in kinds)
    ensures Playing(init, query, Next(setup, s, Brings(query, which, late')), kinds + [which], late')
  {
    hide InForce, Trace, RefusalByAllow, RefusalByBlock, Itself, Another;
    var t := Next(setup, s, Brings(query, which, late'));
    TraceSnoc(ReloadKind, s.log, Reloaded(which, t.rules));
    InForceSnoc(init, s.log, Reloaded(which, t.rules));
    FirstLists(query, t.rules);
    assert OfAllow in kinds + [which] <==> OfAllow in kinds || which.OfAllow?;
  }

  /** For every query and every order in which a reload of the allowlist precedes one of the blocklist, there
      are lists with which it passes both checks with those reloads in between and goes to the cache,
      although every set of rules ever in force refuses it. */
  lemma SlipsBetweenLists(setup: Setup, query: Msg, kinds: seq<Which>) returns (events: seq<Event>, k: nat)
    requires |query.question| == 1 && query.question[0].name != "" && AllowBeforeBlock(kinds)
    ensures var log := Run(setup, First(query), events).log;
            && 0 < k < |log| && PassedAt(First(query), log, 0, query, 0, k) && Kinds(log, 0, k) == kinds && Looked(0, query) in log
            && forall m :: 0 <= m <= |log| ==> Refusal(InForce(First(query), log[..m]), query).Some?
  {
    hide Run, InForce, RefusalByAllow, RefusalByBlock, Found, Itself, Another;
    var a, b :| 0 <= a < b < |kinds| && kinds[a].OfAllow? && kinds[b].OfBlock?;
    var init := First(query);
    var e1 := PlayKinds(setup, query, kinds, a, b, |kinds|);
    assert kinds[..|kinds|] == kinds;
    var s := Run(setup, init, e1);
    k := |s.log|;
    FirstLists(query, init);
    FirstLists(query, s.rules);
    var e2 := Then(setup, init, e1, Tick(0, Upstream.Failed));
    events := Then(setup, init, e2, Tick(0, Upstream.Failed));
    var log := Run(setup, init, events).log;
    assert log == s.log + [BlockSeen(0, query), Looked(0, query)];
    assert log[0..k] == s.log && log[..k] == s.log && log[..0] == [];
    forall m | 0 <= m <= |log| ensures Refusal(InForce(init, log[..m]), query).Some? {
      InForceIs(init, log, m);
    }
    InForceStart(init);
    assert PassedAt(init, log, 0, query, 0, k);
  }

  lemma InForceStart(init: Rules)
    ensures InForce(init, []) == init
  {
  }

  lemma InForceSnoc(init: Rules, log: seq<Note>, note: Note)
    ensures InForce(init, log + [note]) == if note.Reloaded? then note.rules else InForce(init, log)
  {
    assert (log + [note])[..|log|] == log;
  }

  /** For any name an entry can be written for, these are lists the loaders accept. */
  lemma ListsAreLoadable(query: Msg)
    requires query.question != [] && CleanEntry(Normalize(query.question[0].name))
    ensures AllowClean(Itself(query)) && AllowClean(Another(query)) && BlockClean(Itself(query)) && BlockClean(EMPTY)
    ensures Itself(query).domains != {} && Another(query).exact != {}
  {
    Names();
    assert TrimDot("a.x") == "a.x" && TrimDot("b.x") == "b.x";
    assert Lower("a.x") == "a.x" && Lower("b.x") == "b.x";
  }

  // ---- between two records of one answer

  /** Everything local: no cache, no validator, replies of any size. */
  function Plain(o: Options, mn: Mnemonics): Setup {
    Setup(o, mn, false, false, (m: Msg) => None, (m: Msg) => Some([]), (m: Msg, n: nat) => m)
  }

  lemma ToTheAnswer(setup: Setup, init: Rules, query: Msg, raw: Msg) returns (events: seq<Event>)
    requires !setup.hasCache && !setup.validates && |query.question| == 1 && Refusal(init, query).None?
    ensures var s := Run(setup, init, events);
            && s.inFlight == map[0 := Handler(Tcp, query, Screening(raw, 0, false))] && s.rules == init
            && forall note :: note in s.log ==> !note.Reloaded? && !LookOf(note, 0)
  {
    hide Run, RefusalByAllow, RefusalByBlock;
    Starts(setup, init);
    var up := Replied(raw, Validation.Secure);
    var e1 := Then(setup, init, [], Arrive(Tcp, query));
    var e2 := Then(setup, init, e1, Tick(0, up));
    var e3 := Then(setup, init, e2, Tick(0, up));
    var e4 := Then(setup, init, e3, Tick(0, up));
    var e5 := Then(setup, init, e4, Tick(0, up));
    events := Then(setup, init, e5, Tick(0, up));
  }

  datatype Mark = Look | Reload(which: Which)

  function MarkOf(h: nat): Note -> Option<Mark> {
    (note: Note) => if LookOf(note, h) then Some(Mark.Look) else if note.Reloaded? then Some(Mark.Reload(note.which)) else None
  }

  /** A reload of the allowlist with looks before and after it. */
  predicate Straddled(marks: seq<Mark>) {
    exists a, b, c :: 0 <= a < b < c < |marks| && marks[a].Look? && marks[b] == Mark.Reload(OfAllow) && marks[c].Look?
  }

  lemma StillIfNotStraddled(log: seq<Note>, h: nat)
    requires !Straddled(Trace(MarkOf(h), log))
    ensures StillWhileLooking(log, h)
  {
    hide Trace;
    forall j, k | 0 <= j < k < |log| && LookOf(log[j], h) && LookOf(log[k], h) ensures NoReloadOf(log, OfAllow, j, k) {
      forall i | j <= i < k && i < |log| ensures !(log[i].Reloaded? && log[i].which == OfAllow) {
        if log[i].Reloaded? && log[i].which == OfAllow {
          assert i != j;
          TraceKeepsOrder(MarkOf(h), log, j, i);
          TraceKeepsOrder(MarkOf(h), log, i, k);
        }
      }
    }
  }

  ghost predicate SentWith(setup: Setup, init: Rules, log: seq<Note>, i: nat, marks: seq<Mark>) {
    && i < |log| && log[i].Sent? && !Discovery(setup, log[i].mode, log[i].query) && init.allow.Some?
    && Trace(MarkOf(log[i].h), log[..i]) == marks
  }

  ghost predicate CleanOnce(init: Rules, log: seq<Note>, i: nat, answer: seq<RR>) {
    exists m :: 0 <= m <= i && m <= |log| && Clean(InForce(init, log[..m]), answer)
  }

  /** However the run goes and whatever the lists hold, a reply sent after these looks and reloads was allowed
      as a whole by the rules of one moment. */
  ghost predicate AlwaysCleanOnce(marks: seq<Mark>) {
    forall setup: Setup, init: Rules, events: seq<Event>, i: nat ::
      var log := Run(setup, init, events).log;
      Truncates(setup.truncate) && SentWith(setup, init, log, i, marks) ==> CleanOnce(init, log, i, log[i].reply.answer)
  }

  /** That is so exactly if no reload of the allowlist has a look of the handler before it and one after. */
  lemma AnswerSlipsIff(marks: seq<Mark>)
    ensures AlwaysCleanOnce(marks) <==> !Straddled(marks)
  {
    hide Run, Truncates, Discovery, CleanOnce, Trace, Clean, InForce, Straddled;
    if !Straddled(marks) {
      forall setup: Setup, init: Rules, events: seq<Event>, i: nat |
        Truncates(setup.truncate) && SentWith(setup, init, Run(setup, init, events).log, i, marks)
        ensures i < |Run(setup, init, events).log| && Run(setup, init, events).log[i].Sent? &&
                CleanOnce(init, Run(setup, init, events).log, i, Run(setup, init, events).log[i].reply.answer)
      {
        NotStraddledIsClean(setup, init, events, i, marks);
      }
    } else {
      var o, mn := Options(true, 1, 0, 1, 0, 0), Mnemonics(t => "", c => "");
      var events, i := SlipsBetweenRecords(o, mn, marks);
      PlainTruncates(o, mn);
      SlipIsNotClean(Before(), Run(Plain(o, mn), Before(), events).log, i);
    }
  }

  lemma SlipIsNotClean(init: Rules, log: seq<Note>, i: nat)
    requires i < |log| && log[i].Sent? && forall m :: 0 <= m <= |log| ==> !Clean(InForce(init, log[..m]), log[i].reply.answer)
    ensures !CleanOnce(init, log, i, log[i].reply.answer)
  {
    hide Clean, InForce;
  }

  lemma PlainTruncates(o: Options, mn: Mnemonics)
    ensures Truncates(Plain(o, mn).truncate)
  {
  }

  lemma NotStraddledIsClean(setup: Setup, init: Rules, events: seq<Event>, i: nat, marks: seq<Mark>)
    requires Truncates(setup.truncate) && !Straddled(marks) && SentWith(setup, init, Run(setup, init, events).log, i, marks)
    ensures var log := Run(setup, init, events).log; CleanOnce(init, log, i, log[i].reply.answer)
  {
    hide Truncates, Run, Trace, InForce, Straddled, WellLogged, Discovery, OwnerAllowed;
    var log := Run(setup, init, events).log;
    var h, answer, before := log[i].h, log[i].reply.answer, log[..i];
    if answer == [] {
      assert Clean(InForce(init, log[..0]), answer);
    } else {
      SentIsScreenedAndSourced(setup, init, events, i);
      RunIsWellLogged(setup, init, events);
      WellLoggedBefore(init, log, i);
      StillIfNotStraddled(before, h);
      assert RecordPassed(init, before, h, answer[0]);
      var m :| 0 <= m < |before| && before[m] == OwnerSeen(h, answer[0]) && OwnerAllowed(InForce(init, before[..m]), answer[0]);
      OneMomentScreens(init, before, h, answer, m);
      assert before[..m] == log[..m];
    }
  }

  lemma WellLoggedBefore(init: Rules, log: seq<Note>, i: nat)
    requires WellLogged(init, log) && i <= |log|
    ensures WellLogged(init, log[..i])
  {
    hide InForce, ReloadOk;
    forall j | 0 <= j < i && log[..i][j].Reloaded? ensures ReloadOk(InForce(init, log[..i][..j]), log[..i][j].which, log[..i][j].rules) {
      assert log[..i][..j] == log[..j];
    }
  }

  // ---- the run for every such order

  /** `a.x` alone is allowed, and after the reload that matters `b.x` alone. */
  function Before(): Rules {
    Rules(Some(List({"a.x"})), false, EMPTY, None)
  }

  function After(): Rules {
    Rules(Some(List({"b.x"})), false, EMPTY, None)
  }

  function Address(early: bool): RR {
    OtherRR(if early then "a.x." else "b.x.", 60, 1, "192.0.2.1")
  }

  /** One address for each look: `a.x` before position b, `b.x` after. */
  function Addresses(marks: seq<Mark>, b: nat, n: nat): seq<RR>
    requires n <= |marks|
  {
    if n == 0 then [] else Addresses(marks, b, n - 1) + if marks[n - 1].Look? then [Address(n - 1 < b)] else []
  }

  lemma AddressesAre(marks: seq<Mark>, b: nat, n: nat, rr: RR)
    requires n <= |marks| && rr in Addresses(marks, b, n)
    ensures rr == Address(true) || rr == Address(false)
  {
  }

  lemma {:induction false} AddressesGrow(marks: seq<Mark>, b: nat, n: nat, m: nat)
    requires n <= m <= |marks|
    ensures Addresses(marks, b, n) <= Addresses(marks, b, m)
  {
    if n < m {
      AddressesGrow(marks, b, n, m - 1);
    }
  }

  lemma AddressRules()
    ensures OwnerAllowed(Before(), Address(true)) && !OwnerAllowed(Before(), Address(false))
    ensures OwnerAllowed(After(), Address(false)) && !OwnerAllowed(After(), Address(true))
    ensures Refusal(Before(), Asking("a.x.")).None?
  {
    hide Normalize, AllowedBySets;
    Names();
    SameLength({"a.x"}, "a.x.");
    SameLength({"a.x"}, "b.x.");
    SameLength({"b.x"}, "a.x.");
    SameLength({"b.x"}, "b.x.");
  }

  function Reply(marks: seq<Mark>, b: nat): Msg {
    Asking("a.x.").(isResponse := true, answer := Addresses(marks, b, |marks|))
  }

  ghost predicate Underway(s: State, raw: Msg, marks: seq<Mark>, at: nat, late: bool) {
    && s.inFlight == map[0 := Handler(Tcp, Asking("a.x."), Screening(raw, at, false))]
    && s.rules == (if late then After() else Before())
    && Trace(MarkOf(0), s.log) == marks
    && forall note :: note in s.log && note.Reloaded? ==> note.rules == Before() || note.rules == After()
  }

  function Does(mark: Mark, late: bool): Event {
    match mark
    case Look => Tick(0, Upstream.Failed)
    case Reload(which) => if which.OfAllow? then ReloadAllow(List({if late then "b.x" else "a.x"})) else ReloadBlock(EMPTY)
  }

  lemma MarkLook(setup: Setup, s: State, raw: Msg, marks: seq<Mark>, at: nat, late: bool)
    requires Underway(s, raw, marks, at, late) && at < |raw.answer| && raw.answer[at] == Address(!late)
    ensures Underway(Next(setup, s, Does(Mark.Look, late)), raw, marks + [Mark.Look], at + 1, late)
  {
    hide Trace, OwnerAllowed, TargetAllowed, Deny, LocalFirst, RefusalByBlock, Lookup, Serving.Resolve, Finish, Bucketed, Reloading;
    var t := Next(setup, s, Does(Mark.Look, late));
    AddressRules();
    TraceSnoc(MarkOf(0), s.log, OwnerSeen(0, raw.answer[at]));
    assert t.log == s.log + [OwnerSeen(0, raw.answer[at])];
  }

  lemma MarkReload(setup: Setup, s: State, raw: Msg, marks: seq<Mark>, at: nat, late: bool, which: Which, late': bool)
    requires Underway(s, raw, marks, at, late) && (late != late' ==> late' && which.OfAllow?)
    ensures Underway(Next(setup, s, Does(Mark.Reload(which), late')), raw, marks + [Mark.Reload(which)], at, late')
  {
    hide Trace, OwnerAllowed, TargetAllowed, Advance;
    var t := Next(setup, s, Does(Mark.Reload(which), late'));
    AddressRules();
    TraceSnoc(MarkOf(0), s.log, Reloaded(which, t.rules));
    assert t.log == s.log + [Reloaded(which, t.rules)];
  }

  lemma MarkOne(setup: Setup, s: State, raw: Msg, marks: seq<Mark>, at: nat, late: bool, mark: Mark, late': bool)
    requires Underway(s, raw, marks, at, late) && (late != late' ==> late' && mark == Mark.Reload(OfAllow))
    requires mark.Look? ==> at < |raw.answer| && raw.answer[at] == Address(!late)
    ensures Underway(Next(setup, s, Does(mark, late')), raw, marks + [mark], if mark.Look? then at + 1 else at, late')
  {
    hide Underway, Next;
    if mark.Look? {
      MarkLook(setup, s, raw, marks, at, late);
    } else {
      MarkReload(setup, s, raw, marks, at, late, mark.which, late');
    }
  }

  lemma {:induction false} PlayMarks(setup: Setup, marks: seq<Mark>, b: nat, n: nat) returns (events: seq<Event>)
    requires !setup.hasCache && !setup.validates && b < |marks| && marks[b] == Mark.Reload(OfAllow) && n <= |marks|
    ensures Underway(Run(setup, Before(), events), Reply(marks, b), marks[..n], |Addresses(marks, b, n)|, n > b)
  {
    hide Run, Underway, Refusal;
    var raw := Reply(marks, b);
    AddressRules();
    if n == 0 {
      events := ToTheAnswer(setup, Before(), Asking("a.x."), raw);
      assert marks[..0] == [];
      StartOfMarks(setup, events, raw);
    } else {
      var before := PlayMarks(setup, marks, b, n - 1);
      events := Then(setup, Before(), before, Does(marks[n - 1], n > b));
      assert marks[..n] == marks[..n - 1] + [marks[n - 1]];
      AddressesGrow(marks, b, n, |marks|);
      MarkOne(setup, Run(setup, Before(), before), raw, marks[..n - 1], |Addresses(marks, b, n - 1)|, n - 1 > b, marks[n - 1], n > b);
    }
  }

  lemma StartOfMarks(setup: Setup, events: seq<Event>, raw: Msg)
    requires var s := Run(setup, Before(), events);
             && s.inFlight == map[0 := Handler(Tcp, Asking("a.x."), Screening(raw, 0, false))] && s.rules == Before()
             && forall note :: note in s.log ==> !note.Reloaded? && !LookOf(note, 0)
    ensures Underway(Run(setup, Before(), events), raw, [], 0, false)
  {
    hide Run;
    NothingMarked(Run(setup, Before(), events).log);
  }

  lemma {:induction false} NothingMarked(log: seq<Note>)
    requires forall note :: note in log ==> !note.Reloaded? && !LookOf(note, 0)
    ensures Trace(MarkOf(0), log) == []
  {
    if log != [] {
      NothingMarked(log[..|log| - 1]);
      assert log[|log| - 1] in log;
    }
  }

  /** For every order in which a reload of the allowlist has looks before and after it, there is a run in which
      a handler looks and reloads happen in that order, and it sends an answer that no set of rules ever
      in force allows. */
  lemma SlipsBetweenRecords(o: Options, mn: Mnemonics, marks: seq<Mark>) returns (events: seq<Event>, i: nat)
    requires Straddled(marks)
    ensures var setup, log := Plain(o, mn), Run(Plain(o, mn), Before(), events).log;
            && SentWith(setup, Before(), log, i, marks)
            && forall m :: 0 <= m <= |log| ==> !Clean(InForce(Before(), log[..m]), log[i].reply.answer)
  {
    hide Run, InForce, OwnerAllowed, TargetAllowed, Refusal, Wire, Deny, Trace, LocalFirst, RefusalByBlock, Lookup, Serving.Resolve, Bucketed;
    var setup := Plain(o, mn);
    var a, b, c :| 0 <= a < b < c < |marks| && marks[a].Look? && marks[b] == Mark.Reload(OfAllow) && marks[c].Look?;
    var raw := Reply(marks, b);
    var e1 := PlayMarks(setup, marks, b, |marks|);
    assert marks[..|marks|] == marks;
    var s := Run(setup, Before(), e1);
    var e2 := Then(setup, Before(), e1, Tick(0, Upstream.Failed));
    events := Then(setup, Before(), e2, Tick(0, Upstream.Failed));
    var log := Run(setup, Before(), events).log;
    i := |s.log|;
    assert log == s.log + [Sent(0, Tcp, Asking("a.x."), Wire(setup, Tcp, Asking("a.x."), raw))];
    assert log[..i] == s.log;
    AnswerIsWhole(o, mn, marks, b);
    BothAreThere(marks, a, b, c);
    AddressRules();
    forall m | 0 <= m <= |log| ensures !Clean(InForce(Before(), log[..m]), raw.answer) {
      InForceIs(Before(), log, m);
    }
  }

  lemma AnswerIsWhole(o: Options, mn: Mnemonics, marks: seq<Mark>, b: nat)
    ensures Wire(Plain(o, mn), Tcp, Asking("a.x."), Reply(marks, b)).answer == Addresses(marks, b, |marks|)
  {
    forall rr | rr in Addresses(marks, b, |marks|) ensures NotDnssec(rr) {
      AddressesAre(marks, b, |marks|, rr);
    }
    WholeReply(o, mn, Asking("a.x."), Reply(marks, b));
  }

  lemma BothAreThere(marks: seq<Mark>, a: nat, b: nat, c: nat)
    requires a < b < c < |marks| && marks[a].Look? && marks[c].Look?
    ensures Address(true) in Addresses(marks, b, |marks|) && Address(false) in Addresses(marks, b, |marks|)
  {
    AddressesGrow(marks, b, a + 1, |marks|);
    AddressesGrow(marks, b, c + 1, |marks|);
    assert Address(true) in Addresses(marks, b, a + 1) && Address(false) in Addresses(marks, b, c + 1);
  }

  lemma WholeReply(o: Options, mn: Mnemonics, query: Msg, raw: Msg)
    requires forall rr :: rr in raw.answer ==> NotDnssec(rr)
    ensures Wire(Plain(o, mn), Tcp, query, raw).answer == raw.answer
  {
    hide Normalized, Filter, NotDnssec, HasOpt, WantsDnssec, LastOpt;
    NormalizedMeans(raw, query);
    FilterAll(NotDnssec, raw.answer);
  }

  // ---- and for a chain of aliases

  ghost predicate Trades(init: Rules, query: Msg, raw: Msg, first: RR, second: RR, allow: Sets) {
    && |query.question| == 1 && init.allow.Some? && Refusal(init, query).None?
    && first.CnameRR? && second.CnameRR? && raw.answer == [first, second]
    && RecordAllowed(init, first) && !RecordAllowed(init, second)
    && var r := init.(allow := Some(allow)); RecordAllowed(r, second) && !RecordAllowed(r, first)
  }

  lemma ToTheReload(setup: Setup, init: Rules, query: Msg, raw: Msg, first: RR, second: RR, allow: Sets) returns (events: seq<Event>)
    requires !setup.hasCache && !setup.validates && Trades(init, query, raw, first, second, allow)
    ensures var s := Run(setup, init, events);
            && s.inFlight == map[0 := Handler(Tcp, query, Screening(raw, 1, false))] && s.rules == init.(allow := Some(allow))
            && forall note :: note in s.log && note.Reloaded? ==> note.rules == s.rules
  {
    hide Run, OwnerAllowed, TargetAllowed, Refusal, Deny;
    var e0 := ToTheAnswer(setup, init, query, raw);
    var e1 := Then(setup, init, e0, Tick(0, Upstream.Failed));
    var e2 := Then(setup, init, e1, Tick(0, Upstream.Failed));
    events := Then(setup, init, e2, ReloadAllow(allow));
  }

  /** Two aliases: the first is looked at, the allowlist is reloaded, the second is looked at.  The reply
      is sent, and no set of rules ever in force allows all of it. */
  lemma SlipsBetweenAliases(o: Options, mn: Mnemonics, init: Rules, query: Msg, raw: Msg, first: RR, second: RR, allow: Sets)
    returns (events: seq<Event>)
    requires Trades(init, query, raw, first, second, allow)
    ensures var log := Run(Plain(o, mn), init, events).log;
            exists i :: 0 <= i < |log| && log[i].Sent? && log[i].reply.answer == raw.answer &&
              forall j :: 0 <= j <= |log| ==> !Clean(InForce(init, log[..j]), log[i].reply.answer)
  {
    hide Run, InForce, OwnerAllowed, TargetAllowed, Refusal, Wire, Deny;
    var setup := Plain(o, mn);
    var e3 := ToTheReload(setup, init, query, raw, first, second, allow);
    var e4 := Then(setup, init, e3, Tick(0, Upstream.Failed));
    var e5 := Then(setup, init, e4, Tick(0, Upstream.Failed));
    var e6 := Then(setup, init, e5, Tick(0, Upstream.Failed));
    events := Then(setup, init, e6, Tick(0, Upstream.Failed));
    var log := Run(setup, init, events).log;
    var i := |log| - 1;
    assert forall rr :: rr in raw.answer ==> NotDnssec(rr);
    WholeReply(o, mn, query, raw);
    assert log[i] == Sent(0, Tcp, query, Wire(setup, Tcp, query, raw));
    forall j | 0 <= j <= |log| ensures !Clean(InForce(init, log[..j]), raw.answer) {
      InForceIs(init, log, j);
      assert first in raw.answer && second in raw.answer;
    }
  }

  // ---- both, at one input

  /** With entries as long as the name, matching is membership. */
  lemma SameLength(names: set<string>, name: string)
    requires name != "" && forall d :: d in names ==> |d| == |Normalize(name)|
    ensures AllowedBySets(List(names), name) <==> Normalize(name) in names
    ensures Matched(names, {}, Normalize(name)) <==> Normalize(name) in names
  {
  }

  lemma Names()
    ensures Normalize("a.x.") == "a.x" && Normalize("b.x.") == "b.x" && Normalize("c.x.") == "c.x"
  {
    assert TrimDot("a.x.") == "a.x" && TrimDot("b.x.") == "b.x" && TrimDot("c.x.") == "c.x";
    assert Lower("a.x") == "a.x" && Lower("b.x") == "b.x" && Lower("c.x") == "c.x";
  }

  function Asking(name: Name): Msg {
    Msg(7, false, 0, false, false, false, [Question(name, 1, 1)], [], [], [])
  }

  /** `a.x` allowed and blocked; the reloads allow `b.x` alone and block nothing. */
  lemma ListsAtAnInput(setup: Setup) returns (events: seq<Event>)
    ensures var init := Rules(Some(List({"a.x"})), true, List({"a.x"}), None);
            var log := Run(setup, init, events).log;
            && Looked(0, Asking("a.x.")) in log
            && forall j :: 0 <= j <= |log| ==> Refusal(InForce(init, log[..j]), Asking("a.x.")).Some?
  {
    hide Run, InForce, Refusal, PassedAt;
    Names();
    var kinds, k := [OfAllow, OfBlock], 0;
    assert kinds[0].OfAllow? && kinds[1].OfBlock?;
    events, k := SlipsBetweenLists(setup, Asking("a.x."), kinds);
  }

  /** `a.x` is an alias of `b.x`, and that of `c.x`; the reload turns {a.x, b.x} into {b.x, c.x}. */
  lemma RecordsAtAnInput(o: Options, mn: Mnemonics) returns (events: seq<Event>)
    ensures var init := Rules(Some(List({"a.x", "b.x"})), false, EMPTY, None);
            var answer := [CnameRR("a.x.", 60, "b.x."), CnameRR("b.x.", 60, "c.x.")];
            var log := Run(Plain(o, mn), init, events).log;
            exists i :: 0 <= i < |log| && log[i].Sent? && log[i].reply.answer == answer &&
              forall j :: 0 <= j <= |log| ==> !Clean(InForce(init, log[..j]), log[i].reply.answer)
  {
    hide Run, InForce, Normalize, AllowedBySets, Matched, Clean;
    var init := Rules(Some(List({"a.x", "b.x"})), false, EMPTY, None);
    var first, second := CnameRR("a.x.", 60, "b.x."), CnameRR("b.x.", 60, "c.x.");
    Names();
    SameLength({"a.x", "b.x"}, "a.x.");
    SameLength({"a.x", "b.x"}, "b.x.");
    SameLength({"a.x", "b.x"}, "c.x.");
    SameLength({"b.x", "c.x"}, "a.x.");
    SameLength({"b.x", "c.x"}, "b.x.");
    SameLength({"b.x", "c.x"}, "c.x.");
    var query := Asking("a.x.");
    var raw := query.(isResponse := true, answer := [first, second]);
    events := SlipsBetweenAliases(o, mn, init, query, raw, first, second, List({"b.x", "c.x"}));
  }
}
