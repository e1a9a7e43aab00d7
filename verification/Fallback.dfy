/** The ordered upstream chain and its two-phase health model. */
module Fallback {
  import opened Dns

  datatype Mark = UP | SLOW | DOWN

  datatype Health = Health(mark: Mark, errors: nat, lastError: string)

  /** What one upstream returns: an error, nothing at all, or a message. */
  datatype Asked = Error(text: string) | Nothing | Answer(msg: Msg)

  const MISMATCH: string := "upstream response question does not match query"

  const HEALTHY: Health := Health(UP, 0, "")

  function OnError(h: Health, text: Option<string>, phase1: bool, threshold: int): Health {
    var errors := h.errors + 1;
    Health(if phase1 || errors >= threshold then DOWN else SLOW,
           errors,
           if text.Some? then text.value else h.lastError)
  }

  /** The error recorded for an upstream that did not win. */
  function ErrorText(a: Asked): Option<string> {
    match a
    case Error(text) => Some(text)
    case Nothing => None
    case Answer(_) => Some(MISMATCH)
  }

  class Upstream {
    var mark: Mark
    var errors: nat
    var lastError: string

    constructor ()
      ensures Value() == HEALTHY
    {
      mark, errors, lastError := UP, 0, "";
    }

    function Value(): Health
      reads this
    {
      Health(mark, errors, lastError)
    }

    method RecordSuccess()
      modifies this
      ensures Value() == HEALTHY
    {
      mark, errors, lastError := UP, 0, "";
    }

    method RecordError(text: Option<string>, phase1: bool, threshold: int)
      modifies this
      ensures Value() == OnError(old(Value()), text, phase1, threshold)
    {
      errors := errors + 1;
      if text.Some? {
        lastError := text.value;
      }
      if phase1 {
        mark := DOWN;
      } else if errors >= threshold {
        mark := DOWN;
      } else if mark != SLOW {
        mark := SLOW;
      }
    }
  }

  // ---- one query

  datatype Outcome = Malformed | Won(index: nat, msg: Msg) | AllFailed

  predicate Skipped(hs: seq<Health>, i: nat)
    requires i < |hs|
  {
    hs[i].mark == DOWN && |hs| > 1
  }

  predicate Wins(hs: seq<Health>, replies: seq<Asked>, query: Msg, i: nat)
    requires i < |hs| == |replies|
  {
    !Skipped(hs, i) && replies[i].Answer? && MatchesQuery(query, replies[i].msg)
  }

  /** Health after the first `tried` upstreams were passed over without a winner among them. */
  function Charged(hs: seq<Health>, replies: seq<Asked>, phase1: bool, threshold: int, tried: nat, i: nat): Health
    requires i < |hs| == |replies|
  {
    if i < tried && !Skipped(hs, i) then OnError(hs[i], ErrorText(replies[i]), phase1, threshold) else hs[i]
  }

  function Probed(h: Health, reply: Asked, phase1: bool, threshold: int): Health {
    if reply.Answer? then HEALTHY else OnError(h, ErrorText(reply), phase1, threshold)
  }

  class FallbackResolver {
    const upstreams: seq<Upstream>
    const threshold: int
    var fallbacks: nat

    constructor (upstreams: seq<Upstream>, threshold: int)
      ensures this.upstreams == upstreams && this.threshold == threshold && fallbacks == 0
    {
      this.upstreams, this.threshold, fallbacks := upstreams, threshold, 0;
    }

    ghost predicate Distinct() {
      forall i, j :: 0 <= i < j < |upstreams| ==> upstreams[i] != upstreams[j]
    }

    ghost function Healths(): (hs: seq<Health>)
      reads upstreams
      ensures |hs| == |upstreams| && forall i :: 0 <= i < |hs| ==> hs[i] == upstreams[i].Value()
    {
      seq(|upstreams|, i requires 0 <= i < |upstreams| reads upstreams => upstreams[i].Value())
    }

    /** The winner is the first upstream that is not skipped and answers the question asked; every
        upstream tried before it is charged exactly one error; nothing else changes. */
    method Resolve(query: Msg, replies: seq<Asked>, phase1: bool) returns (r: Outcome)
      requires |replies| == |upstreams| && Distinct()
      modifies this, upstreams
      ensures r.Malformed? <==> |query.question| != 1
      ensures r.Malformed? ==> Healths() == old(Healths()) && fallbacks == old(fallbacks)
      ensures var hs := old(Healths());
              match r
              case Malformed => true
              case Won(w, msg) =>
                && w < |hs| && Wins(hs, replies, query, w) && replies[w] == Answer(msg)
                && (forall i :: 0 <= i < w ==> !Wins(hs, replies, query, i))
                && fallbacks == old(fallbacks) + (if w > 0 then 1 else 0)
                && forall i :: 0 <= i < |hs| ==>
                     Healths()[i] == if i == w then HEALTHY else Charged(hs, replies, phase1, threshold, w, i)
              case AllFailed =>
                && (forall i :: 0 <= i < |hs| ==> !Wins(hs, replies, query, i))
                && fallbacks == old(fallbacks)
                && forall i :: 0 <= i < |hs| ==> Healths()[i] == Charged(hs, replies, phase1, threshold, |hs|, i)
    {
      hide MatchesQuery, OnError;
      if |query.question| != 1 {
        return Malformed;
      }
      var triedPrimary := false;
      ghost var hs := Healths();
      for i := 0 to |upstreams|
        invariant forall j :: 0 <= j < i ==> !Wins(hs, replies, query, j)
        invariant forall j :: 0 <= j < |hs| ==> upstreams[j].Value() == Charged(hs, replies, phase1, threshold, i, j)
        invariant triedPrimary ==> i > 0
        invariant fallbacks == old(fallbacks)
      {
        var u := upstreams[i];
        assert u.Value() == hs[i];
        if u.mark == DOWN && |upstreams| > 1 {
          continue;
        }
        match replies[i] {
          case Answer(msg) =>
            if !MatchesQuery(query, msg) {
              u.RecordError(Some(MISMATCH), phase1, threshold);
              triedPrimary := true;
              continue;
            }
            u.RecordSuccess();
            if triedPrimary || i > 0 {
              fallbacks := fallbacks + 1;
            }
            return Won(i, msg);
          case Error(text) => u.RecordError(Some(text), phase1, threshold);
          case Nothing => u.RecordError(None, phase1, threshold);
        }
        triedPrimary := true;
      }
      return AllFailed;
    }

    method FindDown() returns (down: seq<nat>)
      ensures forall k :: 0 <= k < |down| ==> down[k] < |upstreams| && upstreams[down[k]].mark == DOWN
      ensures forall k, l :: 0 <= k < l < |down| ==> down[k] < down[l]
      ensures forall j :: 0 <= j < |upstreams| && upstreams[j].mark == DOWN ==> j in down
    {
      down := [];
      for i := 0 to |upstreams|
        invariant forall k :: 0 <= k < |down| ==> down[k] < i && upstreams[down[k]].mark == DOWN
        invariant forall k, l :: 0 <= k < l < |down| ==> down[k] < down[l]
        invariant forall j :: 0 <= j < i && upstreams[j].mark == DOWN ==> j in down
      {
        if upstreams[i].mark == DOWN {
          down := down + [i];
        }
      }
    }

    /** Probes exactly the upstreams that are DOWN when it starts; any message counts as recovery. */
    method PerformHealthChecks(replies: seq<Asked>, phase1: bool)
      requires |replies| == |upstreams| && Distinct()
      modifies upstreams
      ensures var hs := old(Healths());
              forall i :: 0 <= i < |hs| ==>
                Healths()[i] == if hs[i].mark == DOWN then Probed(hs[i], replies[i], phase1, threshold) else hs[i]
    {
      hide OnError;
      ghost var hs := Healths();
      var down := FindDown();
      for k := 0 to |down|
        invariant forall j :: 0 <= j < |hs| ==>
                    upstreams[j].Value() == if j in down[..k] then Probed(hs[j], replies[j], phase1, threshold) else hs[j]
      {
        assert down[..k + 1] == down[..k] + [down[k]];
        assert down[k] !in down[..k];
        var i := down[k];
        match replies[i] {
          case Answer(_) => upstreams[i].RecordSuccess();
          case Error(text) => upstreams[i].RecordError(Some(text), phase1, threshold);
          case Nothing => upstreams[i].RecordError(None, phase1, threshold);
        }
      }
      assert down[..|down|] == down;
    }
  }

  /** The upstream that wins a query: in use, and with a reply to exactly the question asked. */
  lemma WinsIff(hs: seq<Health>, replies: seq<Asked>, query: Msg, i: nat)
    requires i < |hs| == |replies|
    ensures Wins(hs, replies, query, i) <==>
            && (hs[i].mark != DOWN || |hs| == 1) && replies[i].Answer?
            && |query.question| == 1 && |replies[i].msg.question| == 1 && SameQuestion(query.question[0], replies[i].msg.question[0])
  {
    hide SameQuestion;
  }

  /** What a lost query costs an upstream: those in use before the winner have exactly one error more, with its
      text, and are DOWN during startup or at the threshold and SLOW below it; the others are unchanged. */
  lemma ChargedMeans(hs: seq<Health>, replies: seq<Asked>, phase1: bool, threshold: int, tried: nat, i: nat)
    requires i < |hs| == |replies|
    ensures var h := Charged(hs, replies, phase1, threshold, tried, i);
            if i >= tried || (hs[i].mark == DOWN && |hs| > 1) then h == hs[i]
            else
              && h.errors == hs[i].errors + 1 && h.mark == (if phase1 || hs[i].errors + 1 >= threshold then DOWN else SLOW)
              && (replies[i].Error? ==> h.lastError == replies[i].text) && (replies[i].Nothing? ==> h.lastError == hs[i].lastError)
              && (replies[i].Answer? ==> h.lastError == "upstream response question does not match query")
  {
  }

  /** What a health check makes of an upstream: any message brings it back, anything else is one error more. */
  lemma ProbedMeans(h: Health, reply: Asked, phase1: bool, threshold: int)
    ensures var p := Probed(h, reply, phase1, threshold);
            if reply.Answer? then p == Health(UP, 0, "")
            else p.errors == h.errors + 1 && p.mark == (if phase1 || h.errors + 1 >= threshold then DOWN else SLOW)
  {
  }

  // ---- any number of concurrent queries and health checks

  datatype Stage = Looking(next: nat) | Asking(at: nat) | Ended

  datatype Query = Query(msg: Msg, phase1: bool, stage: Stage)

  /** `logs` is history: for every upstream, the outcomes recorded for it, oldest first. */
  datatype System = System(hs: seq<Health>, logs: seq<seq<bool>>, queries: map<nat, Query>)

  datatype Event =
    | Start(id: nat, msg: Msg, phase1: bool)
    | Look(id: nat)
    | Reply(id: nat, reply: Asked)
    | Probe(index: nat, reply: Asked, phase1: bool)

  function Fresh(n: nat): System {
    System(seq(n, _ => HEALTHY), seq(n, _ => []), map[])
  }

  function Recorded(s: System, i: nat, h: Health, success: bool): System
    requires i < |s.hs| == |s.logs|
  {
    s.(hs := s.hs[i := h], logs := s.logs[i := s.logs[i] + [success]])
  }

  /** A query reads one upstream's state, or has passed the last one. */
  function LookStep(s: System, q: Query): Query
    requires q.stage.Looking?
  {
    var i := q.stage.next;
    q.(stage := if i >= |s.hs| then Ended else if Skipped(s.hs, i) then Looking(i + 1) else Asking(i))
  }

  function Step(s: System, e: Event, threshold: int): (r: System)
    requires |s.logs| == |s.hs|
    ensures |r.logs| == |r.hs| == |s.hs|
  {
    match e
    case Start(id, msg, phase1) =>
      if id in s.queries || |msg.question| != 1 then s
      else s.(queries := s.queries[id := Query(msg, phase1, Looking(0))])
    case Look(id) =>
      if id in s.queries && s.queries[id].stage.Looking? then s.(queries := s.queries[id := LookStep(s, s.queries[id])]) else s
    case Reply(id, reply) =>
      if id !in s.queries || !s.queries[id].stage.Asking? || s.queries[id].stage.at >= |s.hs| then s
      else
        var q := s.queries[id];
        var i := q.stage.at;
        if reply.Answer? && MatchesQuery(q.msg, reply.msg) then
          Recorded(s, i, HEALTHY, true).(queries := s.queries[id := q.(stage := Ended)])
        else
          Recorded(s, i, OnError(s.hs[i], ErrorText(reply), q.phase1, threshold), false)
            .(queries := s.queries[id := q.(stage := Looking(i + 1))])
    case Probe(i, reply, phase1) =>
      if i >= |s.hs| then s
      else if reply.Answer? then Recorded(s, i, HEALTHY, true)
      else Recorded(s, i, OnError(s.hs[i], ErrorText(reply), phase1, threshold), false)
  }

  function Run(s: System, events: seq<Event>, threshold: int): (r: System)
    requires |s.logs| == |s.hs|
    ensures |r.logs| == |r.hs| == |s.hs|
  {
    if events == [] then s else Step(Run(s, events[..|events| - 1], threshold), events[|events| - 1], threshold)
  }

  /** Errors since the last success. */
  function Streak(log: seq<bool>): nat {
    if log == [] || log[|log| - 1] then 0 else Streak(log[..|log| - 1]) + 1
  }

  predicate Consistent(h: Health, log: seq<bool>, threshold: int) {
    && h.errors == Streak(log)
    && (h.mark == UP <==> h.errors == 0)
    && (h.mark == SLOW ==> 1 <= h.errors < threshold)
  }

  lemma OutcomeKeeps(h: Health, log: seq<bool>, text: Option<string>, phase1: bool, threshold: int)
    requires Consistent(h, log, threshold)
    ensures Consistent(HEALTHY, log + [true], threshold)
    ensures Consistent(OnError(h, text, phase1, threshold), log + [false], threshold)
  {
    assert (log + [true])[..|log|] == log && (log + [false])[..|log|] == log;
  }

  lemma StepKeeps(s: System, e: Event, threshold: int, i: nat)
    requires |s.logs| == |s.hs| && i < |s.hs| && Consistent(s.hs[i], s.logs[i], threshold)
    ensures var t := Step(s, e, threshold); Consistent(t.hs[i], t.logs[i], threshold)
  {
    hide Consistent, OnError, MatchesQuery;
    if e.Reply? || e.Probe? {
      OutcomeKeeps(s.hs[i], s.logs[i], ErrorText(e.reply), true, threshold);
      OutcomeKeeps(s.hs[i], s.logs[i], ErrorText(e.reply), false, threshold);
    }
  }

  /** Health is consistent with history for every upstream, whatever mix of queries, health checks and
      phases led here. */
  lemma {:induction false} HealthInvariant(n: nat, events: seq<Event>, threshold: int, i: nat)
    requires i < n
    ensures var s := Run(Fresh(n), events, threshold); Consistent(s.hs[i], s.logs[i], threshold)
  {
    hide Step;
    if events != [] {
      var m := |events| - 1;
      HealthInvariant(n, events[..m], threshold, i);
      StepKeeps(Run(Fresh(n), events[..m], threshold), events[m], threshold, i);
    }
  }

  predicate AllDown(hs: seq<Health>) {
    |hs| >= 2 && forall i :: 0 <= i < |hs| ==> hs[i].mark == DOWN
  }

  predicate NobodyAsking(s: System) {
    forall id | id in s.queries :: !s.queries[id].stage.Asking?
  }

  /** Once every one of two or more upstreams is DOWN and no query is waiting for one, queries alone
      never change any health again. */
  lemma {:induction false} AllDownIsFrozen(s: System, events: seq<Event>, threshold: int)
    requires |s.logs| == |s.hs| && AllDown(s.hs) && NobodyAsking(s)
    requires forall e :: e in events ==> !e.Probe?
    ensures var r := Run(s, events, threshold); r.hs == s.hs && NobodyAsking(r)
  {
    if events != [] {
      AllDownIsFrozen(s, events[..|events| - 1], threshold);
      assert events[|events| - 1] in events;
    }
  }

  predicate InRange(s: System) {
    forall id | id in s.queries :: s.queries[id].stage.Asking? ==> s.queries[id].stage.at < |s.hs|
  }

  lemma {:induction false} AskersAreInRange(s: System, events: seq<Event>, threshold: int)
    requires |s.logs| == |s.hs| && InRange(s)
    ensures InRange(Run(s, events, threshold))
  {
    if events != [] {
      AskersAreInRange(s, events[..|events| - 1], threshold);
    }
  }

  predicate NoProbes(events: seq<Event>) {
    forall e :: e in events ==> !e.Probe?
  }

  /** And that is the exact condition: in every reachable state with all of two or more upstreams DOWN,
      queries are unable to change any health if and only if none is waiting for an upstream. */
  lemma FrozenIff(n: nat, history: seq<Event>, threshold: int)
    requires AllDown(Run(Fresh(n), history, threshold).hs)
    ensures var s := Run(Fresh(n), history, threshold);
            (forall events :: NoProbes(events) ==> Run(s, events, threshold).hs == s.hs) <==> NobodyAsking(s)
  {
    var s := Run(Fresh(n), history, threshold);
    AskersAreInRange(Fresh(n), history, threshold);
    if NobodyAsking(s) {
      forall events: seq<Event> | NoProbes(events) ensures Run(s, events, threshold).hs == s.hs {
        AllDownIsFrozen(s, events, threshold);
      }
    } else {
      var id :| id in s.queries && s.queries[id].stage.Asking?;
      var e := Reply(id, Error(""));
      var events := [e];
      assert events[..0] == [] && Run(s, events, threshold) == Step(s, e, threshold);
      assert NoProbes(events);
      assert Run(s, events, threshold).hs[s.queries[id].stage.at].errors == s.hs[s.queries[id].stage.at].errors + 1;
    }
  }

  lemma Then(s: System, events: seq<Event>, e: Event, threshold: int) returns (r: seq<Event>)
    requires |s.logs| == |s.hs|
    ensures r == events + [e] && Run(s, r, threshold) == Step(Run(s, events, threshold), e, threshold)
  {
    r := events + [e];
    assert r[..|r| - 1] == events;
  }

  /** Both sides occur: during startup one query takes both upstreams of a pair DOWN while another is
      still waiting for the first. */
  lemma AllDownWithAnAsker(msg: Msg, threshold: int) returns (events: seq<Event>)
    requires |msg.question| == 1
    ensures var s := Run(Fresh(2), events, threshold); AllDown(s.hs) && !NobodyAsking(s)
  {
    hide Run, MatchesQuery;
    var s := Fresh(2);
    var e0: seq<Event> := [];
    assert Run(s, e0, threshold) == s by {
      StartsFresh(threshold);
    }
    var e1 := Then(s, e0, Start(0, msg, true), threshold);
    var e2 := Then(s, e1, Look(0), threshold);
    var e3 := Then(s, e2, Start(1, msg, true), threshold);
    var e4 := Then(s, e3, Look(1), threshold);
    var e5 := Then(s, e4, Reply(1, Error("")), threshold);
    var e6 := Then(s, e5, Look(1), threshold);
    events := Then(s, e6, Reply(1, Error("")), threshold);
    assert Run(s, events, threshold).queries[0].stage.Asking?;
  }

  lemma StartsFresh(threshold: int)
    ensures Run(Fresh(2), [], threshold) == Fresh(2)
  {
  }

  /** In every run, what an error does: during startup the upstream is DOWN; later it is SLOW while its errors
      since the last success are below the threshold, whatever it was before, and DOWN from there on.  The
      text of the error is kept, and the query goes on to the next upstream. */
  lemma ErrorMarks(n: nat, events: seq<Event>, threshold: int, id: nat, reply: Asked)
    requires var s := Run(Fresh(n), events, threshold);
             && id in s.queries && s.queries[id].stage.Asking? && s.queries[id].stage.at < n
             && !(reply.Answer? && MatchesQuery(s.queries[id].msg, reply.msg))
    ensures var s, t := Run(Fresh(n), events, threshold), Run(Fresh(n), events + [Reply(id, reply)], threshold);
            var i := s.queries[id].stage.at;
            && t.hs[i].mark == (if s.queries[id].phase1 || Streak(s.logs[i]) + 1 >= threshold then DOWN else SLOW)
            && t.hs[i].errors == Streak(s.logs[i]) + 1
            && (reply.Error? ==> t.hs[i].lastError == reply.text)
            && (forall j :: 0 <= j < n && j != i ==> t.hs[j] == s.hs[j])
            && t.queries[id].stage == Looking(i + 1)
  {
    hide Run, MatchesQuery;
    HealthInvariant(n, events, threshold, Run(Fresh(n), events, threshold).queries[id].stage.at);
    var more := Then(Fresh(n), events, Reply(id, reply), threshold);
  }

  /** And what a success does: UP, no errors, no text; by a matching reply, or by any message to a probe. */
  lemma SuccessMarks(n: nat, events: seq<Event>, threshold: int, e: Event)
    requires var s := Run(Fresh(n), events, threshold);
             || (e.Probe? && e.index < n && e.reply.Answer?)
             || (e.Reply? && e.reply.Answer? && e.id in s.queries && s.queries[e.id].stage.Asking? && s.queries[e.id].stage.at < n && MatchesQuery(s.queries[e.id].msg, e.reply.msg))
    ensures var s, t := Run(Fresh(n), events, threshold), Run(Fresh(n), events + [e], threshold);
            && t.hs[if e.Probe? then e.index else s.queries[e.id].stage.at] == Health(UP, 0, "")
            && if e.Probe? then t.queries == s.queries else t.queries[e.id].stage == Ended
  {
    hide Run, MatchesQuery;
    var more := Then(Fresh(n), events, e, threshold);
  }

  /** Which upstream a query asks next: the first not DOWN, except that an upstream on its own is always
      asked. */
  lemma AskedNext(n: nat, events: seq<Event>, threshold: int, id: nat)
    requires var s := Run(Fresh(n), events, threshold); id in s.queries && s.queries[id].stage.Looking?
    ensures var s, t := Run(Fresh(n), events, threshold), Run(Fresh(n), events + [Look(id)], threshold);
            var i := s.queries[id].stage.next;
            t.queries[id].stage == if i >= n then Ended else if n > 1 && s.hs[i].mark == DOWN then Looking(i + 1) else Asking(i)
  {
    hide Run;
    var more := Then(Fresh(n), events, Look(id), threshold);
  }

  /** In every run, a failing health check in phase two puts an upstream that is DOWN back in use, as SLOW,
      exactly when its errors since the last success stay below the threshold. */
  lemma FailedProbeCanRevive(n: nat, events: seq<Event>, threshold: int, i: nat, reply: Asked)
    requires i < n && !reply.Answer? && Run(Fresh(n), events, threshold).hs[i].mark == DOWN
    ensures Run(Fresh(n), events + [Probe(i, reply, false)], threshold).hs[i].mark == SLOW <==>
            Streak(Run(Fresh(n), events, threshold).logs[i]) + 1 < threshold
  {
    hide Run;
    HealthInvariant(n, events, threshold, i);
    var more := Then(Fresh(n), events, Probe(i, reply, false), threshold);
  }

  /** Such a run: the first upstream of a pair fails during startup and is DOWN, so queries skip it; its
      health check fails too, and the next query asks it. */
  lemma FailedProbeRevives(msg: Msg, threshold: int) returns (down: seq<Event>, events: seq<Event>)
    requires |msg.question| == 1 && threshold > 2
    ensures var s := Run(Fresh(2), down, threshold); s.hs[0].mark == DOWN && Skipped(s.hs, 0)
    ensures down < events && events[|down|] == Probe(0, Error(""), false)
    ensures var s := Run(Fresh(2), events, threshold); s.hs[0].mark == SLOW && 1 in s.queries && s.queries[1].stage == Asking(0)
  {
    hide Run, MatchesQuery;
    var s := Fresh(2);
    StartsFresh(threshold);
    var e1 := Then(s, [], Start(0, msg, true), threshold);
    var e2 := Then(s, e1, Look(0), threshold);
    down := Then(s, e2, Reply(0, Error("")), threshold);
    var e4 := Then(s, down, Probe(0, Error(""), false), threshold);
    var e5 := Then(s, e4, Start(1, msg, false), threshold);
    events := Then(s, e5, Look(1), threshold);
  }
}
