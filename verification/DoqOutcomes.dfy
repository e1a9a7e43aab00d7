/** What a DoQ query returns, and after what: over every run of the shared pool. */
module DoqOutcomes {
  import opened Dns
  import opened DoqPool

  /** What can happen to a query: no connection to reuse and the dial failed; a stream did not open; the query
      did not pack; the exchange broke or brought a useless reply; a good reply came. */
  datatype Fact = NoDial | BadOpen | BadPack | BadExchange | GoodReply(resp: Msg)

  /** The reply answers the one question of the query, and is neither truncated nor an empty success without
      an SOA. */
  predicate Good(msg: Msg, resp: Msg) {
    && |msg.question| == 1 && |resp.question| == 1 && SameQuestion(msg.question[0], resp.question[0])
    && !resp.truncated
    && (resp.rcode == 0 && resp.answer == [] ==> exists rr :: rr in resp.authority && rr.SoaRR?)
  }

  /** What an event, if it takes place, means for a query. */
  function FactOf(s: State, e: Event, id: nat): seq<Fact> {
    if !Enabled(s, e) || e.Shutdown? || e.Arrive? || e.id != id then []
    else
      match e
      case GetConn(_, now, dialOk) =>
        if !dialOk && (s.pool.conn.None? || now - s.pool.lastUsed >= 20_000_000_000) then [NoDial] else []
      case OpenStream(_, ok) => if ok then [] else [BadOpen]
      case Exchange(_, frame) =>
        [match frame
         case PackFailed => BadPack
         case Broken => BadExchange
         case Got(resp) => if Good(s.queries[id].msg, resp) then GoodReply(resp) else BadExchange]
      case _ => []
  }

  /** Everything that happened to a query in a run, in order. */
  function History(events: seq<Event>, id: nat): seq<Fact> {
    if events == [] then []
    else History(events[..|events| - 1], id) + FactOf(Run(events[..|events| - 1]), events[|events| - 1], id)
  }

  /** Failed exchanges in all, and failed opens since the last of them. */
  function BadExchanges(h: seq<Fact>): nat {
    if h == [] then 0 else BadExchanges(h[..|h| - 1]) + if h[|h| - 1].BadExchange? then 1 else 0
  }

  function BadOpens(h: seq<Fact>): nat {
    if h == [] || h[|h| - 1].BadExchange? then 0 else BadOpens(h[..|h| - 1]) + if h[|h| - 1].BadOpen? then 1 else 0
  }

  /** Facts after which a query goes on. */
  predicate Open(h: seq<Fact>) {
    forall f :: f in h ==> f.BadOpen? || f.BadExchange?
  }

  /** The one good reply, and nothing after it. */
  predicate Replied(h: seq<Fact>, resp: Msg) {
    h != [] && h[|h| - 1] == GoodReply(resp) && Open(h[..|h| - 1])
  }

  predicate GaveUp(h: seq<Fact>) {
    || (h != [] && Open(h[..|h| - 1]) && (h[|h| - 1].NoDial? || h[|h| - 1].BadPack?))
    || (Open(h) && (BadOpens(h) == 2 || BadExchanges(h) == 2))
  }

  /** The stage of a query says exactly what has happened to it. */
  predicate Told(h: seq<Fact>, q: Query) {
    match q.stage
    case Touching(_, resp) => Replied(h, resp)
    case Finished(result) => if result.Some? then Replied(h, result.value) else GaveUp(h)
    case Unpooling(_, next) => Failing(h, q, next)
    case Closing(_, next) => Failing(h, q, next)
    case _ => Trying(h, q)
  }

  predicate Trying(h: seq<Fact>, q: Query) {
    Open(h) && 1 <= q.attempt <= 2 && BadExchanges(h) == q.attempt - 1 && BadOpens(h) == if q.reopened then 1 else 0
  }

  predicate Failing(h: seq<Fact>, q: Query, next: Then) {
    && Open(h) && 1 <= q.attempt <= 2
    && match next
       case Reopen => !q.reopened && BadExchanges(h) == q.attempt - 1 && BadOpens(h) == 1
       case GiveUp => BadExchanges(h) == q.attempt - 1 && BadOpens(h) == 2
       case Retry => BadExchanges(h) == q.attempt && BadOpens(h) == 0
  }

  lemma OneFact(h: seq<Fact>, f: Fact)
    ensures BadExchanges(h + [f]) == BadExchanges(h) + (if f.BadExchange? then 1 else 0)
    ensures BadOpens(h + [f]) == if f.BadExchange? then 0 else BadOpens(h) + (if f.BadOpen? then 1 else 0)
    ensures (h + [f])[..|h + [f]| - 1] == h && (h + [f])[|h + [f]| - 1] == f
    ensures Open(h + [f]) <==> Open(h) && (f.BadOpen? || f.BadExchange?)
  {
    assert (h + [f])[..|h|] == h;
    assert f in h + [f];
  }

  lemma GoodIs(msg: Msg, resp: Msg)
    ensures Good(msg, resp) <==> MatchesQuery(msg, resp) && Usable(resp)
  {
  }

  lemma Unaffected(s: State, e: Event, id: nat)
    requires id in s.queries && (!Enabled(s, e) || e.Shutdown? || e.Arrive? || e.id != id)
    ensures id in Next(s, e).queries && Next(s, e).queries[id] == s.queries[id] && FactOf(s, e, id) == []
  {
    hide MatchesQuery, Usable, Good, Get;
  }

  /** A step of the query's own that reports something. */
  lemma FactTells(s: State, e: Event, id: nat, h: seq<Fact>, f: Fact)
    requires id in s.queries && Told(h, s.queries[id]) && FactOf(s, e, id) == [f]
    ensures id in Next(s, e).queries && Told(h + [f], Next(s, e).queries[id])
  {
    hide MatchesQuery, Usable, Good, BadExchanges, BadOpens, Open;
    OneFact(h, f);
    if e.Exchange? && e.frame.Got? {
      GoodIs(s.queries[id].msg, e.frame.resp);
    }
  }

  /** And one that does not. */
  lemma NothingTells(s: State, e: Event, id: nat, h: seq<Fact>)
    requires id in s.queries && Told(h, s.queries[id]) && FactOf(s, e, id) == []
    ensures id in Next(s, e).queries && Told(h, Next(s, e).queries[id])
  {
    hide MatchesQuery, Usable, Good, BadExchanges, BadOpens, Open;
    if !Enabled(s, e) || e.Shutdown? || e.Arrive? || e.id != id {
      Unaffected(s, e, id);
    }
  }

  lemma StepTells(s: State, e: Event, id: nat, h: seq<Fact>)
    requires id in s.queries && Told(h, s.queries[id])
    ensures id in Next(s, e).queries && Told(h + FactOf(s, e, id), Next(s, e).queries[id])
  {
    var facts := FactOf(s, e, id);
    assert |facts| <= 1;
    hide *;
    if facts == [] {
      NothingTells(s, e, id, h);
      assert h + facts == h;
    } else {
      FactTells(s, e, id, h, facts[0]);
      assert facts == [facts[0]];
    }
  }

  lemma StartTells(m: Msg)
    ensures Told([], Query(m, 1, false, {}, 0, Getting))
  {
  }

  lemma {:induction false} RunTells(events: seq<Event>, id: nat)
    ensures if id in Run(events).queries then Told(History(events, id), Run(events).queries[id]) else History(events, id) == []
  {
    if events != [] {
      var n := |events| - 1;
      var s, e := Run(events[..n]), events[n];
      RunTells(events[..n], id);
      assert Run(events) == Next(s, e);
      hide Run, Next, Told;
      if id in s.queries {
        StepTells(s, e, id, History(events[..n], id));
      } else {
        NotYet(s, e, id);
        if id in Next(s, e).queries {
          StartTells(e.msg);
        }
      }
    }
  }

  lemma NotYet(s: State, e: Event, id: nat)
    requires id !in s.queries
    ensures FactOf(s, e, id) == [] && (id in Next(s, e).queries ==> e.Arrive? && Next(s, e).queries[id] == Query(e.msg, 1, false, {}, 0, Getting))
  {
    hide MatchesQuery, Usable, Good, Get;
  }

  /** In every run, a query that has finished returned a reply exactly if that reply came in an exchange of its
      own and is good; and it returned none exactly if it did not pack, or there was nothing to reuse and
      no dial, or a stream failed to open twice in one attempt, or an exchange failed twice. */
  lemma FinishedMeans(events: seq<Event>, id: nat)
    requires id in Run(events).queries && Run(events).queries[id].stage.Finished?
    ensures var result, h := Run(events).queries[id].stage.result, History(events, id);
            && (forall resp :: result == Some(resp) <==> GoodReply(resp) in h)
            && (result == None <==> BadPack in h || NoDial in h || BadOpens(h) == 2 || BadExchanges(h) == 2)
  {
    hide Run, BadExchanges, BadOpens;
    RunTells(events, id);
    var result, h := Run(events).queries[id].stage.result, History(events, id);
    hide History, GaveUp, Open;
    if h != [] {
      assert h == h[..|h| - 1] + [h[|h| - 1]];
    }
    if result.Some? {
      FewFacts(h[..|h| - 1], h[|h| - 1], events, id);
      RepliedIs(h[..|h| - 1], result.value);
    } else {
      GaveUpIs(h);
    }
  }

  lemma RepliedIs(before: seq<Fact>, resp: Msg)
    requires Open(before)
    ensures var h := before + [GoodReply(resp)];
            && BadPack !in h && NoDial !in h && forall r :: GoodReply(r) in h <==> r == resp
  {
    var h := before + [GoodReply(resp)];
    assert h[|before|] == GoodReply(resp);
  }

  lemma GaveUpIs(h: seq<Fact>)
    requires GaveUp(h)
    ensures BadPack in h || NoDial in h || BadOpens(h) == 2 || BadExchanges(h) == 2
    ensures forall r :: GoodReply(r) !in h
  {
    hide BadOpens, BadExchanges;
    if h != [] {
      var n := |h| - 1;
      assert h == h[..n] + [h[n]] && h[n] in h;
    }
  }

  /** Before the good reply at most one exchange failed, and at most one open since. */
  lemma FewFacts(before: seq<Fact>, last: Fact, events: seq<Event>, id: nat)
    requires History(events, id) == before + [last] && last.GoodReply? && Open(before)
    ensures BadExchanges(before + [last]) < 2 && BadOpens(before + [last]) < 2
  {
    hide Run, BadExchanges, BadOpens, FactOf;
    OneFact(before, last);
    BeforeLast(events, id);
  }

  /** While a query goes on it has not used up its attempts. */
  lemma {:induction false} BeforeLast(events: seq<Event>, id: nat)
    requires var h := History(events, id); h != [] && h[|h| - 1].GoodReply?
    ensures var h := History(events, id); BadExchanges(h[..|h| - 1]) < 2 && BadOpens(h[..|h| - 1]) < 2
  {
    var n := |events| - 1;
    var s, e := Run(events[..n]), events[n];
    var h := History(events[..n], id);
    RunTells(events[..n], id);
    hide Run, BadExchanges, BadOpens;
    if FactOf(s, e, id) == [] {
      BeforeLast(events[..n], id);
      assert History(events, id) == h;
    } else {
      OneAtATime(s, e, id);
      assert History(events, id)[..|History(events, id)| - 1] == h;
    }
  }

  lemma OneAtATime(s: State, e: Event, id: nat)
    ensures |FactOf(s, e, id)| <= 1
    ensures FactOf(s, e, id) != [] && FactOf(s, e, id)[0].GoodReply? ==> id in s.queries && s.queries[id].stage.Exchanging?
  {
    hide Good, Get;
  }

  // ---- when the connection was last used

  /** The latest dial that succeeded, or exchange that did. */
  function LatestUse(events: seq<Event>): int {
    if events == [] then 0
    else
      var before, e := events[..|events| - 1], events[|events| - 1];
      var p := Run(before).pool;
      if !Enabled(Run(before), e) then LatestUse(before)
      else
        match e
        case Touch(_, now) => now
        case GetConn(_, now, dialOk) =>
          if dialOk && (p.conn.None? || now - LatestUse(before) >= 20_000_000_000) then now else LatestUse(before)
        case _ => LatestUse(before)
  }

  lemma {:induction false} LastUsedIs(events: seq<Event>)
    ensures Run(events).pool.lastUsed == LatestUse(events)
  {
    hide MatchesQuery, Usable;
    if events != [] {
      LastUsedIs(events[..|events| - 1]);
    }
  }

  /** What a query that asks for a connection gets: the pooled one if it was used less than 20 seconds ago,
      otherwise a new one if the dial succeeds, otherwise none. */
  lemma ConnectionIs(events: seq<Event>, id: nat, now: int, dialOk: bool)
    requires id in Run(events).queries && Run(events).queries[id].stage.Getting?
    ensures var p, q := Run(events).pool, Run(events + [GetConn(id, now, dialOk)]).queries[id];
            q.stage == if p.conn.Some? && now - LatestUse(events) < 20_000_000_000 then Opening(p.conn.value)
                       else if dialOk then Opening(p.dialed) else Finished(None)
  {
    hide Run, LatestUse;
    LastUsedIs(events);
    var all := Then1(events, GetConn(id, now, dialOk));
  }
}
