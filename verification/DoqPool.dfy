/** The DoQ client: one pooled QUIC connection shared by all concurrent queries, identity-checked
    teardown and a single retry (sections 4.2 and 5.5.1 of RFC 9250).

    `Pool` is what the resolver's mutex guards, `Resolver` is the class that holds it, and `Run` is any
    interleaving of any number of queries, one event per lock section or network action. */
module DoqPool {
  import opened Dns

  const IDLE_LIMIT: int := 20 * SECOND

  /** Connections are numbered in the order they are dialed. */
  type Conn = nat

  datatype Pool = Pool(conn: Option<Conn>, lastUsed: int, dialed: nat, closed: set<Conn>)

  // ---- lock sections

  /** Reuse inside the idle limit; otherwise close what is pooled and dial. */
  function Get(p: Pool, now: int, dialOk: bool): (Option<Conn>, Pool) {
    if p.conn.Some? && now - p.lastUsed < IDLE_LIMIT then (p.conn, p)
    else
      var q := if p.conn.Some? then p.(conn := None, closed := p.closed + {p.conn.value}) else p;
      if dialOk then (Some(q.dialed), Pool(Some(q.dialed), now, q.dialed + 1, q.closed)) else (None, q)
  }

  function Unpool(p: Pool, bad: Conn): Pool {
    if p.conn == Some(bad) then p.(conn := None) else p
  }

  function CloseOne(p: Pool, bad: Conn): Pool {
    p.(closed := p.closed + {bad})
  }

  function CloseAll(p: Pool): Pool {
    if p.conn.Some? then p.(conn := None, closed := p.closed + {p.conn.value}) else p
  }

  class Resolver {
    var conn: Option<Conn>
    var lastUsed: int
    var dialed: nat
    var closed: set<Conn>

    constructor ()
      ensures Value() == Pool(None, 0, 0, {})
    {
      conn, lastUsed, dialed, closed := None, 0, 0, {};
    }

    ghost function Value(): Pool
      reads this
    {
      Pool(conn, lastUsed, dialed, closed)
    }

    method GetConnection(now: int, dialOk: bool) returns (r: Option<Conn>)
      modifies this
      ensures (r, Value()) == Get(old(Value()), now, dialOk)
    {
      if conn.Some? {
        if now - lastUsed < IDLE_LIMIT {
          return conn;
        }
        closed := closed + {conn.value};
        conn := None;
      }
      if !dialOk {
        return None;
      }
      r := Some(dialed);
      dialed := dialed + 1;
      conn := r;
      lastUsed := now;
    }

    /** Both halves of recycling, without a step of another query in between. */
    method RecycleConn(bad: Conn)
      modifies this
      ensures Value() == CloseOne(Unpool(old(Value()), bad), bad)
    {
      if conn == Some(bad) {
        conn := None;
      }
      closed := closed + {bad};
    }

    method CloseConnection()
      modifies this
      ensures Value() == CloseAll(old(Value()))
    {
      if conn.Some? {
        closed := closed + {conn.value};
        conn := None;
      }
    }
  }

  // ---- response guards

  /** Truncated, or an empty success without the SOA that scopes a real negative answer. */
  predicate Usable(resp: Msg) {
    && !resp.truncated
    && !(resp.rcode == RCODE_SUCCESS && resp.answer == [] && !exists rr :: rr in resp.authority && rr.SoaRR?)
  }

  // ---- interleaved queries

  /** Where a recycled query goes next. */
  datatype Then = Reopen | GiveUp | Retry

  datatype Stage =
    | Getting
    | Opening(conn: Conn)
    | Exchanging(conn: Conn)
    | Unpooling(conn: Conn, next: Then)
    | Closing(conn: Conn, next: Then)
    | Touching(conn: Conn, resp: Msg)
    | Finished(result: Option<Msg>)

  /** `failed` and `failedAt` are history: the connections this query has already given up on, and how
      many connections had been dialed when its exchange last failed. */
  datatype Query = Query(msg: Msg, attempt: nat, reopened: bool, failed: set<Conn>, failedAt: nat, stage: Stage)

  datatype State = State(pool: Pool, queries: map<nat, Query>)

  datatype Frame = PackFailed | Broken | Got(resp: Msg)

  datatype Event =
    | Arrive(id: nat, msg: Msg)
    | GetConn(id: nat, now: int, dialOk: bool)
    | OpenStream(id: nat, ok: bool)
    | Exchange(id: nat, frame: Frame)
    | DoUnpool(id: nat)
    | DoClose(id: nat)
    | Touch(id: nat, now: int)
    | Shutdown

  function Init(): State {
    State(Pool(None, 0, 0, {}), map[])
  }

  function With(s: State, id: nat, q: Query): State {
    s.(queries := s.queries[id := q])
  }

  function AfterGet(q: Query, c: Option<Conn>): Query {
    q.(stage := if c.Some? then Opening(c.value) else Finished(None))
  }

  function AfterOpen(q: Query, ok: bool): Query
    requires q.stage.Opening?
  {
    q.(stage := if ok then Exchanging(q.stage.conn)
                else Unpooling(q.stage.conn, if q.reopened then GiveUp else Reopen))
  }

  function AfterExchange(q: Query, frame: Frame, dialed: nat): Query
    requires q.stage.Exchanging?
  {
    var failure := q.(failedAt := dialed, stage := Unpooling(q.stage.conn, Retry));
    match frame
    case PackFailed => q.(stage := Finished(None))
    case Broken => failure
    case Got(resp) => if MatchesQuery(q.msg, resp) && Usable(resp) then q.(stage := Touching(q.stage.conn, resp)) else failure
  }

  function AfterClose(q: Query): Query
    requires q.stage.Closing?
  {
    var r := q.(failed := q.failed + {q.stage.conn});
    match q.stage.next
    case Reopen => r.(reopened := true, stage := Getting)
    case GiveUp => r.(stage := Finished(None))
    case Retry => if q.attempt == 1 then r.(attempt := 2, reopened := false, stage := Getting) else r.(stage := Finished(None))
  }

  predicate Enabled(s: State, e: Event) {
    match e
    case Arrive(id, _) => id !in s.queries
    case GetConn(id, _, _) => id in s.queries && s.queries[id].stage.Getting?
    case OpenStream(id, _) => id in s.queries && s.queries[id].stage.Opening?
    case Exchange(id, _) => id in s.queries && s.queries[id].stage.Exchanging?
    case DoUnpool(id) => id in s.queries && s.queries[id].stage.Unpooling?
    case DoClose(id) => id in s.queries && s.queries[id].stage.Closing?
    case Touch(id, _) => id in s.queries && s.queries[id].stage.Touching?
    case Shutdown => true
  }

  /** An event that is not possible now changes nothing. */
  function Next(s: State, e: Event): State {
    if !Enabled(s, e) then s else
    match e
    case Arrive(id, msg) => With(s, id, Query(msg, 1, false, {}, 0, Getting))
    case GetConn(id, now, dialOk) =>
      var (c, p) := Get(s.pool, now, dialOk);
      With(s.(pool := p), id, AfterGet(s.queries[id], c))
    case OpenStream(id, ok) => With(s, id, AfterOpen(s.queries[id], ok))
    case Exchange(id, frame) => With(s, id, AfterExchange(s.queries[id], frame, s.pool.dialed))
    case DoUnpool(id) =>
      var q := s.queries[id];
      With(s.(pool := Unpool(s.pool, q.stage.conn)), id, q.(stage := Closing(q.stage.conn, q.stage.next)))
    case DoClose(id) =>
      var q := s.queries[id];
      With(s.(pool := CloseOne(s.pool, q.stage.conn)), id, AfterClose(q))
    case Touch(id, now) =>
      var q := s.queries[id];
      With(s.(pool := s.pool.(lastUsed := now)), id, q.(stage := Finished(Some(q.stage.resp))))
    case Shutdown => s.(pool := CloseAll(s.pool))
  }

  function Run(events: seq<Event>): State {
    if events == [] then Init() else Next(Run(events[..|events| - 1]), events[|events| - 1])
  }

  // ---- what every reachable state satisfies

  predicate Holds(st: Stage, c: Conn) {
    match st
    case Opening(d) => c == d
    case Exchanging(d) => c == d
    case Unpooling(d, _) => c == d
    case Closing(d, _) => c == d
    case Touching(d, _) => c == d
    case _ => false
  }

  ghost predicate QueryOk(p: Pool, q: Query) {
    && 1 <= q.attempt <= 2
    && (forall c: Conn :: Holds(q.stage, c) ==> c < p.dialed && c !in q.failed)
    && q.failed <= p.closed && q.failedAt <= p.dialed
    && (q.stage.Closing? ==> p.conn != Some(q.stage.conn))
    && ((q.stage.Unpooling? || q.stage.Closing?) && q.stage.next.Reopen? ==> !q.reopened)
    && (q.stage.Touching? ==> MatchesQuery(q.msg, q.stage.resp) && Usable(q.stage.resp))
    && (q.stage.Finished? && q.stage.result.Some? ==> MatchesQuery(q.msg, q.stage.result.value) && Usable(q.stage.result.value))
  }

  ghost predicate BeingClosed(s: State, c: Conn) {
    exists id :: id in s.queries && s.queries[id].stage.Closing? && s.queries[id].stage.conn == c
  }

  /** Every connection is pooled, closed, or in the hands of a query about to close it; the pooled one
      is neither closed nor about to be; no query holds a connection it has given up on. */
  ghost predicate Safe(s: State) {
    && (s.pool.conn.Some? ==> s.pool.conn.value < s.pool.dialed && s.pool.conn.value !in s.pool.closed)
    && (forall c :: c in s.pool.closed ==> c < s.pool.dialed)
    && (forall c: Conn | c < s.pool.dialed :: s.pool.conn == Some(c) || c in s.pool.closed || BeingClosed(s, c))
    && (forall id | id in s.queries :: QueryOk(s.pool, s.queries[id]))
  }

  /** What a step may do to the pool without hurting the queries that did not take it. */
  ghost predicate PoolStep(p: Pool, p': Pool) {
    && p.dialed <= p'.dialed && p.closed <= p'.closed
    && (p'.conn.Some? ==> p'.conn == p.conn || p'.conn.value >= p.dialed)
  }

  lemma QueryStays(p: Pool, p': Pool, q: Query)
    requires QueryOk(p, q) && PoolStep(p, p')
    ensures QueryOk(p', q)
  {
    hide MatchesQuery, Usable;
    assert q.stage.Closing? ==> Holds(q.stage, q.stage.conn);
  }

  lemma PoolMoves(s: State, e: Event)
    requires Safe(s) && Enabled(s, e)
    ensures var p' := Next(s, e).pool;
            && PoolStep(s.pool, p')
            && (p'.conn.Some? ==> p'.conn.value < p'.dialed && p'.conn.value !in p'.closed)
            && forall c :: c in p'.closed ==> c < p'.dialed
  {
    hide MatchesQuery, Usable;
    if !e.Shutdown? && !e.Arrive? {
      assert QueryOk(s.pool, s.queries[e.id]);
      assert e.DoClose? ==> Holds(s.queries[e.id].stage, s.queries[e.id].stage.conn);
    }
  }

  lemma OwnStep(s: State, e: Event)
    requires Safe(s) && Enabled(s, e) && !e.Shutdown?
    ensures QueryOk(Next(s, e).pool, Next(s, e).queries[e.id])
  {
    hide MatchesQuery, Usable;
    if !e.Arrive? {
      var q := s.queries[e.id];
      assert QueryOk(s.pool, q);
      assert !q.stage.Getting? && !q.stage.Finished? ==> Holds(q.stage, q.stage.conn);
    }
  }

  lemma OthersUntouched(s: State, e: Event, id: nat)
    requires Enabled(s, e) && (e.Shutdown? || id != e.id)
    ensures (id in Next(s, e).queries <==> id in s.queries) && (id in s.queries ==> Next(s, e).queries[id] == s.queries[id])
  {
    hide MatchesQuery, Usable, Get;
  }

  lemma StaysAccounted(s: State, e: Event, c: Conn)
    requires Safe(s) && Enabled(s, e) && c < Next(s, e).pool.dialed
    ensures var s' := Next(s, e); s'.pool.conn == Some(c) || c in s'.pool.closed || BeingClosed(s', c)
  {
    hide MatchesQuery, Usable, QueryOk;
    var s' := Next(s, e);
    if c < s.pool.dialed && BeingClosed(s, c) {
      var id :| id in s.queries && s.queries[id].stage.Closing? && s.queries[id].stage.conn == c;
      if e.Shutdown? || e.id != id {
        OthersUntouched(s, e, id);
        assert id in s'.queries && s'.queries[id].stage.Closing? && s'.queries[id].stage.conn == c;
      } else {
        assert e == DoClose(id);
      }
    } else if e.DoUnpool? && c == s.queries[e.id].stage.conn {
      assert e.id in s'.queries && s'.queries[e.id].stage.Closing? && s'.queries[e.id].stage.conn == c;
    }
  }

  lemma StepIsSafe(s: State, e: Event)
    requires Safe(s)
    ensures Safe(Next(s, e)) && PoolStep(s.pool, Next(s, e).pool)
  {
    if Enabled(s, e) {
      hide Next, Enabled, QueryOk;
      var s' := Next(s, e);
      PoolMoves(s, e);
      forall id | id in s'.queries ensures QueryOk(s'.pool, s'.queries[id]) {
        if !e.Shutdown? && id == e.id {
          OwnStep(s, e);
        } else {
          OthersUntouched(s, e, id);
          QueryStays(s.pool, s'.pool, s.queries[id]);
        }
      }
      forall c: Conn | c < s'.pool.dialed ensures s'.pool.conn == Some(c) || c in s'.pool.closed || BeingClosed(s', c) {
        StaysAccounted(s, e, c);
      }
    }
  }

  /** Pool safety over every interleaving. */
  lemma {:induction false} RunIsSafe(events: seq<Event>)
    ensures Safe(Run(events))
  {
    if events == [] {
      assert Run(events) == Init();
    } else {
      RunIsSafe(events[..|events| - 1]);
      StepIsSafe(Run(events[..|events| - 1]), events[|events| - 1]);
    }
  }

  /** Recycling one connection neither unpools nor closes any other. */
  lemma RecycleIsScoped(s: State, e: Event, other: Conn)
    requires Enabled(s, e) && (e.DoUnpool? || e.DoClose?) && other != s.queries[e.id].stage.conn
    ensures var s' := Next(s, e);
            && (s.pool.conn == Some(other) ==> s'.pool.conn == Some(other))
            && (other in s'.pool.closed ==> other in s.pool.closed)
  {
  }

  /** After a failure on a connection, no later attempt of the same query uses it, whatever the other
      queries do in between. */
  lemma {:induction false} FailedIsNeverReused(events: seq<Event>, more: seq<Event>, id: nat, c: Conn)
    requires var s := Run(events); id in s.queries && s.queries[id].stage.Closing? && s.queries[id].stage.conn == c
    ensures var s := Run(events + more); id in s.queries && (Holds(s.queries[id].stage, c) ==> s.queries[id] == Run(events).queries[id])
    ensures var s := Run(events + more); s.queries[id] == Run(events).queries[id] || c in s.queries[id].failed
  {
    if more == [] {
      assert events + more == events;
    } else {
      var n := |more| - 1;
      var all := events + more;
      assert all[..|all| - 1] == events + more[..n] && all[|all| - 1] == more[n];
      FailedIsNeverReused(events, more[..n], id, c);
      QueryStep(Run(events + more[..n]), more[n], id);
      RunIsSafe(all);
    }
  }

  /** A query's history only grows, and it leaves `Closing` only by recording the connection there. */
  lemma QueryStep(s: State, e: Event, id: nat)
    requires id in s.queries
    ensures var s' := Next(s, e);
            && id in s'.queries
            && s.queries[id].failed <= s'.queries[id].failed
            && (s.queries[id].stage.Closing? ==>
                  s'.queries[id] == s.queries[id] || s.queries[id].stage.conn in s'.queries[id].failed)
  {
    hide MatchesQuery, Usable, Get;
  }

  // ---- one retry, no more

  /** Steps a query can still take. */
  function Budget(q: Query): nat {
    (if q.attempt == 1 then 11 else 0) +
    (if q.reopened then 0 else 5) +
    match q.stage
    case Getting => 5
    case Opening(_) => 4
    case Exchanging(_) => 3
    case Unpooling(_, _) => 2
    case Closing(_, _) => 1
    case Touching(_, _) => 1
    case Finished(_) => 0
  }

  predicate Mine(e: Event, id: nat) {
    !e.Shutdown? && !e.Arrive? && e.id == id
  }

  /** Every step of a query uses up budget and no step of another query changes it: a query takes at
      most 21 steps, so it retries at most once and never loops. */
  lemma StepsAreBounded(s: State, e: Event, id: nat)
    requires Safe(s) && id in s.queries && Enabled(s, e)
    ensures var q, q' := s.queries[id], Next(s, e).queries[id];
            if Mine(e, id) then Budget(q') < Budget(q) else q' == q
    ensures Budget(s.queries[id]) <= 21
  {
    hide MatchesQuery, Usable, Get;
    assert QueryOk(s.pool, s.queries[id]);
  }

  // ---- the retry is not always a fresh dial

  /** Two queries share connection 0; query 1 fails first and dials connection 1. */
  lemma SiblingRedials(m: Msg) returns (before: seq<Event>)
    ensures var s := Run(before);
            && s.queries.Keys == {0, 1} && s.queries[0] == Query(m, 1, false, {}, 0, Exchanging(0))
            && s.pool.conn == Some(1) && s.pool.dialed == 2 && s.pool.lastUsed == 2
  {
    hide Run, MatchesQuery, Usable;
    StartsEmpty();
    var e0 := Then1([], Arrive(0, m));
    var e1 := Then1(e0, GetConn(0, 0, true));
    var e2 := Then1(e1, Arrive(1, m));
    var e3 := Then1(e2, GetConn(1, 1, true));
    var e4 := Then1(e3, OpenStream(0, true));
    var e5 := Then1(e4, OpenStream(1, true));
    var e6 := Then1(e5, Exchange(1, Broken));
    var e7 := Then1(e6, DoUnpool(1));
    var e8 := Then1(e7, DoClose(1));
    before := Then1(e8, GetConn(1, 2, true));
  }

  /** When query 0 then fails on connection 0, its retry is handed connection 1, dialed before that
      failure. */
  lemma RetryCanReuseASibling(m: Msg)
    ensures exists before, after ::
      && Run(before).queries.Keys == {0, 1} && Run(before).queries[0].stage.Exchanging? && Run(before).pool.dialed == 2
      && Run(before + after).queries.Keys == {0, 1}
      && Run(before + after).queries[0].attempt == 2 && Run(before + after).queries[0].stage == Opening(1)
      && Run(before + after).pool.dialed == 2
  {
    hide Run, MatchesQuery, Usable;
    var before := SiblingRedials(m);
    var f0 := Then1(before, Exchange(0, Broken));
    var f1 := Then1(f0, DoUnpool(0));
    var f2 := Then1(f1, DoClose(0));
    var f3 := Then1(f2, GetConn(0, 3, true));
    assert f3 == before + [Exchange(0, Broken), DoUnpool(0), DoClose(0), GetConn(0, 3, true)];
  }

  lemma StartsEmpty()
    ensures Run([]) == Init()
  {
  }

  lemma Then1(events: seq<Event>, e: Event) returns (r: seq<Event>)
    ensures r == events + [e] && Run(r) == Next(Run(events), e)
  {
    r := events + [e];
    assert r[..|r| - 1] == events;
  }

  /** Exactly when a retry is fresh: whenever the second attempt of a query gets a connection, in any run,
      that connection was dialed after the failure if and only if nothing was pooled then, or what was
      pooled had been idle too long, or it had itself been dialed after the failure. */
  lemma RetryIsFreshIff(events: seq<Event>, id: nat, now: int, dialOk: bool)
    requires var s := Run(events); id in s.queries && s.queries[id].stage.Getting? && s.queries[id].attempt == 2
    requires Run(events + [GetConn(id, now, dialOk)]).queries[id].stage.Opening?
    ensures var p, q := Run(events).pool, Run(events).queries[id];
            Run(events + [GetConn(id, now, dialOk)]).queries[id].stage.conn >= q.failedAt <==>
            p.conn.None? || now - p.lastUsed >= IDLE_LIMIT || p.conn.value >= q.failedAt
  {
    hide Run;
    RunIsSafe(events);
    var all := Then1(events, GetConn(id, now, dialOk));
    assert QueryOk(Run(events).pool, Run(events).queries[id]);
  }

  /** What `failedAt` records: the connections dialed when the exchange fails that leads to the retry. */
  lemma {:induction false} FailureIsMarked(events: seq<Event>, id: nat)
    requires id in Run(events).queries && Run(events).queries[id].attempt == 2
    ensures exists i :: 0 <= i < |events| && FailsHere(events, i, id) && Run(events).queries[id].failedAt == Run(events[..i]).pool.dialed
  {
    var n := |events| - 1;
    var s, e := Run(events[..n]), events[n];
    assert Run(events) == Next(s, e);
    hide Run;
    MarkStep(s, e, id);
    if FailedExchange(s, e, id) {
      assert FailsHere(events, n, id);
    } else if s.queries[id].attempt == 2 {
      FailureIsMarked(events[..n], id);
      MarkCarries(events, n, id);
    } else {
      MarkedBefore(events[..n], id);
      MarkCarries(events, n, id);
    }
  }

  predicate FailedExchange(s: State, e: Event, id: nat) {
    e.Exchange? && e.id == id && Enabled(s, e) && Next(s, e).queries[id].stage.Unpooling?
  }

  predicate FailsHere(events: seq<Event>, i: nat, id: nat)
    requires i < |events|
  {
    FailedExchange(Run(events[..i]), events[i], id)
  }

  lemma MarkStep(s: State, e: Event, id: nat)
    requires id in Next(s, e).queries
    ensures FailedExchange(s, e, id) ==> Next(s, e).queries[id].failedAt == s.pool.dialed
    ensures id !in s.queries ==> Next(s, e).queries[id].attempt == 1 && Next(s, e).queries[id].stage.Getting?
    ensures id in s.queries && !FailedExchange(s, e, id) ==> Next(s, e).queries[id].failedAt == s.queries[id].failedAt
    ensures var q := Next(s, e).queries[id];
            id in s.queries && !FailedExchange(s, e, id) && (q.attempt == 2 || Retrying(q.stage)) ==> s.queries[id].attempt == 2 || Retrying(s.queries[id].stage)
  {
    hide MatchesQuery, Usable, Get;
  }

  predicate Retrying(st: Stage) {
    (st.Unpooling? || st.Closing?) && st.next.Retry?
  }

  /** On the way to the retry the mark is already set. */
  lemma {:induction false} MarkedBefore(events: seq<Event>, id: nat)
    requires id in Run(events).queries && Retrying(Run(events).queries[id].stage)
    ensures exists i :: 0 <= i < |events| && FailsHere(events, i, id) && Run(events).queries[id].failedAt == Run(events[..i]).pool.dialed
  {
    var n := |events| - 1;
    var s, e := Run(events[..n]), events[n];
    assert Run(events) == Next(s, e);
    hide Run;
    MarkStep(s, e, id);
    if FailedExchange(s, e, id) {
      assert FailsHere(events, n, id);
    } else if Retrying(s.queries[id].stage) {
      MarkedBefore(events[..n], id);
      MarkCarries(events, n, id);
    } else {
      FailureIsMarked(events[..n], id);
      MarkCarries(events, n, id);
    }
  }

  lemma MarkCarries(events: seq<Event>, n: nat, id: nat)
    requires n < |events| && id in Run(events[..n]).queries && id in Run(events).queries
    requires Run(events).queries[id].failedAt == Run(events[..n]).queries[id].failedAt
    requires exists i :: 0 <= i < n && FailsHere(events[..n], i, id) && Run(events[..n]).queries[id].failedAt == Run(events[..n][..i]).pool.dialed
    ensures exists i :: 0 <= i < |events| && FailsHere(events, i, id) && Run(events).queries[id].failedAt == Run(events[..i]).pool.dialed
  {
    hide Run, FailedExchange;
    var i :| 0 <= i < n && FailsHere(events[..n], i, id) && Run(events[..n]).queries[id].failedAt == Run(events[..n][..i]).pool.dialed;
    assert events[..n][..i] == events[..i] && events[..n][i] == events[i];
    assert FailsHere(events, i, id);
  }

  // ---- the number of steps over a run

  /** The steps a query takes in a run. */
  function Taken(events: seq<Event>, id: nat): nat {
    if events == [] then 0
    else
      var before, e := events[..|events| - 1], events[|events| - 1];
      Taken(before, id) + if Mine(e, id) && Enabled(Run(before), e) then 1 else 0
  }

  /** In every run a query takes at most 21 steps, so it retries at most once and never loops. */
  lemma {:induction false} StepsOverARun(events: seq<Event>, id: nat)
    ensures Taken(events, id) <= 21
    ensures if id in Run(events).queries then Taken(events, id) + Budget(Run(events).queries[id]) <= 21 else Taken(events, id) == 0
  {
    hide Budget, Enabled, Next;
    if events != [] {
      var n := |events| - 1;
      StepsOverARun(events[..n], id);
      var s, e := Run(events[..n]), events[n];
      RunIsSafe(events[..n]);
      CountStep(s, e, id);
    }
  }

  lemma CountStep(s: State, e: Event, id: nat)
    requires Safe(s)
    ensures var s' := Next(s, e);
            var spent := if Mine(e, id) && Enabled(s, e) then 1 else 0;
            if id in s.queries then id in s'.queries && Budget(s'.queries[id]) + spent <= Budget(s.queries[id])
            else spent == 0 && (id in s'.queries ==> Budget(s'.queries[id]) <= 21)
  {
    hide MatchesQuery, Usable, Get, QueryOk;
    if id in s.queries && Enabled(s, e) {
      StepsAreBounded(s, e, id);
    }
  }
}
