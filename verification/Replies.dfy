/** What a handler that stored an entry sent its own client, and what a later hit on the entry sends. */
module Replies {
  import opened Dns
  import opened Edns
  import opened ResponseCache
  import opened Policy
  import opened Serving
  import opened Guarantees
  import CacheHistory

  /** This handler looked at a record of the answer that the rules of that moment do not allow. */
  ghost predicate RefusedAtALook(init: Rules, log: seq<Note>, h: nat, answer: seq<RR>) {
    exists j :: 0 <= j < |log| && LookOf(log[j], h) && log[j].rr in answer && !RecordAllowed(InForce(init, log[..j]), log[j].rr)
  }

  /** A refusal in place of the stored reply, after such a look. */
  ghost predicate Denied(init: Rules, log: seq<Note>, h: nat, stored: Msg, query: Msg, d: Msg) {
    (exists reason :: d == Deny(query, reason)) && RefusedAtALook(init, log, h, stored.answer)
  }

  ghost predicate Passes(init: Rules, log: seq<Note>, h: nat, query: Msg, op: CacheHistory.Op, m: Msg) {
    op.Store? && op.req == query && (m == op.resp || Denied(init, log, h, op.resp, query, m))
  }

  /** A handler that has stored something is on its way to send that, or a refusal. */
  ghost predicate OnItsWay(init: Rules, log: seq<Note>, h: nat, x: Handler) {
    forall op :: Wrote(h, op) in log ==> Carries(init, log, h, x, op)
  }

  ghost predicate Carries(init: Rules, log: seq<Note>, h: nat, x: Handler, op: CacheHistory.Op) {
    match x.stage
    case Screening(resp, _, _) => op.Store? && op.req == x.query && resp == op.resp
    case Sending(resp, local) => !local && Passes(init, log, h, x.query, op, resp)
    case _ => false
  }

  ghost predicate SentIts(setup: Setup, init: Rules, log: seq<Note>, note: Note)
    requires note.Sent?
  {
    forall op :: Wrote(note.h, op) in log ==> exists m :: Passes(init, log, note.h, note.query, op, m) && note.reply == Wire(setup, note.mode, note.query, m)
  }

  ghost predicate Tracked(setup: Setup, init: Rules, s: State) {
    && s.rules == InForce(init, s.log)
    && (forall h :: h in s.inFlight ==> h < s.n.total && OnItsWay(init, s.log, h, s.inFlight[h]))
    && (forall note :: note in s.log && note.Wrote? ==> note.h < s.n.total)
    && (forall note :: note in s.log && note.Sent? ==> note.h < s.n.total && note.h !in s.inFlight && SentIts(setup, init, s.log, note))
  }

  lemma DeniedStays(init: Rules, log: seq<Note>, note: Note, h: nat, stored: Msg, query: Msg, d: Msg)
    requires Denied(init, log, h, stored, query, d)
    ensures Denied(init, log + [note], h, stored, query, d)
  {
    hide InForce, RecordAllowed, Deny;
    var j :| 0 <= j < |log| && LookOf(log[j], h) && log[j].rr in stored.answer && !RecordAllowed(InForce(init, log[..j]), log[j].rr);
    assert (log + [note])[..j] == log[..j] && (log + [note])[j] == log[j];
  }

  lemma PassesStays(init: Rules, log: seq<Note>, note: Note, h: nat, query: Msg, op: CacheHistory.Op, m: Msg)
    requires Passes(init, log, h, query, op, m)
    ensures Passes(init, log + [note], h, query, op, m)
  {
    hide Denied;
    if m != op.resp {
      DeniedStays(init, log, note, h, op.resp, query, m);
    }
  }

  lemma OnItsWayStays(init: Rules, log: seq<Note>, note: Note, h: nat, x: Handler)
    requires OnItsWay(init, log, h, x) && !(note.Wrote? && note.h == h)
    ensures OnItsWay(init, log + [note], h, x)
  {
    hide Passes;
    forall op | Wrote(h, op) in log + [note] ensures Carries(init, log + [note], h, x, op) {
      assert Wrote(h, op) in log;
      if x.stage.Sending? {
        PassesStays(init, log, note, h, x.query, op, x.stage.resp);
      }
    }
  }

  lemma SentItsStays(setup: Setup, init: Rules, log: seq<Note>, note: Note, sent: Note)
    requires sent.Sent? && SentIts(setup, init, log, sent) && !(note.Wrote? && note.h == sent.h)
    ensures SentIts(setup, init, log + [note], sent)
  {
    hide Passes, Wire;
    forall op | Wrote(sent.h, op) in log + [note]
      ensures exists m :: Passes(init, log + [note], sent.h, sent.query, op, m) && sent.reply == Wire(setup, sent.mode, sent.query, m)
    {
      assert Wrote(sent.h, op) in log;
      var m :| Passes(init, log, sent.h, sent.query, op, m) && sent.reply == Wire(setup, sent.mode, sent.query, m);
      PassesStays(init, log, note, sent.h, sent.query, op, m);
    }
  }

  /** One step of one handler: the others, and what they sent, are as before. */
  lemma StillTracked(setup: Setup, init: Rules, s: State, s': State, h: nat, note: Note)
    requires Tracked(setup, init, s) && s'.log == s.log + [note] && s'.rules == InForce(init, s'.log) && s'.n.total == s.n.total && h in s.inFlight
    requires note.Wrote? || note.Sent? ==> note.h == h
    requires forall k :: k in s'.inFlight ==> k in s.inFlight && (k != h ==> s'.inFlight[k] == s.inFlight[k])
    requires h in s'.inFlight ==> OnItsWay(init, s'.log, h, s'.inFlight[h])
    requires note.Sent? ==> h !in s'.inFlight && SentIts(setup, init, s'.log, note)
    ensures Tracked(setup, init, s')
  {
    hide OnItsWay, SentIts, InForce;
    forall k | k in s'.inFlight ensures k < s'.n.total && OnItsWay(init, s'.log, k, s'.inFlight[k]) {
      if k != h {
        OnItsWayStays(init, s.log, note, k, s.inFlight[k]);
      }
    }
    forall sent | sent in s'.log && sent.Sent? ensures sent.h < s'.n.total && sent.h !in s'.inFlight && SentIts(setup, init, s'.log, sent) {
      if sent in s.log {
        SentItsStays(setup, init, s.log, note, sent);
      }
    }
  }

  lemma InForceSnoc(init: Rules, log: seq<Note>, note: Note)
    ensures InForce(init, log + [note]) == if note.Reloaded? then note.rules else InForce(init, log)
  {
    assert (log + [note])[..|log|] == log;
  }

  lemma QuietlyTracked(setup: Setup, init: Rules, s: State, s': State, h: nat)
    requires Tracked(setup, init, s) && s'.log == s.log && s'.rules == s.rules && s'.n.total == s.n.total
    requires forall k :: k in s'.inFlight ==> k in s.inFlight && (k != h ==> s'.inFlight[k] == s.inFlight[k])
    requires h in s'.inFlight ==> OnItsWay(init, s'.log, h, s'.inFlight[h])
    ensures Tracked(setup, init, s')
  {
    hide OnItsWay, SentIts, InForce;
  }

  /** A look goes on with the same reply, or refuses it for the record looked at. */
  lemma LookSays(rules: Rules, query: Msg, resp: Msg, at: nat, owned: bool)
    requires at < |resp.answer|
    ensures match Look(rules, query, resp, at, owned)
            case Screening(m, _, _) => m == resp
            case Sending(m, local) => !local && (exists reason :: m == Deny(query, reason)) && !RecordAllowed(rules, resp.answer[at])
            case _ => false
  {
    hide OwnerAllowed, TargetAllowed, Deny;
  }

  lemma ScreenTracks(setup: Setup, init: Rules, s: State, h: nat, s': State)
    requires Tracked(setup, init, s) && h in s.inFlight && s.inFlight[h].stage.Screening? && s' == Screen(s, h)
    ensures Tracked(setup, init, s')
  {
    hide InForce, Deny, SentIts, Look, RecordAllowed;
    var x := s.inFlight[h];
    var resp, at := x.stage.resp, x.stage.at;
    if s.rules.allow.None? || at >= |resp.answer| {
      QuietlyTracked(setup, init, s, s', h);
    } else {
      var rr := resp.answer[at];
      var note := if x.stage.owned then TargetSeen(h, rr) else OwnerSeen(h, rr);
      InForceSnoc(init, s.log, note);
      LookSays(s.rules, x.query, resp, at, x.stage.owned);
      assert s'.log[..|s.log|] == s.log && s'.log[|s.log|] == note && LookOf(note, h);
      assert s'.inFlight[h].stage.Sending? ==> RefusedAtALook(init, s'.log, h, resp.answer);
      hide RefusedAtALook;
      forall op | Wrote(h, op) in s'.log ensures Carries(init, s'.log, h, s'.inFlight[h], op) {
        assert Wrote(h, op) in s.log;
      }
      hide Carries;
      StillTracked(setup, init, s, s', h, note);
    }
  }

  lemma FinishTracks(setup: Setup, init: Rules, s: State, h: nat, wrote: bool, s': State)
    requires Tracked(setup, init, s) && h in s.inFlight && s.inFlight[h].stage.Sending? && s' == Finish(setup, s, h, s.inFlight[h].stage.resp, wrote)
    ensures Tracked(setup, init, s')
  {
    hide InForce, Denied, Wire, Delivered;
    var x := s.inFlight[h];
    var wire := Wire(setup, x.mode, x.query, x.stage.resp);
    if Delivered(setup, x.mode, wire, wrote) {
      var note := Sent(h, x.mode, x.query, wire);
      InForceSnoc(init, s.log, note);
      forall op | Wrote(h, op) in s'.log ensures Passes(init, s'.log, h, x.query, op, x.stage.resp) {
        assert Wrote(h, op) in s.log;
        PassesStays(init, s.log, note, h, x.query, op, x.stage.resp);
      }
      StillTracked(setup, init, s, s', h, note);
    } else {
      QuietlyTracked(setup, init, s, s', h);
    }
  }

  /** A step before the screening moves one handler and leaves at most one note, which is a store only on
      the way into the screening of what is stored. */
  lemma EarlierStep(setup: Setup, s: State, h: nat, now: int, up: Upstream, victim: string, wrote: bool, s': State)
    requires h in s.inFlight && !s.inFlight[h].stage.Screening? && !s.inFlight[h].stage.Sending?
    requires s' == Advance(setup, s, h, now, up, victim, wrote)
    ensures h in s'.inFlight && s'.inFlight == s.inFlight[h := s.inFlight[h].(stage := s'.inFlight[h].stage)]
    ensures s'.n.total == s.n.total && s'.rules == s.rules
    ensures s'.log == s.log || (|s'.log| == |s.log| + 1 && s'.log[..|s.log|] == s.log)
    ensures s'.log != s.log ==>
              var note := s'.log[|s.log|];
              && !note.Sent? && !note.Reloaded?
              && (note.Wrote? ==> note.h == h && note.op.Store? && note.op.req == s.inFlight[h].query && s'.inFlight[h].stage == Screening(note.op.resp, 0, false))
  {
    hide LocalFirst, RefusalByBlock, CacheHistory.Apply, Outcome, Found, Offered;
  }

  /** Before it stores a handler has stored nothing, and then this. */
  lemma EarlierTracks(setup: Setup, init: Rules, s: State, h: nat, now: int, up: Upstream, victim: string, wrote: bool, s': State)
    requires Tracked(setup, init, s) && h in s.inFlight && !s.inFlight[h].stage.Screening? && !s.inFlight[h].stage.Sending?
    requires s' == Advance(setup, s, h, now, up, victim, wrote)
    ensures Tracked(setup, init, s')
  {
    hide InForce, Passes, SentIts, Advance;
    EarlierStep(setup, s, h, now, up, victim, wrote, s');
    assert forall op :: Wrote(h, op) !in s.log;
    if s'.log == s.log {
      QuietlyTracked(setup, init, s, s', h);
    } else {
      var note := s'.log[|s.log|];
      assert s'.log == s.log + [note];
      InForceSnoc(init, s.log, note);
      assert forall op :: Wrote(h, op) in s'.log ==> note == Wrote(h, op);
      StillTracked(setup, init, s, s', h, note);
    }
  }

  lemma NextTracks(setup: Setup, init: Rules, s: State, e: Event, s': State)
    requires Tracked(setup, init, s) && s' == Next(setup, s, e)
    ensures Tracked(setup, init, s')
  {
    hide InForce, SentIts, Advance, Screen, Finish, OnItsWay;
    match e
    case Arrive(mode, query) =>
      NothingStoredYet(init, s.log, s.n.total, Handler(mode, query, Checking));
    case ReloadAllow(_) => OtherNote(setup, init, s, s', Reloaded(OfAllow, s'.rules));
    case ReloadBlock(_) => OtherNote(setup, init, s, s', Reloaded(OfBlock, s'.rules));
    case Forget(key) => OtherNote(setup, init, s, s', Forgot(key));
    case Step(h, now, up, victim, wrote) =>
      if h in s.inFlight {
        AdvanceTracks(setup, init, s, h, now, up, victim, wrote, s');
      }
  }

  lemma AdvanceTracks(setup: Setup, init: Rules, s: State, h: nat, now: int, up: Upstream, victim: string, wrote: bool, s': State)
    requires Tracked(setup, init, s) && h in s.inFlight && s' == Advance(setup, s, h, now, up, victim, wrote)
    ensures Tracked(setup, init, s')
  {
    hide Tracked, Screen, Finish;
    if s.inFlight[h].stage.Screening? {
      ScreenTracks(setup, init, s, h, s');
    } else if s.inFlight[h].stage.Sending? {
      FinishTracks(setup, init, s, h, wrote, s');
    } else {
      hide Advance;
      EarlierTracks(setup, init, s, h, now, up, victim, wrote, s');
    }
  }

  lemma NothingStoredYet(init: Rules, log: seq<Note>, h: nat, x: Handler)
    requires forall note :: note in log && note.Wrote? ==> note.h < h
    ensures OnItsWay(init, log, h, x)
  {
  }

  lemma OtherNote(setup: Setup, init: Rules, s: State, s': State, note: Note)
    requires Tracked(setup, init, s) && s'.log == s.log + [note] && !note.Wrote? && !note.Sent?
    requires s'.rules == (if note.Reloaded? then note.rules else s.rules) && s'.inFlight == s.inFlight && s'.n == s.n
    ensures Tracked(setup, init, s')
  {
    hide OnItsWay, SentIts, InForce;
    InForceSnoc(init, s.log, note);
    forall k | k in s'.inFlight ensures OnItsWay(init, s'.log, k, s'.inFlight[k]) {
      OnItsWayStays(init, s.log, note, k, s.inFlight[k]);
    }
    forall sent | sent in s'.log && sent.Sent? ensures sent.h < s'.n.total && sent.h !in s'.inFlight && SentIts(setup, init, s'.log, sent) {
      SentItsStays(setup, init, s.log, note, sent);
    }
  }

  lemma {:induction false} RunTracks(setup: Setup, init: Rules, events: seq<Event>)
    ensures Tracked(setup, init, Run(setup, init, events))
  {
    hide Next;
    if events != [] {
      hide Tracked;
      var n := |events| - 1;
      RunTracks(setup, init, events[..n]);
      NextTracks(setup, init, Run(setup, init, events[..n]), events[n], Run(setup, init, events));
    }
  }

  /** In every run, the reply sent by a handler that stored something is what it stored, made ready for its
      client, or a refusal after a look at a record that the rules of that moment did not allow. */
  lemma SenderSendsWhatItStored(setup: Setup, init: Rules, events: seq<Event>, h: nat, op: CacheHistory.Op, mode: Mode, query: Msg, reply: Msg)
    requires var log := Run(setup, init, events).log; Wrote(h, op) in log && Sent(h, mode, query, reply) in log
    ensures exists m :: Passes(init, Run(setup, init, events).log, h, query, op, m) && reply == Wire(setup, mode, query, m)
  {
    hide Run, Passes, Wire, InForce, OnItsWay;
    RunTracks(setup, init, events);
    assert SentIts(setup, init, Run(setup, init, events).log, Sent(h, mode, query, reply));
  }

  /** A hit equals the fresh reply that was sent: whatever a hit finds was put by some handler's store, the
      latest under the key; and if that handler has sent its reply, and was not refused by the lists it
      met, then under any rules that allow the stored answer this hit sends the same message as it did,
      up to the transaction ID, to a client that asks in the same way. */
  lemma HitEqualsSent(setup: Setup, init: Rules, events: seq<Event>, query: Msg, now: int, rules: Rules)
    requires Truncates(setup.truncate) && IdBlind(setup) && Proper(setup.mn) && setup.o.maxSize > 0
    requires |query.question| == 1 && Found(setup, Run(setup, init, events).view, query, now).Some?
    ensures var s := Run(setup, init, events);
            var hit := Found(setup, s.view, query, now).value;
            exists i: nat :: Supplies(setup, s, query, hit, i) &&
              forall h, mode, q, reply :: Wrote(h, Ops(s.log)[i]) in s.log && Sent(h, mode, q, reply) in s.log ==>
                EqualsSent(setup, init, s.log, rules, query, hit, h, mode, q, reply)
  {
    hide Truncates, IdBlind, Proper, Run, Inv, Found, Supplies, EqualsSent;
    var s := Run(setup, init, events);
    RunKeeps(setup, init, events);
    var hit := Found(setup, s.view, query, now).value;
    var i := HitIsSupplied(setup, init, s, query, now);
    SuppliedIs(setup, s, query, hit, i);
    forall h, mode, q, reply | Wrote(h, Ops(s.log)[i]) in s.log && Sent(h, mode, q, reply) in s.log
      ensures EqualsSent(setup, init, s.log, rules, query, hit, h, mode, q, reply)
    {
      SenderSendsWhatItStored(setup, init, events, h, Ops(s.log)[i], mode, q, reply);
      SameAsSent(setup, init, s.log, rules, query, hit, h, mode, q, reply, Ops(s.log)[i]);
    }
  }

  ghost predicate EqualsSent(setup: Setup, init: Rules, log: seq<Note>, rules: Rules, query: Msg, hit: Msg, h: nat, mode: Mode, q: Msg, reply: Msg) {
    || RefusedAtALook(init, log, h, hit.answer)
    || (SameClient(mode, query, q) && Clean(rules, hit.answer) ==> SameButId(Served(setup, mode, rules, query, hit.(id := query.id)), reply))
  }

  lemma SuppliedIs(setup: Setup, s: State, query: Msg, hit: Msg, i: nat)
    requires Supplies(setup, s, query, hit, i)
    ensures i < |Ops(s.log)| && Ops(s.log)[i].Store? && Ops(s.log)[i].resp == hit
  {
  }

  lemma SameAsSent(setup: Setup, init: Rules, log: seq<Note>, rules: Rules, query: Msg, hit: Msg, h: nat, mode: Mode, q: Msg, reply: Msg, op: CacheHistory.Op)
    requires IdBlind(setup) && op.Store? && op.resp == hit
    requires exists m :: Passes(init, log, h, q, op, m) && reply == Wire(setup, mode, q, m)
    ensures EqualsSent(setup, init, log, rules, query, hit, h, mode, q, reply)
  {
    hide IdBlind, Wire, SameClient, InForce, RecordAllowed, LookOf, Deny;
    var m :| Passes(init, log, h, q, op, m) && reply == Wire(setup, mode, q, m);
    if m == hit && SameClient(mode, query, q) && Clean(rules, hit.answer) {
      WireSame(setup, mode, query, q, hit.(id := query.id), hit);
    }
  }
}
