/** Answer locally or forward: the allowlist and blocklist composed, on queries and on answers. */
module Policy {
  import opened Dns
  import opened Edns
  import opened Lists

  /** What the lists say at one moment.  A missing list is switched off. */
  datatype Rules = Rules(allow: Option<Sets>, blockEnabled: bool, block: Sets, qtypes: Option<set<nat>>)

  function Deny(query: Msg, reason: string): Msg {
    Synthesized(query, RCODE_REFUSED).(
      recursionAvailable := true,
      additional := if HasOpt(query) then [OptRR(false, UDP_BUF_SIZE, ["EDE 18 " + reason])] else [])
  }

  predicate TypeAllowed(rules: Rules, t: nat) {
    rules.qtypes.Some? ==> t in rules.qtypes.value
  }

  /** The allowlist's say on a query: its name, then its type. */
  ghost function RefusalByAllow(rules: Rules, query: Msg): Option<Msg> {
    if query.question == [] || rules.allow.None? then None
    else if !AllowedBySets(rules.allow.value, query.question[0].name) then Some(Deny(query, "default-deny allowlist"))
    else if !TypeAllowed(rules, query.question[0].qtype) then Some(Deny(query, "qtype not allowed"))
    else None
  }

  ghost function RefusalByBlock(rules: Rules, query: Msg): Option<Msg> {
    if query.question != [] && rules.blockEnabled && Matched(rules.block.domains, rules.block.wildcard, Normalize(query.question[0].name))
    then Some(Synthesized(query, RCODE_NAME_ERROR)) else None
  }

  /** The reply to a query that must not be forwarded. */
  ghost function Refusal(rules: Rules, query: Msg): Option<Msg> {
    var denied := RefusalByAllow(rules, query);
    if denied.Some? then denied else RefusalByBlock(rules, query)
  }

  predicate HasTarget(rr: RR) {
    rr.CnameRR? || rr.DnameRR?
  }

  /** Signatures follow the records they sign; without an allowlist everything passes. */
  ghost predicate OwnerAllowed(rules: Rules, rr: RR) {
    rules.allow.Some? && RRType(rr) != TYPE_RRSIG ==> TypeAllowed(rules, RRType(rr)) && AllowedBySets(rules.allow.value, Owner(rr))
  }

  ghost predicate TargetAllowed(rules: Rules, rr: RR) {
    rules.allow.Some? && HasTarget(rr) ==> AllowedBySets(rules.allow.value, rr.target)
  }

  /** An answer record the allowlist accepts: owner, type, and CNAME or DNAME target. */
  ghost predicate RecordAllowed(rules: Rules, rr: RR) {
    OwnerAllowed(rules, rr) && TargetAllowed(rules, rr)
  }

  /** The first record that is not allowed decides the reason given. */
  ghost function Offence(rules: Rules, answer: seq<RR>): (r: Option<string>)
    requires rules.allow.Some?
    ensures r.None? <==> forall rr :: rr in answer ==> RecordAllowed(rules, rr)
  {
    if answer == [] then None
    else if RecordAllowed(rules, answer[0]) then Offence(rules, answer[1..])
    else
      assert answer[0] in answer;
      Some(if TypeAllowed(rules, RRType(answer[0])) then "answer outside allowlist" else "answer type not allowed")
  }

  /** What may be sent in place of a forwarded or cached reply. */
  ghost function Screened(rules: Rules, query: Msg, resp: Msg): Msg {
    if rules.allow.None? || Offence(rules, resp.answer).None? then resp
    else Deny(query, Offence(rules, resp.answer).value)
  }

  class Policy {
    const allow: Allowlist?
    const block: Blocklist?
    var qtypes: Option<set<nat>>
    var denied: nat
    var blocked: nat

    constructor (allow: Allowlist?, block: Blocklist?)
      ensures this.allow == allow && this.block == block && qtypes == None && denied == 0 && blocked == 0
    {
      this.allow, this.block, qtypes, denied, blocked := allow, block, None, 0, 0;
    }

    ghost function Now(): Rules
      reads this, allow, block
    {
      Rules(if allow != null then Some(allow.sets) else None,
            block != null && block.enabled, if block != null then block.sets else EMPTY, qtypes)
    }

    method SetQTypes(types: seq<nat>)
      modifies this`qtypes
      ensures qtypes == if types == [] then None else Some(set t | t in types)
    {
      if |types| == 0 {
        qtypes := None;
        return;
      }
      var allowed: set<nat> := {};
      for i := 0 to |types|
        invariant allowed == set t | t in types[..i]
      {
        assert types[..i + 1] == types[..i] + [types[i]];
        allowed := allowed + {types[i]};
      }
      assert types[..|types|] == types;
      qtypes := Some(allowed);
    }

    method DenyQuery(query: Msg, reason: string) returns (r: Msg)
      modifies this`denied
      ensures r == Deny(query, reason) && denied == old(denied) + 1
    {
      denied := denied + 1;
      r := Synthesized(query, RCODE_REFUSED).(recursionAvailable := true);
      if HasOpt(query) {
        r := r.(additional := [OptRR(false, UDP_BUF_SIZE, ["EDE 18 " + reason])]);
      }
    }

    method Response(query: Msg) returns (r: Option<Msg>)
      modifies this`denied, this`blocked
      ensures r == Refusal(Now(), query) && Now() == old(Now())
      ensures denied == old(denied) + if AllowlistAdmits(Now(), query) then 0 else 1
      ensures blocked == old(blocked) + if AllowlistAdmits(Now(), query) && !BlocklistAdmits(Now(), query) then 1 else 0
    {
      hide Matched, AllowedBySets, Normalize, HasOpt;
      if |query.question| == 0 {
        return None;
      }
      if allow != null {
        var q := query.question[0];
        var allowed := allow.Allowed(q.name);
        if !allowed {
          var d := DenyQuery(query, "default-deny allowlist");
          return Some(d);
        }
        if qtypes.Some? && q.qtype !in qtypes.value {
          var d := DenyQuery(query, "qtype not allowed");
          return Some(d);
        }
      }
      if block != null {
        var isBlocked := block.IsBlocked(query.question[0].name);
        if isBlocked {
          blocked := blocked + 1;
          return Some(Synthesized(query, RCODE_NAME_ERROR));
        }
      }
      return None;
    }

    /** Type, owner, and what the record is an alias of, in that order. */
    method Check(rr: RR) returns (reason: Option<string>)
      requires allow != null
      ensures reason.None? <==> RecordAllowed(Now(), rr)
      ensures reason.Some? ==> reason.value == if TypeAllowed(Now(), RRType(rr)) then "answer outside allowlist" else "answer type not allowed"
    {
      hide AllowedBySets;
      if RRType(rr) == TYPE_RRSIG {
        return None;
      }
      if qtypes.Some? && RRType(rr) !in qtypes.value {
        return Some("answer type not allowed");
      }
      var allowed := allow.Allowed(Owner(rr));
      if allowed && HasTarget(rr) {
        allowed := allow.Allowed(rr.target);
      }
      return if allowed then None else Some("answer outside allowlist");
    }

    /** One pass over the answer; the first offending record refuses the whole reply. */
    method Answer(query: Msg, resp: Message) returns (r: Message)
      modifies this`denied
      ensures r.m == Screened(Now(), query, resp.m) && (r == resp || fresh(r)) && Now() == old(Now())
      ensures denied == old(denied) + if r == resp then 0 else 1
    {
      hide RecordAllowed, TypeAllowed, HasOpt, Deny;
      if allow == null {
        return resp;
      }
      ghost var rules := Now();
      var answer := resp.m.answer;
      for i := 0 to |answer|
        invariant Now() == rules && denied == old(denied)
        invariant Offence(rules, answer) == Offence(rules, answer[i..])
      {
        assert answer[i..][0] == answer[i] && answer[i..][1..] == answer[i + 1..];
        var reason := Check(answer[i]);
        if reason.Some? {
          var d := DenyQuery(query, reason.value);
          r := new Message(d);
          return;
        }
      }
      return resp;
    }
  }

  /** The allowlist, if there is one, has the name, and the types, if they are restricted, have the type. */
  ghost predicate AllowlistAdmits(rules: Rules, query: Msg) {
    query.question == [] || rules.allow.None? ||
    (AllowedBySets(rules.allow.value, query.question[0].name) && (rules.qtypes.None? || query.question[0].qtype in rules.qtypes.value))
  }

  /** The blocklist, if it is on, does not have the name. */
  ghost predicate BlocklistAdmits(rules: Rules, query: Msg) {
    query.question == [] || !rules.blockEnabled || !Matched(rules.block.domains, rules.block.wildcard, Normalize(query.question[0].name))
  }

  /** A local answer under the query's own ID and question, with nothing in it. */
  predicate Answers(query: Msg, r: Msg, rcode: nat) {
    r.id == query.id && r.question == query.question && r.isResponse && r.rcode == rcode && r.answer == [] && r.authority == [] && !r.authenticated
  }

  /** Exactly when a query is refused, and how: REFUSED if the allowlist or the types do not admit it, with a
      reason only for clients that speak EDNS; otherwise NXDOMAIN if the blocklist does not. */
  lemma RefusalIff(rules: Rules, query: Msg)
    ensures RefusalByAllow(rules, query).None? <==> AllowlistAdmits(rules, query)
    ensures RefusalByBlock(rules, query).None? <==> BlocklistAdmits(rules, query)
    ensures !AllowlistAdmits(rules, query) ==> Answers(query, RefusalByAllow(rules, query).value, 5)
    ensures !BlocklistAdmits(rules, query) ==> Answers(query, RefusalByBlock(rules, query).value, 3)
    ensures Refusal(rules, query).None? <==> AllowlistAdmits(rules, query) && BlocklistAdmits(rules, query)
    ensures !AllowlistAdmits(rules, query) ==>
              var r := Refusal(rules, query).value; Answers(query, r, 5) && (r.additional == [] <==> !HasOpt(query))
    ensures AllowlistAdmits(rules, query) && !BlocklistAdmits(rules, query) ==>
              var r := Refusal(rules, query).value; Answers(query, r, 3) && r.additional == []
  {
    hide Matched, AllowedBySets, Normalize, HasOpt;
  }

  /** Exactly when a record may be sent: it is a signature, or its type is admitted, its owner is allowed, and
      so is what it is an alias of. */
  lemma RecordAllowedIff(rules: Rules, rr: RR)
    requires rules.allow.Some?
    ensures RecordAllowed(rules, rr) <==>
            || RRType(rr) == 46
            || (&& (rules.qtypes.None? || RRType(rr) in rules.qtypes.value) && AllowedBySets(rules.allow.value, Owner(rr))
                && (rr.CnameRR? ==> AllowedBySets(rules.allow.value, rr.target)) && (rr.DnameRR? ==> AllowedBySets(rules.allow.value, rr.target)))
  {
    hide AllowedBySets;
  }

  /** A reply is sent as it is exactly if there is no allowlist or all its answer records are allowed; else it
      is refused as a whole. */
  lemma ScreenedIs(rules: Rules, query: Msg, resp: Msg)
    ensures rules.allow.None? || (forall rr :: rr in resp.answer ==> RecordAllowed(rules, rr)) ==> Screened(rules, query, resp) == resp
    ensures rules.allow.Some? && (exists rr :: rr in resp.answer && !RecordAllowed(rules, rr)) ==> Answers(query, Screened(rules, query, resp), 5)
  {
    hide RecordAllowed, HasOpt;
  }

  /** A screened reply carries only allowed records. */
  lemma ScreenedIsAllowed(rules: Rules, query: Msg, resp: Msg)
    ensures forall rr :: rr in Screened(rules, query, resp).answer ==> RecordAllowed(rules, rr)
  {
  }
}
