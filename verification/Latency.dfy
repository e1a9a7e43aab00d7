/** The lock-free latency recorder (`recordLatencyInto`): any number of concurrent calls, one atomic
    operation per step, in any order. */
module Latency {

  const TWO_63: int := 0x8000_0000_0000_0000
  const TWO_64: int := 0x1_0000_0000_0000_0000

  /** int64 wrap-around of an atomic add. */
  function Wrap(x: int): int {
    (x + TWO_63) % TWO_64 - TWO_63
  }

  /** Where a call stands.  `seen` is history: how many updates of the cell had succeeded when the
      call loaded it. */
  datatype Stage =
    | AddTotal | AddCount
    | LoadMin | CasMin(cur: int, seen: nat)
    | LoadMax | CasMax(cur: int, seen: nat)
    | Done

  datatype Call = Call(us: int, stage: Stage)

  /** `minWins` and `maxWins` count successful updates of the two cells. */
  datatype Cells = Cells(total: int, count: int, min: int, max: int, minWins: nat, maxWins: nat)

  datatype System = System(cells: Cells, calls: seq<Call>)

  function Advance(cells: Cells, c: Call): (Cells, Call) {
    match c.stage
    case AddTotal => (cells.(total := Wrap(cells.total + c.us)), c.(stage := AddCount))
    case AddCount => (cells.(count := Wrap(cells.count + 1)), c.(stage := LoadMin))
    case LoadMin =>
      if cells.min != 0 && cells.min <= c.us then (cells, c.(stage := LoadMax))
      else (cells, c.(stage := CasMin(cells.min, cells.minWins)))
    case CasMin(cur, _) =>
      if cells.min == cur then (cells.(min := c.us, minWins := cells.minWins + 1), c.(stage := LoadMax))
      else (cells, c.(stage := LoadMin))
    case LoadMax =>
      if cells.max >= c.us then (cells, c.(stage := Done))
      else (cells, c.(stage := CasMax(cells.max, cells.maxWins)))
    case CasMax(cur, _) =>
      if cells.max == cur then (cells.(max := c.us, maxWins := cells.maxWins + 1), c.(stage := Done))
      else (cells, c.(stage := LoadMax))
    case Done => (cells, c)
  }

  function Init(samples: seq<int>): System {
    System(Cells(0, 0, 0, 0, 0, 0), seq(|samples|, i requires 0 <= i < |samples| => Call(samples[i], AddTotal)))
  }

  function Step(s: System, i: nat): (r: System)
    ensures |r.calls| == |s.calls|
  {
    if i >= |s.calls| then s
    else
      var (cells, c) := Advance(s.cells, s.calls[i]);
      System(cells, s.calls[i := c])
  }

  function Run(samples: seq<int>, schedule: seq<nat>): (r: System)
    ensures |r.calls| == |samples|
  {
    if schedule == [] then Init(samples) else Step(Run(samples, schedule[..|schedule| - 1]), schedule[|schedule| - 1])
  }

  // ---- sums over calls

  function Weigh(calls: seq<Call>, w: Call -> int): int {
    if calls == [] then 0 else w(calls[0]) + Weigh(calls[1..], w)
  }

  function TotalShare(c: Call): int {
    if c.stage.AddTotal? then 0 else c.us
  }

  function CountShare(c: Call): int {
    if c.stage.AddTotal? || c.stage.AddCount? then 0 else 1
  }

  function Sum(xs: seq<int>): int {
    if xs == [] then 0 else xs[0] + Sum(xs[1..])
  }

  lemma {:induction false} WeighUpdate(calls: seq<Call>, i: nat, c: Call, w: Call -> int)
    requires i < |calls|
    ensures Weigh(calls[i := c], w) == Weigh(calls, w) - w(calls[i]) + w(c)
  {
    if i == 0 {
      assert calls[i := c][1..] == calls[1..];
    } else {
      assert calls[i := c][1..] == calls[1..][i - 1 := c];
      WeighUpdate(calls[1..], i - 1, c, w);
    }
  }

  lemma {:induction false} WeighInit(samples: seq<int>)
    ensures Weigh(Init(samples).calls, TotalShare) == 0 && Weigh(Init(samples).calls, CountShare) == 0
  {
    if samples != [] {
      assert Init(samples).calls[1..] == Init(samples[1..]).calls;
      WeighInit(samples[1..]);
    }
  }

  lemma {:induction false} WeighDone(calls: seq<Call>, samples: seq<int>)
    requires |calls| == |samples| && forall i :: 0 <= i < |calls| ==> calls[i].stage.Done? && calls[i].us == samples[i]
    ensures Weigh(calls, TotalShare) == Sum(samples) && Weigh(calls, CountShare) == |samples|
  {
    if calls != [] {
      WeighDone(calls[1..], samples[1..]);
    }
  }

  // ---- invariant

  predicate PastMin(st: Stage) {
    st.LoadMax? || st.CasMax? || st.Done?
  }

  /** What a call's position says about the minimum cell. */
  predicate MinOk(cells: Cells, c: Call) {
    && (PastMin(c.stage) ==> 0 < cells.min <= c.us)
    && (c.stage.CasMin? ==>
          && (c.stage.cur == 0 || c.us < c.stage.cur)
          && if cells.minWins == c.stage.seen then cells.min == c.stage.cur
             else cells.minWins > c.stage.seen && cells.min != 0 && (c.stage.cur == 0 || cells.min < c.stage.cur))
  }

  predicate MaxOk(cells: Cells, c: Call) {
    && (c.stage.Done? ==> c.us <= cells.max)
    && (c.stage.CasMax? ==>
          && c.stage.cur < c.us
          && if cells.maxWins == c.stage.seen then cells.max == c.stage.cur
             else cells.maxWins > c.stage.seen && cells.max > c.stage.cur)
  }

  predicate Positive(samples: seq<int>) {
    forall i :: 0 <= i < |samples| ==> samples[i] > 0
  }

  predicate NonNegative(samples: seq<int>) {
    forall i :: 0 <= i < |samples| ==> samples[i] >= 0
  }

  predicate Inv(samples: seq<int>, s: System) {
    && |s.calls| == |samples|
    && (forall i :: 0 <= i < |samples| ==> s.calls[i].us == samples[i] >= 0 && MaxOk(s.cells, s.calls[i]))
    && (Positive(samples) ==> forall i :: 0 <= i < |samples| ==> MinOk(s.cells, s.calls[i]))
    && s.cells.total == Wrap(Weigh(s.calls, TotalShare))
    && s.cells.count == Wrap(Weigh(s.calls, CountShare))
    && s.cells.min >= 0 && s.cells.max >= 0
    && (s.cells.min == 0 || s.cells.min in samples)
    && (s.cells.max == 0 || s.cells.max in samples)
  }

  lemma WrapAdd(a: int, b: int)
    ensures Wrap(Wrap(a) + b) == Wrap(a + b)
  {
  }

  /** A step by one call keeps what is known about any call, itself included. */
  lemma AdvanceKeepsMax(cells: Cells, c: Call, other: Call)
    requires MaxOk(cells, c) && MaxOk(cells, other)
    ensures var (cells', d) := Advance(cells, c); MaxOk(cells', other) && MaxOk(cells', d)
  {
    hide Wrap;
  }

  lemma AdvanceKeepsMin(cells: Cells, c: Call, other: Call)
    requires c.us > 0 && cells.min >= 0 && other.us > 0 && MinOk(cells, c) && MinOk(cells, other)
    ensures var (cells', d) := Advance(cells, c); MinOk(cells', other) && MinOk(cells', d)
  {
    hide Wrap;
  }

  lemma SumsAdvance(s: System, i: nat)
    requires i < |s.calls| && s.cells.total == Wrap(Weigh(s.calls, TotalShare)) && s.cells.count == Wrap(Weigh(s.calls, CountShare))
    ensures var t := Step(s, i); t.cells.total == Wrap(Weigh(t.calls, TotalShare)) && t.cells.count == Wrap(Weigh(t.calls, CountShare))
  {
    hide Wrap, Weigh;
    var c := s.calls[i];
    var d := Advance(s.cells, c).1;
    WeighUpdate(s.calls, i, d, TotalShare);
    WeighUpdate(s.calls, i, d, CountShare);
    WrapAdd(Weigh(s.calls, TotalShare), c.us);
    WrapAdd(Weigh(s.calls, CountShare), 1);
  }

  lemma StepKeepsInv(samples: seq<int>, s: System, i: nat)
    requires Inv(samples, s)
    ensures Inv(samples, Step(s, i))
  {
    hide Wrap, Weigh, MinOk, MaxOk;
    if i < |s.calls| {
      var c := s.calls[i];
      var (cells, d) := Advance(s.cells, c);
      SumsAdvance(s, i);
      assert c.us in samples;
      forall j | 0 <= j < |samples|
        ensures var x := Step(s, i).calls[j]; x.us == samples[j] && MaxOk(cells, x) && (Positive(samples) ==> MinOk(cells, x))
      {
        AdvanceKeepsMax(s.cells, c, s.calls[j]);
        if Positive(samples) {
          AdvanceKeepsMin(s.cells, c, s.calls[j]);
        }
      }
    }
  }

  lemma {:induction false} RunKeepsInv(samples: seq<int>, schedule: seq<nat>)
    requires NonNegative(samples)
    ensures Inv(samples, Run(samples, schedule))
  {
    if schedule == [] {
      WeighInit(samples);
    } else {
      RunKeepsInv(samples, schedule[..|schedule| - 1]);
      StepKeepsInv(samples, Run(samples, schedule[..|schedule| - 1]), schedule[|schedule| - 1]);
    }
  }

  predicate Quiescent(s: System) {
    forall i :: 0 <= i < |s.calls| ==> s.calls[i].stage.Done?
  }

  predicate IsMin(x: int, samples: seq<int>) {
    x in samples && forall y :: y in samples ==> x <= y
  }

  predicate IsMax(x: int, samples: seq<int>) {
    x in samples && forall y :: y in samples ==> y <= x
  }

  /** When every call has returned, total, count and maximum are those of the samples, whatever the
      schedule; so is the minimum when no sample is 0. */
  lemma QuiescentIsExact(samples: seq<int>, schedule: seq<nat>)
    requires NonNegative(samples) && samples != [] && Quiescent(Run(samples, schedule))
    ensures var cells := Run(samples, schedule).cells;
            && cells.total == Wrap(Sum(samples)) && cells.count == Wrap(|samples|)
            && (-TWO_63 <= Sum(samples) < TWO_63 ==> cells.total == Sum(samples))
            && IsMax(cells.max, samples) && (Positive(samples) ==> IsMin(cells.min, samples))
  {
    var s := Run(samples, schedule);
    RunKeepsInv(samples, schedule);
    WeighDone(s.calls, samples);
    assert MaxOk(s.cells, s.calls[0]) && samples[0] in samples;
    forall x | x in samples ensures x <= s.cells.max && (Positive(samples) ==> s.cells.min <= x) {
      var i :| 0 <= i < |samples| && samples[i] == x;
      assert MaxOk(s.cells, s.calls[i]);
    }
    assert Positive(samples) ==> MinOk(s.cells, s.calls[0]);
  }

  /** A compare-and-swap fails exactly when another call has updated the cell since the load (for the
      minimum, while no sample is 0: a 0 can hide an update). */
  lemma CasFailsIffOvertaken(samples: seq<int>, schedule: seq<nat>, i: nat)
    requires NonNegative(samples) && i < |samples|
    ensures var s := Run(samples, schedule);
            && (Positive(samples) && s.calls[i].stage.CasMin? ==> (s.cells.min != s.calls[i].stage.cur <==> s.cells.minWins > s.calls[i].stage.seen))
            && (s.calls[i].stage.CasMax? ==> (s.cells.max != s.calls[i].stage.cur <==> s.cells.maxWins > s.calls[i].stage.seen))
  {
    RunKeepsInv(samples, schedule);
    var s := Run(samples, schedule);
    assert MaxOk(s.cells, s.calls[i]) && (Positive(samples) ==> MinOk(s.cells, s.calls[i]));
  }

  function MinShare(c: Call): int {
    if PastMin(c.stage) then 1 else 0
  }

  function MaxShare(c: Call): int {
    if c.stage.Done? then 1 else 0
  }

  /** Each call updates each cell at most once, so a call's retries are bounded by the number of calls. */
  lemma {:induction false} WinsAreBounded(samples: seq<int>, schedule: seq<nat>)
    ensures var s := Run(samples, schedule);
            s.cells.minWins <= Weigh(s.calls, MinShare) <= |samples| && s.cells.maxWins <= Weigh(s.calls, MaxShare) <= |samples|
  {
    hide Wrap, Weigh;
    if schedule == [] {
      ShareBounds(Init(samples).calls);
    } else {
      var n := |schedule| - 1;
      WinsAreBounded(samples, schedule[..n]);
      var s, i := Run(samples, schedule[..n]), schedule[n];
      if i < |s.calls| {
        var d := Advance(s.cells, s.calls[i]).1;
        WeighUpdate(s.calls, i, d, MinShare);
        WeighUpdate(s.calls, i, d, MaxShare);
      }
      ShareBounds(Run(samples, schedule).calls);
    }
  }

  lemma {:induction false} ShareBounds(calls: seq<Call>)
    ensures 0 <= Weigh(calls, MinShare) <= |calls| && 0 <= Weigh(calls, MaxShare) <= |calls|
  {
    if calls != [] {
      ShareBounds(calls[1..]);
    }
  }

  lemma Then(samples: seq<int>, schedule: seq<nat>, i: nat) returns (r: seq<nat>)
    ensures r == schedule + [i] && Run(samples, r) == Step(Run(samples, schedule), i)
  {
    r := schedule + [i];
    assert r[..|r| - 1] == schedule;
  }

  // ---- retries

  /** The call's next step is a compare-and-swap on the minimum that fails. */
  predicate MinFails(s: System, i: nat) {
    i < |s.calls| && s.calls[i].stage.CasMin? && s.cells.min != s.calls[i].stage.cur
  }

  predicate MaxFails(s: System, i: nat) {
    i < |s.calls| && s.calls[i].stage.CasMax? && s.cells.max != s.calls[i].stage.cur
  }

  /** How often call i fails on the minimum in a run, and on the maximum. */
  function MinRetries(samples: seq<int>, schedule: seq<nat>, i: nat): nat {
    if schedule == [] then 0
    else
      var before := schedule[..|schedule| - 1];
      MinRetries(samples, before, i) + if schedule[|schedule| - 1] == i && MinFails(Run(samples, before), i) then 1 else 0
  }

  function MaxRetries(samples: seq<int>, schedule: seq<nat>, i: nat): nat {
    if schedule == [] then 0
    else
      var before := schedule[..|schedule| - 1];
      MaxRetries(samples, before, i) + if schedule[|schedule| - 1] == i && MaxFails(Run(samples, before), i) then 1 else 0
  }

  /** What a call loaded is what the cell held when that many updates had been made. */
  predicate SeenOk(cells: Cells, c: Call) {
    && (c.stage.CasMin? ==> c.stage.seen <= cells.minWins && (c.stage.seen == cells.minWins ==> cells.min == c.stage.cur))
    && (c.stage.CasMax? ==> c.stage.seen <= cells.maxWins && (c.stage.seen == cells.maxWins ==> cells.max == c.stage.cur))
  }

  lemma {:induction false} SeenHolds(samples: seq<int>, schedule: seq<nat>, i: nat)
    requires i < |samples|
    ensures SeenOk(Run(samples, schedule).cells, Run(samples, schedule).calls[i])
  {
    hide Wrap;
    if schedule != [] {
      SeenHolds(samples, schedule[..|schedule| - 1], i);
    }
  }

  lemma {:induction false} OneMissing(calls: seq<Call>, i: nat)
    requires i < |calls|
    ensures !PastMin(calls[i].stage) ==> Weigh(calls, MinShare) <= |calls| - 1
    ensures !calls[i].stage.Done? ==> Weigh(calls, MaxShare) <= |calls| - 1
  {
    if i == 0 {
      ShareBounds(calls[1..]);
    } else {
      OneMissing(calls[1..], i - 1);
    }
  }

  /** Failures so far, held against the updates the call has seen others make. */
  predicate RetriesOk(cells: Cells, c: Call, minRetries: nat, maxRetries: nat) {
    && (!PastMin(c.stage) ==> minRetries <= if c.stage.CasMin? then c.stage.seen else cells.minWins)
    && (!c.stage.Done? ==> maxRetries <= if c.stage.CasMax? then c.stage.seen else cells.maxWins)
  }

  lemma RetriesStep(s: System, i: nat, k: nat, minRetries: nat, maxRetries: nat)
    requires i < |s.calls| && SeenOk(s.cells, s.calls[i]) && RetriesOk(s.cells, s.calls[i], minRetries, maxRetries)
    ensures var t := Step(s, k);
            RetriesOk(t.cells, t.calls[i], minRetries + (if k == i && MinFails(s, i) then 1 else 0), maxRetries + (if k == i && MaxFails(s, i) then 1 else 0))
  {
    hide Wrap;
  }

  /** In every interleaving, on each of the two cells, a call fails at most once for every other call. */
  lemma {:induction false} RetriesAreBounded(samples: seq<int>, schedule: seq<nat>, i: nat)
    requires i < |samples|
    ensures MinRetries(samples, schedule, i) <= |samples| - 1 && MaxRetries(samples, schedule, i) <= |samples| - 1
    ensures var s := Run(samples, schedule);
            RetriesOk(s.cells, s.calls[i], MinRetries(samples, schedule, i), MaxRetries(samples, schedule, i))
  {
    hide Wrap, RetriesOk, Weigh;
    if schedule == [] {
      NoRetriesYet(samples, i);
    } else {
      var n := |schedule| - 1;
      var s := Run(samples, schedule[..n]);
      RetriesAreBounded(samples, schedule[..n], i);
      SeenHolds(samples, schedule[..n], i);
      RetriesStep(s, i, schedule[n], MinRetries(samples, schedule[..n], i), MaxRetries(samples, schedule[..n], i));
      WinsAreBounded(samples, schedule[..n]);
      OneMissing(s.calls, i);
      FailureNeedsRoom(s, i, MinRetries(samples, schedule[..n], i), MaxRetries(samples, schedule[..n], i));
    }
  }

  lemma NoRetriesYet(samples: seq<int>, i: nat)
    requires i < |samples|
    ensures RetriesOk(Init(samples).cells, Init(samples).calls[i], 0, 0)
  {
  }

  /** A failure is one update by another call more than the call has failed before. */
  lemma FailureNeedsRoom(s: System, i: nat, minRetries: nat, maxRetries: nat)
    requires i < |s.calls| && SeenOk(s.cells, s.calls[i]) && RetriesOk(s.cells, s.calls[i], minRetries, maxRetries)
    ensures MinFails(s, i) ==> minRetries + 1 <= s.cells.minWins && !PastMin(s.calls[i].stage)
    ensures MaxFails(s, i) ==> maxRetries + 1 <= s.cells.maxWins && !s.calls[i].stage.Done?
  {
  }

  // ---- a minimum of 0 means "unset"

  predicate AllZero(samples: seq<int>) {
    forall i :: 0 <= i < |samples| ==> samples[i] == 0
  }

  lemma {:induction false} ZeroStaysZero(samples: seq<int>, schedule: seq<nat>)
    requires AllZero(samples)
    ensures Run(samples, schedule).cells.min == 0
  {
    RunKeepsInv(samples, schedule);
  }

  function Advance3(cells: Cells, c: Call): (Cells, Call) {
    var (cells1, c1) := Advance(cells, c);
    var (cells2, c2) := Advance(cells1, c1);
    Advance(cells2, c2)
  }

  lemma SixSteps(cells: Cells, c: Call)
    requires c.stage.AddTotal? && c.us >= 0 && cells.min >= 0
    ensures var (mid, d) := Advance3(cells, c);
            var (end, e) := Advance3(mid, d);
            e == Call(c.us, Done) && (c.us > 0 ==> end.min > 0)
  {
    hide Wrap;
  }

  lemma Thrice(samples: seq<int>, schedule: seq<nat>, k: nat) returns (r: seq<nat>)
    requires k < |samples|
    ensures var s, t := Run(samples, schedule), Run(samples, r);
            var (cells, c) := Advance3(s.cells, s.calls[k]);
            t == System(cells, s.calls[k := c])
  {
    hide Advance, Run;
    var a1 := Then(samples, schedule, k);
    var a2 := Then(samples, a1, k);
    r := Then(samples, a2, k);
  }

  /** One call run to its end with no other in between. */
  lemma Solo(samples: seq<int>, schedule: seq<nat>, k: nat) returns (r: seq<nat>)
    requires NonNegative(samples) && k < |samples| && Run(samples, schedule).calls[k] == Call(samples[k], AddTotal)
    ensures var s, t := Run(samples, schedule), Run(samples, r);
            t.calls == s.calls[k := Call(samples[k], Done)] && (samples[k] > 0 ==> t.cells.min > 0)
  {
    hide Advance3, Run;
    RunKeepsInv(samples, schedule);
    SixSteps(Run(samples, schedule).cells, Run(samples, schedule).calls[k]);
    var half := Thrice(samples, schedule, k);
    r := Thrice(samples, half, k);
  }

  lemma {:induction false} AllBut(samples: seq<int>, last: nat, n: nat) returns (r: seq<nat>)
    requires NonNegative(samples) && last < |samples| && n <= |samples|
    ensures forall i :: 0 <= i < |samples| ==>
      Run(samples, r).calls[i] == Call(samples[i], if i < n && i != last then Done else AddTotal)
  {
    if n == 0 {
      r := [];
    } else {
      r := AllBut(samples, last, n - 1);
      if n - 1 != last {
        r := Solo(samples, r, n - 1);
      }
    }
  }

  /** The recorded minimum is right under every schedule exactly when no sample is 0 or all are: with
      both kinds, a positive sample recorded last takes the 0 for "unset" and replaces it. */
  lemma MinIsExactIff(samples: seq<int>)
    requires NonNegative(samples) && samples != []
    ensures (forall schedule :: Quiescent(Run(samples, schedule)) ==> IsMin(Run(samples, schedule).cells.min, samples)) <==>
            Positive(samples) || AllZero(samples)
  {
    if Positive(samples) {
      forall schedule | Quiescent(Run(samples, schedule)) ensures IsMin(Run(samples, schedule).cells.min, samples) {
        QuiescentIsExact(samples, schedule);
      }
    } else if AllZero(samples) {
      forall schedule | Quiescent(Run(samples, schedule)) ensures IsMin(Run(samples, schedule).cells.min, samples) {
        ZeroStaysZero(samples, schedule);
        assert samples[0] in samples;
      }
    } else {
      var zero, last :| 0 <= zero < |samples| && 0 <= last < |samples| && samples[zero] == 0 && samples[last] > 0;
      var before := AllBut(samples, last, |samples|);
      var schedule := Solo(samples, before, last);
      assert samples[zero] in samples;
      assert Quiescent(Run(samples, schedule)) && !IsMin(Run(samples, schedule).cells.min, samples);
    }
  }
}
