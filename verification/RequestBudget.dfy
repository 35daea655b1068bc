/** The sliding-window request budget of one session (research_policy.py). Every lock-protected block is one step;
    clock readings are reals and never decrease. */
module RequestBudget {

  datatype Plan = Plan(perMinute: nat, concurrent: nat, perSession: nat, downloadBytes: nat, runtimeSeconds: nat)

  datatype State = State(started: real, total: nat, active: int, downloaded: nat, recent: seq<real>)

  datatype Op = Enter(t: real) | Exit | Receive(amount: nat)

  datatype Outcome = Admitted | Left | Counted | TimeLimit | RequestLimit | PerMinuteLimit | ConcurrentLimit | ReadLimit

  function Initial(started: real): State {
    State(started, 0, 0, 0, [])
  }

  /** Drops the times that left the minute ending at `t`. */
  function Pruned(recent: seq<real>, t: real): seq<real> {
    if recent != [] && recent[0] <= t - 60.0 then Pruned(recent[1..], t) else recent
  }

  function Step(p: Plan, s: State, op: Op): (State, Outcome) {
    match op
    case Enter(t) =>
      if t - s.started >= p.runtimeSeconds as real then (s, TimeLimit) else
      var pruned := s.(recent := Pruned(s.recent, t));
      if s.total >= p.perSession then (pruned, RequestLimit)
      else if |pruned.recent| >= p.perMinute then (pruned, PerMinuteLimit)
      else if s.active >= p.concurrent then (pruned, ConcurrentLimit)
      else (pruned.(total := s.total + 1, active := s.active + 1, recent := pruned.recent + [t]), Admitted)
    case Exit => (s.(active := s.active - 1), Left)
    case Receive(n) =>
      if s.downloaded + n > p.downloadBytes then (s, ReadLimit) else (s.(downloaded := s.downloaded + n), Counted)
  }

  function After(p: Plan, started: real, ops: seq<Op>): State {
    if ops == [] then Initial(started) else Step(p, After(p, started, ops[..|ops| - 1]), ops[|ops| - 1]).0
  }

  /** The times at which a run admitted requests, oldest first. */
  function Admissions(p: Plan, started: real, ops: seq<Op>): seq<real> {
    if ops == [] then []
    else
      var before := Admissions(p, started, ops[..|ops| - 1]);
      match ops[|ops| - 1]
      case Enter(t) =>
        if Step(p, After(p, started, ops[..|ops| - 1]), Enter(t)).1 == Admitted then before + [t] else before
      case _ => before
  }

  function Exits(ops: seq<Op>): nat {
    if ops == [] then 0 else Exits(ops[..|ops| - 1]) + if ops[|ops| - 1].Exit? then 1 else 0
  }

  /** The bytes a run counted. */
  function Received(p: Plan, started: real, ops: seq<Op>): nat {
    if ops == [] then 0
    else
      Received(p, started, ops[..|ops| - 1]) +
      match ops[|ops| - 1]
      case Receive(n) => if Step(p, After(p, started, ops[..|ops| - 1]), Receive(n)).1 == Counted then n else 0
      case _ => 0
  }

  /** The latest clock reading of a run. */
  function Now(started: real, ops: seq<Op>): real {
    if ops == [] then started
    else
      match ops[|ops| - 1]
      case Enter(t) => t
      case _ => Now(started, ops[..|ops| - 1])
  }

  /** The clock never runs backwards. */
  ghost predicate Timely(started: real, ops: seq<Op>) {
    forall k | 0 <= k < |ops| && ops[k].Enter? :: Now(started, ops[..k]) <= ops[k].t
  }

  ghost predicate Ascending(times: seq<real>) {
    forall i, j :: 0 <= i < j < |times| ==> times[i] <= times[j]
  }

  /** Any admissions less than a minute apart are few enough. */
  ghost predicate Spaced(p: Plan, times: seq<real>) {
    forall i, j :: 0 <= i <= j < |times| && times[j] < times[i] + 60.0 ==> j - i < p.perMinute
  }

  /** What ties the state to the whole history of admissions. */
  ghost predicate Tracks(p: Plan, s: State, times: seq<real>, now: real) {
    && s.total == |times| && s.total <= p.perSession
    && s.active <= p.concurrent
    && s.downloaded <= p.downloadBytes
    && s.started <= now
    && Ascending(times)
    && (forall i | 0 <= i < |times| :: s.started <= times[i] <= now && times[i] < s.started + p.runtimeSeconds as real)
    && |s.recent| <= |times| && s.recent == times[|times| - |s.recent|..]
    && (forall i | 0 <= i < |times| - |s.recent| :: times[i] <= now - 60.0)
    && Spaced(p, times)
  }

  lemma {:induction false} PrunedSuffix(recent: seq<real>, t: real)
    ensures |Pruned(recent, t)| <= |recent| && Pruned(recent, t) == recent[|recent| - |Pruned(recent, t)|..]
    ensures forall i | 0 <= i < |recent| - |Pruned(recent, t)| :: recent[i] <= t - 60.0
    ensures Pruned(recent, t) != [] ==> Pruned(recent, t)[0] > t - 60.0
  {
    if recent != [] && recent[0] <= t - 60.0 {
      PrunedSuffix(recent[1..], t);
    }
  }

  /** Forgetting the times that left the minute keeps the state on track at the later time. */
  lemma PruneTracks(p: Plan, s: State, times: seq<real>, now: real, t: real)
    requires Tracks(p, s, times, now) && now <= t
    ensures Tracks(p, s.(recent := Pruned(s.recent, t)), times, t)
    ensures forall i | 0 <= i < |times| && t - 60.0 < times[i] :: |times| - |Pruned(s.recent, t)| <= i
  {
    PrunedSuffix(s.recent, t);
    var kept := Pruned(s.recent, t);
    var cut := |times| - |s.recent|;
    forall i | 0 <= i < |times| - |kept| ensures times[i] <= t - 60.0 {
      if cut <= i {
        assert s.recent[i - cut] == times[i];
      }
    }
  }

  lemma StepTracks(p: Plan, s: State, times: seq<real>, now: real, op: Op)
    requires Tracks(p, s, times, now)
    requires op.Enter? ==> now <= op.t
    ensures var (after, outcome) := Step(p, s, op);
            Tracks(p, after, if outcome == Admitted then times + [op.t] else times, if op.Enter? then op.t else now)
  {
    match op
    case Exit =>
    case Receive(n) =>
    case Enter(t) => EnterTracks(p, s, times, now, t);
  }

  lemma EnterTracks(p: Plan, s: State, times: seq<real>, now: real, t: real)
    requires Tracks(p, s, times, now) && now <= t
    ensures var (after, outcome) := Step(p, s, Enter(t));
            Tracks(p, after, if outcome == Admitted then times + [t] else times, t)
  {
    if t - s.started >= p.runtimeSeconds as real {
      LaterTracks(p, s, times, now, t);
    } else {
      PruneTracks(p, s, times, now, t);
      if Step(p, s, Enter(t)).1 == Admitted {
        AdmitTracks(p, s.(recent := Pruned(s.recent, t)), times, t);
      }
    }
  }

  lemma LaterTracks(p: Plan, s: State, times: seq<real>, now: real, t: real)
    requires Tracks(p, s, times, now) && now <= t
    ensures Tracks(p, s, times, t)
  {
  }

  lemma AdmitTracks(p: Plan, s: State, times: seq<real>, t: real)
    requires Tracks(p, s, times, t)
    requires t - s.started < p.runtimeSeconds as real && s.total < p.perSession && |s.recent| < p.perMinute
             && s.active < p.concurrent
    requires forall i | 0 <= i < |times| && t - 60.0 < times[i] :: |times| - |s.recent| <= i
    ensures Tracks(p, s.(total := s.total + 1, active := s.active + 1, recent := s.recent + [t]), times + [t], t)
  {
    var grown := times + [t];
    forall i, j | 0 <= i <= j < |grown| && grown[j] < grown[i] + 60.0 ensures j - i < p.perMinute {
      if j < |times| {
        assert times[j] < times[i] + 60.0;
      } else if i < |times| {
        assert t - 60.0 < times[i];
      }
    }
  }

  lemma LastStep(p: Plan, started: real, ops: seq<Op>)
    requires ops != []
    ensures var front, op := ops[..|ops| - 1], ops[|ops| - 1];
            var (after, outcome) := Step(p, After(p, started, front), op);
            && After(p, started, ops) == after
            && Admissions(p, started, ops) == (if outcome == Admitted then Admissions(p, started, front) + [op.t]
                                               else Admissions(p, started, front))
            && Now(started, ops) == if op.Enter? then op.t else Now(started, front)
  {
  }

  lemma TimelyFront(started: real, ops: seq<Op>)
    requires ops != [] && Timely(started, ops)
    ensures Timely(started, ops[..|ops| - 1])
    ensures ops[|ops| - 1].Enter? ==> Now(started, ops[..|ops| - 1]) <= ops[|ops| - 1].t
  {
    var front := ops[..|ops| - 1];
    assert forall k | 0 <= k < |front| :: front[..k] == ops[..k];
  }

  lemma {:induction false} RunTracks(p: Plan, started: real, ops: seq<Op>)
    requires Timely(started, ops)
    ensures Tracks(p, After(p, started, ops), Admissions(p, started, ops), Now(started, ops))
  {
    if ops != [] {
      var front := ops[..|ops| - 1];
      TimelyFront(started, ops);
      RunTracks(p, started, front);
      LastStep(p, started, ops);
      StepTracks(p, After(p, started, front), Admissions(p, started, front), Now(started, front), ops[|ops| - 1]);
    }
  }

  /** How many of `times` lie in the minute that starts at `u`. */
  function InMinute(times: seq<real>, u: real): nat {
    if times == [] then 0
    else InMinute(times[..|times| - 1], u) + if u <= times[|times| - 1] < u + 60.0 then 1 else 0
  }

  lemma {:induction false} NoneInMinute(times: seq<real>, u: real)
    requires forall i | 0 <= i < |times| :: times[i] < u
    ensures InMinute(times, u) == 0
  {
    if times != [] {
      NoneInMinute(times[..|times| - 1], u);
    }
  }

  /** Times in a minute are consecutive, so there are at most as many as lie between the first and the last. */
  lemma {:induction false} InMinuteSpan(times: seq<real>, u: real, first: nat)
    requires Ascending(times) && first < |times|
    requires u <= times[first] && forall i | 0 <= i < first :: times[i] < u
    requires times[|times| - 1] < u + 60.0
    ensures InMinute(times, u) == |times| - first
  {
    var front := times[..|times| - 1];
    if first == |times| - 1 {
      NoneInMinute(front, u);
    } else {
      InMinuteSpan(front, u, first);
    }
  }

  lemma {:induction false} SpacedCount(p: Plan, times: seq<real>, u: real)
    requires Ascending(times) && Spaced(p, times)
    ensures InMinute(times, u) <= p.perMinute
  {
    if times != [] {
      var last := |times| - 1;
      if u <= times[last] < u + 60.0 {
        var first := FirstFrom(times, u);
        assert times[last] < times[first] + 60.0;
        InMinuteSpan(times, u, first);
      } else {
        SpacedCount(p, times[..last], u);
      }
    }
  }

  function FirstFrom(times: seq<real>, u: real): (k: nat)
    requires times != [] && u <= times[|times| - 1]
    ensures k < |times| && u <= times[k] && forall i | 0 <= i < k :: times[i] < u
  {
    if u <= times[0] then 0 else FirstFrom(times[1..], u) + 1
  }

  /** Over a whole run, whatever the interleaving: no minute anywhere in the history holds more admissions than
      allowed, the session and byte totals stay within their limits, the bytes counted are the bytes received, and
      nothing is admitted once the runtime has elapsed. */
  lemma BudgetHolds(p: Plan, started: real, ops: seq<Op>, u: real)
    requires Timely(started, ops)
    ensures InMinute(Admissions(p, started, ops), u) <= p.perMinute
    ensures |Admissions(p, started, ops)| <= p.perSession
    ensures After(p, started, ops).active <= p.concurrent
    ensures After(p, started, ops).downloaded == Received(p, started, ops) <= p.downloadBytes
    ensures forall t | t in Admissions(p, started, ops) :: t < started + p.runtimeSeconds as real
  {
    RunTracks(p, started, ops);
    RunCounts(p, started, ops);
    SpacedCount(p, Admissions(p, started, ops), u);
  }

  /** Requests in flight are the admitted ones that have not left, and bytes downloaded are those received. */
  lemma {:induction false} RunCounts(p: Plan, started: real, ops: seq<Op>)
    ensures After(p, started, ops).started == started
    ensures After(p, started, ops).active == |Admissions(p, started, ops)| - Exits(ops)
    ensures After(p, started, ops).downloaded == Received(p, started, ops)
  {
    if ops != [] {
      RunCounts(p, started, ops[..|ops| - 1]);
    }
  }

  /** A refusal happens only for its own reason: a request within the runtime and under every cap is admitted. */
  lemma RefusedOnlyWhenDue(p: Plan, started: real, ops: seq<Op>, t: real)
    requires Timely(started, ops) && Now(started, ops) <= t
    ensures var (s, times) := (After(p, started, ops), Admissions(p, started, ops));
            Step(p, s, Enter(t)).1 == Admitted
            <==> t < started + p.runtimeSeconds as real && |times| < p.perSession
                 && |times| - Exits(ops) < p.concurrent && InLastMinute(times, t) < p.perMinute
  {
    RunTracks(p, started, ops);
    RunCounts(p, started, ops);
    var s, times := After(p, started, ops), Admissions(p, started, ops);
    PruneTracks(p, s, times, Now(started, ops), t);
    PrunedSuffix(s.recent, t);
    PrunedCount(s, times, t);
    AdmittedExactly(p, s, t);
  }

  lemma AdmittedExactly(p: Plan, s: State, t: real)
    ensures Step(p, s, Enter(t)).1 == Admitted
            <==> t < s.started + p.runtimeSeconds as real && s.total < p.perSession && s.active < p.concurrent
                 && |Pruned(s.recent, t)| < p.perMinute
  {
  }

  /** What a refusal says: the runtime has elapsed, or else the session is used up, or else the last minute is full, or
      else too many requests are in flight. */
  ghost predicate SaysWhy(p: Plan, started: real, times: seq<real>, inFlight: int, t: real, outcome: Outcome) {
    && (started + p.runtimeSeconds as real <= t ==> outcome == TimeLimit)
    && (t < started + p.runtimeSeconds as real ==>
          && (p.perSession <= |times| ==> outcome == RequestLimit)
          && (|times| < p.perSession && p.perMinute <= InLastMinute(times, t) ==> outcome == PerMinuteLimit)
          && (|times| < p.perSession && InLastMinute(times, t) < p.perMinute && p.concurrent <= inFlight ==>
                outcome == ConcurrentLimit)
          && (|times| < p.perSession && InLastMinute(times, t) < p.perMinute && inFlight < p.concurrent ==>
                outcome == Admitted))
  }

  /** Every request of every run is answered for the first reason that holds, read off the times of the requests
      admitted so far and the number that have left. */
  lemma RefusedFor(p: Plan, started: real, ops: seq<Op>, t: real)
    requires Timely(started, ops) && Now(started, ops) <= t
    ensures SaysWhy(p, started, Admissions(p, started, ops), |Admissions(p, started, ops)| - Exits(ops), t,
                    Step(p, After(p, started, ops), Enter(t)).1)
  {
    RunTracks(p, started, ops);
    RunCounts(p, started, ops);
    var s, times := After(p, started, ops), Admissions(p, started, ops);
    PruneTracks(p, s, times, Now(started, ops), t);
    PrunedCount(s, times, t);
  }

  /** Bytes are counted exactly when all of them fit, and a refused chunk counts nothing. */
  lemma CountedExactly(p: Plan, started: real, ops: seq<Op>, n: nat)
    ensures var (after, outcome) := Step(p, After(p, started, ops), Receive(n));
            && (Received(p, started, ops) + n <= p.downloadBytes ==>
                  outcome == Counted && after.downloaded == Received(p, started, ops) + n)
            && (p.downloadBytes < Received(p, started, ops) + n ==>
                  outcome == ReadLimit && after == After(p, started, ops))
  {
    RunCounts(p, started, ops);
  }

  /** How many of `times` lie in the minute that ends at `t`, open on the left. */
  function InLastMinute(times: seq<real>, t: real): nat {
    if times == [] then 0
    else InLastMinute(times[..|times| - 1], t) + if t - 60.0 < times[|times| - 1] <= t then 1 else 0
  }

  lemma {:induction false} LastMinuteSuffix(times: seq<real>, t: real, cut: nat)
    requires cut <= |times|
    requires forall i | 0 <= i < cut :: times[i] <= t - 60.0
    requires forall i | cut <= i < |times| :: t - 60.0 < times[i] <= t
    ensures InLastMinute(times, t) == |times| - cut
  {
    if times != [] {
      LastMinuteSuffix(times[..|times| - 1], t, if cut == |times| then cut - 1 else cut);
    }
  }

  lemma PrunedCount(s: State, times: seq<real>, t: real)
    requires Ascending(times) && (forall i | 0 <= i < |times| :: times[i] <= t)
    requires |s.recent| <= |times| && s.recent == times[|times| - |s.recent|..]
    requires forall i | 0 <= i < |times| - |s.recent| :: times[i] <= t - 60.0
    ensures |Pruned(s.recent, t)| == InLastMinute(times, t)
  {
    PrunedSuffix(s.recent, t);
    var kept := Pruned(s.recent, t);
    var cut := |times| - |kept|;
    forall i | 0 <= i < cut ensures times[i] <= t - 60.0 {
      if |times| - |s.recent| <= i {
        assert s.recent[i - (|times| - |s.recent|)] == times[i];
      }
    }
    assert forall i | 0 <= i < |kept| :: kept[i] == times[cut + i];
    forall i | cut <= i < |times| ensures t - 60.0 < times[i] {
      assert kept[0] == times[cut];
    }
    LastMinuteSuffix(times, t, cut);
  }

  // ----- The budget as it runs -----

  class Budget {
    const plan: Plan
    const started: real
    var total: nat
    var active: int
    var downloaded: nat
    var recent: seq<real>

    ghost function Value(): State
      reads this
    {
      State(started, total, active, downloaded, recent)
    }

    constructor (plan: Plan, now: real)
      ensures this.plan == plan && Value() == Initial(now)
    {
      this.plan, started := plan, now;
      total, active, downloaded, recent := 0, 0, 0, [];
    }

    /** Entering `request()` at clock reading `t`. */
    method Request(t: real) returns (outcome: Outcome)
      modifies this`total, this`active, this`recent
      ensures (Value(), outcome) == Step(plan, old(Value()), Enter(t))
      ensures started + plan.runtimeSeconds as real <= t <==> outcome == TimeLimit
      ensures outcome == Admitted ==> total == old(total) + 1 && active == old(active) + 1 && t in recent
      ensures outcome != Admitted ==> total == old(total) && active == old(active)
    {
      if t - started >= plan.runtimeSeconds as real {
        return TimeLimit;
      }
      while recent != [] && recent[0] <= t - 60.0
        invariant Pruned(recent, t) == Pruned(old(recent), t)
        invariant total == old(total) && active == old(active)
        decreases |recent|
      {
        recent := recent[1..];
      }
      if total >= plan.perSession {
        return RequestLimit;
      }
      if |recent| >= plan.perMinute {
        return PerMinuteLimit;
      }
      if active >= plan.concurrent {
        return ConcurrentLimit;
      }
      total, active, recent := total + 1, active + 1, recent + [t];
      return Admitted;
    }

    /** Leaving `request()`, normally or by an exception. */
    method Finish()
      modifies this`active
      ensures Value() == Step(plan, old(Value()), Exit).0
      ensures active == old(active) - 1
    {
      active := active - 1;
    }

    method Receive(amount: nat) returns (outcome: Outcome)
      modifies this`downloaded
      ensures (Value(), outcome) == Step(plan, old(Value()), Op.Receive(amount))
      ensures outcome == if old(downloaded) + amount <= plan.downloadBytes then Counted else ReadLimit
      ensures downloaded == old(downloaded) + if outcome == Counted then amount else 0
    {
      if downloaded + amount > plan.downloadBytes {
        return ReadLimit;
      }
      downloaded := downloaded + amount;
      return Counted;
    }
  }
}
