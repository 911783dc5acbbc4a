/** The failure counter of the retry plugins and its promise-chain lock
    (core/src/plugins/_reflect_retry_utils.ts). */
module RetryTracker {
  import opened Wrappers

  datatype Op =
    | Increment(scope: string, item: string)
    | Reset(scope: string, item: string)
    | GetCount(scope: string, item: string)

  type Counters = map<string, map<string, nat>>

  function Count(c: Counters, scope: string, item: string): nat {
    if scope in c && item in c[scope] then c[scope][item] else 0
  }

  /** The critical section of an operation: the new counters and what it returns. */
  function Apply(c: Counters, op: Op): (Counters, nat) {
    match op
    case Increment(scope, item) =>
      var counter := if scope in c then c[scope] else map[];
      var current := Count(c, scope, item) + 1;
      (c[scope := counter[item := current]], current)
    case Reset(scope, item) =>
      if scope !in c then (c, 0)
      else
        var counter := c[scope] - {item};
        (if counter == map[] then c - {scope} else c[scope := counter], 0)
    case GetCount(scope, item) => (c, Count(c, scope, item))
  }

  /** The counters after operations executed one after the other. */
  function After(ops: seq<Op>): Counters {
    if ops == [] then map[] else Apply(After(ops[..|ops| - 1]), ops[|ops| - 1]).0
  }

  /** Reference: the increments of an item since its last reset. */
  function Streak(ops: seq<Op>, scope: string, item: string): nat {
    if ops == [] then 0
    else
      var op, before := ops[|ops| - 1], Streak(ops[..|ops| - 1], scope, item);
      if op.scope != scope || op.item != item || op.GetCount? then before
      else if op.Increment? then before + 1
      else 0
  }

  /** No empty table and no zero count is ever kept. */
  ghost predicate Tidy(c: Counters) {
    forall scope :: scope in c ==> c[scope] != map[] && forall item :: item in c[scope] ==> c[scope][item] > 0
  }

  lemma ApplyCount(c: Counters, op: Op, scope: string, item: string)
    ensures Count(Apply(c, op).0, scope, item)
         == if op.GetCount? || op.scope != scope || op.item != item then Count(c, scope, item)
            else if op.Increment? then Count(c, scope, item) + 1
            else 0
  {
    if op.Reset? && op.scope in c && op.scope == scope && item != op.item {
      assert item in c[scope] <==> item in c[scope] - {op.item};
    }
  }

  lemma ApplyKeepsTidy(c: Counters, op: Op)
    requires Tidy(c)
    ensures Tidy(Apply(c, op).0)
  {
    if op.Increment? {
      var counter := Apply(c, op).0[op.scope];
      assert op.item in counter;
    }
  }

  lemma {:induction false} CountsAreStreaks(ops: seq<Op>, scope: string, item: string)
    ensures Count(After(ops), scope, item) == Streak(ops, scope, item)
  {
    if ops != [] {
      CountsAreStreaks(ops[..|ops| - 1], scope, item);
      ApplyCount(After(ops[..|ops| - 1]), ops[|ops| - 1], scope, item);
    }
  }

  lemma {:induction false} CountersStayTidy(ops: seq<Op>)
    ensures Tidy(After(ops))
  {
    if ops != [] {
      CountersStayTidy(ops[..|ops| - 1]);
      ApplyKeepsTidy(After(ops[..|ops| - 1]), ops[|ops| - 1]);
    }
  }

  class ScopedFailureTracker {
    var scopedFailureCounters: Counters

    constructor ()
      ensures scopedFailureCounters == map[]
    {
      scopedFailureCounters := map[];
    }

    method IncrementCount(scope: string, item: string) returns (count: nat)
      modifies this
      ensures (scopedFailureCounters, count) == Apply(old(scopedFailureCounters), Increment(scope, item))
    {
      var counter := map[];
      if scope in scopedFailureCounters {
        counter := scopedFailureCounters[scope];
      }
      count := (if item in counter then counter[item] else 0) + 1;
      counter := counter[item := count];
      scopedFailureCounters := scopedFailureCounters[scope := counter];
    }

    method ResetCount(scope: string, item: string)
      modifies this
      ensures scopedFailureCounters == Apply(old(scopedFailureCounters), Reset(scope, item)).0
    {
      if scope in scopedFailureCounters {
        var counter := scopedFailureCounters[scope] - {item};
        scopedFailureCounters := scopedFailureCounters[scope := counter];
        if counter == map[] {
          scopedFailureCounters := scopedFailureCounters - {scope};
        }
      }
    }

    method CurrentCount(scope: string, item: string) returns (count: nat)
      ensures count == Apply(scopedFailureCounters, GetCount(scope, item)).1
    {
      count := 0;
      if scope in scopedFailureCounters && item in scopedFailureCounters[scope] {
        count := scopedFailureCounters[scope][item];
      }
    }
  }

  // ---------------------------------------------------------------------------
  // The promise chain
  // ---------------------------------------------------------------------------

  /** Where a caller of the tracker is: waiting for the previous link of the chain,
      holding the lock, done with its critical section, or past its release. */
  datatype Phase = Waiting | Holding | Served(result: nat) | Released(result: nat)

  /** A call to the tracker; its position in `calls` is its place in the chain. */
  datatype Call = Call(op: Op, phase: Phase)

  datatype LockState = LockState(calls: seq<Call>, counters: Counters)

  const IDLE := LockState([], map[])

  datatype Action = Arrive(op: Op) | Acquire(n: nat) | Serve(n: nat) | Release(n: nat)

  /** The link call `n` awaits: it resolves once the link before it has and call
      `n - 1` has released. */
  predicate LinkResolved(calls: seq<Call>, n: nat)
    requires n <= |calls|
  {
    n == 0 || (LinkResolved(calls, n - 1) && calls[n - 1].phase.Released?)
  }

  predicate Enabled(s: LockState, a: Action) {
    match a
    case Arrive(_) => true
    case Acquire(n) => n < |s.calls| && s.calls[n].phase.Waiting? && LinkResolved(s.calls, n)
    case Serve(n) => n < |s.calls| && s.calls[n].phase.Holding?
    case Release(n) => n < |s.calls| && s.calls[n].phase.Served?
  }

  function SetPhase(s: LockState, n: nat, phase: Phase): LockState
    requires n < |s.calls|
  {
    s.(calls := s.calls[n := s.calls[n].(phase := phase)])
  }

  function Next(s: LockState, a: Action): LockState
    requires Enabled(s, a)
  {
    match a
    case Arrive(op) => s.(calls := s.calls + [Call(op, Waiting)])
    case Acquire(n) => SetPhase(s, n, Holding)
    case Serve(n) =>
      var (counters, result) := Apply(s.counters, s.calls[n].op);
      SetPhase(s, n, Served(result)).(counters := counters)
    case Release(n) => SetPhase(s, n, Released(s.calls[n].phase.result))
  }

  function Run(s: LockState, schedule: seq<Action>): LockState
    decreases |schedule|
  {
    if schedule == [] then s
    else Run(if Enabled(s, schedule[0]) then Next(s, schedule[0]) else s, schedule[1..])
  }

  function OpsOf(calls: seq<Call>): seq<Op> {
    seq(|calls|, i requires 0 <= i < |calls| => calls[i].op)
  }

  /** Calls before `k` have released, call `k` may be inside, all later ones wait; the
      counters and results are those of executing the served calls in arrival order. */
  ghost predicate InOrder(s: LockState, k: nat) {
    && k <= |s.calls|
    && (forall i :: 0 <= i < k ==> s.calls[i].phase.Released?)
    && (forall i :: k < i < |s.calls| ==> s.calls[i].phase.Waiting?)
    && (k < |s.calls| ==> !s.calls[k].phase.Released?)
    && s.counters == After(OpsOf(s.calls)[..ServedCalls(s, k)])
    && (forall i :: 0 <= i < ServedCalls(s, k) ==> s.calls[i].phase.Served? || s.calls[i].phase.Released?)
    && (forall i :: 0 <= i < ServedCalls(s, k) ==>
          s.calls[i].phase.result == Apply(After(OpsOf(s.calls)[..i]), s.calls[i].op).1)
  }

  ghost function ServedCalls(s: LockState, k: nat): (n: nat)
    requires k <= |s.calls|
    ensures k <= n <= |s.calls|
  {
    if k < |s.calls| && s.calls[k].phase.Served? then k + 1 else k
  }

  lemma {:induction false} LinkIff(calls: seq<Call>, n: nat)
    requires n <= |calls|
    ensures LinkResolved(calls, n) <==> forall i :: 0 <= i < n ==> calls[i].phase.Released?
  {
    if n > 0 {
      LinkIff(calls, n - 1);
    }
  }

  lemma ArriveKeeps(s: LockState, op: Op, k: nat)
    requires InOrder(s, k)
    ensures InOrder(Next(s, Arrive(op)), k)
  {
    var t := Next(s, Arrive(op));
    assert forall i :: 0 <= i <= |s.calls| ==> OpsOf(t.calls)[..i] == OpsOf(s.calls)[..i];
  }

  lemma AcquireKeeps(s: LockState, n: nat, k: nat)
    requires InOrder(s, k) && Enabled(s, Acquire(n))
    ensures n == k && InOrder(Next(s, Acquire(n)), k)
  {
    LinkIff(s.calls, n);
    assert OpsOf(Next(s, Acquire(n)).calls) == OpsOf(s.calls);
  }

  lemma ServeKeeps(s: LockState, n: nat, k: nat)
    requires InOrder(s, k) && Enabled(s, Serve(n))
    ensures n == k && InOrder(Next(s, Serve(n)), k)
  {
    SameOps(s, n, Next(s, Serve(n)).calls[n].phase);
    AfterOneMore(OpsOf(s.calls), k);
  }

  lemma SameOps(s: LockState, n: nat, phase: Phase)
    requires n < |s.calls|
    ensures OpsOf(SetPhase(s, n, phase).calls) == OpsOf(s.calls)
  {
  }

  lemma AfterOneMore(ops: seq<Op>, k: nat)
    requires k < |ops|
    ensures After(ops[..k + 1]) == Apply(After(ops[..k]), ops[k]).0
  {
    assert ops[..k + 1][..k] == ops[..k];
  }

  lemma ReleaseKeeps(s: LockState, n: nat, k: nat)
    requires InOrder(s, k) && Enabled(s, Release(n))
    ensures n == k && InOrder(Next(s, Release(n)), k + 1)
  {
    assert OpsOf(Next(s, Release(n)).calls) == OpsOf(s.calls);
  }

  lemma {:induction false} EveryScheduleIsInOrder(s: LockState, k: nat, schedule: seq<Action>) returns (k': nat)
    requires InOrder(s, k)
    ensures InOrder(Run(s, schedule), k')
    decreases |schedule|
  {
    if schedule == [] {
      return k;
    }
    var a := schedule[0];
    if !Enabled(s, a) {
      k' := EveryScheduleIsInOrder(s, k, schedule[1..]);
    } else {
      match a {
        case Arrive(op) => ArriveKeeps(s, op, k);
        case Acquire(n) => AcquireKeeps(s, n, k);
        case Serve(n) => ServeKeeps(s, n, k);
        case Release(n) => ReleaseKeeps(s, n, k);
      }
      k' := EveryScheduleIsInOrder(Next(s, a), if a.Release? then k + 1 else k, schedule[1..]);
    }
  }

  predicate Inside(c: Call) { c.phase.Holding? || c.phase.Served? }

  /** For every interleaving of callers at most one is inside the lock. */
  lemma MutualExclusion(schedule: seq<Action>, i: nat, j: nat)
    ensures var calls := Run(IDLE, schedule).calls;
            i < j < |calls| ==> !(Inside(calls[i]) && Inside(calls[j]))
  {
    var k := EveryScheduleIsInOrder(IDLE, 0, schedule);
  }

  /** The result of a call executed after others, in terms of streaks. */
  lemma ResultIsStreak(ops: seq<Op>, n: nat)
    requires n < |ops|
    ensures Apply(After(ops[..n]), ops[n]).1
         == if ops[n].Reset? then 0 else Streak(ops[..n + 1], ops[n].scope, ops[n].item)
  {
    CountsAreStreaks(ops[..n], ops[n].scope, ops[n].item);
    assert ops[..n + 1][..n] == ops[..n];
  }

  lemma ReleasedResult(s: LockState, k: nat, n: nat)
    requires InOrder(s, k) && n < |s.calls| && s.calls[n].phase.Released?
    ensures s.calls[n].phase.result == Apply(After(OpsOf(s.calls)[..n]), OpsOf(s.calls)[n]).1
  {
  }

  /** For every interleaving each finished call returned what it would have returned had
      all calls been executed one after the other in order of arrival: an increment or
      a read gives the number of increments since the item's last reset. */
  lemma ResultsFollowArrival(schedule: seq<Action>, n: nat)
    ensures var calls := Run(IDLE, schedule).calls;
            n < |calls| && calls[n].phase.Released? ==>
              calls[n].phase.result
              == if calls[n].op.Reset? then 0
                 else Streak(OpsOf(calls)[..n + 1], calls[n].op.scope, calls[n].op.item)
  {
    var s := Run(IDLE, schedule);
    var k := EveryScheduleIsInOrder(IDLE, 0, schedule);
    if n < |s.calls| && s.calls[n].phase.Released? {
      ReleasedResult(s, k, n);
      ResultIsStreak(OpsOf(s.calls), n);
    }
  }

  /** The chain never deadlocks: while some call has not released, a step is possible. */
  lemma SomebodyCanMove(schedule: seq<Action>)
    ensures var s := Run(IDLE, schedule);
            (exists i :: 0 <= i < |s.calls| && !s.calls[i].phase.Released?) ==>
              exists n :: Enabled(s, Acquire(n)) || Enabled(s, Serve(n)) || Enabled(s, Release(n))
  {
    var s := Run(IDLE, schedule);
    var k := EveryScheduleIsInOrder(IDLE, 0, schedule);
    if k < |s.calls| {
      LinkIff(s.calls, k);
      assert Enabled(s, Acquire(k)) || Enabled(s, Serve(k)) || Enabled(s, Release(k));
    }
  }
}
