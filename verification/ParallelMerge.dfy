/** Merging of concurrent agent runs (core/src/agents/parallel_agent.ts). */
module ParallelMerge {
  import opened Wrappers
  import opened Seqs

  /** A finite run: the events its generator yields, and whether it then throws
      instead of finishing. */
  datatype AgentRun<E> = AgentRun(events: seq<E>, throws: bool)

  /** What the merger does with the generators and its consumer. */
  datatype Action<E> =
    | Request(index: nat)                // generator.next() is called
    | Yield(index: nat, event: E)        // an event goes to the consumer
    | Finished(index: nat)               // the generator is done
    | Failed(index: nat)                 // the generator threw

  function About<E(!new)>(index: nat): Action<E> -> bool { (a: Action<E>) => a.index == index }

  /** The outcome of a merge: the log and the run whose error ended it, if any. */
  datatype Outcome<E> = Outcome(log: seq<Action<E>>, failed: Option<nat>)

  /** What one run does while its events are consumed: each event is requested, then
      yielded, before the next one is requested. */
  function Exchanges<E>(index: nat, events: seq<E>): seq<Action<E>> {
    if events == [] then []
    else Exchanges(index, events[..|events| - 1]) + [Request(index), Yield(index, events[|events| - 1])]
  }

  /** The run waits for an answer to its only outstanding request, its first `n`
      events having been consumed. */
  ghost predicate InProgress<E(!new)>(log: seq<Action<E>>, index: nat, run: AgentRun<E>, n: nat) {
    n <= |run.events| && Filter(log, About(index)) == Exchanges(index, run.events[..n]) + [Request(index)]
  }

  ghost predicate Complete<E(!new)>(log: seq<Action<E>>, index: nat, run: AgentRun<E>) {
    !run.throws && Filter(log, About(index)) == Exchanges(index, run.events) + [Request(index), Finished(index)]
  }

  ghost predicate Broken<E(!new)>(log: seq<Action<E>>, index: nat, run: AgentRun<E>) {
    run.throws && Filter(log, About(index)) == Exchanges(index, run.events) + [Request(index), Failed(index)]
  }

  function Remaining<E>(runs: seq<AgentRun<E>>, next: seq<nat>): nat
    requires |next| == |runs| && forall i :: 0 <= i < |runs| ==> next[i] <= |runs[i].events|
  {
    if runs == [] then 0 else |runs[0].events| - next[0] + Remaining(runs[1..], next[1..])
  }

  lemma {:induction false} RemainingDrops<E>(runs: seq<AgentRun<E>>, next: seq<nat>, i: nat)
    requires |next| == |runs| && forall j :: 0 <= j < |runs| ==> next[j] <= |runs[j].events|
    requires i < |runs| && next[i] < |runs[i].events|
    ensures Remaining(runs, next[i := next[i] + 1]) == Remaining(runs, next) - 1
  {
    if i > 0 {
      assert next[i := next[i] + 1][1..] == next[1..][i - 1 := next[i] + 1];
      RemainingDrops(runs[1..], next[1..], i - 1);
    } else {
      assert next[i := next[i] + 1][1..] == next[1..];
    }
  }

  lemma LogAppend<E(!new)>(log: seq<Action<E>>, a: Action<E>)
    ensures Filter(log + [a], About(a.index)) == Filter(log, About(a.index)) + [a]
    ensures forall j :: j != a.index ==> Filter(log + [a], About(j)) == Filter(log, About(j))
  {
    forall j ensures Filter(log + [a], About(j)) == Filter(log, About(j)) + (if j == a.index then [a] else []) {
      FilterAppend(log, [a], About(j));
      assert Filter([a], About(j)) == if j == a.index then [a] else [];
    }
  }

  lemma NothingAbout<E(!new)>(log: seq<Action<E>>, i: nat)
    requires forall a :: a in log ==> a.index < i
    ensures Filter(log, About(i)) == []
  {
    FilterNone(log, About(i));
  }

  lemma LogExchange<E(!new)>(log: seq<Action<E>>, i: nat, run: AgentRun<E>, n: nat)
    requires InProgress(log, i, run, n) && n < |run.events|
    ensures InProgress(log + [Yield(i, run.events[n])] + [Request(i)], i, run, n + 1)
    ensures forall j :: j != i ==>
              Filter(log + [Yield(i, run.events[n])] + [Request(i)], About(j)) == Filter(log, About(j))
  {
    LogAppend(log, Yield(i, run.events[n]));
    LogAppend(log + [Yield(i, run.events[n])], Request(i));
    assert run.events[..n + 1][..n] == run.events[..n];
  }

  /** The invariant of the race: pending runs are in progress, the others complete. */
  ghost predicate Racing<E(!new)>(runs: seq<AgentRun<E>>, next: seq<nat>, pending: set<nat>, log: seq<Action<E>>) {
    && |next| == |runs|
    && (forall j :: 0 <= j < |runs| ==> next[j] <= |runs[j].events|)
    && (forall j :: j in pending ==> j < |runs| && InProgress(log, j, runs[j], next[j]))
    && (forall j :: 0 <= j < |runs| && j !in pending ==> Complete(log, j, runs[j]))
    && (forall a :: a in log ==> a.index < |runs|)
  }

  lemma ConsumeKeeps<E(!new)>(runs: seq<AgentRun<E>>, next: seq<nat>, pending: set<nat>, log: seq<Action<E>>, i: nat)
    requires Racing(runs, next, pending, log) && i in pending && next[i] < |runs[i].events|
    ensures Racing(runs, next[i := next[i] + 1], pending, log + [Yield(i, runs[i].events[next[i]])] + [Request(i)])
  {
    LogExchange(log, i, runs[i], next[i]);
  }

  lemma EndKeeps<E(!new)>(runs: seq<AgentRun<E>>, next: seq<nat>, pending: set<nat>, log: seq<Action<E>>, i: nat)
    requires Racing(runs, next, pending, log) && i in pending && next[i] == |runs[i].events|
    ensures !runs[i].throws ==> Racing(runs, next, pending - {i}, log + [Finished(i)])
    ensures runs[i].throws ==> Broken(log + [Failed(i)], i, runs[i])
    ensures forall j :: 0 <= j < |runs| && j != i ==>
              Complete(log + [Failed(i)], j, runs[j]) || InProgress(log + [Failed(i)], j, runs[j], next[j])
  {
    assert runs[i].events[..next[i]] == runs[i].events;
    LogAppend(log, Finished(i));
    LogAppend(log, Failed(i));
    assert [Action<E>.Request(i)] + [Finished(i)] == [Request(i), Finished(i)];
    assert [Action<E>.Request(i)] + [Failed(i)] == [Request(i), Failed(i)];
  }

  /** The first loop: one request to every generator. */
  method StartAll<E(!new)>(runs: seq<AgentRun<E>>) returns (next: seq<nat>, pending: set<nat>, log: seq<Action<E>>)
    ensures Racing(runs, next, pending, log)
  {
    next, pending, log := [], {}, [];
    for i := 0 to |runs|
      invariant |next| == i && forall j :: j in pending <==> 0 <= j < i
      invariant forall j :: 0 <= j < i ==> next[j] == 0 && InProgress(log, j, runs[j], 0)
      invariant forall a :: a in log ==> a.index < i
    {
      NothingAbout(log, i);
      LogAppend(log, Request(i));
      log := log + [Request(i)];
      next := next + [0];
      pending := pending + {i};
    }
  }

  /** Merges the runs; which of the settled promises wins the race is arbitrary. If no
      run throws, every run is exchanged completely, one request at a time; otherwise
      the run that threw was, and every other run is complete or was cut short. */
  method MergeAgentRuns<E(!new)>(runs: seq<AgentRun<E>>) returns (o: Outcome<E>)
    ensures o.failed.None? ==> forall i :: 0 <= i < |runs| ==> Complete(o.log, i, runs[i])
    ensures o.failed.None? ==> forall i :: 0 <= i < |runs| ==> Projected(Merged(o.log), i) == runs[i].events
    ensures o.failed.None? ==> forall a :: a in o.log ==> a.index < |runs|
    ensures o.failed.Some? ==> o.failed.value < |runs| && Broken(o.log, o.failed.value, runs[o.failed.value])
    ensures o.failed.Some? ==> forall i :: 0 <= i < |runs| && i != o.failed.value ==>
              Complete(o.log, i, runs[i]) || exists n: nat :: InProgress(o.log, i, runs[i], n)
  {
    // how far each generator has got, and the indices with a pending promise
    var next: seq<nat>, pending: set<nat>, log := StartAll(runs);
    while pending != {}
      invariant Racing(runs, next, pending, log)
      decreases Remaining(runs, next) + |pending|
    {
      var i :| i in pending;
      if next[i] < |runs[i].events| {
        ConsumeKeeps(runs, next, pending, log, i);
        RemainingDrops(runs, next, i);
        log := log + [Yield(i, runs[i].events[next[i]])] + [Request(i)];
        next := next[i := next[i] + 1];
      } else {
        EndKeeps(runs, next, pending, log, i);
        if runs[i].throws {
          return Outcome(log + [Failed(i)], Some(i));
        }
        log := log + [Finished(i)];
        pending := pending - {i};
      }
    }
    forall i | 0 <= i < |runs| ensures Projected(Merged(log), i) == runs[i].events {
      MergeIsShuffle(log, i, runs[i]);
    }
    return Outcome(log, None);
  }

  // ---------------------------------------------------------------------------
  // The merged output
  // ---------------------------------------------------------------------------

  /** What the consumer gets, with the run each event came from. */
  function Merged<E>(log: seq<Action<E>>): seq<(nat, E)> {
    if log == [] then []
    else if log[0].Yield? then [(log[0].index, log[0].event)] + Merged(log[1..])
    else Merged(log[1..])
  }

  /** The merged output projected on one run. */
  function Projected<E>(merged: seq<(nat, E)>, index: nat): seq<E> {
    if merged == [] then []
    else if merged[0].0 == index then [merged[0].1] + Projected(merged[1..], index)
    else Projected(merged[1..], index)
  }

  lemma {:induction false} ProjectionIsLocal<E(!new)>(log: seq<Action<E>>, index: nat)
    ensures Projected(Merged(log), index) == Projected(Merged(Filter(log, About(index))), index)
  {
    if log != [] {
      ProjectionIsLocal(log[1..], index);
    }
  }

  lemma {:induction false} MergedAppend<E>(a: seq<Action<E>>, b: seq<Action<E>>)
    ensures Merged(a + b) == Merged(a) + Merged(b)
  {
    if a == [] {
      assert a + b == b;
    } else {
      assert (a + b)[1..] == a[1..] + b;
      MergedAppend(a[1..], b);
    }
  }

  lemma {:induction false} ProjectedAppend<E>(a: seq<(nat, E)>, b: seq<(nat, E)>, index: nat)
    ensures Projected(a + b, index) == Projected(a, index) + Projected(b, index)
  {
    if a == [] {
      assert a + b == b;
    } else {
      assert (a + b)[1..] == a[1..] + b;
      ProjectedAppend(a[1..], b, index);
    }
  }

  lemma MergedPair<E>(a: Action<E>, b: Action<E>)
    requires !a.Yield?
    ensures Merged([a, b]) == if b.Yield? then [(b.index, b.event)] else []
  {
    assert [b][1..] == [] && Merged<E>([]) == [];
    assert Merged([b]) == if b.Yield? then [(b.index, b.event)] else [];
    assert [a, b][1..] == [b];
  }

  lemma {:induction false} ExchangesYield<E(!new)>(index: nat, events: seq<E>, tail: seq<Action<E>>)
    requires Merged(tail) == []
    ensures Projected(Merged(Exchanges(index, events) + tail), index) == events
  {
    MergedAppend(Exchanges(index, events), tail);
    assert Merged(Exchanges(index, events)) + [] == Merged(Exchanges(index, events));
    if events != [] {
      var n := |events| - 1;
      ExchangesYield(index, events[..n], []);
      assert Exchanges(index, events[..n]) + [] == Exchanges(index, events[..n]);
      MergedPair(Request(index), Yield(index, events[n]));
      MergedAppend(Exchanges(index, events[..n]), [Request(index), Yield(index, events[n])]);
      ProjectedAppend(Merged(Exchanges(index, events[..n])), [(index, events[n])], index);
    }
  }

  /** The merged output projected on a run that was consumed completely is exactly the
      run's sequence, and on a run that was cut short a prefix of it. */
  lemma MergeIsShuffle<E(!new)>(log: seq<Action<E>>, index: nat, run: AgentRun<E>)
    ensures Complete(log, index, run) || Broken(log, index, run) ==> Projected(Merged(log), index) == run.events
    ensures forall n: nat :: InProgress(log, index, run, n) ==> Projected(Merged(log), index) == run.events[..n]
  {
    ProjectionIsLocal(log, index);
    if Complete(log, index, run) || Broken(log, index, run) {
      var last := if run.throws then Failed(index) else Finished(index);
      MergedPair(Request(index), last);
      ExchangesYield(index, run.events, [Request(index), last]);
    }
    forall n: nat | InProgress(log, index, run, n)
      ensures Projected(Merged(log), index) == run.events[..n]
    {
      ExchangesYield(index, run.events[..n], [Request(index)]);
    }
  }
}
