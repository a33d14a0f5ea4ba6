/**
 * Counting dropped submissions without a lock (crates/database/src/handle.rs): two shared atomics,
 * any number of threads, one report a second. Each atomic access is a step, and any interleaving
 * of the steps is a run.
 */
module DropCounter {
  /** Where a thread is in `count_dropped_submission`. */
  datatype Thread =
    | Idle
    | Counted(now: nat)
    | Loaded(now: nat, last: nat)
    | Won(now: nat)

  /** The two atomics, every thread that has called, and the history: the calls counted, the seconds
      that won the log and the numbers reported. */
  datatype State = State(
    dropped: nat, lastLogSec: nat, threads: map<nat, Thread>, calls: nat, wins: seq<nat>, reports: seq<nat>)

  datatype Step =
    | FetchAdd(t: nat, now: nat)
    | Load(t: nat, seen: nat)
    | CompareExchange(t: nat)
    | Swap(t: nat)

  function At(s: State, t: nat): Thread { if t in s.threads then s.threads[t] else Idle }

  function Move(s: State, t: nat, to: Thread): State { s.(threads := s.threads[t := to]) }

  /** A relaxed load may return any second that was ever stored. */
  predicate Stored(s: State, start: nat, sec: nat) { sec == start || sec in s.wins }

  predicate Next(start: nat, s: State, step: Step, s': State)
  {
    match step
    case FetchAdd(t, now) =>
      At(s, t) == Idle && s' == Move(s, t, Counted(now)).(dropped := s.dropped + 1, calls := s.calls + 1)
    case Load(t, seen) =>
      At(s, t).Counted? && Stored(s, start, seen)
      && s' == Move(s, t, if At(s, t).now <= seen then Idle else Loaded(At(s, t).now, seen))
    case CompareExchange(t) =>
      At(s, t).Loaded? &&
      s' == if s.lastLogSec == At(s, t).last
            then Move(s, t, Won(At(s, t).now)).(lastLogSec := At(s, t).now, wins := s.wins + [At(s, t).now])
            else Move(s, t, Idle)
    case Swap(t) =>
      At(s, t).Won? && s' == Move(s, t, Idle).(dropped := 0, reports := s.reports + [s.dropped])
  }

  function Sum(xs: seq<nat>): nat
  {
    if xs == [] then 0 else Sum(xs[..|xs| - 1]) + xs[|xs| - 1]
  }

  /** The seconds that won, after the initial one, strictly increase up to the one stored. */
  predicate Increasing(start: nat, xs: seq<nat>)
  {
    forall i :: 0 <= i < |xs| ==> Rises(start, xs, i)
  }

  predicate Rises(start: nat, xs: seq<nat>, i: nat)
    requires i < |xs|
  {
    (if i == 0 then start else xs[i - 1]) < xs[i]
  }

  predicate LastIs(start: nat, xs: seq<nat>, last: nat)
  {
    last == if xs == [] then start else xs[|xs| - 1]
  }

  ghost predicate LoadsAreOlder(s: State)
  {
    forall t :: t in s.threads && s.threads[t].Loaded? ==> s.threads[t].last < s.threads[t].now
  }

  function Reporting(s: State): set<nat> { set t | t in s.threads && s.threads[t].Won? }

  ghost predicate Inv(start: nat, s: State)
  {
    && Sum(s.reports) + s.dropped == s.calls
    && Increasing(start, s.wins) && LastIs(start, s.wins, s.lastLogSec)
    && LoadsAreOlder(s)
    && |s.reports| + |Reporting(s)| == |s.wins|
  }

  lemma SumPush(xs: seq<nat>, x: nat)
    ensures Sum(xs + [x]) == Sum(xs) + x
  {
    assert (xs + [x])[..|xs|] == xs;
  }

  lemma IncreasingPush(start: nat, xs: seq<nat>, last: nat, x: nat)
    requires Increasing(start, xs) && LastIs(start, xs, last) && last < x
    ensures Increasing(start, xs + [x]) && LastIs(start, xs + [x], x)
  {
    var ys := xs + [x];
    forall i | 0 <= i < |ys| ensures Rises(start, ys, i) {
      if i < |xs| { assert Rises(start, xs, i); }
    }
  }

  lemma MoveReporting(s: State, t: nat, to: Thread)
    ensures Reporting(Move(s, t, to)) == if to.Won? then Reporting(s) + {t} else Reporting(s) - {t}
  {}

  lemma CountKeeps(start: nat, s: State, t: nat, now: nat, s': State)
    requires Inv(start, s) && Next(start, s, FetchAdd(t, now), s')
    ensures Inv(start, s')
  {
    MoveReporting(s, t, Counted(now));
    assert Reporting(s') == Reporting(s);
  }

  lemma LoadKeeps(start: nat, s: State, t: nat, seen: nat, s': State)
    requires Inv(start, s) && Next(start, s, Load(t, seen), s')
    ensures Inv(start, s')
  {
    MoveReporting(s, t, s'.threads[t]);
    assert Reporting(s') == Reporting(s);
  }

  /** Of the threads that saw a second go by, one wins it: the exchange fails for the others. */
  lemma ExchangeKeeps(start: nat, s: State, t: nat, s': State)
    requires Inv(start, s) && Next(start, s, CompareExchange(t), s')
    ensures Inv(start, s')
  {
    var th := At(s, t);
    assert t !in Reporting(s);
    if s.lastLogSec == th.last {
      IncreasingPush(start, s.wins, s.lastLogSec, th.now);
      MoveReporting(s, t, Won(th.now));
      assert Reporting(s') == Reporting(s) + {t};
    } else {
      MoveReporting(s, t, Idle);
      assert Reporting(s') == Reporting(s);
    }
  }

  lemma SwapKeeps(start: nat, s: State, t: nat, s': State)
    requires Inv(start, s) && Next(start, s, Swap(t), s')
    ensures Inv(start, s')
  {
    SumPush(s.reports, s.dropped);
    MoveReporting(s, t, Idle);
    assert t in Reporting(s);
    assert Reporting(s') == Reporting(s) - {t};
  }

  lemma NextKeeps(start: nat, s: State, step: Step, s': State)
    requires Inv(start, s) && Next(start, s, step, s')
    ensures Inv(start, s')
  {
    match step
    case FetchAdd(t, now) => CountKeeps(start, s, t, now, s');
    case Load(t, seen) => LoadKeeps(start, s, t, seen, s');
    case CompareExchange(t) => ExchangeKeeps(start, s, t, s');
    case Swap(t) => SwapKeeps(start, s, t, s');
  }

  predicate Initial(start: nat, s: State)
  {
    s == State(0, start, map[], 0, [], [])
  }

  ghost predicate IsRun(start: nat, states: seq<State>, steps: seq<Step>)
  {
    && |states| == |steps| + 1 && Initial(start, states[0])
    && forall i :: 0 <= i < |steps| ==> Next(start, states[i], steps[i], states[i + 1])
  }

  /** In every state of every run nothing is counted twice or forgotten: what was reported and what
      is left to report are the calls so far. Each report belongs to a second of its own. */
  lemma {:induction false} NothingIsLost(start: nat, states: seq<State>, steps: seq<Step>, k: nat)
    requires IsRun(start, states, steps) && k < |states|
    ensures Inv(start, states[k])
    ensures Sum(states[k].reports) + states[k].dropped == states[k].calls
    ensures |states[k].reports| <= |states[k].wins| && Increasing(start, states[k].wins)
  {
    if k == 0 {
      assert Reporting(states[0]) == {};
    } else {
      NothingIsLost(start, states, steps, k - 1);
      NextKeeps(start, states[k - 1], steps[k - 1], states[k]);
    }
  }

  /** No second wins twice. */
  lemma {:induction false} SecondsDiffer(start: nat, xs: seq<nat>, i: nat, j: nat)
    requires Increasing(start, xs) && i < j < |xs|
    ensures xs[i] < xs[j]
    decreases j
  {
    assert Rises(start, xs, j);
    if i < j - 1 { SecondsDiffer(start, xs, i, j - 1); }
  }
}
