/** What every interleaving of queries and failovers keeps. */
module FailoverProofs {
  import opened Wrappers
  import opened FailoverProtocol

  // ---------------------------------------------------------------- counting threads

  predicate IsQuerying(pc: Pc) {
    pc.Querying?
  }

  /** Holds the write lock. */
  predicate IsHolding(pc: Pc) {
    pc.Locked? || pc.Replacing? || pc.Replaced? || pc.Releasing?
  }

  /** Has counted a failure and not yet seen what the counter says. */
  predicate IsPending(pc: Pc) {
    pc.Counted? || pc.Locked? || pc.Replacing? || pc.Replaced?
  }

  function One(b: bool): nat {
    if b then 1 else 0
  }

  function Count(p: Pc -> bool, threads: seq<Pc>): nat {
    if threads == [] then 0 else Count(p, threads[..|threads| - 1]) + One(p(threads[|threads| - 1]))
  }

  lemma {:induction false} CountUpdate(p: Pc -> bool, threads: seq<Pc>, t: nat, pc: Pc)
    requires t < |threads|
    ensures Count(p, threads[t := pc]) == Count(p, threads) - One(p(threads[t])) + One(p(pc))
  {
    var n := |threads| - 1;
    if t < n {
      CountUpdate(p, threads[..n], t, pc);
      assert threads[t := pc][..n] == threads[..n][t := pc];
    } else {
      assert threads[t := pc][..n] == threads[..n];
    }
  }

  lemma {:induction false} CountIsPositive(p: Pc -> bool, threads: seq<Pc>, t: nat)
    requires t < |threads| && p(threads[t])
    ensures Count(p, threads) > 0
  {
    if t < |threads| - 1 {
      CountIsPositive(p, threads[..|threads| - 1], t);
    }
  }

  lemma {:induction false} CountIsZero(p: Pc -> bool, threads: seq<Pc>)
    requires forall pc <- threads :: !p(pc)
    ensures Count(p, threads) == 0
  {
    if threads != [] {
      CountIsZero(p, threads[..|threads| - 1]);
      assert threads[|threads| - 1] in threads;
    }
  }

  // ---------------------------------------------------------------- the invariant

  /** Many queries or one failover: the write lock is held by the thread that is past acquiring it,
      the read count is the number of running queries, and the two exclude each other. */
  ghost predicate LockOk(s: State) {
    && s.readers == Count(IsQuerying, s.threads)
    && (s.writer.Some? ==> s.readers == 0 && s.writer.value < |s.threads| && IsHolding(s.threads[s.writer.value]))
    && (forall t :: 0 <= t < |s.threads| && IsHolding(s.threads[t]) ==> s.writer == Some(t))
  }

  /** Every running query runs on the connection there is. */
  ghost predicate ConnOk(s: State) {
    forall t :: 0 <= t < |s.threads| && s.threads[t].Querying? ==> s.threads[t].conn == s.conn
  }

  /** The counter is the number of failures since it was last reset, and goes beyond the maximum
      only by threads that will look at it. */
  ghost predicate CounterOk(s: State) {
    && s.total == s.base + s.failures
    && s.failures <= MAX_FAILURES + Count(IsPending, s.threads)
    && (forall t :: 0 <= t < |s.threads| && s.threads[t].Replacing? ==> s.failures > MAX_FAILURES)
  }

  ghost predicate Spaced(log: seq<nat>) {
    && (log != [] ==> log[0] > MAX_FAILURES)
    && (forall i :: 0 < i < |log| ==> log[i] >= log[i - 1] + MAX_FAILURES + 1)
  }

  ghost predicate LogOk(s: State) {
    && Spaced(s.log)
    && (s.log != [] ==> s.log[|s.log| - 1] <= s.total)
    && ((forall t :: 0 <= t < |s.threads| ==> !s.threads[t].Replaced?) ==> s.log != [] ==> s.log[|s.log| - 1] <= s.base)
  }

  ghost predicate RetriesOk(s: State) {
    forall pc <- s.threads :: pc.Idle? || pc.Returned? || pc.retries < MAX_RETRIES
  }

  ghost predicate Inv(s: State) {
    LockOk(s) && ConnOk(s) && CounterOk(s) && LogOk(s) && RetriesOk(s)
  }

  lemma InitialInv(n: nat)
    ensures Inv(Initial(n))
  {
    CountIsZero(IsQuerying, Initial(n).threads);
    CountIsZero(IsPending, Initial(n).threads);
  }

  lemma LockStep(s: State, t: nat, a: Act)
    requires LockOk(s) && Enabled(s, t, a)
    ensures LockOk(Do(s, t, a))
  {
    var h := Do(s, t, a);
    CountUpdate(IsQuerying, s.threads, t, h.threads[t]);
    assert h.threads == s.threads[t := h.threads[t]];
    if s.threads[t].Querying? {
      CountIsPositive(IsQuerying, s.threads, t);
    }
  }

  lemma ConnStep(s: State, t: nat, a: Act)
    requires LockOk(s) && ConnOk(s) && Enabled(s, t, a)
    ensures ConnOk(Do(s, t, a))
  {
    var h := Do(s, t, a);
    if s.threads[t].Replacing? {
      forall u | 0 <= u < |s.threads| && s.threads[u].Querying?
        ensures false
      {
        CountIsPositive(IsQuerying, s.threads, u);
      }
    }
  }

  lemma CounterStep(s: State, t: nat, a: Act)
    requires LockOk(s) && CounterOk(s) && Enabled(s, t, a)
    ensures CounterOk(Do(s, t, a))
  {
    var h := Do(s, t, a);
    CountUpdate(IsPending, s.threads, t, h.threads[t]);
    assert h.threads == s.threads[t := h.threads[t]];
  }

  lemma LogStep(s: State, t: nat, a: Act)
    requires LockOk(s) && CounterOk(s) && LogOk(s) && Enabled(s, t, a)
    ensures LogOk(Do(s, t, a))
  {
    var h := Do(s, t, a);
    if s.threads[t].Replacing? {
      assert forall u :: 0 <= u < |s.threads| ==> !s.threads[u].Replaced?;
      assert h.threads[t].Replaced?;
    } else if u :| 0 <= u < |s.threads| && u != t && s.threads[u].Replaced? {
      assert h.threads[u].Replaced?;
    }
  }

  lemma RetriesStep(s: State, t: nat, a: Act)
    requires RetriesOk(s) && Enabled(s, t, a)
    ensures RetriesOk(Do(s, t, a))
  {
    assert s.threads[t] in s.threads;
  }

  lemma InvStep(s: State, t: nat, a: Act)
    requires Inv(s) && Enabled(s, t, a)
    ensures Inv(Do(s, t, a))
  {
    hide LockOk, ConnOk, CounterOk, LogOk, RetriesOk, Do, Enabled;
    LockStep(s, t, a);
    ConnStep(s, t, a);
    CounterStep(s, t, a);
    LogStep(s, t, a);
    RetriesStep(s, t, a);
  }

  lemma {:induction false} InvRun(s: State, es: seq<Event>)
    requires Inv(s) && Runs(s, es)
    ensures Inv(After(s, es))
    decreases es
  {
    hide Inv, Do, Enabled;
    if es != [] {
      InvStep(s, es[0].t, es[0].a);
      InvRun(Do(s, es[0].t, es[0].a), es[1..]);
    }
  }

  lemma EveryRun(n: nat, es: seq<Event>)
    requires Runs(Initial(n), es)
    ensures Inv(After(Initial(n), es))
  {
    hide *;
    InitialInv(n);
    InvRun(Initial(n), es);
  }

  // ---------------------------------------------------------------- what follows for every run

  lemma NotReplacedInUse(s: State, t: nat, u: nat)
    requires Inv(s) && t < |s.threads| && u < |s.threads| && s.threads[u].Querying?
    ensures !s.threads[t].Replacing? && !s.threads[t].Replaced? && s.threads[u].conn == s.conn
  {
    hide CounterOk, LogOk, RetriesOk;
    CountIsPositive(IsQuerying, s.threads, u);
  }

  /** The connection is never replaced while a query runs on it, and every running query runs on the
      connection there is. */
  lemma NeverReplacedInUse(n: nat, es: seq<Event>, t: nat, u: nat)
    requires Runs(Initial(n), es)
    requires var s := After(Initial(n), es); t < n && u < |s.threads| && t < |s.threads| && s.threads[u].Querying?
    ensures var s := After(Initial(n), es);
      !s.threads[t].Replacing? && !s.threads[t].Replaced? && s.threads[u].conn == s.conn
  {
    hide *;
    EveryRun(n, es);
    NotReplacedInUse(After(Initial(n), es), t, u);
  }

  lemma LogIsSpaced(s: State)
    requires Inv(s)
    ensures Spaced(s.log)
    ensures forall i, j :: 0 <= i < j < |s.log| ==> s.log[j] >= s.log[i] + 6 * (j - i)
    ensures 6 * |s.log| <= s.total
    ensures (forall t :: 0 <= t < |s.threads| ==> !s.threads[t].Replaced?) ==> 6 * |s.log| + s.failures <= s.total
  {
    hide LockOk, ConnOk, RetriesOk;
    forall i, j | 0 <= i < j < |s.log|
      ensures s.log[j] >= s.log[i] + 6 * (j - i)
    {
      SpacedApart(s.log, i, j);
    }
    if |s.log| > 1 {
      SpacedApart(s.log, 0, |s.log| - 1);
    }
  }

  /** Between two replacements of the connection, and before the first, there are at least six failed
      queries; so six times the failovers, and the counter, never exceed the failures. */
  lemma FailoverSpacing(n: nat, es: seq<Event>)
    requires Runs(Initial(n), es)
    ensures var s := After(Initial(n), es);
      && Spaced(s.log)
      && (forall i, j :: 0 <= i < j < |s.log| ==> s.log[j] >= s.log[i] + 6 * (j - i))
      && 6 * |s.log| <= s.total
      && ((forall t :: 0 <= t < |s.threads| ==> !s.threads[t].Replaced?) ==>
            6 * |s.log| + s.failures <= s.total)
  {
    hide *;
    EveryRun(n, es);
    LogIsSpaced(After(Initial(n), es));
  }

  lemma {:induction false} SpacedApart(log: seq<nat>, i: nat, j: nat)
    requires Spaced(log) && i < j < |log|
    ensures log[j] >= log[i] + 6 * (j - i)
    decreases j
  {
    if i + 1 < j {
      SpacedApart(log, i, j - 1);
    }
  }

  /** The counter exceeds five by at most the number of threads that have counted a failure and not
      looked at it yet; when there is none it is at most five. */
  lemma CounterBound(n: nat, es: seq<Event>)
    requires Runs(Initial(n), es)
    ensures var s := After(Initial(n), es);
      && s.failures <= 5 + Count(IsPending, s.threads)
      && ((forall pc <- s.threads :: !IsPending(pc)) ==> s.failures <= 5)
  {
    hide *;
    EveryRun(n, es);
    CounterIsBounded(After(Initial(n), es));
  }

  lemma CounterIsBounded(s: State)
    requires Inv(s)
    ensures s.failures <= 5 + Count(IsPending, s.threads)
    ensures (forall pc <- s.threads :: !IsPending(pc)) ==> s.failures <= 5
  {
    hide LockOk, ConnOk, LogOk, RetriesOk, IsPending;
    if forall pc <- s.threads :: !IsPending(pc) {
      CountIsZero(IsPending, s.threads);
    }
  }

  // ---------------------------------------------------------------- progress

  predicate Unfinished(pc: Pc) {
    !pc.Idle? && !pc.Returned?
  }

  lemma {:induction false} SomeCounted(p: Pc -> bool, threads: seq<Pc>) returns (t: nat)
    requires Count(p, threads) > 0
    ensures t < |threads| && p(threads[t])
  {
    var n := |threads| - 1;
    if p(threads[n]) {
      t := n;
    } else {
      t := SomeCounted(p, threads[..n]);
    }
  }

  /** While a call is unfinished some thread can take a step of its call. */
  lemma NoDeadlock(n: nat, es: seq<Event>, t: nat) returns (u: nat)
    requires Runs(Initial(n), es)
    requires t < |After(Initial(n), es).threads| && Unfinished(After(Initial(n), es).threads[t])
    ensures forall succeeds :: Enabled(After(Initial(n), es), u, Advance(succeeds))
  {
    hide *;
    EveryRun(n, es);
    u := SomeAdvances(After(Initial(n), es), t);
  }

  lemma SomeAdvances(s: State, t: nat) returns (u: nat)
    requires Inv(s) && t < |s.threads| && Unfinished(s.threads[t])
    ensures forall succeeds :: Enabled(s, u, Advance(succeeds))
  {
    hide ConnOk, CounterOk, LogOk, RetriesOk;
    if s.writer.Some? {
      u := s.writer.value;
    } else if s.readers > 0 {
      u := SomeCounted(IsQuerying, s.threads);
    } else {
      u := t;
    }
  }

  const PHASES := 8

  /** More steps than a call can still take. */
  function Left(pc: Pc): nat
    requires pc.Idle? || pc.Returned? || pc.retries < MAX_RETRIES
  {
    match pc
    case Idle => 0
    case Returned(_) => 0
    case Trying(r) => (MAX_RETRIES - r) * PHASES
    case Querying(r, _) => (MAX_RETRIES - r) * PHASES - 1
    case Caught(r) => (MAX_RETRIES - r) * PHASES - 2
    case Counted(r) => (MAX_RETRIES - r) * PHASES - 3
    case Locked(r) => (MAX_RETRIES - r) * PHASES - 4
    case Replacing(r) => (MAX_RETRIES - r) * PHASES - 5
    case Replaced(r) => (MAX_RETRIES - r) * PHASES - 6
    case Releasing(r) => (MAX_RETRIES - r) * PHASES - 7
  }

  function AllLeft(threads: seq<Pc>): nat
    requires forall pc <- threads :: pc.Idle? || pc.Returned? || pc.retries < MAX_RETRIES
  {
    if threads == [] then 0 else AllLeft(threads[..|threads| - 1]) + Left(threads[|threads| - 1])
  }

  lemma {:induction false} AllLeftUpdate(threads: seq<Pc>, t: nat, pc: Pc)
    requires forall q <- threads :: q.Idle? || q.Returned? || q.retries < MAX_RETRIES
    requires t < |threads| && (pc.Idle? || pc.Returned? || pc.retries < MAX_RETRIES)
    ensures AllLeft(threads[t := pc]) == AllLeft(threads) - Left(threads[t]) + Left(pc)
  {
    var n := |threads| - 1;
    assert threads[n] in threads;
    if t < n {
      AllLeftUpdate(threads[..n], t, pc);
      assert threads[t := pc][..n] == threads[..n][t := pc];
    } else {
      assert threads[t := pc][..n] == threads[..n];
    }
  }

  function Begun(es: seq<Event>): nat {
    if es == [] then 0 else One(es[0].a.Begin?) + Begun(es[1..])
  }

  function Advanced(es: seq<Event>): nat {
    if es == [] then 0 else One(es[0].a.Advance?) + Advanced(es[1..])
  }

  lemma LeftStep(s: State, t: nat, a: Act)
    requires RetriesOk(s) && Enabled(s, t, a)
    ensures RetriesOk(Do(s, t, a))
    ensures AllLeft(Do(s, t, a).threads) + One(a.Advance?) <=
            AllLeft(s.threads) + One(a.Begin?) * (MAX_RETRIES * PHASES)
  {
    RetriesStep(s, t, a);
    var h := Do(s, t, a);
    assert h.threads == s.threads[t := h.threads[t]] && s.threads[t] in s.threads;
    assert h.threads[t] in h.threads;
    AllLeftUpdate(s.threads, t, h.threads[t]);
  }

  /** Every call ends: whatever the interleaving and the outcomes, there are at most 88 steps per
      call begun, so with the absence of deadlock each call is finished after that many. */
  lemma {:induction false} CallsEnd(s: State, es: seq<Event>)
    requires RetriesOk(s) && Runs(s, es)
    ensures RetriesOk(After(s, es))
    ensures Advanced(es) + AllLeft(After(s, es).threads) <= AllLeft(s.threads) + Begun(es) * (MAX_RETRIES * PHASES)
    decreases es
  {
    hide RetriesOk, Do, Enabled, AllLeft;
    if es != [] {
      LeftStep(s, es[0].t, es[0].a);
      CallsEnd(Do(s, es[0].t, es[0].a), es[1..]);
    }
  }
}
