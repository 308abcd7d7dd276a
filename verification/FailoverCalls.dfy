/**
 What the state of a run says of its steps: how a call ends and after how many queries, which
 connection there is, and what the counter counts.
 */
module FailoverCalls {
  import opened Wrappers
  import opened FailoverProtocol

  /** The queries that the running or the last call of a thread has made, and how the last one ended. */
  datatype Account = Account(queries: nat, last: Option<bool>)

  /** A step of the thread that begins a call starts a new account; one that ends a query is entered. */
  function Entered(s: State, e: Event, t: nat, a: Account): Account
    requires Enabled(s, e.t, e.a)
  {
    if e.t != t then a
    else
      match e.a
      case Begin => Account(0, None)
      case Finish => a
      case Advance(succeeds) => if s.threads[t].Querying? then Account(a.queries + 1, Some(succeeds)) else a
  }

  function AccountOf(s: State, es: seq<Event>, t: nat, a: Account): Account
    requires Runs(s, es)
    decreases es
  {
    if es == [] then a else AccountOf(Do(s, es[0].t, es[0].a), es[1..], t, Entered(s, es[0], t, a))
  }

  /** The thread is where its account says. */
  predicate Agrees(pc: Pc, a: Account) {
    match pc
    case Idle => true
    case Trying(r) => r < 11 && a.queries == r && (r > 0 ==> a.last == Some(false))
    case Querying(r, _) => r < 11 && a.queries == r
    case Caught(r) => r < 11 && a == Account(r + 1, Some(false))
    case Counted(r) => r < 11 && a == Account(r + 1, Some(false))
    case Locked(r) => r < 11 && a == Account(r + 1, Some(false))
    case Replacing(r) => r < 11 && a == Account(r + 1, Some(false))
    case Replaced(r) => r < 11 && a == Account(r + 1, Some(false))
    case Releasing(r) => r < 11 && a == Account(r + 1, Some(false))
    case Returned(ok) => a.last == Some(ok) && 1 <= a.queries <= 11 && (!ok ==> a.queries == 11)
  }

  lemma AgreesStep(s: State, e: Event, t: nat, a: Account)
    requires Enabled(s, e.t, e.a) && t < |s.threads| && Agrees(s.threads[t], a)
    ensures |Do(s, e.t, e.a).threads| == |s.threads|
    ensures Agrees(Do(s, e.t, e.a).threads[t], Entered(s, e, t, a))
  {
  }

  lemma {:induction false} AgreesRun(s: State, es: seq<Event>, t: nat, a: Account)
    requires Runs(s, es) && t < |s.threads| && Agrees(s.threads[t], a)
    ensures t < |After(s, es).threads| && Agrees(After(s, es).threads[t], AccountOf(s, es, t, a))
    decreases es
  {
    hide Do, Agrees, Entered, Enabled;
    if es != [] {
      AgreesStep(s, es[0], t, a);
      AgreesRun(Do(s, es[0].t, es[0].a), es[1..], t, Entered(s, es[0], t, a));
    }
  }

  /** However the threads interleave: a call that has returned did so after at most eleven queries,
      successfully exactly when the last of them succeeded; an unsuccessful one has made all eleven. */
  lemma CallsReturnTheirLast(n: nat, es: seq<Event>, t: nat)
    requires Runs(Initial(n), es) && t < n
    ensures var s, a := After(Initial(n), es), AccountOf(Initial(n), es, t, Account(0, None));
      && t < |s.threads|
      && (s.threads[t].Returned? ==>
           && a.last == Some(s.threads[t].ok) && 1 <= a.queries <= 11
           && (!s.threads[t].ok ==> a.queries == 11))
  {
    hide Do, Enabled, Entered, Runs, After, AccountOf;
    AgreesRun(Initial(n), es, t, Account(0, None));
  }

  // ---------------------------------------------------------------- who can be kept waiting

  /** Queries wait for a failover only, not for each other; a failover waits for both. */
  lemma OnlyTheLockBlocks(s: State, t: nat, succeeds: bool)
    requires t < |s.threads|
    ensures s.threads[t].Idle? <==> Enabled(s, t, Begin)
    ensures s.threads[t].Returned? <==> Enabled(s, t, Finish)
    ensures Enabled(s, t, Advance(succeeds)) <==>
      && !s.threads[t].Idle? && !s.threads[t].Returned?
      && (s.threads[t].Trying? ==> s.writer == None)
      && (s.threads[t].Counted? ==> s.writer == None && s.readers == 0)
  {
  }

  /** So any number of queries run at once: from the start every thread can get to its query. */
  lemma {:induction false} QueriesRunTogether(n: nat, k: nat) returns (es: seq<Event>)
    requires k <= n
    ensures Runs(Initial(n), es)
    ensures var s := After(Initial(n), es);
      && |s.threads| == n && s.writer == None && s.readers == k
      && (forall t :: 0 <= t < k ==> s.threads[t].Querying?) && forall t :: k <= t < n ==> s.threads[t].Idle?
  {
    if k == 0 {
      es := [];
    } else {
      var before := QueriesRunTogether(n, k - 1);
      var more := [Event(k - 1, Begin), Event(k - 1, Advance(true))];
      var s := After(Initial(n), before);
      assert more[1..] == [Event(k - 1, Advance(true))] && more[1..][1..] == [];
      var a := Do(s, k - 1, Begin);
      assert Runs(Do(a, k - 1, Advance(true)), []);
      assert Runs(a, more[1..]) && After(a, more[1..]) == Do(a, k - 1, Advance(true));
      RunsConcat(Initial(n), before, more);
      es := before + more;
    }
  }

  lemma {:induction false} RunsConcat(s: State, es: seq<Event>, more: seq<Event>)
    requires Runs(s, es) && Runs(After(s, es), more)
    ensures Runs(s, es + more) && After(s, es + more) == After(After(s, es), more)
    decreases es
  {
    hide Do, Enabled;
    if es == [] {
      assert es + more == more;
    } else {
      assert (es + more)[1..] == es[1..] + more;
      RunsConcat(Do(s, es[0].t, es[0].a), es[1..], more);
    }
  }

  // ---------------------------------------------------------------- what was counted and replaced

  /** The steps of a run that replace the connection. */
  function Replacements(s: State, es: seq<Event>): nat
    requires Runs(s, es)
    decreases es
  {
    if es == [] then 0
    else
      (if es[0].a.Advance? && s.threads[es[0].t].Replacing? then 1 else 0) +
      Replacements(Do(s, es[0].t, es[0].a), es[1..])
  }

  /** The failed queries of a run. */
  function Failed(s: State, es: seq<Event>): nat
    requires Runs(s, es)
    decreases es
  {
    if es == [] then 0
    else
      (if es[0].a == Advance(false) && s.threads[es[0].t].Querying? then 1 else 0) +
      Failed(Do(s, es[0].t, es[0].a), es[1..])
  }

  /** The failures that are not counted yet. */
  function Uncounted(threads: seq<Pc>): nat {
    if threads == [] then 0
    else Uncounted(threads[..|threads| - 1]) + if threads[|threads| - 1].Caught? then 1 else 0
  }

  lemma {:induction false} UncountedUpdate(threads: seq<Pc>, t: nat, pc: Pc)
    requires t < |threads|
    ensures Uncounted(threads[t := pc]) + (if threads[t].Caught? then 1 else 0) ==
            Uncounted(threads) + if pc.Caught? then 1 else 0
  {
    var n := |threads| - 1;
    if t < n {
      UncountedUpdate(threads[..n], t, pc);
      assert threads[t := pc][..n] == threads[..n][t := pc];
    } else {
      assert threads[t := pc][..n] == threads[..n];
    }
  }

  lemma {:induction false} NoneUncounted(n: nat)
    ensures Uncounted(seq(n, i => Idle)) == 0
  {
    if n > 0 {
      assert seq(n, i => Idle)[..n - 1] == seq(n - 1, i => Idle);
      NoneUncounted(n - 1);
    }
  }

  lemma CountsStep(s: State, e: Event)
    requires Enabled(s, e.t, e.a)
    ensures var h := Do(s, e.t, e.a); var p := s.threads[e.t];
      && h.conn == s.conn + (if e.a.Advance? && p.Replacing? then 1 else 0)
      && |h.log| == |s.log| + (if e.a.Advance? && p.Replacing? then 1 else 0)
      && h.total + Uncounted(h.threads) ==
           s.total + Uncounted(s.threads) + if e.a == Advance(false) && p.Querying? then 1 else 0
  {
    var h := Do(s, e.t, e.a);
    UncountedUpdate(s.threads, e.t, h.threads[e.t]);
    assert h.threads == s.threads[e.t := h.threads[e.t]];
  }

  lemma {:induction false} CountsRun(s: State, es: seq<Event>)
    requires Runs(s, es)
    ensures var h := After(s, es);
      && h.conn == s.conn + Replacements(s, es) && |h.log| == |s.log| + Replacements(s, es)
      && h.total + Uncounted(h.threads) == s.total + Uncounted(s.threads) + Failed(s, es)
    decreases es
  {
    hide Do, Enabled, Uncounted;
    if es != [] {
      CountsStep(s, es[0]);
      CountsRun(Do(s, es[0].t, es[0].a), es[1..]);
    }
  }

  /** The connection there is has the number of the replacements that were made, the log has one entry
      for each, and the failures counted, with those about to be, are the queries that failed. */
  lemma CountsAreSteps(n: nat, es: seq<Event>)
    requires Runs(Initial(n), es)
    ensures var s := After(Initial(n), es);
      && s.conn == Replacements(Initial(n), es) && |s.log| == Replacements(Initial(n), es)
      && s.total + Uncounted(s.threads) == Failed(Initial(n), es)
  {
    hide Runs, After, Replacements, Failed, Uncounted;
    CountsRun(Initial(n), es);
    NoneUncounted(n);
  }
}
