/**
 Any number of threads running queries through one DatabaseManager, as a step system with one step
 per lock operation, query outcome, counter update and connection change. Runs begin after the
 first connection was made, and service discovery succeeds.

 `total`, `base` and `log` are history variables that no step tests: the failures counted ever, that
 number when the counter was last reset, and that number at each replacement of the connection.
 */
module FailoverProtocol {
  import opened Wrappers

  const MAX_FAILURES := 5
  const MAX_RETRIES := 11

  datatype Pc =
    | Idle
    | Trying(retries: nat)
      // holds the read lock; conn is the connection the query runs on
    | Querying(retries: nat, conn: nat)
      // the query threw and the read lock is released
    | Caught(retries: nat)
    | Counted(retries: nat)
      // holds the write lock, from here to Releasing
    | Locked(retries: nat)
    | Replacing(retries: nat)
    | Replaced(retries: nat)
    | Releasing(retries: nat)
    | Returned(ok: bool)

  datatype State = State(
    conn: nat, failures: nat, readers: nat, writer: Option<nat>, threads: seq<Pc>,
    total: nat, base: nat, log: seq<nat>)

  /** A query, when it ends, either succeeds or throws. */
  datatype Act = Begin | Advance(succeeds: bool) | Finish

  function Initial(n: nat): State {
    State(0, 0, 0, None, seq(n, i => Idle), 0, 0, [])
  }

  predicate Enabled(s: State, t: nat, a: Act) {
    && t < |s.threads|
    && match a
       case Begin => s.threads[t].Idle?
       case Finish => s.threads[t].Returned?
       case Advance(_) =>
         match s.threads[t]
         case Idle => false
         case Returned(_) => false
         case Trying(_) => s.writer == None
         case Counted(_) => s.writer == None && s.readers == 0
         case _ => true
  }

  /** The loop test after an attempt that failed. */
  function Retry(retries: nat): Pc {
    if retries + 1 < MAX_RETRIES then Trying(retries + 1) else Returned(false)
  }

  function At(s: State, t: nat, pc: Pc): State
    requires t < |s.threads|
  {
    s.(threads := s.threads[t := pc])
  }

  function Do(s: State, t: nat, a: Act): State
    requires Enabled(s, t, a)
  {
    match a
    case Begin => At(s, t, Trying(0))
    case Finish => At(s, t, Idle)
    case Advance(succeeds) =>
      match s.threads[t]
      case Idle => s
      case Returned(_) => s
      case Trying(r) => At(s, t, Querying(r, s.conn)).(readers := s.readers + 1)
      case Querying(r, _) =>
        At(s, t, if succeeds then Returned(true) else Caught(r)).(readers := if s.readers > 0 then s.readers - 1 else 0)
      case Caught(r) => At(s, t, Counted(r)).(failures := s.failures + 1, total := s.total + 1)
      case Counted(r) => At(s, t, Locked(r)).(writer := Some(t))
      case Locked(r) => At(s, t, if s.failures > MAX_FAILURES then Replacing(r) else Releasing(r))
      case Replacing(r) => At(s, t, Replaced(r)).(conn := s.conn + 1, log := s.log + [s.total])
      case Replaced(r) => At(s, t, Releasing(r)).(failures := 0, base := s.total)
      case Releasing(r) => At(s, t, Retry(r)).(writer := None)
  }

  datatype Event = Event(t: nat, a: Act)

  ghost predicate Runs(s: State, es: seq<Event>)
    decreases es
  {
    es != [] ==> Enabled(s, es[0].t, es[0].a) && Runs(Do(s, es[0].t, es[0].a), es[1..])
  }

  ghost function After(s: State, es: seq<Event>): State
    requires Runs(s, es)
    decreases es
  {
    if es == [] then s else After(Do(s, es[0].t, es[0].a), es[1..])
  }
}
