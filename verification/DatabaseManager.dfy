/** The DatabaseManager object used by one thread: the retry loop, the failure counter and failover. */
module DatabaseManager {
  import opened FailoverProtocol

  /** How many of the attempts fail before the first that succeeds, out of at most n. */
  function FailuresFirst(outcomes: seq<bool>, n: nat): nat
    requires n <= |outcomes|
  {
    if n == 0 || outcomes[0] then 0 else 1 + FailuresFirst(outcomes[1..], n - 1)
  }

  /** That many attempts fail, and the next one, unless there is none, succeeds. */
  lemma {:induction false} FailuresFirstIs(outcomes: seq<bool>, n: nat)
    requires n <= |outcomes|
    ensures var f := FailuresFirst(outcomes, n);
      f <= n && (forall k :: 0 <= k < f ==> !outcomes[k]) && (f < n ==> outcomes[f])
  {
    if n != 0 && !outcomes[0] {
      FailuresFirstIs(outcomes[1..], n - 1);
      var f := FailuresFirst(outcomes[1..], n - 1);
      assert forall k :: 0 < k <= f ==> outcomes[k] == outcomes[1..][k - 1];
    }
  }

  lemma FailuresFirstOnly(outcomes: seq<bool>, n: nat, f: nat)
    requires f <= n <= |outcomes| && (forall k :: 0 <= k < f ==> !outcomes[k]) && (f < n ==> outcomes[f])
    ensures FailuresFirst(outcomes, n) == f
  {
    FailuresFirstIs(outcomes, n);
    var g := FailuresFirst(outcomes, n);
    assert !(g < f) && !(f < g);
  }

  class DatabaseManager {
    // which connection is held; 0 is none
    var connection: nat
    var failures: nat
    var initialized: bool

    ghost var total: nat
    ghost var failovers: nat

    /** The account of a single thread: every failure is in the counter or was part of the six that
        a failover took, and the connection is the first one or one a failover made. */
    ghost predicate Valid()
      reads this
    {
      && failures <= MAX_FAILURES
      && total == (MAX_FAILURES + 1) * failovers + failures
      && connection == failovers + (if initialized then 1 else 0)
      && (!initialized ==> failovers == 0)
    }

    constructor ()
      ensures Valid() && total == 0 && !initialized
    {
      connection, failures, initialized := 0, 0, false;
      total, failovers := 0, 0;
    }

    method FindNewConnection()
      modifies this`connection
      ensures connection == old(connection) + 1
    {
      connection := connection + 1;
    }

    method SetNewConnection()
      requires initialized
      modifies this`connection, this`failures, this`failovers
      ensures if old(failures) > 5
        then failures == 0 && connection == old(connection) + 1 && failovers == old(failovers) + 1
        else failures == old(failures) && connection == old(connection) && failovers == old(failovers)
    {
      if failures > MAX_FAILURES {
        FindNewConnection();
        failovers := failovers + 1;
        failures := 0;
      }
    }

    /** `outcomes` says of each attempt whether the query succeeds. The call succeeds on its first
        success, `used` being the connection it ran on, and gives up after eleven failures; with
        every sixth failure, counted across calls, comes a failover, so at most twice in a call. */
    method Execute(outcomes: seq<bool>) returns (ok: bool, attempts: nat, used: nat)
      requires Valid() && |outcomes| >= 11
      modifies this
      ensures Valid() && initialized
      ensures var f := FailuresFirst(outcomes, 11);
        && ok == (f < 11)
        && attempts == (if ok then f + 1 else 11)
        && total == old(total) + f
        && failures == (old(failures) + f) % 6
        && failovers == old(failovers) + (old(failures) + f) / 6
        && connection == failovers + 1
        && failovers <= old(failovers) + 2
        && (ok ==> used == connection)
    {
      attempts, used := 0, 0;
      var retries := 0;
      while retries < MAX_RETRIES
        invariant retries <= MAX_RETRIES && attempts == retries
        invariant forall k :: 0 <= k < retries ==> !outcomes[k]
        invariant Valid() && total == old(total) + retries && (retries > 0 ==> initialized)
        invariant old(total) == (MAX_FAILURES + 1) * old(failovers) + old(failures)
      {
        if !initialized {
          initialized := true;
          FindNewConnection();
        }
        attempts := attempts + 1;
        used := connection;
        if outcomes[retries] {
          FailuresFirstOnly(outcomes, MAX_RETRIES, retries);
          ok := true;
          return;
        }
        failures := failures + 1;
        total := total + 1;
        SetNewConnection();
        retries := retries + 1;
      }
      FailuresFirstOnly(outcomes, MAX_RETRIES, MAX_RETRIES);
      ok := false;
    }
  }
}
