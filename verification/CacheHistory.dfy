/** What the history variables of the cache say of the steps of a run: which calls were made and returned. */
module CacheHistory {
  import opened CacheProtocol
  import opened CacheLinear
  import opened CacheTheorems

  /** The call a thread made last, and the length of the log when it made it. */
  datatype Made = Made(call: Call, begun: nat)

  function Entered(s: Cache, m: Move, t: nat, made: Made): Made
    requires Enabled(s, m.t, m.a)
  {
    if m.t == t && s.threads[t].Outside? then Made(m.a.call, |s.log|) else made
  }

  function LastMade(s: Cache, ms: seq<Move>, t: nat, made: Made): Made
    requires Runs(s, ms)
    decreases |ms|
  {
    if ms == [] then made else LastMade(Do(s, ms[0].t, ms[0].a), ms[1..], t, Entered(s, ms[0], t, made))
  }

  predicate Agrees(p: Pc, made: Made) {
    !p.Outside? ==> p.call == made.call && p.begun == made.begun
  }

  lemma OthersStay(s: Cache, t: nat, a: Act)
    requires Enabled(s, t, a)
    ensures t < |s.threads| == |Do(s, t, a).threads|
    ensures forall u :: 0 <= u < |s.threads| && u != t ==> Do(s, t, a).threads[u] == s.threads[u]
  {
    hide E.Do, E.Enabled, E.Current;
  }

  /** A call keeps its arguments and the position at which it began. */
  lemma CallKept(s: Cache, t: nat, a: Act)
    requires Enabled(s, t, a) && !Do(s, t, a).undefined && !s.threads[t].Outside?
    ensures t < |Do(s, t, a).threads|
    ensures var p := Do(s, t, a).threads[t];
      p.Outside? || (p.call == s.threads[t].call && p.begun == s.threads[t].begun)
  {
    hide E.Do, E.Enabled, E.Current, Enter, StepInEntry;
    if s.threads[t].Inside? {
      CallKeptInside(s, t, a);
    } else if s.threads[t].InEntry? {
      CallKeptInEntry(s, t, a);
    }
  }

  lemma CallKeptInside(s: Cache, t: nat, a: Act)
    requires Enabled(s, t, a) && !Do(s, t, a).undefined && s.threads[t].Inside?
    ensures var p := Do(s, t, a).threads[t]; InStage(p, s.threads[t].call, s.threads[t].begun)
  {
    hide E.Do, E.Enabled, E.Current;
  }

  lemma CallKeptInEntry(s: Cache, t: nat, a: Act)
    requires Enabled(s, t, a) && s.threads[t].InEntry?
    ensures var p := Do(s, t, a).threads[t]; InStage(p, s.threads[t].call, s.threads[t].begun)
  {
    hide E.Do, E.Enabled, E.Current;
  }

  lemma AgreesStep(s: Cache, m: Move, t: nat, made: Made)
    requires Enabled(s, m.t, m.a) && !Do(s, m.t, m.a).undefined && t < |s.threads| && Agrees(s.threads[t], made)
    ensures t < |Do(s, m.t, m.a).threads| && Agrees(Do(s, m.t, m.a).threads[t], Entered(s, m, t, made))
  {
    hide E.Do, E.Enabled, E.Current, Enter, StepInEntry, Do;
    OthersStay(s, m.t, m.a);
    if m.t == t {
      if s.threads[t].Outside? {
        NewCall(s, t, m.a);
      } else {
        CallKept(s, t, m.a);
      }
    }
  }

  lemma NewCall(s: Cache, t: nat, a: Act)
    requires Enabled(s, t, a) && s.threads[t].Outside?
    ensures a.Invoke? && Do(s, t, a).threads[t] == Waiting(a.call, |s.log|)
  {
  }

  lemma {:induction false} AgreesRun(s: Cache, ms: seq<Move>, t: nat, made: Made)
    requires Runs(s, ms) && !s.undefined && !After(s, ms).undefined && t < |s.threads| && Agrees(s.threads[t], made)
    ensures t < |After(s, ms).threads| && Agrees(After(s, ms).threads[t], LastMade(s, ms, t, made))
    decreases |ms|
  {
    hide Do, E.Enabled, Agrees, Entered;
    if ms != [] {
      var s' := Do(s, ms[0].t, ms[0].a);
      if s'.undefined {
        UndefinedStops(s', ms[1..]);
      } else {
        AgreesStep(s, ms[0], t, made);
        AgreesRun(s', ms[1..], t, Entered(s, ms[0], t, made));
      }
    }
  }

  /** The records of the calls that return in a run: the thread, its call, where it began and took
      effect, the length of the log when it returned, and the outcome. */
  function Returns(s: Cache, ms: seq<Move>): seq<Record>
    requires Runs(s, ms)
    decreases |ms|
  {
    if ms == [] then []
    else
      var p := s.threads[ms[0].t];
      (if p.Leaving? then [Record(ms[0].t, p.call, p.begun, p.mark, |s.log|, p.out)] else []) +
      Returns(Do(s, ms[0].t, ms[0].a), ms[1..])
  }

  lemma DoneStep(s: Cache, t: nat, a: Act)
    requires Enabled(s, t, a) && !Do(s, t, a).undefined
    ensures var p := s.threads[t];
      Do(s, t, a).done == s.done + if p.Leaving? then [Record(t, p.call, p.begun, p.mark, |s.log|, p.out)] else []
  {
    hide E.Do, E.Enabled, E.Current, Enter, StepInEntry;
    if !s.threads[t].Leaving? {
      BegunKept(s, t, a);
    }
  }

  lemma {:induction false} DoneRun(s: Cache, ms: seq<Move>)
    requires Runs(s, ms) && !s.undefined && !After(s, ms).undefined
    ensures After(s, ms).done == s.done + Returns(s, ms)
    decreases |ms|
  {
    hide Do, E.Enabled;
    if ms != [] {
      var s' := Do(s, ms[0].t, ms[0].a);
      if s'.undefined {
        UndefinedStops(s', ms[1..]);
      } else {
        DoneStep(s, ms[0].t, ms[0].a);
        DoneRun(s', ms[1..]);
      }
    }
  }

  /** After every run: every call that has returned is recorded, in the order of the returns and
      nothing besides; and a thread inside a call is in the one it made last, counted from then. */
  lemma HistoryIsHistory(n: nat, ms: seq<Move>, t: nat, any: Made)
    requires Runs(NewCache(n), ms) && !After(NewCache(n), ms).undefined && t < n
    ensures var s := After(NewCache(n), ms);
      && s.done == Returns(NewCache(n), ms) && t < |s.threads|
      && (!s.threads[t].Outside? ==>
           var made := LastMade(NewCache(n), ms, t, any);
           s.threads[t].call == made.call && s.threads[t].begun == made.begun)
  {
    hide Runs, After, Returns, LastMade;
    AgreesRun(NewCache(n), ms, t, any);
    DoneRun(NewCache(n), ms);
  }
}
