/** The cache is linearizable to a plain map: the log of effects is legal for the map, and every
    call took effect at one event of the log, between its beginning and its end. */
module CacheLinear {
  import opened PlainMap
  import opened CacheProtocol
  import opened CacheProofs

  /** What a call that ended with this outcome did to the map, or saw in it. */
  predicate EventFits(call: Call, out: Outcome, ev: Event) {
    match call
    case Get(k) =>
      (match out
       case Value(v, aligned, _) => ev.Got? && ev.k == k && (aligned ==> ev.v == v)
       case Threw => ev == Missed(k)
       case Completed => false)
    case Set(k, v) => out == Completed && ev == Put(k, v)
    case Add(k) => out == Completed && ev == Added(k)
    case Remove(k) => out == Completed && ev == Removed(k)
  }

  predicate Took(log: seq<Event>, begun: nat, mark: nat, ev: Event) {
    begun <= mark < |log| && log[mark] == ev
  }

  /** The map that the log describes is the map the entries hold. */
  predicate LogOk(s: Cache) {
    && LegalLog(s.log)
    && Replay(s.log).Keys == s.entries.Keys
    && (forall k <- s.entries :: s.entries[k] in s.heap ==>
         Replay(s.log)[k] == E.Current(s.heap[s.entries[k]]))
  }

  predicate EntryMarkOk(log: seq<Event>, call: Call, begun: nat, mark: nat, e: E.Entry, p: E.Pc) {
    match p
    case ReadCopying(_, _, _, at, _) => at < |e.hist| && Took(log, begun, mark, Got(call.k, e.hist[at]))
    case ReadCopied(_, _, _, at, _) => at < |e.hist| && Took(log, begun, mark, Got(call.k, e.hist[at]))
    case ReadReturned(_, _, at, _) => at < |e.hist| && Took(log, begun, mark, Got(call.k, e.hist[at]))
    case WriteFlipped => call.Set? && Took(log, begun, mark, Put(call.k, call.v))
    case WriteReturned => call.Set? && Took(log, begun, mark, Put(call.k, call.v))
    case _ => true
  }

  predicate MarkOk(s: Cache, t: nat)
    requires t < |s.threads|
  {
    var p := s.threads[t];
    (!p.Outside? ==> p.begun <= |s.log|) &&
    match p
    case InEntry(call, begun, ref, mark) =>
      ref in s.heap && t < |s.heap[ref].threads| ==>
        EntryMarkOk(s.log, call, begun, mark, s.heap[ref], s.heap[ref].threads[t])
    case Leaving(call, begun, mark, out) =>
      begun <= mark < |s.log| && EventFits(call, out, s.log[mark])
    case _ => true
  }

  predicate MarksOk(s: Cache) {
    forall t :: 0 <= t < |s.threads| ==> MarkOk(s, t)
  }

  predicate RecordOk(log: seq<Event>, r: Record) {
    r.begun <= r.mark < r.ended <= |log| && EventFits(r.call, r.out, log[r.mark])
  }

  /** Records of one thread follow each other, and its unfinished call follows them all. */
  predicate DoneOk(s: Cache) {
    && (forall r <- s.done :: RecordOk(s.log, r))
    && (forall i, j :: 0 <= i < j < |s.done| && s.done[i].t == s.done[j].t ==>
         s.done[i].ended <= s.done[j].begun)
    && (forall i :: 0 <= i < |s.done| && s.done[i].t < |s.threads| && !s.threads[s.done[i].t].Outside? ==>
         s.done[i].ended <= s.threads[s.done[i].t].begun)
  }

  // ---------------------------------------------------------------- the log

  lemma LogGrows(s: Cache, t: nat, a: Act)
    requires Enabled(s, t, a)
    ensures |s.log| <= |Do(s, t, a).log| && Do(s, t, a).log[..|s.log|] == s.log
  {
    hide E.Do, E.Current, E.Enabled;
  }

  /** Only the flip changes the vector an entry serves. */
  lemma CurrentMoves(e: E.Entry, t: nat, b: E.Act)
    requires EP.Inv(e) && E.Enabled(e, t, b)
    ensures var p := e.threads[t];
      E.Current(E.Do(e, t, b)) == if b.Advance? && p.WriteFlipping? then p.v else E.Current(e)
  {
    assert EP.WriterOk(e, e.threads[t]);
    EP.BuffersMove(e, t, b);
  }

  /** An entry step that publishes nothing leaves the map alone; the flip is a put. */
  lemma LogEntryStep(s: Cache, s': Cache, r: Ref, t: nat, b: E.Act, evs: seq<Event>)
    requires HeapOk(s) && LogOk(s) && r in s.heap && E.Enabled(s.heap[r], t, b)
    requires s'.heap == s.heap[r := E.Do(s.heap[r], t, b)] && s'.entries == s.entries
    requires s'.log == s.log + evs
    requires var p := s.heap[r].threads[t];
      if b.Advance? && p.WriteFlipping? then
        exists k :: evs == [Put(k, p.v)] && k in s.entries && s.entries[k] == r
      else
        || evs == []
        || (exists k :: evs == [Got(k, E.Current(s.heap[r]))] && k in s.entries && s.entries[k] == r)
    ensures LogOk(s')
  {
    hide EP.Inv, E.Do, E.Current, E.Enabled, Replay, LegalLog;
    CurrentMoves(s.heap[r], t, b);
    if evs == [] {
      assert s'.log == s.log;
    } else {
      Extend(s.log, evs[0]);
    }
  }

  lemma LogStepInEntry(s: Cache, t: nat, a: Act)
    requires Enabled(s, t, a) && HeapOk(s) && UseOk(s) && LogOk(s) && s.threads[t].InEntry?
    ensures LogOk(Do(s, t, a))
  {
    hide EP.Inv, E.Do, E.Current, LegalLog, Replay;
    var k, ref, s' := s.threads[t].call.k, s.threads[t].ref, Do(s, t, a);
    assert UsesLiveEntry(s, t);
    var p := s.heap[ref].threads[t];
    if p.ReadLoaded? {
      LogEntryStep(s, s', ref, t, E.Advance, [Got(k, E.Current(s.heap[ref]))]);
    } else if p.WriteFlipping? {
      LogEntryStep(s, s', ref, t, E.Advance, [Put(k, p.v)]);
    } else {
      LogEntryStep(s, s', ref, t, EntryAct(s.heap[ref], t), []);
    }
  }

  lemma LogStepInside(s: Cache, t: nat, a: Act)
    requires Enabled(s, t, a) && HeapOk(s) && LogOk(s) && s.threads[t].Inside?
    ensures LogOk(Do(s, t, a))
  {
    hide EP.Inv, E.Do, E.Current, LegalLog, Replay;
    var call, s' := s.threads[t].call, Do(s, t, a);
    if call.Shared() && call.k in s.entries {
      LogEntryStep(s, s', s.entries[call.k], t, if call.Get? then E.BeginGet else E.BeginSet(call.v), []);
    } else if call.Get? {
      Missing(s.log, call.k);
    }
  }

  lemma Missing(log: seq<Event>, k: Key)
    requires LegalLog(log) && k !in Replay(log)
    ensures LegalLog(log + [Missed(k)]) && Replay(log + [Missed(k)]) == Replay(log)
  {
    Extend(log, Missed(k));
  }

  lemma LogStepUpdate(s: Cache, t: nat, a: Act)
    requires Enabled(s, t, a) && HeapOk(s) && LogOk(s) && WellShaped(s.threads[t])
    requires s.threads[t].Pushed? || s.threads[t].Erased? || s.threads[t].Freed?
    ensures LogOk(Do(s, t, a))
  {
    hide EP.Inv, E.Do, E.Enabled, E.Current, Replay, LegalLog;
    var k := s.threads[t].call.k;
    if s.threads[t].Pushed? {
      AddedIsEmpty(s.log, k);
      NewIsEmpty(|s.threads|);
    } else if s.threads[t].Freed? {
      RemovedIsGone(s.log, k);
    }
  }

  lemma NewIsEmpty(n: nat)
    ensures E.Current(E.NewEntry(n)) == []
  {
  }

  lemma AddedIsEmpty(log: seq<Event>, k: Key)
    requires LegalLog(log)
    ensures LegalLog(log + [Added(k)]) && Replay(log + [Added(k)]) == Replay(log)[k := []]
  {
    Extend(log, Added(k));
  }

  lemma RemovedIsGone(log: seq<Event>, k: Key)
    requires LegalLog(log)
    ensures LegalLog(log + [Removed(k)]) && Replay(log + [Removed(k)]) == Replay(log) - {k}
  {
    Extend(log, Removed(k));
  }

  lemma LogStep(s: Cache, t: nat, a: Act)
    requires Enabled(s, t, a) && HeapOk(s) && UseOk(s) && LogOk(s) && LockOk(s) && !Do(s, t, a).undefined
    ensures LogOk(Do(s, t, a))
  {
    hide EP.Inv, E.Do, Do, LogOk, HeapOk, UseOk;
    var p := s.threads[t];
    assert WellShaped(p);
    hide LockOk;
    if p.InEntry? {
      LogStepInEntry(s, t, a);
    } else if p.Inside? {
      LogStepInside(s, t, a);
    } else if p.Pushed? || p.Erased? || p.Freed? {
      LogStepUpdate(s, t, a);
    } else {
      LogStepElsewhere(s, t, a);
    }
  }

  /** Asking for the lock, getting it and releasing it leave log, map and entries alone. */
  lemma LogStepElsewhere(s: Cache, t: nat, a: Act)
    requires Enabled(s, t, a) && LogOk(s) && LockOk(s)
    requires s.threads[t].Outside? || s.threads[t].Waiting? || s.threads[t].Leaving?
    ensures LogOk(Do(s, t, a))
  {
    hide EP.Inv, E.Do;
    assert Do(s, t, a).log == s.log && Do(s, t, a).entries == s.entries && Do(s, t, a).heap == s.heap;
  }

  // ---------------------------------------------------------------- where each call took effect

  lemma EntryMarkKept(log: seq<Event>, log': seq<Event>, call: Call, begun: nat, mark: nat,
                      e: E.Entry, t: nat, b: E.Act, p: E.Pc)
    requires EP.Inv(e) && E.Enabled(e, t, b) && |log| <= |log'| && log'[..|log|] == log
    requires EntryMarkOk(log, call, begun, mark, e, p)
    ensures EntryMarkOk(log', call, begun, mark, E.Do(e, t, b), p)
  {
    assert EP.WriterOk(e, e.threads[t]);
    EP.BuffersMove(e, t, b);
    hide E.Do, EP.Inv;
    assert forall i :: 0 <= i < |log| ==> log'[i] == log[i];
  }

  lemma MarkKept(s: Cache, s': Cache, u: nat)
    requires u < |s.threads| == |s'.threads| && MarkOk(s, u) && s'.threads[u] == s.threads[u]
    requires |s.log| <= |s'.log| && s'.log[..|s.log|] == s.log
    requires s.threads[u].InEntry? ==>
      || s.threads[u].ref !in s'.heap
      || (s.threads[u].ref in s.heap && s'.heap[s.threads[u].ref] == s.heap[s.threads[u].ref])
    ensures MarkOk(s', u)
  {
    assert forall i :: 0 <= i < |s.log| ==> s'.log[i] == s.log[i];
  }

  lemma OtherMarkInEntry(s: Cache, s': Cache, r: Ref, t: nat, b: E.Act, u: nat)
    requires HeapOk(s) && r in s.heap && E.Enabled(s.heap[r], t, b)
    requires s'.heap == s.heap[r := E.Do(s.heap[r], t, b)]
    requires u < |s.threads| == |s'.threads| && u != t && MarkOk(s, u) && s'.threads[u] == s.threads[u]
    requires |s.log| <= |s'.log| && s'.log[..|s.log|] == s.log
    ensures MarkOk(s', u)
  {
    hide E.Do, EP.Inv;
    EP.OnlyOneThreadMoves(s.heap[r], t, b);
    var p := s.threads[u];
    if p.InEntry? && p.ref == r {
      EntryMarkKept(s.log, s'.log, p.call, p.begun, p.mark, s.heap[r], t, b, s.heap[r].threads[u]);
    } else {
      MarkKept(s, s', u);
    }
  }

  /** The increment reads the vector that is current, the flip publishes the set's own. */
  lemma MarkAtEffect(log: seq<Event>, call: Call, begun: nat, e: E.Entry, t: nat, ev: Event)
    requires EP.Inv(e) && E.Enabled(e, t, E.Advance) && begun <= |log|
    requires var q := e.threads[t];
      || (q.ReadLoaded? && ev == Got(call.k, E.Current(e)))
      || (q.WriteFlipping? && call.Set? && q.v == call.v && ev == Put(call.k, q.v))
    ensures EntryMarkOk(log + [ev], call, begun, |log|, E.Do(e, t, E.Advance), E.Do(e, t, E.Advance).threads[t])
  {
  }

  lemma MarkBetween(log: seq<Event>, call: Call, begun: nat, mark: nat, e: E.Entry, t: nat)
    requires EP.Inv(e) && E.Enabled(e, t, E.Advance) && !e.threads[t].ReadLoaded? && !e.threads[t].WriteFlipping?
    requires EntryMarkOk(log, call, begun, mark, e, e.threads[t])
    ensures EntryMarkOk(log, call, begun, mark, E.Do(e, t, E.Advance), E.Do(e, t, E.Advance).threads[t])
  {
  }

  /** A returned get, if aligned, returns the vector of its event. */
  lemma ReturnFits(log: seq<Event>, call: Call, begun: nat, mark: nat, e: E.Entry, t: nat)
    requires EP.Inv(e) && t < |e.threads| && EntryMarkOk(log, call, begun, mark, e, e.threads[t])
    ensures var q := e.threads[t];
      && (q.ReadReturned? && call.Get?
          ==> begun <= mark < |log| && EventFits(call, Value(q.acc, (q.at - q.seen) % 2 == 0, q.calm), log[mark]))
      && (q.WriteReturned? && call.Set? ==> begun <= mark < |log| && EventFits(call, Completed, log[mark]))
  {
    var q := e.threads[t];
    assert EP.ReaderOk(e, q);
    if q.ReadReturned? {
      assert (q.at - q.seen) % 2 == 0 ==> EP.Version(q.seen, q.at) == q.at;
    }
  }

  lemma OwnMarkInEntry(s: Cache, t: nat, a: Act)
    requires Enabled(s, t, a) && HeapOk(s) && UseOk(s) && MarksOk(s) && s.threads[t].InEntry?
    ensures MarkOk(Do(s, t, a), t)
  {
    hide EP.Inv, E.Do, E.Current, EntryMarkOk, EventFits;
    var p, s' := s.threads[t], Do(s, t, a);
    var e := s.heap[p.ref];
    assert MarkOk(s, t) && UsesLiveEntry(s, t);
    if e.threads[t].ReadLoaded? {
      MarkAtEffect(s.log, p.call, p.begun, e, t, Got(p.call.k, E.Current(e)));
    } else if e.threads[t].WriteFlipping? {
      MarkAtEffect(s.log, p.call, p.begun, e, t, Put(p.call.k, e.threads[t].v));
    } else if EntryAct(e, t) == E.Finish {
      ReturnFits(s.log, p.call, p.begun, p.mark, e, t);
    } else {
      MarkBetween(s.log, p.call, p.begun, p.mark, e, t);
    }
  }

  lemma MarksStep(s: Cache, t: nat, a: Act)
    requires Enabled(s, t, a) && HeapOk(s) && UseOk(s) && LockOk(s) && MarksOk(s) && !Do(s, t, a).undefined
    ensures MarksOk(Do(s, t, a))
  {
    hide EP.Inv, E.Do;
    var s', p := Do(s, t, a), s.threads[t];
    LogGrows(s, t, a);
    assert MarkOk(s, t) && WellShaped(p);
    forall u | 0 <= u < |s'.threads| ensures MarkOk(s', u) {
      if u == t {
        if p.InEntry? {
          OwnMarkInEntry(s, t, a);
        } else {
          OwnMark(s, t, a);
        }
      } else {
        OtherMark(s, t, a, u);
      }
    }
  }

  lemma OwnMarkInside(s: Cache, t: nat, a: Act)
    requires Enabled(s, t, a) && MarkOk(s, t) && s.threads[t].Inside? && !Do(s, t, a).undefined
    ensures MarkOk(Do(s, t, a), t)
  {
    hide E.Step, E.Current;
    var call, s' := s.threads[t].call, Do(s, t, a);
    if call.Shared() && call.k in s.entries {
      EP.OnlyOneThreadMoves(s.heap[s.entries[call.k]], t, if call.Get? then E.BeginGet else E.BeginSet(call.v));
      assert s'.threads[t].InEntry?;
    }
  }

  lemma OwnMark(s: Cache, t: nat, a: Act)
    requires Enabled(s, t, a) && MarkOk(s, t) && !s.threads[t].InEntry? && WellShaped(s.threads[t])
    requires !Do(s, t, a).undefined
    ensures MarkOk(Do(s, t, a), t)
  {
    hide E.Do, E.Current, E.Enabled, EntryMarkOk, Do, MarkOk, WellShaped;
    if s.threads[t].Inside? {
      OwnMarkInside(s, t, a);
    } else {
      OwnMarkOutside(s, t, a);
    }
  }

  lemma OwnMarkOutside(s: Cache, t: nat, a: Act)
    requires Enabled(s, t, a) && MarkOk(s, t) && !s.threads[t].InEntry? && !s.threads[t].Inside?
    requires WellShaped(s.threads[t]) && !Do(s, t, a).undefined
    ensures MarkOk(Do(s, t, a), t)
  {
    hide E.Do, E.Current, E.Enabled, EntryMarkOk, Enter, StepInEntry, LegalLog, EP.Inv;
  }

  lemma BeginsAlike(e: E.Entry, t: nat, b: E.Act)
    requires E.Enabled(e, t, E.BeginGet) && (b.BeginGet? || b.BeginSet?)
    ensures E.Enabled(e, t, b)
  {
  }

  lemma HeapInEntry(s: Cache, t: nat, a: Act)
    requires Enabled(s, t, a) && s.threads[t].InEntry?
    ensures var r := s.threads[t].ref;
      Do(s, t, a).heap == s.heap[r := E.Do(s.heap[r], t, EntryAct(s.heap[r], t))]
  {
    hide E.Do, E.Enabled, E.Current;
  }

  lemma HeapInside(s: Cache, t: nat, a: Act, b: E.Act)
    requires Enabled(s, t, a) && s.threads[t].Inside?
    requires var call := s.threads[t].call;
      && call.Shared() && call.k in s.entries && b == (if call.Get? then E.BeginGet else E.BeginSet(call.v))
      && E.Enabled(s.heap[s.entries[call.k]], t, b)
    ensures var r := s.entries[s.threads[t].call.k]; Do(s, t, a).heap == s.heap[r := E.Do(s.heap[r], t, b)]
  {
    hide E.Do, E.Enabled, E.Current;
  }

  lemma HeapElsewhere(s: Cache, t: nat, a: Act)
    requires Enabled(s, t, a) && !s.threads[t].InEntry? && !s.threads[t].Pushed? && !s.threads[t].Erased?
    requires !(s.threads[t].Inside? && s.threads[t].call.Shared() && s.threads[t].call.k in s.entries)
    ensures Do(s, t, a).heap == s.heap
  {
    hide E.Do, E.Enabled, E.Current;
  }

  /** While a thread is inside an entry no other one is inside an add or a remove. */
  lemma BesideReader(s: Cache, t: nat, u: nat)
    requires LockOk(s) && t < |s.threads| && u < |s.threads| && s.threads[u].InEntry?
    ensures !s.threads[t].Pushed? && !s.threads[t].Erased? && !s.threads[t].Freed?
  {
    assert WellShaped(s.threads[u]) && WellShaped(s.threads[t]);
  }

  lemma OtherMark(s: Cache, t: nat, a: Act, u: nat)
    requires Enabled(s, t, a) && HeapOk(s) && LockOk(s) && MarksOk(s)
    requires u < |s.threads| && u != t
    ensures MarkOk(Do(s, t, a), u)
  {
    hide EP.Inv, E.Do, E.Enabled, E.Current, MarkOk, Do, EntryAct;
    var s', p := Do(s, t, a), s.threads[t];
    LogGrows(s, t, a);
    assert MarkOk(s, u);
    if p.InEntry? {
      HeapInEntry(s, t, a);
      OtherMarkInEntry(s, s', p.ref, t, EntryAct(s.heap[p.ref], t), u);
    } else if p.Inside? && p.call.Shared() && p.call.k in s.entries {
      var b := if p.call.Get? then E.BeginGet else E.BeginSet(p.call.v);
      BeginsAlike(s.heap[s.entries[p.call.k]], t, b);
      HeapInside(s, t, a, b);
      OtherMarkInEntry(s, s', s.entries[p.call.k], t, b, u);
    } else {
      if s.threads[u].InEntry? {
        BesideReader(s, t, u);
        HeapElsewhere(s, t, a);
      }
      MarkKept(s, s', u);
    }
  }

  lemma DoneStep(s: Cache, t: nat, a: Act)
    requires Enabled(s, t, a) && MarksOk(s) && DoneOk(s) && !Do(s, t, a).undefined
    ensures DoneOk(Do(s, t, a))
  {
    hide E.Do, E.Current, E.Enabled, EventFits;
    var s', p := Do(s, t, a), s.threads[t];
    LogGrows(s, t, a);
    assert MarkOk(s, t);
    assert forall i :: 0 <= i < |s.log| ==> s'.log[i] == s.log[i];
    if p.Leaving? {
      DoneLeaving(s, t, a);
    } else {
      BegunKept(s, t, a);
      forall i | 0 <= i < |s'.done| ensures RecordOk(s'.log, s'.done[i]) && s'.done[i].ended <= |s.log| {
        assert RecordOk(s.log, s.done[i]);
      }
    }
  }

  /** A call keeps the log position at which it began; a new one begins at the end of the log. */
  lemma BegunKept(s: Cache, t: nat, a: Act)
    requires Enabled(s, t, a) && !s.threads[t].Leaving? && !Do(s, t, a).undefined
    ensures Do(s, t, a).done == s.done && !Do(s, t, a).threads[t].Outside?
    ensures Do(s, t, a).threads[t].begun == if s.threads[t].Outside? then |s.log| else s.threads[t].begun
  {
    hide E.Do, E.Current, E.Enabled, BeginInEntry, Enter, StepInEntry;
    if s.threads[t].Inside? {
      EnterKeepsDone(s, t, a);
    } else if s.threads[t].InEntry? {
      StepKeepsDone(s, t, a);
    }
  }

  lemma EnterKeepsDone(s: Cache, t: nat, a: Act)
    requires Enabled(s, t, a) && s.threads[t].Inside?
    ensures Do(s, t, a).done == s.done
  {
    hide E.Do, E.Current, E.Enabled, InStage, KeepsLock;
  }

  lemma StepKeepsDone(s: Cache, t: nat, a: Act)
    requires Enabled(s, t, a) && s.threads[t].InEntry?
    ensures Do(s, t, a).done == s.done
  {
    hide E.Do, E.Current, E.Enabled, InStage, KeepsLock;
  }

  lemma DoneLeaving(s: Cache, t: nat, a: Act)
    requires Enabled(s, t, a) && MarkOk(s, t) && DoneOk(s) && s.threads[t].Leaving?
    ensures DoneOk(Do(s, t, a))
  {
    hide E.Do, E.Current, E.Enabled, EventFits;
    var s', p := Do(s, t, a), s.threads[t];
    assert s'.log == s.log;
    forall r <- s'.done ensures RecordOk(s'.log, r) {
      if r in s.done {
        assert RecordOk(s.log, r);
      }
    }
  }
}
