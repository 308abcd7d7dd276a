/**
 What a get returns that is not aligned but calm: a vector the map held under its key at some point
 of the call. With the aligned gets, whose point is their event in the log, every calm get has one.
 */
module CacheWindows {
  import opened PlainMap
  import opened CacheProtocol
  import opened CacheProofs
  import opened CacheLinear
  import opened CacheTheorems

  /** After the first i events of the log the map has v under k. */
  predicate HeldAt(log: seq<Event>, k: Key, v: Addresses, i: nat) {
    i <= |log| && k in Replay(log[..i]) && Replay(log[..i])[k] == v
  }

  predicate Held(log: seq<Event>, k: Key, v: Addresses, from: nat, to: nat) {
    exists i :: from <= i <= to && HeldAt(log, k, v, i)
  }

  /** Each of these versions of the entry was the map's between the two positions. */
  predicate AllHeld(log: seq<Event>, k: Key, from: nat, to: nat, hist: seq<Addresses>, lo: nat, hi: nat) {
    hi < |hist| && forall v :: lo <= v <= hi ==> Held(log, k, hist[v], from, to)
  }

  predicate ReaderHeld(log: seq<Event>, call: Call, begun: nat, mark: nat, e: E.Entry, p: E.Pc) {
    match p
    case ReadLoaded(_, seen) => AllHeld(log, call.k, begun, |log|, e.hist, seen, E.Flips(e))
    case ReadCopying(_, _, seen, at, _) => AllHeld(log, call.k, begun, mark, e.hist, seen, at)
    case ReadCopied(_, _, seen, at, _) => AllHeld(log, call.k, begun, mark, e.hist, seen, at)
    case ReadReturned(_, seen, at, _) => AllHeld(log, call.k, begun, mark, e.hist, seen, at)
    case _ => true
  }

  predicate OutcomeHeld(log: seq<Event>, call: Call, begun: nat, mark: nat, out: Outcome) {
    call.Get? && out.Value? && out.calm ==> Held(log, call.k, out.v, begun, mark)
  }

  predicate ThreadHeld(s: Cache, t: nat)
    requires t < |s.threads|
  {
    match s.threads[t]
    case InEntry(call, begun, ref, mark) =>
      ref in s.heap && t < |s.heap[ref].threads| && call.Get? ==>
        ReaderHeld(s.log, call, begun, mark, s.heap[ref], s.heap[ref].threads[t])
    case Leaving(call, begun, mark, out) => OutcomeHeld(s.log, call, begun, mark, out)
    case _ => true
  }

  predicate WindowsOk(s: Cache) {
    && (forall t :: 0 <= t < |s.threads| ==> ThreadHeld(s, t))
    && (forall r <- s.done :: OutcomeHeld(s.log, r.call, r.begun, r.mark, r.out))
  }

  // ---------------------------------------------------------------- longer logs

  lemma HeldLater(log: seq<Event>, log': seq<Event>, k: Key, v: Addresses, from: nat, to: nat, to': nat)
    requires log <= log' && to <= to' && Held(log, k, v, from, to)
    ensures Held(log', k, v, from, to')
  {
    hide Replay;
    var i :| from <= i <= to && HeldAt(log, k, v, i);
    assert log'[..i] == log[..i];
    assert HeldAt(log', k, v, i);
  }

  lemma AllHeldLater(log: seq<Event>, log': seq<Event>, k: Key, from: nat, to: nat, to': nat,
                     hist: seq<Addresses>, hist': seq<Addresses>, lo: nat, hi: nat)
    requires log <= log' && to <= to' && hist <= hist' && AllHeld(log, k, from, to, hist, lo, hi)
    ensures AllHeld(log', k, from, to', hist', lo, hi)
  {
    hide Held;
    forall v | lo <= v <= hi
      ensures Held(log', k, hist'[v], from, to')
    {
      assert hist'[v] == hist[v];
      HeldLater(log, log', k, hist[v], from, to, to');
    }
  }

  lemma OutcomeLater(log: seq<Event>, log': seq<Event>, call: Call, begun: nat, mark: nat, out: Outcome)
    requires log <= log' && OutcomeHeld(log, call, begun, mark, out)
    ensures OutcomeHeld(log', call, begun, mark, out)
  {
    hide Held;
    if call.Get? && out.Value? && out.calm {
      HeldLater(log, log', call.k, out.v, begun, mark, mark);
    }
  }

  // ---------------------------------------------------------------- one step in an entry

  lemma HistGrows(e: E.Entry, t: nat, b: E.Act)
    requires EP.Inv(e) && E.Enabled(e, t, b)
    ensures var e' := E.Do(e, t, b);
      && e.hist <= e'.hist && |e.hist| <= |e'.hist| <= |e.hist| + 1 && e.hist != []
  {
    assert EP.WriterOk(e, e.threads[t]);
    EP.BuffersMove(e, t, b);
  }

  /** What the map has under the key of a call in an entry is the entry's newest version. */
  lemma NewestHeld(s: Cache, u: nat)
    requires HeapOk(s) && UseOk(s) && LogOk(s) && u < |s.threads| && s.threads[u].InEntry? && MarkOk(s, u)
    ensures var p := s.threads[u];
      && p.ref in s.heap && s.heap[p.ref].hist != []
      && Held(s.log, p.call.k, s.heap[p.ref].hist[E.Flips(s.heap[p.ref])], p.begun, |s.log|)
  {
    hide LegalLog, Replay, EntryMarkOk;
    var p := s.threads[u];
    assert UsesLiveEntry(s, u);
    NewestIsCurrent(s.heap[p.ref]);
    assert s.log[..|s.log|] == s.log;
    assert HeldAt(s.log, p.call.k, E.Current(s.heap[p.ref]), |s.log|);
  }

  lemma NewestIsCurrent(e: E.Entry)
    requires EP.Inv(e)
    ensures e.hist != [] && E.Current(e) == e.hist[E.Flips(e)]
  {
  }

  lemma AddNewest(log: seq<Event>, k: Key, from: nat, hist: seq<Addresses>, lo: nat, hi: nat)
    requires hi < |hist| && Held(log, k, hist[hi], from, |log|)
    requires lo < hi ==> AllHeld(log, k, from, |log|, hist, lo, hi - 1)
    ensures AllHeld(log, k, from, |log|, hist, lo, hi)
  {
    hide Held;
  }

  /** Another thread's step in the entry, or none, under a reader that stays where it is. */
  lemma OtherReader(log: seq<Event>, log': seq<Event>, call: Call, begun: nat, mark: nat,
                    e: E.Entry, e': E.Entry, p: E.Pc)
    requires log <= log' && e.hist <= e'.hist && e.hist != [] && |e'.hist| <= |e.hist| + 1
    requires ReaderHeld(log, call, begun, mark, e, p)
    requires Held(log', call.k, e'.hist[E.Flips(e')], begun, |log'|)
    ensures ReaderHeld(log', call, begun, mark, e', p)
  {
    hide Held, AllHeld;
    match p {
    case ReadLoaded(_, seen) =>
      AllHeldLater(log, log', call.k, begun, |log|, |log'|, e.hist, e'.hist, seen, E.Flips(e));
      if E.Flips(e') > E.Flips(e) {
        AddNewest(log', call.k, begun, e'.hist, seen, E.Flips(e'));
      }
    case ReadCopying(_, _, seen, at, _) =>
      AllHeldLater(log, log', call.k, begun, mark, mark, e.hist, e'.hist, seen, at);
    case ReadCopied(_, _, seen, at, _) =>
      AllHeldLater(log, log', call.k, begun, mark, mark, e.hist, e'.hist, seen, at);
    case ReadReturned(_, seen, at, _) =>
      AllHeldLater(log, log', call.k, begun, mark, mark, e.hist, e'.hist, seen, at);
    case _ =>
    }
  }

  /** The reader's own step: the load sees the newest version, the increment fixes the last one. */
  lemma OwnReader(log: seq<Event>, log': seq<Event>, call: Call, begun: nat, mark: nat, mark': nat,
                  e: E.Entry, t: nat)
    requires EP.Inv(e) && E.Enabled(e, t, E.Advance) && log <= log' && Reading(e.threads[t])
    requires mark' == if e.threads[t].ReadLoaded? then |log| else mark
    requires ReaderHeld(log, call, begun, mark, e, e.threads[t])
    requires Held(log', call.k, e.hist[E.Flips(e)], begun, |log'|)
    ensures ReaderHeld(log', call, begun, mark', E.Do(e, t, E.Advance), E.Do(e, t, E.Advance).threads[t])
  {
    hide Held, AllHeld, E.Calm, EP.Inv;
    NewestIsCurrent(e);
    match e.threads[t] {
    case ReadStart =>
      AddNewest(log', call.k, begun, e.hist, E.Flips(e), E.Flips(e));
    case ReadLoaded(_, seen) =>
      AllHeldLater(log, log', call.k, begun, |log|, |log|, e.hist, e.hist, seen, E.Flips(e));
    case ReadCopying(_, _, seen, at, _) =>
      AllHeldLater(log, log', call.k, begun, mark, mark, e.hist, e.hist, seen, at);
    case ReadCopied(_, _, seen, at, _) =>
      AllHeldLater(log, log', call.k, begun, mark, mark, e.hist, e.hist, seen, at);
    case ReadReturned(_, seen, at, _) =>
      AllHeldLater(log, log', call.k, begun, mark, mark, e.hist, e.hist, seen, at);
    }
  }

  /** A calm reader returns one of the versions from its load to its increment. */
  lemma ReturnHeld(log: seq<Event>, call: Call, begun: nat, mark: nat, e: E.Entry, t: nat)
    requires EP.Inv(e) && t < |e.threads| && e.threads[t].ReadReturned?
    requires ReaderHeld(log, call, begun, mark, e, e.threads[t])
    ensures var q := e.threads[t]; forall aligned :: OutcomeHeld(log, call, begun, mark, Value(q.acc, aligned, q.calm))
  {
    hide Held, EP.Inv;
    var q := e.threads[t];
    assert EP.ReaderOk(e, q) by { EP.InvReader(e, t); }
    if q.calm {
      var v := EP.Version(q.seen, q.at);
      assert q.seen <= v <= q.at;
      assert Held(log, call.k, e.hist[v], begun, mark);
    }
  }

  /** A get leaves its entry with what it copied there, and says of it whether it was aligned and calm. */
  lemma LeavesWithCopy(s: Cache, t: nat, a: Act)
    requires Enabled(s, t, a) && s.threads[t].InEntry? && s.heap[s.threads[t].ref].threads[t].ReadReturned?
    ensures var p, q := s.threads[t], s.heap[s.threads[t].ref].threads[t];
      Do(s, t, a).threads[t] ==
        Leaving(p.call, p.begun, p.mark, Value(q.acc, q.seen % 2 == q.at % 2, q.calm))
  {
    hide E.Do, E.Enabled, E.Current;
  }

  // ---------------------------------------------------------------- one step of the cache

  lemma OwnWindowInEntry(s: Cache, t: nat, a: Act)
    requires Enabled(s, t, a) && Inv(s) && Inv(Do(s, t, a)) && WindowsOk(s) && s.threads[t].InEntry?
    ensures ThreadHeld(Do(s, t, a), t)
  {
    hide Inv, EP.Inv, E.Do, E.Current, ReaderHeld, Held, HeapOk, UseOk, LogOk, MarksOk;
    var p, s' := s.threads[t], Do(s, t, a);
    LogGrows(s, t, a);
    Parts(s, t);
    Parts(s', t);
    assert ThreadHeld(s, t);
    var e := s.heap[p.ref];
    EntryIsOk(s, p.ref);
    if p.call.Get? {
      if EntryAct(e, t) == E.Finish {
        ReturnHeld(s.log, p.call, p.begun, p.mark, e, t);
      } else {
        NewestHeld(s', t);
        ReadersPublishNothing(e, t);
        OwnReader(s.log, s'.log, p.call, p.begun, p.mark, s'.threads[t].mark, e, t);
      }
    }
  }

  lemma ReadersPublishNothing(e: E.Entry, t: nat)
    requires E.Enabled(e, t, E.Advance) && Reading(e.threads[t])
    ensures E.Do(e, t, E.Advance).hist == e.hist
  {
  }

  lemma Parts(s: Cache, t: nat)
    requires Inv(s) && t < |s.threads|
    ensures HeapOk(s) && UseOk(s) && LogOk(s) && LockOk(s) && MarkOk(s, t) && UsesLiveEntry(s, t)
  {
    hide HeapOk, LogOk, LockOk, MarkOk, UsesLiveEntry, ListOk, DoneOk;
  }

  lemma EntryIsOk(s: Cache, r: Ref)
    requires HeapOk(s) && r in s.heap
    ensures EP.Inv(s.heap[r])
  {
  }

  /** A thread that stays where it is: its entry stays too, or takes one step. */
  lemma OtherWindow(s: Cache, s': Cache, u: nat)
    requires Inv(s) && Inv(s') && u < |s.threads| == |s'.threads| && ThreadHeld(s, u)
    requires s'.threads[u] == s.threads[u] && s.log <= s'.log
    requires s.threads[u].InEntry? ==>
      var r := s.threads[u].ref;
      && r in s.heap && r in s'.heap && u < |s.heap[r].threads| && u < |s'.heap[r].threads|
      && s'.heap[r].threads[u] == s.heap[r].threads[u] && s.heap[r].hist != []
      && s.heap[r].hist <= s'.heap[r].hist && |s'.heap[r].hist| <= |s.heap[r].hist| + 1
    ensures ThreadHeld(s', u)
  {
    hide Inv, ReaderHeld, OutcomeHeld, Held, HeapOk, UseOk, LogOk, LockOk, MarkOk, UsesLiveEntry;
    var p := s.threads[u];
    if p.InEntry? && p.call.Get? {
      Parts(s', u);
      NewestHeld(s', u);
      OtherReader(s.log, s'.log, p.call, p.begun, p.mark, s.heap[p.ref], s'.heap[p.ref], s.heap[p.ref].threads[u]);
    } else if p.Leaving? {
      OutcomeLater(s.log, s'.log, p.call, p.begun, p.mark, p.out);
    }
  }

  /** No step of another thread moves a thread inside an entry, and none takes its entry away. */
  lemma EntryUnderOther(s: Cache, t: nat, a: Act, u: nat)
    requires Enabled(s, t, a) && Inv(s) && Inv(Do(s, t, a)) && u < |s.threads| && u != t && s.threads[u].InEntry?
    ensures var s' := Do(s, t, a); var r := s.threads[u].ref;
      && r in s.heap && r in s'.heap && u < |s.heap[r].threads| && u < |s'.heap[r].threads|
      && s'.heap[r].threads[u] == s.heap[r].threads[u] && s.heap[r].hist != []
      && s.heap[r].hist <= s'.heap[r].hist && |s'.heap[r].hist| <= |s.heap[r].hist| + 1
  {
    hide Inv, EP.Inv, E.Do, HeapOk, UseOk, LogOk, LockOk, MarkOk, E.Enabled, Do, EntryAct, Reading, Writing;
    var s', p, r := Do(s, t, a), s.threads[t], s.threads[u].ref;
    Parts(s, u);
    Parts(s', u);
    EntryIsOk(s, r);
    NewestIsCurrent(s.heap[r]);
    if p.InEntry? {
      OneEntryMoves(s.heap[r], t, EntryAct(s.heap[p.ref], t), p.ref == r, u);
      HeapInEntry(s, t, a);
    } else if p.Inside? && p.call.Shared() && p.call.k in s.entries {
      var b := if p.call.Get? then E.BeginGet else E.BeginSet(p.call.v);
      BeginsAlike(s.heap[s.entries[p.call.k]], t, b);
      OneEntryMoves(s.heap[r], t, b, s.entries[p.call.k] == r, u);
      HeapInside(s, t, a, b);
    } else {
      BesideReader(s, t, u);
      HeapElsewhere(s, t, a);
    }
  }

  lemma OneEntryMoves(e: E.Entry, t: nat, b: E.Act, here: bool, u: nat)
    requires EP.Inv(e) && (here ==> E.Enabled(e, t, b)) && u < |e.threads| && u != t
    ensures here ==>
      && u < |E.Do(e, t, b).threads| && E.Do(e, t, b).threads[u] == e.threads[u]
      && e.hist <= E.Do(e, t, b).hist && |E.Do(e, t, b).hist| <= |e.hist| + 1
  {
    hide EP.Inv, E.Do;
    if here {
      EP.OnlyOneThreadMoves(e, t, b);
      HistGrows(e, t, b);
    }
  }

  /** A call that begins in an entry has read nothing yet. */
  lemma OwnWindowInside(s: Cache, t: nat, a: Act)
    requires Enabled(s, t, a) && s.threads[t].Inside? && !Do(s, t, a).undefined
    ensures ThreadHeld(Do(s, t, a), t)
  {
    hide Held, EP.Inv, E.Step, E.Current;
    var call, s' := s.threads[t].call, Do(s, t, a);
    if call.Shared() && call.k in s.entries {
      var b := if call.Get? then E.BeginGet else E.BeginSet(call.v);
      EP.OnlyOneThreadMoves(s.heap[s.entries[call.k]], t, b);
      assert s'.threads[t].InEntry?;
    }
  }

  lemma OwnWindow(s: Cache, t: nat, a: Act)
    requires Enabled(s, t, a) && !s.threads[t].InEntry? && !Do(s, t, a).undefined
    ensures ThreadHeld(Do(s, t, a), t)
  {
    hide Held, E.Enabled, E.Do, E.Current, EP.Inv, Enter, StepInEntry, Do, ThreadHeld;
    if s.threads[t].Inside? {
      OwnWindowInside(s, t, a);
    } else {
      OwnWindowOutside(s, t, a);
    }
  }

  lemma OwnWindowOutside(s: Cache, t: nat, a: Act)
    requires Enabled(s, t, a) && !s.threads[t].InEntry? && !s.threads[t].Inside?
    ensures ThreadHeld(Do(s, t, a), t)
  {
    hide Held, ReaderHeld, E.Enabled, E.Do, E.Current, EP.Inv, Enter, StepInEntry;
  }

  lemma DoneHeld(s: Cache, t: nat, a: Act)
    requires Enabled(s, t, a) && WindowsOk(s)
    ensures forall r <- Do(s, t, a).done :: OutcomeHeld(Do(s, t, a).log, r.call, r.begun, r.mark, r.out)
  {
    hide OutcomeHeld, E.Do, E.Enabled, E.Current;
    var s', p := Do(s, t, a), s.threads[t];
    LogGrows(s, t, a);
    assert ThreadHeld(s, t);
    forall r <- s'.done
      ensures OutcomeHeld(s'.log, r.call, r.begun, r.mark, r.out)
    {
      if r in s.done {
        OutcomeLater(s.log, s'.log, r.call, r.begun, r.mark, r.out);
      }
    }
  }

  lemma WindowsStep(s: Cache, t: nat, a: Act)
    requires Enabled(s, t, a) && Inv(s) && Inv(Do(s, t, a)) && WindowsOk(s) && !Do(s, t, a).undefined
    ensures WindowsOk(Do(s, t, a))
  {
    hide Do, Enabled, Inv, OutcomeHeld, ThreadHeld;
    var s' := Do(s, t, a);
    DoneHeld(s, t, a);
    LogGrows(s, t, a);
    forall u | 0 <= u < |s'.threads|
      ensures ThreadHeld(s', u)
    {
      if u != t {
        if s.threads[u].InEntry? {
          EntryUnderOther(s, t, a, u);
        }
        OtherWindow(s, s', u);
      } else if s.threads[t].InEntry? {
        OwnWindowInEntry(s, t, a);
      } else {
        OwnWindow(s, t, a);
      }
    }
  }

  lemma {:induction false} WindowsRun(s: Cache, ms: seq<Move>)
    requires Inv(s) && WindowsOk(s) && Runs(s, ms) && !s.undefined && !After(s, ms).undefined
    ensures WindowsOk(After(s, ms))
    decreases |ms|
  {
    hide Do, Inv, Enabled, WindowsOk;
    if ms != [] {
      var s' := Do(s, ms[0].t, ms[0].a);
      if s'.undefined {
        UndefinedStops(s', ms[1..]);
      } else {
        InvStep(s, ms[0].t, ms[0].a);
        WindowsStep(s, ms[0].t, ms[0].a);
        WindowsRun(s', ms[1..]);
      }
    }
  }

  /** Every calm get of every run, aligned or not, returns a vector that the plain map has under its
      key at some point between the beginning of the call and its event in the log: a get event at
      that point is one the map allows. */
  lemma CalmGetsLinearize(n: nat, ms: seq<Move>, g: Record) returns (i: nat)
    requires Runs(NewCache(n), ms) && !After(NewCache(n), ms).undefined
    requires g in After(NewCache(n), ms).done && g.call.Get? && g.out.Value? && g.out.calm
    ensures var log := After(NewCache(n), ms).log;
      && g.begun <= i <= g.mark < g.ended <= |log|
      && Legal(Replay(log[..i]), Got(g.call.k, g.out.v))
  {
    hide Inv, Runs, After, Do, Replay;
    NewCacheInv(n);
    NothingHeldYet(n);
    WindowsRun(NewCache(n), ms);
    Linearizable(n, ms);
    var s := After(NewCache(n), ms);
    assert RecordOk(s.log, g);
    assert OutcomeHeld(s.log, g.call, g.begun, g.mark, g.out);
    i :| g.begun <= i <= g.mark && HeldAt(s.log, g.call.k, g.out.v, i);
  }

  lemma NothingHeldYet(n: nat)
    ensures WindowsOk(NewCache(n))
  {
  }
}
