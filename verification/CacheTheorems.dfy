/** What holds over every run of the cache: for any number of threads and any interleaving. */
module CacheTheorems {
  import opened PlainMap
  import opened CacheProtocol
  import opened CacheProofs
  import opened CacheLinear

  // ---------------------------------------------------------------- the scene list

  /** The list holds exactly these keys, each once. */
  predicate Lists(l: seq<Key>, keys: set<Key>) {
    && (forall i, j :: 0 <= i < j < |l| ==> l[i] != l[j])
    && (forall k <- l :: k in keys)
    && (forall k <- keys :: k in l)
  }

  /** The first occurrence goes, and nothing else. */
  lemma {:induction false} EraseFirstIs(l: seq<Key>, k: Key, i: nat)
    requires i < |l| && l[i] == k && forall j :: 0 <= j < i ==> l[j] != k
    ensures EraseFirst(l, k) == l[..i] + l[i + 1..]
  {
    if i > 0 {
      EraseFirstIs(l[1..], k, i - 1);
      assert l[..i] == [l[0]] + l[1..][..i - 1] && l[i + 1..] == l[1..][i..];
    }
  }

  lemma {:induction false} EraseFirstKeepsOthers(l: seq<Key>, k: Key, j: Key)
    requires j != k
    ensures j in EraseFirst(l, k) <==> j in l
  {
    if l != [] {
      assert l == [l[0]] + l[1..];
      EraseFirstKeepsOthers(l[1..], k, j);
    }
  }

  lemma {:induction false} EraseFirstLists(l: seq<Key>, keys: set<Key>, k: Key)
    requires Lists(l, keys) && k in l
    ensures Lists(EraseFirst(l, k), keys - {k})
  {
    assert l == [l[0]] + l[1..];
    if l[0] == k {
      assert forall j <- l[1..] :: j in l;
    } else {
      assert Lists(l[1..], keys - {l[0]}) by {
        assert forall j <- l[1..] :: j in l;
      }
      EraseFirstLists(l[1..], keys - {l[0]}, k);
      EraseFirstKeepsOthers(l[1..], k, l[0]);
      assert keys - {l[0]} - {k} == keys - {k} - {l[0]};
    }
  }

  /** The thread inside an add or a remove, which is the one that holds the exclusive lock. */
  function Updater(s: Cache): Pc {
    if s.writer.Some? && s.writer.value < |s.threads| then s.threads[s.writer.value] else Outside
  }

  /** While every add has used a new key, the list names each scene of the map once; half-way
      through an add it has the new key at its end, half-way through a remove it lacks the key. */
  predicate ListOk(s: Cache) {
    var p, n := Updater(s), |s.list|;
    s.tidy ==>
      if p.Pushed? then n > 0 && s.list[n - 1] == p.call.k && Lists(s.list[..n - 1], s.entries.Keys)
      else if p.Erased? || p.Freed? then Lists(s.list, s.entries.Keys - {p.call.k})
      else Lists(s.list, s.entries.Keys)
  }

  lemma ListAppended(l: seq<Key>, keys: set<Key>, k: Key)
    requires Lists(l, keys) && k !in keys
    ensures Lists(l + [k], keys + {k})
  {
  }

  lemma UpdaterIs(s: Cache, t: nat)
    requires LockOk(s) && t < |s.threads|
    ensures HoldsExclusive(s.threads[t]) ==> Updater(s) == s.threads[t]
    ensures HoldsShared(s.threads[t]) ==> Updater(s) == Outside
  {
  }

  /** The updater, or a thread under the shared lock while there is none, stays what it is. */
  lemma UpdaterMoves(s: Cache, t: nat, a: Act)
    requires Enabled(s, t, a) && LockOk(s) && !Do(s, t, a).undefined
    requires s.threads[t].Inside? || s.threads[t].Pushed? || s.threads[t].Erased? || s.threads[t].Freed?
    ensures var s', p := Do(s, t, a), s.threads[t];
      && WellShaped(p)
      && (!p.call.Shared() ==> Updater(s) == p && Updater(s') == s'.threads[t])
      && (p.call.Shared() ==> Updater(s) == Outside && Updater(s') == Outside)
  {
    hide Do, Updater, E.Enabled;
    var s', p := Do(s, t, a), s.threads[t];
    assert WellShaped(p);
    LockStep(s, t, a);
    LockKept(s, t, a);
    UpdaterIs(s, t);
    UpdaterIs(s', t);
  }

  lemma ListStepUpdate(s: Cache, t: nat, a: Act)
    requires Enabled(s, t, a) && LockOk(s) && ListOk(s) && !Do(s, t, a).undefined
    requires s.threads[t].Inside? || s.threads[t].Pushed? || s.threads[t].Erased? || s.threads[t].Freed?
    ensures ListOk(Do(s, t, a))
  {
    hide E.Do, E.Enabled, E.NewEntry, E.Current, EraseFirst, Lists, LockOk, Updater;
    var s', p := Do(s, t, a), s.threads[t];
    UpdaterMoves(s, t, a);
    if p.Inside? {
      ListStepInside(s, t, a);
    } else if s'.tidy && p.Pushed? {
      assert s.list == s.list[..|s.list| - 1] + [p.call.k];
      ListAppended(s.list[..|s.list| - 1], s.entries.Keys, p.call.k);
      assert s'.entries.Keys == s.entries.Keys + {p.call.k};
    } else if p.Freed? {
      assert s'.entries.Keys == s.entries.Keys - {p.call.k};
    }
  }

  lemma ListStepInside(s: Cache, t: nat, a: Act)
    requires Enabled(s, t, a) && LockOk(s) && ListOk(s) && !Do(s, t, a).undefined && s.threads[t].Inside?
    ensures ListOk(Do(s, t, a))
  {
    hide E.Do, E.Enabled, E.Current, EraseFirst, Lists, LockOk, Updater;
    var s', p := Do(s, t, a), s.threads[t];
    UpdaterMoves(s, t, a);
    if s.tidy && p.call.Add? {
      assert s'.list[..|s'.list| - 1] == s.list;
    } else if s.tidy && p.call.Remove? {
      EraseFirstLists(s.list, s.entries.Keys, p.call.k);
    }
  }

  predicate MidUpdate(p: Pc) {
    p.Pushed? || p.Erased? || p.Freed?
  }

  lemma ListUntouched(s: Cache, t: nat, a: Act)
    requires Enabled(s, t, a)
    requires s.threads[t].Outside? || s.threads[t].Waiting? || s.threads[t].InEntry? || s.threads[t].Leaving?
    ensures var s' := Do(s, t, a);
      s'.list == s.list && s'.entries == s.entries && s'.tidy == s.tidy && !MidUpdate(s'.threads[t])
  {
    hide E.Do, E.Enabled, E.Current;
  }

  lemma UpdaterKept(s: Cache, t: nat, a: Act)
    requires Enabled(s, t, a) && LockOk(s) && !Do(s, t, a).undefined && !MidUpdate(s.threads[t])
    requires !MidUpdate(Do(s, t, a).threads[t])
    ensures MidUpdate(Updater(s)) ==> Updater(Do(s, t, a)) == Updater(s)
    ensures !MidUpdate(Updater(s)) ==> !MidUpdate(Updater(Do(s, t, a)))
  {
    hide E.Do, E.Enabled, E.Current;
    var s', p := Do(s, t, a), s.threads[t];
    assert WellShaped(p);
    if p.Leaving? {
      assert HoldsShared(p) || HoldsExclusive(p);
    } else if !p.Waiting? {
      LockKept(s, t, a);
    }
  }

  lemma ListStep(s: Cache, t: nat, a: Act)
    requires Enabled(s, t, a) && LockOk(s) && ListOk(s) && !Do(s, t, a).undefined
    ensures ListOk(Do(s, t, a))
  {
    hide Do, LockOk, Updater;
    var p := s.threads[t];
    if p.Inside? || MidUpdate(p) {
      ListStepUpdate(s, t, a);
    } else {
      ListUntouched(s, t, a);
      UpdaterKept(s, t, a);
    }
  }

  // ---------------------------------------------------------------- runs

  predicate Inv(s: Cache) {
    LockOk(s) && HeapOk(s) && UseOk(s) && LogOk(s) && MarksOk(s) && DoneOk(s) && ListOk(s)
  }

  datatype Move = Move(t: nat, a: Act)

  predicate Runs(s: Cache, ms: seq<Move>)
    decreases |ms|
  {
    ms == [] || (Enabled(s, ms[0].t, ms[0].a) && Runs(Do(s, ms[0].t, ms[0].a), ms[1..]))
  }

  function After(s: Cache, ms: seq<Move>): Cache
    requires Runs(s, ms)
    decreases |ms|
  {
    if ms == [] then s else After(Do(s, ms[0].t, ms[0].a), ms[1..])
  }

  lemma NewCacheInv(n: nat)
    ensures Inv(NewCache(n))
  {
  }

  lemma InvStep(s: Cache, t: nat, a: Act)
    requires Enabled(s, t, a) && Inv(s) && !Do(s, t, a).undefined
    ensures Inv(Do(s, t, a))
  {
    hide Do, Enabled, LockOk, HeapOk, UseOk, LogOk, MarksOk, DoneOk, ListOk;
    LockStep(s, t, a);
    HeapStep(s, t, a);
    UseStep(s, t, a);
    LogStep(s, t, a);
    MarksStep(s, t, a);
    DoneStep(s, t, a);
    ListStep(s, t, a);
  }

  lemma {:induction false} InvRun(s: Cache, ms: seq<Move>)
    requires Inv(s) && Runs(s, ms) && !s.undefined
    ensures After(s, ms).undefined || Inv(After(s, ms))
    decreases |ms|
  {
    hide Do, Inv;
    if ms != [] {
      var s' := Do(s, ms[0].t, ms[0].a);
      if s'.undefined {
        UndefinedStops(s', ms[1..]);
      } else {
        InvStep(s, ms[0].t, ms[0].a);
        InvRun(s', ms[1..]);
      }
    }
  }

  lemma UndefinedStops(s: Cache, ms: seq<Move>)
    requires s.undefined && Runs(s, ms)
    ensures ms == []
  {
  }

  /** Linearizability over every run. The log of effects is one the plain map can perform; the map
      it leads to is the one the entries hold (an entry half-way through its removal has no value);
      every finished call took effect at one event of the log that lies between its beginning and
      its end and fits what it returned; the calls of one thread do so one after the other. */
  lemma Linearizable(n: nat, ms: seq<Move>)
    requires Runs(NewCache(n), ms) && !After(NewCache(n), ms).undefined
    ensures var s := After(NewCache(n), ms);
      && LegalLog(s.log)
      && Replay(s.log).Keys == s.entries.Keys
      && (forall k <- s.entries :: s.entries[k] in s.heap || MidRemove(s, k))
      && (forall k <- s.entries :: s.entries[k] in s.heap ==>
           Replay(s.log)[k] == E.Current(s.heap[s.entries[k]]))
      && (forall r <- s.done :: RecordOk(s.log, r))
      && (forall i, j :: 0 <= i < j < |s.done| && s.done[i].t == s.done[j].t ==>
           s.done[i].ended <= s.done[j].begun)
  {
    NewCacheInv(n);
    InvRun(NewCache(n), ms);
  }

  /** What it means that the log is one the plain map can perform: at each event the map before it has
      the value a get saw, lacks the key a get missed, and has a value under the key of a put. */
  lemma EventsFitTheMap(n: nat, ms: seq<Move>, i: nat)
    requires Runs(NewCache(n), ms) && !After(NewCache(n), ms).undefined && i < |After(NewCache(n), ms).log|
    ensures var log := After(NewCache(n), ms).log; var before := Replay(log[..i]);
      && (log[i].Got? ==> log[i].k in before && before[log[i].k] == log[i].v)
      && (log[i].Missed? ==> log[i].k !in before)
      && (log[i].Put? ==> log[i].k in before && Replay(log[..i + 1]) == before[log[i].k := log[i].v])
      && (log[i].Added? ==> Replay(log[..i + 1]) == before[log[i].k := []])
      && (log[i].Removed? ==> Replay(log[..i + 1]) == before - {log[i].k})
      && (log[i].Got? || log[i].Missed? ==> Replay(log[..i + 1]) == before)
  {
    hide Inv, Runs, After;
    Linearizable(n, ms);
    var log := After(NewCache(n), ms).log;
    LegalAt(log, i);
    assert log[..i + 1][..i] == log[..i];
  }

  /** Gets and sets wait for adds and removes only, not for each other. */
  lemma LockAdmits(s: Cache, t: nat)
    requires t < |s.threads| && s.threads[t].Waiting? && !s.undefined
    ensures Enabled(s, t, Advance) <==>
      s.writer.None? && (s.threads[t].call.Add? || s.threads[t].call.Remove? ==> s.readers == {})
  {
  }

  /** The event that wrote the value a get with this mark saw. */
  predicate Source(log: seq<Event>, k: Key, mark: nat, v: Addresses, i: nat) {
    && i < mark <= |log| && Writes(log[i], k)
    && v == (if log[i].Put? then log[i].v else [])
    && (forall j :: i < j < mark ==> !Writes(log[j], k) && log[j] != Removed(k))
  }

  /** An aligned get returns what the last write before its effect wrote; that write is none older
      than any write that took effect before the get began. */
  lemma GetIsFresh(n: nat, ms: seq<Move>, g: Record) returns (i: nat)
    requires Runs(NewCache(n), ms) && !After(NewCache(n), ms).undefined
    requires g in After(NewCache(n), ms).done && g.call.Get? && g.out.Value? && g.out.aligned
    ensures var log := After(NewCache(n), ms).log;
      && g.begun <= g.mark && Source(log, g.call.k, g.mark, g.out.v, i)
      && (forall j :: 0 <= j < g.begun && Writes(log[j], g.call.k) ==> j <= i)
  {
    Linearizable(n, ms);
    var log := After(NewCache(n), ms).log;
    assert RecordOk(log, g);
    LegalAt(log, g.mark);
    i := LastWrite(log, g.call.k, g.mark);
  }

  /** The gets of one thread never go back: a later aligned get returns the same write or a later one. */
  lemma GetsNeverGoBack(n: nat, ms: seq<Move>, a: nat, b: nat) returns (i: nat, j: nat)
    requires Runs(NewCache(n), ms) && !After(NewCache(n), ms).undefined
    requires var done := After(NewCache(n), ms).done;
      && a < b < |done| && done[a].t == done[b].t && done[a].call == done[b].call && done[a].call.Get?
      && done[a].out.Value? && done[a].out.aligned && done[b].out.Value? && done[b].out.aligned
    ensures var s := After(NewCache(n), ms);
      && Source(s.log, s.done[a].call.k, s.done[a].mark, s.done[a].out.v, i)
      && Source(s.log, s.done[b].call.k, s.done[b].mark, s.done[b].out.v, j)
      && i <= j
  {
    var done := After(NewCache(n), ms).done;
    Linearizable(n, ms);
    assert RecordOk(After(NewCache(n), ms).log, done[a]);
    i := GetIsFresh(n, ms, done[a]);
    j := GetIsFresh(n, ms, done[b]);
  }

  /** No thread uses an entry after it is freed: whoever is inside one is inside a live entry, the
      one the map has under the key of the call. */
  lemma NoUseAfterFree(n: nat, ms: seq<Move>, t: nat)
    requires Runs(NewCache(n), ms) && !After(NewCache(n), ms).undefined
    requires var s := After(NewCache(n), ms); t < |s.threads| && s.threads[t].InEntry?
    ensures var s := After(NewCache(n), ms); var p := s.threads[t];
      p.ref in s.heap && p.call.k in s.entries && s.entries[p.call.k] == p.ref
  {
    NewCacheInv(n);
    InvRun(NewCache(n), ms);
    assert UsesLiveEntry(After(NewCache(n), ms), t);
  }

  /** While adds use new keys the list names exactly the scenes of the map, each once, whenever no
      add or remove is under way. */
  lemma ListMatchesMap(n: nat, ms: seq<Move>)
    requires Runs(NewCache(n), ms) && !After(NewCache(n), ms).undefined
    requires After(NewCache(n), ms).tidy && After(NewCache(n), ms).writer.None?
    ensures Lists(After(NewCache(n), ms).list, After(NewCache(n), ms).entries.Keys)
  {
    NewCacheInv(n);
    InvRun(NewCache(n), ms);
  }

  /** An add keeps list and map in step exactly when its key is new. */
  lemma AddKeepsListExactly(l: seq<Key>, keys: set<Key>, k: Key)
    requires Lists(l, keys)
    ensures Lists(l + [k], keys + {k}) <==> k !in keys
  {
    if k in keys {
      var i :| 0 <= i < |l| && l[i] == k;
      assert (l + [k])[i] == (l + [k])[|l|];
    } else {
      ListAppended(l, keys, k);
    }
  }

  /** The cache does something undefined exactly when a set finds no entry under its key or a remove
      finds its key unlisted; while adds use new keys, both mean that the map lacks the key. */
  lemma UndefinedExactly(s: Cache, t: nat, a: Act)
    requires Inv(s) && Enabled(s, t, a)
    ensures Do(s, t, a).undefined <==>
      && s.threads[t].Inside?
      && (|| (s.threads[t].call.Set? && s.threads[t].call.k !in s.entries)
          || (s.threads[t].call.Remove? && s.threads[t].call.k !in s.list))
    ensures s.tidy && s.threads[t].Inside? && s.threads[t].call.Remove? ==>
      (s.threads[t].call.k in s.list <==> s.threads[t].call.k in s.entries)
  {
    hide E.Do, E.Enabled, E.Current, HeapOk, UseOk, LogOk, MarksOk, DoneOk;
    UpdaterIs(s, t);
  }

  /** A set or a remove that takes its first step under the lock finds its key in the map. */
  predicate UsesPresentKey(s: Cache, t: nat) {
    t < |s.threads| && s.threads[t].Inside? && (s.threads[t].call.Set? || s.threads[t].call.Remove?) ==>
      s.threads[t].call.k in s.entries
  }

  predicate KeysPresent(s: Cache, ms: seq<Move>)
    requires Runs(s, ms)
    decreases |ms|
  {
    ms == [] || (UsesPresentKey(s, ms[0].t) && KeysPresent(Do(s, ms[0].t, ms[0].a), ms[1..]))
  }

  lemma TidyBefore(s: Cache, t: nat, a: Act)
    requires Enabled(s, t, a) && Do(s, t, a).tidy
    ensures s.tidy
  {
    hide E.Do, E.Enabled;
  }

  lemma {:induction false} TidyThroughout(s: Cache, ms: seq<Move>)
    requires Runs(s, ms) && After(s, ms).tidy
    ensures s.tidy
    decreases |ms|
  {
    hide Do, Enabled;
    if ms != [] {
      TidyThroughout(Do(s, ms[0].t, ms[0].a), ms[1..]);
      TidyBefore(s, ms[0].t, ms[0].a);
    }
  }

  lemma StepIsDefined(s: Cache, t: nat, a: Act)
    requires Inv(s) && Enabled(s, t, a) && s.tidy
    ensures Do(s, t, a).undefined <==> !UsesPresentKey(s, t)
  {
    hide Do, Inv;
    UndefinedExactly(s, t, a);
  }

  /** A run in which adds use new keys does nothing undefined exactly when every set and every remove
      uses a key that is in the map when it gets the lock. */
  lemma {:induction false} DefinedExactly(s: Cache, ms: seq<Move>)
    requires Inv(s) && Runs(s, ms) && !s.undefined && After(s, ms).tidy
    ensures !After(s, ms).undefined <==> KeysPresent(s, ms)
    decreases |ms|
  {
    hide Do, Inv, UsesPresentKey, Enabled;
    if ms != [] {
      var s' := Do(s, ms[0].t, ms[0].a);
      TidyThroughout(s, ms);
      StepIsDefined(s, ms[0].t, ms[0].a);
      if s'.undefined {
        UndefinedStops(s', ms[1..]);
      } else {
        InvStep(s, ms[0].t, ms[0].a);
        DefinedExactly(s', ms[1..]);
      }
    }
  }

  // ---------------------------------------------------------------- no deadlock

  /** A thread that holds the readers-writer lock and whose next step is more than a poll. */
  predicate CanProgress(s: Cache, u: nat) {
    && u < |s.threads| && !s.threads[u].Outside? && !s.threads[u].Waiting?
    && Enabled(s, u, Advance)
    && (s.threads[u].InEntry? ==> EP.CanProgress(s.heap[s.threads[u].ref], u))
  }

  /** While any call is unfinished, a thread that holds the lock can make progress, or nobody holds
      the lock and every waiting thread may be given it: no order of granting it can deadlock. */
  lemma NoDeadlock(n: nat, ms: seq<Move>, t: nat) returns (u: nat)
    requires Runs(NewCache(n), ms) && !After(NewCache(n), ms).undefined
    requires var s := After(NewCache(n), ms); t < |s.threads| && !s.threads[t].Outside?
    ensures var s := After(NewCache(n), ms);
      || CanProgress(s, u)
      || (s.writer.None? && s.readers == {} && s.threads[t].Waiting? && Enabled(s, t, Advance))
  {
    NewCacheInv(n);
    InvRun(NewCache(n), ms);
    u := HolderProgresses(After(NewCache(n), ms), t);
  }

  lemma HolderProgresses(s: Cache, t: nat) returns (u: nat)
    requires LockOk(s) && HeapOk(s) && UseOk(s) && !s.undefined
    requires t < |s.threads| && !s.threads[t].Outside?
    ensures
      || CanProgress(s, u)
      || (s.writer.None? && s.readers == {} && s.threads[t].Waiting? && Enabled(s, t, Advance))
  {
    hide EP.Inv;
    u := t;
    if s.threads[t].Waiting? {
      if s.writer.Some? {
        u := s.writer.value;
      } else if s.readers != {} {
        u :| u in s.readers;
      } else {
        return;
      }
    }
    assert !s.threads[u].Waiting? && !s.threads[u].Outside?;
    if s.threads[u].InEntry? {
      u := EntryProgresses(s, u);
    } else {
      InsideEnabled(s, u);
    }
  }

  lemma ProgressIsEnabled(e: E.Entry, u: nat)
    requires EP.CanProgress(e, u)
    ensures E.Enabled(e, u, EntryAct(e, u))
  {
  }

  lemma EntryProgresses(s: Cache, t: nat) returns (u: nat)
    requires LockOk(s) && HeapOk(s) && UseOk(s) && !s.undefined
    requires t < |s.threads| && s.threads[t].InEntry?
    ensures CanProgress(s, u)
  {
    hide EP.Inv, EP.CanProgress, E.Enabled;
    var ref := s.threads[t].ref;
    assert UsesLiveEntry(s, t);
    u := EP.EntryHasNoDeadlock(s.heap[ref], t);
    ProgressIsEnabled(s.heap[ref], u);
    assert s.threads[u].InEntry? && s.threads[u].ref == ref;
    assert WellShaped(s.threads[u]);
  }

  lemma InsideEnabled(s: Cache, u: nat)
    requires LockOk(s) && HeapOk(s) && UseOk(s) && !s.undefined
    requires u < |s.threads| && !s.threads[u].Waiting? && !s.threads[u].Outside? && !s.threads[u].InEntry?
    ensures Enabled(s, u, Advance)
  {
    hide EP.Inv;
    var p := s.threads[u];
    if p.Inside? && p.call.Shared() && p.call.k in s.entries {
      SharedSeesNoRemove(s, u);
      assert s.entries[p.call.k] in s.heap;
    }
  }
}
