/** Which entries are alive: those of the map and no others, while adds use new keys. */
module CacheMemory {
  import opened CacheProtocol
  import opened CacheProofs
  import opened CacheLinear
  import opened CacheTheorems

  /** An entry of the map that is not half-way through its removal. */
  ghost predicate Owned(s: Cache, r: Ref) {
    exists k :: k in s.entries && s.entries[k] == r && !MidRemove(s, k)
  }

  /** The heap holds the owned entries, and no other. */
  ghost predicate NoLeak(s: Cache) {
    forall r :: r in s.heap <==> Owned(s, r)
  }

  // ---------------------------------------------------------------- one step

  lemma SameOwned(s: Cache, s': Cache)
    requires s'.entries == s.entries && s'.heap.Keys == s.heap.Keys && NoLeak(s)
    requires forall k :: MidRemove(s', k) <==> MidRemove(s, k)
    ensures NoLeak(s')
  {
    forall r
      ensures r in s'.heap <==> Owned(s', r)
    {
      assert r in s.heap <==> Owned(s, r);
      if Owned(s, r) {
        var k :| k in s.entries && s.entries[k] == r && !MidRemove(s, k);
        assert k in s'.entries && s'.entries[k] == r && !MidRemove(s', k);
      }
      if Owned(s', r) {
        var k :| k in s'.entries && s'.entries[k] == r && !MidRemove(s', k);
        assert k in s.entries && s.entries[k] == r && !MidRemove(s, k);
      }
    }
  }

  /** Only an add, the freeing and the end of a remove change which entries there are. */
  lemma MapUntouched(s: Cache, t: nat, a: Act)
    requires Enabled(s, t, a) && !s.threads[t].Pushed? && !s.threads[t].Erased? && !s.threads[t].Freed?
    ensures Do(s, t, a).entries == s.entries && Do(s, t, a).heap.Keys == s.heap.Keys
    ensures !Do(s, t, a).threads[t].Freed?
  {
    hide Do, E.Do, E.Enabled, EntryAct, EP.Inv;
    if s.threads[t].InEntry? {
      HeapInEntry(s, t, a);
    } else if s.threads[t].Inside? && s.threads[t].call.Shared() && s.threads[t].call.k in s.entries {
      var b := if s.threads[t].call.Get? then E.BeginGet else E.BeginSet(s.threads[t].call.v);
      BeginsAlike(s.heap[s.entries[s.threads[t].call.k]], t, b);
      HeapInside(s, t, a, b);
    } else {
      HeapElsewhere(s, t, a);
    }
    EntriesUntouched(s, t, a);
  }

  lemma EntriesUntouched(s: Cache, t: nat, a: Act)
    requires Enabled(s, t, a) && !s.threads[t].Pushed? && !s.threads[t].Erased? && !s.threads[t].Freed?
    ensures Do(s, t, a).entries == s.entries && !Do(s, t, a).threads[t].Freed? && Do(s, t, a).tidy == s.tidy
  {
    hide Do, E.Do, E.Enabled, E.Current;
    if s.threads[t].Inside? {
      EntriesUntouchedInside(s, t, a);
    } else {
      ListUntouched(s, t, a);
    }
  }

  lemma EntriesUntouchedInside(s: Cache, t: nat, a: Act)
    requires Enabled(s, t, a) && s.threads[t].Inside?
    ensures Do(s, t, a).entries == s.entries && !Do(s, t, a).threads[t].Freed? && Do(s, t, a).tidy == s.tidy
  {
    hide E.Do, E.Enabled, E.Current, InStage, KeepsLock;
  }

  lemma MidRemoveUntouched(s: Cache, t: nat, a: Act)
    requires Enabled(s, t, a) && LockOk(s) && LockOk(Do(s, t, a))
    requires !s.threads[t].Freed? && !Do(s, t, a).threads[t].Freed?
    ensures forall k :: MidRemove(Do(s, t, a), k) <==> MidRemove(s, k)
  {
    hide Do, Enabled;
    var s' := Do(s, t, a);
    ThreadIn(s, t, a);
    forall k
      ensures MidRemove(s', k) <==> MidRemove(s, k)
    {
      if MidRemove(s, k) {
        var w := s.writer.value;
        assert HoldsExclusive(s'.threads[w]);
      }
      if MidRemove(s', k) {
        var w := s'.writer.value;
        assert HoldsExclusive(s.threads[w]);
      }
    }
  }

  lemma ThreadIn(s: Cache, t: nat, a: Act)
    requires Enabled(s, t, a)
    ensures t < |s.threads|
  {
    hide E.Enabled;
  }

  lemma InsertStep(s: Cache, t: nat, a: Act)
    requires Enabled(s, t, a) && LockOk(s) && HeapOk(s) && NoLeak(s) && s.threads[t].Pushed?
    ensures NoLeak(Do(s, t, a)) <==> s.threads[t].call.k !in s.entries
  {
    hide EP.Inv, E.NewEntry, E.Do, E.Enabled, HeapOk;
    var s', k := Do(s, t, a), s.threads[t].call.k;
    assert WellShaped(s.threads[t]);
    assert forall j :: !MidRemove(s, j) && !MidRemove(s', j);
    RefsAreOld(s);
    if k in s.entries {
      var r := s.entries[k];
      assert Owned(s, r) && r in s'.heap;
      assert !Owned(s', r);
    } else {
      forall r
        ensures r in s'.heap <==> Owned(s', r)
      {
        assert r in s.heap <==> Owned(s, r);
        if r == s.nextRef {
          assert k in s'.entries && s'.entries[k] == r;
        } else {
          assert forall j :: j in s.entries && s.entries[j] == r <==> j in s'.entries && s'.entries[j] == r;
          assert Owned(s', r) <==> Owned(s, r);
        }
      }
    }
  }

  lemma RefsAreOld(s: Cache)
    requires HeapOk(s)
    ensures forall k <- s.entries :: s.entries[k] < s.nextRef
    ensures forall r <- s.heap :: r < s.nextRef
    ensures forall k <- s.entries, j <- s.entries :: s.entries[k] == s.entries[j] ==> k == j
  {
    hide EP.Inv;
  }

  lemma FreeStep(s: Cache, t: nat, a: Act)
    requires Enabled(s, t, a) && LockOk(s) && HeapOk(s) && NoLeak(s) && s.threads[t].Erased?
    ensures NoLeak(Do(s, t, a))
  {
    hide EP.Inv, E.Do, E.Enabled, HeapOk;
    var s', k := Do(s, t, a), s.threads[t].call.k;
    assert WellShaped(s.threads[t]);
    assert forall j :: !MidRemove(s, j) && (MidRemove(s', j) <==> j == k);
    RefsAreOld(s);
    forall r
      ensures r in s'.heap <==> Owned(s', r)
    {
      assert r in s.heap <==> Owned(s, r);
      if r in s'.heap {
        var j :| j in s.entries && s.entries[j] == r && !MidRemove(s, j);
        assert j != k && j in s'.entries && s'.entries[j] == r && !MidRemove(s', j);
      }
      if Owned(s', r) {
        var j :| j in s'.entries && s'.entries[j] == r && !MidRemove(s', j);
        assert j in s.entries && s.entries[j] == r && !MidRemove(s, j);
      }
    }
  }

  lemma RemovedStep(s: Cache, t: nat, a: Act)
    requires Enabled(s, t, a) && LockOk(s) && HeapOk(s) && NoLeak(s) && s.threads[t].Freed?
    ensures NoLeak(Do(s, t, a))
  {
    hide EP.Inv, E.Do, E.Enabled, HeapOk;
    var s', k := Do(s, t, a), s.threads[t].call.k;
    assert WellShaped(s.threads[t]);
    assert forall j :: !MidRemove(s', j) && (MidRemove(s, j) <==> j == k);
    forall r
      ensures r in s'.heap <==> Owned(s', r)
    {
      assert r in s.heap <==> Owned(s, r);
      if r in s'.heap {
        var j :| j in s.entries && s.entries[j] == r && !MidRemove(s, j);
        assert j in s'.entries && s'.entries[j] == r;
      }
      if Owned(s', r) {
        var j :| j in s'.entries && s'.entries[j] == r && !MidRemove(s', j);
        assert j in s.entries && s.entries[j] == r && !MidRemove(s, j);
      }
    }
  }

  /** A step leaks an entry exactly when it is an add of a key that the map has. */
  lemma LeaksExactly(s: Cache, t: nat, a: Act)
    requires Enabled(s, t, a) && Inv(s) && NoLeak(s) && !Do(s, t, a).undefined
    ensures NoLeak(Do(s, t, a)) <==> !(s.threads[t].Pushed? && s.threads[t].call.k in s.entries)
  {
    hide Do, HeapOk, UseOk, LogOk, MarksOk, DoneOk, ListOk, LockOk, NoLeak, E.Enabled;
    if s.threads[t].Pushed? {
      InsertStep(s, t, a);
    } else if s.threads[t].Erased? {
      FreeStep(s, t, a);
    } else if s.threads[t].Freed? {
      RemovedStep(s, t, a);
    } else {
      MapUntouched(s, t, a);
      LockStep(s, t, a);
      MidRemoveUntouched(s, t, a);
      SameOwned(s, Do(s, t, a));
    }
  }

  // ---------------------------------------------------------------- runs

  /** No step adds a key that the map has. */
  predicate AddsNewKeys(s: Cache, ms: seq<Move>)
    requires Runs(s, ms)
    decreases |ms|
  {
    ms == [] ||
    (!(s.threads[ms[0].t].Pushed? && s.threads[ms[0].t].call.k in s.entries) &&
     AddsNewKeys(Do(s, ms[0].t, ms[0].a), ms[1..]))
  }

  lemma TidyStep(s: Cache, t: nat, a: Act)
    requires Enabled(s, t, a)
    ensures Do(s, t, a).tidy <==> s.tidy && !(s.threads[t].Pushed? && s.threads[t].call.k in s.entries)
  {
    hide E.Do, E.Enabled, E.Current, E.NewEntry, Enter, StepInEntry;
    if !s.threads[t].Pushed? && !s.threads[t].Erased? && !s.threads[t].Freed? {
      EntriesUntouched(s, t, a);
    }
  }

  /** The history variable `tidy` says that every add of the run used a new key. */
  lemma {:induction false} TidyExactly(s: Cache, ms: seq<Move>)
    requires Runs(s, ms)
    ensures After(s, ms).tidy <==> s.tidy && AddsNewKeys(s, ms)
    decreases |ms|
  {
    hide Do, E.Enabled;
    if ms != [] {
      TidyStep(s, ms[0].t, ms[0].a);
      TidyExactly(Do(s, ms[0].t, ms[0].a), ms[1..]);
    }
  }

  lemma {:induction false} NoLeakRun(s: Cache, ms: seq<Move>)
    requires Inv(s) && NoLeak(s) && Runs(s, ms) && !s.undefined && !After(s, ms).undefined && AddsNewKeys(s, ms)
    ensures NoLeak(After(s, ms))
    decreases |ms|
  {
    hide Do, Inv, NoLeak, E.Enabled;
    if ms != [] {
      var s' := Do(s, ms[0].t, ms[0].a);
      if s'.undefined {
        UndefinedStops(s', ms[1..]);
      } else {
        InvStep(s, ms[0].t, ms[0].a);
        LeaksExactly(s, ms[0].t, ms[0].a);
        NoLeakRun(s', ms[1..]);
      }
    }
  }

  lemma NothingYet(n: nat)
    ensures NoLeak(NewCache(n)) && NewCache(n).tidy
  {
  }

  /** After every run whose adds use new keys, an entry is alive exactly when the map points at it and
      it is not half-way through its removal: none is leaked and none is freed too early. */
  lemma HeapIsTheMap(n: nat, ms: seq<Move>)
    requires Runs(NewCache(n), ms) && !After(NewCache(n), ms).undefined && AddsNewKeys(NewCache(n), ms)
    ensures var s := After(NewCache(n), ms);
      forall r :: r in s.heap <==> exists k :: k in s.entries && s.entries[k] == r && !MidRemove(s, k)
  {
    hide Inv, Runs, After, Do, AddsNewKeys;
    NewCacheInv(n);
    NothingYet(n);
    NoLeakRun(NewCache(n), ms);
    var s := After(NewCache(n), ms);
    forall r
      ensures r in s.heap <==> exists k :: k in s.entries && s.entries[k] == r && !MidRemove(s, k)
    {
      assert r in s.heap <==> Owned(s, r);
    }
  }
}
