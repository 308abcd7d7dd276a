/** What every step of the cache protocol keeps. */
module CacheProofs {
  import opened Wrappers
  import opened PlainMap
  import opened CacheProtocol
  import EP = EntryProofs

  // ---------------------------------------------------------------- the readers-writer lock

  predicate WellShaped(p: Pc) {
    && (p.Pushed? ==> p.call.Add?)
    && (p.Erased? || p.Freed? ==> p.call.Remove?)
    && (p.InEntry? ==> p.call.Shared())
  }

  predicate HoldsShared(p: Pc) {
    (p.Inside? || p.InEntry? || p.Leaving?) && p.call.Shared()
  }

  predicate HoldsExclusive(p: Pc) {
    (p.Inside? || p.Pushed? || p.Erased? || p.Freed? || p.Leaving?) && !p.call.Shared()
  }

  predicate LockOk(s: Cache) {
    && (forall t :: 0 <= t < |s.threads| ==>
         && WellShaped(s.threads[t])
         && (HoldsShared(s.threads[t]) <==> t in s.readers)
         && (HoldsExclusive(s.threads[t]) ==> s.writer == Some(t)))
    && (forall t <- s.readers :: t < |s.threads|)
    && (s.writer.Some? ==>
         s.writer.value < |s.threads| && HoldsExclusive(s.threads[s.writer.value]) && s.readers == {})
  }

  lemma LockKept(s: Cache, t: nat, a: Act)
    requires Enabled(s, t, a) && !s.threads[t].Waiting? && !s.threads[t].Leaving?
    requires WellShaped(s.threads[t]) && !Do(s, t, a).undefined
    ensures Do(s, t, a).readers == s.readers && Do(s, t, a).writer == s.writer
    ensures WellShaped(Do(s, t, a).threads[t])
    ensures HoldsShared(Do(s, t, a).threads[t]) == HoldsShared(s.threads[t])
    ensures HoldsExclusive(Do(s, t, a).threads[t]) == HoldsExclusive(s.threads[t])
  {
  }

  lemma LockStep(s: Cache, t: nat, a: Act)
    requires Enabled(s, t, a) && LockOk(s) && !Do(s, t, a).undefined
    ensures LockOk(Do(s, t, a))
  {
    var s', p := Do(s, t, a), s.threads[t];
    assert WellShaped(p);
    if p.Waiting? {
      assert !HoldsShared(p) && !HoldsExclusive(p);
    } else if p.Leaving? {
      assert HoldsShared(p) || HoldsExclusive(p);
    } else {
      LockKept(s, t, a);
    }
  }

  // ---------------------------------------------------------------- the entries

  /** The one moment at which the map points at a freed entry. */
  predicate MidRemove(s: Cache, k: Key) {
    && s.writer.Some? && s.writer.value < |s.threads|
    && s.threads[s.writer.value].Freed? && s.threads[s.writer.value].call.k == k
  }

  predicate HeapOk(s: Cache) {
    && (forall k <- s.entries :: s.entries[k] < s.nextRef)
    && (forall k <- s.entries :: s.entries[k] in s.heap || MidRemove(s, k))
    && (forall k <- s.entries, j <- s.entries :: s.entries[k] == s.entries[j] ==> k == j)
    && (forall r <- s.heap :: r < s.nextRef && |s.heap[r].threads| == |s.threads| && EP.Inv(s.heap[r]))
  }

  predicate Reading(p: E.Pc) {
    p.ReadStart? || p.ReadLoaded? || p.ReadCopying? || p.ReadCopied? || p.ReadReturned?
  }

  predicate Writing(p: E.Pc, v: Addresses) {
    match p
    case WriteStart(w) => w == v
    case WriteLocked(w) => w == v
    case WriteWaiting(w, _) => w == v
    case WriteChecked(w, _) => w == v
    case WriteMoving(w, _) => w == v
    case WriteMoved(w, _) => w == v
    case WriteFlipping(w, _, _) => w == v
    case WriteFlipped => true
    case WriteReturned => true
    case _ => false
  }

  /** A thread inside an entry uses a live entry, the one the map has under the call's key. */
  predicate UsesLiveEntry(s: Cache, t: nat)
    requires t < |s.threads|
  {
    var p := s.threads[t];
    p.InEntry? ==>
      && p.ref in s.heap && p.call.k in s.entries && s.entries[p.call.k] == p.ref
      && t < |s.heap[p.ref].threads|
      && (p.call.Get? ==> Reading(s.heap[p.ref].threads[t]))
      && (p.call.Set? ==> Writing(s.heap[p.ref].threads[t], p.call.v))
  }

  predicate UseOk(s: Cache) {
    && (forall t :: 0 <= t < |s.threads| ==> UsesLiveEntry(s, t))
    && (forall r <- s.heap, t :: 0 <= t < |s.heap[r].threads| && t < |s.threads| &&
         !s.heap[r].threads[t].Idle?
         ==> s.threads[t].InEntry? && s.threads[t].ref == r)
  }

  lemma SharedSeesNoRemove(s: Cache, t: nat)
    requires LockOk(s) && t < |s.threads| && HoldsShared(s.threads[t])
    ensures forall k :: !MidRemove(s, k)
  {
  }

  lemma HeapEntryStep(s: Cache, s': Cache, r: Ref, t: nat, b: E.Act)
    requires HeapOk(s) && (forall k :: !MidRemove(s, k)) && r in s.heap && E.Enabled(s.heap[r], t, b)
    requires s'.heap == s.heap[r := E.Do(s.heap[r], t, b)]
    requires s'.entries == s.entries && s'.nextRef == s.nextRef && |s'.threads| == |s.threads|
    ensures HeapOk(s')
  {
    hide E.Do;
    EP.InvStep(s.heap[r], t, b);
    EP.OnlyOneThreadMoves(s.heap[r], t, b);
  }

  lemma HeapSame(s: Cache, s': Cache)
    requires HeapOk(s) && forall k :: MidRemove(s, k) ==> MidRemove(s', k)
    requires s'.heap == s.heap && s'.entries == s.entries && s'.nextRef == s.nextRef
    requires |s'.threads| == |s.threads|
    ensures HeapOk(s')
  {
    hide EP.Inv;
  }

  lemma HeapInsert(s: Cache, t: nat, call: Call, begun: nat)
    requires t < |s.threads| && s.threads[t] == Pushed(call, begun) && LockOk(s) && HeapOk(s) && call.Add?
    ensures HeapOk(Insert(s, t, call, begun))
  {
    hide EP.Inv;
    EP.NewEntryInv(|s.threads|);
    assert HoldsExclusive(s.threads[t]);
    assert forall k :: !MidRemove(s, k);
  }

  lemma HeapFree(s: Cache, t: nat, call: Call, begun: nat)
    requires t < |s.threads| && s.threads[t] == Erased(call, begun) && LockOk(s) && HeapOk(s) && call.Remove?
    ensures HeapOk(Free(s, t, call, begun))
  {
    hide EP.Inv;
    assert HoldsExclusive(s.threads[t]);
    assert forall k :: !MidRemove(s, k);
    assert MidRemove(Free(s, t, call, begun), call.k);
  }

  lemma HeapDrop(s: Cache, t: nat, call: Call, s': Cache)
    requires t < |s.threads| && s.threads[t].Freed? && s.threads[t].call == call
    requires LockOk(s) && HeapOk(s) && call.Remove?
    requires s'.heap == s.heap && s'.entries == s.entries - {call.k} && s'.nextRef == s.nextRef
    requires |s'.threads| == |s.threads|
    ensures HeapOk(s')
  {
    hide EP.Inv;
    assert HoldsExclusive(s.threads[t]);
    assert forall k :: MidRemove(s, k) ==> k == call.k;
  }

  lemma MidRemoveKept(s: Cache, t: nat, a: Act)
    requires Enabled(s, t, a) && LockOk(s) && !Do(s, t, a).undefined && !s.threads[t].Freed?
    ensures forall k :: MidRemove(s, k) ==> MidRemove(Do(s, t, a), k)
  {
    var s', p := Do(s, t, a), s.threads[t];
    assert WellShaped(p);
    if p.Leaving? {
      assert HoldsShared(p) || HoldsExclusive(p);
    } else if !p.Waiting? {
      LockKept(s, t, a);
    }
  }

  lemma HeapStepInEntry(s: Cache, t: nat, a: Act)
    requires Enabled(s, t, a) && LockOk(s) && HeapOk(s) && s.threads[t].InEntry?
    ensures HeapOk(Do(s, t, a))
  {
    hide E.Do, EP.Inv;
    var ref := s.threads[t].ref;
    SharedSeesNoRemove(s, t);
    HeapEntryStep(s, Do(s, t, a), ref, t, EntryAct(s.heap[ref], t));
  }

  lemma HeapStepInside(s: Cache, t: nat, a: Act)
    requires Enabled(s, t, a) && LockOk(s) && HeapOk(s) && !Do(s, t, a).undefined && s.threads[t].Inside?
    ensures HeapOk(Do(s, t, a))
  {
    hide E.Do, EP.Inv;
    var s', call := Do(s, t, a), s.threads[t].call;
    if call.Shared() && call.k in s.entries {
      SharedSeesNoRemove(s, t);
      HeapEntryStep(s, s', s.entries[call.k], t, if call.Get? then E.BeginGet else E.BeginSet(call.v));
    } else {
      MidRemoveKept(s, t, a);
      HeapSame(s, s');
    }
  }

  lemma HeapStepUpdate(s: Cache, t: nat, a: Act)
    requires Enabled(s, t, a) && LockOk(s) && HeapOk(s)
    requires s.threads[t].Pushed? || s.threads[t].Erased? || s.threads[t].Freed?
    ensures HeapOk(Do(s, t, a))
  {
    hide EP.Inv;
    assert WellShaped(s.threads[t]);
    match s.threads[t]
    case Pushed(call, begun) => HeapInsert(s, t, call, begun);
    case Erased(call, begun) => HeapFree(s, t, call, begun);
    case Freed(call, _) => HeapDrop(s, t, call, Do(s, t, a));
  }

  lemma HeapStep(s: Cache, t: nat, a: Act)
    requires Enabled(s, t, a) && LockOk(s) && HeapOk(s) && !Do(s, t, a).undefined
    ensures HeapOk(Do(s, t, a))
  {
    hide EP.Inv, E.Do;
    var p := s.threads[t];
    if p.InEntry? {
      HeapStepInEntry(s, t, a);
    } else if p.Inside? {
      HeapStepInside(s, t, a);
    } else if p.Pushed? || p.Erased? || p.Freed? {
      HeapStepUpdate(s, t, a);
    } else {
      MidRemoveKept(s, t, a);
      HeapSame(s, Do(s, t, a));
    }
  }

  /** A get stays a get and a set of v a set of v until the call returns. */
  lemma KeepsReading(e: E.Entry, t: nat)
    requires E.Enabled(e, t, E.Advance) && Reading(e.threads[t])
    ensures Reading(E.Do(e, t, E.Advance).threads[t])
  {
  }

  lemma KeepsWriting(e: E.Entry, t: nat, v: Addresses)
    requires E.Enabled(e, t, E.Advance) && Writing(e.threads[t], v)
    ensures Writing(E.Do(e, t, E.Advance).threads[t], v)
  {
  }

  /** Nobody but t changes in the entries, so every other thread uses the entry it used. */
  lemma OthersKeepUsing(s: Cache, s': Cache, r: Ref, t: nat, b: E.Act)
    requires UseOk(s) && r in s.heap && E.Enabled(s.heap[r], t, b) && t < |s.threads|
    requires s'.heap == s.heap[r := E.Do(s.heap[r], t, b)] && s'.entries == s.entries
    requires |s'.threads| == |s.threads| && s'.threads == s.threads[t := s'.threads[t]]
    requires s.threads[t].InEntry? ==> s.threads[t].ref == r
    requires if E.Do(s.heap[r], t, b).threads[t].Idle?
             then !s'.threads[t].InEntry?
             else s'.threads[t].InEntry? && s'.threads[t].ref == r && UsesLiveEntry(s', t)
    ensures UseOk(s')
  {
    hide E.Do;
    EP.OnlyOneThreadMoves(s.heap[r], t, b);
    forall u | 0 <= u < |s'.threads| ensures UsesLiveEntry(s', u) {
      assert u != t ==> UsesLiveEntry(s, u);
    }
  }

  lemma UseStepInEntry(s: Cache, t: nat, a: Act)
    requires Enabled(s, t, a) && UseOk(s) && s.threads[t].InEntry?
    ensures UseOk(Do(s, t, a))
  {
    var ref := s.threads[t].ref;
    var e := s.heap[ref];
    assert UsesLiveEntry(s, t);
    if EntryAct(e, t) == E.Advance {
      if s.threads[t].call.Get? {
        KeepsReading(e, t);
      } else {
        KeepsWriting(e, t, s.threads[t].call.v);
      }
    }
    hide E.Step;
    EP.OnlyOneThreadMoves(e, t, EntryAct(e, t));
    OthersKeepUsing(s, Do(s, t, a), ref, t, EntryAct(e, t));
  }

  lemma UseSame(s: Cache, s': Cache, t: nat)
    requires UseOk(s) && t < |s.threads| && !s.threads[t].InEntry?
    requires s'.heap == s.heap && s'.entries == s.entries
    requires |s'.threads| == |s.threads| && s'.threads == s.threads[t := s'.threads[t]]
    requires !s'.threads[t].InEntry?
    ensures UseOk(s')
  {
    forall u | 0 <= u < |s'.threads| ensures UsesLiveEntry(s', u) {
      assert UsesLiveEntry(s, u);
    }
  }

  lemma UseStepInside(s: Cache, t: nat, a: Act)
    requires Enabled(s, t, a) && UseOk(s) && HeapOk(s) && !Do(s, t, a).undefined && s.threads[t].Inside?
    ensures UseOk(Do(s, t, a))
  {
    hide E.Step, EP.Inv;
    var s', call := Do(s, t, a), s.threads[t].call;
    if call.Shared() && call.k in s.entries {
      var r, b := s.entries[call.k], if call.Get? then E.BeginGet else E.BeginSet(call.v);
      EP.OnlyOneThreadMoves(s.heap[r], t, b);
      OthersKeepUsing(s, s', r, t, b);
    } else {
      UseSame(s, s', t);
    }
  }

  /** Under the exclusive lock no thread is inside an entry. */
  lemma ExclusiveSeesNoUse(s: Cache, t: nat)
    requires LockOk(s) && t < |s.threads| && HoldsExclusive(s.threads[t])
    ensures forall u :: 0 <= u < |s.threads| ==> !s.threads[u].InEntry?
  {
  }

  predicate Unused(e: E.Entry) {
    forall u :: 0 <= u < |e.threads| ==> e.threads[u].Idle?
  }

  lemma NewIsUnused(n: nat)
    ensures Unused(E.NewEntry(n))
  {
  }

  /** When nobody is inside an entry, entries may go and unused ones come. */
  lemma UnusedIsOk(s: Cache, s': Cache)
    requires UseOk(s) && |s'.threads| == |s.threads|
    requires forall u :: 0 <= u < |s.threads| ==> !s.threads[u].InEntry? && !s'.threads[u].InEntry?
    requires forall r <- s'.heap :: Unused(s'.heap[r]) || (r in s.heap && s'.heap[r] == s.heap[r])
    ensures UseOk(s')
  {
  }

  lemma UseStepUpdate(s: Cache, t: nat, a: Act)
    requires Enabled(s, t, a) && LockOk(s) && HeapOk(s) && UseOk(s)
    requires s.threads[t].Pushed? || s.threads[t].Erased? || s.threads[t].Freed?
    ensures UseOk(Do(s, t, a))
  {
    hide EP.Inv, E.Do, E.Enabled, E.Current, E.NewEntry, HeapOk, UseOk;
    assert WellShaped(s.threads[t]);
    ExclusiveSeesNoUse(s, t);
    NewIsUnused(|s.threads|);
    UnusedIsOk(s, Do(s, t, a));
  }

  lemma UseStep(s: Cache, t: nat, a: Act)
    requires Enabled(s, t, a) && LockOk(s) && HeapOk(s) && UseOk(s) && !Do(s, t, a).undefined
    ensures UseOk(Do(s, t, a))
  {
    hide EP.Inv, E.Do;
    var p := s.threads[t];
    if p.InEntry? {
      UseStepInEntry(s, t, a);
    } else if p.Inside? {
      UseStepInside(s, t, a);
    } else if p.Pushed? || p.Erased? || p.Freed? {
      UseStepUpdate(s, t, a);
    } else {
      UseSame(s, Do(s, t, a), t);
    }
  }
}
