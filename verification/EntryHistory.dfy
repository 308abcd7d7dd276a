/**
 What the history variables of the entry protocol say of the steps of a run: `seen` and `at` are the
 numbers of flips made before the reader's id load and before its counter increment, `calm` is
 whether a writer was past its check at that increment, and the history lists what was flipped to.
 */
module EntryHistory {
  import opened Wrappers
  import opened EntryProtocol
  import opened EntryProofs

  function FlipOf(e: Entry, m: Move): nat
    requires m.t < |e.threads|
  {
    if m.a.Advance? && e.threads[m.t].WriteFlipping? then 1 else 0
  }

  /** The flips among the steps of a run. */
  function FlipsIn(e: Entry, ms: seq<Move>): nat
    requires Runs(e, ms)
    decreases |ms|
  {
    if ms == [] then 0 else FlipOf(e, ms[0]) + FlipsIn(Do(e, ms[0].t, ms[0].a), ms[1..])
  }

  /** The flips before a reader's latest load and increment, and whether no writer was past its check
      on the loaded buffer at the increment. */
  datatype Trace = Trace(flips: nat, load: nat, increment: nat, calm: bool)

  function Traced(e: Entry, m: Move, r: nat, tr: Trace): Trace
    requires Enabled(e, m.t, m.a)
  {
    var p := e.threads[m.t];
    if m.t == r && m.a.Advance? && p.ReadStart? then tr.(load := tr.flips)
    else if m.t == r && m.a.Advance? && p.ReadLoaded? then
      tr.(increment := tr.flips,
          calm := forall u :: 0 <= u < |e.threads| ==> !PastCheck(e.threads[u], p.id))
    else tr.(flips := tr.flips + FlipOf(e, m))
  }

  function TraceOf(e: Entry, ms: seq<Move>, r: nat, tr: Trace): Trace
    requires Runs(e, ms)
    decreases |ms|
  {
    if ms == [] then tr else TraceOf(Do(e, ms[0].t, ms[0].a), ms[1..], r, Traced(e, ms[0], r, tr))
  }

  predicate Agrees(e: Entry, p: Pc, tr: Trace) {
    && e.hist != [] && |e.hist| == tr.flips + 1
    && match p
       case ReadLoaded(_, seen) => seen == tr.load
       case ReadCopying(_, _, seen, at, calm) => seen == tr.load && at == tr.increment && calm == tr.calm
       case ReadCopied(_, _, seen, at, calm) => seen == tr.load && at == tr.increment && calm == tr.calm
       case ReadReturned(_, seen, at, calm) => seen == tr.load && at == tr.increment && calm == tr.calm
       case _ => true
  }

  lemma AgreesStep(e: Entry, m: Move, r: nat, tr: Trace)
    requires Enabled(e, m.t, m.a) && r < |e.threads| && Agrees(e, e.threads[r], tr)
    ensures var f := Do(e, m.t, m.a); |f.threads| == |e.threads| && Agrees(f, f.threads[r], Traced(e, m, r, tr))
  {
    OnlyOneThreadMoves(e, m.t, m.a);
  }

  lemma {:induction false} AgreesRun(e: Entry, ms: seq<Move>, r: nat, tr: Trace)
    requires Runs(e, ms) && r < |e.threads| && Agrees(e, e.threads[r], tr)
    ensures var f := After(e, ms); r < |f.threads| && Agrees(f, f.threads[r], TraceOf(e, ms, r, tr))
    decreases |ms|
  {
    hide Do, Enabled, Agrees, Traced;
    if ms != [] {
      AgreesStep(e, ms[0], r, tr);
      AgreesRun(Do(e, ms[0].t, ms[0].a), ms[1..], r, Traced(e, ms[0], r, tr));
    }
  }

  lemma {:induction false} TraceCountsFlips(e: Entry, ms: seq<Move>, r: nat, tr: Trace)
    requires Runs(e, ms)
    ensures TraceOf(e, ms, r, tr).flips == tr.flips + FlipsIn(e, ms)
    decreases |ms|
  {
    hide Do;
    if ms != [] {
      TraceCountsFlips(Do(e, ms[0].t, ms[0].a), ms[1..], r, Traced(e, ms[0], r, tr));
    }
  }

  const START := Trace(0, 0, 0, false)

  /** In every run the history variables of a finished get are what its steps and those of the others
      make them, and the history has one vector more than there were flips. */
  lemma HistoryIsHistory(n: nat, ms: seq<Move>, r: nat)
    requires Runs(NewEntry(n), ms) && r < n
    ensures var f, tr := After(NewEntry(n), ms), TraceOf(NewEntry(n), ms, r, START);
      && r < |f.threads| && |f.hist| == FlipsIn(NewEntry(n), ms) + 1
      && (f.threads[r].ReadReturned? ==>
           f.threads[r].seen == tr.load && f.threads[r].at == tr.increment && f.threads[r].calm == tr.calm)
  {
    hide Runs, After, TraceOf, FlipsIn;
    AgreesRun(NewEntry(n), ms, r, START);
    TraceCountsFlips(NewEntry(n), ms, r, START);
  }

  // ---------------------------------------------------------------- the half-way point of a move

  /** Between the two halves of a move the buffer is empty. */
  predicate MovesFromEmpty(e: Entry) {
    forall t :: 0 <= t < |e.threads| && e.threads[t].WriteMoving? ==> e.bufs.At(e.threads[t].target) == []
  }

  lemma MoveStep(e: Entry, t: nat, a: Act)
    requires Inv(e) && Enabled(e, t, a) && MovesFromEmpty(e)
    ensures MovesFromEmpty(Do(e, t, a))
  {
    var f := Do(e, t, a);
    OnlyOneThreadMoves(e, t, a);
    assert WriterOk(e, e.threads[t]);
    BuffersMove(e, t, a);
    forall u | 0 <= u < |f.threads| && f.threads[u].WriteMoving?
      ensures f.bufs.At(f.threads[u].target) == []
    {
      if u != t {
        assert HoldsGuard(e.threads[u]) && !HoldsGuard(e.threads[t]);
      }
    }
  }

  lemma {:induction false} MoveRun(e: Entry, ms: seq<Move>)
    requires Inv(e) && MovesFromEmpty(e) && Runs(e, ms)
    ensures MovesFromEmpty(After(e, ms))
    decreases |ms|
  {
    hide Inv, Do, Enabled, MovesFromEmpty;
    if ms != [] {
      InvStep(e, ms[0].t, ms[0].a);
      MoveStep(e, ms[0].t, ms[0].a);
      MoveRun(Do(e, ms[0].t, ms[0].a), ms[1..]);
    }
  }

  /** In every run a buffer that is being moved into is empty at that moment: a read of it then sees
      neither the old nor the new vector. */
  lemma MovingBufferIsEmpty(n: nat, ms: seq<Move>, w: nat)
    requires Runs(NewEntry(n), ms)
    requires var e := After(NewEntry(n), ms); w < |e.threads| && e.threads[w].WriteMoving?
    ensures var e := After(NewEntry(n), ms); e.bufs.At(e.threads[w].target) == []
  {
    hide Inv, Runs, After;
    NewEntryInv(n);
    MoveRun(NewEntry(n), ms);
  }

  // ---------------------------------------------------------------- who can be kept waiting

  /** A thread inside a call can take a step, except that a set that has not begun waits for the mutex;
      a thread outside can begin either call. */
  lemma OnlyTheMutexBlocks(e: Entry, t: nat, v: Addresses)
    requires t < |e.threads|
    ensures e.threads[t].Idle? <==> Enabled(e, t, BeginGet)
    ensures e.threads[t].Idle? <==> Enabled(e, t, BeginSet(v))
    ensures e.threads[t].ReadReturned? || e.threads[t].WriteReturned? <==> Enabled(e, t, Finish)
    ensures Enabled(e, t, Advance) <==>
      && !e.threads[t].Idle? && !e.threads[t].ReadReturned? && !e.threads[t].WriteReturned?
      && (e.threads[t].WriteStart? ==> e.guard == None)
  {
  }

  // ---------------------------------------------------------------- a get that runs alone

  lemma {:induction false} CopyAlone(e: Entry, r: nat) returns (ms: seq<Move>)
    requires r < |e.threads| && e.threads[r].ReadCopying?
    requires e.threads[r].acc <= e.bufs.At(e.threads[r].id)
    ensures Runs(e, ms) && forall m <- ms :: m.t == r
    ensures var p, f := e.threads[r], After(e, ms);
      && |f.threads| == |e.threads| && f.hist == e.hist
      && f.threads[r] == ReadReturned(e.bufs.At(p.id), p.seen, p.at, p.calm)
    decreases |e.bufs.At(e.threads[r].id)| - |e.threads[r].acc|
  {
    var p, b := e.threads[r], e.bufs.At(e.threads[r].id);
    var f := Do(e, r, Advance);
    if |p.acc| < |b| {
      var rest := CopyAlone(f, r);
      ms := [Move(r, Advance)] + rest;
      assert ms[1..] == rest;
    } else {
      ms := [Move(r, Advance), Move(r, Advance)];
      assert ms[1..] == [Move(r, Advance)] && [Move(r, Advance)][1..] == [];
      assert p.acc == b;
      assert Runs(Do(f, r, Advance), []) && After(Do(f, r, Advance), []) == Do(f, r, Advance);
    }
  }

  /** From every state that a run can reach, a get that no other step interrupts returns the vector
      that is current, aligned and calm. */
  lemma GetAlone(e: Entry, r: nat) returns (ms: seq<Move>)
    requires Inv(e) && r < |e.threads| && e.threads[r].Idle?
    ensures Runs(e, ms) && forall m <- ms :: m.t == r
    ensures var f := After(e, ms);
      && |f.threads| == |e.threads| && f.threads[r].ReadReturned? && f.threads[r].acc == Current(e)
      && f.threads[r].seen == f.threads[r].at && f.threads[r].calm
  {
    hide Inv, Runs, After;
    var a := Do(e, r, BeginGet);
    var b := Do(a, r, Advance);
    CurrentIsCalm(e, r);
    var c := Do(b, r, Advance);
    assert c.threads[r] == ReadCopying(e.current, [], Flips(e), Flips(e), true) && c.bufs == e.bufs;
    var rest := CopyAlone(c, r);
    RunsFirst(b, Move(r, Advance), rest);
    RunsFirst(a, Move(r, Advance), [Move(r, Advance)] + rest);
    RunsFirst(e, Move(r, BeginGet), [Move(r, Advance)] + ([Move(r, Advance)] + rest));
    ms := [Move(r, BeginGet)] + ([Move(r, Advance)] + ([Move(r, Advance)] + rest));
  }

  lemma RunsFirst(e: Entry, m: Move, rest: seq<Move>)
    requires Enabled(e, m.t, m.a) && Runs(Do(e, m.t, m.a), rest)
    ensures Runs(e, [m] + rest) && After(e, [m] + rest) == After(Do(e, m.t, m.a), rest)
  {
    hide Do, Enabled;
    assert ([m] + rest)[1..] == rest;
  }

  /** No writer is past its check on the buffer that is served. */
  lemma CurrentIsCalm(e: Entry, r: nat)
    requires Inv(e) && r < |e.threads| && e.threads[r].Idle?
    ensures 0 <= e.current <= 1
    ensures Calm(Do(Do(e, r, BeginGet), r, Advance), e.current)
  {
    forall u | 0 <= u < |e.threads|
      ensures !PastCheck(e.threads[u], e.current)
    {
      assert WriterOk(e, e.threads[u]);
    }
  }
}
