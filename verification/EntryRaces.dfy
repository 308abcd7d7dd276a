/** Calls that run alone, and the schedule on which a reader's load and increment straddle a flip. */
module EntryRaces {
  import opened Wrappers
  import opened EntryProtocol
  import opened EntryProofs

  lemma {:induction false} RunsConcat(e: Entry, ms: seq<Move>, more: seq<Move>)
    requires Runs(e, ms) && Runs(After(e, ms), more)
    ensures Runs(e, ms + more) && After(e, ms + more) == After(After(e, ms), more)
    decreases |ms|
  {
    if ms == [] {
      assert ms + more == more;
    } else {
      assert (ms + more)[1..] == ms[1..] + more;
      RunsConcat(Do(e, ms[0].t, ms[0].a), ms[1..], more);
    }
  }

  lemma RunsMore(e: Entry, ms: seq<Move>, t: nat, a: Act) returns (longer: seq<Move>)
    requires Runs(e, ms) && Enabled(After(e, ms), t, a)
    ensures longer == ms + [Move(t, a)]
    ensures Runs(e, longer) && After(e, longer) == Do(After(e, ms), t, a)
  {
    longer := ms + [Move(t, a)];
    var f := After(e, ms);
    assert [Move(t, a)][1..] == [];
    assert Runs(Do(f, t, a), []);
    assert Runs(f, [Move(t, a)]) && After(f, [Move(t, a)]) == Do(f, t, a);
    RunsConcat(e, ms, [Move(t, a)]);
  }

  /** The thread is idle, the mutex free and no reader is inside the spare buffer. */
  predicate SetRunsFree(e: Entry, t: nat) {
    && t < |e.threads| && e.threads[t].Idle? && e.guard.None?
    && 0 <= e.current <= 1 && e.readers.At(1 - e.current) <= 0
  }

  // The stretches of a set: up to its check, the move, and the flip with the return.

  lemma SetUpToCheck(e: Entry, w: nat, v: Addresses) returns (ms: seq<Move>)
    requires SetRunsFree(e, w)
    ensures Runs(e, ms) && forall m <- ms :: m.t == w
    ensures After(e, ms) == Goto(e.(guard := Some(w)), w, WriteChecked(v, 1 - e.current))
  {
    ms := [];
    ms := RunsMore(e, ms, w, BeginSet(v));
    ms := RunsMore(e, ms, w, Advance);
    ms := RunsMore(e, ms, w, Advance);
    ms := RunsMore(e, ms, w, Advance);
  }

  lemma MoveVector(e: Entry, w: nat) returns (ms: seq<Move>)
    requires w < |e.threads| && e.threads[w].WriteChecked?
    ensures var p := e.threads[w];
      && Runs(e, ms) && (forall m <- ms :: m.t == w)
      && After(e, ms) == Goto(e.(bufs := e.bufs.With(p.target, p.v)), w, WriteMoved(p.v, p.target))
  {
    ms := [];
    ms := RunsMore(e, ms, w, Advance);
    ms := RunsMore(e, ms, w, Advance);
  }

  lemma Publish(e: Entry, w: nat) returns (ms: seq<Move>)
    requires w < |e.threads| && e.threads[w].WriteMoved? && 0 <= e.current <= 1
    requires e.threads[w].target == 1 - e.current && e.guard == Some(w)
    ensures Runs(e, ms) && forall m <- ms :: m.t == w
    ensures After(e, ms) ==
      Goto(e.(guard := None, current := 1 - e.current, hist := e.hist + [e.bufs.At(1 - e.current)]), w, Idle)
  {
    ms := [];
    ms := RunsMore(e, ms, w, Advance);
    ms := RunsMore(e, ms, w, Advance);
    assert After(e, ms).threads[w] == WriteFlipped;
    ms := RunsMore(e, ms, w, Advance);
    ms := RunsMore(e, ms, w, Finish);
  }

  /** A set that no other step interrupts publishes its vector, keeps the one published before it
      in the other buffer and leaves every thread where it was. */
  lemma SetAlone(e: Entry, t: nat, v: Addresses) returns (ms: seq<Move>)
    requires SetRunsFree(e, t)
    ensures Runs(e, ms) && forall m <- ms :: m.t == t
    ensures After(e, ms) ==
      e.(bufs := e.bufs.With(1 - e.current, v), current := 1 - e.current, hist := e.hist + [v])
  {
    ms := SetUpToCheck(e, t, v);
    var part := MoveVector(After(e, ms), t);
    RunsConcat(e, ms, part);
    ms := ms + part;
    part := Publish(After(e, ms), t);
    RunsConcat(e, ms, part);
    ms := ms + part;
    assert After(e, ms).threads == e.threads;
  }

  // The stretches of a torn read: a writer up to its check, a reader's increment and some of its
  // copying, the writer's move, the rest of the copying and the return.

  lemma Increment(e: Entry, r: nat) returns (ms: seq<Move>)
    requires r < |e.threads| && e.threads[r].ReadLoaded?
    ensures var id := e.threads[r].id;
      && Runs(e, ms)
      && After(e, ms) == Goto(e.(readers := e.readers.With(id, e.readers.At(id) + 1)), r,
           ReadCopying(id, [], e.threads[r].seen, Flips(e), Calm(e, id)))
  {
    ms := [];
    ms := RunsMore(e, ms, r, Advance);
  }

  /** A reader that no other step interrupts copies on up to any length of the buffer. */
  lemma {:induction false} CopyUpTo(e: Entry, r: nat, n: nat) returns (ms: seq<Move>)
    requires r < |e.threads| && e.threads[r].ReadCopying?
    requires |e.threads[r].acc| <= n <= |e.bufs.At(e.threads[r].id)|
    ensures var p := e.threads[r];
      && Runs(e, ms)
      && After(e, ms) == Goto(e, r,
           ReadCopying(p.id, p.acc + e.bufs.At(p.id)[|p.acc|..n], p.seen, p.at, p.calm))
    decreases n - |e.threads[r].acc|
  {
    var p := e.threads[r];
    var b := e.bufs.At(p.id);
    ms := [];
    if |p.acc| == n {
      assert p.acc + b[n..n] == p.acc;
      assert e.threads[r := p] == e.threads;
    } else {
      ms := RunsMore(e, ms, r, Advance);
      var f := After(e, ms);
      var part := CopyUpTo(f, r, n);
      RunsConcat(e, ms, part);
      ms := ms + part;
      assert (p.acc + [b[|p.acc|]]) + b[|p.acc| + 1..n] == p.acc + b[|p.acc|..n];
    }
  }

  lemma CopyRest(e: Entry, r: nat) returns (ms: seq<Move>)
    requires r < |e.threads| && e.threads[r].ReadCopying?
    requires |e.threads[r].acc| <= |e.bufs.At(e.threads[r].id)|
    ensures var p := e.threads[r]; var b := e.bufs.At(p.id);
      && Runs(e, ms)
      && After(e, ms) == Goto(e.(readers := e.readers.With(p.id, e.readers.At(p.id) - 1)), r,
           ReadReturned(p.acc + b[|p.acc|..], p.seen, p.at, p.calm))
  {
    var p := e.threads[r];
    var b := e.bufs.At(p.id);
    ms := CopyUpTo(e, r, |b|);
    assert b[|p.acc|..|b|] == b[|p.acc|..];
    ms := RunsMore(e, ms, r, Advance);
    ms := RunsMore(e, ms, r, Advance);
  }

  /** The reader has copied k addresses of the spare buffer and the writer is past its check on it. */
  lemma BeforeMove(e: Entry, r: nat, w: nat, v: Addresses, k: nat) returns (ms: seq<Move>)
    requires SetRunsFree(e, w) && r < |e.threads| && r != w
    requires e.threads[r].ReadLoaded? && e.threads[r].id == 1 - e.current
    requires k <= |e.bufs.At(1 - e.current)|
    ensures Runs(e, ms)
    ensures var f := After(e, ms);
      && |f.threads| == |e.threads| && f.bufs == e.bufs && f.hist == e.hist
      && f.threads[w] == WriteChecked(v, 1 - e.current) && f.threads[r].ReadCopying?
      && f.threads[r].id == 1 - e.current && f.threads[r].acc == e.bufs.At(1 - e.current)[..k]
  {
    var b := e.bufs.At(1 - e.current);
    ms := SetUpToCheck(e, w, v);
    var part := Increment(After(e, ms), r);
    RunsConcat(e, ms, part);
    ms := ms + part;
    part := CopyUpTo(After(e, ms), r, k);
    RunsConcat(e, ms, part);
    ms := ms + part;
    assert [] + b[0..k] == b[..k];
  }

  /** A reader that has loaded the id of a buffer which is now the spare one: for every vector v and
      every k up to both lengths writer w can make it return the first k addresses of the buffer
      followed by the rest of v. */
  lemma TornFrom(e: Entry, r: nat, w: nat, v: Addresses, k: nat) returns (ms: seq<Move>)
    requires SetRunsFree(e, w) && r < |e.threads| && r != w
    requires e.threads[r].ReadLoaded? && e.threads[r].id == 1 - e.current
    requires k <= |e.bufs.At(1 - e.current)| && k <= |v|
    ensures Runs(e, ms) && |After(e, ms).threads| == |e.threads|
    ensures After(e, ms).threads[r].ReadReturned? && After(e, ms).hist == e.hist
    ensures After(e, ms).threads[r].acc == e.bufs.At(1 - e.current)[..k] + v[k..]
    ensures After(e, ms).threads[w] == WriteMoved(v, 1 - e.current)
  {
    ms := BeforeMove(e, r, w, v, k);
    var part := MoveVector(After(e, ms), w);
    RunsConcat(e, ms, part);
    ms := ms + part;
    part := CopyRest(After(e, ms), r);
    RunsConcat(e, ms, part);
    ms := ms + part;
  }

  lemma {:induction false} Unpublished(hist: seq<Addresses>) returns (v: Addresses)
    ensures v != [] && forall h <- hist :: |h| < |v|
  {
    if hist == [] {
      v := [("", 0)];
    } else {
      v := Unpublished(hist[1..]);
      if |v| <= |hist[0]| {
        v := seq(|hist[0]| + 1, i => ("", 0));
      }
      assert hist == [hist[0]] + hist[1..];
      assert forall h <- hist :: |h| < |v|;
    }
  }

  /** So the timing condition cannot be done without: from every state in which a reader has loaded an
      id that was flipped away, and a writer and the mutex are free, some run makes the read return a
      vector that was not published, and when the spare buffer holds anything it is not the vector
      being written either, but a mixture. */
  lemma MisalignedCanTear(e: Entry, r: nat, w: nat) returns (ms: seq<Move>)
    requires SetRunsFree(e, w) && r < |e.threads| && r != w
    requires e.threads[r].ReadLoaded? && e.threads[r].id == 1 - e.current
    ensures Runs(e, ms) && |After(e, ms).threads| == |e.threads|
    ensures var f := After(e, ms);
      && f.threads[r].ReadReturned? && f.threads[r].acc !in f.hist && f.threads[w].WriteMoved?
      && (e.bufs.At(1 - e.current) != [] ==> f.threads[r].acc != f.threads[w].v)
  {
    hide Runs, After;
    var b := e.bufs.At(1 - e.current);
    var long := Unpublished(e.hist);
    if b == [] {
      ms := TornFrom(e, r, w, long, 0);
    } else {
      var (name, port) := b[0];
      var v := [(name, port + 1)] + long[1..];
      ms := TornFrom(e, r, w, v, 1);
      assert (b[..1] + v[1..])[0] == b[0] != v[0];
    }
  }

  /** Without a condition on the timing a read need not be whole: reader 0 loads id 0, writer 1 then
      flips the id and passes its check on buffer 0 before the reader increments, and the reader
      returns a vector that was never published. */
  lemma TornRead() returns (ms: seq<Move>)
    ensures Runs(NewEntry(2), ms)
    ensures var e := After(NewEntry(2), ms);
      |e.threads| > 0 && e.threads[0].ReadReturned? && e.threads[0].acc !in e.hist
  {
    var e := NewEntry(2);
    var old2, new2 := [("a", 1), ("b", 1)], [("c", 2), ("d", 2)];
    ms := LoadedAway(old2);
    var part := TornFrom(After(e, ms), 0, 1, new2, 1);
    RunsConcat(e, ms, part);
    ms := ms + part;
    assert After(e, ms).threads[0].acc[1] == ("d", 2) != old2[1];
  }

  /** Both buffers of a new entry hold v, and reader 0 has loaded an id that is flipped since. */
  lemma LoadedAway(v: Addresses) returns (ms: seq<Move>)
    ensures Runs(NewEntry(2), ms)
    ensures var f := After(NewEntry(2), ms);
      && SetRunsFree(f, 1) && f.threads[0].ReadLoaded? && f.threads[0].id == 1 - f.current
      && f.bufs.At(1 - f.current) == v && f.hist == [[], v, v, v]
  {
    var e := NewEntry(2);
    ms := SetAlone(e, 1, v);
    var part := SetAlone(After(e, ms), 1, v);
    RunsConcat(e, ms, part);
    ms := ms + part;
    ms := RunsMore(e, ms, 0, BeginGet);
    ms := RunsMore(e, ms, 0, Advance);
    part := SetAlone(After(e, ms), 1, v);
    RunsConcat(e, ms, part);
    ms := ms + part;
  }
}
