/** What every step of the entry protocol keeps, and what follows for every run. */
module EntryProofs {
  import opened Wrappers
  import opened EntryProtocol

  // ---------------------------------------------------------------- sums over all threads

  datatype Probe = InCopy(id: int) | StepsLeft(id: int, len: nat)

  /** InCopy counts a reader inside the copy of buffer `id`; StepsLeft counts the steps a reader
      aimed at buffer `id` still takes before it has left that buffer of length `len`. */
  function Measure(p: Pc, q: Probe): nat {
    match q
    case InCopy(id) => if (p.ReadCopying? || p.ReadCopied?) && p.id == id then 1 else 0
    case StepsLeft(id, len) =>
      match p
      case ReadLoaded(i, _) => if i == id then len + 3 else 0
      case ReadCopying(i, acc, _, _, _) =>
        if i != id then 0 else if |acc| < len then len - |acc| + 2 else 2
      case ReadCopied(i, _, _, _, _) => if i == id then 1 else 0
      case _ => 0
  }

  function Total(ts: seq<Pc>, q: Probe): nat {
    if ts == [] then 0 else Measure(ts[0], q) + Total(ts[1..], q)
  }

  lemma {:induction false} TotalUpdate(ts: seq<Pc>, t: nat, p: Pc, q: Probe)
    requires t < |ts|
    ensures Total(ts[t := p], q) == Total(ts, q) - Measure(ts[t], q) + Measure(p, q)
  {
    if t == 0 {
      assert ts[t := p][1..] == ts[1..];
    } else {
      assert ts[t := p][1..] == ts[1..][t - 1 := p];
      TotalUpdate(ts[1..], t - 1, p, q);
    }
  }

  lemma {:induction false} TotalAtLeast(ts: seq<Pc>, t: nat, q: Probe)
    requires t < |ts|
    ensures Measure(ts[t], q) <= Total(ts, q)
  {
    if t > 0 {
      TotalAtLeast(ts[1..], t - 1, q);
    }
  }

  lemma {:induction false} TotalWitness(ts: seq<Pc>, q: Probe) returns (t: nat)
    requires Total(ts, q) > 0
    ensures t < |ts| && Measure(ts[t], q) > 0
  {
    if Measure(ts[0], q) > 0 {
      t := 0;
    } else {
      var u := TotalWitness(ts[1..], q);
      t := u + 1;
    }
  }

  lemma {:induction false} TotalZero(ts: seq<Pc>, q: Probe)
    requires forall t :: 0 <= t < |ts| ==> Measure(ts[t], q) == 0
    ensures Total(ts, q) == 0
  {
    if ts != [] {
      assert forall t :: 0 <= t < |ts[1..]| ==> ts[1..][t] == ts[t + 1];
      TotalZero(ts[1..], q);
    }
  }

  // ---------------------------------------------------------------- the invariant

  /** The published vector a reader is after: the one current at its increment when its loaded id
      is the current id then, and the one before it when it is not. */
  function Version(seen: nat, at: nat): int {
    if seen % 2 == at % 2 then at else at - 1
  }

  /** The writer has started to overwrite the spare buffer and has not flipped yet. */
  predicate Dirty(p: Pc) {
    p.WriteMoving? || p.WriteMoved? || p.WriteFlipping?
  }

  predicate Clean(e: Entry) {
    forall u :: 0 <= u < |e.threads| ==> !Dirty(e.threads[u])
  }

  predicate ReaderOk(e: Entry, p: Pc) {
    match p
    case ReadLoaded(id, seen) => id == seen % 2 && seen <= Flips(e)
    case ReadCopying(id, acc, seen, at, calm) =>
      && id == seen % 2 && seen <= at <= Flips(e) < |e.hist|
      && (seen % 2 == at % 2 ==> calm)
      && (calm ==> Calm(e, id) && acc <= e.bufs.At(id) && e.bufs.At(id) == e.hist[Version(seen, at)])
    case ReadCopied(id, acc, seen, at, calm) =>
      && id == seen % 2 && seen <= at <= Flips(e) < |e.hist|
      && (seen % 2 == at % 2 ==> calm)
      && (calm ==> Calm(e, id) && acc == e.hist[Version(seen, at)])
    case ReadReturned(acc, seen, at, calm) =>
      && seen <= at <= Flips(e) < |e.hist|
      && (seen % 2 == at % 2 ==> calm)
      && (calm ==> acc == e.hist[Version(seen, at)])
    case _ => true
  }

  predicate WriterOk(e: Entry, p: Pc) {
    match p
    case WriteWaiting(_, target) => target == 1 - e.current
    case WriteChecked(_, target) => target == 1 - e.current
    case WriteMoving(_, target) => target == 1 - e.current
    case WriteMoved(v, target) => target == 1 - e.current && e.bufs.At(target) == v
    case WriteFlipping(v, target, loaded) =>
      target == 1 - e.current && e.bufs.At(target) == v && loaded == e.current
    case _ => true
  }

  predicate BuffersOk(e: Entry) {
    && e.hist != []
    && e.current == Flips(e) % 2
    && Current(e) == e.hist[Flips(e)]
    && (Clean(e) && Flips(e) > 0 ==> e.bufs.At(1 - e.current) == e.hist[Flips(e) - 1])
  }

  predicate CountersOk(e: Entry) {
    && e.readers.zero == Total(e.threads, InCopy(0))
    && e.readers.one == Total(e.threads, InCopy(1))
  }

  predicate GuardOk(e: Entry) {
    && (e.guard.Some? ==> e.guard.value < |e.threads| && HoldsGuard(e.threads[e.guard.value]))
    && (forall t :: 0 <= t < |e.threads| && HoldsGuard(e.threads[t]) ==> e.guard == Some(t))
  }

  predicate ThreadsOk(e: Entry) {
    forall t :: 0 <= t < |e.threads| ==> ReaderOk(e, e.threads[t]) && WriterOk(e, e.threads[t])
  }

  predicate Inv(e: Entry) {
    BuffersOk(e) && CountersOk(e) && GuardOk(e) && ThreadsOk(e)
  }

  lemma NewEntryInv(n: nat)
    ensures Inv(NewEntry(n))
  {
    TotalZero(NewEntry(n).threads, InCopy(0));
    TotalZero(NewEntry(n).threads, InCopy(1));
  }

  // ---------------------------------------------------------------- every step keeps it

  lemma OnlyOneThreadMoves(e: Entry, t: nat, a: Act)
    requires Enabled(e, t, a)
    ensures Do(e, t, a).threads == e.threads[t := Do(e, t, a).threads[t]]
  {
  }

  lemma CounterMoves(e: Entry, t: nat, a: Act, id: int)
    requires Enabled(e, t, a) && ReaderOk(e, e.threads[t]) && 0 <= id <= 1
    ensures Do(e, t, a).readers.At(id) - e.readers.At(id)
         == Measure(Do(e, t, a).threads[t], InCopy(id)) - Measure(e.threads[t], InCopy(id))
  {
  }

  lemma CountersStep(e: Entry, t: nat, a: Act)
    requires Enabled(e, t, a) && ReaderOk(e, e.threads[t]) && CountersOk(e)
    ensures CountersOk(Do(e, t, a))
  {
    OnlyOneThreadMoves(e, t, a);
    var e' := Do(e, t, a);
    CounterMoves(e, t, a, 0);
    CounterMoves(e, t, a, 1);
    TotalUpdate(e.threads, t, e'.threads[t], InCopy(0));
    TotalUpdate(e.threads, t, e'.threads[t], InCopy(1));
  }

  lemma GuardMoves(e: Entry, t: nat, a: Act)
    requires Enabled(e, t, a) && (HoldsGuard(e.threads[t]) ==> e.guard == Some(t))
    ensures var e' := Do(e, t, a);
      || (e'.guard == e.guard && HoldsGuard(e'.threads[t]) == HoldsGuard(e.threads[t]))
      || (e.guard == None && e'.guard == Some(t) && HoldsGuard(e'.threads[t]))
      || (e.guard == Some(t) && e'.guard == None && !HoldsGuard(e'.threads[t]))
  {
  }

  lemma GuardStep(e: Entry, t: nat, a: Act)
    requires Enabled(e, t, a) && GuardOk(e)
    ensures GuardOk(Do(e, t, a))
  {
    OnlyOneThreadMoves(e, t, a);
    GuardMoves(e, t, a);
  }

  /** A step overwrites a buffer only from past its check on that buffer, and it touches the id and
      the history only to publish the buffer it has filled. */
  lemma BuffersMove(e: Entry, t: nat, a: Act)
    requires Enabled(e, t, a) && WriterOk(e, e.threads[t]) && e.hist != [] && 0 <= e.current <= 1
    ensures var e' := Do(e, t, a); var p := e.threads[t];
      || (e'.bufs == e.bufs && e'.current == e.current && e'.hist == e.hist
          && !p.WriteChecked? && !p.WriteMoving?
          && (p.WriteFlipping? ==> a != Advance) && (Dirty(p) ==> Dirty(e'.threads[t])))
      || (PastCheck(p, 1 - e.current) && e'.current == e.current && e'.hist == e.hist
          && Dirty(e'.threads[t]) && e'.bufs.At(e.current) == e.bufs.At(e.current))
      || (PastCheck(p, 1 - e.current) && Dirty(p) && !Dirty(e'.threads[t])
          && e'.bufs == e.bufs && e'.current == 1 - e.current
          && e'.hist == e.hist + [e.bufs.At(1 - e.current)])
  {
  }

  lemma BuffersStep(e: Entry, t: nat, a: Act)
    requires Enabled(e, t, a) && Inv(e)
    ensures BuffersOk(Do(e, t, a))
  {
    OnlyOneThreadMoves(e, t, a);
    var e' := Do(e, t, a);
    BuffersMove(e, t, a);
    assert Clean(e') ==> !Dirty(e'.threads[t]);
    if Clean(e') && e'.hist == e.hist {
      forall u | 0 <= u < |e.threads| ensures !Dirty(e.threads[u]) {
        assert !Dirty(e'.threads[u]) && !Dirty(e'.threads[t]);
      }
    }
  }

  lemma OtherWriterStep(e: Entry, t: nat, a: Act, u: nat)
    requires Enabled(e, t, a) && u < |e.threads| && u != t
    requires GuardOk(e) && BuffersOk(e) && WriterOk(e, e.threads[t]) && WriterOk(e, e.threads[u])
    ensures WriterOk(Do(e, t, a), e.threads[u])
  {
    BuffersMove(e, t, a);
    assert !(HoldsGuard(e.threads[t]) && HoldsGuard(e.threads[u]));
  }

  /** The step that takes a writer past its check found a zero counter. */
  lemma PassesCheckAtZero(e: Entry, t: nat, a: Act, id: int)
    requires Enabled(e, t, a)
    requires PastCheck(Do(e, t, a).threads[t], id) && !PastCheck(e.threads[t], id)
    ensures e.readers.At(id) <= 0
  {
  }

  lemma CalmStep(e: Entry, t: nat, a: Act, u: nat, id: int)
    requires Enabled(e, t, a) && u < |e.threads| && u != t && 0 <= id <= 1
    requires CountersOk(e) && Calm(e, id) && Measure(e.threads[u], InCopy(id)) == 1
    ensures Calm(Do(e, t, a), id)
  {
    OnlyOneThreadMoves(e, t, a);
    var e' := Do(e, t, a);
    TotalAtLeast(e.threads, u, InCopy(id));
    if PastCheck(e'.threads[t], id) {
      PassesCheckAtZero(e, t, a, id);
    }
  }

  lemma OtherReaderStep(e: Entry, t: nat, a: Act, u: nat)
    requires Enabled(e, t, a) && u < |e.threads| && u != t
    requires CountersOk(e) && BuffersOk(e) && WriterOk(e, e.threads[t]) && ReaderOk(e, e.threads[u])
    ensures ReaderOk(Do(e, t, a), e.threads[u])
  {
    BuffersMove(e, t, a);
    var p := e.threads[u];
    if (p.ReadCopying? || p.ReadCopied?) && p.calm {
      CalmStep(e, t, a, u, p.id);
      assert !PastCheck(e.threads[t], p.id);
    }
  }

  lemma OwnWriterStep(e: Entry, t: nat, a: Act)
    requires Enabled(e, t, a) && BuffersOk(e) && WriterOk(e, e.threads[t])
    ensures WriterOk(Do(e, t, a), Do(e, t, a).threads[t])
  {
  }

  lemma AlignedIsCalm(e: Entry, id: int)
    requires ThreadsOk(e) && id == e.current && 0 <= id <= 1
    ensures Calm(e, id)
  {
    forall u | 0 <= u < |e.threads| ensures !PastCheck(e.threads[u], id) {
      assert WriterOk(e, e.threads[u]);
    }
  }

  lemma CalmIsClean(e: Entry, id: int)
    requires ThreadsOk(e) && id == 1 - e.current && Calm(e, id)
    ensures Clean(e)
  {
    forall u | 0 <= u < |e.threads| ensures !Dirty(e.threads[u]) {
      assert WriterOk(e, e.threads[u]) && !PastCheck(e.threads[u], id);
    }
  }

  /** The increment: an aligned reader has the current vector under it, a calm one that is not
      aligned the vector published before it. */
  lemma IncrementStep(e: Entry, t: nat)
    requires Enabled(e, t, Advance) && Inv(e) && e.threads[t].ReadLoaded?
    ensures ReaderOk(Do(e, t, Advance), Do(e, t, Advance).threads[t])
  {
    var e', id := Do(e, t, Advance), e.threads[t].id;
    assert ReaderOk(e, e.threads[t]);
    if id == e.current {
      AlignedIsCalm(e, id);
    } else if Calm(e, id) {
      CalmIsClean(e, id);
    }
    assert Calm(e', id) == Calm(e, id) by {
      assert forall u :: 0 <= u < |e.threads| ==> PastCheck(e'.threads[u], id) == PastCheck(e.threads[u], id);
    }
  }

  lemma OwnReaderStep(e: Entry, t: nat, a: Act)
    requires Enabled(e, t, a) && Inv(e)
    ensures ReaderOk(Do(e, t, a), Do(e, t, a).threads[t])
  {
    hide Inv, Do, ReaderOk;
    if a == Advance && e.threads[t].ReadLoaded? {
      IncrementStep(e, t);
    } else if e.threads[t].ReadCopying? || e.threads[t].ReadCopied? {
      OwnCopyStep(e, t, a);
    } else {
      OwnOtherStep(e, t, a);
    }
  }

  lemma OwnCopyStep(e: Entry, t: nat, a: Act)
    requires Enabled(e, t, a) && Inv(e) && (e.threads[t].ReadCopying? || e.threads[t].ReadCopied?)
    ensures ReaderOk(Do(e, t, a), Do(e, t, a).threads[t])
  {
    hide Inv, Calm;
    var e', p := Do(e, t, a), e.threads[t];
    InvReader(e, t);
    if p.calm {
      CopyKeepsCalm(e, t, a, p.id);
    }
  }

  /** Copying moves no writer. */
  lemma CopyKeepsCalm(e: Entry, t: nat, a: Act, id: int)
    requires Enabled(e, t, a) && (e.threads[t].ReadCopying? || e.threads[t].ReadCopied?) && Calm(e, id)
    ensures Calm(Do(e, t, a), id)
  {
    var e' := Do(e, t, a);
    assert forall u :: 0 <= u < |e.threads| ==> PastCheck(e'.threads[u], id) == PastCheck(e.threads[u], id);
  }

  lemma OwnOtherStep(e: Entry, t: nat, a: Act)
    requires Enabled(e, t, a) && Inv(e) && !e.threads[t].ReadCopying? && !e.threads[t].ReadCopied?
    requires !(a == Advance && e.threads[t].ReadLoaded?)
    ensures ReaderOk(Do(e, t, a), Do(e, t, a).threads[t])
  {
    assert ReaderOk(e, e.threads[t]);
  }

  lemma ThreadsStep(e: Entry, t: nat, a: Act)
    requires Enabled(e, t, a) && Inv(e)
    ensures ThreadsOk(Do(e, t, a))
  {
    OnlyOneThreadMoves(e, t, a);
    var e' := Do(e, t, a);
    assert WriterOk(e, e.threads[t]);
    forall u | 0 <= u < |e'.threads| ensures ReaderOk(e', e'.threads[u]) && WriterOk(e', e'.threads[u]) {
      if u == t {
        OwnReaderStep(e, t, a);
        OwnWriterStep(e, t, a);
      } else {
        assert ReaderOk(e, e.threads[u]) && WriterOk(e, e.threads[u]);
        OtherReaderStep(e, t, a, u);
        OtherWriterStep(e, t, a, u);
      }
    }
  }

  /** Every step, by any thread, keeps the invariant; nothing is assumed about timing. */
  lemma InvStep(e: Entry, t: nat, a: Act)
    requires Enabled(e, t, a) && Inv(e)
    ensures Inv(Do(e, t, a))
  {
    BuffersStep(e, t, a);
    assert ReaderOk(e, e.threads[t]);
    CountersStep(e, t, a);
    GuardStep(e, t, a);
    ThreadsStep(e, t, a);
  }

  // ---------------------------------------------------------------- runs

  /** A schedule: which thread does what, in order. */
  datatype Move = Move(t: nat, a: Act)

  predicate Runs(e: Entry, ms: seq<Move>)
    decreases |ms|
  {
    ms == [] || (Enabled(e, ms[0].t, ms[0].a) && Runs(Do(e, ms[0].t, ms[0].a), ms[1..]))
  }

  function After(e: Entry, ms: seq<Move>): Entry
    requires Runs(e, ms)
    decreases |ms|
  {
    if ms == [] then e else After(Do(e, ms[0].t, ms[0].a), ms[1..])
  }

  lemma {:induction false} InvRun(e: Entry, ms: seq<Move>)
    requires Inv(e) && Runs(e, ms)
    ensures Inv(After(e, ms))
    decreases |ms|
  {
    if ms != [] {
      InvStep(e, ms[0].t, ms[0].a);
      InvRun(Do(e, ms[0].t, ms[0].a), ms[1..]);
    }
  }

  /** No copy overlaps a write, over every run and any number of threads: where a reader copies the
      buffer a writer is moving into, the id was flipped an odd number of times between that
      reader's load and its increment, and the writer was past its check at the increment. */
  lemma NoOverlap(n: nat, ms: seq<Move>, r: nat, w: nat)
    requires Runs(NewEntry(n), ms)
    requires var e := After(NewEntry(n), ms);
      && r < |e.threads| && w < |e.threads|
      && e.threads[r].ReadCopying? && e.threads[w].WriteMoving?
      && e.threads[r].id == e.threads[w].target
    ensures var p := After(NewEntry(n), ms).threads[r];
      p.seen < p.at && (p.at - p.seen) % 2 == 1 && !p.calm
  {
    NewEntryInv(n);
    InvRun(NewEntry(n), ms);
    var e := After(NewEntry(n), ms);
    assert ReaderOk(e, e.threads[r]);
    assert PastCheck(e.threads[w], e.threads[r].id);
  }

  /** What a finished get returns, over every run: the vector current at its increment, whole, when
      the flips between load and increment are even in number (none, in particular); the vector
      published before that one, whole, when they are odd and no writer was past its check. */
  lemma ReadResult(n: nat, ms: seq<Move>, r: nat)
    requires Runs(NewEntry(n), ms)
    requires var e := After(NewEntry(n), ms); r < |e.threads| && e.threads[r].ReadReturned?
    ensures var e := After(NewEntry(n), ms); var p := e.threads[r];
      && p.seen <= p.at < |e.hist|
      && ((p.at - p.seen) % 2 == 0 ==> p.acc == e.hist[p.at])
      && ((p.at - p.seen) % 2 == 1 && p.calm ==> p.acc == e.hist[p.at - 1])
  {
    hide Inv, Runs, After, NewEntry;
    NewEntryInv(n);
    InvRun(NewEntry(n), ms);
    var e := After(NewEntry(n), ms);
    assert ReaderOk(e, e.threads[r]) by { InvReader(e, r); }
  }

  lemma InvReader(e: Entry, r: nat)
    requires Inv(e) && r < |e.threads|
    ensures ReaderOk(e, e.threads[r])
  {
    hide BuffersOk, CountersOk, GuardOk, ReaderOk, WriterOk;
  }

  /** Each counter is the number of readers inside that copy, over every run. */
  lemma CountersCountReaders(n: nat, ms: seq<Move>, id: int)
    requires Runs(NewEntry(n), ms) && 0 <= id <= 1
    ensures After(NewEntry(n), ms).readers.At(id) == Total(After(NewEntry(n), ms).threads, InCopy(id))
  {
    NewEntryInv(n);
    InvRun(NewEntry(n), ms);
  }

  // ---------------------------------------------------------------- the writer's wait

  /** While writer w polls, no step of another thread adds to the steps the readers aimed at its
      buffer still have to take, and every step of such a reader takes one away. */
  lemma WaitShrinks(e: Entry, w: nat, t: nat, a: Act)
    requires Inv(e) && Enabled(e, t, a) && w < |e.threads| && t != w && e.threads[w].WriteWaiting?
    ensures var id := e.threads[w].target; var q := StepsLeft(id, |e.bufs.At(id)|);
      && w < |Do(e, t, a).threads| && Do(e, t, a).threads[w] == e.threads[w]
      && Do(e, t, a).bufs.At(id) == e.bufs.At(id)
      && Total(Do(e, t, a).threads, q) == Total(e.threads, q) - if Measure(e.threads[t], q) > 0 then 1 else 0
  {
    hide Total, BuffersOk, CountersOk, Calm;
    OnlyOneThreadMoves(e, t, a);
    var id := e.threads[w].target;
    var q := StepsLeft(id, |e.bufs.At(id)|);
    assert WriterOk(e, e.threads[w]) && WriterOk(e, e.threads[t]) && ReaderOk(e, e.threads[t]);
    assert !HoldsGuard(e.threads[t]);
    TotalUpdate(e.threads, t, Do(e, t, a).threads[t], q);
  }

  /** When none of those steps is left, the next poll lets the writer through; while one is left,
      a reader that has one to take can take it. */
  lemma WaitEnds(e: Entry, w: nat) returns (r: nat)
    requires Inv(e) && w < |e.threads| && e.threads[w].WriteWaiting?
    ensures var id := e.threads[w].target; var q := StepsLeft(id, |e.bufs.At(id)|);
      if Total(e.threads, q) == 0
      then Do(e, w, Advance).threads[w] == WriteChecked(e.threads[w].v, id)
      else r < |e.threads| && r != w && Measure(e.threads[r], q) > 0 && Enabled(e, r, Advance)
  {
    var id := e.threads[w].target;
    var q := StepsLeft(id, |e.bufs.At(id)|);
    assert WriterOk(e, e.threads[w]);
    r := 0;
    if Total(e.threads, q) == 0 {
      if e.readers.At(id) > 0 {
        var u := TotalWitness(e.threads, InCopy(id));
        TotalAtLeast(e.threads, u, q);
      }
    } else {
      r := TotalWitness(e.threads, q);
    }
  }

  /** The number of moves in a schedule that are made by readers aimed at buffer `id`. */
  function AimedMoves(e: Entry, ms: seq<Move>, id: int): nat
    requires Runs(e, ms)
    decreases |ms|
  {
    if ms == [] then 0 else
      (if Measure(e.threads[ms[0].t], StepsLeft(id, |e.bufs.At(id)|)) > 0 then 1 else 0) +
      AimedMoves(Do(e, ms[0].t, ms[0].a), ms[1..], id)
  }

  /** However long the others run while writer w keeps polling, readers aimed at its buffer make no
      more moves than were left at the start, and what is left is exactly what they did not make. */
  lemma {:induction false} WaitIsBounded(e: Entry, w: nat, ms: seq<Move>)
    requires Inv(e) && w < |e.threads| && e.threads[w].WriteWaiting?
    requires Runs(e, ms) && forall i :: 0 <= i < |ms| ==> ms[i].t != w
    ensures var id := e.threads[w].target; var q := StepsLeft(id, |e.bufs.At(id)|);
      && w < |After(e, ms).threads| && After(e, ms).threads[w] == e.threads[w]
      && AimedMoves(e, ms, id) + Total(After(e, ms).threads, q) == Total(e.threads, q)
    decreases |ms|
  {
    hide Inv, Step;
    if ms != [] {
      assert ms[0].t != w;
      WaitShrinks(e, w, ms[0].t, ms[0].a);
      InvStep(e, ms[0].t, ms[0].a);
      assert forall i :: 0 <= i < |ms[1..]| ==> ms[1..][i] == ms[i + 1];
      WaitIsBounded(Do(e, ms[0].t, ms[0].a), w, ms[1..]);
    }
  }

  // ---------------------------------------------------------------- no deadlock

  /** A step that is more than another round of the spin loop. */
  predicate CanProgress(e: Entry, t: nat) {
    t < |e.threads| &&
    match e.threads[t]
    case Idle => false
    case WriteStart(_) => e.guard.None?
    case WriteWaiting(_, target) => e.readers.At(target) <= 0
    case _ => true
  }

  /** While any call on the entry is unfinished, some thread can make progress on it. */
  lemma EntryHasNoDeadlock(e: Entry, t: nat) returns (u: nat)
    requires Inv(e) && t < |e.threads| && !e.threads[t].Idle?
    ensures CanProgress(e, u)
    ensures !e.threads[u].Idle?
  {
    u := t;
    if e.threads[u].WriteStart? && e.guard.Some? {
      u := e.guard.value;
    }
    if e.threads[u].WriteWaiting? && e.readers.At(e.threads[u].target) > 0 {
      assert WriterOk(e, e.threads[u]);
      u := TotalWitness(e.threads, InCopy(e.threads[u].target));
    }
  }
}
