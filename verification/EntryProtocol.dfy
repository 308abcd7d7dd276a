/**
 One double-buffered cache entry shared by any number of threads, as a step system with one
 step per atomic operation: an id load, a counter update, one copied element, a mutex
 acquisition, one poll of the spin loop, the two halves of a vector move, the id store.

 A thread's program counter carries, besides the locals of the call, history variables that
 no step tests: `seen` and `at` are the number of flips at the reader's id load and at its
 counter increment, `calm` says that no writer was past its check on the reader's buffer at
 that increment.
 */
module EntryProtocol {
  import opened Wrappers

  type Addresses = seq<(string, int)>

  datatype Pc =
    | Idle
      // get_addresses
    | ReadStart
    | ReadLoaded(id: int, seen: nat)
    | ReadCopying(id: int, acc: Addresses, seen: nat, at: nat, calm: bool)
    | ReadCopied(id: int, acc: Addresses, seen: nat, at: nat, calm: bool)
    | ReadReturned(acc: Addresses, seen: nat, at: nat, calm: bool)
      // set_addresses
    | WriteStart(v: Addresses)
    | WriteLocked(v: Addresses)
    | WriteWaiting(v: Addresses, target: int)
    | WriteChecked(v: Addresses, target: int)
    | WriteMoving(v: Addresses, target: int)
    | WriteMoved(v: Addresses, target: int)
    | WriteFlipping(v: Addresses, target: int, loaded: int)
    | WriteFlipped
    | WriteReturned

  /** `hist` lists every vector the entry has published, the initial empty one first. */
  datatype Entry = Entry(
    bufs: Pair<Addresses>,
    readers: Pair<int>,
    current: int,
    guard: Option<nat>,
    hist: seq<Addresses>,
    threads: seq<Pc>)

  datatype Act = BeginGet | BeginSet(v: Addresses) | Advance | Finish

  function NewEntry(n: nat): Entry {
    Entry(Pair([], []), Pair(0, 0), 0, None, [[]], seq(n, i => Idle))
  }

  /** How often the id has been flipped. */
  function Flips(e: Entry): nat {
    if e.hist == [] then 0 else |e.hist| - 1
  }

  /** The vector the entry serves now. */
  function Current(e: Entry): Addresses {
    e.bufs.At(e.current)
  }

  /** The writer has seen a zero counter and has not flipped yet: it owns buffer `id`. */
  predicate PastCheck(p: Pc, id: int) {
    match p
    case WriteChecked(_, target) => target == id
    case WriteMoving(_, target) => target == id
    case WriteMoved(_, target) => target == id
    case WriteFlipping(_, target, _) => target == id
    case _ => false
  }

  predicate Calm(e: Entry, id: int) {
    forall u :: 0 <= u < |e.threads| ==> !PastCheck(e.threads[u], id)
  }

  predicate HoldsGuard(p: Pc) {
    p.WriteLocked? || p.WriteWaiting? || p.WriteChecked? || p.WriteMoving? ||
    p.WriteMoved? || p.WriteFlipping? || p.WriteFlipped?
  }

  // ---------------------------------------------------------------- steps

  predicate Enabled(e: Entry, t: nat, a: Act) {
    t < |e.threads| &&
    match a
    case BeginGet => e.threads[t].Idle?
    case BeginSet(_) => e.threads[t].Idle?
    case Finish => e.threads[t].ReadReturned? || e.threads[t].WriteReturned?
    case Advance =>
      var p := e.threads[t];
      !p.Idle? && !p.ReadReturned? && !p.WriteReturned? && (p.WriteStart? ==> e.guard.None?)
  }

  function Goto(e: Entry, t: nat, p: Pc): Entry
    requires t < |e.threads|
  {
    e.(threads := e.threads[t := p])
  }

  function Do(e: Entry, t: nat, a: Act): Entry
    requires Enabled(e, t, a)
  {
    match a
    case BeginGet => Goto(e, t, ReadStart)
    case BeginSet(v) => Goto(e, t, WriteStart(v))
    case Finish => Goto(e, t, Idle)
    case Advance => Step(e, t)
  }

  function Step(e: Entry, t: nat): Entry
    requires Enabled(e, t, Advance)
  {
    match e.threads[t]
    case ReadStart =>
      Goto(e, t, ReadLoaded(e.current, Flips(e)))
    case ReadLoaded(id, seen) =>
      Goto(e.(readers := e.readers.With(id, e.readers.At(id) + 1)), t,
           ReadCopying(id, [], seen, Flips(e), Calm(e, id)))
    case ReadCopying(id, acc, seen, at, calm) =>
      if |acc| < |e.bufs.At(id)|
      then Goto(e, t, ReadCopying(id, acc + [e.bufs.At(id)[|acc|]], seen, at, calm))
      else Goto(e, t, ReadCopied(id, acc, seen, at, calm))
    case ReadCopied(id, acc, seen, at, calm) =>
      Goto(e.(readers := e.readers.With(id, e.readers.At(id) - 1)), t, ReadReturned(acc, seen, at, calm))
    case WriteStart(v) => Goto(e.(guard := Some(t)), t, WriteLocked(v))
    case WriteLocked(v) => Goto(e, t, WriteWaiting(v, if e.current == 0 then 1 else 0))
    case WriteWaiting(v, target) =>
      if e.readers.At(target) > 0 then e else Goto(e, t, WriteChecked(v, target))
    case WriteChecked(v, target) => Goto(e.(bufs := e.bufs.With(target, [])), t, WriteMoving(v, target))
    case WriteMoving(v, target) => Goto(e.(bufs := e.bufs.With(target, v)), t, WriteMoved(v, target))
    case WriteMoved(v, target) => Goto(e, t, WriteFlipping(v, target, e.current))
    case WriteFlipping(v, target, loaded) =>
      var id := (loaded + 1) % 2;
      Goto(e.(current := id, hist := e.hist + [e.bufs.At(id)]), t, WriteFlipped)
    case WriteFlipped => Goto(e.(guard := None), t, WriteReturned)
    case _ => e
  }
}
