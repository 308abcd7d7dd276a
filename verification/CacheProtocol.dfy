/**
 The whole device cache as a step system: a map from scene keys to entries, the list of scene
 keys, the readers-writer lock over both, and any number of threads that get and set devices
 under the shared lock and add and remove scenes under the exclusive one. What a thread does
 inside an entry is a step of EntryProtocol.

 `log` and `done` are history: the operations in the order in which they take effect, and the
 calls that have returned, each with the log position at which it began, took effect and ended.
 */
module CacheProtocol {
  import opened Wrappers
  import opened PlainMap
  import E = EntryProtocol

  type Ref = nat

  datatype Call = Get(k: Key) | Set(k: Key, v: Addresses) | Add(k: Key) | Remove(k: Key) {
    predicate Shared() {
      Get? || Set?
    }
  }

  /** `aligned` says that the id was flipped an even number of times, if at all, between the
      reader's id load and its counter increment, `calm` that no writer was past its check on the
      reader's buffer at that increment. */
  datatype Outcome = Value(v: Addresses, aligned: bool, calm: bool) | Threw | Completed

  datatype Pc =
    | Outside
    | Waiting(call: Call, begun: nat)
    | Inside(call: Call, begun: nat)
    | InEntry(call: Call, begun: nat, ref: Ref, mark: nat)
    | Pushed(call: Call, begun: nat)
    | Erased(call: Call, begun: nat)
    | Freed(call: Call, begun: nat)
    | Leaving(call: Call, begun: nat, mark: nat, out: Outcome)

  datatype Record = Record(t: nat, call: Call, begun: nat, mark: nat, ended: nat, out: Outcome)

  /** `undefined` records that a call did what C++ leaves undefined: a set on an absent key follows
      a null pointer, a remove of an unlisted key erases past the end of the list. `tidy` records
      that every add so far used a new key. */
  datatype Cache = Cache(
    entries: map<Key, Ref>,
    list: seq<Key>,
    heap: map<Ref, E.Entry>,
    nextRef: Ref,
    readers: set<nat>,
    writer: Option<nat>,
    threads: seq<Pc>,
    log: seq<Event>,
    done: seq<Record>,
    tidy: bool,
    undefined: bool)

  datatype Act = Invoke(call: Call) | Advance

  function NewCache(n: nat): Cache {
    Cache(map[], [], map[], 0, {}, None, seq(n, i => Outside), [], [], true, false)
  }

  function Goto(s: Cache, t: nat, p: Pc): Cache
    requires t < |s.threads|
  {
    s.(threads := s.threads[t := p])
  }

  /** std::find and erase: the list without the first k. */
  function EraseFirst(l: seq<Key>, k: Key): seq<Key> {
    if l == [] then [] else if l[0] == k then l[1..] else [l[0]] + EraseFirst(l[1..], k)
  }

  predicate Enabled(s: Cache, t: nat, a: Act) {
    !s.undefined && t < |s.threads| &&
    match s.threads[t]
    case Outside => a.Invoke?
    case Waiting(call, _) =>
      a.Advance? && s.writer.None? && (!call.Shared() ==> s.readers == {})
    case InEntry(call, _, ref, _) =>
      a.Advance? && call.Shared() && ref in s.heap && t < |s.heap[ref].threads| &&
      E.Enabled(s.heap[ref], t, EntryAct(s.heap[ref], t))
    case Inside(call, _) =>
      a.Advance? &&
      (call.Shared() && call.k in s.entries ==>
         s.entries[call.k] in s.heap && E.Enabled(s.heap[s.entries[call.k]], t, E.BeginGet))
    case _ => a.Advance?
  }

  function Do(s: Cache, t: nat, a: Act): (s': Cache)
    requires Enabled(s, t, a)
    ensures |s'.threads| == |s.threads|
    ensures s'.threads == s.threads[t := s'.threads[t]]
  {
    match s.threads[t]
    case Outside => Goto(s, t, Waiting(a.call, |s.log|))
    case Waiting(call, begun) => Acquire(s, t, call, begun)
    case Inside(call, begun) => Enter(s, t, call, begun)
    case InEntry(call, begun, ref, mark) => StepInEntry(s, t, call, begun, ref, mark)
    case Pushed(call, begun) => Insert(s, t, call, begun)
    case Erased(call, begun) => Free(s, t, call, begun)
    case Freed(call, begun) =>
      Goto(s.(entries := s.entries - {call.k}, log := s.log + [Removed(call.k)]), t,
           Leaving(call, begun, |s.log|, Completed))
    case Leaving(call, begun, mark, out) =>
      Goto(s.(readers := s.readers - {t},
              writer := if call.Shared() then s.writer else None,
              done := s.done + [Record(t, call, begun, mark, |s.log|, out)]), t, Outside)
  }

  function Acquire(s: Cache, t: nat, call: Call, begun: nat): Cache
    requires t < |s.threads|
  {
    if call.Shared()
    then Goto(s.(readers := s.readers + {t}), t, Inside(call, begun))
    else Goto(s.(writer := Some(t)), t, Inside(call, begun))
  }

  /** The lock stays as it is, only t moves, and the log at most grows. */
  predicate KeepsLock(s: Cache, s': Cache, t: nat) {
    && |s'.threads| == |s.threads| && t < |s.threads|
    && s'.threads == s.threads[t := s'.threads[t]]
    && s'.readers == s.readers && s'.writer == s.writer
    && s.log <= s'.log
  }

  /** The thread is somewhere between its first step under the lock and its release. */
  predicate InStage(p: Pc, call: Call, begun: nat) {
    && !p.Outside? && !p.Waiting? && !p.Inside? && p.call == call && p.begun == begun
    && (p.InEntry? ==> call.Shared())
    && (p.Pushed? ==> call.Add?)
    && (p.Erased? || p.Freed? ==> call.Remove?)
  }

  /** A get or a set that found its entry begins its call there. */
  function BeginInEntry(s: Cache, t: nat, call: Call, begun: nat, a: E.Act): (s': Cache)
    requires t < |s.threads| && call.Shared() && call.k in s.entries && s.entries[call.k] in s.heap
    requires E.Enabled(s.heap[s.entries[call.k]], t, a)
    ensures KeepsLock(s, s', t) && InStage(s'.threads[t], call, begun)
  {
    var r := s.entries[call.k];
    Goto(s.(heap := s.heap[r := E.Do(s.heap[r], t, a)]), t, InEntry(call, begun, r, 0))
  }

  /** The first step under the lock: look the key up, push it, or erase it from the list. */
  function Enter(s: Cache, t: nat, call: Call, begun: nat): (s': Cache)
    requires t < |s.threads|
    requires call.Shared() && call.k in s.entries ==>
      s.entries[call.k] in s.heap && E.Enabled(s.heap[s.entries[call.k]], t, E.BeginGet)
    ensures KeepsLock(s, s', t) && (s'.undefined || InStage(s'.threads[t], call, begun))
  {
    match call
    case Get(k) =>
      if k !in s.entries
      then Goto(s.(log := s.log + [Missed(k)]), t, Leaving(call, begun, |s.log|, Threw))
      else BeginInEntry(s, t, call, begun, E.BeginGet)
    case Set(k, v) =>
      if k !in s.entries then s.(undefined := true)
      else BeginInEntry(s, t, call, begun, E.BeginSet(v))
    case Add(k) => Goto(s.(list := s.list + [k]), t, Pushed(call, begun))
    case Remove(k) =>
      if k !in s.list then s.(undefined := true)
      else Goto(s.(list := EraseFirst(s.list, k)), t, Erased(call, begun))
  }

  /** A thread inside an entry goes on there until its call has returned. */
  function EntryAct(e: E.Entry, t: nat): E.Act
    requires t < |e.threads|
  {
    if e.threads[t].ReadReturned? || e.threads[t].WriteReturned? then E.Finish else E.Advance
  }

  /** A get takes effect at its counter increment, a set at its flip. */
  function StepInEntry(s: Cache, t: nat, call: Call, begun: nat, ref: Ref, mark: nat): (s': Cache)
    requires t < |s.threads| && ref in s.heap && t < |s.heap[ref].threads|
    requires E.Enabled(s.heap[ref], t, EntryAct(s.heap[ref], t))
    requires s.threads[t] == InEntry(call, begun, ref, mark) && call.Shared()
    ensures KeepsLock(s, s', t) && InStage(s'.threads[t], call, begun)
  {
    var e := s.heap[ref];
    var p := e.threads[t];
    var s1 := s.(heap := s.heap[ref := E.Do(e, t, EntryAct(e, t))]);
    if p.ReadReturned? then
      Goto(s1, t, Leaving(call, begun, mark, Value(p.acc, (p.at - p.seen) % 2 == 0, p.calm)))
    else if p.WriteReturned? then
      Goto(s1, t, Leaving(call, begun, mark, Completed))
    else if p.ReadLoaded? then
      Goto(s1.(log := s.log + [Got(call.k, E.Current(e))]), t, InEntry(call, begun, ref, |s.log|))
    else if p.WriteFlipping? then
      Goto(s1.(log := s.log + [Put(call.k, p.v)]), t, InEntry(call, begun, ref, |s.log|))
    else s1
  }

  /** A new entry under the key; an entry that was there before is not freed. */
  function Insert(s: Cache, t: nat, call: Call, begun: nat): Cache
    requires t < |s.threads|
  {
    Goto(s.(entries := s.entries[call.k := s.nextRef],
            heap := s.heap[s.nextRef := E.NewEntry(|s.threads|)],
            nextRef := s.nextRef + 1,
            log := s.log + [Added(call.k)],
            tidy := s.tidy && call.k !in s.entries), t,
         Leaving(call, begun, |s.log|, Completed))
  }

  function Free(s: Cache, t: nat, call: Call, begun: nat): Cache
    requires t < |s.threads|
  {
    var s' := if call.k in s.entries then s.(heap := s.heap - {s.entries[call.k]}) else s;
    Goto(s', t, Freed(call, begun))
  }
}
