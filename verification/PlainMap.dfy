/** The plain map the device cache stands for, and logs of operations on it. */
module PlainMap {
  type Key = string
  type Addresses = seq<(string, int)>

  datatype Event =
    | Added(k: Key)
    | Removed(k: Key)
    | Put(k: Key, v: Addresses)
    | Got(k: Key, v: Addresses)
    | Missed(k: Key)

  function Apply(m: map<Key, Addresses>, ev: Event): map<Key, Addresses> {
    match ev
    case Added(k) => m[k := []]
    case Removed(k) => m - {k}
    case Put(k, v) => m[k := v]
    case Got(_, _) => m
    case Missed(_) => m
  }

  /** A get sees the value stored under its key, a miss no value, and a put replaces a value. */
  predicate Legal(m: map<Key, Addresses>, ev: Event) {
    match ev
    case Got(k, v) => k in m && m[k] == v
    case Missed(k) => k !in m
    case Put(k, _) => k in m
    case _ => true
  }

  function Replay(log: seq<Event>): map<Key, Addresses> {
    if log == [] then map[] else Apply(Replay(log[..|log| - 1]), log[|log| - 1])
  }

  predicate LegalLog(log: seq<Event>) {
    log == [] || (LegalLog(log[..|log| - 1]) && Legal(Replay(log[..|log| - 1]), log[|log| - 1]))
  }

  predicate Writes(ev: Event, k: Key) {
    (ev.Added? || ev.Put?) && ev.k == k
  }

  lemma Extend(log: seq<Event>, ev: Event)
    requires LegalLog(log) && Legal(Replay(log), ev)
    ensures LegalLog(log + [ev]) && Replay(log + [ev]) == Apply(Replay(log), ev)
  {
    assert (log + [ev])[..|log|] == log;
  }

  lemma {:induction false} LegalAt(log: seq<Event>, i: nat)
    requires LegalLog(log) && i < |log|
    ensures Legal(Replay(log[..i]), log[i])
  {
    if i < |log| - 1 {
      LegalAt(log[..|log| - 1], i);
      assert log[..|log| - 1][..i] == log[..i];
    }
  }

  /** The event that put the value under k that is there after the first m events. */
  lemma {:induction false} LastWrite(log: seq<Event>, k: Key, m: nat) returns (i: nat)
    requires m <= |log| && k in Replay(log[..m])
    ensures i < m && Writes(log[i], k)
    ensures Replay(log[..m])[k] == if log[i].Put? then log[i].v else []
    ensures forall j :: i < j < m ==> !Writes(log[j], k) && log[j] != Removed(k)
    decreases m
  {
    assert log[..m][..m - 1] == log[..m - 1];
    if Writes(log[m - 1], k) {
      i := m - 1;
    } else {
      i := LastWrite(log, k, m - 1);
    }
  }
}
