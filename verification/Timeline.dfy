/** The merged timeline of two logs (src/replay/timeline_merge.cpp). Keys are nanoseconds. */
module Timeline {

  datatype Kind = Trade | Quote | Other

  /** A log event as the replay tools see it; `mid` is the mid price of a quote. */
  datatype LogEvent = LogEvent(key: int, kind: Kind, mid: real)

  predicate Sorted(m: seq<LogEvent>) {
    forall i, j :: 0 <= i < j < |m| ==> m[i].key <= m[j].key
  }

  /** What `merge_sorted` may return: std::sort fixes the keys but not the order of ties. */
  ghost predicate IsMerge(a: seq<LogEvent>, b: seq<LogEvent>, m: seq<LogEvent>) {
    Sorted(m) && multiset(m) == multiset(a) + multiset(b)
  }

  function Swapped(m: seq<LogEvent>, i: nat, j: nat): seq<LogEvent>
    requires i < |m| && j < |m|
  {
    m[i := m[j]][j := m[i]]
  }

  /** Exchanging two events of one time gives another sorted order of the same events. */
  lemma SwappedSorted(m: seq<LogEvent>, i: nat, j: nat)
    requires Sorted(m) && i < |m| && j < |m| && m[i].key == m[j].key
    ensures Sorted(Swapped(m, i, j)) && multiset(Swapped(m, i, j)) == multiset(m)
  {
  }
}
