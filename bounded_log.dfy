/**
 * The append-then-keep-newest rule shared by the locally stored logs of
 * analytics-tracker.tsx and error-monitoring.tsx:
 * `log.push(entry); if (log.length > cap) log.splice(0, log.length - cap);`
 */
module BoundedLog {

  /** `s` ends with `suffix`. */
  predicate IsSuffix<T(==)>(suffix: seq<T>, s: seq<T>) {
    |suffix| <= |s| && suffix == s[|s| - |suffix|..]
  }

  /** `if (s.length > cap) s.splice(0, s.length - cap)`: the newest `cap` entries. */
  function KeepNewest<T(==)>(s: seq<T>, cap: nat): (r: seq<T>)
    ensures |r| == if |s| > cap then cap else |s|
    ensures IsSuffix(r, s)
  {
    if |s| > cap then s[|s| - cap..] else s
  }

  /** The stored log after `entry` is pushed and the oldest entries beyond `cap` dropped. */
  function AppendCapped<T(==)>(log: seq<T>, entry: T, cap: nat): (r: seq<T>)
    ensures |r| == if |log| + 1 < cap then |log| + 1 else cap
    ensures IsSuffix(r, log + [entry])
    ensures cap > 0 ==> r[|r| - 1] == entry
    ensures |log| < cap ==> r == log + [entry]
  {
    KeepNewest(log + [entry], cap)
  }

  /** Recording into a full log drops exactly its oldest entry. */
  lemma FullLogDropsOldest<T>(log: seq<T>, entry: T, cap: nat)
    requires |log| == cap > 0
    ensures AppendCapped(log, entry, cap) == log[1..] + [entry]
  {
  }

  /** Trimming early and trimming late keep the same newest entries. */
  lemma KeepNewestAbsorbs<T>(s: seq<T>, t: seq<T>, cap: nat)
    ensures KeepNewest(KeepNewest(s, cap) + t, cap) == KeepNewest(s + t, cap)
  {
    if |s| > cap {
      var k := KeepNewest(s, cap);
      var a := k + t;
      var b := s + t;
      assert a == b[|s| - cap..];
    }
  }

  /** Recording `entries` one at a time. */
  function AppendAll<T(==)>(log: seq<T>, entries: seq<T>, cap: nat): seq<T>
    decreases |entries|
  {
    if entries == [] then log else AppendAll(AppendCapped(log, entries[0], cap), entries[1..], cap)
  }

  /** After any non-empty run of records the log holds the newest `cap` of all entries,
      old and new, in the order they were recorded. */
  lemma {:induction false} AppendAllKeepsNewest<T>(log: seq<T>, entries: seq<T>, cap: nat)
    requires entries != []
    ensures AppendAll(log, entries, cap) == KeepNewest(log + entries, cap)
    decreases |entries|
  {
    var first := log + [entries[0]];
    assert first + entries[1..] == log + entries;
    if entries[1..] == [] {
      assert entries == [entries[0]];
    } else {
      AppendAllKeepsNewest(KeepNewest(first, cap), entries[1..], cap);
      KeepNewestAbsorbs(first, entries[1..], cap);
    }
  }
}
