/** The notification dedup cache: per session a table of keys and the times they were last seen, with a
    time to live and a capacity. It is proved against the plain history of calls. */
module Dedup {
  import opened Text

  const TTL: int := 8 * 60 * 1_000_000_000    // nanoseconds
  const CAPACITY: nat := 2048

  datatype Call = Call(key: string, at: int)

  type Entries = map<string, int>

  // ----- one call on one table -----

  function Expire(entries: Entries, cutoff: int): Entries {
    map k | k in entries && entries[k] >= cutoff :: entries[k]
  }

  predicate IsOldest(entries: Entries, k: string) {
    k in entries && forall j | j in entries :: entries[k] <= entries[j]
  }

  /** What one call does to a table and answers. Among several oldest entries any one may be dropped. */
  ghost predicate Marked(before: Entries, key: string, at: int, after: Entries, seen: bool) {
    var live := Expire(before, at - TTL);
    if key in live then seen && after == live[key := at]
    else
      && !seen
      && if |live| < CAPACITY then after == live[key := at]
         else exists k :: IsOldest(live, k) && after == (live - {k})[key := at]
  }

  // ----- the history it stands for -----

  /** Every key ever seen with the time of its latest call. */
  function Latest(h: seq<Call>): Entries {
    if h == [] then map[] else Latest(h[..|h| - 1])[h[|h| - 1].key := h[|h| - 1].at]
  }

  function Newer(all: Entries, k: string): set<string>
    requires k in all
  {
    set j | j in all && all[j] > all[k]
  }

  /** The keys that are young enough and among the most recent ones. */
  function Live(all: Entries, now: int): Entries {
    map k | k in all && all[k] >= now - TTL && |Newer(all, k)| < CAPACITY :: all[k]
  }

  ghost predicate Injective(all: Entries) {
    forall i, j | i in all && j in all && i != j :: all[i] != all[j]
  }

  /** All latest calls are at or before `now`. */
  ghost predicate UpTo(all: Entries, now: int) {
    forall k | k in all :: all[k] <= now
  }

  lemma SubsetSize<K>(a: set<K>, b: set<K>)
    requires a <= b
    ensures |a| <= |b|
  {
    assert b == a + (b - a);
  }

  /** The live part after the clock has moved on. */
  lemma ExpireLive(all: Entries, now: int, at: int)
    requires now <= at
    ensures Expire(Live(all, now), at - TTL) == Live(all, at)
  {
  }

  lemma NewerAfter(all: Entries, key: string, at: int, k: string)
    requires UpTo(all, at - 1) && k in all && k != key
    ensures Newer(all[key := at], k) == Newer(all, k) + {key}
  {
  }

  /** The newer keys of a live key are live themselves. */
  lemma NewerAreLive(all: Entries, at: int, k: string)
    requires k in Live(all, at)
    ensures Newer(all, k) <= Live(all, at).Keys
  {
    forall j | j in Newer(all, k) ensures j in Live(all, at) {
      SubsetSize(Newer(all, j), Newer(all, k));
    }
  }

  /** A repeated key keeps everyone's rank. */
  lemma HitKeepsRank(all: Entries, key: string, at: int, k: string)
    requires UpTo(all, at - 1) && Injective(all) && key in Live(all, at) && k in all && k != key
    ensures |Newer(all[key := at], k)| < CAPACITY <==> |Newer(all, k)| < CAPACITY
  {
    NewerAfter(all, key, at, k);
    if all[key] < all[k] {
      assert Newer(all, k) + {key} + {k} <= Newer(all, key) + {key};
      assert k !in Newer(all, k) + {key};
      SubsetSize(Newer(all, k) + {key} + {k}, Newer(all, key) + {key});
    } else {
      assert Newer(all, k) + {key} == Newer(all, k);
    }
  }

  /** What is left of a table when the key joins it: the old keys that are still live then. */
  ghost predicate StillLive(all: Entries, key: string, at: int, kept: Entries) {
    && (forall k | k in kept :: k in all && kept[k] == all[k])
    && forall k | k in all && k != key :: k in kept <==> all[k] >= at - TTL && |Newer(all[key := at], k)| < CAPACITY
  }

  lemma JoinIsLive(all: Entries, key: string, at: int, kept: Entries)
    requires UpTo(all, at - 1) && StillLive(all, key, at, kept)
    ensures kept[key := at] == Live(all[key := at], at)
  {
    assert Newer(all[key := at], key) == {};
  }

  lemma HitRefines(all: Entries, key: string, at: int)
    requires UpTo(all, at - 1) && Injective(all) && key in Live(all, at)
    ensures Live(all, at)[key := at] == Live(all[key := at], at)
  {
    forall k | k in all && k != key
      ensures |Newer(all[key := at], k)| < CAPACITY <==> |Newer(all, k)| < CAPACITY
    {
      HitKeepsRank(all, key, at, k);
    }
    JoinIsLive(all, key, at, Live(all, at));
  }

  /** A new key in a table with room keeps every live key live. */
  lemma RoomKeepsRank(all: Entries, key: string, at: int, k: string)
    requires UpTo(all, at - 1) && key !in Live(all, at) && |Live(all, at)| < CAPACITY && k in Live(all, at)
    ensures |Newer(all[key := at], k)| < CAPACITY
  {
    NewerAfter(all, key, at, k);
    NewerAreLive(all, at, k);
    SubsetSize(Newer(all, k) + {k}, Live(all, at).Keys);
  }

  /** A key that was not live does not come back. */
  lemma DeadStaysDead(all: Entries, key: string, at: int, k: string)
    requires UpTo(all, at - 1) && k in all && k != key && |Newer(all, k)| >= CAPACITY
    ensures |Newer(all[key := at], k)| >= CAPACITY
  {
    NewerAfter(all, key, at, k);
    SubsetSize(Newer(all, k), Newer(all[key := at], k));
  }

  lemma RoomKeepsLive(all: Entries, key: string, at: int, k: string)
    requires UpTo(all, at - 1) && key !in Live(all, at) && |Live(all, at)| < CAPACITY && k in all && k != key
    ensures k in Live(all, at) <==> all[k] >= at - TTL && |Newer(all[key := at], k)| < CAPACITY
  {
    if k in Live(all, at) {
      RoomKeepsRank(all, key, at, k);
    } else if |Newer(all, k)| >= CAPACITY {
      DeadStaysDead(all, key, at, k);
    }
  }

  lemma RoomRefines(all: Entries, key: string, at: int)
    requires UpTo(all, at - 1) && key !in Live(all, at) && |Live(all, at)| < CAPACITY
    ensures Live(all, at)[key := at] == Live(all[key := at], at)
  {
    forall k | k in all && k != key
      ensures k in Live(all, at) <==> all[k] >= at - TTL && |Newer(all[key := at], k)| < CAPACITY
    {
      RoomKeepsLive(all, key, at, k);
    }
    JoinIsLive(all, key, at, Live(all, at));
  }

  /** A table is never larger than the capacity: its oldest key has all the others newer. */
  lemma {:induction false} LiveFits(all: Entries, at: int)
    requires Injective(all)
    ensures |Live(all, at)| <= CAPACITY
  {
    var live := Live(all, at);
    if live != map[] {
      var o := OldestKey(live);
      NewerAreLive(all, at, o);
      assert live.Keys <= Newer(all, o) + {o};
      SubsetSize(live.Keys, Newer(all, o) + {o});
    }
  }

  lemma {:induction false} OldestKey(entries: Entries) returns (o: string)
    requires entries != map[]
    ensures IsOldest(entries, o)
    decreases |entries|
  {
    var k :| k in entries;
    var rest := entries - {k};
    assert forall j | j in entries && j != k :: j in rest && rest[j] == entries[j];
    if rest == map[] {
      o := k;
    } else {
      assert rest.Keys == entries.Keys - {k};
      var r := OldestKey(rest);
      o := if entries[k] < entries[r] then k else r;
    }
  }

  lemma OthersAreNewer(all: Entries, at: int, o: string)
    requires Injective(all) && IsOldest(Live(all, at), o)
    ensures Live(all, at).Keys - {o} <= Newer(all, o)
  {
  }

  lemma AtLeast<K>(a: set<K>, key: K, b: set<K>, o: K)
    requires b - {o} <= a && key !in a && o in b
    ensures |a + {key}| >= |b|
  {
    SubsetSize(b - {o}, a);
  }

  lemma TwoLess<K>(a: set<K>, x: K, y: K, b: set<K>)
    requires a <= b && x in b && y in b && x !in a && y !in a && x != y
    ensures |a| + 2 <= |b|
  {
    SubsetSize(a + {x} + {y}, b);
  }

  lemma OldestGoes(all: Entries, key: string, at: int, o: string)
    requires UpTo(all, at - 1) && Injective(all) && key !in Live(all, at) && |Live(all, at)| >= CAPACITY
    requires IsOldest(Live(all, at), o)
    ensures |Newer(all[key := at], o)| >= CAPACITY
  {
    NewerAfter(all, key, at, o);
    NewerAreLive(all, at, o);
    OthersAreNewer(all, at, o);
    AtLeast(Newer(all, o), key, Live(all, at).Keys, o);
  }

  lemma NewerOneStays(all: Entries, key: string, at: int, o: string, k: string)
    requires UpTo(all, at - 1) && Injective(all) && key !in Live(all, at)
    requires IsOldest(Live(all, at), o) && k in Live(all, at) && k != o
    ensures |Newer(all[key := at], k)| < CAPACITY
  {
    NewerAfter(all, key, at, k);
    NewerAreLive(all, at, k);
    LiveFits(all, at);
    OthersAreNewer(all, at, o);
    TwoLess(Newer(all, k), k, o, Live(all, at).Keys);
  }

  /** In a full table the oldest key drops out and every other one stays. */
  lemma FullKeepsLive(all: Entries, key: string, at: int, o: string, k: string)
    requires UpTo(all, at - 1) && Injective(all) && key !in Live(all, at) && |Live(all, at)| >= CAPACITY
    requires IsOldest(Live(all, at), o) && k in all && k != key
    ensures k in Live(all, at) - {o} <==> all[k] >= at - TTL && |Newer(all[key := at], k)| < CAPACITY
  {
    if k == o {
      OldestGoes(all, key, at, o);
    } else if k in Live(all, at) {
      NewerOneStays(all, key, at, o, k);
    } else if |Newer(all, k)| >= CAPACITY {
      DeadStaysDead(all, key, at, k);
    }
  }

  lemma FullRefines(all: Entries, key: string, at: int, o: string)
    requires UpTo(all, at - 1) && Injective(all) && key !in Live(all, at) && |Live(all, at)| >= CAPACITY
    requires IsOldest(Live(all, at), o)
    ensures (Live(all, at) - {o})[key := at] == Live(all[key := at], at)
  {
    forall k | k in all && k != key
      ensures k in Live(all, at) - {o} <==> all[k] >= at - TTL && |Newer(all[key := at], k)| < CAPACITY
    {
      FullKeepsLive(all, key, at, o, k);
    }
    JoinIsLive(all, key, at, Live(all, at) - {o});
  }

  /** One call on the live part of a history is one more call in the history. */
  lemma CallRefines(all: Entries, now: int, key: string, at: int, after: Entries, seen: bool)
    requires UpTo(all, now) && now < at && Injective(all)
    requires Marked(Live(all, now), key, at, after, seen)
    ensures after == Live(all[key := at], at)
    ensures seen <==> key in Live(all, at)
  {
    ExpireLive(all, now, at);
    var live := Live(all, at);
    if key in live {
      HitRefines(all, key, at);
    } else if |live| < CAPACITY {
      RoomRefines(all, key, at);
    } else {
      var o :| IsOldest(live, o) && after == (live - {o})[key := at];
      FullRefines(all, key, at, o);
    }
  }

  // ----- the answer in terms of the history -----

  ghost predicate Increasing(h: seq<Call>) {
    forall i, j | 0 <= i < j < |h| :: h[i].at < h[j].at
  }

  /** The latest call with this key. */
  function LastIndex(h: seq<Call>, key: string): (i: int)
    ensures -1 <= i < |h|
    ensures 0 <= i ==> h[i].key == key
    ensures forall j | i < j < |h| :: h[j].key != key
  {
    if h == [] then -1
    else if h[|h| - 1].key == key then |h| - 1
    else LastIndex(h[..|h| - 1], key)
  }

  function KeysAfter(h: seq<Call>, i: int): set<string>
    requires -1 <= i
  {
    set j | i < j < |h| :: h[j].key
  }

  /** The specification: the key's latest earlier call is within the time to live, and fewer than
      `CAPACITY` distinct other keys were seen since. */
  ghost predicate SeenBefore(h: seq<Call>, key: string, at: int) {
    var i := LastIndex(h, key);
    0 <= i && at - h[i].at <= TTL && |KeysAfter(h, i)| < CAPACITY
  }

  lemma {:induction false} LatestAt(h: seq<Call>, key: string)
    ensures key in Latest(h) <==> 0 <= LastIndex(h, key)
    ensures key in Latest(h) ==> Latest(h)[key] == h[LastIndex(h, key)].at
  {
    if h != [] { LatestAt(h[..|h| - 1], key); }
  }

  lemma LatestIsInjective(h: seq<Call>)
    requires Increasing(h)
    ensures Injective(Latest(h))
    ensures h != [] ==> UpTo(Latest(h), h[|h| - 1].at)
  {
  }

  /** The keys newer than a key are those seen after its latest call. */
  lemma NewerIsKeysAfter(h: seq<Call>, key: string)
    requires Increasing(h) && key in Latest(h)
    ensures 0 <= LastIndex(h, key) && Newer(Latest(h), key) == KeysAfter(h, LastIndex(h, key))
  {
    LatestAt(h, key);
    var i := LastIndex(h, key);
    forall k ensures k in Newer(Latest(h), key) <==> k in KeysAfter(h, i) {
      LatestAt(h, k);
      var j := LastIndex(h, k);
      if k in KeysAfter(h, i) {
        assert i < j && h[i].at < h[j].at;
      }
      if k in Newer(Latest(h), key) {
        assert h[i].at < h[j].at;
        assert h[j].key in KeysAfter(h, i);
      }
    }
  }

  /** Being live is being seen before. */
  lemma LiveIsSeenBefore(h: seq<Call>, key: string, at: int)
    requires Increasing(h)
    ensures key in Live(Latest(h), at) <==> SeenBefore(h, key, at)
  {
    LatestAt(h, key);
    if key in Latest(h) { NewerIsKeysAfter(h, key); }
  }

  /** The table that a history leaves behind. */
  function TableOf(h: seq<Call>): Entries {
    if h == [] then map[] else Live(Latest(h), h[|h| - 1].at)
  }

  /** On strictly increasing times the cache answers by the history, and stays the table of the history. */
  lemma CacheRefinesHistory(h: seq<Call>, key: string, at: int, after: Entries, seen: bool)
    requires Increasing(h + [Call(key, at)]) && Marked(TableOf(h), key, at, after, seen)
    ensures seen <==> SeenBefore(h, key, at)
    ensures after == TableOf(h + [Call(key, at)])
  {
    var h' := h + [Call(key, at)];
    assert h'[..|h|] == h;
    assert forall i | 0 <= i < |h| :: h'[i] == h[i];
    LatestIsInjective(h);
    LiveIsSeenBefore(h, key, at);
    if h == [] {
      assert Live(map[], at - 1) == map[];
      CallRefines(map[], at - 1, key, at, after, seen);
    } else {
      assert h'[|h| - 1].at < h'[|h|].at;
      CallRefines(Latest(h), h[|h| - 1].at, key, at, after, seen);
    }
  }

  // ----- the cache itself -----

  /** Map iteration visits the keys in any order. */
  method AnyKey<K>(keys: set<K>) returns (key: K)
    requires |keys| != 0
    ensures key in keys
  {
    key :| key in keys;
  }

  method ExpireOld(entries: Entries, cutoff: int) returns (live: Entries)
    ensures live == Expire(entries, cutoff)
  {
    live := entries;
    var keys := entries.Keys;
    while |keys| != 0
      invariant keys <= live.Keys <= entries.Keys
      invariant forall k | k in entries && k !in keys :: k in live <==> entries[k] >= cutoff
      invariant forall k | k in live :: live[k] == entries[k]
    {
      var key := AnyKey(keys);
      keys := keys - {key};
      if live[key] < cutoff {
        live := live - {key};
      }
    }
  }

  method DropOldest(entries: Entries) returns (rest: Entries)
    requires "" !in entries
    ensures if entries == map[] then rest == map[] else exists k :: IsOldest(entries, k) && rest == entries - {k}
  {
    var oldestKey, oldestAt := "", 0;
    var keys := entries.Keys;
    while |keys| != 0
      invariant keys <= entries.Keys
      invariant oldestKey == "" ==> keys == entries.Keys
      invariant oldestKey != "" ==> oldestKey in entries && entries[oldestKey] == oldestAt
      invariant oldestKey != "" ==> forall k | k in entries && k !in keys :: oldestAt <= entries[k]
    {
      var key := AnyKey(keys);
      keys := keys - {key};
      if oldestKey == "" || entries[key] < oldestAt {
        oldestKey, oldestAt := key, entries[key];
      }
    }
    rest := entries;
    if oldestKey != "" {
      assert IsOldest(entries, oldestKey);
      rest := entries - {oldestKey};
    }
  }

  lemma KeysAfterPut(entries: Entries, key: string, at: int)
    ensures entries[key := at].Keys == entries.Keys + {key}
  {
  }

  /** Makes room if there is none, then adds a key that is not there. */
  method Insert(live: Entries, key: string, at: int) returns (after: Entries)
    requires |live| <= CAPACITY && "" !in live && key !in live && key != ""
    ensures if |live| < CAPACITY then after == live[key := at]
            else exists o :: IsOldest(live, o) && after == (live - {o})[key := at]
    ensures |after| <= CAPACITY && "" !in after
  {
    after := live;
    if |after| >= CAPACITY {
      after := DropOldest(after);
      SmallerByOne(live, after);
    }
    KeysAfterPut(after, key, at);
    after := after[key := at];
  }

  method MarkOne(entries: Entries, key: string, at: int) returns (seen: bool, after: Entries)
    requires |entries| <= CAPACITY && "" !in entries && key != ""
    ensures Marked(entries, key, at, after, seen)
    ensures |after| <= CAPACITY && "" !in after && key in after && after[key] == at
  {
    after := ExpireOld(entries, at - TTL);
    SubsetSize(after.Keys, entries.Keys);
    seen := key in after;
    if seen {
      KeysAfterPut(after, key, at);
      after := after[key := at];
    } else {
      after := Insert(after, key, at);
    }
  }

  lemma SmallerByOne(live: Entries, rest: Entries)
    requires exists k :: IsOldest(live, k) && rest == live - {k}
    ensures |rest| == |live| - 1 && rest.Keys <= live.Keys
  {
  }

  class NotificationCache {
    var seen: map<string, Entries>
    ghost var calls: map<string, seq<Call>>

    ghost function History(sessionID: string): seq<Call>
      reads this
    {
      if sessionID in calls then calls[sessionID] else []
    }

    function Of(sessionID: string): Entries
      reads this
    {
      if sessionID in seen then seen[sessionID] else map[]
    }

    /** No table exceeds the capacity; and a table whose calls came at increasing times is the table of
        its history. */
    ghost predicate Valid()
      reads this
    {
      forall s: string :: TableOk(s)
    }

    ghost predicate TableOk(s: string)
      reads this
    {
      && |Of(s)| <= CAPACITY && "" !in Of(s)
      && (Increasing(History(s)) ==> Of(s) == TableOf(History(s)))
    }

    constructor ()
      ensures Valid() && seen == map[] && calls == map[]
    {
      seen, calls := map[], map[];
    }

    method MarkSeen(sessionID: string, dedupeKey: string, at: int) returns (dup: bool)
      requires Valid()
      modifies this
      ensures Valid()
      ensures var s, k := TrimSpace(sessionID), TrimSpace(dedupeKey);
              if s == "" || k == "" then !dup && seen == old(seen) && calls == old(calls)
              else
                && calls == old(calls)[s := old(History(s)) + [Call(k, at)]]
                && (Increasing(old(History(s)) + [Call(k, at)]) ==> (dup <==> SeenBefore(old(History(s)), k, at)))
                && |Of(s)| <= CAPACITY && k in Of(s) && Of(s)[k] == at
                && seen == old(seen)[s := Of(s)]
    {
      var s, k := TrimSpace(sessionID), TrimSpace(dedupeKey);
      if s == "" || k == "" {
        return false;
      }
      dup := MarkKey(s, k, at);
    }

    /** The lock-held part. */
    method MarkKey(s: string, k: string, at: int) returns (dup: bool)
      requires Valid() && k != ""
      modifies this
      ensures Valid()
      ensures calls == old(calls)[s := old(History(s)) + [Call(k, at)]]
      ensures Increasing(old(History(s)) + [Call(k, at)]) ==> (dup <==> SeenBefore(old(History(s)), k, at))
      ensures |Of(s)| <= CAPACITY && k in Of(s) && Of(s)[k] == at
      ensures seen == old(seen)[s := Of(s)]
    {
      assert TableOk(s);
      ghost var h := History(s);
      var table;
      dup, table := MarkOne(Of(s), k, at);
      MarkedRefines(h, k, at, Of(s), table, dup);
      Remember(s, table, h + [Call(k, at)]);
    }

    method Remember(s: string, table: Entries, ghost h: seq<Call>)
      requires Valid() && |table| <= CAPACITY && "" !in table && (Increasing(h) ==> table == TableOf(h))
      modifies this
      ensures Valid() && seen == old(seen)[s := table] && calls == old(calls)[s := h]
    {
      seen := seen[s := table];
      calls := calls[s := h];
      forall t: string ensures TableOk(t) {
        assert old(TableOk(t));
        assert t != s ==> Of(t) == old(Of(t)) && History(t) == old(History(t));
      }
    }
  }

  /** One call on the table of a history whose times increase. */
  lemma MarkedRefines(h: seq<Call>, key: string, at: int, before: Entries, after: Entries, seen: bool)
    requires Increasing(h) ==> before == TableOf(h)
    requires Marked(before, key, at, after, seen)
    ensures Increasing(h + [Call(key, at)]) ==>
              (seen <==> SeenBefore(h, key, at)) && after == TableOf(h + [Call(key, at)])
  {
    if Increasing(h + [Call(key, at)]) {
      PrefixIncreases(h, Call(key, at));
      CacheRefinesHistory(h, key, at, after, seen);
    }
  }

  lemma PrefixIncreases(h: seq<Call>, c: Call)
    requires Increasing(h + [c])
    ensures Increasing(h)
  {
    assert forall i | 0 <= i < |h| :: (h + [c])[i] == h[i];
  }
}
