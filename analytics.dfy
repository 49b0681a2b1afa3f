/**
 * The analytics service over an in-memory event table: consent-gated
 * recording, the statistics page's counts and groupings, and range
 * deletion. Times are milliseconds since the epoch.
 */
module Analytics {
  import opened Base

  const DayMs := 86400000

  /** The UTC calendar day of an instant, as a day number: `toISOString().split('T')[0]`. */
  function Day(ms: int): int {
    ms / DayMs
  }

  /** The fields a caller passes to `trackEvent`. */
  datatype EventData = EventData(
    sessionId: string, pagePath: string, pageTitle: Option<string>,
    referrer: Option<string>, userAgent: Option<string>,
    language: Option<string>, country: Option<string>,
    eventType: Option<string>, metadata: Option<seq<(string, string)>>)

  /** A row of the events table. */
  datatype Event = Event(
    id: string, sessionId: string, pagePath: string, pageTitle: Option<string>,
    referrer: Option<string>, userAgent: Option<string>,
    language: Option<string>, country: Option<string>,
    eventType: string, metadata: seq<(string, string)>, createdAt: int)

  /** `x || null` on an optional string. */
  function OrNull(x: Option<string>): (r: Option<string>)
    ensures r.Some? <==> x.Some? && x.value != ""
    ensures r.Some? ==> r == x
  {
    if x.Some? && x.value != "" then x else None
  }

  /** The row `create` writes for `data`. */
  function Recorded(data: EventData, id: string, now: int): (e: Event)
    ensures e.sessionId == data.sessionId && e.pagePath == data.pagePath && e.pageTitle == data.pageTitle
    ensures e.referrer == OrNull(data.referrer) && e.userAgent == OrNull(data.userAgent)
    ensures e.language == data.language && e.country == data.country
    ensures e.eventType == (if data.eventType.Some? && data.eventType.value != "" then data.eventType.value else "pageview")
    ensures e.metadata == (if data.metadata.Some? then data.metadata.value else [])
    ensures e.id == id && e.createdAt == now
  {
    Event(id, data.sessionId, data.pagePath, data.pageTitle, OrNull(data.referrer), OrNull(data.userAgent),
      data.language, data.country,
      if data.eventType.Some? && data.eventType.value != "" then data.eventType.value else "pageview",
      data.metadata.GetOr([]), now)
  }

  /** How the `create` call ended. */
  datatype CreateOutcome = Stored | TableMissing | OtherFailure

  /** The page views between `start` and `end`, both included, in table order. */
  function PageViews(evs: seq<Event>, start: int, end: int): (r: seq<Event>)
    ensures |r| <= |evs|
    ensures forall e :: e in r <==> e in evs && start <= e.createdAt <= end && e.eventType == "pageview"
  {
    if evs == [] then []
    else
      var init := PageViews(evs[..|evs| - 1], start, end);
      var e := evs[|evs| - 1];
      assert evs == evs[..|evs| - 1] + [e];
      if start <= e.createdAt <= end && e.eventType == "pageview" then init + [e] else init
  }

  /** Each page view in range is kept as often as it occurs; every other event is dropped. */
  lemma {:induction false} PageViewsCounts(evs: seq<Event>, start: int, end: int, e: Event)
    ensures multiset(PageViews(evs, start, end))[e] ==
      if start <= e.createdAt <= end && e.eventType == "pageview" then multiset(evs)[e] else 0
    decreases |evs|
  {
    if evs != [] {
      assert evs == evs[..|evs| - 1] + [evs[|evs| - 1]];
      PageViewsCounts(evs[..|evs| - 1], start, end, e);
    }
  }

  /** The page views of a concatenation are those of each part, in order. */
  lemma {:induction false} PageViewsAppend(a: seq<Event>, b: seq<Event>, start: int, end: int)
    ensures PageViews(a + b, start, end) == PageViews(a, start, end) + PageViews(b, start, end)
    decreases |b|
  {
    if b == [] {
      assert a + b == a;
    } else {
      assert (a + b)[..|a + b| - 1] == a + b[..|b| - 1];
      assert (a + b)[|a + b| - 1] == b[|b| - 1];
      PageViewsAppend(a, b[..|b| - 1], start, end);
    }
  }

  /** The distinct session ids of `evs`. */
  function Sessions(evs: seq<Event>): (r: set<string>)
    ensures |r| <= |evs|
    ensures forall s :: s in r <==> exists i :: 0 <= i < |evs| && evs[i].sessionId == s
  {
    if evs == [] then {}
    else
      var init := evs[..|evs| - 1];
      assert forall i :: 0 <= i < |init| ==> init[i] == evs[i];
      Sessions(init) + {evs[|evs| - 1].sessionId}
  }

  /** How often `k` occurs in `ks`. */
  function Occurrences<K(==,!new)>(ks: seq<K>, k: K): nat {
    if ks == [] then 0
    else Occurrences(ks[..|ks| - 1], k) + (if ks[|ks| - 1] == k then 1 else 0)
  }

  lemma {:induction false} OccursIffPositive<K(!new)>(ks: seq<K>, k: K)
    ensures Occurrences(ks, k) > 0 <==> k in ks
  {
    if ks != [] {
      var init := ks[..|ks| - 1];
      OccursIffPositive(init, k);
      assert ks == init + [ks[|ks| - 1]];
    }
  }

  /** A `Map<K, number>` of counts, in insertion order. */
  type Counts<K> = seq<(K, nat)>

  predicate DistinctKeys<K(==,!new)>(m: Counts<K>) {
    forall i, j :: 0 <= i < j < |m| ==> m[i].0 != m[j].0
  }

  /** `map.get(k) || 0`. */
  function CountOf<K(==,!new)>(m: Counts<K>, k: K): nat {
    if m == [] then 0
    else if m[0].0 == k then m[0].1
    else CountOf(m[1..], k)
  }

  lemma {:induction false} CountOfAt<K(!new)>(m: Counts<K>, i: nat)
    requires DistinctKeys(m) && i < |m|
    ensures CountOf(m, m[i].0) == m[i].1
  {
    if i > 0 {
      assert m[0].0 != m[i].0;
      assert m[1..][i - 1] == m[i];
      CountOfAt(m[1..], i - 1);
    }
  }

  /** The keys of `m`. */
  function KeysOf<K>(m: Counts<K>): set<K> {
    set i | 0 <= i < |m| :: m[i].0
  }

  lemma KeysOfCons<K>(x: (K, nat), t: Counts<K>)
    ensures KeysOf([x] + t) == {x.0} + KeysOf(t)
  {
    var c := [x] + t;
    forall y | y in KeysOf(c) ensures y in {x.0} + KeysOf(t) {
      var i :| 0 <= i < |c| && c[i].0 == y;
      if i > 0 {
        assert t[i - 1].0 == y;
      }
    }
    forall y | y in KeysOf(t) ensures y in KeysOf(c) {
      var i :| 0 <= i < |t| && t[i].0 == y;
      assert c[i + 1] == t[i];
    }
    assert c[0].0 == x.0;
  }

  /** With distinct keys there are as many keys as entries. */
  lemma {:induction false} DistinctKeysCard<K(!new)>(m: Counts<K>)
    requires DistinctKeys(m)
    ensures |KeysOf(m)| == |m|
  {
    if m != [] {
      assert m == [m[0]] + m[1..];
      DistinctCons(m[0], m[1..]);
      KeysOfCons(m[0], m[1..]);
      DistinctKeysCard(m[1..]);
    }
  }

  lemma DistinctCons<K(!new)>(x: (K, nat), t: Counts<K>)
    ensures DistinctKeys([x] + t) <==> x.0 !in KeysOf(t) && DistinctKeys(t)
  {
    var c := [x] + t;
    assert forall i :: 0 < i < |c| ==> c[i] == t[i - 1];
    assert forall j :: 0 <= j < |t| ==> t[j].0 in KeysOf(t);
    if DistinctKeys(c) {
      forall i, j | 0 <= i < j < |t| ensures t[i].0 != t[j].0 {
        assert c[i + 1] == t[i] && c[j + 1] == t[j];
      }
      forall j | 0 <= j < |t| ensures t[j].0 != x.0 {
        assert c[j + 1] == t[j] && c[0] == x;
      }
    }
  }

  /** `map.set(k, (map.get(k) || 0) + 1)`: an existing key keeps its place, a new one goes last. */
  function Bump<K(==,!new)>(m: Counts<K>, k: K): (r: Counts<K>)
    ensures KeysOf(r) == KeysOf(m) + {k}
  {
    if m == [] then
      KeysOfCons((k, 1), []);
      [(k, 1)]
    else if m[0].0 == k then
      KeysOfCons((k, m[0].1 + 1), m[1..]);
      KeysOfCons(m[0], m[1..]);
      assert m == [m[0]] + m[1..];
      [(k, m[0].1 + 1)] + m[1..]
    else
      var rest := Bump(m[1..], k);
      KeysOfCons(m[0], rest);
      KeysOfCons(m[0], m[1..]);
      assert m == [m[0]] + m[1..];
      [m[0]] + rest
  }

  /** Bumping adds one to the count of `k`. */
  lemma {:induction false} BumpCountsKey<K(!new)>(m: Counts<K>, k: K)
    ensures CountOf(Bump(m, k), k) == CountOf(m, k) + 1
  {
    if m != [] && m[0].0 != k {
      BumpCountsKey(m[1..], k);
    }
  }

  /** Bumping leaves the count of every other key alone. */
  lemma {:induction false} BumpCountsOther<K(!new)>(m: Counts<K>, k: K, k': K)
    requires k' != k
    ensures CountOf(Bump(m, k), k') == CountOf(m, k')
  {
    if m != [] && m[0].0 != k {
      BumpCountsOther(m[1..], k, k');
    }
  }

  /** Bumping keeps the keys distinct. */
  lemma {:induction false} BumpDistinct<K(!new)>(m: Counts<K>, k: K)
    requires DistinctKeys(m)
    ensures DistinctKeys(Bump(m, k))
  {
    if m == [] {
    } else {
      assert m == [m[0]] + m[1..];
      DistinctCons(m[0], m[1..]);
      if m[0].0 == k {
        DistinctCons((k, m[0].1 + 1), m[1..]);
      } else {
        BumpDistinct(m[1..], k);
        DistinctCons(m[0], Bump(m[1..], k));
      }
    }
  }

  /** The counts a `forEach` of `Bump`s builds over `ks`. */
  function Group<K(==,!new)>(ks: seq<K>): Counts<K> {
    if ks == [] then [] else Bump(Group(ks[..|ks| - 1]), ks[|ks| - 1])
  }

  /** A grouping has one entry per distinct key. */
  lemma {:induction false} GroupDistinct<K(!new)>(ks: seq<K>)
    ensures DistinctKeys(Group(ks))
  {
    if ks != [] {
      GroupDistinct(ks[..|ks| - 1]);
      BumpDistinct(Group(ks[..|ks| - 1]), ks[|ks| - 1]);
    }
  }

  /** The count a grouping holds for a key is the number of times it occurs. */
  lemma {:induction false} GroupCount<K(!new)>(ks: seq<K>, k: K)
    ensures CountOf(Group(ks), k) == Occurrences(ks, k)
  {
    if ks != [] {
      var init := ks[..|ks| - 1];
      var last := ks[|ks| - 1];
      GroupCount(init, k);
      if k == last {
        BumpCountsKey(Group(init), last);
      } else {
        BumpCountsOther(Group(init), last, k);
      }
    }
  }

  /** A grouping has an entry for exactly the keys that occur. */
  lemma {:induction false} GroupKeys<K(!new)>(ks: seq<K>)
    ensures forall k :: k in KeysOf(Group(ks)) <==> k in ks
  {
    if ks != [] {
      var init := ks[..|ks| - 1];
      GroupKeys(init);
      assert ks == init + [ks[|ks| - 1]];
    }
  }

  /** One entry per distinct key, each holding the number of times its key occurs. */
  lemma GroupCounts<K(!new)>(ks: seq<K>)
    ensures DistinctKeys(Group(ks))
    ensures forall k :: CountOf(Group(ks), k) == Occurrences(ks, k)
    ensures forall k :: k in KeysOf(Group(ks)) <==> k in ks
  {
    GroupDistinct(ks);
    GroupKeys(ks);
    forall k ensures CountOf(Group(ks), k) == Occurrences(ks, k) {
      GroupCount(ks, k);
    }
  }

  /** Each entry of a grouping counts the occurrences of its key, at least once. */
  lemma GroupEntries<K(!new)>(ks: seq<K>)
    ensures forall i :: 0 <= i < |Group(ks)| ==> Group(ks)[i].1 == Occurrences(ks, Group(ks)[i].0) > 0
  {
    GroupCounts(ks);
    forall i | 0 <= i < |Group(ks)| ensures Group(ks)[i].1 == Occurrences(ks, Group(ks)[i].0) > 0 {
      CountOfAt(Group(ks), i);
      OccursIffPositive(ks, Group(ks)[i].0);
    }
  }

  /** A stable sort by `key`, largest first: what `sort` and `orderBy: 'desc'` return. */
  function InsertDesc<T>(x: T, s: seq<T>, key: T -> int): (r: seq<T>)
    ensures multiset(r) == multiset(s) + multiset{x}
  {
    if s == [] then [x]
    else if key(x) >= key(s[0]) then [x] + s
    else
      assert s == [s[0]] + s[1..];
      [s[0]] + InsertDesc(x, s[1..], key)
  }

  function SortDesc<T>(s: seq<T>, key: T -> int): (r: seq<T>)
    ensures multiset(r) == multiset(s)
  {
    if s == [] then []
    else
      assert s == [s[0]] + s[1..];
      InsertDesc(s[0], SortDesc(s[1..], key), key)
  }

  predicate Descending<T>(s: seq<T>, key: T -> int) {
    forall i, j :: 0 <= i < j < |s| ==> key(s[i]) >= key(s[j])
  }

  predicate StrictlyDescending<T>(s: seq<T>, key: T -> int) {
    forall i, j :: 0 <= i < j < |s| ==> key(s[i]) > key(s[j])
  }

  /** Putting `h` in front keeps the order when `h` comes before every element. */
  lemma ConsDescending<T>(h: T, t: seq<T>, key: T -> int)
    requires Descending(t, key)
    requires forall k :: 0 <= k < |t| ==> key(h) >= key(t[k])
    ensures Descending([h] + t, key)
  {
    var r := [h] + t;
    forall i, j | 0 <= i < j < |r| ensures key(r[i]) >= key(r[j]) {
      assert r[j] == t[j - 1];
      if i > 0 {
        assert r[i] == t[i - 1];
      }
    }
  }

  lemma ConsStrict<T>(h: T, t: seq<T>, key: T -> int)
    requires StrictlyDescending(t, key)
    requires forall k :: 0 <= k < |t| ==> key(h) > key(t[k])
    ensures StrictlyDescending([h] + t, key)
  {
    var r := [h] + t;
    forall i, j | 0 <= i < j < |r| ensures key(r[i]) > key(r[j]) {
      assert r[j] == t[j - 1];
      if i > 0 {
        assert r[i] == t[i - 1];
      }
    }
  }

  /** Every element of an insertion is the inserted one or was already there. */
  lemma InsertDescElement<T>(x: T, s: seq<T>, key: T -> int, k: nat)
    requires k < |InsertDesc(x, s, key)|
    ensures InsertDesc(x, s, key)[k] == x || InsertDesc(x, s, key)[k] in s
  {
    var r := InsertDesc(x, s, key);
    assert r[k] in multiset(r);
  }

  lemma {:induction false} InsertDescOrdered<T>(x: T, s: seq<T>, key: T -> int)
    requires Descending(s, key)
    ensures Descending(InsertDesc(x, s, key), key)
  {
    if s != [] && key(x) < key(s[0]) {
      var rest := InsertDesc(x, s[1..], key);
      InsertDescOrdered(x, s[1..], key);
      forall k | 0 <= k < |rest| ensures key(s[0]) >= key(rest[k]) {
        InsertDescElement(x, s[1..], key, k);
      }
      ConsDescending(s[0], rest, key);
    } else if s != [] {
      ConsDescending(x, s, key);
    }
  }

  lemma {:induction false} InsertDescStrict<T>(x: T, s: seq<T>, key: T -> int)
    requires StrictlyDescending(s, key)
    requires forall y :: y in s ==> key(y) != key(x)
    ensures StrictlyDescending(InsertDesc(x, s, key), key)
  {
    if s != [] && key(x) < key(s[0]) {
      var rest := InsertDesc(x, s[1..], key);
      InsertDescStrict(x, s[1..], key);
      forall k | 0 <= k < |rest| ensures key(s[0]) > key(rest[k]) {
        InsertDescElement(x, s[1..], key, k);
      }
      ConsStrict(s[0], rest, key);
    } else if s != [] {
      assert key(x) > key(s[0]);
      ConsStrict(x, s, key);
    }
  }

  /** The sort is ordered, and holds the same elements. */
  lemma {:induction false} SortDescOrdered<T>(s: seq<T>, key: T -> int)
    ensures Descending(SortDesc(s, key), key)
  {
    if s != [] {
      SortDescOrdered(s[1..], key);
      InsertDescOrdered(s[0], SortDesc(s[1..], key), key);
    }
  }

  /** With distinct keys, the order is strict. */
  lemma {:induction false} SortDescStrict<T>(s: seq<T>, key: T -> int)
    requires forall i, j :: 0 <= i < j < |s| ==> key(s[i]) != key(s[j])
    ensures StrictlyDescending(SortDesc(s, key), key)
  {
    if s != [] {
      var tail := s[1..];
      SortDescStrict(tail, key);
      forall y | y in SortDesc(tail, key) ensures key(y) != key(s[0]) {
        assert y in multiset(SortDesc(tail, key));
        var m :| 0 <= m < |tail| && tail[m] == y;
        assert s[m + 1] == y;
      }
      InsertDescStrict(s[0], SortDesc(tail, key), key);
    }
  }

  /** `slice(0, n)` / `take: n`. */
  function Take<T>(s: seq<T>, n: nat): (r: seq<T>)
    ensures |r| == (if |s| <= n then |s| else n) && r <= s
    ensures |s| <= n ==> r == s
  {
    if |s| <= n then s else s[..n]
  }

  function DayOf(e: Event): int {
    Day(e.createdAt)
  }

  function DayKeys(evs: seq<Event>): (r: seq<int>)
    ensures |r| == |evs| && forall i :: 0 <= i < |evs| ==> r[i] == Day(evs[i].createdAt)
  {
    seq(|evs|, i requires 0 <= i < |evs| => Day(evs[i].createdAt))
  }

  function PathKeys(evs: seq<Event>): (r: seq<string>)
    ensures |r| == |evs| && forall i :: 0 <= i < |evs| ==> r[i] == evs[i].pagePath
  {
    seq(|evs|, i requires 0 <= i < |evs| => evs[i].pagePath)
  }

  function DateOfEntry(e: (int, nat)): int {
    e.0
  }

  function ViewsOfEntry<K>(e: (K, nat)): int {
    e.1
  }

  function CreatedAt(e: Event): int {
    e.createdAt
  }

  /** `viewsByDay`: the per-day counts, latest day first, at most thirty days. */
  function ViewsByDay(views: seq<Event>): (r: seq<(int, nat)>)
    ensures |r| <= 30
    ensures multiset(r) <= multiset(Group(DayKeys(views)))
  {
    var sorted := SortDesc(Group(DayKeys(views)), DateOfEntry);
    var r := Take(sorted, 30);
    assert sorted == r + sorted[|r|..];
    r
  }

  /** Each entry is a distinct day with the number of page views on it, latest day first, at most thirty days. */
  lemma ViewsByDayCounts(views: seq<Event>)
    ensures |ViewsByDay(views)| <= 30
    ensures StrictlyDescending(ViewsByDay(views), DateOfEntry)
    ensures forall i :: 0 <= i < |ViewsByDay(views)| ==>
      ViewsByDay(views)[i].1 == Occurrences(DayKeys(views), ViewsByDay(views)[i].0) > 0
  {
    var ks := DayKeys(views);
    var g := Group(ks);
    var sorted := SortDesc(g, DateOfEntry);
    var r := ViewsByDay(views);
    GroupCounts(ks);
    GroupEntries(ks);
    SortDescStrict(g, DateOfEntry);
    forall i | 0 <= i < |r| ensures r[i].1 == Occurrences(ks, r[i].0) > 0 {
      assert r[i] == sorted[i];
      assert sorted[i] in multiset(g);
    }
  }

  /** A day with page views is listed, or thirty later days are. */
  lemma ViewsByDayKeepsLatest(views: seq<Event>, d: int)
    requires d in DayKeys(views)
    ensures (exists i :: 0 <= i < |ViewsByDay(views)| && ViewsByDay(views)[i].0 == d) ||
      (|ViewsByDay(views)| == 30 && forall i :: 0 <= i < 30 ==> ViewsByDay(views)[i].0 > d)
  {
    var ks := DayKeys(views);
    var g := Group(ks);
    var sorted := SortDesc(g, DateOfEntry);
    var r := ViewsByDay(views);
    GroupCounts(ks);
    SortDescStrict(g, DateOfEntry);
    assert d in KeysOf(g);
    var gi :| 0 <= gi < |g| && g[gi].0 == d;
    assert g[gi] in multiset(sorted);
    var si :| 0 <= si < |sorted| && sorted[si] == g[gi];
    if si < |r| {
      assert r[si].0 == d;
    } else {
      forall i | 0 <= i < 30 ensures r[i].0 > d {
        assert r[i] == sorted[i];
      }
    }
  }

  /** A row of `recentEvents`. */
  datatype RecentEvent = RecentEvent(id: string, pagePath: string, pageTitle: Option<string>, createdAt: int)

  /** The fields `recentEvents` selects from a row. */
  function RecentRow(e: Event): RecentEvent {
    RecentEvent(e.id, e.pagePath, e.pageTitle, e.createdAt)
  }

  /** The row of every view, in order. */
  function Rows(s: seq<Event>): (r: seq<RecentEvent>)
    ensures |r| == |s| && forall i :: 0 <= i < |s| ==> r[i] == RecentRow(s[i])
  {
    if s == [] then [] else [RecentRow(s[0])] + Rows(s[1..])
  }

  lemma RowsAppend(a: seq<Event>, b: seq<Event>)
    ensures Rows(a + b) == Rows(a) + Rows(b)
  {
  }

  /** Inserting a view adds its row, once. */
  lemma {:induction false} RowsInsert(x: Event, s: seq<Event>, key: Event -> int)
    ensures multiset(Rows(InsertDesc(x, s, key))) == multiset(Rows(s)) + multiset{RecentRow(x)}
  {
    var ins := InsertDesc(x, s, key);
    if s == [] {
      assert ins == [x];
    } else if key(x) >= key(s[0]) {
      assert ins == [x] + s;
      assert Rows(ins) == [RecentRow(x)] + Rows(s);
    } else {
      var rest := InsertDesc(x, s[1..], key);
      assert ins == [s[0]] + rest;
      RowsInsert(x, s[1..], key);
      assert Rows(ins) == [RecentRow(s[0])] + Rows(rest);
      assert Rows(s) == [RecentRow(s[0])] + Rows(s[1..]);
      calc {
        multiset(Rows(ins));
        multiset{RecentRow(s[0])} + multiset(Rows(rest));
        multiset{RecentRow(s[0])} + multiset(Rows(s[1..])) + multiset{RecentRow(x)};
        multiset(Rows(s)) + multiset{RecentRow(x)};
      }
    }
  }

  /** Sorting the views keeps their rows, each as often as before. */
  lemma {:induction false} RowsSorted(s: seq<Event>, key: Event -> int)
    ensures multiset(Rows(SortDesc(s, key))) == multiset(Rows(s))
  {
    if s != [] {
      RowsSorted(s[1..], key);
      RowsInsert(s[0], SortDesc(s[1..], key), key);
      RowsAppend([s[0]], s[1..]);
      assert s == [s[0]] + s[1..];
    }
  }

  function Recent(views: seq<Event>): (r: seq<RecentEvent>)
    ensures |r| == if |views| <= 20 then |views| else 20
  {
    var sorted := SortDesc(views, CreatedAt);
    assert |sorted| == |multiset(sorted)| == |views|;
    Rows(Take(sorted, 20))
  }

  /** The rows come from distinct views: none is shown more often than it occurs. */
  lemma RecentRowsCounted(views: seq<Event>)
    ensures multiset(Recent(views)) <= multiset(Rows(views))
  {
    var sorted := SortDesc(views, CreatedAt);
    var latest := Take(sorted, 20);
    assert sorted == latest + sorted[|latest|..];
    RowsAppend(latest, sorted[|latest|..]);
    RowsSorted(views, CreatedAt);
  }

  /** Row `i` is the row of the `i`-th view once sorted latest first. */
  lemma RecentFromSorted(views: seq<Event>, sorted: seq<Event>, r: seq<RecentEvent>)
    requires sorted == SortDesc(views, CreatedAt) && r == Recent(views)
    ensures |r| <= |sorted| && forall i :: 0 <= i < |r| ==> r[i] == RecentRow(sorted[i])
  {
    assert |sorted| == |multiset(sorted)| == |views|;
    var latest := Take(sorted, 20);
    forall i | 0 <= i < |r| ensures r[i] == RecentRow(sorted[i]) {
      assert latest[i] == sorted[i];
    }
  }

  /**
   * The twenty most recent page views, latest first: every row is one of
   * the views, no view gives more rows than it occurs, and no view left out
   * is later than the last row.
   */
  lemma RecentIsLatest(views: seq<Event>)
    ensures forall i, j :: 0 <= i < j < |Recent(views)| ==> Recent(views)[i].createdAt >= Recent(views)[j].createdAt
    ensures forall i :: 0 <= i < |Recent(views)| ==> exists e :: e in views && Recent(views)[i] == RecentRow(e)
    ensures forall e :: e in views && RecentRow(e) !in Recent(views) ==>
      |Recent(views)| == 20 && e.createdAt <= Recent(views)[19].createdAt
    ensures multiset(Recent(views)) <= multiset(Rows(views))
  {
    var sorted := SortDesc(views, CreatedAt);
    var r := Recent(views);
    RecentRowsCounted(views);
    RecentOrderedRows(views, sorted, r);
    forall e | e in views && RecentRow(e) !in r
      ensures |r| == 20 && e.createdAt <= r[19].createdAt
    {
      RecentLeftOut(views, sorted, r, e);
    }
  }

  /** The rows shown are rows of views, latest first. */
  lemma RecentOrderedRows(views: seq<Event>, sorted: seq<Event>, r: seq<RecentEvent>)
    requires sorted == SortDesc(views, CreatedAt) && r == Recent(views)
    ensures forall i, j :: 0 <= i < j < |r| ==> r[i].createdAt >= r[j].createdAt
    ensures forall i :: 0 <= i < |r| ==> exists e :: e in views && r[i] == RecentRow(e)
  {
    SortDescOrdered(views, CreatedAt);
    RecentFromSorted(views, sorted, r);
    forall i | 0 <= i < |r| ensures exists e :: e in views && r[i] == RecentRow(e) {
      assert sorted[i] in multiset(views);
    }
  }

  /** A view whose row is not shown sits at position 20 or later of the sorted views. */
  lemma RecentLeftOut(views: seq<Event>, sorted: seq<Event>, r: seq<RecentEvent>, e: Event)
    requires sorted == SortDesc(views, CreatedAt) && r == Recent(views)
    requires e in views && RecentRow(e) !in r
    ensures |r| == 20 && e.createdAt <= r[19].createdAt
  {
    SortDescOrdered(views, CreatedAt);
    RecentFromSorted(views, sorted, r);
    assert e in multiset(sorted);
    var k :| 0 <= k < |sorted| && sorted[k] == e;
    assert forall i :: 0 <= i < |r| ==> r[i] != RecentRow(e);
    assert k >= |r|;
    assert CreatedAt(sorted[19]) >= CreatedAt(sorted[k]);
  }

  /** `viewsByPage`: page views per path, most viewed first. */
  function ViewsByPage(views: seq<Event>): (r: seq<(string, nat)>)
    ensures multiset(r) == multiset(Group(PathKeys(views)))
  {
    SortDesc(Group(PathKeys(views)), ViewsOfEntry)
  }

  /** `popularPages`: the ten most viewed paths. */
  function PopularPages(views: seq<Event>): (r: seq<(string, nat)>)
    ensures |r| <= 10 && r <= ViewsByPage(views)
  {
    Take(ViewsByPage(views), 10)
  }

  /** The distinct paths of the page views. */
  function Paths(views: seq<Event>): set<string> {
    set k | k in PathKeys(views)
  }

  /**
   * Each path appears once with its number of views, most viewed first,
   * ten of them or every path when there are fewer.
   */
  lemma PopularPagesCounts(views: seq<Event>)
    ensures var r := PopularPages(views);
      |r| == (if |Paths(views)| <= 10 then |Paths(views)| else 10) &&
      Descending(r, ViewsOfEntry) && DistinctKeys(r) &&
      forall i :: 0 <= i < |r| ==> r[i].1 == Occurrences(PathKeys(views), r[i].0) > 0
  {
    var r := PopularPages(views);
    SortDescOrdered(Group(PathKeys(views)), ViewsOfEntry);
    PopularPagesEntries(views, r);
    PopularPagesLength(views, r);
  }

  lemma PopularPagesEntries(views: seq<Event>, r: seq<(string, nat)>)
    requires r == PopularPages(views)
    ensures DistinctKeys(r) && forall i :: 0 <= i < |r| ==> r[i].1 == Occurrences(PathKeys(views), r[i].0) > 0
  {
    var ks := PathKeys(views);
    var g := Group(ks);
    var sorted := ViewsByPage(views);
    GroupCounts(ks);
    GroupEntries(ks);
    forall i | 0 <= i < |r| ensures r[i].1 == Occurrences(ks, r[i].0) > 0 {
      assert r[i] == sorted[i];
      assert sorted[i] in multiset(g);
    }
    forall i, j | 0 <= i < j < |r| ensures r[i].0 != r[j].0 {
      assert r[i] == sorted[i] && r[j] == sorted[j];
      DistinctInSort(g, i, j);
    }
  }

  lemma PopularPagesLength(views: seq<Event>, r: seq<(string, nat)>)
    requires r == PopularPages(views)
    ensures |r| == (if |Paths(views)| <= 10 then |Paths(views)| else 10)
  {
    var ks := PathKeys(views);
    var g := Group(ks);
    var sorted := ViewsByPage(views);
    GroupCounts(ks);
    assert KeysOf(g) == Paths(views);
    DistinctKeysCard(g);
    assert |sorted| == |multiset(g)| == |g|;
  }

  /** A path left out of the ten most viewed has at most the views of the last one listed. */
  lemma PopularPagesCutoff(views: seq<Event>)
    ensures var r := PopularPages(views);
      forall p :: p in Paths(views) && p !in KeysOf(r) ==>
        |r| == 10 && Occurrences(PathKeys(views), p) <= r[9].1
  {
    var ks := PathKeys(views);
    var g := Group(ks);
    var sorted := ViewsByPage(views);
    var r := PopularPages(views);
    GroupCounts(ks);
    SortDescOrdered(g, ViewsOfEntry);
    assert KeysOf(g) == Paths(views);
    forall p | p in Paths(views) && p !in KeysOf(r)
      ensures |r| == 10 && Occurrences(ks, p) <= r[9].1
    {
      var a :| 0 <= a < |g| && g[a].0 == p;
      CountOfAt(g, a);
      assert g[a] in multiset(sorted);
      var k :| 0 <= k < |sorted| && sorted[k] == g[a];
      assert forall i :: 0 <= i < |r| ==> r[i].0 != p;
      assert k >= |r|;
      assert ViewsOfEntry(sorted[9]) >= ViewsOfEntry(sorted[k]);
      assert r[9] == sorted[9];
    }
  }

  /** An element that occurs once is at one position only. */
  lemma OnceAtOnePlace<T>(s: seq<T>, i: nat, j: nat)
    requires i < j < |s| && multiset(s)[s[i]] == 1
    ensures s[i] != s[j]
  {
    assert s == s[..j] + [s[j]] + s[j + 1..];
    assert s[..j][i] == s[i];
    assert multiset(s)[s[i]] == multiset(s[..j])[s[i]] + multiset([s[j]])[s[i]] + multiset(s[j + 1..])[s[i]];
  }

  /** A permutation of a list with distinct keys has distinct keys. */
  lemma DistinctInSort(g: Counts<string>, i: nat, j: nat)
    requires DistinctKeys(g)
    requires i < j < |SortDesc(g, ViewsOfEntry)|
    ensures SortDesc(g, ViewsOfEntry)[i].0 != SortDesc(g, ViewsOfEntry)[j].0
  {
    var s := SortDesc(g, ViewsOfEntry);
    assert s[i] in multiset(g) && s[j] in multiset(g);
    var a :| 0 <= a < |g| && g[a] == s[i];
    var b :| 0 <= b < |g| && g[b] == s[j];
    MultiplicityOne(g, a);
    OnceAtOnePlace(s, i, j);
  }

  /** In a list with distinct keys every element occurs once. */
  lemma {:induction false} MultiplicityOne(g: Counts<string>, a: nat)
    requires DistinctKeys(g) && a < |g|
    ensures multiset(g)[g[a]] == 1
  {
    if a == 0 {
      assert g == [g[0]] + g[1..];
      forall m | 0 <= m < |g[1..]| ensures g[1..][m] != g[0] {
        assert g[1..][m] == g[m + 1];
      }
      assert g[0] !in g[1..];
    } else {
      assert g == [g[0]] + g[1..];
      assert g[1..][a - 1] == g[a];
      MultiplicityOne(g[1..], a - 1);
      assert g[0] != g[a];
    }
  }

  datatype Stats = Stats(
    totalPageViews: nat, uniqueVisitors: nat,
    popularPages: seq<(string, nat)>, recentEvents: seq<RecentEvent>,
    viewsByDay: seq<(int, nat)>, viewsByPage: seq<(string, nat)>)

  const EmptyStats := Stats(0, 0, [], [], [], [])

  /** The statistics of the page views between `start` and `end`. */
  function StatsOf(evs: seq<Event>, start: int, end: int): (s: Stats)
    ensures s.uniqueVisitors <= s.totalPageViews
    ensures s.totalPageViews == 0 ==> s == EmptyStats
    ensures var views := PageViews(evs, start, end);
      s.totalPageViews == |views| && s.uniqueVisitors == |Sessions(views)| &&
      s.popularPages == PopularPages(views) && s.recentEvents == Recent(views) &&
      s.viewsByDay == ViewsByDay(views) && s.viewsByPage == ViewsByPage(views)
  {
    var views := PageViews(evs, start, end);
    Stats(|views|, |Sessions(views)|, PopularPages(views), Recent(views), ViewsByDay(views), ViewsByPage(views))
  }

  /** The events table and the cookie-consent table, by session id. */
  class Store {
    var events: seq<Event>
    var consents: map<string, bool>
    /** Whether the database client has the events model at all. */
    const hasModel: bool

    constructor (evs: seq<Event>, cs: map<string, bool>, model: bool)
      ensures events == evs && consents == cs && hasModel == model
    {
      events := evs;
      consents := cs;
      hasModel := model;
    }

    /**
     * `trackEvent`: `lookupFault` is a failing consent query. Every failure
     * is swallowed; the table grows by one row only for a consenting session.
     */
    method TrackEvent(data: EventData, lookupFault: bool, create: CreateOutcome, id: string, now: int)
      modifies this
      ensures consents == old(consents)
      ensures events == if !lookupFault && data.sessionId in consents && consents[data.sessionId]
                           && hasModel && create.Stored?
                        then old(events) + [Recorded(data, id, now)] else old(events)
    {
      if lookupFault {
        return;
      }
      if !(data.sessionId in consents && consents[data.sessionId]) {
        return;
      }
      if !hasModel {
        return;
      }
      match create {
        case Stored => events := events + [Recorded(data, id, now)];
        case TableMissing =>
        case OtherFailure =>
      }
    }

    /** The per-day counts, built by one pass over the page views as `forEach` does. */
    static method CountByDay(views: seq<Event>) returns (m: Counts<int>)
      ensures m == Group(DayKeys(views))
    {
      m := [];
      var i := 0;
      while i < |views|
        invariant 0 <= i <= |views|
        invariant m == Group(DayKeys(views[..i]))
      {
        assert DayKeys(views[..i + 1])[..i] == DayKeys(views[..i]);
        m := Bump(m, Day(views[i].createdAt));
        i := i + 1;
      }
      assert views[..|views|] == views;
    }

    /**
     * `getAnalyticsStats(startDate, endDate)`: the last thirty days up to
     * `now` by default, and empty statistics without the model or when a
     * query fails.
     */
    method GetStats(startDate: Option<int>, endDate: Option<int>, now: int, queryFault: bool) returns (s: Stats)
      ensures !hasModel || queryFault ==> s == EmptyStats
      ensures hasModel && !queryFault ==> s == StatsOf(events, startDate.GetOr(now - 30 * DayMs), endDate.GetOr(now))
    {
      if !hasModel || queryFault {
        return EmptyStats;
      }
      var start := startDate.GetOr(now - 30 * DayMs);
      var end := endDate.GetOr(now);
      var views := PageViews(events, start, end);
      var byDay := CountByDay(views);
      s := Stats(|views|, |Sessions(views)|, PopularPages(views), Recent(views),
        Take(SortDesc(byDay, DateOfEntry), 30), ViewsByPage(views));
    }

    /** `deleteAnalyticsData(startDate, endDate)`: all time up to `now` by default. */
    method DeleteRange(startDate: Option<int>, endDate: Option<int>, now: int) returns (count: nat)
      modifies this
      ensures !hasModel ==> count == 0 && events == old(events)
      ensures hasModel ==> events == Outside(old(events), startDate.GetOr(0), endDate.GetOr(now))
      ensures count == |old(events)| - |events|
      ensures hasModel ==> count == InRangeCount(old(events), startDate.GetOr(0), endDate.GetOr(now))
      ensures consents == old(consents)
    {
      if !hasModel {
        return 0;
      }
      var kept := Outside(events, startDate.GetOr(0), endDate.GetOr(now));
      OutsideCount(events, startDate.GetOr(0), endDate.GetOr(now));
      count := |events| - |kept|;
      events := kept;
    }

    /** `deleteOldAnalyticsData(daysOld)`, a year by default. */
    method DeleteOlderThan(daysOld: Option<int>, now: int) returns (count: nat)
      modifies this
      ensures !hasModel ==> count == 0 && events == old(events)
      ensures hasModel ==> events == NotBefore(old(events), now - daysOld.GetOr(365) * DayMs)
      ensures count == |old(events)| - |events|
      ensures hasModel ==> count == OlderCount(old(events), now - daysOld.GetOr(365) * DayMs)
      ensures consents == old(consents)
    {
      if !hasModel {
        return 0;
      }
      var kept := NotBefore(events, now - daysOld.GetOr(365) * DayMs);
      NotBeforeCount(events, now - daysOld.GetOr(365) * DayMs);
      count := |events| - |kept|;
      events := kept;
    }
  }

  /** The events outside `[start, end]`, in order: what `deleteMany` on that range leaves. */
  function Outside(evs: seq<Event>, start: int, end: int): (r: seq<Event>)
    ensures |r| <= |evs|
    ensures forall e :: e in r <==> e in evs && !(start <= e.createdAt <= end)
  {
    if evs == [] then []
    else
      var init := Outside(evs[..|evs| - 1], start, end);
      var e := evs[|evs| - 1];
      assert evs == evs[..|evs| - 1] + [e];
      if start <= e.createdAt <= end then init else init + [e]
  }

  /** Each event outside the range is kept as often as it occurs; the others are dropped. */
  lemma {:induction false} OutsideCounts(evs: seq<Event>, start: int, end: int, e: Event)
    ensures multiset(Outside(evs, start, end))[e] == if start <= e.createdAt <= end then 0 else multiset(evs)[e]
    decreases |evs|
  {
    if evs != [] {
      assert evs == evs[..|evs| - 1] + [evs[|evs| - 1]];
      OutsideCounts(evs[..|evs| - 1], start, end, e);
    }
  }

  /** What a range deletion leaves of a concatenation is what it leaves of each part, in order. */
  lemma {:induction false} OutsideAppend(a: seq<Event>, b: seq<Event>, start: int, end: int)
    ensures Outside(a + b, start, end) == Outside(a, start, end) + Outside(b, start, end)
    decreases |b|
  {
    if b == [] {
      assert a + b == a;
    } else {
      var init := b[..|b| - 1];
      assert (a + b)[..|a + b| - 1] == a + init;
      assert (a + b)[|a + b| - 1] == b[|b| - 1];
      OutsideAppend(a, init, start, end);
      assert Outside(b, start, end) ==
        if start <= b[|b| - 1].createdAt <= end then Outside(init, start, end)
        else Outside(init, start, end) + [b[|b| - 1]];
    }
  }

  /** The number of rows created within `[start, end]`. */
  function InRangeCount(evs: seq<Event>, start: int, end: int): nat {
    if evs == [] then 0
    else InRangeCount(evs[..|evs| - 1], start, end) + (if start <= evs[|evs| - 1].createdAt <= end then 1 else 0)
  }

  /** The count returned by a range deletion is the number of rows in the range. */
  lemma {:induction false} OutsideCount(evs: seq<Event>, start: int, end: int)
    ensures |evs| - |Outside(evs, start, end)| == InRangeCount(evs, start, end)
  {
    if evs != [] {
      OutsideCount(evs[..|evs| - 1], start, end);
    }
  }

  /** The events at or after `cutoff`, in order: what `deleteMany` of the older ones leaves. */
  function NotBefore(evs: seq<Event>, cutoff: int): (r: seq<Event>)
    ensures |r| <= |evs|
    ensures forall e :: e in r <==> e in evs && e.createdAt >= cutoff
  {
    if evs == [] then []
    else
      var init := NotBefore(evs[..|evs| - 1], cutoff);
      var e := evs[|evs| - 1];
      assert evs == evs[..|evs| - 1] + [e];
      if e.createdAt < cutoff then init else init + [e]
  }

  /** Each event at or after the cutoff is kept as often as it occurs; the older ones are dropped. */
  lemma {:induction false} NotBeforeCounts(evs: seq<Event>, cutoff: int, e: Event)
    ensures multiset(NotBefore(evs, cutoff))[e] == if e.createdAt < cutoff then 0 else multiset(evs)[e]
    decreases |evs|
  {
    if evs != [] {
      assert evs == evs[..|evs| - 1] + [evs[|evs| - 1]];
      NotBeforeCounts(evs[..|evs| - 1], cutoff, e);
    }
  }

  /** What an age deletion leaves of a concatenation is what it leaves of each part, in order. */
  lemma {:induction false} NotBeforeAppend(a: seq<Event>, b: seq<Event>, cutoff: int)
    ensures NotBefore(a + b, cutoff) == NotBefore(a, cutoff) + NotBefore(b, cutoff)
    decreases |b|
  {
    if b == [] {
      assert a + b == a;
    } else {
      assert (a + b)[..|a + b| - 1] == a + b[..|b| - 1];
      assert (a + b)[|a + b| - 1] == b[|b| - 1];
      NotBeforeAppend(a, b[..|b| - 1], cutoff);
    }
  }

  /** The count returned is the number of rows strictly older than the cutoff. */
  lemma {:induction false} NotBeforeCount(evs: seq<Event>, cutoff: int)
    ensures |evs| - |NotBefore(evs, cutoff)| == OlderCount(evs, cutoff)
  {
    if evs != [] {
      NotBeforeCount(evs[..|evs| - 1], cutoff);
    }
  }

  function OlderCount(evs: seq<Event>, cutoff: int): nat {
    if evs == [] then 0
    else OlderCount(evs[..|evs| - 1], cutoff) + (if evs[|evs| - 1].createdAt < cutoff then 1 else 0)
  }
}
