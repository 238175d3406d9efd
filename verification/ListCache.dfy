/** The expiring list caches (source/REST-API.cpp `rucio_list_scopes`, `rucio_list_dids`,
    `rucio_list_container_dids`), over whole runs and a server that answers as it likes. */
module ListCache {
  import opened Text

  const CACHE_DURATION := 120

  datatype Entry<V> = Entry(expiry: int, list: seq<V>)

  type Cache<K, V> = map<K, Entry<V>>

  /** A call of a list operation: its cache key, the clock, and what the server would answer now;
      `None` when it cannot be asked or the transfer fails. */
  datatype Call<K, V> = Call(key: K, now: int, reply: Option<seq<V>>)

  datatype Served<K, V> = Served(cache: Cache<K, V>, list: seq<V>, fromCache: bool)

  predicate Fresh<K(==), V>(cache: Cache<K, V>, key: K, now: int) {
    key in cache && cache[key].expiry >= now
  }

  function Serve<K(==), V>(cache: Cache<K, V>, c: Call<K, V>): Served<K, V> {
    if Fresh(cache, c.key, c.now) then Served(cache, cache[c.key].list, true)
    else
      match c.reply
      case None => Served(cache, [], false)
      case Some(list) => Served(cache[c.key := Entry(c.now + CACHE_DURATION, list)], list, false)
  }

  function CacheAfter<K(==), V>(calls: seq<Call<K, V>>): Cache<K, V> {
    if calls == [] then map[] else Serve(CacheAfter(calls[..|calls| - 1]), calls[|calls| - 1]).cache
  }

  /** What the i-th call of a run returns. */
  function Result<K(==), V>(calls: seq<Call<K, V>>, i: nat): Served<K, V>
    requires i < |calls|
  {
    Serve(CacheAfter(calls[..i]), calls[i])
  }

  predicate Fetches<K(==), V>(calls: seq<Call<K, V>>, j: nat)
    requires j < |calls|
  {
    !Result(calls, j).fromCache && calls[j].reply.Some?
  }

  predicate ClockNeverRunsBack<K(==), V>(calls: seq<Call<K, V>>) {
    forall i, j :: 0 <= i < j < |calls| ==> calls[i].now <= calls[j].now
  }

  // ---------- the cache is the history of its fetches ----------

  /** `j` is the last fetch under `key` before call `n`. */
  predicate LastFetch<K(==), V>(calls: seq<Call<K, V>>, n: nat, key: K, j: nat)
    requires n <= |calls|
  {
    && j < n && calls[j].key == key && Fetches(calls, j)
    && forall k :: j < k < n && calls[k].key == key ==> !Fetches(calls, k)
  }

  lemma PrefixStep<K, V>(calls: seq<Call<K, V>>, n: nat)
    requires 0 < n <= |calls|
    ensures CacheAfter(calls[..n]) == Result(calls, n - 1).cache
  {
    assert calls[..n][..n - 1] == calls[..n - 1];
  }

  lemma EmptyCache<K, V>(calls: seq<Call<K, V>>)
    ensures CacheAfter(calls[..0]) == map[]
  {
  }

  /** A call changes the entry under its own key when it fetches, and no entry otherwise. */
  lemma EntryStep<K, V>(calls: seq<Call<K, V>>, n: nat, key: K)
    requires 0 < n <= |calls|
    ensures var before, after, c := CacheAfter(calls[..n - 1]), CacheAfter(calls[..n]), calls[n - 1];
            if c.key == key && Fetches(calls, n - 1) then
              key in after && after[key] == Entry(c.now + 120, c.reply.value)
            else
              (key in after <==> key in before) && (key in before ==> after[key] == before[key])
  {
    PrefixStep(calls, n);
  }

  /** Every entry is what the last fetch under its key returned; no entry without a fetch. */
  lemma {:induction false} EntriesAreFetches<K, V>(calls: seq<Call<K, V>>, n: nat, key: K)
    requires n <= |calls|
    ensures var cache := CacheAfter(calls[..n]);
            if key in cache then
              exists j: nat :: LastFetch(calls, n, key, j)
                          && cache[key] == Entry(calls[j].now + 120, calls[j].reply.value)
            else forall j :: 0 <= j < n && calls[j].key == key ==> !Fetches(calls, j)
  {
    hide CacheAfter;
    if n == 0 {
      EmptyCache(calls);
    } else {
      EntryStep(calls, n, key);
      EntriesAreFetches(calls, n - 1, key);
      if calls[n - 1].key == key && Fetches(calls, n - 1) {
        assert LastFetch(calls, n, key, n - 1);
      } else if key in CacheAfter(calls[..n - 1]) {
        var j: nat :| LastFetch(calls, n - 1, key, j)
                 && CacheAfter(calls[..n - 1])[key] == Entry(calls[j].now + 120, calls[j].reply.value);
        assert LastFetch(calls, n, key, j);
      }
    }
  }

  /** Over every run with a clock that never runs back and a server that changes arbitrarily: a call
      is answered from the cache exactly when there was a successful fetch under the same key at most
      120 seconds ago, and then the answer is what the latest such fetch returned. */
  lemma ServedFromRecentFetch<K, V>(calls: seq<Call<K, V>>, i: nat)
    requires i < |calls| && ClockNeverRunsBack(calls)
    ensures Result(calls, i).fromCache <==>
              exists j: nat :: LastFetch(calls, i, calls[i].key, j) && calls[i].now <= calls[j].now + 120
    ensures forall j: nat :: LastFetch(calls, i, calls[i].key, j) && Result(calls, i).fromCache ==>
              && Result(calls, i).list == calls[j].reply.value
              && calls[i].now - 120 <= calls[j].now <= calls[i].now
  {
    EntriesAreFetches(calls, i, calls[i].key);
    forall j: nat, k: nat | LastFetch(calls, i, calls[i].key, j) && LastFetch(calls, i, calls[i].key, k)
      ensures j == k
    {
    }
  }

  /** Two successful fetches under one key are more than 120 seconds apart. */
  lemma FetchesAreApart<K, V>(calls: seq<Call<K, V>>, i: nat, j: nat)
    requires j < i < |calls| && ClockNeverRunsBack(calls)
    requires calls[i].key == calls[j].key && Fetches(calls, i) && Fetches(calls, j)
    ensures calls[i].now > calls[j].now + 120
  {
    var key := calls[i].key;
    var last := LatestFetch(calls, i, key, j);
    ServedFromRecentFetch(calls, i);
  }

  lemma {:induction false} LatestFetch<K, V>(calls: seq<Call<K, V>>, n: nat, key: K, j: nat) returns (last: nat)
    requires j < n <= |calls| && calls[j].key == key && Fetches(calls, j)
    ensures j <= last && LastFetch(calls, n, key, last)
    decreases n - j
  {
    if k :| j < k < n && calls[k].key == key && Fetches(calls, k) {
      last := LatestFetch(calls, n, key, k);
    } else {
      last := j;
    }
  }

  /** `j` fetched what call `i` asks for, at most 120 seconds before it. */
  predicate RecentFetch<K(==), V>(calls: seq<Call<K, V>>, i: nat, j: nat)
    requires i < |calls|
  {
    j < i && calls[j].key == calls[i].key && Fetches(calls, j) && calls[i].now <= calls[j].now + 120
  }

  /** Any fetch that recent will do: it is the latest one. */
  lemma RecentFetchIsServed<K, V>(calls: seq<Call<K, V>>, i: nat)
    requires i < |calls| && ClockNeverRunsBack(calls)
    ensures Result(calls, i).fromCache <==> exists j: nat :: RecentFetch(calls, i, j)
    ensures forall j: nat :: RecentFetch(calls, i, j) ==> Result(calls, i).list == calls[j].reply.value
  {
    hide Result;
    ServedFromRecentFetch(calls, i);
    forall j: nat | RecentFetch(calls, i, j)
      ensures LastFetch(calls, i, calls[i].key, j)
    {
      var k := LatestFetch(calls, i, calls[i].key, j);
      if k != j {
        FetchesAreApart(calls, k, j);
      }
    }
    if Result(calls, i).fromCache {
      var j: nat :| LastFetch(calls, i, calls[i].key, j) && calls[i].now <= calls[j].now + 120;
      assert RecentFetch(calls, i, j);
    }
  }

  // ---------- keys ----------

  predicate SameKey(s: string, a: string, t: string, b: string) {
    s + a == t + b
  }

  ghost predicate PrefixFree(firsts: iset<string>) {
    forall s, t :: s in firsts && t in firsts && s <= t ==> s == t
  }

  ghost predicate DistinctKeys(firsts: iset<string>) {
    forall s, t, a, b :: s in firsts && t in firsts && SameKey(s, a, t, b) ==> s == t && a == b
  }

  lemma EqualKeys(s: string, a: string, t: string, b: string)
    requires SameKey(s, a, t, b)
    ensures s <= t || t <= s
    ensures s == t ==> a == b
  {
    var key := s + a;
    assert s == key[..|s|] && t == key[..|t|];
    assert a == key[|s|..] && b == key[|t|..];
  }

  /** Keys are plain concatenations. Keys of two parts tell all requests apart exactly when no first
      part is a proper prefix of another, which can be read off the server names. */
  lemma DistinctKeysIffPrefixFree(firsts: iset<string>)
    ensures DistinctKeys(firsts) <==> PrefixFree(firsts)
  {
    if PrefixFree(firsts) {
      forall s, t, a, b | s in firsts && t in firsts && SameKey(s, a, t, b)
        ensures s == t && a == b
      {
        EqualKeys(s, a, t, b);
      }
    } else {
      var s, t :| s in firsts && t in firsts && s <= t && s != t;
      assert t == s + t[|s|..] && t + "" == t;
      assert SameKey(s, t[|s|..], t, "");
    }
  }

  /** The first two parts of a key of three. */
  datatype Place = Place(server: string, scope: string) {
    function Root(): string {
      server + scope
    }
  }

  ghost predicate PlacesApart(places: iset<Place>) {
    forall p, q :: p in places && q in places && p.Root() <= q.Root() ==> p == q
  }

  ghost predicate DistinctPlaces(places: iset<Place>) {
    forall p, q, a, b :: p in places && q in places && SameKey(p.Root(), a, q.Root(), b) ==> p == q && a == b
  }

  /** Keys of three parts tell all requests apart exactly when no server + scope is a prefix of another
      place's; prefix-free server names do not suffice, as one server with scopes `user` and `userx` shows. */
  lemma DistinctPlacesIffApart(places: iset<Place>)
    ensures DistinctPlaces(places) <==> PlacesApart(places)
  {
    if PlacesApart(places) {
      forall p, q, a, b | p in places && q in places && SameKey(p.Root(), a, q.Root(), b)
        ensures p == q && a == b
      {
        EqualKeys(p.Root(), a, q.Root(), b);
      }
    } else {
      var p, q :| p in places && q in places && p.Root() <= q.Root() && p != q;
      var rest := q.Root()[|p.Root()|..];
      assert q.Root() == p.Root() + rest && q.Root() + "" == q.Root();
      assert SameKey(p.Root(), rest, q.Root(), "");
    }
  }

  /** What a call asks for. The key of a scope listing is server + scope, that of a container listing
      server + scope + container. */
  datatype Request = Request(server: string, scope: string, container: string) {
    function At(): Place {
      Place(server, scope)
    }
  }

  predicate AsksFor<V>(c: Call<string, V>, r: Request) {
    c.key == r.server + r.scope + r.container
  }

  /** With prefix-free server names, a scope listing served from the cache was fetched for that very
      server and scope. */
  lemma ScopeListingIsItsOwn<V>(calls: seq<Call<string, V>>, requests: seq<Request>, servers: iset<string>, i: nat, j: nat)
    requires |requests| == |calls| && i < |calls|
    requires forall k :: 0 <= k < |calls| ==> AsksFor(calls[k], requests[k]) && requests[k].container == ""
    requires PrefixFree(servers) && forall k :: 0 <= k < |calls| ==> requests[k].server in servers
    requires LastFetch(calls, i, calls[i].key, j)
    ensures requests[j] == requests[i]
  {
    DistinctKeysIffPrefixFree(servers);
    var r, q := requests[j], requests[i];
    assert AsksFor(calls[i], q) && AsksFor(calls[j], r);
    assert r.server + r.scope + "" == r.server + r.scope && q.server + q.scope + "" == q.server + q.scope;
    assert SameKey(r.server, r.scope, q.server, q.scope);
  }

  /** With places apart, a container listing served from the cache was fetched for that very server,
      scope and container. */
  lemma ContainerListingIsItsOwn<V>(calls: seq<Call<string, V>>, requests: seq<Request>, places: iset<Place>, i: nat, j: nat)
    requires |requests| == |calls| && i < |calls|
    requires forall k :: 0 <= k < |calls| ==> AsksFor(calls[k], requests[k])
    requires PlacesApart(places) && forall k :: 0 <= k < |calls| ==> requests[k].At() in places
    requires LastFetch(calls, i, calls[i].key, j)
    ensures requests[j] == requests[i]
  {
    DistinctPlacesIffApart(places);
    var r, q := requests[j], requests[i];
    assert AsksFor(calls[i], q) && AsksFor(calls[j], r);
    assert r.At() in places && q.At() in places;
    assert SameKey(r.At().Root(), r.container, q.At().Root(), q.container);
  }

  lemma SecondServedFirst<K, V>(key: K, list: seq<V>, other: seq<V>)
    ensures var calls := [Call(key, 0, Some(list)), Call(key, 1, Some(other))];
            Result(calls, 1).fromCache && Result(calls, 1).list == list
  {
    var calls := [Call(key, 0, Some(list)), Call(key, 1, Some(other))];
    var first := [calls[0]];
    assert calls[..1] == first && first[..0] == [];
    assert CacheAfter(first) == Serve(map[], calls[0]).cache;
  }

  /** When one server name is a prefix of another, the one is served the scope listing of the other. */
  lemma CollidingServers<V>(server: string, x: string, scope: string, list: seq<V>, other: seq<V>)
    ensures var calls := [Call(server + (x + scope), 0, Some(list)), Call(server + x + scope, 1, Some(other))];
            Result(calls, 1).fromCache && Result(calls, 1).list == list
  {
    assert server + (x + scope) == server + x + scope;
    SecondServedFirst(server + x + scope, list, other);
  }

  /** On a single server, container `xy` of scope `user` and container `y` of scope `userx` share one
      cached list. */
  lemma CollidingScopes<V>(server: string, scope: string, x: string, y: string, list: seq<V>, other: seq<V>)
    ensures var calls := [Call(server + scope + (x + y), 0, Some(list)), Call(server + (scope + x) + y, 1, Some(other))];
            Result(calls, 1).fromCache && Result(calls, 1).list == list
  {
    assert server + scope + (x + y) == server + (scope + x) + y;
    SecondServedFirst(server + (scope + x) + y, list, other);
  }
}
