/** The WordPress bridge's two-level response cache with its bounded key index, under
    explicit time.

    A transient set at time t for n seconds is visible up to and including t + n. A cache
    key stands for its URL; expired entries count as absent. */
module BridgeCache {
  import opened Text

  const DAY: nat := 86400
  const INDEX_SIZE: nat := 100
  const BODY_LIMIT: nat := 1048576

  datatype Cell = Cell(data: string, expires: int)

  datatype Response =
    | Unreachable
    | Reply(code: int, size: nat, decoded: Option<string>)   // decoded: the body as an array

  datatype Store = Store(recent: map<string, Cell>, stale: map<string, Cell>, index: seq<string>)

  const EMPTY: Store := Store(map[], map[], [])

  predicate Success(r: Response) {
    r.Reply? && 200 <= r.code < 300 && r.size <= BODY_LIMIT && r.decoded.Some?
  }

  function Read(m: map<string, Cell>, key: string, now: int): Option<string> {
    if key in m && now <= m[key].expires then Some(m[key].data) else None
  }

  // ---- The key index ----

  ghost predicate Distinct(s: seq<string>) {
    forall i, j :: 0 <= i < j < |s| ==> s[i] != s[j]
  }

  /** Keeps the first of equal keys. */
  function Unique(s: seq<string>): (r: seq<string>)
    ensures forall x :: x in r <==> x in s
    ensures Distinct(r)
  {
    if s == [] then []
    else
      var n := |s| - 1;
      var front := Unique(s[..n]);
      assert s == s[..n] + [s[n]];
      if s[n] in s[..n] then front else front + [s[n]]
  }

  function LastOf(s: seq<string>): seq<string> {
    if |s| <= INDEX_SIZE then s else s[|s| - INDEX_SIZE..]
  }

  function Remember(index: seq<string>, key: string): seq<string> {
    LastOf(Unique(index + [key]))
  }

  function Keys(s: seq<string>): set<string> { set x | x in s }

  lemma {:induction false} UniqueOfDistinct(s: seq<string>)
    requires Distinct(s)
    ensures Unique(s) == s
  {
    if s != [] {
      var n := |s| - 1;
      UniqueOfDistinct(s[..n]);
      assert s == s[..n] + [s[n]];
    }
  }

  lemma {:induction false} DistinctSize(s: seq<string>)
    requires Distinct(s)
    ensures |Keys(s)| == |s|
  {
    if s != [] {
      var n := |s| - 1;
      DistinctSize(s[..n]);
      assert s == s[..n] + [s[n]];
      assert Keys(s) == Keys(s[..n]) + {s[n]};
    }
  }

  /** A key that is there keeps its place; a new one goes to the end, and pushes the
      oldest out of a full index. */
  lemma RememberIs(index: seq<string>, key: string)
    requires Distinct(index) && |index| <= INDEX_SIZE
    ensures Remember(index, key) ==
            if key in index then index
            else if |index| < INDEX_SIZE then index + [key]
            else index[1..] + [key]
  {
    UniqueOfDistinct(index);
    assert (index + [key])[..|index|] == index;
    if key !in index && |index| == INDEX_SIZE {
      assert (index + [key])[1..] == index[1..] + [key];
    }
  }

  // ---- One request, as a function of the store ----

  function Answer(s: Store, url: string, ttl: int, now: int, r: Response): Option<string> {
    if ttl > 0 && Read(s.recent, url, now).Some? then Read(s.recent, url, now)
    else if Success(r) then r.decoded
    else Read(s.stale, url, now)
  }

  /** The request went out, succeeded, and its result is kept. */
  predicate Stores(s: Store, url: string, ttl: int, now: int, r: Response) {
    ttl > 0 && Read(s.recent, url, now).None? && Success(r)
  }

  function AfterGet(s: Store, url: string, ttl: int, now: int, r: Response): Store {
    if Stores(s, url, ttl, now, r) then
      Store(s.recent[url := Cell(r.decoded.value, now + ttl)],
            s.stale[url := Cell(r.decoded.value, now + DAY)],
            Remember(s.index, url))
    else s
  }

  function AfterClear(s: Store): Store {
    Store(s.recent - Keys(s.index), s.stale - Keys(s.index), [])
  }

  class Bridge {
    var recent: map<string, Cell>
    var stale: map<string, Cell>
    var index: seq<string>

    function Contents(): Store
      reads this
    {
      Store(recent, stale, index)
    }

    constructor ()
      ensures Contents() == EMPTY
    {
      recent, stale, index := map[], map[], [];
    }

    method ApiGet(url: string, ttl: int, now: int, response: Response) returns (r: Option<string>)
      modifies this
      ensures r == Answer(old(Contents()), url, ttl, now, response)
      ensures Contents() == AfterGet(old(Contents()), url, ttl, now, response)
    {
      if ttl > 0 {
        var cached := Read(recent, url, now);
        if cached.Some? { return cached; }
      }
      if response.Unreachable? {
        r := StaleOrError(url, now);
        return;
      }
      if response.code < 200 || response.code >= 300 || response.size > BODY_LIMIT {
        r := StaleOrError(url, now);
        return;
      }
      if response.decoded.None? {
        r := StaleOrError(url, now);
        return;
      }
      if ttl > 0 {
        recent := recent[url := Cell(response.decoded.value, now + ttl)];
        stale := stale[url := Cell(response.decoded.value, now + DAY)];
        RememberKey(url);
      }
      return response.decoded;
    }

    method StaleOrError(url: string, now: int) returns (r: Option<string>)
      ensures r == Read(stale, url, now)
    {
      r := Read(stale, url, now);
    }

    method RememberKey(key: string)
      modifies this`index
      ensures index == Remember(old(index), key)
    {
      index := LastOf(Unique(index + [key]));
    }

    method ClearCache()
      modifies this
      ensures Contents() == AfterClear(old(Contents()))
    {
      for i := 0 to |index|
        invariant index == old(index)
        invariant recent == old(recent) - Keys(index[..i])
        invariant stale == old(stale) - Keys(index[..i])
      {
        assert index[..i + 1] == index[..i] + [index[i]];
        assert Keys(index[..i + 1]) == Keys(index[..i]) + {index[i]};
        recent := recent - {index[i]};
        stale := stale - {index[i]};
      }
      assert index[..|index|] == index;
      index := [];
    }
  }

  // ---- Timed runs ----

  datatype Call = Get(url: string, ttl: int, now: int, response: Response) | Clear

  /** Runs, by their last call. */
  datatype Run = Start | Then(run: Run, call: Call)

  function After(r: Run): Store {
    match r
    case Start => EMPTY
    case Then(run, Get(url, ttl, now, response)) => AfterGet(After(run), url, ttl, now, response)
    case Then(run, Clear) => AfterClear(After(run))
  }

  datatype Stored = Stored(at: int, ttl: int, data: string)

  /** The last call of the run stored a response for the URL. */
  predicate StoredLast(r: Run, url: string) {
    r.Then? && r.call.Get? && r.call.url == url &&
    Stores(After(r.run), url, r.call.ttl, r.call.now, r.call.response)
  }

  /** The latest successful response for the URL that was kept. */
  function Latest(r: Run, url: string): Option<Stored> {
    if r.Start? then None
    else if StoredLast(r, url) then Some(Stored(r.call.now, r.call.ttl, r.call.response.decoded.value))
    else Latest(r.run, url)
  }

  ghost predicate FreshIs(m: map<string, Cell>, url: string, stored: Option<Stored>) {
    url in m ==> stored.Some? && m[url] == Cell(stored.value.data, stored.value.at + stored.value.ttl)
  }

  ghost predicate StaleIs(m: map<string, Cell>, url: string, stored: Option<Stored>) {
    url in m ==> stored.Some? && m[url] == Cell(stored.value.data, stored.value.at + DAY)
  }

  lemma {:induction false} CellsAreLatest(r: Run, url: string)
    ensures FreshIs(After(r).recent, url, Latest(r, url)) && StaleIs(After(r).stale, url, Latest(r, url))
  {
    if r.Then? { CellsAreLatest(r.run, url); }
  }

  /** Where the answer comes from: the fresh level if it has something and the call may
      use it, otherwise the request, otherwise the stale level. */
  predicate FromFresh(s: Store, url: string, ttl: int, now: int) {
    ttl > 0 && Read(s.recent, url, now).Some?
  }

  /** A fresh hit is the latest response kept for the same URL, no older than the time it
      was stored for. Otherwise a request that succeeds answers for itself, and for one
      that fails the latest response kept stands in, no older than a day. */
  lemma ReturnedDataIsGenuine(r: Run, url: string, ttl: int, now: int, response: Response)
    requires Answer(After(r), url, ttl, now, response).Some?
    ensures var data := Answer(After(r), url, ttl, now, response).value;
            var stored := Latest(r, url);
            if FromFresh(After(r), url, ttl, now) then
              stored.Some? && data == stored.value.data && now - stored.value.at <= stored.value.ttl
            else if Success(response) then
              data == response.decoded.value
            else
              stored.Some? && data == stored.value.data && now - stored.value.at <= DAY
  {
    CellsAreLatest(r, url);
  }

  /** No index ever holds a key twice, or more than a hundred keys. */
  lemma {:induction false} IndexIsBounded(r: Run)
    ensures Distinct(After(r).index) && |After(r).index| <= 100
  {
    if r.Then? {
      IndexIsBounded(r.run);
      if r.call.Get? { RememberIs(After(r.run).index, r.call.url); }
    }
  }

  // ---- What a clear leaves ----

  predicate Visible(s: Store, key: string, now: int) {
    Read(s.recent, key, now).Some? || Read(s.stale, key, now).Some?
  }

  /** The keys stored since the last clear. */
  function Since(r: Run): set<string> {
    if r.Start? || r.call.Clear? then {}
    else if StoredLast(r, r.call.url) then Since(r.run) + {r.call.url}
    else Since(r.run)
  }

  /** No more than a hundred keys were stored between any clear and the next. */
  predicate Tame(r: Run) {
    |Since(r)| <= INDEX_SIZE && (r.Then? ==> Tame(r.run))
  }

  lemma {:induction false} SinceGrows(r: Run)
    requires r.Then? && r.call.Get?
    ensures Since(r.run) <= Since(r) && |Since(r.run)| <= |Since(r)|
  {
    if StoredLast(r, r.call.url) {
      if r.call.url in Since(r.run) {
        assert Since(r) == Since(r.run);
      } else {
        assert Since(r) - {r.call.url} == Since(r.run);
      }
    }
  }

  /** The index is a part of these keys, and all of them while there are no more than a hundred. */
  ghost predicate Indexes(index: seq<string>, keys: set<string>) {
    Keys(index) <= keys && (|keys| <= INDEX_SIZE ==> Keys(index) == keys)
  }

  lemma RememberIndexes(index: seq<string>, key: string, keys: set<string>)
    requires Distinct(index) && |index| <= INDEX_SIZE && Indexes(index, keys)
    ensures Indexes(Remember(index, key), keys + {key})
  {
    RememberIs(index, key);
    DistinctSize(index);
    if key in index {
      assert keys + {key} == keys;
    } else if |index| < INDEX_SIZE {
      assert Keys(index + [key]) == Keys(index) + {key};
      if key in keys { assert keys + {key} == keys; }
    } else {
      assert Keys(index[1..] + [key]) <= Keys(index) + {key};
      Larger(Keys(index) + {key}, keys + {key});
    }
  }

  lemma Larger(a: set<string>, b: set<string>)
    requires a <= b
    ensures |a| <= |b|
  {
    assert b == a + (b - a);
  }

  lemma {:induction false} IndexHoldsSince(r: Run)
    ensures Indexes(After(r).index, Since(r))
  {
    if r.Then? && r.call.Get? {
      IndexHoldsSince(r.run);
      IndexIsBounded(r.run);
      RememberIndexes(After(r.run).index, r.call.url, Since(r.run));
    }
  }

  ghost predicate Holds(s: Store, keys: set<string>) {
    s.recent.Keys <= keys && s.stale.Keys <= keys
  }

  lemma {:induction false} TameRunHoldsSince(r: Run)
    requires Tame(r)
    ensures Holds(After(r), Since(r))
  {
    if r.Then? {
      TameRunHoldsSince(r.run);
      IndexHoldsSince(r.run);
    }
  }

  /** When no period between clears stored more than a hundred keys, a clear leaves nothing. */
  lemma ClearLeavesNothing(r: Run)
    requires Tame(r)
    ensures After(Then(r, Clear)) == EMPTY
  {
    TameRunHoldsSince(r);
    IndexHoldsSince(r);
    var s := After(Then(r, Clear));
    assert s.recent.Keys == {} && s.stale.Keys == {};
  }

  /** The periods up to the last clear stored no more than a hundred keys each. */
  predicate TameBefore(r: Run) {
    r.Then? ==> if r.call.Clear? then Tame(r.run) else TameBefore(r.run)
  }

  /** No request since the last clear was more than a day before `now`. */
  predicate WithinDaySince(r: Run, now: int) {
    r.Then? && r.call.Get? ==> now <= r.call.now + DAY && WithinDaySince(r.run, now)
  }

  lemma {:induction false} StoredIsVisible(r: Run, key: string, now: int)
    requires WithinDaySince(r, now) && key in Since(r)
    ensures Read(After(r).stale, key, now).Some?
  {
    if !StoredLast(r, key) { StoredIsVisible(r.run, key, now); }
  }

  lemma {:induction false} TameSoFar(r: Run)
    requires TameBefore(r) && |Since(r)| <= INDEX_SIZE
    ensures Tame(r)
  {
    if r.Then? && r.call.Get? {
      SinceGrows(r);
      TameSoFar(r.run);
    }
  }

  ghost predicate NothingVisible(s: Store, now: int) {
    forall key :: !Visible(s, key, now)
  }

  /** Whatever happened before the last clear, if no earlier period overflowed the index:
      within a day the next clear leaves nothing behind exactly when at most a hundred
      different keys were stored since. */
  lemma ClearIsCompleteIff(r: Run, now: int)
    requires TameBefore(r) && WithinDaySince(r, now)
    ensures NothingVisible(After(Then(r, Clear)), now) <==> |Since(r)| <= 100
  {
    if |Since(r)| <= INDEX_SIZE {
      TameSoFar(r);
      ClearLeavesNothing(r);
    } else {
      var index := After(r).index;
      IndexIsBounded(r);
      DistinctSize(index);
      IndexHoldsSince(r);
      assert Keys(index) <= Since(r) && Keys(index) != Since(r);
      var key :| key in Since(r) && key !in Keys(index);
      StoredIsVisible(r, key, now);
      assert After(Then(r, Clear)).stale == After(r).stale - Keys(index);
      assert Visible(After(Then(r, Clear)), key, now);
    }
  }

  /** For every run at all, and every time: a clear leaves exactly what is visible and has
      fallen out of the index. */
  lemma ClearLeavesUnindexed(r: Run, key: string, now: int)
    ensures Visible(After(Then(r, Clear)), key, now) <==> Visible(After(r), key, now) && key !in After(r).index
  {
    assert After(Then(r, Clear)) == AfterClear(After(r));
  }

  // ---- What a clear leaves, for every history ----

  /** The request came back with a good status, a body that is not too long, and an array in it. */
  predicate Fetched(r: Response) {
    r.Reply? && r.code >= 200 && r.code <= 299 && r.size <= 1048576 && r.decoded.Some?
  }

  /** A response kept that is no older than the time it was stored for. */
  predicate FreshAt(kept: Option<Stored>, now: int) {
    kept.Some? && now - kept.value.at <= kept.value.ttl
  }

  /** The last call asked for the URL, was allowed to use the cache, found nothing fresh in
      it and fetched a response. */
  predicate Storing(r: Run, url: string)
    decreases r, 0
  {
    r.Then? && r.call.Get? && r.call.url == url && r.call.ttl > 0
    && !FreshAt(Kept(r.run, url), r.call.now) && Fetched(r.call.response)
  }

  /** The keys that entered the index since the last clear, oldest first: a stored key
      enters unless it is among the last hundred that did. */
  function Entered(r: Run): seq<string>
    decreases r, 1
  {
    if r.Start? || r.call.Clear? then []
    else
      var before := Entered(r.run);
      if Storing(r, r.call.url) && r.call.url !in LastOf(before) then before + [r.call.url] else before
  }

  /** The latest response stored for the URL that no clear has found in the index since. */
  function Kept(r: Run, url: string): Option<Stored>
    decreases r, 1
  {
    if r.Start? then None
    else if r.call.Clear? then (if url in LastOf(Entered(r.run)) then None else Kept(r.run, url))
    else if Storing(r, url) then Some(Stored(r.call.now, r.call.ttl, r.call.response.decoded.value))
    else Kept(r.run, url)
  }

  lemma RememberLast(before: seq<string>, key: string)
    requires Distinct(LastOf(before))
    ensures Remember(LastOf(before), key) == LastOf(if key in LastOf(before) then before else before + [key])
  {
    RememberIs(LastOf(before), key);
  }

  ghost predicate Holding(s: Store, url: string, kept: Option<Stored>) {
    && (url in s.recent <==> kept.Some?) && (url in s.stale <==> kept.Some?)
    && (kept.Some? ==> s.recent[url] == Cell(kept.value.data, kept.value.at + kept.value.ttl)
                       && s.stale[url] == Cell(kept.value.data, kept.value.at + 86400))
  }

  /** The store holds exactly what the history says, and so does the index. */
  ghost predicate TrueTo(r: Run) {
    After(r).index == LastOf(Entered(r)) && forall url :: Holding(After(r), url, Kept(r, url))
  }

  lemma StoringIsStored(r: Run, url: string)
    requires r.Then? && TrueTo(r.run)
    ensures Storing(r, url) <==> StoredLast(r, url)
  {
    assert Holding(After(r.run), url, Kept(r.run, url));
  }

  lemma {:induction false} StoreIsTrue(r: Run)
    ensures TrueTo(r)
  {
    if r.Then? {
      StoreIsTrue(r.run);
      IndexIsBounded(r.run);
      if r.call.Get? {
        StoringIsStored(r, r.call.url);
        RememberLast(Entered(r.run), r.call.url);
      }
      forall url ensures Holding(After(r), url, Kept(r, url)) {
        assert Holding(After(r.run), url, Kept(r.run, url));
        StoringIsStored(r, url);
      }
    }
  }

  lemma IndexIsLastEntered(r: Run)
    ensures After(r).index == LastOf(Entered(r))
  {
    StoreIsTrue(r);
  }

  lemma StoreIsKept(r: Run, url: string)
    ensures Holding(After(r), url, Kept(r, url))
  {
    StoreIsTrue(r);
  }

  /** What every request answers, from the history alone: the response kept, if the call
      may use it and it is fresh; otherwise its own, if it fetched one; otherwise the one
      kept, if that is at most a day old; and an error only if none of these is there. */
  lemma AnswerIs(r: Run, url: string, ttl: int, now: int, response: Response)
    ensures var kept := Kept(r, url);
            Answer(After(r), url, ttl, now, response) ==
            if ttl > 0 && FreshAt(kept, now) then Some(kept.value.data)
            else if Fetched(response) then response.decoded
            else if kept.Some? && now - kept.value.at <= 86400 then Some(kept.value.data)
            else None
  {
    StoreIsKept(r, url);
  }

  predicate Alive(kept: Option<Stored>, now: int) {
    kept.Some? && (now <= kept.value.at + kept.value.ttl || now <= kept.value.at + DAY)
  }

  /** For every run and every time: what stays visible after a clear is exactly what was
      kept and is still alive, and has been pushed out by a hundred keys that entered the
      index after it. */
  lemma SurvivesClearIff(r: Run, url: string, now: int)
    ensures Visible(After(Then(r, Clear)), url, now) <==> Alive(Kept(r, url), now) && url !in LastOf(Entered(r))
  {
    StoreIsKept(r, url);
    IndexIsLastEntered(r);
    ClearLeavesUnindexed(r, url, now);
  }

  /** Kept, alive and pushed out. */
  predicate Escapes(r: Run, url: string, now: int) {
    Alive(Kept(r, url), now) && url !in LastOf(Entered(r))
  }

  lemma ClearIsCompleteForEveryRun(r: Run, now: int)
    ensures NothingVisible(After(Then(r, Clear)), now) <==> forall url :: !Escapes(r, url, now)
  {
    var s := After(Then(r, Clear));
    forall url ensures Visible(s, url, now) <==> Escapes(r, url, now) {
      SurvivesClearIff(r, url, now);
    }
    if url :| Escapes(r, url, now) { assert Visible(s, url, now); }
    if url :| Visible(s, url, now) { assert Escapes(r, url, now); }
  }

  // ---- An overflow outlives later clears ----

  function Name(k: nat): (s: string)
    ensures |s| == k
  {
    seq(k, i => 'a')
  }

  /** One request for each of `n` different URLs, all at time 0. */
  function Fill(n: nat): Run {
    if n == 0 then Start else Then(Fill(n - 1), Get(Name(n - 1), 1, 0, Reply(200, 0, Some("{}"))))
  }

  lemma {:induction false} FillStoresAll(n: nat)
    ensures TameBefore(Fill(n)) && WithinDaySince(Fill(n), 0)
    ensures forall key :: key in After(Fill(n)).recent ==> |key| < n
    ensures |Since(Fill(n))| == n && forall key :: key in Since(Fill(n)) ==> |key| < n
  {
    if n > 0 {
      FillStoresAll(n - 1);
      assert StoredLast(Fill(n), Name(n - 1));
      assert Since(Fill(n)) == Since(Fill(n - 1)) + {Name(n - 1)};
    }
  }

  /** It is not enough that few keys were stored since the last clear: what an earlier
      period pushed out of the index survives that clear and every later one. */
  lemma OverflowOutlivesClears(n: nat)
    requires n > INDEX_SIZE
    ensures var r := Then(Fill(n), Clear);
            Since(r) == {} && !NothingVisible(After(Then(r, Clear)), 0)
  {
    FillStoresAll(n);
    ClearIsCompleteIff(Fill(n), 0);
    var r := Then(Fill(n), Clear);
    assert After(Then(r, Clear)) == After(r);
  }
}
