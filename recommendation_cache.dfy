/**
 The per-user recommendation scores: the external provider's records, folded
 into a map from car id to score, and read through a shared store whose
 entries live for 24 hours.
 */
module RecommendationCacheService {
  import opened RubyCore

  /** One `{car_id, rank_score}` record of the provider's answer. */
  datatype Recommendation = Recommendation(carId: int, rankScore: real)

  /**
   What the provider's call produced: the parsed records, or a failure (a
   non-success status or any exception), which the provider reports as `[]`.
   */
  datatype FetchOutcome = Fetched(records: seq<Recommendation>) | Unavailable

  function FetchedRecords(outcome: FetchOutcome): seq<Recommendation> {
    if outcome.Fetched? then outcome.records else []
  }

  // ---------------------------------------------------------------------------
  // From the list of records to the score map

  /** The map `each_with_object({}) { |rec, h| h[rec.car_id] = rec.rank_score }` builds. */
  function ScoreMap(records: seq<Recommendation>): (r: map<int, real>)
    ensures forall i :: 0 <= i < |records| ==> records[i].carId in r
    ensures records != [] ==> r[records[|records| - 1].carId] == records[|records| - 1].rankScore
  {
    if records == [] then map[]
    else
      var last := records[|records| - 1];
      ScoreMap(records[..|records| - 1])[last.carId := last.rankScore]
  }

  /** The loop that folds the records into the map, one insertion per record. */
  method BuildScoreMap(records: seq<Recommendation>) returns (scores: map<int, real>)
    ensures scores == ScoreMap(records)
  {
    scores := map[];
    for i := 0 to |records|
      invariant scores == ScoreMap(records[..i])
    {
      assert records[..i + 1][..i] == records[..i];
      scores := scores[records[i].carId := records[i].rankScore];
    }
    assert records[..|records|] == records;
  }

  /** The keys of the map are exactly the car ids that occur in the records. */
  lemma {:induction false} ScoreMapKeys(records: seq<Recommendation>)
    ensures ScoreMap(records).Keys == set i | 0 <= i < |records| :: records[i].carId
  {
    if records != [] {
      var init := records[..|records| - 1];
      ScoreMapKeys(init);
      var ids := set i | 0 <= i < |records| :: records[i].carId;
      var initIds := set i | 0 <= i < |init| :: init[i].carId;
      assert ids == initIds + {records[|records| - 1].carId} by {
        forall k | k in ids ensures k in initIds + {records[|records| - 1].carId} {
          var i :| 0 <= i < |records| && records[i].carId == k;
          if i < |init| {
            assert init[i] == records[i];
          }
        }
        forall k | k in initIds ensures k in ids {
          var i :| 0 <= i < |init| && init[i].carId == k;
          assert records[i] == init[i];
        }
      }
    }
  }

  /**
   Later duplicates overwrite earlier ones: a record that no later record
   shares its car id with supplies that id's score.
   */
  lemma {:induction false} ScoreMapLastWins(records: seq<Recommendation>, i: int)
    requires 0 <= i < |records|
    requires forall j :: i < j < |records| ==> records[j].carId != records[i].carId
    ensures records[i].carId in ScoreMap(records)
    ensures ScoreMap(records)[records[i].carId] == records[i].rankScore
  {
    var init := records[..|records| - 1];
    if i < |records| - 1 {
      forall j | i < j < |init| ensures init[j].carId != init[i].carId {
        assert init[j] == records[j];
      }
      ScoreMapLastWins(init, i);
    }
  }

  /** A failed or empty answer yields the empty map. */
  lemma UnavailableGivesNoScores()
    ensures ScoreMap(FetchedRecords(Unavailable)) == map[]
    ensures ScoreMap([]) == map[]
  {
  }

  // ---------------------------------------------------------------------------
  // The keyed store

  const CACHE_KEY_PREFIX: string := "user_recommendations"

  /** 24 hours, in seconds. */
  const CACHE_EXPIRY: int := 24 * 60 * 60

  /** `"user_recommendations:#{user_id}"`. */
  function CacheKey(userId: int): (k: string)
    ensures |k| > |CACHE_KEY_PREFIX| && k[..|CACHE_KEY_PREFIX|] == CACHE_KEY_PREFIX
    ensures k[|CACHE_KEY_PREFIX|] == ':'
    ensures StrToI(k[|CACHE_KEY_PREFIX| + 1..]) == userId
  {
    StrToIOfIntToString(userId);
    var k := CACHE_KEY_PREFIX + ":" + IntToString(userId);
    assert k[|CACHE_KEY_PREFIX| + 1..] == IntToString(userId);
    k
  }

  /** Different users never share a cache entry. */
  lemma CacheKeyInjective(a: int, b: int)
    ensures CacheKey(a) == CacheKey(b) ==> a == b
  {
    var prefix := CACHE_KEY_PREFIX + ":";
    if CacheKey(a) == CacheKey(b) {
      assert IntToString(a) == CacheKey(a)[|prefix|..];
      assert IntToString(b) == CacheKey(b)[|prefix|..];
      IntToStringInjective(a, b);
    }
  }

  /** A stored value with the time (in seconds) it was written. */
  datatype CacheEntry = CacheEntry(value: map<int, real>, writtenAt: int)

  /** An entry still serves reads strictly before `writtenAt + 24h`. */
  predicate Live(entry: CacheEntry, now: int) {
    now < entry.writtenAt + CACHE_EXPIRY
  }

  /** Whether a read for `userId` at `now` finds a live entry in `store`. */
  predicate Hit(store: map<string, CacheEntry>, userId: int, now: int) {
    CacheKey(userId) in store && Live(store[CacheKey(userId)], now)
  }

  /** A stored entry read at or after `writtenAt + 24h` is a miss. */
  lemma ExpiredEntryMisses(store: map<string, CacheEntry>, userId: int, now: int)
    requires CacheKey(userId) in store && now >= store[CacheKey(userId)].writtenAt + CACHE_EXPIRY
    ensures !Hit(store, userId, now)
  {
  }

  /**
   The shared cache store. `fetchLog` records, in order, the user ids for which
   the external provider was called.
   */
  class RecommendationCache {
    var store: map<string, CacheEntry>
    ghost var fetchLog: seq<int>

    constructor ()
      ensures store == map[] && fetchLog == []
    {
      store := map[];
      fetchLog := [];
    }

    /**
     `Rails.cache.fetch(key, expires_in: 24.hours) { ... }`: a live entry is
     returned as it is, with no call to the provider and no change to the store;
     otherwise the provider is called once for `userId`, its records are folded
     into a map, and that map is stored with the time `now` and returned.
     */
    method GetRecommendations(userId: int, now: int, fetch: int -> FetchOutcome)
      returns (scores: map<int, real>)
      modifies this
      ensures Hit(old(store), userId, now) ==>
        scores == old(store)[CacheKey(userId)].value && store == old(store) && fetchLog == old(fetchLog)
      ensures !Hit(old(store), userId, now) ==>
        && scores == ScoreMap(FetchedRecords(fetch(userId)))
        && store == old(store)[CacheKey(userId) := CacheEntry(scores, now)]
        && fetchLog == old(fetchLog) + [userId]
      ensures CacheKey(userId) in store && store[CacheKey(userId)].value == scores
      ensures Hit(store, userId, now)
      ensures forall u :: u != userId ==>
        (CacheKey(u) in store <==> CacheKey(u) in old(store)) &&
        (CacheKey(u) in store ==> store[CacheKey(u)] == old(store)[CacheKey(u)])
    {
      var key := CacheKey(userId);
      if key in store && Live(store[key], now) {
        scores := store[key].value;
      } else {
        fetchLog := fetchLog + [userId];
        var records := FetchedRecords(fetch(userId));
        scores := BuildScoreMap(records);
        store := store[key := CacheEntry(scores, now)];
      }
      forall u | u != userId
        ensures (CacheKey(u) in store <==> CacheKey(u) in old(store))
        ensures CacheKey(u) in store ==> store[CacheKey(u)] == old(store)[CacheKey(u)]
      {
        CacheKeyInjective(u, userId);
      }
    }
  }

  /**
   Two reads for the same user less than 24 hours apart reach the provider at
   most once; when the first read reached it, the second is served from the store.
   */
  method ReadTwice(cache: RecommendationCache, userId: int, t1: int, t2: int, fetch: int -> FetchOutcome)
    returns (first: map<int, real>, second: map<int, real>)
    requires t1 <= t2 < t1 + CACHE_EXPIRY
    modifies cache
    ensures |cache.fetchLog| <= |old(cache.fetchLog)| + 1
    ensures !Hit(old(cache.store), userId, t1) ==> second == first && |cache.fetchLog| == |old(cache.fetchLog)| + 1
  {
    first := cache.GetRecommendations(userId, t1, fetch);
    ghost var mid := cache.fetchLog;
    ghost var midStore := cache.store;
    second := cache.GetRecommendations(userId, t2, fetch);
    if |mid| == |old(cache.fetchLog)| + 1 {
      assert midStore[CacheKey(userId)].writtenAt == t1;
      assert Hit(midStore, userId, t2);
    }
  }
}
