/**
 The car listing: filter the cars by brand name and price, rank them by match
 label, recommendation score and price, and cut out one page.
 */
module CarQuery {
  import opened RubyCore
  import opened Domain
  import opened LabelService
  import opened RecommendationCacheService

  const PER_PAGE: nat := 20

  // ---------------------------------------------------------------------------
  // Filters

  /** One `where` clause of the query. */
  datatype CarFilter =
    | BrandNameLike(pattern: string)   // brands.name ILIKE '%pattern%'
    | PriceAtLeast(bound: int)         // price >= bound
    | PriceAtMost(bound: int)          // price <= bound

  predicate Admits(f: CarFilter, car: Car) {
    match f
    case BrandNameLike(pattern) => ILikeContains(car.brand.name, pattern)
    case PriceAtLeast(bound) => car.price >= bound
    case PriceAtMost(bound) => car.price <= bound
  }

  /** `cars.where(f)`: the admitted cars, in their original order. */
  function Where(cars: seq<Car>, f: CarFilter): seq<Car> {
    if cars == [] then []
    else (if Admits(f, cars[0]) then [cars[0]] else []) + Where(cars[1..], f)
  }

  /** A `where` keeps every admitted car as often as it occurs, and nothing else. */
  lemma {:induction false} WhereCount(cars: seq<Car>, f: CarFilter, car: Car)
    ensures multiset(Where(cars, f))[car] == if Admits(f, car) then multiset(cars)[car] else 0
  {
    if cars != [] {
      assert cars == [cars[0]] + cars[1..];
      WhereCount(cars[1..], f, car);
    }
  }

  /** A `where` returns no more cars than it is given, each of them given and admitted. */
  lemma {:induction false} WhereMembers(cars: seq<Car>, f: CarFilter)
    ensures |Where(cars, f)| <= |cars|
    ensures forall i :: 0 <= i < |Where(cars, f)| ==> Where(cars, f)[i] in cars && Admits(f, Where(cars, f)[i])
  {
    if cars != [] {
      WhereMembers(cars[1..], f);
      var r := Where(cars, f);
      forall i | 0 <= i < |r| ensures r[i] in cars && Admits(f, r[i]) {
        WhereCount(cars, f, r[i]);
        assert r[i] in multiset(r);
      }
    }
  }

  /** One step of `Where`, for a list written as a head and a rest. */
  lemma WhereCons(c: Car, rest: seq<Car>, f: CarFilter)
    ensures Where([c] + rest, f) == (if Admits(f, c) then [c] else []) + Where(rest, f)
  {
    assert ([c] + rest)[0] == c && ([c] + rest)[1..] == rest;
  }

  /** A `where` works element by element, so it keeps the original order. */
  lemma {:induction false} WhereConcat(a: seq<Car>, b: seq<Car>, f: CarFilter)
    ensures Where(a + b, f) == Where(a, f) + Where(b, f)
  {
    if a == [] {
      assert a + b == b;
    } else {
      var c, t := a[0], a[1..];
      var head := if Admits(f, c) then [c] else [];
      calc {
        Where(a + b, f);
        { assert a + b == [c] + (t + b); }
        Where([c] + (t + b), f);
        { WhereCons(c, t + b, f); }
        head + Where(t + b, f);
        { WhereConcat(t, b, f); }
        head + (Where(t, f) + Where(b, f));
        (head + Where(t, f)) + Where(b, f);
        { WhereCons(c, t, f); assert a == [c] + t; }
        Where(a, f) + Where(b, f);
      }
    }
  }

  /** Two `where` clauses can be applied in either order. */
  lemma {:induction false} WhereCommutes(cars: seq<Car>, f: CarFilter, g: CarFilter)
    ensures Where(Where(cars, f), g) == Where(Where(cars, g), f)
  {
    if cars != [] {
      var c := cars[0];
      var head := if Admits(f, c) then [c] else [];
      var headG := if Admits(g, c) then [c] else [];
      WhereConcat(head, Where(cars[1..], f), g);
      WhereConcat(headG, Where(cars[1..], g), f);
      WhereCommutes(cars[1..], f, g);
      if Admits(f, c) {
        assert Where(head, g) == if Admits(g, c) then [c] else [];
      }
      if Admits(g, c) {
        assert Where(headG, f) == if Admits(f, c) then [c] else [];
      }
    }
  }

  /** A query that is nil or only whitespace filters nothing. */
  predicate QueryBlank(query: Option<string>) {
    query.None? || BlankString(query.value)
  }

  /** `filter_by_brand_name`. */
  function FilterByBrandName(cars: seq<Car>, query: Option<string>): (r: seq<Car>)
    ensures QueryBlank(query) ==> r == cars
    ensures |r| <= |cars|
    ensures forall i :: 0 <= i < |r| ==> r[i] in cars && BrandSelected(r[i], query)
  {
    if QueryBlank(query) then cars
    else
      WhereMembers(cars, BrandNameLike(query.value));
      Where(cars, BrandNameLike(query.value))
  }

  /** A query of a no-break space is blank, so it filters nothing. */
  lemma NoBreakSpaceQueryKeepsAll(cars: seq<Car>)
    ensures FilterByBrandName(cars, Some("\U{00A0}")) == cars
  {
    var q := "\U{00A0}";
    assert |q| == 1 && q[0] == '\U{00A0}';
    assert BlankString(q);
  }

  /** `filter_by_price_range`: each bound that is present adds its own clause. */
  function FilterByPriceRange(cars: seq<Car>, priceMin: Option<int>, priceMax: Option<int>): (r: seq<Car>)
    ensures priceMin.None? && priceMax.None? ==> r == cars
    ensures |r| <= |cars|
    ensures forall i :: 0 <= i < |r| ==> r[i] in cars && WithinBounds(r[i].price, priceMin, priceMax)
  {
    var atLeast :=
      if priceMin.Some? then
        WhereMembers(cars, PriceAtLeast(priceMin.value));
        Where(cars, PriceAtLeast(priceMin.value))
      else cars;
    if priceMax.Some? then
      WhereMembers(atLeast, PriceAtMost(priceMax.value));
      Where(atLeast, PriceAtMost(priceMax.value))
    else atLeast
  }

  /** The brand condition a car must meet to stay in the listing. */
  predicate BrandSelected(car: Car, query: Option<string>) {
    QueryBlank(query) || ILikeContains(car.brand.name, query.value)
  }

  /** The price condition: inclusive at each bound that is present. */
  predicate WithinBounds(price: int, priceMin: Option<int>, priceMax: Option<int>) {
    (priceMin.None? || price >= priceMin.value) && (priceMax.None? || price <= priceMax.value)
  }

  predicate Selected(car: Car, query: Option<string>, priceMin: Option<int>, priceMax: Option<int>) {
    BrandSelected(car, query) && WithinBounds(car.price, priceMin, priceMax)
  }

  /** The cars `call` hands to the sort: the brand filter, then the price filter. */
  function Filtered(cars: seq<Car>, query: Option<string>, priceMin: Option<int>, priceMax: Option<int>): seq<Car> {
    FilterByPriceRange(FilterByBrandName(cars, query), priceMin, priceMax)
  }

  lemma FilterByBrandNameCount(cars: seq<Car>, query: Option<string>, car: Car)
    ensures QueryBlank(query) ==> FilterByBrandName(cars, query) == cars
    ensures multiset(FilterByBrandName(cars, query))[car] ==
      if BrandSelected(car, query) then multiset(cars)[car] else 0
  {
    if !QueryBlank(query) {
      WhereCount(cars, BrandNameLike(query.value), car);
    }
  }

  lemma FilterByPriceRangeCount(cars: seq<Car>, priceMin: Option<int>, priceMax: Option<int>, car: Car)
    ensures priceMin.None? && priceMax.None? ==> FilterByPriceRange(cars, priceMin, priceMax) == cars
    ensures multiset(FilterByPriceRange(cars, priceMin, priceMax))[car] ==
      if WithinBounds(car.price, priceMin, priceMax) then multiset(cars)[car] else 0
  {
    var atLeast := if priceMin.Some? then Where(cars, PriceAtLeast(priceMin.value)) else cars;
    if priceMin.Some? {
      WhereCount(cars, PriceAtLeast(priceMin.value), car);
    }
    if priceMax.Some? {
      WhereCount(atLeast, PriceAtMost(priceMax.value), car);
    }
  }

  /**
   The filtered list holds exactly the selected cars, each as often as it
   occurs in the input.
   */
  lemma FilteredCount(cars: seq<Car>, query: Option<string>, priceMin: Option<int>, priceMax: Option<int>, car: Car)
    ensures multiset(Filtered(cars, query, priceMin, priceMax))[car] ==
      if Selected(car, query, priceMin, priceMax) then multiset(cars)[car] else 0
  {
    FilterByBrandNameCount(cars, query, car);
    FilterByPriceRangeCount(FilterByBrandName(cars, query), priceMin, priceMax, car);
  }

  /** Filtering works car by car, so the filtered list keeps the input order. */
  lemma FilteredConcat(a: seq<Car>, b: seq<Car>, query: Option<string>, priceMin: Option<int>, priceMax: Option<int>)
    ensures Filtered(a + b, query, priceMin, priceMax) ==
      Filtered(a, query, priceMin, priceMax) + Filtered(b, query, priceMin, priceMax)
  {
    var byBrand := FilterByBrandName(a + b, query);
    if !QueryBlank(query) {
      WhereConcat(a, b, BrandNameLike(query.value));
    }
    assert byBrand == FilterByBrandName(a, query) + FilterByBrandName(b, query);
    var a1, b1 := FilterByBrandName(a, query), FilterByBrandName(b, query);
    if priceMin.Some? {
      WhereConcat(a1, b1, PriceAtLeast(priceMin.value));
    }
    var a2 := if priceMin.Some? then Where(a1, PriceAtLeast(priceMin.value)) else a1;
    var b2 := if priceMin.Some? then Where(b1, PriceAtLeast(priceMin.value)) else b1;
    if priceMax.Some? {
      WhereConcat(a2, b2, PriceAtMost(priceMax.value));
    }
  }

  /** The brand filter and the price filter give the same list in either order. */
  lemma FiltersCommute(cars: seq<Car>, query: Option<string>, priceMin: Option<int>, priceMax: Option<int>)
    ensures FilterByPriceRange(FilterByBrandName(cars, query), priceMin, priceMax) ==
      FilterByBrandName(FilterByPriceRange(cars, priceMin, priceMax), query)
  {
    if !QueryBlank(query) {
      var q := BrandNameLike(query.value);
      var atLeast := if priceMin.Some? then Where(cars, PriceAtLeast(priceMin.value)) else cars;
      if priceMin.Some? {
        WhereCommutes(cars, q, PriceAtLeast(priceMin.value));
      }
      if priceMax.Some? {
        WhereCommutes(atLeast, q, PriceAtMost(priceMax.value));
      }
    }
  }

  // ---------------------------------------------------------------------------
  // Ranking

  /** `@rank_scores[car.id] || 0`. */
  function ScoreOf(scores: map<int, real>, carId: int): real {
    if carId in scores then scores[carId] else 0.0
  }

  /**
   The score the ranking sees for a car is the provider's score for that car:
   the one carried by the last record with its id.
   */
  lemma ScoreOfFetchedRecords(records: seq<Recommendation>, i: int)
    requires 0 <= i < |records|
    requires forall j :: i < j < |records| ==> records[j].carId != records[i].carId
    ensures ScoreOf(ScoreMap(records), records[i].carId) == records[i].rankScore
  {
    ScoreMapLastWins(records, i);
  }

  /** A car the provider has no record for ranks with score 0. */
  lemma ScoreOfUnlistedCar(records: seq<Recommendation>, carId: int)
    requires forall j :: 0 <= j < |records| ==> records[j].carId != carId
    ensures ScoreOf(ScoreMap(records), carId) == 0.0
  {
    ScoreMapKeys(records);
  }

  /**
   The lookup as the source writes it, `@rank_scores[car.id.to_s] || 0`. The
   map the cache builds is a Ruby Hash with Integer keys, so a String key is
   looked up in it.
   */
  datatype HashKey = IntKey(n: int) | StrKey(s: string)

  function AsRubyHash(scores: map<int, real>): map<HashKey, real> {
    map k | k in scores :: IntKey(k) := scores[k]
  }

  function ScoreOfAsWritten(hash: map<HashKey, real>, carId: int): real {
    var key := StrKey(IntToString(carId));
    if key in hash then hash[key] else 0.0
  }

  /** As written, every car's score is 0, whatever the provider returned. */
  lemma ScoreOfAsWrittenIsZero(scores: map<int, real>, carId: int)
    ensures ScoreOfAsWritten(AsRubyHash(scores), carId) == 0.0
  {
  }

  /** The `sort_by` key `[-label_priority, -score, price]`. */
  datatype SortKey = SortKey(negPriority: int, negScore: real, price: int)

  function KeyOf(car: Car, user: User, scores: map<int, real>): (k: SortKey)
    ensures -2 <= k.negPriority <= 0
    ensures k.negPriority == -2 <==> LabelFor(car, user) == PerfectMatch
    ensures k.negPriority == 0 <==> LabelFor(car, user) == NoMatch
    ensures car.id !in scores ==> k.negScore == 0.0
    ensures car.id in scores ==> k.negScore == -scores[car.id]
    ensures k.price == car.price
  {
    SortKey(-LabelPriority(LabelFor(car, user)), -ScoreOf(scores, car.id), car.price)
  }

  /** Ruby's `(a <=> b) <= 0` on two keys: lexicographic comparison. */
  predicate KeyLe(a: SortKey, b: SortKey) {
    a.negPriority < b.negPriority ||
    (a.negPriority == b.negPriority &&
      (a.negScore < b.negScore || (a.negScore == b.negScore && a.price <= b.price)))
  }

  /** `KeyLe` is a total preorder, so `sort_by` can order any list of keys by it. */
  lemma KeyLeTotalPreorder(a: SortKey, b: SortKey, c: SortKey)
    ensures KeyLe(a, a)
    ensures KeyLe(a, b) || KeyLe(b, a)
    ensures KeyLe(a, b) && KeyLe(b, c) ==> KeyLe(a, c)
    ensures KeyLe(a, b) && KeyLe(b, a) ==> a == b
  {
  }

  /** The sort key with the lookup as written. */
  function KeyOfAsWritten(car: Car, user: User, scores: map<int, real>): SortKey {
    SortKey(-LabelPriority(LabelFor(car, user)), -ScoreOfAsWritten(AsRubyHash(scores), car.id), car.price)
  }

  /**
   The controller test's CR-V (score 0.85, 60 000) and Civic (score 0.45,
   30 000), neither of a preferred brand: as written the Civic ranks strictly
   first, on price alone; with the lookup by integer id the CR-V does, as the
   test expects.
   */
  lemma AsWrittenMisranksByScore()
    ensures var honda := Brand(2, "Honda");
      var crv, civic := Car(3, "CR-V", 60000, honda), Car(4, "Civic", 30000, honda);
      var user := User(1, {1}, PriceRange(10000, 50000));
      var scores := map[3 := 0.85, 4 := 0.45];
      && KeyLe(KeyOfAsWritten(civic, user, scores), KeyOfAsWritten(crv, user, scores))
      && !KeyLe(KeyOfAsWritten(crv, user, scores), KeyOfAsWritten(civic, user, scores))
      && RankedBefore(crv, civic, user, scores)
      && !RankedBefore(civic, crv, user, scores)
  {
    var honda := Brand(2, "Honda");
    var scores := map[3 := 0.85, 4 := 0.45];
    ScoreOfAsWrittenIsZero(scores, 3);
    ScoreOfAsWrittenIsZero(scores, 4);
  }

  /** `a` may stand before `b` in the ranking. */
  predicate RankedBefore(a: Car, b: Car, user: User, scores: map<int, real>) {
    KeyLe(KeyOf(a, user, scores), KeyOf(b, user, scores))
  }

  /**
   The key orders by label priority descending, then score descending, then
   price ascending.
   */
  lemma RankedBeforeMeaning(a: Car, b: Car, user: User, scores: map<int, real>)
    ensures var pa, pb := LabelPriority(LabelFor(a, user)), LabelPriority(LabelFor(b, user));
      var sa, sb := ScoreOf(scores, a.id), ScoreOf(scores, b.id);
      RankedBefore(a, b, user, scores) <==>
        pa > pb || (pa == pb && (sa > sb || (sa == sb && a.price <= b.price)))
  {
  }

  /** Every adjacent and non-adjacent pair is in ranking order. */
  predicate Sorted(cars: seq<Car>, user: User, scores: map<int, real>) {
    forall i, j :: 0 <= i < j < |cars| ==> RankedBefore(cars[i], cars[j], user, scores)
  }

  /** Put `car` in front of the first element it may precede. */
  function Insert(car: Car, sorted: seq<Car>, user: User, scores: map<int, real>): (r: seq<Car>)
    ensures multiset(r) == multiset(sorted) + multiset{car}
  {
    if sorted == [] then [car]
    else if RankedBefore(car, sorted[0], user, scores) then [car] + sorted
    else
      assert sorted == [sorted[0]] + sorted[1..];
      [sorted[0]] + Insert(car, sorted[1..], user, scores)
  }

  /** Putting a car in front of a sorted list that it ranks before keeps it sorted. */
  lemma SortedCons(car: Car, rest: seq<Car>, user: User, scores: map<int, real>)
    requires Sorted(rest, user, scores)
    requires forall k :: 0 <= k < |rest| ==> RankedBefore(car, rest[k], user, scores)
    ensures Sorted([car] + rest, user, scores)
  {
    var r := [car] + rest;
    forall i, j | 0 <= i < j < |r| ensures RankedBefore(r[i], r[j], user, scores) {
      assert r[j] == rest[j - 1];
      if i > 0 {
        assert r[i] == rest[i - 1];
      }
    }
  }

  /** The tail of a sorted list is sorted, and its head ranks before all of it. */
  lemma SortedTail(sorted: seq<Car>, user: User, scores: map<int, real>)
    requires sorted != [] && Sorted(sorted, user, scores)
    ensures Sorted(sorted[1..], user, scores)
    ensures forall k :: 0 <= k < |sorted[1..]| ==> RankedBefore(sorted[0], sorted[1..][k], user, scores)
  {
    forall i, j | 0 <= i < j < |sorted[1..]|
      ensures RankedBefore(sorted[1..][i], sorted[1..][j], user, scores)
    {
      assert sorted[1..][i] == sorted[i + 1] && sorted[1..][j] == sorted[j + 1];
    }
    forall k | 0 <= k < |sorted[1..]| ensures RankedBefore(sorted[0], sorted[1..][k], user, scores) {
      assert sorted[1..][k] == sorted[k + 1];
    }
  }

  /** Every car of `Insert(car, sorted)` is `car` or a car of `sorted`. */
  lemma InsertMember(car: Car, sorted: seq<Car>, user: User, scores: map<int, real>, x: Car)
    requires x in Insert(car, sorted, user, scores)
    ensures x == car || x in sorted
  {
    assert x in multiset(Insert(car, sorted, user, scores));
  }

  lemma {:induction false} InsertSorted(car: Car, sorted: seq<Car>, user: User, scores: map<int, real>)
    requires Sorted(sorted, user, scores)
    ensures Sorted(Insert(car, sorted, user, scores), user, scores)
  {
    if sorted == [] {
      assert Insert(car, sorted, user, scores) == [car];
    } else {
      var s0, tail := sorted[0], sorted[1..];
      SortedTail(sorted, user, scores);
      if RankedBefore(car, s0, user, scores) {
        forall k | 0 <= k < |sorted| ensures RankedBefore(car, sorted[k], user, scores) {
          if k > 0 {
            assert sorted[k] == tail[k - 1];
          }
        }
        SortedCons(car, sorted, user, scores);
      } else {
        var rest := Insert(car, tail, user, scores);
        InsertSorted(car, tail, user, scores);
        forall k | 0 <= k < |rest| ensures RankedBefore(s0, rest[k], user, scores) {
          InsertMember(car, tail, user, scores, rest[k]);
          if rest[k] != car {
            var j :| 0 <= j < |tail| && tail[j] == rest[k];
          }
        }
        SortedCons(s0, rest, user, scores);
      }
    }
  }

  /**
   `sort_cars`, as a stable insertion sort: the result holds the same cars and
   is in ranking order.
   */
  function SortCars(cars: seq<Car>, user: User, scores: map<int, real>): (r: seq<Car>)
    ensures multiset(r) == multiset(cars)
    ensures |r| == |cars|
    ensures Sorted(r, user, scores)
  {
    if cars == [] then []
    else
      var rest := SortCars(cars[1..], user, scores);
      assert cars == [cars[0]] + cars[1..];
      InsertSorted(cars[0], rest, user, scores);
      Insert(cars[0], rest, user, scores)
  }

  /** No car of `s` may stand before a car that precedes it in `s`. */
  predicate StrictlyRanked(s: seq<Car>, user: User, scores: map<int, real>) {
    forall i, j :: 0 <= i < j < |s| ==> !RankedBefore(s[j], s[i], user, scores)
  }

  /** A car that no car of a strictly ranked `rest` may precede can go in front of it. */
  lemma StrictlyRankedCons(car: Car, rest: seq<Car>, user: User, scores: map<int, real>)
    requires StrictlyRanked(rest, user, scores)
    requires forall k :: 0 <= k < |rest| ==> !RankedBefore(rest[k], car, user, scores)
    ensures StrictlyRanked([car] + rest, user, scores)
  {
    var s := [car] + rest;
    forall i, j | 0 <= i < j < |s| ensures !RankedBefore(s[j], s[i], user, scores) {
      assert s[j] == rest[j - 1];
      if i > 0 {
        assert s[i] == rest[i - 1];
      }
    }
  }

  /** A sorted arrangement of the cars of a strictly ranked `s` starts with `s[0]`. */
  lemma SortedHead(r: seq<Car>, s: seq<Car>, user: User, scores: map<int, real>)
    requires Sorted(r, user, scores) && StrictlyRanked(s, user, scores)
    requires multiset(r) == multiset(s) && s != []
    ensures r != [] && r[0] == s[0]
  {
    assert s[0] in multiset(r);
    var m :| 0 <= m < |r| && r[m] == s[0];
    assert r[0] in multiset(s);
    var k :| 0 <= k < |s| && s[k] == r[0];
    if m > 0 {
      assert RankedBefore(s[k], s[0], user, scores);
      assert k == 0;
    }
  }

  /** The tail of a strictly ranked list is strictly ranked. */
  lemma StrictlyRankedTail(s: seq<Car>, user: User, scores: map<int, real>)
    requires StrictlyRanked(s, user, scores) && s != []
    ensures StrictlyRanked(s[1..], user, scores)
  {
    forall i, j | 0 <= i < j < |s[1..]| ensures !RankedBefore(s[1..][j], s[1..][i], user, scores) {
      assert s[1..][i] == s[i + 1] && s[1..][j] == s[j + 1];
    }
  }

  /** Equal heads leave equal multisets of tails. */
  lemma MultisetTail(r: seq<Car>, s: seq<Car>)
    requires multiset(r) == multiset(s) && r != [] && s != [] && r[0] == s[0]
    ensures multiset(r[1..]) == multiset(s[1..])
  {
    assert r == [r[0]] + r[1..] && s == [s[0]] + s[1..];
    assert multiset(r) == multiset{r[0]} + multiset(r[1..]);
    assert multiset(s) == multiset{s[0]} + multiset(s[1..]);
    assert multiset(r[1..]) == multiset(r) - multiset{r[0]};
  }

  /**
   When the ranking leaves no ties, there is only one way to rank a list:
   every sorted arrangement of the cars of `s` is `s` itself.
   */
  lemma {:induction false} SortedUnique(r: seq<Car>, s: seq<Car>, user: User, scores: map<int, real>)
    requires Sorted(r, user, scores) && StrictlyRanked(s, user, scores)
    requires multiset(r) == multiset(s)
    ensures r == s
  {
    if s == [] {
      assert |multiset(r)| == |r|;
    } else {
      SortedHead(r, s, user, scores);
      MultisetTail(r, s);
      SortedTail(r, user, scores);
      StrictlyRankedTail(s, user, scores);
      SortedUnique(r[1..], s[1..], user, scores);
      assert r == [r[0]] + r[1..] && s == [s[0]] + s[1..];
    }
  }

  // ---------------------------------------------------------------------------
  // Pages and the enriched result

  /** `cars[start_index, per_page] || []` with `start_index = (page - 1) * per_page`. */
  function PageOf(sorted: seq<Car>, page: int, perPage: nat): (r: seq<Car>)
    requires page >= 1
    ensures |r| <= perPage
    ensures (page - 1) * perPage >= |sorted| ==> r == []
    ensures (page - 1) * perPage < |sorted| ==> |r| == Min(perPage, |sorted| - (page - 1) * perPage)
    ensures forall i :: 0 <= i < |r| ==> r[i] == sorted[(page - 1) * perPage + i]
  {
    var start: nat := (page - 1) * perPage;
    ArraySlice(sorted, start, perPage).GetOr([])
  }

  /** Pages `1..k` laid end to end. */
  function Pages(sorted: seq<Car>, perPage: nat, k: nat): seq<Car> {
    if k == 0 then [] else Pages(sorted, perPage, k - 1) + PageOf(sorted, k, perPage)
  }

  lemma PageOfSlice(sorted: seq<Car>, page: int, perPage: nat, lo: nat)
    requires page >= 1 && lo == (page - 1) * perPage
    ensures PageOf(sorted, page, perPage) ==
      if lo > |sorted| then [] else sorted[lo..Min(lo + perPage, |sorted|)]
  {
  }

  lemma StepOfPages(k: nat, perPage: nat)
    requires k > 0
    ensures k * perPage == (k - 1) * perPage + perPage
  {
  }

  /** A prefix followed by the next run of at most `n` elements is a longer prefix. */
  lemma PrefixThenRun(s: seq<Car>, lo: nat, n: nat)
    ensures s[..Min(lo, |s|)] + (if lo > |s| then [] else s[lo..Min(lo + n, |s|)]) == s[..Min(lo + n, |s|)]
  {
    if lo <= |s| {
      assert s[..lo] + s[lo..Min(lo + n, |s|)] == s[..Min(lo + n, |s|)];
    }
  }

  /** The first `k` pages are the first `k * perPage` cars of the list (or all of it). */
  lemma {:induction false} PagesArePrefix(sorted: seq<Car>, perPage: nat, k: nat)
    ensures Pages(sorted, perPage, k) == sorted[..Min(k * perPage, |sorted|)]
  {
    if k > 0 {
      PagesArePrefix(sorted, perPage, k - 1);
      var lo: nat := (k - 1) * perPage;
      StepOfPages(k, perPage);
      PageOfSlice(sorted, k, perPage, lo);
      PrefixThenRun(sorted, lo, perPage);
    }
  }

  /** Enough pages, concatenated, give back the whole sorted list. */
  lemma AllPagesGiveList(sorted: seq<Car>, perPage: nat, k: nat)
    requires k * perPage >= |sorted|
    ensures Pages(sorted, perPage, k) == sorted
  {
    PagesArePrefix(sorted, perPage, k);
  }

  /** One entry of the response: `{id, brand, model, price, rank_score, label}`. */
  datatype Entry = Entry(id: int, brand: Brand, model: string, price: int, rankScore: real, matchLabel: Label)

  function Enrich(car: Car, user: User, scores: map<int, real>): Entry {
    Entry(car.id, car.brand, car.model, car.price, ScoreOf(scores, car.id), LabelFor(car, user))
  }

  /** The sort key an entry carries. */
  function EntryKey(e: Entry): SortKey {
    SortKey(-LabelPriority(e.matchLabel), -e.rankScore, e.price)
  }

  lemma EntryKeyOfEnrich(car: Car, user: User, scores: map<int, real>)
    ensures EntryKey(Enrich(car, user, scores)) == KeyOf(car, user, scores)
  {
  }

  /** The response `{cars, total_count, page}`. */
  datatype Listing = Listing(cars: seq<Entry>, totalCount: int, page: int)

  /**
   `paginate`: the page cut out of the sorted list, enriched; the total count is
   the length of the whole list, whatever the page.
   */
  function Paginate(sorted: seq<Car>, page: int, perPage: nat, user: User, scores: map<int, real>): (r: Listing)
    requires page >= 1
    ensures r.totalCount == |sorted| && r.page == page
    ensures |r.cars| <= perPage
    ensures (page - 1) * perPage >= |sorted| ==> r.cars == []
    ensures (page - 1) * perPage < |sorted| ==> |r.cars| == Min(perPage, |sorted| - (page - 1) * perPage)
    ensures forall i :: 0 <= i < |r.cars| ==>
      (page - 1) * perPage + i < |sorted| && r.cars[i] == Enrich(sorted[(page - 1) * perPage + i], user, scores)
  {
    var cars := PageOf(sorted, page, perPage);
    Listing(seq(|cars|, i requires 0 <= i < |cars| => Enrich(cars[i], user, scores)), |sorted|, page)
  }

  /** The entries of a page cut from a sorted list are in ranking order. */
  lemma PageInRankingOrder(sorted: seq<Car>, page: int, perPage: nat, user: User, scores: map<int, real>)
    requires page >= 1
    requires Sorted(sorted, user, scores)
    ensures var r := Paginate(sorted, page, perPage, user, scores);
      forall i, j :: 0 <= i < j < |r.cars| ==> KeyLe(EntryKey(r.cars[i]), EntryKey(r.cars[j]))
  {
    var r := Paginate(sorted, page, perPage, user, scores);
    var start := (page - 1) * perPage;
    forall i, j | 0 <= i < j < |r.cars|
      ensures KeyLe(EntryKey(r.cars[i]), EntryKey(r.cars[j]))
    {
      var a, b := sorted[start + i], sorted[start + j];
      assert r.cars[i] == Enrich(a, user, scores) && r.cars[j] == Enrich(b, user, scores);
      assert RankedBefore(a, b, user, scores);
      EntryKeyOfEnrich(a, user, scores);
      EntryKeyOfEnrich(b, user, scores);
    }
  }

  /** The whole pipeline: filters, ranking, page. */
  function ListCars(cars: seq<Car>, query: Option<string>, priceMin: Option<int>, priceMax: Option<int>,
                    page: int, user: User, scores: map<int, real>): Listing
    requires page >= 1
  {
    Paginate(SortCars(Filtered(cars, query, priceMin, priceMax), user, scores), page, PER_PAGE, user, scores)
  }

  /** `entry` is the enrichment of an input car the filters let through. */
  predicate ListsSelectedCar(entry: Entry, cars: seq<Car>, query: Option<string>, priceMin: Option<int>,
                             priceMax: Option<int>, user: User, scores: map<int, real>) {
    exists car :: car in cars && Selected(car, query, priceMin, priceMax) && entry == Enrich(car, user, scores)
  }

  /** A car in the filtered list is an input car that meets every condition. */
  lemma FilteredMember(cars: seq<Car>, query: Option<string>, priceMin: Option<int>, priceMax: Option<int>, car: Car)
    requires car in Filtered(cars, query, priceMin, priceMax)
    ensures car in cars && Selected(car, query, priceMin, priceMax)
  {
    assert multiset(Filtered(cars, query, priceMin, priceMax))[car] > 0;
    FilteredCount(cars, query, priceMin, priceMax, car);
  }

  /** Sorting brings in no car that was not there. */
  lemma SortedMember(cars: seq<Car>, user: User, scores: map<int, real>, car: Car)
    requires car in SortCars(cars, user, scores)
    ensures car in cars
  {
    assert car in multiset(SortCars(cars, user, scores));
  }

  /** Every entry of a page is the enrichment of a car of the list it was cut from. */
  lemma PageEntryFrom(sorted: seq<Car>, page: int, perPage: nat, user: User, scores: map<int, real>, i: int)
    returns (car: Car)
    requires page >= 1 && 0 <= i < |Paginate(sorted, page, perPage, user, scores).cars|
    ensures car in sorted && Paginate(sorted, page, perPage, user, scores).cars[i] == Enrich(car, user, scores)
  {
    car := sorted[(page - 1) * perPage + i];
  }

  /** Every entry of the listing is the enrichment of an input car the filters let through. */
  lemma ListingEntriesSelected(cars: seq<Car>, query: Option<string>, priceMin: Option<int>, priceMax: Option<int>,
                               page: int, user: User, scores: map<int, real>)
    requires page >= 1
    ensures var r := ListCars(cars, query, priceMin, priceMax, page, user, scores);
      forall i :: 0 <= i < |r.cars| ==> ListsSelectedCar(r.cars[i], cars, query, priceMin, priceMax, user, scores)
  {
    var filtered := Filtered(cars, query, priceMin, priceMax);
    var sorted := SortCars(filtered, user, scores);
    var r := Paginate(sorted, page, PER_PAGE, user, scores);
    assert r == ListCars(cars, query, priceMin, priceMax, page, user, scores);
    forall i | 0 <= i < |r.cars|
      ensures ListsSelectedCar(r.cars[i], cars, query, priceMin, priceMax, user, scores)
    {
      var car := PageEntryFrom(sorted, page, PER_PAGE, user, scores, i);
      SortedMember(filtered, user, scores, car);
      FilteredMember(cars, query, priceMin, priceMax, car);
    }
  }

  // ---------------------------------------------------------------------------
  // The service object

  type PageNumber = p: int | p >= 1 witness 1

  datatype QueryError = UserNotFound

  datatype Opened = Opened(service: CarQueryService) | Failed(error: QueryError)

  class CarQueryService {
    const user: User
    const query: Option<string>
    const priceMin: Option<int>
    const priceMax: Option<int>
    const page: PageNumber
    const rankScores: map<int, real>

    /** The normalisation done by `initialize`, once the user and the scores are at hand. */
    constructor (user: User, query: Option<string>, priceMin: Param, priceMax: Param, page: Param,
                 rankScores: map<int, real>)
      ensures this.user == user && this.query == query && this.rankScores == rankScores
      ensures this.priceMin == PresentToI(priceMin) && this.priceMax == PresentToI(priceMax)
      ensures this.page == Max(ToI(page), 1)
    {
      this.user := user;
      this.query := query;
      this.priceMin := PresentToI(priceMin);
      this.priceMax := PresentToI(priceMax);
      this.page := Max(ToI(page), 1);
      this.rankScores := rankScores;
    }

    /**
     `CarQueryService.new(...)`: find the user (failing with NotFound, before
     the cache is touched), then read the user's scores through the cache.
     */
    static method Open(users: map<int, User>, userId: int, query: Option<string>,
                       priceMin: Param, priceMax: Param, page: Param,
                       cache: RecommendationCache, now: int, fetch: int -> FetchOutcome)
      returns (r: Opened)
      modifies cache
      ensures userId !in users ==>
        r == Failed(UserNotFound) && cache.store == old(cache.store) && cache.fetchLog == old(cache.fetchLog)
      ensures userId in users ==> r.Opened? && fresh(r.service)
      ensures userId in users ==>
        && r.service.user == users[userId] && r.service.query == query
        && r.service.priceMin == PresentToI(priceMin) && r.service.priceMax == PresentToI(priceMax)
        && r.service.page == Max(ToI(page), 1)
        && CacheKey(userId) in cache.store && r.service.rankScores == cache.store[CacheKey(userId)].value
        && (Hit(old(cache.store), userId, now) ==>
              && r.service.rankScores == old(cache.store)[CacheKey(userId)].value
              && cache.store == old(cache.store) && cache.fetchLog == old(cache.fetchLog))
        && (!Hit(old(cache.store), userId, now) ==>
              && r.service.rankScores == ScoreMap(FetchedRecords(fetch(userId)))
              && cache.store == old(cache.store)[CacheKey(userId) := CacheEntry(r.service.rankScores, now)]
              && cache.fetchLog == old(cache.fetchLog) + [userId])
      ensures forall u :: u != userId ==>
        (CacheKey(u) in cache.store <==> CacheKey(u) in old(cache.store)) &&
        (CacheKey(u) in cache.store ==> cache.store[CacheKey(u)] == old(cache.store)[CacheKey(u)])
    {
      if userId !in users {
        return Failed(UserNotFound);
      }
      var user := users[userId];
      var scores := cache.GetRecommendations(userId, now, fetch);
      var service := new CarQueryService(user, query, priceMin, priceMax, page, scores);
      r := Opened(service);
    }

    /**
     `call`: filter, sort and paginate. The page holds at most `PER_PAGE`
     entries in ranking order, each the enrichment of a selected input car; the
     total counts every selected car; the page number is the clamped one.
     */
    method Call(cars: seq<Car>) returns (r: Listing)
      ensures r.page == page
      ensures r.totalCount == |Filtered(cars, query, priceMin, priceMax)|
      ensures |r.cars| <= PER_PAGE
      ensures var n := |Filtered(cars, query, priceMin, priceMax)|;
        (page - 1) * PER_PAGE >= n ==> r.cars == []
      ensures var n := |Filtered(cars, query, priceMin, priceMax)|;
        (page - 1) * PER_PAGE < n ==> |r.cars| == Min(PER_PAGE, n - (page - 1) * PER_PAGE)
      ensures forall i, j :: 0 <= i < j < |r.cars| ==> KeyLe(EntryKey(r.cars[i]), EntryKey(r.cars[j]))
      ensures forall i :: 0 <= i < |r.cars| ==>
        ListsSelectedCar(r.cars[i], cars, query, priceMin, priceMax, user, rankScores)
      ensures r == ListCars(cars, query, priceMin, priceMax, page, user, rankScores)
    {
      var current := cars;
      current := FilterByBrandName(current, query);
      current := FilterByPriceRange(current, priceMin, priceMax);
      var sorted := SortCars(current, user, rankScores);
      r := Paginate(sorted, page, PER_PAGE, user, rankScores);

      PageInRankingOrder(sorted, page, PER_PAGE, user, rankScores);
      ListingEntriesSelected(cars, query, priceMin, priceMax, page, user, rankScores);
      assert r == ListCars(cars, query, priceMin, priceMax, page, user, rankScores);
    }
  }
}
