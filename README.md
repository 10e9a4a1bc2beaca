# Car listing with recommendation-based ranking — a Dafny model

This project models the core of a Rails car-listing API:

- **`LabelService`** classifies a car for a user. The label is
  `perfect_match` when the brand is preferred and the price lies in the
  user's inclusive preferred range. It is `good_match` when only the brand is
  preferred, and `nil` otherwise.
- **`CarQueryService`** builds one listing. The constructor clamps the page
  and turns blank price bounds into nil. `call` then runs four steps:
  - a case-insensitive brand-name substring filter;
  - inclusive `price_min` / `price_max` bounds;
  - a ranking by label priority (2/1/0) descending, then recommendation score
    descending (missing counts as 0), then price ascending;
  - a page of `PER_PAGE = 20` entries, reported as `{cars, total_count, page}`.
- **`RecommendationCacheService`** reads a user's scores through a 24-hour
  cache keyed `"user_recommendations:<user_id>"`. On a miss it asks the
  external provider and folds the `[{car_id, rank_score}]` records into a map,
  where later duplicates win.

The files are as follows:

| file | module | form |
|---|---|---|
| `ruby_core.dfy` | `RubyCore` | The Ruby behaviour the services rely on: `Integer#to_s`, `String#to_i`, `blank?`/`presence` (blank means empty or Unicode whitespace only), ASCII `downcase`, substring, `Array#[start, len]`. |
| `domain.dfy` | `Domain` | The brand, car and user records as datatypes. |
| `label_service.dfy` | `LabelService` | Pure functions. |
| `recommendation_cache.dfy` | `RecommendationCacheService` | A class holding the store as a `map` field. The fold is a method with a loop, proved against a function. |
| `car_query_service.dfy` | `CarQuery` | Filters, ranking and pagination as pure functions. A class `CarQueryService` has the normalised fields; its `Call` method rebinds the car list step by step. |
| `car_query_examples.dfy` | `CarQueryExamples` | The scenarios of the repository's tests, proved over the model. |

Design choices:

- **Score keys follow the integer car ids** that the cache builds. The
  ranking's lookup by `car.id.to_s` would miss every key; see Findings.
- **The listing is the envelope** `{cars, total_count, page}` that
  `paginate` returns. Each entry is enriched as
  `{id, brand, model, price, rank_score, label}`. The service's tests expect a
  bare array of enriched records instead; the code's envelope is followed.
- **Request values are a `Param`**: nil, an Integer or a String. The service
  tests pass Integers and the controller passes Strings, and both go through
  the same `to_i` / `presence` logic.
- **The clock and the provider are parameters.** The current time `now` and
  the provider `fetch` are passed to the cache. The ghost field `fetchLog`
  records which users the provider was asked about.

## Model

| member | source | states |
|---|---|---|
| LabelService.DetermineLabel | app/services/label_service.rb:2-21 | Three cases. Nil when the car or the user is missing. Perfect exactly when the brand is preferred and lower <= price <= upper. Good exactly when the brand is preferred and the price is outside. Nil exactly when an input is missing or the brand is not preferred. So the three outcomes are exhaustive and exclusive. |
| LabelService.LabelPriority | app/services/car_query_service.rb:45-51 | The priority is within 0..2. It is 2 exactly for a perfect match and 0 exactly for no label, so a good match gets 1. |
| LabelService.LabelExamples | spec/services/label_service_spec.rb:9-32 | The labels for the test cases, including prices 10 000 and 50 000 being perfect: the range is inclusive at both ends. |
| RubyCore.PresentToI | app/services/car_query_service.rb:7-8 | A bound is absent exactly when the parameter is blank: nil, or a String that is empty or holds only Unicode whitespace (the `[[:space:]]` class, so U+00A0 and U+3000 count). Otherwise it is the parameter's `to_i`, and an Integer parameter is kept as it is. |
| RubyCore.PresentToIOfIntToString | app/services/car_query_service.rb:7-8 | A bound sent as the decimal text of an integer, negative ones included, is present and means that integer. |
| RubyCore.NoBreakSpaceIsBlank | app/services/car_query_service.rb:7-8 | A bound consisting of a no-break space is blank, so it sets no bound at all rather than the bound 0. |
| RubyCore.StrToI | app/services/car_query_service.rb:9 | A string of digits reads as its decimal value. A negative result needs a `-` after the skipped leading whitespace. |
| RubyCore.StrToIOfIntToString | app/services/car_query_service.rb:9 | Reading back an integer's decimal text with `to_i` gives the integer, so a page sent as a string means the same page. |
| RubyCore.IntToStringInjective | app/services/recommendation_cache_service.rb:6 | Distinct user ids have distinct decimal renderings. |
| RecommendationCacheService.ScoreMap | app/services/recommendation_cache_service.rb:8-10 | Every record's car id is a key of the map, and the last record's score is the one stored for its id. |
| RecommendationCacheService.BuildScoreMap | app/services/recommendation_cache_service.rb:8-10 | The insertion loop yields the fold `ScoreMap` of the records. |
| RecommendationCacheService.ScoreMapKeys | app/services/recommendation_cache_service.rb:8-10 | The keys of the map are exactly the car ids occurring in the records. |
| RecommendationCacheService.ScoreMapLastWins | app/services/recommendation_cache_service.rb:8-10 | A record that no later record shares its id with supplies that id's score: later duplicates overwrite earlier ones. |
| RecommendationCacheService.UnavailableGivesNoScores | app/services/external_recommendation_service.rb:7-12 | A failed fetch reports no records, and no records give the empty map. |
| RecommendationCacheService.CacheKey | app/services/recommendation_cache_service.rb:2-6 | The key is `user_recommendations`, then `:`, then text that `to_i` reads back as the user id. |
| RecommendationCacheService.CacheKeyInjective | app/services/recommendation_cache_service.rb:6 | Two users share a cache key only if they are the same user. |
| RecommendationCacheService.ExpiredEntryMisses | app/services/recommendation_cache_service.rb:3-6 | An entry read at or after its write time plus 24 hours is not a hit. |
| RecommendationCacheService.RecommendationCache.GetRecommendations | app/services/recommendation_cache_service.rb:5-12 | On a hit: the stored map is returned, the store is unchanged and the provider is not asked. On a miss: the provider is asked exactly once, for this user; the folded map is stored under the user's key with time `now` and returned. Afterwards the entry is live, and every other user's entry is unchanged. |
| RecommendationCacheService.ReadTwice | app/services/recommendation_cache_service.rb:3-6 | Two reads for one user less than 24 hours apart ask the provider at most once. When the first read asked, the second returns the same map. |
| CarQuery.WhereMembers | app/services/car_query_service.rb:26 | A `where` returns no more cars than it is given, and each is a given car that meets the clause. |
| CarQuery.WhereCount | app/services/car_query_service.rb:26 | A `where` keeps each admitted car exactly as often as it occurs and drops every other car. |
| CarQuery.WhereConcat | app/services/car_query_service.rb:30-31 | A `where` distributes over concatenation, so it keeps the input order. |
| CarQuery.WhereCommutes | app/services/car_query_service.rb:30-31 | Two `where` clauses give the same list in either order. |
| CarQuery.FilterByBrandName | app/services/car_query_service.rb:24-27 | A blank query (nil, empty or Unicode whitespace only) returns the cars unchanged. The result is never longer than the input, and each of its cars is an input car whose brand name contains the query case-insensitively. |
| CarQuery.FilterByPriceRange | app/services/car_query_service.rb:29-33 | With neither bound the cars are unchanged. The result is never longer than the input, and each of its cars is an input car whose price meets every present bound inclusively. |
| CarQuery.NoBreakSpaceQueryKeepsAll | app/services/car_query_service.rb:25 | A query that is a single no-break space is blank, so every car is kept. |
| CarQuery.FilterByBrandNameCount | app/services/car_query_service.rb:24-27 | A blank query (nil, empty or Unicode whitespace only) returns the cars unchanged. Otherwise a car is kept, as often as it occurs, exactly when its brand name contains the query case-insensitively. |
| CarQuery.FilterByPriceRangeCount | app/services/car_query_service.rb:29-33 | With no bounds the cars are unchanged. Otherwise a car is kept, as often as it occurs, exactly when its price meets each present bound inclusively. |
| CarQuery.FilteredCount | app/services/car_query_service.rb:14-16 | The list handed to the sort holds exactly the input cars meeting both filters, with their multiplicities. |
| CarQuery.FilteredConcat | app/services/car_query_service.rb:14-16 | Filtering distributes over concatenation, so the input order survives. |
| CarQuery.FiltersCommute | app/services/car_query_service.rb:14-16 | The brand filter then the price filter gives the same list as the reverse order. |
| CarQuery.ScoreOfFetchedRecords | app/services/car_query_service.rb:39 | The ranking sees, for a car, the score of the last provider record with its id. |
| CarQuery.ScoreOfUnlistedCar | app/services/car_query_service.rb:39 | A car without any provider record ranks with score 0. |
| CarQuery.KeyOf | app/services/car_query_service.rb:36-42 | The first component is -2 exactly for a perfect match, 0 exactly for no label, and otherwise -1. The score component is the negated recommendation score of a car that has one, and 0 for a car without one. The last component is the price. |
| CarQuery.KeyLeTotalPreorder | app/services/car_query_service.rb:36-42 | The lexicographic comparison of keys is reflexive, total and transitive, and two keys that compare both ways are equal. |
| CarQuery.RankedBeforeMeaning | app/services/car_query_service.rb:35-51 | "a before b" means higher priority, or equal priority and higher score, or both equal and price not higher. |
| CarQuery.Insert | app/services/car_query_service.rb:36 | Inserting a car adds exactly that car to the multiset. |
| CarQuery.InsertSorted | app/services/car_query_service.rb:35-43 | Inserting into a list in ranking order keeps it in ranking order. |
| CarQuery.SortCars | app/services/car_query_service.rb:35-43 | The sorted list is a permutation of its input (same multiset, same length). Every pair of its cars is in ranking order. |
| CarQuery.SortedUnique | app/services/car_query_service.rb:35-43 | When no two cars tie, a list in strict ranking order is the only sorted arrangement of its cars, so the ranking result does not depend on the input order. |
| CarQuery.PageOf | app/services/car_query_service.rb:54-56 | The page holds at most `perPage` cars. It is empty when the start index is at or past the end. Otherwise it has min(perPage, n - start) cars, and car i is the list's car at start + i. |
| CarQuery.PagesArePrefix | app/services/car_query_service.rb:54-56 | Pages 1..k laid end to end are the first min(k * perPage, n) cars of the list. |
| CarQuery.AllPagesGiveList | app/services/car_query_service.rb:54-56 | Enough pages laid end to end give back the whole list. |
| CarQuery.Paginate | app/services/car_query_service.rb:53-60 | `total_count` is the length of the whole list, whatever the page. `page` is the page asked for. At most `perPage` entries are returned, none past the end: exactly as many as the page of the list holds, which is min(perPage, n - start) when the start index lies before the end n. Entry i enriches the list's car at (page-1) * perPage + i. |
| CarQuery.PageInRankingOrder | app/services/car_query_service.rb:53-60 | The entries of a page cut from a ranked list keep the ranking order on their own keys. |
| CarQuery.ListingEntriesSelected | app/services/car_query_service.rb:13-20 | Every entry of the listing enriches an input car that meets both filters. |
| CarQuery.CarQueryService.constructor | app/services/car_query_service.rb:4-11 | The bounds are `presence&.to_i` of the parameters, and the page is `max(page.to_i, 1)`. |
| CarQuery.CarQueryService.Open | app/services/car_query_service.rb:4-11 | An unknown user fails with UserNotFound, leaving the cache untouched. Otherwise the fields are normalised and the scores are the user's cache entry. On a hit they are the stored map, and the store and the provider log are unchanged. On a miss the provider is asked once, for this user. The folded map is then stored under the user's key with time `now`, and nothing else in the store changes. Every other user's entry is unchanged either way. |
| CarQuery.CarQueryService.Call | app/services/car_query_service.rb:13-20 | The listing's page is the clamped page, and `total_count` counts the filtered cars. At most 20 entries are returned: none when the start index is at or past the number n of filtered cars, and exactly min(20, n - start) when it lies before. They are in ranking order, each enriching a selected input car. The result equals the pipeline filter, sort, paginate. |
| CarQuery.ScoreOfAsWrittenIsZero | app/services/car_query_service.rb:39 | As written, the lookup by `car.id.to_s` in an Integer-keyed map yields 0 for every car. |
| CarQuery.AsWrittenMisranksByScore | app/services/car_query_service.rb:35-43 | With the test's CR-V (0.85, 60 000) and Civic (0.45, 30 000), the key as written puts the Civic strictly first. The corrected key puts the CR-V strictly first. |
| CarQueryExamples.RankingByLabelExample | spec/controllers/api/v1/cars_controller_spec.rb:42-70 | Camry (perfect), Land Cruiser (good) and CR-V rank in that order, for every input list holding those three cars once each. |
| CarQueryExamples.FullRankingExample | spec/controllers/api/v1/cars_controller_spec.rb:42-91 | The controller test's four cars rank as Camry, Land Cruiser, CR-V, Civic, for every input list holding those four cars once each. |
| CarQueryExamples.RankingByScoreExample | spec/controllers/api/v1/cars_controller_spec.rb:71-91 | CR-V (0.85) ranks before Civic (0.45) although it costs more, for every input list holding those two cars once each. |
| CarQueryExamples.PriceRangeExample | spec/controllers/api/v1/cars_controller_spec.rb:113-126 | Bounds 20 000..35 000 keep exactly the Camry and the Civic. |
| CarQueryExamples.BrandQueryExample | spec/controllers/api/v1/cars_controller_spec.rb:95-102 | Of the controller test's four cars, the query "toy" keeps the two Toyotas, in order. With the bounds 20 000..30 000 as well, only the Camry is left. |
| CarQueryExamples.PaginationExample | spec/services/car_query_service_spec.rb:130-185 | With two per page, three cars give a page of two, then a page of one, then an empty page, with `total_count` 3 throughout. |
| CarQueryExamples.PageClampExamples | spec/services/car_query_service_spec.rb:187-230 | A missing, zero or negative page becomes page 1. |
| CarQueryExamples.UnreadablePageExample | app/services/car_query_service.rb:9 | A page given as "abc" reads as 0 and becomes page 1. |
| CarQueryExamples.StringPageExample | app/services/car_query_service.rb:9 | A page given as the string "2" is page 2. |
| CarQueryExamples.UnavailableProviderExample | app/services/external_recommendation_service.rb:7-12 | When the provider fails, every car ranks with score 0. |

## Left out

- The controller (`app/controllers/api/v1/cars_controller.rb`) is HTTP plumbing. `params.require(:user_id)` rejects a request without `user_id` before the service runs; that rejection is not modelled.
- The external provider's HTTP call and its logging are not modelled. It is the parameter `fetch`, whose outcome is either the parsed records or `Unavailable`, which reads as no records. A reply that succeeds but parses to nil (an empty body or JSON `null`) or to a String (a non-JSON body) makes `each_with_object` raise. The error then escapes `CarQueryService.new` and nothing is cached. `FetchOutcome` cannot express that case, so this raising path is not modelled.
- ActiveRecord is not modelled. `Car.includes(:brand)` is the input sequence `cars`, in the order the database returns them. `User.find` is a lookup in a map of users, with `UserNotFound` as the error result.
- CarQuery.Admits, CarQuery.FilterByBrandName: `ILIKE` is modelled as a literal substring test after ASCII lowercasing. `%` and `_` in the query are not wildcards here, and `\`, `ILIKE`'s default escape character, is matched literally rather than escaping the next character. Non-ASCII case folding is not modelled either.
- RubyCore.StrToI: Ruby's `to_i` also reads a leading `0d` prefix in base 10, so "0d12" reads as 12. The model reads such a string as 0.
- CarQuery.PageOf: Ruby's `Array#[start, len]` raises `RangeError` when the start index does not fit in a signed 64-bit integer, which happens from page 461 168 601 842 738 792 on (start >= 2^63 with 20 per page). The model, with unbounded integers, returns an empty page there.
- RubyCore.ArraySlice covers only non-negative start indexes, which are the only ones the clamped page can produce.
- Domain.User: the preferred price range is always present, with integer bounds. A nil `preferred_price_range`, which would raise `NoMethodError` in `cover?`, is not modelled. Neither are unbounded PostgreSQL ranges. A stored `int8range` comes back as `lower...upper+1`, which covers the same integers as the inclusive range modelled.
- Scores are `real`s, not floating-point numbers. Only their order and equality matter to the ranking.
- CarQuery.SortCars is a stable insertion sort, while Ruby's `sort_by` is not stable. Only sortedness and permutation are proved, and no order is claimed among cars with equal keys.
- RecommendationCacheService.RecommendationCache: serialisation, eviction, the deletion of expired entries and races between processes are not modelled. An expired entry simply stays in the map until it is overwritten.
- RecommendationCacheService.CacheKey: the model takes the user id as an Integer. The controller passes the raw String parameter. For the canonical decimal text of an id ("1") the key and the provider query are the same as for the Integer. A non-canonical text such as "01" or "1-x" finds the same user through `User.find`, but is keyed with that text (`user_recommendations:01`) and sent to the provider as it is, so two spellings of one user are cached and fetched separately; the model does not capture that difference.
- The invariant `price > 0` (`app/models/car.rb:16`) is not a precondition, because no property here depends on it.
- The service's tests expect a bare array of enriched records. The model follows the code's `{cars, total_count, page}` envelope instead, with enriched entries.

## Findings

| source | as written | input that shows it | evidently intended | confidence | as-written member | corrected member |
|---|---|---|---|---|---|---|
| app/services/car_query_service.rb:39 | `@rank_scores[car.id.to_s]` looks up a String key in the map the cache builds. That map's keys are the Integer `car_id`s (app/services/recommendation_cache_service.rb:9), so every score reads as 0. | The controller test's CR-V (score 0.85, price 60 000) and Civic (score 0.45, price 30 000), neither of a preferred brand. As written, the Civic ranks first on price alone; the test (spec/controllers/api/v1/cars_controller_spec.rb:71-91) expects the CR-V first. | Look the score up by the Integer car id. | high, not executed | CarQuery.AsWrittenMisranksByScore | CarQuery.ScoreOfFetchedRecords |
