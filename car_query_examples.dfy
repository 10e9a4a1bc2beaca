/**
 The scenarios the repository's tests describe, stated over the model: one
 user who prefers Toyota and the price range 10 000..50 000, and four cars.
 */
module CarQueryExamples {
  import opened RubyCore
  import opened Domain
  import opened LabelService
  import opened RecommendationCacheService
  import opened CarQuery

  const toyota: Brand := Brand(1, "Toyota")
  const honda: Brand := Brand(2, "Honda")
  const camry: Car := Car(1, "Camry", 25000, toyota)
  const landCruiser: Car := Car(2, "Land Cruiser", 75000, toyota)
  const crv: Car := Car(3, "CR-V", 60000, honda)
  const civic: Car := Car(4, "Civic", 30000, honda)
  const user: User := User(1, {1}, PriceRange(10000, 50000))
  const scores: map<int, real> := map[1 := 0.95, 2 := 0.75, 3 := 0.85, 4 := 0.45]

  lemma ExampleKeys()
    ensures KeyOf(camry, user, scores) == SortKey(-2, -0.95, 25000)
    ensures KeyOf(landCruiser, user, scores) == SortKey(-1, -0.75, 75000)
    ensures KeyOf(crv, user, scores) == SortKey(0, -0.85, 60000)
    ensures KeyOf(civic, user, scores) == SortKey(0, -0.45, 30000)
  {
  }

  /** The perfect match, the good match and the car with no label, strictly in that order. */
  lemma LabelOrder()
    ensures !RankedBefore(landCruiser, camry, user, scores)
    ensures !RankedBefore(crv, camry, user, scores)
    ensures !RankedBefore(crv, landCruiser, user, scores)
  {
    ExampleKeys();
  }

  /** Among the two Hondas the higher score ranks strictly first. */
  lemma ScoreOrder()
    ensures !RankedBefore(civic, crv, user, scores)
  {
    ExampleKeys();
  }

  /** The Civic, with no label and the lowest score, ranks strictly after the other three. */
  lemma CivicOrder()
    ensures !RankedBefore(civic, camry, user, scores)
    ensures !RankedBefore(civic, landCruiser, user, scores)
    ensures !RankedBefore(civic, crv, user, scores)
  {
    ExampleKeys();
  }

  /** Two cars, the second of which may not precede the first, rank only as `[a, b]`. */
  lemma RanksAsTwo(r: seq<Car>, a: Car, b: Car)
    requires Sorted(r, user, scores) && multiset(r) == multiset{a, b}
    requires !RankedBefore(b, a, user, scores)
    ensures r == [a, b]
  {
    StrictlyRankedCons(a, [b], user, scores);
    assert [a] + [b] == [a, b];
    SortedUnique(r, [a, b], user, scores);
  }

  /** Three cars, none of which may precede an earlier one, rank only as `[a, b, c]`. */
  lemma RanksAsThree(r: seq<Car>, a: Car, b: Car, c: Car)
    requires Sorted(r, user, scores) && multiset(r) == multiset{a, b, c}
    requires !RankedBefore(c, b, user, scores)
    requires !RankedBefore(b, a, user, scores) && !RankedBefore(c, a, user, scores)
    ensures r == [a, b, c]
  {
    StrictlyRankedCons(b, [c], user, scores);
    assert [b] + [c] == [b, c];
    StrictlyRankedCons(a, [b, c], user, scores);
    assert [a] + [b, c] == [a, b, c];
    SortedUnique(r, [a, b, c], user, scores);
  }

  /** Four cars, none of which may precede an earlier one, rank only as `[a, b, c, d]`. */
  lemma RanksAsFour(r: seq<Car>, a: Car, b: Car, c: Car, d: Car)
    requires Sorted(r, user, scores) && multiset(r) == multiset{a, b, c, d}
    requires !RankedBefore(d, c, user, scores)
    requires !RankedBefore(c, b, user, scores) && !RankedBefore(d, b, user, scores)
    requires !RankedBefore(b, a, user, scores) && !RankedBefore(c, a, user, scores) && !RankedBefore(d, a, user, scores)
    ensures r == [a, b, c, d]
  {
    StrictlyRankedCons(c, [d], user, scores);
    assert [c] + [d] == [c, d];
    StrictlyRankedCons(b, [c, d], user, scores);
    assert [b] + [c, d] == [b, c, d];
    StrictlyRankedCons(a, [b, c, d], user, scores);
    assert [a] + [b, c, d] == [a, b, c, d];
    SortedUnique(r, [a, b, c, d], user, scores);
  }

  /**
   Ranking puts the perfect match first, the good match second and the car
   with no match last, in whatever order the three cars arrive.
   */
  lemma RankingByLabelExample(cars: seq<Car>)
    requires multiset(cars) == multiset{camry, landCruiser, crv}
    ensures SortCars(cars, user, scores) == [camry, landCruiser, crv]
  {
    var r := SortCars(cars, user, scores);
    LabelOrder();
    RanksAsThree(r, camry, landCruiser, crv);
  }

  /**
   Two cars of a brand the user does not prefer rank by score, price aside,
   in whichever order they arrive.
   */
  lemma RankingByScoreExample(cars: seq<Car>)
    requires multiset(cars) == multiset{crv, civic}
    ensures SortCars(cars, user, scores) == [crv, civic]
  {
    var r := SortCars(cars, user, scores);
    ScoreOrder();
    RanksAsTwo(r, crv, civic);
  }

  /**
   The controller test's four cars, in whatever order they arrive, rank as
   Camry, Land Cruiser, CR-V, Civic.
   */
  lemma FullRankingExample(cars: seq<Car>)
    requires multiset(cars) == multiset{camry, landCruiser, crv, civic}
    ensures SortCars(cars, user, scores) == [camry, landCruiser, crv, civic]
  {
    var r := SortCars(cars, user, scores);
    LabelOrder();
    CivicOrder();
    RanksAsFour(r, camry, landCruiser, crv, civic);
  }

  lemma WhereOfOne(a: Car, f: CarFilter)
    ensures Where([a], f) == if Admits(f, a) then [a] else []
  {
    assert [a][1..] == [];
  }

  /** `Where` on a list of four, one car at a time. */
  lemma WhereOfFour(a: Car, b: Car, c: Car, d: Car, f: CarFilter)
    ensures Where([a, b, c, d], f) == Where([a], f) + Where([b], f) + Where([c], f) + Where([d], f)
  {
    assert [a, b, c, d] == [a] + [b] + [c] + [d];
    WhereConcat([a] + [b] + [c], [d], f);
    WhereConcat([a] + [b], [c], f);
    WhereConcat([a], [b], f);
  }

  lemma WhereOfTwo(a: Car, b: Car, f: CarFilter)
    ensures Where([a, b], f) == Where([a], f) + Where([b], f)
  {
    assert [a, b] == [a] + [b];
    WhereConcat([a], [b], f);
  }

  /** Every car costs at least 20 000. */
  lemma PriceAtLeastExample()
    ensures Where([camry, landCruiser, crv, civic], PriceAtLeast(20000)) == [camry, landCruiser, crv, civic]
  {
    WhereOfFour(camry, landCruiser, crv, civic, PriceAtLeast(20000));
    WhereOfOne(camry, PriceAtLeast(20000));
    WhereOfOne(landCruiser, PriceAtLeast(20000));
    WhereOfOne(crv, PriceAtLeast(20000));
    WhereOfOne(civic, PriceAtLeast(20000));
  }

  /** Only the Camry and the Civic cost at most 35 000. */
  lemma PriceAtMostExample()
    ensures Where([camry, landCruiser, crv, civic], PriceAtMost(35000)) == [camry, civic]
  {
    WhereOfFour(camry, landCruiser, crv, civic, PriceAtMost(35000));
    WhereOfOne(camry, PriceAtMost(35000));
    WhereOfOne(landCruiser, PriceAtMost(35000));
    WhereOfOne(crv, PriceAtMost(35000));
    WhereOfOne(civic, PriceAtMost(35000));
  }

  /** `price_min=20000&price_max=35000` keeps Camry and Civic; the total is 2. */
  lemma PriceRangeExample()
    ensures Filtered([camry, landCruiser, crv, civic], None, Some(20000), Some(35000)) == [camry, civic]
  {
    PriceAtLeastExample();
    PriceAtMostExample();
  }

  lemma ToyotaMatchesToy()
    ensures ILikeContains("Toyota", "toy")
  {
    assert Lower("toy") == "toy";
    assert Lower("Toyota") == "toyota";
    assert OccursAt("toyota", "toy", 0);
  }

  lemma HondaDoesNotMatchToy()
    ensures !ILikeContains("Honda", "toy")
  {
    assert Lower("toy") == "toy";
    assert Lower("Honda") == "honda";
    forall i | 0 <= i <= 2 ensures !OccursAt("honda", "toy", i) {
      assert "honda"[i] != 't';
      assert "honda"[i..i + 3][0] == "honda"[i];
    }
  }

  /**
   `query=toy` keeps the two Toyotas of the four cars, in order; with the
   bounds 20 000..30 000 as well, only the Camry is left.
   */
  lemma BrandQueryExample()
    ensures FilterByBrandName([camry, landCruiser, crv, civic], Some("toy")) == [camry, landCruiser]
    ensures Filtered([camry, landCruiser, crv, civic], Some("toy"), Some(20000), Some(30000)) == [camry]
  {
    ToyotaMatchesToy();
    HondaDoesNotMatchToy();
    var cars := [camry, landCruiser, crv, civic];
    assert !QueryBlank(Some("toy")) by {
      assert !IsUnicodeSpace("toy"[0]);
    }
    WhereOfFour(camry, landCruiser, crv, civic, BrandNameLike("toy"));
    WhereOfOne(camry, BrandNameLike("toy"));
    WhereOfOne(landCruiser, BrandNameLike("toy"));
    WhereOfOne(crv, BrandNameLike("toy"));
    WhereOfOne(civic, BrandNameLike("toy"));
    assert Where(cars, BrandNameLike("toy")) == [camry, landCruiser];
    WhereOfTwo(camry, landCruiser, PriceAtLeast(20000));
    WhereOfOne(camry, PriceAtLeast(20000));
    WhereOfOne(landCruiser, PriceAtLeast(20000));
    WhereOfTwo(camry, landCruiser, PriceAtMost(30000));
    WhereOfOne(camry, PriceAtMost(30000));
    WhereOfOne(landCruiser, PriceAtMost(30000));
  }

  /**
   With two entries per page, three ranked cars give a first page of two and a
   second page of one; a third page is empty and the total stays 3.
   */
  lemma PaginationExample()
    ensures var sorted := [camry, landCruiser, crv];
      && Paginate(sorted, 1, 2, user, scores).cars ==
           [Enrich(camry, user, scores), Enrich(landCruiser, user, scores)]
      && Paginate(sorted, 2, 2, user, scores).cars == [Enrich(crv, user, scores)]
      && Paginate(sorted, 3, 2, user, scores).cars == []
      && Paginate(sorted, 2, 2, user, scores).totalCount == 3
      && Paginate(sorted, 2, 2, user, scores).page == 2
  {
  }

  /** A missing, zero or negative page is page 1. */
  lemma PageClampExamples()
    ensures Max(ToI(Nil), 1) == 1
    ensures Max(ToI(IntParam(0)), 1) == 1
    ensures Max(ToI(IntParam(-3)), 1) == 1
  {
  }

  /** A page given as "abc" reads as 0 and so becomes page 1. */
  lemma UnreadablePageExample()
    ensures Max(ToI(StrParam("abc")), 1) == 1
  {
    assert !IsSpace("abc"[0]);
    assert SkipSpaces("abc") == "abc";
    assert !IsDigit("abc"[0]);
    assert DigitRun("abc") == [];
  }

  /** A page given as the string "2" is page 2. */
  lemma StringPageExample()
    ensures Max(ToI(StrParam("2")), 1) == 2
  {
    assert DigitChar(2) == '2';
    assert NatToString(2) == "2";
    StrToIOfIntToString(2);
  }

  /** When the provider is unavailable every car ranks with score 0. */
  lemma UnavailableProviderExample(carId: int)
    ensures ScoreOf(ScoreMap(FetchedRecords(Unavailable)), carId) == 0.0
  {
  }
}
