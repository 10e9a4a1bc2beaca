/**
 The match classifier: how well a car fits a user's brand and price preferences.
 */
module LabelService {
  import opened RubyCore
  import opened Domain

  /** 'perfect_match', 'good_match' or nil. */
  datatype Label = PerfectMatch | GoodMatch | NoMatch

  predicate IsPerfectMatch(car: Car, user: User) {
    PrefersBrand(user, car) && Covers(user.preferredPriceRange, car.price)
  }

  predicate IsGoodMatch(car: Car, user: User) {
    PrefersBrand(user, car)
  }

  /**
   The label of a car for a user. It is perfect exactly when the brand is
   preferred and the price lies inside the inclusive range, good exactly when
   the brand is preferred and the price lies outside it, and absent otherwise,
   in particular whenever the car or the user is missing.
   */
  function DetermineLabel(car: Option<Car>, user: Option<User>): (r: Label)
    ensures car.None? || user.None? ==> r == NoMatch
    ensures r == PerfectMatch <==>
      car.Some? && user.Some? && car.value.brand.id in user.value.preferredBrands &&
      user.value.preferredPriceRange.lower <= car.value.price <= user.value.preferredPriceRange.upper
    ensures r == GoodMatch <==>
      car.Some? && user.Some? && car.value.brand.id in user.value.preferredBrands &&
      !(user.value.preferredPriceRange.lower <= car.value.price <= user.value.preferredPriceRange.upper)
    ensures r == NoMatch <==>
      car.None? || user.None? || car.value.brand.id !in user.value.preferredBrands
  {
    if car.None? || user.None? then NoMatch
    else if IsPerfectMatch(car.value, user.value) then PerfectMatch
    else if IsGoodMatch(car.value, user.value) then GoodMatch
    else NoMatch
  }

  /** The numeric weight of a label for ranking: better matches weigh more. */
  function LabelPriority(l: Label): (p: int)
    ensures 0 <= p <= 2
    ensures l == PerfectMatch <==> p == 2
    ensures l == NoMatch <==> p == 0
  {
    match l
    case PerfectMatch => 2
    case GoodMatch => 1
    case NoMatch => 0
  }

  /** The label of a present car for a present user, as the query engine asks for it. */
  function LabelFor(car: Car, user: User): Label {
    DetermineLabel(Some(car), Some(user))
  }

  /**
   The preferences used throughout the tests: Toyota (brand 1) preferred,
   range 10 000..50 000. Both ends of the range count as inside it.
   */
  lemma LabelExamples()
    ensures var toyota, honda := Brand(1, "Toyota"), Brand(2, "Honda");
      var user := User(7, {1}, PriceRange(10000, 50000));
      && LabelFor(Car(1, "Camry", 25000, toyota), user) == PerfectMatch
      && LabelFor(Car(2, "Land Cruiser", 75000, toyota), user) == GoodMatch
      && LabelFor(Car(3, "CR-V", 75000, honda), user) == NoMatch
      && LabelFor(Car(4, "Corolla", 10000, toyota), user) == PerfectMatch
      && LabelFor(Car(5, "Yaris", 50000, toyota), user) == PerfectMatch
      && LabelFor(Car(6, "Supra", 50001, toyota), user) == GoodMatch
      && LabelFor(Car(7, "Civic", 25000, honda), user) == NoMatch
  {
  }
}
