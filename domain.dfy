/**
 The records the services read: brands, cars and users as the persistence
 layer hands them over (a read-only snapshot for one query).
 */
module Domain {

  datatype Brand = Brand(id: int, name: string)

  /** A car row joined with its brand. */
  datatype Car = Car(id: int, model: string, price: int, brand: Brand)

  /** A user's preferred price range, inclusive at both ends. */
  datatype PriceRange = PriceRange(lower: int, upper: int)

  /** A user with the ids of the preferred brands and the preferred price range. */
  datatype User = User(id: int, preferredBrands: set<int>, preferredPriceRange: PriceRange)

  /** `range.cover?(price)` for an integer range `lower..upper`. */
  predicate Covers(range: PriceRange, price: int) {
    range.lower <= price <= range.upper
  }

  /** `user.preferred_brands.include?(car.brand)`: records compare by id. */
  predicate PrefersBrand(user: User, car: Car) {
    car.brand.id in user.preferredBrands
  }
}
