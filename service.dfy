/**
 * The write-side rules of the ship service: the `check*` predicates and `isValidShip`, the
 * derived rating, and `addShip`. Each `check*` is true when its rule is VIOLATED, and so is
 * `isValidShip`: it answers "is this ship invalid?".
 */
module ShipService {
  import opened Wrappers
  import opened ShipModel
  import opened Dates
  import opened Repository

  // ---------------------------------------------------------------- validation

  /** `checkBodyParamsNotNull`: some required field (all but id, isUsed and rating) is null. */
  predicate CheckBodyParamsNotNull(s: ShipRecord): (r: bool)
    ensures r ==> !WellFormed(s)
    ensures !r <==> s.name.Some? && s.planet.Some? && s.shipType.Some? && s.prodDate.Some? && s.speed.Some?
                    && s.crewSize.Some?
  {
    s.name.None? || s.planet.None? || s.shipType.None? || s.prodDate.None? || s.speed.None? || s.crewSize.None?
  }

  /** `checkNameLength`: the name has fewer than 1 or more than 50 characters. */
  predicate CheckNameLength(s: ShipRecord): (r: bool)
    requires s.name.Some?
    ensures r ==> !WellFormed(s)
    ensures !r <==> 1 <= |s.name.value| <= 50
  {
    |s.name.value| < 1 || |s.name.value| > 50
  }

  /** `checkPlanetLength`: the planet has fewer than 1 or more than 50 characters. */
  predicate CheckPlanetLength(s: ShipRecord): (r: bool)
    requires s.planet.Some?
    ensures r ==> !WellFormed(s)
    ensures !r <==> 1 <= |s.planet.value| <= 50
  {
    |s.planet.value| < 1 || |s.planet.value| > 50
  }

  /** `checkCrewSize`: the crew is smaller than 1 or larger than 9999. */
  predicate CheckCrewSize(s: ShipRecord): (r: bool)
    requires s.crewSize.Some?
    ensures r ==> !WellFormed(s)
    ensures !r <==> 1 <= s.crewSize.value <= 9999
  {
    s.crewSize.value < 1 || s.crewSize.value > 9999
  }

  /** `checkSpeed`: the speed is below 0.01 or above 0.99. */
  predicate CheckSpeed(s: ShipRecord): (r: bool)
    requires s.speed.Some?
    ensures r ==> !WellFormed(s)
    ensures !r <==> 0.01 <= s.speed.value <= 0.99
  {
    s.speed.value < 0.01 || s.speed.value > 0.99
  }

  /** `checkProdDate`: the production year is before 2800 or after 3019. */
  predicate CheckProdDate(s: ShipRecord): (r: bool)
    requires s.prodDate.Some?
    ensures r ==> !WellFormed(s)
    ensures !r <==> 2800 <= YearOf(s.prodDate.value) <= 3019
  {
    YearOf(s.prodDate.value) < 2800 || YearOf(s.prodDate.value) > 3019
  }

  /** The acceptance rule stated positively: every required field present and within its inclusive range. */
  predicate WellFormed(s: ShipRecord) {
    && (s.name.Some? && 1 <= |s.name.value| <= 50)
    && (s.planet.Some? && 1 <= |s.planet.value| <= 50)
    && s.shipType.Some?
    && (s.prodDate.Some? && 2800 <= YearOf(s.prodDate.value) <= 3019)
    && (s.speed.Some? && 0.01 <= s.speed.value <= 0.99)
    && (s.crewSize.Some? && 1 <= s.crewSize.value <= 9999)
  }

  /**
   * `isValidShip`: true exactly when the ship is NOT well formed. The null check comes first
   * and `||` short-circuits, so no range check ever reads a null field.
   */
  predicate IsValidShip(s: ShipRecord)
    ensures IsValidShip(s) <==> !WellFormed(s)
  {
    || CheckBodyParamsNotNull(s)
    || CheckNameLength(s)
    || CheckPlanetLength(s)
    || CheckCrewSize(s)
    || CheckSpeed(s)
    || CheckProdDate(s)
  }

  // ---------------------------------------------------------------- rating

  const LongMin: int := -0x8000_0000_0000_0000
  const LongMax: int := 0x7FFF_FFFF_FFFF_FFFF

  /** `Math.round(x)`: floor of x + 1/2, saturated to the range of `long`. */
  function MathRound(x: real): (n: int)
    ensures LongMin <= n <= LongMax
    ensures LongMin <= (x + 0.5).Floor <= LongMax ==> n == (x + 0.5).Floor
    ensures (x + 0.5).Floor > LongMax ==> n == LongMax
    ensures (x + 0.5).Floor < LongMin ==> n == LongMin
  {
    var f := (x + 0.5).Floor;
    if f < LongMin then LongMin else if f > LongMax then LongMax else f
  }

  /**
   * `Math.round(num / den * 100)` in double arithmetic. A zero divisor gives an infinity
   * (rounding to the extreme `long` of its sign) or, for 0/0, NaN (rounding to 0).
   */
  function RoundedHundredths(num: real, den: int): int {
    if den == 0 then (if num > 0.0 then LongMax else if num < 0.0 then LongMin else 0)
    else MathRound(num / (den as real) * 100.0)
  }

  /** The usage factor k: a used ship counts half. */
  function UsageFactor(used: bool): real {
    if used then 0.5 else 1.0
  }

  /** 80 * speed * k / (3019 - year + 1), rounded to hundredths. */
  function Rating(speed: real, used: bool, year: int): real {
    (RoundedHundredths(80.0 * speed * UsageFactor(used), 3019 - year + 1) as real) / 100.0
  }

  /**
   * `calculateRating`: absent unless both the production date and the speed are present;
   * a null `isUsed` counts as not used.
   */
  function CalculateRating(s: ShipRecord): (r: Option<real>)
    ensures r.None? <==> s.prodDate.None? || s.speed.None?
    ensures r.Some? ==> r.value == Rating(s.speed.value, s.isUsed == Some(true), YearOf(s.prodDate.value))
  {
    if s.prodDate.Some? && s.speed.Some? then
      var used := if s.isUsed.Some? then s.isUsed.value else false;
      Some(Rating(s.speed.value, used, YearOf(s.prodDate.value)))
    else
      None
  }

  /** The rating depends on nothing but the production date, the speed and the usage flag. */
  lemma RatingInputs(s: ShipRecord, t: ShipRecord)
    requires s.prodDate == t.prodDate && s.speed == t.speed && s.isUsed == t.isUsed
    ensures CalculateRating(s) == CalculateRating(t)
  {
  }

  /** A null usage flag rates exactly like `false`. */
  lemma NullUsageIsUnused(s: ShipRecord)
    ensures CalculateRating(s.(isUsed := None)) == CalculateRating(s.(isUsed := Some(false)))
  {
  }

  /** A year that passes `checkProdDate` makes the divisor 3019 - year + 1 lie in [1, 220]. */
  lemma DivisorInRange(s: ShipRecord)
    requires s.prodDate.Some? && !CheckProdDate(s)
    ensures 1 <= 3019 - YearOf(s.prodDate.value) + 1 <= 220
  {
  }

  /**
   * `Calendar.YEAR` is the year of era, so a production date in 2900 BC reads as year 2900: it
   * passes `checkProdDate` and is rated with the divisor 120, like a date in AD 2900.
   */
  lemma BeforeChristPassesYearCheck(s: ShipRecord)
    requires s.prodDate.Some? && AstronomicalYear(s.prodDate.value) == -2899
    ensures !CheckProdDate(s)
    ensures 3019 - YearOf(s.prodDate.value) + 1 == 120
  {
  }

  /** For a speed in [0.01, 0.99] and a year in [2800, 3019] the rating lies in [0, 79.2]. */
  lemma {:induction false} RatingBounds(speed: real, used: bool, year: int)
    requires 0.01 <= speed <= 0.99 && 2800 <= year <= 3019
    ensures 0.0 <= Rating(speed, used, year) <= 79.2
  {
    var num := 80.0 * speed * UsageFactor(used);
    var den := 3019 - year + 1;
    assert 0.4 <= num <= 79.2;
    var d := den as real;
    var q := num / d;
    assert 1.0 <= d && q * d == num;
    assert 0.0 < q;
    ProductNonNegative(q, d - 1.0);
    assert q <= num;
    var f := (q * 100.0 + 0.5).Floor;
    assert 0 <= f <= 7920;
    assert RoundedHundredths(num, den) == f;
  }

  lemma ProductNonNegative(a: real, b: real)
    requires 0.0 <= a && 0.0 <= b
    ensures 0.0 <= a * b
  {
  }

  /** Two worked values: a new ship built in 3019 at speed 0.5 rates 40, a used one from 3018 rates 10. */
  lemma RatingExamples()
    ensures Rating(0.5, false, 3019) == 40.0
    ensures Rating(0.5, true, 3018) == 10.0
  {
    assert RoundedHundredths(40.0, 1) == 4000;
    assert RoundedHundredths(20.0, 2) == 1000;
  }

  // ---------------------------------------------------------------- persisted records

  /** What every stored ship satisfies: no null field, well formed, and its rating up to date. */
  predicate Persisted(s: ShipRecord) {
    Complete(s) && !IsValidShip(s) && s.rating == CalculateRating(s)
  }

  predicate AllPersisted(ships: seq<ShipRecord>) {
    forall s | s in ships :: Persisted(s)
  }

  /** The ship `addShip` stores: a null `isUsed` becomes false, and the rating is computed from the result. */
  function Prepared(s: ShipRecord): (p: ShipRecord)
    ensures p.isUsed == Some(s.isUsed.GetOr(false))
    ensures p.rating == CalculateRating(p)
    ensures p.(isUsed := s.isUsed, rating := s.rating) == s
  {
    var u := s.(isUsed := Some(s.isUsed.GetOr(false)));
    u.(rating := CalculateRating(u))
  }

  /**
   * `addShip`: sets a null `isUsed` to false (an explicit value is kept), overwrites any
   * client rating with the computed one, and saves the ship.
   */
  method AddShip(repo: ShipRepository, ship: Ship) returns (saved: ShipRecord)
    requires repo.Valid()
    modifies repo, ship
    ensures repo.Valid()
    ensures ship.Record() == Prepared(old(ship.Record()))
    ensures old(ship.id.Some? && HasId(repo.ships, ship.id.value)) ==>
              saved == ship.Record() && repo.ships == ReplaceById(old(repo.ships), saved)
              && repo.nextId == old(repo.nextId)
    ensures old(!(ship.id.Some? && HasId(repo.ships, ship.id.value))) ==>
              saved == ship.Record().(id := Some(old(repo.nextId))) && repo.ships == old(repo.ships) + [saved]
              && repo.nextId == old(repo.nextId) + 1
  {
    if ship.isUsed.None? {
      ship.SetUsed(Some(false));
    }
    var rating := CalculateRating(ship.Record());
    ship.SetRating(rating);
    saved := repo.SaveAndFlush(ship.Record());
  }

  /** A well-formed ship, prepared by `addShip` and given an identifier, is a persisted record. */
  lemma {:induction false} PreparedIsPersisted(s: ShipRecord, id: Option<int>)
    requires !IsValidShip(s) && id.Some?
    ensures Persisted(Prepared(s).(id := id))
  {
    RatingInputs(Prepared(s), Prepared(s).(id := id));
  }
}
