# Cosmoport ship engine, modelled in Dafny

A model of the query-and-validation core of the Cosmoport fleet catalogue, a Spring Boot REST
service over a table of spaceships. The model covers the following parts:

- the `Ship` entity: nine nullable fields, two constructors, setters and `equals`;
- `ShipService`: the list filter (`getFilteredShipList`), sorting and paging (`getSortedShipList`,
  `getComparatorByOrder`), the inverted validity test (`isValidShip` and the `check*` predicates),
  the derived rating (`calculateRating`) and `addShip`;
- `ShipController`: the list, count, create, read, partial-update and delete endpoints.

The store behind them is an abstract repository: a sequence of ship records plus the next
identifier to assign.

Files (one module each):

- `wrappers.dfy`: `Option` (Java's `null`) and `Result` (a value or a thrown exception).
- `exceptions.dfy`: the exceptions raised.
- `text.dfy`: upper-casing and `String.contains`.
- `dates.dfy`: the calendar year of an epoch-millisecond date.
- `ship.dfy`: `ShipModel`. It holds the `ShipRecord` value and the mutable `Ship` class.
- `repository.dfy`: the store.
- `service.dfy`: validation, rating and `addShip`.
- `filter.dfy`: the filter.
- `paging.dfy`: sorting and paging.
- `controller.dfy`: the endpoints.

Every stored ship is a `ShipRecord` value. Request bodies are `Ship` objects, because `addShip`
updates its argument through setters before saving it. `updateShip` overwrites a fetched record
field by field and writes it back only after validation passes.

Behaviour of the code that a reader might not expect, and that the model keeps:

- `isValidShip` returns true for an INVALID ship.
- With an order but no page size, the page number is ignored: the first three sorted ships
  come back (`limit(3)`).
- An order with an unrecognised field name yields a null comparator. `Stream.sorted(null)` then
  throws `NullPointerException`, so this is not a distinct bad-request error.
- With no order but both page parameters, `getComparatorByOrder(null)` throws
  `NullPointerException`.
- With an order and a page size but no page number, the page is always empty
  (`limit(n).skip(n)`).
- The id guard rejects only a null or zero id. A negative id passes the guard and is reported as
  not found.
- `equals` compares the production dates only after id, name, planet and type have compared
  equal (`&&` short-circuits). So a null production date throws only in that case.
- `Calendar.get(Calendar.YEAR)` is the year of era, never below 1. A production date in
  2900 BC reads as year 2900, so it passes the year check and is rated like AD 2900.
- Page arithmetic is Java `int` arithmetic (`pageNumber * pageSize` wraps at 32 bits).
  `Stream.skip` and `Stream.limit` throw `IllegalArgumentException` on a negative argument.

## Model

| member | source | states |
|---|---|---|
| `ShipModel.Ship.constructor` | src/main/java/com/space/model/Ship.java:32-33 | the no-argument constructor leaves all nine fields null |
| `ShipModel.Ship.Of` | src/main/java/com/space/model/Ship.java:35-36 | the seven-argument constructor ignores its arguments and leaves every field null |
| `ShipModel.Ship.SetId` | src/main/java/com/space/model/Ship.java:38-44 | sets the id, so `getId` returns it; every other field is unchanged |
| `ShipModel.Ship.SetName` | src/main/java/com/space/model/Ship.java:46-52 | sets the name, so `getName` returns it; every other field is unchanged |
| `ShipModel.Ship.SetPlanet` | src/main/java/com/space/model/Ship.java:54-60 | sets the planet; every other field is unchanged |
| `ShipModel.Ship.SetShipType` | src/main/java/com/space/model/Ship.java:62-68 | sets the type; every other field is unchanged |
| `ShipModel.Ship.SetProdDate` | src/main/java/com/space/model/Ship.java:70-76 | sets the production date; every other field is unchanged |
| `ShipModel.Ship.SetUsed` | src/main/java/com/space/model/Ship.java:78-84 | sets the usage flag, which may be null, so `isUsed()` may return null; every other field is unchanged |
| `ShipModel.Ship.SetSpeed` | src/main/java/com/space/model/Ship.java:86-92 | sets the speed; every other field is unchanged |
| `ShipModel.Ship.SetCrewSize` | src/main/java/com/space/model/Ship.java:94-100 | sets the crew size; every other field is unchanged |
| `ShipModel.Ship.SetRating` | src/main/java/com/space/model/Ship.java:102-108 | sets the rating; every other field is unchanged |
| `ShipModel.Ship.Equals` | src/main/java/com/space/model/Ship.java:110-124 | the same reference is equal; a non-Ship (or null) is not; `Ok(true)` only for equal records. With both dates present the result is record equality over all nine fields. It throws `NullPointerException` exactly when id, name, planet and type agree and a date is null |
| `Text.ContainsAtOffset` | src/main/java/com/space/service/ShipService.java:31-35 | the modelled `String.contains` holds exactly when the query occurs in the text at some offset |
| `Text.UpperIdempotent` | src/main/java/com/space/service/ShipService.java:32 | upper-casing twice equals upper-casing once |
| `Dates.YearOf` | src/main/java/com/space/service/ShipService.java:131-134 | `Calendar.YEAR` is the year of era: at least 1, the astronomical year for AD dates and 1 minus it for BC dates |
| `Dates.EraYearsCollide` | src/main/java/com/space/service/ShipService.java:131-134 | an AD year and the BC year with the same number report the same `YEAR` |
| `Dates.YearOfEpoch` | src/main/java/com/space/service/ShipService.java:129-135 | the year conversion puts the epoch in 1970, the millisecond before it in 1969, and day 365 in 1971 |
| `Repository.Lookup` | src/main/java/com/space/controller/ShipController.java:77-79 | `findById` finds a ship exactly when `existsById` holds, and the ship found carries that id |
| `Repository.ReplaceById` | src/main/java/com/space/controller/ShipController.java:98 | saving a stored id replaces the records with that id and keeps the length and all other records |
| `Repository.RemoveById` | src/main/java/com/space/controller/ShipController.java:104 | deleting keeps exactly the records with another id |
| `Repository.RemoveKeepsDistinct` | src/main/java/com/space/controller/ShipController.java:104 | deletion keeps stored ids distinct |
| `Repository.RemoveAbsent` | src/main/java/com/space/controller/ShipController.java:104 | deleting an id no record carries changes nothing |
| `Repository.RemoveAt` | src/main/java/com/space/controller/ShipController.java:101-105 | with distinct ids, deleting the id at position i removes exactly that record and keeps the others in order |
| `Repository.ShipRepository.constructor` | src/main/java/com/space/service/ShipService.java:16-17 | the store's initial state: empty, next id 1, satisfying the id invariant |
| `Repository.ShipRepository.SaveAndFlush` | src/main/java/com/space/service/ShipService.java:157 | a ship whose id is stored replaces that record in place; any other ship is appended under a fresh id. Ids stay distinct, positive and below the next id |
| `Repository.ShipRepository.Delete` | src/main/java/com/space/controller/ShipController.java:104 | removes the records carrying the ship's id and keeps the id invariant |
| `ShipService.CheckBodyParamsNotNull` | src/main/java/com/space/service/ShipService.java:160-169 | false exactly when name, planet, type, date, speed and crew are all non-null; when true the ship is not well formed |
| `ShipService.CheckNameLength` | src/main/java/com/space/service/ShipService.java:149-151 | false exactly when the name length is in [1,50]; when true the ship is not well formed |
| `ShipService.CheckPlanetLength` | src/main/java/com/space/service/ShipService.java:145-147 | false exactly when the planet length is in [1,50]; when true the ship is not well formed |
| `ShipService.CheckCrewSize` | src/main/java/com/space/service/ShipService.java:141-143 | false exactly when the crew size is in [1,9999]; when true the ship is not well formed |
| `ShipService.CheckSpeed` | src/main/java/com/space/service/ShipService.java:137-139 | false exactly when the speed is in [0.01,0.99]; when true the ship is not well formed |
| `ShipService.CheckProdDate` | src/main/java/com/space/service/ShipService.java:129-135 | false exactly when the year of era of the date is in [2800,3019]; when true the ship is not well formed |
| `ShipService.BeforeChristPassesYearCheck` | src/main/java/com/space/service/ShipService.java:129-135 | a date in 2900 BC passes `checkProdDate` and gives the rating divisor 120 |
| `ShipService.IsValidShip` | src/main/java/com/space/service/ShipService.java:119-169 | true exactly when the ship is NOT well formed. Well formed means no required field is null, name and planet lengths are in [1,50], crew is in [1,9999], speed is in [0.01,0.99] and the year is in [2800,3019]. Range checks run only on non-null fields |
| `ShipService.MathRound` | src/main/java/com/space/service/ShipService.java:192 | `Math.round` is floor(x + 1/2) when that fits in a `long`; above the range it saturates to `Long.MAX_VALUE`, below it to `Long.MIN_VALUE` |
| `ShipService.CalculateRating` | src/main/java/com/space/service/ShipService.java:171-195 | no rating exactly when the date or the speed is null. Otherwise the rating is the formula with a null usage flag counted as false |
| `ShipService.RatingInputs` | src/main/java/com/space/service/ShipService.java:171-195 | the rating depends only on production date, speed and usage flag |
| `ShipService.NullUsageIsUnused` | src/main/java/com/space/service/ShipService.java:174-178 | a null `isUsed` rates exactly like false |
| `ShipService.DivisorInRange` | src/main/java/com/space/service/ShipService.java:134 | for a year passing `checkProdDate`, the divisor 3019 - year + 1 lies in [1,220] |
| `ShipService.RatingBounds` | src/main/java/com/space/service/ShipService.java:180-192 | with speed in [0.01,0.99] and year in [2800,3019], the rounded rating lies in [0,79.2], whichever factor k (0.5 used, 1 new) applies |
| `ShipService.RatingExamples` | src/main/java/com/space/service/ShipService.java:180-192 | speed 0.5, new, year 3019 rates 40; speed 0.5, used, year 3018 rates 10 |
| `ShipService.Prepared` | src/main/java/com/space/service/ShipService.java:153-156 | `addShip` turns a null `isUsed` into false, keeps an explicit one, sets the rating consistent with the result and touches no other field |
| `ShipService.AddShip` | src/main/java/com/space/service/ShipService.java:153-158 | mutates the ship into `Prepared` of its old fields and saves it. Saving a stored id replaces that record; otherwise the ship is appended under a fresh id |
| `ShipService.PreparedIsPersisted` | src/main/java/com/space/service/ShipService.java:153-158 | a ship that passes validation, prepared and given an id, is complete, valid and consistently rated |
| `ShipFilter.GetFilteredShipList` | src/main/java/com/space/service/ShipService.java:22-70 | the loop with `continue` returns exactly `Filter` of `findAll()`: the stored ships meeting every supplied criterion, in store order |
| `ShipFilter.TextMatchesIgnoresCase` | src/main/java/com/space/service/ShipService.java:31-35 | name and planet matching ignore case: upper-casing the query and field changes nothing, and fields equal up to case match the same queries |
| `ShipFilter.FilterMembership` | src/main/java/com/space/service/ShipService.java:28-67 | a ship is in the result iff it is in the input and meets every non-null criterion. Name and planet use case-insensitive substring matching and impose nothing when null or empty. Bounds are inclusive; type and usage must be equal |
| `ShipFilter.FilterMultiplicity` | src/main/java/com/space/service/ShipService.java:28-67 | every copy of a matching ship is kept and no copy of another |
| `ShipFilter.FilterIsSubsequence` | src/main/java/com/space/service/ShipService.java:25-69 | the result is a subsequence of the input: ships are only dropped, never reordered |
| `ShipFilter.FilterNoLonger` | src/main/java/com/space/service/ShipService.java:25-69 | the result is no longer than the input |
| `ShipFilter.FilterKeepsAllMatching` | src/main/java/com/space/service/ShipService.java:25-69 | when every ship matches, the input comes back unchanged |
| `ShipFilter.NoCriteriaKeepsAll` | src/main/java/com/space/service/ShipService.java:25-69 | with every criterion null the whole list comes back in its order |
| `ShipFilter.FilterIdempotent` | src/main/java/com/space/service/ShipService.java:25-69 | filtering a filtered list with the same criteria changes nothing |
| `ShipFilter.DateBoundsInclusive` | src/main/java/com/space/service/ShipService.java:40-65 | a value equal to both its bounds passes: date, speed, crew and rating bounds are inclusive |
| `ShipPaging.Mul32` | src/main/java/com/space/service/ShipService.java:82 | Java `int` multiplication: always congruent to the exact product modulo 2^32 (two's-complement wrap), and equal to it whenever that fits in 32 bits |
| `ShipPaging.SortKeyOf` | src/main/java/com/space/service/ShipService.java:99-115 | "id", "speed", "date" and "rating" select their comparators; any other name leaves the comparator null |
| `ShipPaging.GetComparatorByOrder` | src/main/java/com/space/service/ShipService.java:96-117 | a null order throws `NullPointerException`; otherwise the comparator for the field name, null if unrecognised |
| `ShipPaging.Insert` | src/main/java/com/space/service/ShipService.java:85 | inserting into an ascending list gives an ascending list holding one more copy of the ship |
| `ShipPaging.SortBy` | src/main/java/com/space/service/ShipService.java:85-93 | `sorted(comparator)` yields a permutation of its input, ascending by the selected key |
| `ShipPaging.LimitThenSkipSameIsEmpty` | src/main/java/com/space/service/ShipService.java:91 | `limit(n).skip(n)` is empty for every n >= 0 and throws for n < 0 |
| `ShipPaging.SkipLimitIsWindow` | src/main/java/com/space/service/ShipService.java:93 | `skip(n).limit(m)` with n, m >= 0 is the window of m elements from position n; a negative argument throws |
| `ShipPaging.PageIsSubMultiset` | src/main/java/com/space/service/ShipService.java:76-93 | a page cut by `limit` or `skip`+`limit` holds only ships of the list |
| `ShipPaging.PageIsAscending` | src/main/java/com/space/service/ShipService.java:85-93 | a page of a sorted list is sorted |
| `ShipPaging.GetSortedShipList` | src/main/java/com/space/service/ShipService.java:72-94 | any page returned holds only ships of the input and at most pageSize of them (3 when absent). With an order, the field name was recognised and the page is ascending by its key |
| `ShipPaging.SortedPage` | src/main/java/com/space/service/ShipService.java:84-93 | the ordered branches return only ships of the input, at most pageSize of them (3 when absent), ascending by the key |
| `ShipPaging.DefaultPage` | src/main/java/com/space/service/ShipService.java:75-76 | with no page parameters and no order, the first three ships in input order |
| `ShipPaging.PageSizeOnly` | src/main/java/com/space/service/ShipService.java:78-79 | only a page size: the first pageSize ships; a negative size throws |
| `ShipPaging.PageNumberWraps` | src/main/java/com/space/service/ShipService.java:81-82 | page number 1431655766 alone: the product with 3 wraps to 2, so the page is the three ships from position 2 |
| `ShipPaging.PageNumberOnly` | src/main/java/com/space/service/ShipService.java:81-82 | only a page number: three ships from position pageNumber*3 (32-bit); a negative start throws |
| `ShipPaging.UnorderedPagesThrow` | src/main/java/com/space/service/ShipService.java:93-99 | both page parameters without an order reach `getComparatorByOrder(null)` and throw `NullPointerException` |
| `ShipPaging.UnknownOrderThrows` | src/main/java/com/space/service/ShipService.java:84-117 | an unrecognised field name throws `NullPointerException` whatever the paging parameters |
| `ShipPaging.OrderedWithoutPageSize` | src/main/java/com/space/service/ShipService.java:84-88 | with an order and no page size: the first three sorted ships, whatever the page number |
| `ShipPaging.OrderedWithoutPageNumber` | src/main/java/com/space/service/ShipService.java:90-91 | with an order and a page size but no page number: always empty (throws for a negative size) |
| `ShipPaging.OrderedPage` | src/main/java/com/space/service/ShipService.java:93 | with all three given: pageSize sorted ships from position pageNumber*pageSize (32-bit product); a negative start or size throws |
| `ShipPaging.SecondPageOfTwo` | src/main/java/com/space/service/ShipService.java:93 | page 1 of size 2 over five ships holds those ranked third and fourth by the key |
| `ShipController.GetSortedShipsList` | src/main/java/com/space/controller/ShipController.java:27-47 | the list endpoint returns `getSortedShipList` applied to the filtered list |
| `ShipController.Count` | src/main/java/com/space/controller/ShipController.java:49-66 | the count is the length of the filtered list, never more than the stored ships |
| `ShipController.GetShip` | src/main/java/com/space/controller/ShipController.java:74-80 | a null or zero id gives BadRequest; an id not stored gives NotFound, negative ids included; otherwise the stored ship with that id |
| `ShipController.CreateShip` | src/main/java/com/space/controller/ShipController.java:68-72 | a ship `isValidShip` flags gives BadRequest with store and body unchanged. Otherwise the body becomes its `Prepared` form. It replaces the stored record when its id is stored, or else is appended under the next id with the other records kept. The ship returned is complete, valid and consistently rated, and persisted-ness of the store is preserved |
| `ShipController.ReplaceKeepsPersisted` | src/main/java/com/space/controller/ShipController.java:98 | replacing a record by a persisted one keeps every stored record persisted |
| `ShipController.Merge` | src/main/java/com/space/controller/ShipController.java:87-93 | each non-null body field among name, planet, type, date, speed, usage and crew overwrites the stored one; null fields keep the stored value; id and rating are never copied |
| `ShipController.Revised` | src/main/java/com/space/controller/ShipController.java:87-94 | the merged ship with its rating recomputed from the merged fields, so the rating is always consistent |
| `ShipController.ApplyBody` | src/main/java/com/space/controller/ShipController.java:87-94 | the setter sequence of `updateShip` produces exactly `Revised` of the fetched ship and the body |
| `ShipController.UpdateShip` | src/main/java/com/space/controller/ShipController.java:82-99 | the guards of `getShip` apply first; the stored ship is merged with the body and re-rated. If `isValidShip` flags the result, BadRequest; otherwise that record is saved in place. Every error leaves the store unchanged, and no call uses up a generated id (`nextId` is kept) |
| `ShipController.UpdateKeepsPersisted` | src/main/java/com/space/controller/ShipController.java:94-98 | saving a revision that passes validation keeps every stored ship persisted |
| `ShipController.LookupUnique` | src/main/java/com/space/controller/ShipController.java:79 | with distinct ids, the ship `findById` returns is the only one carrying that id |
| `ShipController.DeleteShip` | src/main/java/com/space/controller/ShipController.java:101-105 | the guards of `getShip`. A non-zero stored id is always deleted: the call returns normally and removes exactly the ship with that id, the others kept in order. Every error leaves the store unchanged |
| `ShipController.RevisedEmptyPatch` | src/main/java/com/space/controller/ShipController.java:87-94 | an all-null body leaves a persisted ship exactly as it was |
| `ShipController.RevisedNameOnly` | src/main/java/com/space/controller/ShipController.java:87-94 | a body with only a name changes the name and nothing else; the recomputed rating equals the old one |
| `ShipController.RevisedIdempotent` | src/main/java/com/space/controller/ShipController.java:87-94 | applying the same body twice equals applying it once |
| `ShipController.RevisedIgnoresIdAndRating` | src/main/java/com/space/controller/ShipController.java:87-94 | the body's id and rating have no influence on the update |
| `ShipController.RevisedPersisted` | src/main/java/com/space/controller/ShipController.java:87-96 | an update of a persisted ship that passes validation yields a persisted ship |

## Left out

- HTTP and Spring: routing, request-parameter and body binding, status mapping and the exception
  classes. Exceptions are `Err` values of `Exceptions.Exception`.
- JPA persistence: the store is a sequence of records plus a counter. The model makes these
  choices:
  - `findAll` lists ships in insertion order.
  - Generated ids count up from 1.
  - `saveAndFlush` stores a ship whose id is already stored in place of that record. Any other
    ship is inserted under a fresh id, so a client-supplied unknown id is dropped.
  - The entity object does not receive its generated id.
  - `updateShip` works on a detached copy. A dirty managed entity is never flushed without the
    explicit save.
  - The repository interface (`ShipRepository.java`) is not part of this model.
- Stored ships with null fields: the filter and the comparators dereference stored fields. So
  the model requires every stored ship to be complete (`AllComplete`). Create and update keep
  this, and more (`AllPersisted`). The `NullPointerException` that an incomplete row in the
  database would raise is not modelled.
- Floating point: speed, rating and the constants 0.01, 0.99, 0.5 and 80 are exact reals.
  `Math.round` is floor(x + 1/2) saturated to the `long` range. The conversion of the rounded
  `long` back to `double` is exact. A zero divisor (year 3020) gives an infinity that rounds to
  the extreme `long`, or NaN (speed 0), which rounds to 0. Double equality in `equals` (NaN,
  signed zero) is value equality.
- `Calendar`: the year of era is computed in UTC on the proleptic Gregorian calendar. The JVM
  default time zone is not modelled. Neither is the Julian calendar that `GregorianCalendar`
  uses before its 1582 cutover, so year boundaries before 1582 can differ: by 10 days in 1582,
  and by up to about 25 days for the BC years that pass the year check (about 3019 to 2800 BC).
- `toUpperCase` upper-cases ASCII letters only (no locale, no other scripts).
- `String.length` counts Dafny characters. Java counts UTF-16 code units, which differs for
  characters outside the Basic Multilingual Plane.
- `sorted`: the reference sort is an insertion sort. It is specified as a permutation that is
  ascending by the key. The relative order of ships with equal keys is not stated.
- The filter's `isUsed != ship.isUsed()` compares boxed `Boolean` references. It is modelled as
  value equality, assuming both sides are the cached `Boolean.TRUE`/`Boolean.FALSE` instances.
- Integer widths of ids (`Long`), crew sizes (`Integer`) and dates (`long`) are unbounded: they
  are only compared. Only the page arithmetic wraps.
- `ShipType` is taken to be the three constants Transport, Military and Merchant; only equality
  matters. `ShipOrder` is represented by its field name. `ShipType.java` and `ShipOrder.java` are
  not part of this model.
- Ship getters are not separate functions: the model reads the fields directly, and each
  setter's contract states what the matching getter returns.
- `hashCode` (library hashing).
- Concurrency between requests.
