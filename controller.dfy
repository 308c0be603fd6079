/**
 * The REST controller's endpoints over the store: list (filter, then page), count, create,
 * read, partial update and delete. Exceptions are returned as `Err` values; a method that
 * returns an error has left the store as it was.
 */
module ShipController {
  import opened Wrappers
  import opened Exceptions
  import opened ShipModel
  import opened Repository
  import opened ShipService
  import opened ShipFilter
  import opened ShipPaging

  // ---------------------------------------------------------------- queries

  /** GET /rest/ships: the filtered list, sorted and paged by `getSortedShipList`. */
  method GetSortedShipsList(repo: ShipRepository, c: Criteria, pageNumber: Option<Int32>, pageSize: Option<Int32>,
                            order: Option<ShipOrder>) returns (r: Result<seq<ShipRecord>, Exception>)
    requires AllComplete(repo.ships)
    ensures AllComplete(Filter(c, repo.ships))
    ensures r == GetSortedShipList(Filter(c, repo.ships), pageNumber, pageSize, order)
  {
    var ships := GetFilteredShipList(repo, c);
    FilterIdempotent(c, repo.ships);
    r := GetSortedShipList(ships, pageNumber, pageSize, order);
  }

  /** GET /rest/ships/count: the number of ships the filter keeps. */
  method Count(repo: ShipRepository, c: Criteria) returns (n: int)
    requires AllComplete(repo.ships)
    ensures n == |Filter(c, repo.ships)|
    ensures n <= |repo.ships|
  {
    var ships := GetFilteredShipList(repo, c);
    FilterNoLonger(c, repo.ships);
    n := |ships|;
  }

  /**
   * GET /rest/ships/{id}: a null or zero id is a bad request (checked before the store is
   * consulted); an id not stored, negative ones included, is not found; otherwise the stored ship.
   */
  method GetShip(repo: ShipRepository, id: Option<int>) returns (r: Result<ShipRecord, Exception>)
    requires repo.Valid()
    ensures id.None? || id == Some(0) ==> r == Err(BadRequest)
    ensures id.Some? && id.value != 0 && !HasId(repo.ships, id.value) ==> r == Err(NotFound)
    ensures id.Some? && id.value != 0 && HasId(repo.ships, id.value) ==> r.Ok?
    ensures id.Some? && id.value < 0 ==> r == Err(NotFound)
    ensures r.Err? ==> r.error in {BadRequest, NotFound}
    ensures r.Ok? ==> id.Some? && r.value in repo.ships && r.value.id == id
  {
    if id.None? || id.value == 0 {
      return Err(BadRequest);
    }
    if !repo.ExistsById(id.value) {
      return Err(NotFound);
    }
    r := Ok(repo.FindById(id.value).value);
  }

  // ---------------------------------------------------------------- writes

  /** POST /rest/ships/: a ship `isValidShip` flags is refused; any other is completed and stored by `addShip`. */
  method CreateShip(repo: ShipRepository, ship: Ship) returns (r: Result<ShipRecord, Exception>)
    requires repo.Valid()
    modifies repo, ship
    ensures repo.Valid()
    ensures IsValidShip(old(ship.Record())) ==>
              r == Err(BadRequest) && repo.ships == old(repo.ships) && repo.nextId == old(repo.nextId)
              && ship.Record() == old(ship.Record())
    ensures !IsValidShip(old(ship.Record())) ==>
              r.Ok? && r.value in repo.ships && Persisted(r.value)
              && r.value == Prepared(old(ship.Record())).(id := r.value.id)
              && ship.Record() == Prepared(old(ship.Record()))
    ensures !IsValidShip(old(ship.Record())) && old(ship.id.Some? && HasId(repo.ships, ship.id.value)) ==>
              r == Ok(ship.Record()) && repo.ships == ReplaceById(old(repo.ships), r.value)
              && repo.nextId == old(repo.nextId)
    ensures !IsValidShip(old(ship.Record())) && old(!(ship.id.Some? && HasId(repo.ships, ship.id.value))) ==>
              r == Ok(ship.Record().(id := Some(old(repo.nextId)))) && repo.ships == old(repo.ships) + [r.value]
              && repo.nextId == old(repo.nextId) + 1
    ensures old(AllPersisted(repo.ships)) ==> AllPersisted(repo.ships)
  {
    if IsValidShip(ship.Record()) {
      return Err(BadRequest);
    }
    ghost var before := repo.ships;
    ghost var body := ship.Record();
    var saved := AddShip(repo, ship);
    PreparedIsPersisted(body, saved.id);
    ReplaceKeepsPersisted(before, saved);
    r := Ok(saved);
  }

  /** Replacing a record by a persisted one keeps every stored record persisted. */
  lemma ReplaceKeepsPersisted(ships: seq<ShipRecord>, s: ShipRecord)
    requires Persisted(s)
    ensures AllPersisted(ships) ==> AllPersisted(ReplaceById(ships, s))
    ensures HasId(ships, s.id.value) ==> s in ReplaceById(ships, s)
  {
    var r := ReplaceById(ships, s);
    if AllPersisted(ships) {
      forall y | y in r ensures Persisted(y) {
        var i :| 0 <= i < |r| && r[i] == y;
        assert ships[i] in ships;
      }
    }
    if HasId(ships, s.id.value) {
      var i :| 0 <= i < |ships| && ships[i].id == Some(s.id.value);
      assert r[i] == s;
    }
  }

  /** The incoming value when one was sent, the current one otherwise. */
  function Override<T>(incoming: Option<T>, current: Option<T>): Option<T> {
    if incoming.Some? then incoming else current
  }

  /**
   * The partial-update merge: every non-null field of the patch among name, planet, type,
   * production date, speed, usage and crew overwrites the stored one; the patch's id and
   * rating are never copied.
   */
  function Merge(stored: ShipRecord, patch: ShipRecord): (m: ShipRecord)
    ensures m.id == stored.id && m.rating == stored.rating
    ensures patch.name.Some? ==> m.name == patch.name
    ensures patch.name.None? ==> m.name == stored.name
    ensures patch.planet.Some? ==> m.planet == patch.planet
    ensures patch.planet.None? ==> m.planet == stored.planet
    ensures patch.shipType.Some? ==> m.shipType == patch.shipType
    ensures patch.shipType.None? ==> m.shipType == stored.shipType
    ensures patch.prodDate.Some? ==> m.prodDate == patch.prodDate
    ensures patch.prodDate.None? ==> m.prodDate == stored.prodDate
    ensures patch.speed.Some? ==> m.speed == patch.speed
    ensures patch.speed.None? ==> m.speed == stored.speed
    ensures patch.isUsed.Some? ==> m.isUsed == patch.isUsed
    ensures patch.isUsed.None? ==> m.isUsed == stored.isUsed
    ensures patch.crewSize.Some? ==> m.crewSize == patch.crewSize
    ensures patch.crewSize.None? ==> m.crewSize == stored.crewSize
  {
    stored.(name := Override(patch.name, stored.name),
            planet := Override(patch.planet, stored.planet),
            shipType := Override(patch.shipType, stored.shipType),
            prodDate := Override(patch.prodDate, stored.prodDate),
            speed := Override(patch.speed, stored.speed),
            isUsed := Override(patch.isUsed, stored.isUsed),
            crewSize := Override(patch.crewSize, stored.crewSize))
  }

  /** The merged ship with its rating recomputed, as `updateShip` validates and saves it. */
  function Revised(stored: ShipRecord, patch: ShipRecord): (m: ShipRecord)
    ensures m.rating == CalculateRating(m)
    ensures m.(rating := stored.rating) == Merge(stored, patch)
  {
    var merged := Merge(stored, patch);
    merged.(rating := CalculateRating(merged))
  }

  /**
   * The body of `updateShip` between fetching and validating: copy each non-null field of the
   * request body onto the fetched ship through its setter, then recompute the rating.
   */
  method ApplyBody(stored: ShipRecord, ship: Ship) returns (updated: ShipRecord)
    ensures updated == Revised(stored, ship.Record())
  {
    updated := stored;
    if ship.name.Some? { updated := updated.(name := ship.name); }
    if ship.planet.Some? { updated := updated.(planet := ship.planet); }
    if ship.shipType.Some? { updated := updated.(shipType := ship.shipType); }
    if ship.prodDate.Some? { updated := updated.(prodDate := ship.prodDate); }
    if ship.speed.Some? { updated := updated.(speed := ship.speed); }
    if ship.isUsed.Some? { updated := updated.(isUsed := ship.isUsed); }
    if ship.crewSize.Some? { updated := updated.(crewSize := ship.crewSize); }
    assert updated == Merge(stored, ship.Record());
    updated := updated.(rating := CalculateRating(updated));
  }

  /**
   * POST /rest/ships/{id}: fetch as GET does, overwrite the fields the body supplies, recompute
   * the rating, refuse the result if `isValidShip` flags it, and only then save it in place.
   */
  method UpdateShip(repo: ShipRepository, id: Option<int>, ship: Ship) returns (r: Result<ShipRecord, Exception>)
    requires repo.Valid()
    modifies repo
    ensures repo.Valid()
    ensures id.None? || id == Some(0) ==> r == Err(BadRequest)
    ensures id.Some? && id.value != 0 && !old(HasId(repo.ships, id.value)) ==> r == Err(NotFound)
    ensures repo.nextId == old(repo.nextId)
    ensures r.Err? ==> repo.ships == old(repo.ships)
    ensures id.Some? && id.value != 0 && old(HasId(repo.ships, id.value)) ==>
              var m := Revised(old(Lookup(repo.ships, id.value)).value, ship.Record());
              if IsValidShip(m) then r == Err(BadRequest)
              else r == Ok(m) && repo.ships == ReplaceById(old(repo.ships), m) && m.id == id
    ensures old(AllPersisted(repo.ships)) ==> AllPersisted(repo.ships)
  {
    var fetched := GetShip(repo, id);
    if fetched.Err? {
      return Err(fetched.error);
    }
    assert fetched.value == Lookup(repo.ships, id.value).value by {
      LookupUnique(repo.ships, id.value, fetched.value);
    }
    var updated := ApplyBody(fetched.value, ship);

    if IsValidShip(updated) {
      return Err(BadRequest);
    }
    UpdateKeepsPersisted(repo.ships, fetched.value, ship.Record());
    var saved := repo.SaveAndFlush(updated);
    r := Ok(saved);
  }

  /** Saving a valid revision of a stored ship keeps every stored ship persisted. */
  lemma UpdateKeepsPersisted(ships: seq<ShipRecord>, stored: ShipRecord, patch: ShipRecord)
    requires stored in ships && !IsValidShip(Revised(stored, patch))
    ensures AllPersisted(ships) ==> AllPersisted(ReplaceById(ships, Revised(stored, patch)))
  {
    if AllPersisted(ships) {
      RevisedPersisted(stored, patch);
      ReplaceKeepsPersisted(ships, Revised(stored, patch));
    }
  }

  /** With distinct identifiers, a stored ship carrying `id` is the one `Lookup` finds. */
  lemma LookupUnique(ships: seq<ShipRecord>, id: int, s: ShipRecord)
    requires DistinctIds(ships) && s in ships && s.id == Some(id)
    ensures Lookup(ships, id) == Some(s)
  {
    var t := Lookup(ships, id).value;
    var i :| 0 <= i < |ships| && ships[i] == s;
    var j :| 0 <= j < |ships| && ships[j] == t;
    assert i == j;
  }

  /**
   * DELETE /rest/ships/{id}: the guards of GET, then removal of exactly that ship; the other
   * ships stay, in their order. `None` means the call returned normally.
   */
  method DeleteShip(repo: ShipRepository, id: Option<int>) returns (thrown: Option<Exception>)
    requires repo.Valid()
    modifies repo
    ensures repo.Valid() && repo.nextId == old(repo.nextId)
    ensures id.None? || id == Some(0) ==> thrown == Some(BadRequest)
    ensures id.Some? && id.value != 0 && !old(HasId(repo.ships, id.value)) ==> thrown == Some(NotFound)
    ensures thrown.Some? ==> repo.ships == old(repo.ships)
    ensures id.Some? && id.value != 0 && old(HasId(repo.ships, id.value)) ==>
              thrown.None? && repo.ships == RemoveById(old(repo.ships), id)
    ensures thrown.None? ==>
              id.Some? && id.value != 0 && old(HasId(repo.ships, id.value))
              && exists i :: 0 <= i < |old(repo.ships)| && old(repo.ships)[i].id == id
                             && repo.ships == old(repo.ships)[..i] + old(repo.ships)[i + 1..]
    ensures old(AllPersisted(repo.ships)) ==> AllPersisted(repo.ships)
  {
    var fetched := GetShip(repo, id);
    if fetched.Err? {
      return Some(fetched.error);
    }
    ghost var before := repo.ships;
    ghost var i :| 0 <= i < |before| && before[i] == fetched.value;
    RemoveAt(before, i);
    repo.Delete(fetched.value);
    thrown := None;
  }

  // ---------------------------------------------------------------- properties of the update merge

  /** Updating a persisted ship with all-null body leaves it exactly as it was. */
  lemma RevisedEmptyPatch(s: ShipRecord)
    requires Persisted(s)
    ensures Revised(s, NullShip) == s
  {
  }

  /** Updating only the name of a persisted ship changes the name and nothing else, rating included. */
  lemma RevisedNameOnly(s: ShipRecord, name: string)
    requires Persisted(s)
    ensures Revised(s, NullShip.(name := Some(name))) == s.(name := Some(name))
  {
    RatingInputs(Merge(s, NullShip.(name := Some(name))), s);
  }

  /** Applying the same body twice gives the same ship as applying it once. */
  lemma RevisedIdempotent(s: ShipRecord, patch: ShipRecord)
    ensures Revised(Revised(s, patch), patch) == Revised(s, patch)
  {
  }

  /** The body's id and rating have no influence on the update. */
  lemma RevisedIgnoresIdAndRating(s: ShipRecord, patch: ShipRecord, id: Option<int>, rating: Option<real>)
    ensures Revised(s, patch.(id := id, rating := rating)) == Revised(s, patch)
  {
  }

  /** An update of a persisted ship that passes validation yields a persisted ship. */
  lemma RevisedPersisted(s: ShipRecord, patch: ShipRecord)
    requires Persisted(s) && !IsValidShip(Revised(s, patch))
    ensures Persisted(Revised(s, patch))
  {
  }
}
