/**
 * The query side of the ship service, part one: `getFilteredShipList`, which walks the stored
 * ships in order and keeps those meeting every supplied criterion.
 */
module ShipFilter {
  import opened Wrappers
  import opened ShipModel
  import opened Text
  import opened Repository

  /** The optional filter parameters of the list and count endpoints; `None` means "not supplied". */
  datatype Criteria = Criteria(
    name: Option<string>,
    planet: Option<string>,
    shipType: Option<ShipType>,
    after: Option<int>,
    before: Option<int>,
    isUsed: Option<bool>,
    minSpeed: Option<real>,
    maxSpeed: Option<real>,
    minCrewSize: Option<int>,
    maxCrewSize: Option<int>,
    minRating: Option<real>,
    maxRating: Option<real>)

  /** No criterion supplied. */
  const NoCriteria: Criteria := Criteria(None, None, None, None, None, None, None, None, None, None, None, None)

  /** A null or empty query imposes nothing; otherwise the upper-cased field contains the upper-cased query. */
  predicate TextMatches(query: Option<string>, field: string) {
    query.None? || query.value == [] || Contains(Upper(field), Upper(query.value))
  }

  /** Name and planet matching ignore case: the field and the query may be given in any case. */
  lemma TextMatchesIgnoresCase(q: string, field: string, other: string)
    requires Upper(field) == Upper(other)
    ensures TextMatches(Some(Upper(q)), Upper(field)) == TextMatches(Some(q), field)
    ensures TextMatches(Some(q), field) == TextMatches(Some(q), other)
  {
    UpperIdempotent(field);
    UpperIdempotent(q);
  }

  /** The ship meets every supplied criterion (the reference statement of the filter's rule). */
  predicate Matches(c: Criteria, s: ShipRecord)
    requires Complete(s)
  {
    && TextMatches(c.name, s.name.value)
    && TextMatches(c.planet, s.planet.value)
    && (c.shipType.None? || c.shipType == s.shipType)
    && (c.after.None? || c.after.value <= s.prodDate.value)
    && (c.before.None? || s.prodDate.value <= c.before.value)
    && (c.isUsed.None? || c.isUsed == s.isUsed)
    && (c.minSpeed.None? || c.minSpeed.value <= s.speed.value)
    && (c.maxSpeed.None? || s.speed.value <= c.maxSpeed.value)
    && (c.minCrewSize.None? || c.minCrewSize.value <= s.crewSize.value)
    && (c.maxCrewSize.None? || s.crewSize.value <= c.maxCrewSize.value)
    && (c.minRating.None? || c.minRating.value <= s.rating.value)
    && (c.maxRating.None? || s.rating.value <= c.maxRating.value)
  }

  /** The matching ships of `ships`, in their order: the specification of `getFilteredShipList`. */
  function Filter(c: Criteria, ships: seq<ShipRecord>): seq<ShipRecord>
    requires AllComplete(ships)
    decreases |ships|
  {
    if ships == [] then []
    else
      var last := ships[|ships| - 1];
      assert last in ships;
      Filter(c, ships[..|ships| - 1]) + (if Matches(c, last) then [last] else [])
  }

  /** `r` is `xs` with some elements left out, the rest in their original order. */
  ghost predicate IsSubsequence(r: seq<ShipRecord>, xs: seq<ShipRecord>)
    decreases |xs|
  {
    if xs == [] then r == []
    else
      || IsSubsequence(r, xs[..|xs| - 1])
      || (r != [] && r[|r| - 1] == xs[|xs| - 1] && IsSubsequence(r[..|r| - 1], xs[..|xs| - 1]))
  }

  /**
   * `getFilteredShipList`: one pass over `findAll()`; each test that fails skips the ship
   * (`continue`), and a ship that passes them all is appended.
   */
  method GetFilteredShipList(repo: ShipRepository, c: Criteria) returns (ships: seq<ShipRecord>)
    requires AllComplete(repo.ships)
    ensures ships == Filter(c, repo.ships)
    ensures forall s :: s in ships <==> s in repo.ships && Matches(c, s)
  {
    var all := repo.FindAll();
    ships := [];
    var i := 0;
    while i < |all|
      invariant 0 <= i <= |all|
      invariant ships == Filter(c, all[..i])
    {
      var ship := all[i];
      assert all[..i + 1][..i] == all[..i] && all[..i + 1][i] == ship;
      assert ship in all;
      i := i + 1;
      assert Filter(c, all[..i]) == if Matches(c, ship) then ships + [ship] else ships;

      if c.name.Some? && c.name.value != [] {
        if !Contains(Upper(ship.name.value), Upper(c.name.value)) { continue; }
      }
      if c.planet.Some? && c.planet.value != [] {
        if !Contains(Upper(ship.planet.value), Upper(c.planet.value)) { continue; }
      }
      if c.shipType.Some? {
        if c.shipType != ship.shipType { continue; }
      }
      if c.after.Some? {
        if c.after.value > ship.prodDate.value { continue; }
      }
      if c.before.Some? {
        if c.before.value < ship.prodDate.value { continue; }
      }
      if c.isUsed.Some? {
        if c.isUsed != ship.isUsed { continue; }
      }
      if c.minSpeed.Some? {
        if c.minSpeed.value > ship.speed.value { continue; }
      }
      if c.maxSpeed.Some? {
        if c.maxSpeed.value < ship.speed.value { continue; }
      }
      if c.minCrewSize.Some? {
        if c.minCrewSize.value > ship.crewSize.value { continue; }
      }
      if c.maxCrewSize.Some? {
        if c.maxCrewSize.value < ship.crewSize.value { continue; }
      }
      if c.minRating.Some? {
        if c.minRating.value > ship.rating.value { continue; }
      }
      if c.maxRating.Some? {
        if c.maxRating.value < ship.rating.value { continue; }
      }
      ships := ships + [ship];
    }
    assert all[..i] == all;
    forall s ensures s in ships <==> s in all && Matches(c, s) {
      FilterMembership(c, all, s);
    }
  }

  // ---------------------------------------------------------------- properties of Filter

  /** The filter keeps a ship exactly when it is one of the input ships and meets every criterion. */
  lemma {:induction false} FilterMembership(c: Criteria, ships: seq<ShipRecord>, s: ShipRecord)
    requires AllComplete(ships)
    ensures s in Filter(c, ships) <==> s in ships && Matches(c, s)
    decreases |ships|
  {
    if ships != [] {
      var init, last := ships[..|ships| - 1], ships[|ships| - 1];
      assert ships == init + [last];
      FilterMembership(c, init, s);
    }
  }

  /** The filter keeps every copy of a matching ship and no copy of any other ship. */
  lemma {:induction false} FilterMultiplicity(c: Criteria, ships: seq<ShipRecord>, s: ShipRecord)
    requires AllComplete(ships)
    ensures multiset(Filter(c, ships))[s] == if s in ships && Matches(c, s) then multiset(ships)[s] else 0
    decreases |ships|
  {
    if ships != [] {
      var init, last := ships[..|ships| - 1], ships[|ships| - 1];
      assert ships == init + [last];
      FilterMultiplicity(c, init, s);
    }
  }

  /** The filter's result is a subsequence of its input: it only drops ships and never reorders them. */
  lemma {:induction false} FilterIsSubsequence(c: Criteria, ships: seq<ShipRecord>)
    requires AllComplete(ships)
    ensures IsSubsequence(Filter(c, ships), ships)
    decreases |ships|
  {
    if ships != [] {
      var init, last := ships[..|ships| - 1], ships[|ships| - 1];
      FilterIsSubsequence(c, init);
      var r := Filter(c, ships);
      assert ships[..|ships| - 1] == init;
      if Matches(c, last) {
        assert r == Filter(c, init) + [last];
        assert r[..|r| - 1] == Filter(c, init);
        assert r != [] && r[|r| - 1] == ships[|ships| - 1];
      } else {
        assert r == Filter(c, init);
      }
    }
  }

  /** The filter never returns more ships than it was given. */
  lemma {:induction false} FilterNoLonger(c: Criteria, ships: seq<ShipRecord>)
    requires AllComplete(ships)
    ensures |Filter(c, ships)| <= |ships|
    decreases |ships|
  {
    if ships != [] {
      FilterNoLonger(c, ships[..|ships| - 1]);
    }
  }

  /** When every ship matches, the filter returns its input unchanged. */
  lemma {:induction false} FilterKeepsAllMatching(c: Criteria, ships: seq<ShipRecord>)
    requires AllComplete(ships)
    requires forall s | s in ships :: Matches(c, s)
    ensures Filter(c, ships) == ships
    decreases |ships|
  {
    if ships != [] {
      var init := ships[..|ships| - 1];
      FilterKeepsAllMatching(c, init);
      assert ships == init + [ships[|ships| - 1]];
    }
  }

  /** With no criterion supplied, the filter returns the whole list in its order. */
  lemma NoCriteriaKeepsAll(ships: seq<ShipRecord>)
    requires AllComplete(ships)
    ensures Filter(NoCriteria, ships) == ships
  {
    FilterKeepsAllMatching(NoCriteria, ships);
  }

  /** Filtering an already filtered list with the same criteria changes nothing. */
  lemma FilterIdempotent(c: Criteria, ships: seq<ShipRecord>)
    requires AllComplete(ships)
    ensures AllComplete(Filter(c, ships))
    ensures Filter(c, Filter(c, ships)) == Filter(c, ships)
  {
    var r := Filter(c, ships);
    forall s | s in r ensures Complete(s) && Matches(c, s) {
      FilterMembership(c, ships, s);
    }
    FilterKeepsAllMatching(c, r);
  }

  /** A ship whose production date equals both date bounds passes them: the bounds are inclusive. */
  lemma DateBoundsInclusive(s: ShipRecord)
    requires Complete(s)
    ensures Matches(NoCriteria.(after := s.prodDate, before := s.prodDate), s)
    ensures Matches(NoCriteria.(minSpeed := s.speed, maxSpeed := s.speed, minCrewSize := s.crewSize,
                                maxCrewSize := s.crewSize, minRating := s.rating, maxRating := s.rating), s)
  {
  }
}
