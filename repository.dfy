/**
 * The ship store (the `ShipRepository` the service and controller call): the ships in the
 * order `findAll()` lists them, and the next identifier it will assign.
 */
module Repository {
  import opened Wrappers
  import opened ShipModel

  /** Some stored ship has identifier `id`. */
  predicate HasId(ships: seq<ShipRecord>, id: int) {
    exists i :: 0 <= i < |ships| && ships[i].id == Some(id)
  }

  /** The first ship with identifier `id`, if any. */
  function Lookup(ships: seq<ShipRecord>, id: int): (r: Option<ShipRecord>)
    ensures r.Some? <==> HasId(ships, id)
    ensures r.Some? ==> r.value in ships && r.value.id == Some(id)
  {
    if ships == [] then None
    else if ships[0].id == Some(id) then Some(ships[0])
    else
      var r := Lookup(ships[1..], id);
      assert HasId(ships, id) ==> ships[0].id == Some(id) || HasId(ships[1..], id) by {
        if HasId(ships, id) {
          var i :| 0 <= i < |ships| && ships[i].id == Some(id);
          if i > 0 { assert ships[1..][i - 1] == ships[i]; }
        }
      }
      r
  }

  /** The ships with every record carrying identifier `s.id` replaced by `s`. */
  function ReplaceById(ships: seq<ShipRecord>, s: ShipRecord): (r: seq<ShipRecord>)
    ensures |r| == |ships|
    ensures forall i :: 0 <= i < |ships| ==> r[i] == (if ships[i].id == s.id then s else ships[i])
  {
    if ships == [] then []
    else [if ships[0].id == s.id then s else ships[0]] + ReplaceById(ships[1..], s)
  }

  /** The ships without the records carrying identifier `id`, in their original order. */
  function RemoveById(ships: seq<ShipRecord>, id: Option<int>): (r: seq<ShipRecord>)
    ensures forall x: ShipRecord :: x in r <==> x in ships && x.id != id
    ensures |r| <= |ships|
  {
    if ships == [] then []
    else
      var rest := RemoveById(ships[1..], id);
      if ships[0].id == id then rest else [ships[0]] + rest
  }

  /** No two stored ships share an identifier. */
  ghost predicate DistinctIds(ships: seq<ShipRecord>) {
    forall i, j :: 0 <= i < j < |ships| ==> ships[i].id != ships[j].id
  }

  /** Removing records keeps the remaining identifiers distinct. */
  lemma {:induction false} RemoveKeepsDistinct(ships: seq<ShipRecord>, id: Option<int>)
    requires DistinctIds(ships)
    ensures DistinctIds(RemoveById(ships, id))
  {
    if ships != [] {
      var rest := RemoveById(ships[1..], id);
      assert DistinctIds(ships[1..]) by {
        forall i, j | 0 <= i < j < |ships[1..]| ensures ships[1..][i].id != ships[1..][j].id {
          assert ships[1..][i] == ships[i + 1] && ships[1..][j] == ships[j + 1];
        }
      }
      RemoveKeepsDistinct(ships[1..], id);
      if ships[0].id != id {
        var r := [ships[0]] + rest;
        forall i, j | 0 <= i < j < |r| ensures r[i].id != r[j].id {
          if i == 0 {
            assert r[j] in rest;
            assert r[j] in ships[1..];
            var k :| 0 <= k < |ships[1..]| && ships[1..][k] == r[j];
            assert ships[k + 1] == r[j];
          } else {
            assert r[i] == rest[i - 1] && r[j] == rest[j - 1];
          }
        }
      }
    }
  }

  /** Removing an identifier no record carries changes nothing. */
  lemma {:induction false} RemoveAbsent(ships: seq<ShipRecord>, id: Option<int>)
    requires forall i :: 0 <= i < |ships| ==> ships[i].id != id
    ensures RemoveById(ships, id) == ships
  {
    if ships != [] {
      RemoveAbsent(ships[1..], id);
      assert ships == [ships[0]] + ships[1..];
    }
  }

  /** With distinct identifiers, removing the identifier of the record at `i` removes exactly that record. */
  lemma {:induction false} RemoveAt(ships: seq<ShipRecord>, i: int)
    requires DistinctIds(ships) && 0 <= i < |ships|
    ensures RemoveById(ships, ships[i].id) == ships[..i] + ships[i + 1..]
  {
    if i == 0 {
      RemoveAbsent(ships[1..], ships[0].id);
    } else {
      var tail := ships[1..];
      assert DistinctIds(tail);
      assert tail[i - 1] == ships[i];
      RemoveAt(tail, i - 1);
      assert ships[0].id != ships[i].id;
      assert RemoveById(ships, ships[i].id) == [ships[0]] + RemoveById(tail, ships[i].id);
      assert ships[..i] == [ships[0]] + tail[..i - 1];
      assert ships[i + 1..] == tail[i..];
    }
  }

  class ShipRepository {
    /** The stored ships, in `findAll()` order. */
    var ships: seq<ShipRecord>
    /** The identifier the next insertion receives. */
    var nextId: int

    /** Every stored ship carries a distinct positive identifier below `nextId`. */
    ghost predicate Valid()
      reads this
    {
      && 1 <= nextId
      && (forall i :: 0 <= i < |ships| ==> ships[i].id.Some? && 1 <= ships[i].id.value < nextId)
      && DistinctIds(ships)
    }

    constructor ()
      ensures Valid() && ships == [] && nextId == 1
    {
      ships, nextId := [], 1;
    }

    /** `findAll()`. */
    function FindAll(): seq<ShipRecord>
      reads this
    {
      ships
    }

    /** `existsById(id)`. */
    function ExistsById(id: int): bool
      reads this
    {
      HasId(ships, id)
    }

    /** `findById(id)`. */
    function FindById(id: int): Option<ShipRecord>
      reads this
    {
      Lookup(ships, id)
    }

    /**
     * `saveAndFlush(s)`: a ship whose identifier is stored replaces that record in place;
     * any other ship (no identifier, or one not stored) is appended under a fresh identifier.
     */
    method SaveAndFlush(s: ShipRecord) returns (saved: ShipRecord)
      requires Valid()
      modifies this
      ensures Valid()
      ensures old(s.id.Some? && HasId(ships, s.id.value)) ==>
                saved == s && ships == ReplaceById(old(ships), s) && nextId == old(nextId)
      ensures old(!(s.id.Some? && HasId(ships, s.id.value))) ==>
                saved == s.(id := Some(old(nextId))) && ships == old(ships) + [saved] && nextId == old(nextId) + 1
    {
      if s.id.Some? && HasId(ships, s.id.value) {
        saved := s;
        ships := ReplaceById(ships, s);
      } else {
        saved := s.(id := Some(nextId));
        ships := ships + [saved];
        nextId := nextId + 1;
      }
    }

    /** `delete(s)`: removes the record with the identifier of `s`. */
    method Delete(s: ShipRecord)
      requires Valid()
      modifies this
      ensures Valid() && nextId == old(nextId)
      ensures ships == RemoveById(old(ships), s.id)
    {
      RemoveKeepsDistinct(ships, s.id);
      ships := RemoveById(ships, s.id);
    }
  }
}
