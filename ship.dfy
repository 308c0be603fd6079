/**
 * The ship entity: a record of nine nullable fields (`ShipRecord`, the value stored and
 * compared) and the mutable JavaBean `Ship` whose setters assign those fields one at a time.
 */
module ShipModel {
  import opened Wrappers
  import opened Exceptions

  /** `com.space.model.ShipType`: a closed enumeration, compared only for equality. */
  datatype ShipType = Transport | Military | Merchant

  /**
   * The nine columns of a ship. Every field is nullable; `prodDate` is `Date.getTime()` in
   * milliseconds, `speed` and `rating` are doubles taken as exact reals.
   */
  datatype ShipRecord = ShipRecord(
    id: Option<int>,
    name: Option<string>,
    planet: Option<string>,
    shipType: Option<ShipType>,
    prodDate: Option<int>,
    isUsed: Option<bool>,
    speed: Option<real>,
    crewSize: Option<int>,
    rating: Option<real>)

  /** A ship with every field null. */
  const NullShip: ShipRecord := ShipRecord(None, None, None, None, None, None, None, None, None)

  /** No field of the ship is null. */
  predicate Complete(s: ShipRecord) {
    && s.id.Some? && s.name.Some? && s.planet.Some? && s.shipType.Some? && s.prodDate.Some?
    && s.isUsed.Some? && s.speed.Some? && s.crewSize.Some? && s.rating.Some?
  }

  predicate AllComplete(ships: seq<ShipRecord>) {
    forall s | s in ships :: Complete(s)
  }

  /** `com.space.model.Ship`: the entity object that request bodies are bound to. */
  class Ship {
    var id: Option<int>
    var name: Option<string>
    var planet: Option<string>
    var shipType: Option<ShipType>
    var prodDate: Option<int>
    var isUsed: Option<bool>
    var speed: Option<real>
    var crewSize: Option<int>
    var rating: Option<real>

    /** The current values of the nine fields (what the getters return). */
    function Record(): ShipRecord
      reads this
    {
      ShipRecord(id, name, planet, shipType, prodDate, isUsed, speed, crewSize, rating)
    }

    /** `new Ship()`: every field is null. */
    constructor ()
      ensures Record() == NullShip
    {
      id, name, planet, shipType, prodDate := None, None, None, None, None;
      isUsed, speed, crewSize, rating := None, None, None, None;
    }

    /** The seven-argument constructor: its body is empty, so the arguments are dropped and every field is null. */
    constructor Of(name: Option<string>, planet: Option<string>, shipType: Option<ShipType>,
                   date: Option<int>, isUsed: Option<bool>, speed: Option<real>, crewSize: Option<int>)
      ensures Record() == NullShip
    {
      this.id, this.name, this.planet, this.shipType, this.prodDate := None, None, None, None, None;
      this.isUsed, this.speed, this.crewSize, this.rating := None, None, None, None;
    }

    method SetId(v: Option<int>)
      modifies this
      ensures id == v && Record() == old(Record()).(id := v)
    {
      id := v;
    }

    method SetName(v: Option<string>)
      modifies this
      ensures name == v && Record() == old(Record()).(name := v)
    {
      name := v;
    }

    method SetPlanet(v: Option<string>)
      modifies this
      ensures planet == v && Record() == old(Record()).(planet := v)
    {
      planet := v;
    }

    method SetShipType(v: Option<ShipType>)
      modifies this
      ensures shipType == v && Record() == old(Record()).(shipType := v)
    {
      shipType := v;
    }

    method SetProdDate(v: Option<int>)
      modifies this
      ensures prodDate == v && Record() == old(Record()).(prodDate := v)
    {
      prodDate := v;
    }

    method SetUsed(v: Option<bool>)
      modifies this
      ensures isUsed == v && Record() == old(Record()).(isUsed := v)
    {
      isUsed := v;
    }

    method SetSpeed(v: Option<real>)
      modifies this
      ensures speed == v && Record() == old(Record()).(speed := v)
    {
      speed := v;
    }

    method SetCrewSize(v: Option<int>)
      modifies this
      ensures crewSize == v && Record() == old(Record()).(crewSize := v)
    {
      crewSize := v;
    }

    method SetRating(v: Option<real>)
      modifies this
      ensures rating == v && Record() == old(Record()).(rating := v)
    {
      rating := v;
    }

    /**
     * `equals(Object)`: the same reference is equal, a non-`Ship` is not; otherwise the fields
     * are compared left to right with `&&`, and the production dates are dereferenced (for
     * `getTime()`) only once id, name, planet and type have all compared equal.
     */
    function Equals(o: object?): (r: Result<bool, Exception>)
      reads this, o
      ensures o == this ==> r == Ok(true)
      ensures !(o is Ship) ==> r == Ok(false)
      ensures r.Err? ==> r.error == NullPointer && o is Ship && o != this
      ensures r.Err? ==> prodDate.None? || (o as Ship).prodDate.None?
      ensures r.Err? ==> && id == (o as Ship).id && name == (o as Ship).name
                         && planet == (o as Ship).planet && shipType == (o as Ship).shipType
      ensures (&& o is Ship && o != this && (prodDate.None? || (o as Ship).prodDate.None?)
               && id == (o as Ship).id && name == (o as Ship).name && planet == (o as Ship).planet
               && shipType == (o as Ship).shipType)
              ==> r == Err(NullPointer)
      ensures o is Ship && o != this && prodDate.Some? && (o as Ship).prodDate.Some? ==>
                r == Ok(Record() == (o as Ship).Record())
      ensures r == Ok(true) ==> o is Ship && Record() == (o as Ship).Record()
    {
      if o == this then Ok(true)
      else if !(o is Ship) then Ok(false)
      else
        var that := o as Ship;
        if id != that.id || name != that.name || planet != that.planet || shipType != that.shipType then
          Ok(false)
        else if prodDate.None? || that.prodDate.None? then
          Err(NullPointer)
        else
          Ok(prodDate.value == that.prodDate.value && isUsed == that.isUsed && speed == that.speed
             && crewSize == that.crewSize && rating == that.rating)
    }
  }
}
