/** The two services that guard a hotel's capacity one row at a time:
    HotelRoomConfigurationService over `hotel_room_configurations` and HotelRoomService
    over `hotel_rooms`. Each refuses a write that would take the hotel's quantities above
    its `rooms_total`, so a table that starts within capacity stays within it. */
module CapacityServices {
  import opened Common
  import opened Schema
  import opened Store
  import opened Repositories

  /** `validateRoomsTotal`: a new total above the hotel's capacity is refused on the
      `quantity` key; any other total passes. */
  function ValidateRoomsTotal(hotel: Hotel, newTotal: int): (r: Option<Error>)
    ensures r.None? <==> newTotal <= hotel.roomsTotal
    ensures r.Some? ==> r.value == Invalid("quantity")
  {
    if newTotal > hotel.roomsTotal then Some(Invalid("quantity")) else None
  }

  class HotelRoomConfigurationService {
    const db: Database
    const hotelRepository: HotelRepository
    const roomConfigurationRepository: HotelRoomConfigurationRepository

    ghost predicate Valid()
      reads db
    {
      hotelRepository.db == db && roomConfigurationRepository.db == db && db.Valid()
    }

    constructor (hotelRepository: HotelRepository, roomConfigurationRepository: HotelRoomConfigurationRepository)
      requires hotelRepository.db == roomConfigurationRepository.db
      ensures this.db == hotelRepository.db
      ensures this.hotelRepository == hotelRepository && this.roomConfigurationRepository == roomConfigurationRepository
    {
      db := hotelRepository.db;
      this.hotelRepository := hotelRepository;
      this.roomConfigurationRepository := roomConfigurationRepository;
    }

    /** `create`: an unknown hotel is refused on `hotel_id`; a quantity that would take the
        hotel above `rooms_total` is refused on `quantity`; otherwise the row is inserted
        for that hotel, unless the schema refuses it. */
    method Create(hotelId: nat, data: ConfigData) returns (r: Result<RoomRow>)
      requires Valid()
      modifies db
      ensures Valid()
      ensures db.hotels == old(db.hotels) && db.rooms == old(db.rooms)
      ensures hotelId !in db.hotels ==> r == Err(Invalid("hotel_id"))
      ensures hotelId in db.hotels ==>
        (r == Err(Invalid("quantity")) <==> HotelSum(old(db.configs), hotelId) + data.quantity > db.hotels[hotelId].roomsTotal)
      ensures r.Ok? <==>
        && hotelId in db.hotels
        && HotelSum(old(db.configs), hotelId) + data.quantity <= db.hotels[hotelId].roomsTotal
        && WriteViolation(old(db.configs), NewRow(old(db.nextConfigId), hotelId, data), db.hotels, db.roomTypes, db.accommodations).None?
      ensures r.Ok? ==> r.value == NewRow(old(db.nextConfigId), hotelId, data) && db.configs == old(db.configs) + [r.value]
      ensures r.Err? ==> db.configs == old(db.configs)
      ensures r.Ok? ==> WithinCapacity(db.hotels, db.configs, hotelId)
      ensures forall h :: WithinCapacity(db.hotels, old(db.configs), h) ==> WithinCapacity(db.hotels, db.configs, h)
    {
      var hotel := hotelRepository.Find(hotelId);
      if hotel.None? {
        return Err(Invalid("hotel_id"));
      }
      var existingRooms := roomConfigurationRepository.GetTotalRoomQuantityByHotelId(hotelId);
      SelectSum(db.configs, hotelId, true, hotelId);
      var failure := ValidateRoomsTotal(hotel.value, existingRooms + data.quantity);
      if failure.Some? {
        return Err(failure.value);
      }
      r := roomConfigurationRepository.Create(hotelId, data);
      if r.Ok? {
        AppendKeepsCapacity(db.hotels, old(db.configs), r.value);
      }
    }

    /** `update`: null for an unknown id; otherwise the row's hotel's total with this row's
        quantity replaced by the new one must stay within `rooms_total`, or the update is
        refused on `quantity`; the stored row is then patched, unless the schema refuses it. */
    method Update(id: nat, patch: ConfigPatch) returns (r: Result<Option<RoomRow>>)
      requires Valid()
      modifies db
      ensures Valid()
      ensures db.hotels == old(db.hotels) && db.rooms == old(db.rooms)
      ensures r.Err? ==> db.configs == old(db.configs)
      ensures IndexOf(old(db.configs), id).None? ==> r == Ok(None) && db.configs == old(db.configs)
      ensures IndexOf(old(db.configs), id).Some? ==>
        var i := IndexOf(old(db.configs), id).value;
        var current := old(db.configs)[i];
        var updated := ApplyConfigPatch(current, patch);
        var newTotal := HotelSum(old(db.configs), current.hotelId) - current.quantity + updated.quantity;
        && (current.hotelId !in db.hotels ==> r == Err(Invalid("hotel_id")))
        && (current.hotelId in db.hotels && patch.quantity.None? ==> r == Err(Thrown(MissingKey("quantity"))))
        && (current.hotelId in db.hotels && patch.quantity.Some? ==>
              && (newTotal > db.hotels[current.hotelId].roomsTotal ==> r == Err(Invalid("quantity")))
              && (newTotal <= db.hotels[current.hotelId].roomsTotal ==>
                    match WriteViolation(old(db.configs), updated, db.hotels, db.roomTypes, db.accommodations)
                    case Some(v) => r == Err(Query(v))
                    case None => r == Ok(Some(updated)) && db.configs == old(db.configs)[i := updated]))
      ensures forall h :: WithinCapacity(db.hotels, old(db.configs), h) ==> WithinCapacity(db.hotels, db.configs, h)
    {
      var configuration := roomConfigurationRepository.Find(id);
      if configuration.None? {
        return Ok(None);
      }
      var current := configuration.value;
      var hotel := hotelRepository.Find(current.hotelId);
      if hotel.None? {
        return Err(Invalid("hotel_id"));
      }
      var existingRooms := roomConfigurationRepository.GetTotalRoomQuantityByHotelId(current.hotelId);
      SelectSum(db.configs, current.hotelId, true, current.hotelId);
      if patch.quantity.None? {
        return Err(Thrown(MissingKey("quantity")));
      }
      var newTotal := existingRooms - current.quantity + patch.quantity.value;
      var failure := ValidateRoomsTotal(hotel.value, newTotal);
      if failure.Some? {
        return Err(failure.value);
      }
      var i := IndexOf(db.configs, id).value;
      ghost var before := db.configs;
      var written := roomConfigurationRepository.Update(id, patch);
      if written.Err? {
        return Err(written.error);
      }
      ReplaceKeepsCapacity(db.hotels, before, i, ApplyConfigPatch(current, patch));
      IndexOfPosition(db.configs, i);
      r := Ok(roomConfigurationRepository.Find(id));
    }

    /** `delete`: false for an unknown id; otherwise the row is removed. */
    method Delete(id: nat) returns (deleted: bool)
      requires Valid()
      modifies db
      ensures Valid()
      ensures db.hotels == old(db.hotels) && db.rooms == old(db.rooms)
      ensures deleted <==> IndexOf(old(db.configs), id).Some?
      ensures !deleted ==> db.configs == old(db.configs)
      ensures deleted ==>
        var i := IndexOf(old(db.configs), id).value;
        db.configs == old(db.configs)[..i] + old(db.configs)[i + 1..]
      ensures forall h :: WithinCapacity(db.hotels, old(db.configs), h) ==> WithinCapacity(db.hotels, db.configs, h)
    {
      deleted := roomConfigurationRepository.Delete(id);
      if deleted {
        RemoveKeepsCapacity(db.hotels, old(db.configs), IndexOf(old(db.configs), id).value);
      }
    }
  }

  class HotelRoomService {
    const db: Database
    const hotelRepository: HotelRepository
    const repository: HotelRoomRepository

    ghost predicate Valid()
      reads db
    {
      hotelRepository.db == db && repository.db == db && db.Valid()
    }

    constructor (hotelRepository: HotelRepository, repository: HotelRoomRepository)
      requires hotelRepository.db == repository.db
      ensures this.db == hotelRepository.db
      ensures this.hotelRepository == hotelRepository && this.repository == repository
    {
      db := hotelRepository.db;
      this.hotelRepository := hotelRepository;
      this.repository := repository;
    }

    /** `find`: the row with this id, or null. */
    function Find(id: nat): (r: Option<RoomRow>)
      reads db
      requires Valid()
      ensures r.Some? ==> r.value in db.rooms && r.value.id == id
      ensures r.None? <==> forall x | x in db.rooms :: x.id != id
    {
      repository.Find(id)
    }

    /** `create`: an unknown hotel throws (the exception is built from a plain string, which
        PHP rejects with a TypeError); a quantity that would take the hotel above
        `rooms_total` is refused on `quantity`; otherwise the row is inserted for that
        hotel, unless the schema refuses it. */
    method Create(hotelId: nat, data: ConfigData) returns (r: Result<RoomRow>)
      requires Valid()
      modifies db
      ensures Valid()
      ensures db.hotels == old(db.hotels) && db.configs == old(db.configs)
      ensures hotelId !in db.hotels ==> r == Err(Thrown(BadExceptionArgument))
      ensures hotelId in db.hotels ==>
        (r == Err(Invalid("quantity")) <==> HotelSum(old(db.rooms), hotelId) + data.quantity > db.hotels[hotelId].roomsTotal)
      ensures r.Ok? <==>
        && hotelId in db.hotels
        && HotelSum(old(db.rooms), hotelId) + data.quantity <= db.hotels[hotelId].roomsTotal
        && WriteViolation(old(db.rooms), NewRow(old(db.nextRoomId), hotelId, data), db.hotels, db.roomTypes, db.accommodations).None?
      ensures r.Ok? ==> r.value == NewRow(old(db.nextRoomId), hotelId, data) && db.rooms == old(db.rooms) + [r.value]
      ensures r.Err? ==> db.rooms == old(db.rooms)
      ensures r.Ok? ==> WithinCapacity(db.hotels, db.rooms, hotelId)
      ensures forall h :: WithinCapacity(db.hotels, old(db.rooms), h) ==> WithinCapacity(db.hotels, db.rooms, h)
    {
      var hotel := hotelRepository.Find(hotelId);
      if hotel.None? {
        return Err(Thrown(BadExceptionArgument));
      }
      var existingRooms := repository.CountByHotelId(hotelId);
      SelectSum(db.rooms, hotelId, true, hotelId);
      if existingRooms + data.quantity > hotel.value.roomsTotal {
        return Err(Invalid("quantity"));
      }
      r := repository.Create(hotelId, data);
      if r.Ok? {
        AppendKeepsCapacity(db.hotels, old(db.rooms), r.value);
      }
    }
  }
}
