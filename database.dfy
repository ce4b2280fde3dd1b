/** The database state the core works on: the hotels, the two room tables with their
    auto-increment counters, and the read-only room-type and accommodation catalogs. */
module Store {
  import opened Common
  import opened Schema

  ghost predicate StateValid(hotels: map<nat, Hotel>, nextHotelId: nat, configs: seq<RoomRow>, nextConfigId: nat,
                             rooms: seq<RoomRow>, nextRoomId: nat,
                             roomTypes: seq<CatalogEntry>, accommodations: seq<CatalogEntry>) {
    && 0 < nextHotelId
    && (forall h | h in hotels :: 0 < h < nextHotelId)
    && TableValid(configs, nextConfigId, hotels, roomTypes, accommodations)
    && TableValid(rooms, nextRoomId, hotels, roomTypes, accommodations)
  }

  /** A rolled-back transaction restores a valid state; the counters it advanced stay advanced. */
  lemma RollbackValid(hotels: map<nat, Hotel>, nextHotelId: nat, configs: seq<RoomRow>, nextConfigId: nat,
                      rooms: seq<RoomRow>, nextRoomId: nat,
                      roomTypes: seq<CatalogEntry>, accommodations: seq<CatalogEntry>,
                      nextHotelId': nat, nextConfigId': nat, nextRoomId': nat)
    requires StateValid(hotels, nextHotelId, configs, nextConfigId, rooms, nextRoomId, roomTypes, accommodations)
    requires nextHotelId <= nextHotelId' && nextConfigId <= nextConfigId' && nextRoomId <= nextRoomId'
    ensures StateValid(hotels, nextHotelId', configs, nextConfigId', rooms, nextRoomId', roomTypes, accommodations)
  {
  }

  class Database {
    var hotels: map<nat, Hotel>
    var nextHotelId: nat
    var configs: seq<RoomRow>    // hotel_room_configurations
    var nextConfigId: nat
    var rooms: seq<RoomRow>      // hotel_rooms
    var nextRoomId: nat
    const roomTypes: seq<CatalogEntry>
    const accommodations: seq<CatalogEntry>

    /** The constraints the schema enforces on every committed state. */
    ghost predicate Valid()
      reads this
    {
      StateValid(hotels, nextHotelId, configs, nextConfigId, rooms, nextRoomId, roomTypes, accommodations)
    }

    /** A freshly migrated database over the given catalogs. */
    constructor (roomTypes: seq<CatalogEntry>, accommodations: seq<CatalogEntry>)
      ensures Valid()
      ensures hotels == map[] && configs == [] && rooms == []
      ensures this.roomTypes == roomTypes && this.accommodations == accommodations
    {
      hotels := map[];
      nextHotelId := 1;
      configs := [];
      nextConfigId := 1;
      rooms := [];
      nextRoomId := 1;
      this.roomTypes := roomTypes;
      this.accommodations := accommodations;
    }
  }
}
