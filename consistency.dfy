/** The back end's accommodation rules set beside the front end's `ROOM_TYPES`: written
    under the names the seeders give the catalogs, the compatibility table of
    AccommodationService::create allows exactly the pairs the editor allows. */
module Consistency {
  import opened Common
  import opened Schema
  import opened AccommodationServices
  import HotelForm

  /** The editor offers exactly the seeded room types, with the same ids and names. */
  lemma FormRoomTypesAreSeeded(id: int)
    ensures HotelForm.FindRoomType(HotelForm.RoomTypes, id).Some? <==> InCatalog(SeededRoomTypes, id)
    ensures HotelForm.FindRoomType(HotelForm.RoomTypes, id).Some? ==>
      HotelForm.FindRoomType(HotelForm.RoomTypes, id).value.name == FindEntry(SeededRoomTypes, id).value.name
  {
    assert InCatalog(SeededRoomTypes, id) <==> id in {1, 2, 3} by {
      assert SeededRoomTypes[0].id == 1 && SeededRoomTypes[1].id == 2 && SeededRoomTypes[2].id == 3;
    }
  }

  /** The seeded room type with a given id, by name. */
  lemma SeededRoomTypeName(id: int)
    requires InCatalog(SeededRoomTypes, id)
    ensures 1 <= id <= 3
    ensures FindEntry(SeededRoomTypes, id).value.name == ["ESTANDAR", "JUNIOR", "SUITE"][id - 1]
  {
    var e := FindEntry(SeededRoomTypes, id).value;
    assert e in SeededRoomTypes;
  }

  /** The seeded accommodation with a given id, by name. */
  lemma SeededAccommodationName(id: int)
    requires InCatalog(SeededAccommodations, id)
    ensures 1 <= id <= 4
    ensures FindEntry(SeededAccommodations, id).value.name == ["SENCILLA", "DOBLE", "TRIPLE", "CUADRUPLE"][id - 1]
  {
    var e := FindEntry(SeededAccommodations, id).value;
    assert e in SeededAccommodations;
  }

  /** The seeded table and `ROOM_TYPES`, for the room type at position `i` and the
      accommodation at position `j` of the seeding order. */
  lemma ListedMatchesAllowed(i: nat, j: nat)
    requires i < 3 && j < 4
    ensures var roomType := ["ESTANDAR", "JUNIOR", "SUITE"][i];
      roomType in SeededAccommodationMap
      && (["SENCILLA", "DOBLE", "TRIPLE", "CUADRUPLE"][j] in SeededAccommodationMap[roomType]
          <==> j + 1 in HotelForm.RoomTypes[i].allowed)
  {
    var names := ["SENCILLA", "DOBLE", "TRIPLE", "CUADRUPLE"];
    // The four names differ in length, hence from one another.
    assert |names[0]| == 8 && |names[1]| == 5 && |names[2]| == 6 && |names[3]| == 9;
    if i == 0 {
      assert SeededAccommodationMap["ESTANDAR"] == [names[0], names[1]];
    } else if i == 1 {
      assert SeededAccommodationMap["JUNIOR"] == [names[2], names[3]];
    } else {
      assert SeededAccommodationMap["SUITE"] == [names[0], names[1], names[2]];
    }
  }

  /** For a seeded room type and a seeded accommodation, the table keyed by the seeded
      names accepts the pair exactly when the editor's room type lists the accommodation's
      id. */
  lemma SeededTableMatchesForm(roomTypeId: int, accommodationId: int)
    requires InCatalog(SeededRoomTypes, roomTypeId) && InCatalog(SeededAccommodations, accommodationId)
    ensures CheckCompatibility(SeededAccommodationMap,
              FindEntry(SeededRoomTypes, roomTypeId).value.name,
              FindEntry(SeededAccommodations, accommodationId).value.name).None?
            <==>
            HotelForm.FindRoomType(HotelForm.RoomTypes, roomTypeId).Some?
            && accommodationId in HotelForm.FindRoomType(HotelForm.RoomTypes, roomTypeId).value.allowed
  {
    FormRoomTypesAreSeeded(roomTypeId);
    SeededRoomTypeName(roomTypeId);
    SeededAccommodationName(accommodationId);
    ListedMatchesAllowed(roomTypeId - 1, accommodationId - 1);
    var option := HotelForm.FindRoomType(HotelForm.RoomTypes, roomTypeId).value;
    assert option == HotelForm.RoomTypes[roomTypeId - 1];
  }

  /** With the table so keyed, `create` stores a seeded pair exactly when the editor would
      accept it. */
  lemma SeededCreateMatchesForm(hotelId: int, roomTypeId: int, accommodationId: int)
    requires InCatalog(SeededRoomTypes, roomTypeId) && InCatalog(SeededAccommodations, accommodationId)
    ensures var data := AccommodationData(Some(roomTypeId), Some(FindEntry(SeededAccommodations, accommodationId).value.name));
      CreateResult(SeededAccommodationMap, SeededRoomTypes, hotelId, data).Ok?
      <==>
      accommodationId in HotelForm.FindRoomType(HotelForm.RoomTypes, roomTypeId).value.allowed
  {
    SeededTableMatchesForm(roomTypeId, accommodationId);
    FormRoomTypesAreSeeded(roomTypeId);
  }
}
