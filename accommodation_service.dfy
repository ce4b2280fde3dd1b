/** AccommodationService::create: an accommodation is stored for a hotel only when the
    room type it names exists and a fixed compatibility table, keyed by room-type name,
    lists the accommodation for that room type. */
module AccommodationServices {
  import opened Common
  import opened Schema

  /** The request data `create` reads: the room type's id and the accommodation's name,
      each None when its key is absent. */
  datatype AccommodationData = AccommodationData(roomTypeId: Option<int>, accommodation: Option<string>)

  /** What `create` hands to the repository: the data with `hotel_id` set. */
  datatype AccommodationRecord = AccommodationRecord(hotelId: int, data: AccommodationData)

  /** The compatibility table written into `create`. */
  const AccommodationMap: map<string, seq<string>> := map[
    "Estándar" := ["Sencilla", "Doble"],
    "Junior" := ["Triple", "Cuádruple"],
    "Suite" := ["Sencilla", "Doble", "Triple"]]

  /** The `room_types` and `accommodations` catalogs as the seeders fill them: both tables
      are truncated first, so the ids start at 1 in seeding order. */
  const SeededRoomTypes: seq<CatalogEntry> := [
    CatalogEntry(1, "ESTANDAR"), CatalogEntry(2, "JUNIOR"), CatalogEntry(3, "SUITE")]
  const SeededAccommodations: seq<CatalogEntry> := [
    CatalogEntry(1, "SENCILLA"), CatalogEntry(2, "DOBLE"), CatalogEntry(3, "TRIPLE"), CatalogEntry(4, "CUADRUPLE")]

  /** The table `create` evidently means: the same pairs, under the names the seeders give
      the room types and the accommodations. */
  const SeededAccommodationMap: map<string, seq<string>> := map[
    "ESTANDAR" := ["SENCILLA", "DOBLE"],
    "JUNIOR" := ["TRIPLE", "CUADRUPLE"],
    "SUITE" := ["SENCILLA", "DOBLE", "TRIPLE"]]

  /** The compatibility check of `create` for the room type called `roomType`: a name that
      is not a key of the table is an undefined array key, which the framework raises as an
      exception; an accommodation the entry does not list is refused on `accommodation`. */
  function CheckCompatibility(table: map<string, seq<string>>, roomType: string, accommodation: string): (r: Option<Error>)
    ensures r.None? <==> roomType in table && accommodation in table[roomType]
    ensures r.Some? ==> r.value in {Thrown(MissingKey(roomType)), Invalid("accommodation")}
  {
    if roomType !in table then Some(Thrown(MissingKey(roomType)))
    else if accommodation !in table[roomType] then Some(Invalid("accommodation"))
    else None
  }

  /** The outcome of `create(hotelId, data)` against the `room_types` catalog and a
      compatibility table. An unknown room type throws `new ValidationException(string)`,
      whose constructor does not take a string, so the caller sees a TypeError; the
      accommodation key is read before the table is indexed. */
  function CreateResult(table: map<string, seq<string>>, roomTypes: seq<CatalogEntry>,
                        hotelId: int, data: AccommodationData): (r: Result<AccommodationRecord>)
    ensures r.Ok? <==>
      && data.roomTypeId.Some? && data.accommodation.Some?
      && FindEntry(roomTypes, data.roomTypeId.value).Some?
      && CheckCompatibility(table, FindEntry(roomTypes, data.roomTypeId.value).value.name, data.accommodation.value).None?
    ensures r.Ok? ==> r.value == AccommodationRecord(hotelId, data)
  {
    if data.roomTypeId.None? then Err(Thrown(MissingKey("room_type_id")))
    else
      match FindEntry(roomTypes, data.roomTypeId.value)
      case None => Err(Thrown(BadExceptionArgument))
      case Some(roomType) =>
        if data.accommodation.None? then Err(Thrown(MissingKey("accommodation")))
        else
          match CheckCompatibility(table, roomType.name, data.accommodation.value)
          case Some(e) => Err(e)
          case None => Ok(AccommodationRecord(hotelId, data))
  }

  /** The table written into `create` allows exactly these pairs of room-type name and
      accommodation name. */
  lemma AccommodationMapPairs(roomType: string, accommodation: string)
    ensures CheckCompatibility(AccommodationMap, roomType, accommodation).None? <==>
      (roomType, accommodation) in {
        ("Estándar", "Sencilla"), ("Estándar", "Doble"),
        ("Junior", "Triple"), ("Junior", "Cuádruple"),
        ("Suite", "Sencilla"), ("Suite", "Doble"), ("Suite", "Triple")}
  {
  }

  /** A room type that exists but whose name is not a key of the table can never get an
      accommodation: `create` fails with the undefined-key exception. */
  lemma UnlistedRoomTypeNeverAccepted(table: map<string, seq<string>>, roomTypes: seq<CatalogEntry>,
                                      hotelId: int, data: AccommodationData)
    requires data.roomTypeId.Some? && data.accommodation.Some?
    requires FindEntry(roomTypes, data.roomTypeId.value).Some?
    requires FindEntry(roomTypes, data.roomTypeId.value).value.name !in table
    ensures CreateResult(table, roomTypes, hotelId, data) == Err(Thrown(MissingKey(FindEntry(roomTypes, data.roomTypeId.value).value.name)))
  {
  }

  /** An accommodation outside the room type's entry is refused on `accommodation`. */
  lemma DisallowedAccommodationRefused(table: map<string, seq<string>>, roomTypes: seq<CatalogEntry>,
                                       hotelId: int, data: AccommodationData)
    requires data.roomTypeId.Some? && data.accommodation.Some?
    requires FindEntry(roomTypes, data.roomTypeId.value).Some?
    requires FindEntry(roomTypes, data.roomTypeId.value).value.name in table
    requires data.accommodation.value !in table[FindEntry(roomTypes, data.roomTypeId.value).value.name]
    ensures CreateResult(table, roomTypes, hotelId, data) == Err(Invalid("accommodation"))
  {
  }

  /** A room type id that is not in the catalog makes `create` throw before anything else
      is looked at. */
  lemma UnknownRoomTypeRefused(table: map<string, seq<string>>, roomTypes: seq<CatalogEntry>,
                               hotelId: int, data: AccommodationData)
    requires data.roomTypeId.Some? && !InCatalog(roomTypes, data.roomTypeId.value)
    ensures CreateResult(table, roomTypes, hotelId, data) == Err(Thrown(BadExceptionArgument))
  {
  }

  /** As written, `create` accepts nothing over the seeded room types: none of their names
      is a key of the table. */
  lemma SeededRoomTypesRefused(hotelId: int, data: AccommodationData)
    ensures CreateResult(AccommodationMap, SeededRoomTypes, hotelId, data).Err?
  {
  }

  /** The accommodation repository: what `create` has handed to it, in order. */
  class AccommodationRepository {
    var records: seq<AccommodationRecord>

    constructor ()
      ensures records == []
    {
      records := [];
    }

    method Create(record: AccommodationRecord)
      modifies this
      ensures records == old(records) + [record]
    {
      records := records + [record];
    }
  }

  class AccommodationService {
    const repository: AccommodationRepository
    const roomTypes: seq<CatalogEntry>

    constructor (repository: AccommodationRepository, roomTypes: seq<CatalogEntry>)
      ensures this.repository == repository && this.roomTypes == roomTypes
    {
      this.repository := repository;
      this.roomTypes := roomTypes;
    }

    /** `create`: looks the room type up, checks the accommodation against the table for
        that room type's name, and only then stores the data with `hotel_id` set; a
        refused call stores nothing. */
    method Create(hotelId: int, data: AccommodationData) returns (r: Result<AccommodationRecord>)
      modifies repository
      ensures r == CreateResult(AccommodationMap, roomTypes, hotelId, data)
      ensures repository.records == if r.Ok? then old(repository.records) + [r.value] else old(repository.records)
    {
      if data.roomTypeId.None? {
        return Err(Thrown(MissingKey("room_type_id")));
      }
      var roomType := FindEntry(roomTypes, data.roomTypeId.value);
      if roomType.None? {
        return Err(Thrown(BadExceptionArgument));
      }
      if data.accommodation.None? {
        return Err(Thrown(MissingKey("accommodation")));
      }
      var failure := CheckCompatibility(AccommodationMap, roomType.value.name, data.accommodation.value);
      if failure.Some? {
        return Err(failure.value);
      }
      var record := AccommodationRecord(hotelId, data);
      repository.Create(record);
      r := Ok(record);
    }
  }
}
