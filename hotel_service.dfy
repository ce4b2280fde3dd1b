/** HotelService: creates a hotel together with its room configurations, replaces a
    hotel's configurations on update, and deletes hotels. Both writes run inside a
    database transaction: if any configuration row fails, neither the hotel change nor
    any row of the batch remains. The auto-increment counters are not rolled back, as
    in InnoDB.

    Each write loop is proved against `InsertAll`, the pure description of what a batch
    of inserts adds to a table or which error stops it. */
module HotelServices {
  import opened Common
  import opened Schema
  import opened Store
  import opened Repositories

  /** A `room_configurations` entry as `create` reads it: a room-type name, an
      accommodation name (None when the key is absent or null) and a quantity. */
  datatype NamedEntry = NamedEntry(roomType: string, accommodation: Option<string>, quantity: nat)

  /** How `create` turns one entry into the columns of a row: the accommodation key must be
      set, and both names must match a catalog entry exactly. */
  function Resolve(e: NamedEntry, roomTypes: seq<CatalogEntry>, accommodations: seq<CatalogEntry>): (r: Result<ConfigData>)
    ensures r.Ok? <==>
      && e.accommodation.Some?
      && (exists k | 0 <= k < |roomTypes| :: roomTypes[k].name == e.roomType)
      && (exists k | 0 <= k < |accommodations| :: accommodations[k].name == e.accommodation.value)
    ensures r.Ok? ==>
      && CatalogEntry(r.value.roomTypeId, e.roomType) in roomTypes
      && CatalogEntry(r.value.accommodationId, e.accommodation.value) in accommodations
      && r.value.quantity == e.quantity
  {
    if e.accommodation.None? then Err(Thrown(MissingKey("accommodation")))
    else
      var roomType := FirstByName(roomTypes, e.roomType);
      var accommodation := FirstByName(accommodations, e.accommodation.value);
      if roomType.None? then Err(Thrown(RoomTypeNotFound(e.roomType)))
      else if accommodation.None? then Err(Thrown(AccommodationNotFound(e.accommodation.value)))
      else Ok(ConfigData(roomType.value, accommodation.value, e.quantity))
  }

  function ResolveAll(entries: seq<NamedEntry>, roomTypes: seq<CatalogEntry>, accommodations: seq<CatalogEntry>): (r: seq<Result<ConfigData>>)
    ensures |r| == |entries|
    ensures forall k | 0 <= k < |entries| :: r[k] == Resolve(entries[k], roomTypes, accommodations)
  {
    if entries == [] then [] else [Resolve(entries[0], roomTypes, accommodations)] + ResolveAll(entries[1..], roomTypes, accommodations)
  }

  function AsItems(list: seq<ConfigData>): (r: seq<Result<ConfigData>>)
    ensures |r| == |list| && forall k | 0 <= k < |list| :: r[k] == Ok(list[k])
  {
    if list == [] then [] else [Ok(list[0])] + AsItems(list[1..])
  }

  /** What inserting one item for hotel `hotelId` under id `nextId` does to `rows`: an item
      that is itself an error stops there, so does a row the schema refuses; otherwise the
      new row. */
  function Attempt(item: Result<ConfigData>, rows: seq<RoomRow>, hotels: map<nat, Hotel>,
                   roomTypes: seq<CatalogEntry>, accommodations: seq<CatalogEntry>,
                   hotelId: nat, nextId: nat): (r: Result<RoomRow>)
    ensures r.Ok? <==> item.Ok? && WriteViolation(rows, NewRow(nextId, hotelId, item.value), hotels, roomTypes, accommodations).None?
    ensures r.Ok? ==> r.value == NewRow(nextId, hotelId, item.value) && r.value.hotelId == hotelId
  {
    if item.Err? then Err(item.error)
    else
      var row := NewRow(nextId, hotelId, item.value);
      match WriteViolation(rows, row, hotels, roomTypes, accommodations)
      case Some(v) => Err(Query(v))
      case None => Ok(row)
  }

  /** The rows that inserting `items` one after the other for hotel `hotelId` adds to
      `rows`, numbered from `nextId`; or the first error: an item that is itself an error,
      or a row the schema refuses. */
  function InsertAll(items: seq<Result<ConfigData>>, rows: seq<RoomRow>, hotels: map<nat, Hotel>,
                     roomTypes: seq<CatalogEntry>, accommodations: seq<CatalogEntry>,
                     hotelId: nat, nextId: nat): (r: Result<seq<RoomRow>>)
    ensures r.Ok? ==> |r.value| == |items|
    ensures (exists k | 0 <= k < |items| :: items[k].Err?) ==> r.Err?
    decreases |items|
  {
    if items == [] then Ok([])
    else
      assert forall k | 1 <= k < |items| :: items[1..][k - 1] == items[k];
      match Attempt(items[0], rows, hotels, roomTypes, accommodations, hotelId, nextId)
      case Err(e) => Err(e)
      case Ok(row) => Prepend([row], InsertAll(items[1..], rows + [row], hotels, roomTypes, accommodations, hotelId, nextId + 1))
  }

  function Prepend(done: seq<RoomRow>, r: Result<seq<RoomRow>>): Result<seq<RoomRow>> {
    if r.Ok? then Ok(done + r.value) else r
  }

  /** A successful batch holds one row per item, in order, numbered from `nextId` and
      owned by `hotelId`, and every item was resolved. */
  lemma {:induction false} InsertAllRows(items: seq<Result<ConfigData>>, rows: seq<RoomRow>, hotels: map<nat, Hotel>,
                                         roomTypes: seq<CatalogEntry>, accommodations: seq<CatalogEntry>,
                                         hotelId: nat, nextId: nat)
    requires InsertAll(items, rows, hotels, roomTypes, accommodations, hotelId, nextId).Ok?
    ensures var r := InsertAll(items, rows, hotels, roomTypes, accommodations, hotelId, nextId).value;
      && |r| == |items|
      && forall k | 0 <= k < |items| :: items[k].Ok? && r[k] == NewRow(nextId + k, hotelId, items[k].value)
    decreases |items|
  {
    if items != [] {
      var row := NewRow(nextId, hotelId, items[0].value);
      InsertAllRows(items[1..], rows + [row], hotels, roomTypes, accommodations, hotelId, nextId + 1);
    }
  }

  /** A successful batch for a hotel that owned no row of `rows` becomes exactly that
      hotel's rows, and the hotel's total is the batch's total. */
  lemma BatchOwnsHotel(items: seq<Result<ConfigData>>, rows: seq<RoomRow>, hotels: map<nat, Hotel>,
                       roomTypes: seq<CatalogEntry>, accommodations: seq<CatalogEntry>,
                       hotelId: nat, nextId: nat)
    requires forall x | x in rows :: x.hotelId != hotelId
    requires InsertAll(items, rows, hotels, roomTypes, accommodations, hotelId, nextId).Ok?
    ensures var added := InsertAll(items, rows, hotels, roomTypes, accommodations, hotelId, nextId).value;
      && Select(rows + added, hotelId, true) == added
      && HotelSum(rows + added, hotelId) == HotelSum(added, hotelId)
  {
    var added := InsertAll(items, rows, hotels, roomTypes, accommodations, hotelId, nextId).value;
    InsertAllRows(items, rows, hotels, roomTypes, accommodations, hotelId, nextId);
    HotelSumConcat(rows, added, hotelId);
    HotelSumNone(rows, hotelId);
    SelectConcat(rows, added, hotelId, true);
    SelectUniform(rows, hotelId, false);
    SelectUniform(added, hotelId, true);
  }

  /** The total of the quantities the entries ask for. */
  function EntriesSum(entries: seq<NamedEntry>): nat {
    if entries == [] then 0 else entries[0].quantity + EntriesSum(entries[1..])
  }

  /** A successful `create` batch adds exactly the quantities of its entries to the hotel. */
  lemma {:induction false} InsertAllSum(entries: seq<NamedEntry>, rows: seq<RoomRow>, hotels: map<nat, Hotel>,
                                        roomTypes: seq<CatalogEntry>, accommodations: seq<CatalogEntry>,
                                        hotelId: nat, nextId: nat)
    requires InsertAll(ResolveAll(entries, roomTypes, accommodations), rows, hotels, roomTypes, accommodations, hotelId, nextId).Ok?
    ensures HotelSum(InsertAll(ResolveAll(entries, roomTypes, accommodations), rows, hotels, roomTypes, accommodations, hotelId, nextId).value, hotelId)
            == EntriesSum(entries)
    decreases |entries|
  {
    if entries != [] {
      var items := ResolveAll(entries, roomTypes, accommodations);
      var row := NewRow(nextId, hotelId, items[0].value);
      assert items[1..] == ResolveAll(entries[1..], roomTypes, accommodations);
      InsertAllSum(entries[1..], rows + [row], hotels, roomTypes, accommodations, hotelId, nextId + 1);
      var rest := InsertAll(items[1..], rows + [row], hotels, roomTypes, accommodations, hotelId, nextId + 1).value;
      assert ([row] + rest)[1..] == rest;
    }
  }

  /** Whether a batch succeeds does not depend on the hotel's `rooms_total`: neither
      `create` nor `update` compares the batch with the hotel's capacity. */
  lemma {:induction false} InsertAllIgnoresCapacity(items: seq<Result<ConfigData>>, rows: seq<RoomRow>, hotels: map<nat, Hotel>,
                                                    roomTypes: seq<CatalogEntry>, accommodations: seq<CatalogEntry>,
                                                    hotelId: nat, nextId: nat, roomsTotal: nat)
    requires hotelId in hotels
    ensures InsertAll(items, rows, hotels, roomTypes, accommodations, hotelId, nextId)
         == InsertAll(items, rows, hotels[hotelId := hotels[hotelId].(roomsTotal := roomsTotal)], roomTypes, accommodations, hotelId, nextId)
    decreases |items|
  {
    if items != [] && items[0].Ok? {
      var row := NewRow(nextId, hotelId, items[0].value);
      InsertAllIgnoresCapacity(items[1..], rows + [row], hotels, roomTypes, accommodations, hotelId, nextId + 1, roomsTotal);
    }
  }

  /** One step of a batch: an item whose attempt succeeds moves from the batch to the rows
      done, and the batch goes on from the table with that row added. */
  lemma InsertAllStep(plan: Result<seq<RoomRow>>, items: seq<Result<ConfigData>>, i: nat, rows: seq<RoomRow>, hotels: map<nat, Hotel>,
                      roomTypes: seq<CatalogEntry>, accommodations: seq<CatalogEntry>,
                      hotelId: nat, nextId: nat, done: seq<RoomRow>, row: RoomRow)
    requires i < |items| && Attempt(items[i], rows, hotels, roomTypes, accommodations, hotelId, nextId) == Ok(row)
    requires plan == Prepend(done, InsertAll(items[i..], rows, hotels, roomTypes, accommodations, hotelId, nextId))
    ensures plan == Prepend(done + [row], InsertAll(items[i + 1..], rows + [row], hotels, roomTypes, accommodations, hotelId, nextId + 1))
  {
    assert items[i..][0] == items[i] && items[i..][1..] == items[i + 1..];
    var rest := InsertAll(items[i + 1..], rows + [row], hotels, roomTypes, accommodations, hotelId, nextId + 1);
    if rest.Ok? {
      assert done + ([row] + rest.value) == (done + [row]) + rest.value;
    }
  }

  /** A step that stops a batch: an item whose attempt fails makes that failure the
      batch's error, whatever was done before it. */
  lemma InsertAllStops(plan: Result<seq<RoomRow>>, items: seq<Result<ConfigData>>, i: nat, rows: seq<RoomRow>, hotels: map<nat, Hotel>,
                       roomTypes: seq<CatalogEntry>, accommodations: seq<CatalogEntry>,
                       hotelId: nat, nextId: nat, done: seq<RoomRow>)
    requires i < |items| && Attempt(items[i], rows, hotels, roomTypes, accommodations, hotelId, nextId).Err?
    requires plan == Prepend(done, InsertAll(items[i..], rows, hotels, roomTypes, accommodations, hotelId, nextId))
    ensures plan == Err(Attempt(items[i], rows, hotels, roomTypes, accommodations, hotelId, nextId).error)
  {
    assert items[i..][0] == items[i];
  }

  /** One step of a batch, whichever way the item's attempt goes. */
  lemma InsertAllAdvance(plan: Result<seq<RoomRow>>, items: seq<Result<ConfigData>>, i: nat, rows: seq<RoomRow>, hotels: map<nat, Hotel>,
                         roomTypes: seq<CatalogEntry>, accommodations: seq<CatalogEntry>,
                         hotelId: nat, nextId: nat, start: seq<RoomRow>, done: seq<RoomRow>, r: Result<RoomRow>)
    requires i < |items| && r == Attempt(items[i], rows, hotels, roomTypes, accommodations, hotelId, nextId)
    requires plan == Prepend(done, InsertAll(items[i..], rows, hotels, roomTypes, accommodations, hotelId, nextId))
    ensures r.Err? ==> plan == Err(r.error)
    ensures r.Ok? ==> plan == Prepend(done + [r.value], InsertAll(items[i + 1..], rows + [r.value], hotels, roomTypes, accommodations, hotelId, nextId + 1))
    ensures r.Ok? ==> (start + done) + [r.value] == start + (done + [r.value])
  {
    if r.Err? {
      InsertAllStops(plan, items, i, rows, hotels, roomTypes, accommodations, hotelId, nextId, done);
    } else {
      InsertAllStep(plan, items, i, rows, hotels, roomTypes, accommodations, hotelId, nextId, done, r.value);
    }
  }

  /** A batch with nothing left to insert returns the rows done. */
  lemma InsertAllDone(plan: Result<seq<RoomRow>>, items: seq<Result<ConfigData>>, i: nat, rows: seq<RoomRow>, hotels: map<nat, Hotel>,
                      roomTypes: seq<CatalogEntry>, accommodations: seq<CatalogEntry>,
                      hotelId: nat, nextId: nat, done: seq<RoomRow>)
    requires i == |items|
    requires plan == Prepend(done, InsertAll(items[i..], rows, hotels, roomTypes, accommodations, hotelId, nextId))
    ensures plan == Ok(done)
  {
    assert items[i..] == [] && done + [] == done;
  }

  class HotelService {
    const db: Database
    const hotelRepository: HotelRepository
    const roomConfigurationRepository: HotelRoomConfigurationRepository

    ghost predicate Valid()
      reads db
    {
      hotelRepository.db == db && roomConfigurationRepository.db == db && db.Valid()
    }

    constructor (hotelRepository: HotelRepository, roomConfigurationRepository: HotelRoomConfigurationRepository)
      requires hotelRepository.db == roomConfigurationRepository.db
      ensures this.db == hotelRepository.db
      ensures this.hotelRepository == hotelRepository && this.roomConfigurationRepository == roomConfigurationRepository
    {
      db := hotelRepository.db;
      this.hotelRepository := hotelRepository;
      this.roomConfigurationRepository := roomConfigurationRepository;
    }

    /** `create`: inside a transaction, inserts the hotel and then one configuration row
        per entry, in order; the first entry that fails undoes the whole transaction. On
        success the hotel's rows are exactly the batch, and they add up to the entries'
        quantities. */
    method Create(data: Hotel, entries: seq<NamedEntry>) returns (r: Result<nat>)
      requires Valid()
      modifies db
      ensures Valid()
      ensures db.rooms == old(db.rooms)
      ensures var id := old(db.nextHotelId);
        var plan := InsertAll(ResolveAll(entries, db.roomTypes, db.accommodations), old(db.configs),
                              old(db.hotels)[id := data], db.roomTypes, db.accommodations, id, old(db.nextConfigId));
        && (r.Ok? <==> plan.Ok?)
        && (r.Ok? ==> r.value == id && db.hotels == old(db.hotels)[id := data] && db.configs == old(db.configs) + plan.value)
        && (r.Ok? ==> Select(db.configs, id, true) == plan.value)
        && (r.Err? ==> r.error == plan.error && db.hotels == old(db.hotels) && db.configs == old(db.configs))
      ensures r.Ok? ==> HotelSum(db.configs, r.value) == EntriesSum(entries)
    {
      var savedHotels, savedConfigs := db.hotels, db.configs;
      r := CreateWithConfigurations(data, entries);
      if r.Err? {
        RollbackValid(savedHotels, old(db.nextHotelId), savedConfigs, old(db.nextConfigId), db.rooms, db.nextRoomId,
                      db.roomTypes, db.accommodations, db.nextHotelId, db.nextConfigId, db.nextRoomId);
        db.hotels, db.configs := savedHotels, savedConfigs;
        return;
      }
      var id := r.value;
      forall x | x in savedConfigs ensures x.hotelId != id {
      }
      BatchOwnsHotel(ResolveAll(entries, db.roomTypes, db.accommodations), savedConfigs, db.hotels, db.roomTypes, db.accommodations, id, old(db.nextConfigId));
      InsertAllSum(entries, savedConfigs, db.hotels, db.roomTypes, db.accommodations, id, old(db.nextConfigId));
    }

    /** The body of `create`'s transaction: it stops at the first failing entry and leaves
        what it wrote so far for the transaction to undo. */
    method CreateWithConfigurations(data: Hotel, entries: seq<NamedEntry>) returns (r: Result<nat>)
      requires Valid()
      modifies db
      ensures Valid()
      ensures db.rooms == old(db.rooms)
      ensures db.nextHotelId >= old(db.nextHotelId) && db.nextConfigId >= old(db.nextConfigId) && db.nextRoomId == old(db.nextRoomId)
      ensures var id := old(db.nextHotelId);
        var plan := InsertAll(ResolveAll(entries, db.roomTypes, db.accommodations), old(db.configs),
                              old(db.hotels)[id := data], db.roomTypes, db.accommodations, id, old(db.nextConfigId));
        && (r.Ok? <==> plan.Ok?)
        && (r.Ok? ==> r.value == id && db.hotels == old(db.hotels)[id := data] && db.configs == old(db.configs) + plan.value)
        && (r.Err? ==> r.error == plan.error)
    {
      var hotel := hotelRepository.Create(data);
      var created := CreateConfigurations(hotel, entries);
      if created.Err? {
        return Err(created.error);
      }
      r := Ok(hotel);
    }

    /** One iteration of `create`'s loop: the lookups for the entry, in the order `create`
        makes them, then the insert of its row; it advances the batch `plan` by one step. */
    method CreateEntry(hotelId: nat, entries: seq<NamedEntry>, i: nat, ghost plan: Result<seq<RoomRow>>,
                       ghost start: seq<RoomRow>, ghost done: seq<RoomRow>) returns (r: Result<RoomRow>)
      requires db.Valid() && roomConfigurationRepository.db == db && i < |entries|
      requires db.configs == start + done
      requires plan == Prepend(done, InsertAll(ResolveAll(entries, db.roomTypes, db.accommodations)[i..], db.configs, db.hotels,
                                               db.roomTypes, db.accommodations, hotelId, db.nextConfigId))
      modifies db`configs, db`nextConfigId
      ensures db.Valid()
      ensures db.nextConfigId >= old(db.nextConfigId)
      ensures r.Err? ==> plan == Err(r.error)
      ensures r.Ok? ==>
        && db.configs == start + (done + [r.value]) && db.nextConfigId == old(db.nextConfigId) + 1
        && plan == Prepend(done + [r.value], InsertAll(ResolveAll(entries, db.roomTypes, db.accommodations)[i + 1..], db.configs, db.hotels,
                                                       db.roomTypes, db.accommodations, hotelId, db.nextConfigId))
    {
      ghost var items := ResolveAll(entries, db.roomTypes, db.accommodations);
      ghost var rows, nextId := db.configs, db.nextConfigId;
      var config := entries[i];
      if config.accommodation.None? {
        r := Err(Thrown(MissingKey("accommodation")));
      } else {
        var roomType := FirstByName(db.roomTypes, config.roomType);
        var accommodation := FirstByName(db.accommodations, config.accommodation.value);
        if roomType.None? {
          r := Err(Thrown(RoomTypeNotFound(config.roomType)));
        } else if accommodation.None? {
          r := Err(Thrown(AccommodationNotFound(config.accommodation.value)));
        } else {
          r := roomConfigurationRepository.Create(hotelId, ConfigData(roomType.value, accommodation.value, config.quantity));
        }
      }
      InsertAllAdvance(plan, items, i, rows, db.hotels, db.roomTypes, db.accommodations, hotelId, nextId, start, done, r);
    }

    /** The loop of `create`'s transaction: one `CreateEntry` per entry, in order, stopping
        at the first that fails. */
    method CreateConfigurations(hotelId: nat, entries: seq<NamedEntry>) returns (r: Result<seq<RoomRow>>)
      requires db.Valid() && roomConfigurationRepository.db == db
      modifies db`configs, db`nextConfigId
      ensures db.Valid()
      ensures db.nextConfigId >= old(db.nextConfigId)
      ensures r == InsertAll(ResolveAll(entries, db.roomTypes, db.accommodations), old(db.configs), db.hotels,
                             db.roomTypes, db.accommodations, hotelId, old(db.nextConfigId))
      ensures r.Ok? ==> db.configs == old(db.configs) + r.value
    {
      ghost var items := ResolveAll(entries, db.roomTypes, db.accommodations);
      ghost var start := db.configs;
      ghost var plan := InsertAll(items, start, db.hotels, db.roomTypes, db.accommodations, hotelId, db.nextConfigId);
      var done: seq<RoomRow> := [];
      assert items[0..] == items && start + done == start;
      assert plan.Ok? ==> done + plan.value == plan.value;
      var i := 0;
      while i < |entries|
        invariant 0 <= i <= |entries|
        invariant db.Valid()
        invariant db.hotels == old(db.hotels)
        invariant db.nextConfigId >= old(db.nextConfigId)
        invariant db.configs == start + done
        invariant plan == Prepend(done, InsertAll(items[i..], db.configs, db.hotels, db.roomTypes, db.accommodations, hotelId, db.nextConfigId))
      {
        var created := CreateEntry(hotelId, entries, i, plan, start, done);
        if created.Err? {
          return Err(created.error);
        }
        done := done + [created.value];
        i := i + 1;
      }
      InsertAllDone(plan, items, i, db.configs, db.hotels, db.roomTypes, db.accommodations, hotelId, db.nextConfigId, done);
      r := Ok(done);
    }

    /** `update`: null for an unknown hotel. Otherwise, inside a transaction, the hotel's
        columns are patched and, when a replacement list is given, all of the hotel's
        configuration rows are deleted and one row per list entry is inserted, in order;
        the first entry the schema refuses undoes the whole transaction. On success the
        hotel's rows are exactly the list. */
    method Update(id: nat, patch: HotelPatch, replacement: Option<seq<ConfigData>>) returns (r: Result<Option<Hotel>>)
      requires Valid()
      modifies db
      ensures Valid()
      ensures db.rooms == old(db.rooms)
      ensures id !in old(db.hotels) ==> r == Ok(None) && db.hotels == old(db.hotels) && db.configs == old(db.configs)
      ensures id in old(db.hotels) && replacement.None? ==>
        && r == Ok(Some(ApplyHotelPatch(old(db.hotels)[id], patch)))
        && db.hotels == old(db.hotels)[id := r.value.value]
        && db.configs == old(db.configs)
      ensures id in old(db.hotels) && replacement.Some? ==>
        var hotel := ApplyHotelPatch(old(db.hotels)[id], patch);
        var kept := Select(old(db.configs), id, false);
        var plan := InsertAll(AsItems(replacement.value), kept, old(db.hotels)[id := hotel],
                              db.roomTypes, db.accommodations, id, old(db.nextConfigId));
        && (r.Ok? <==> plan.Ok?)
        && (r.Ok? ==> r == Ok(Some(hotel)) && db.hotels == old(db.hotels)[id := hotel] && db.configs == kept + plan.value)
        && (r.Ok? ==> Select(db.configs, id, true) == plan.value)
        && (r.Err? ==> r.error == plan.error && db.hotels == old(db.hotels) && db.configs == old(db.configs))
    {
      var found := hotelRepository.Find(id);
      if found.None? {
        return Ok(None);
      }
      var savedHotels, savedConfigs := db.hotels, db.configs;
      var updated := hotelRepository.Update(id, patch);
      if replacement.None? {
        return Ok(updated);
      }
      var replaced := ReplaceConfigurations(id, replacement.value);
      if replaced.Err? {
        RollbackValid(savedHotels, old(db.nextHotelId), savedConfigs, old(db.nextConfigId), db.rooms, db.nextRoomId,
                      db.roomTypes, db.accommodations, db.nextHotelId, db.nextConfigId, db.nextRoomId);
        db.hotels, db.configs := savedHotels, savedConfigs;
        return Err(replaced.error);
      }
      BatchOwnsHotel(AsItems(replacement.value), Select(savedConfigs, id, false), db.hotels, db.roomTypes, db.accommodations, id, old(db.nextConfigId));
      r := Ok(updated);
    }

    /** The replacing part of `update`'s transaction: deletes the hotel's rows, then inserts
        one row per list entry, stopping at the first the schema refuses. */
    method ReplaceConfigurations(id: nat, list: seq<ConfigData>) returns (r: Result<seq<RoomRow>>)
      requires Valid() && id in db.hotels
      modifies db`configs, db`nextConfigId
      ensures Valid()
      ensures db.nextConfigId >= old(db.nextConfigId)
      ensures var plan := InsertAll(AsItems(list), Select(old(db.configs), id, false), db.hotels,
                                    db.roomTypes, db.accommodations, id, old(db.nextConfigId));
        && r == plan
        && (r.Ok? ==> db.configs == Select(old(db.configs), id, false) + r.value)
    {
      var deleted := roomConfigurationRepository.DeleteByHotelId(id);
      r := InsertBatch(id, list);
    }

    /** One iteration of `update`'s loop: the insert of the entry's row; it advances the
        batch `plan` by one step. */
    method InsertEntry(id: nat, list: seq<ConfigData>, i: nat, ghost plan: Result<seq<RoomRow>>,
                       ghost start: seq<RoomRow>, ghost done: seq<RoomRow>) returns (r: Result<RoomRow>)
      requires db.Valid() && roomConfigurationRepository.db == db && i < |list|
      requires db.configs == start + done
      requires plan == Prepend(done, InsertAll(AsItems(list)[i..], db.configs, db.hotels,
                                               db.roomTypes, db.accommodations, id, db.nextConfigId))
      modifies db`configs, db`nextConfigId
      ensures db.Valid()
      ensures db.nextConfigId >= old(db.nextConfigId)
      ensures r.Err? ==> plan == Err(r.error)
      ensures r.Ok? ==>
        && db.configs == start + (done + [r.value]) && db.nextConfigId == old(db.nextConfigId) + 1
        && plan == Prepend(done + [r.value], InsertAll(AsItems(list)[i + 1..], db.configs, db.hotels,
                                                       db.roomTypes, db.accommodations, id, db.nextConfigId))
    {
      ghost var rows, nextId := db.configs, db.nextConfigId;
      r := roomConfigurationRepository.Create(id, list[i]);
      InsertAllAdvance(plan, AsItems(list), i, rows, db.hotels, db.roomTypes, db.accommodations, id, nextId, start, done, r);
    }

    /** The loop of `update`'s replacement: one `InsertEntry` per list entry, in order,
        stopping at the first the schema refuses. */
    method InsertBatch(id: nat, list: seq<ConfigData>) returns (r: Result<seq<RoomRow>>)
      requires db.Valid() && roomConfigurationRepository.db == db
      modifies db`configs, db`nextConfigId
      ensures db.Valid()
      ensures db.nextConfigId >= old(db.nextConfigId)
      ensures r == InsertAll(AsItems(list), old(db.configs), db.hotels, db.roomTypes, db.accommodations, id, old(db.nextConfigId))
      ensures r.Ok? ==> db.configs == old(db.configs) + r.value
    {
      ghost var items := AsItems(list);
      ghost var start := db.configs;
      ghost var plan := InsertAll(items, start, db.hotels, db.roomTypes, db.accommodations, id, db.nextConfigId);
      var done: seq<RoomRow> := [];
      assert items[0..] == items && start + done == start;
      assert plan.Ok? ==> done + plan.value == plan.value;
      var i := 0;
      while i < |list|
        invariant 0 <= i <= |list|
        invariant db.Valid()
        invariant db.hotels == old(db.hotels)
        invariant db.nextConfigId >= old(db.nextConfigId)
        invariant db.configs == start + done
        invariant plan == Prepend(done, InsertAll(items[i..], db.configs, db.hotels, db.roomTypes, db.accommodations, id, db.nextConfigId))
      {
        var created := InsertEntry(id, list, i, plan, start, done);
        if created.Err? {
          return Err(created.error);
        }
        done := done + [created.value];
        i := i + 1;
      }
      InsertAllDone(plan, items, i, db.configs, db.hotels, db.roomTypes, db.accommodations, id, db.nextConfigId, done);
      r := Ok(done);
    }

    /** `delete`: the hotel repository's delete, whose cascade removes the hotel's rows. */
    method Delete(id: nat) returns (deleted: bool)
      requires Valid()
      modifies db
      ensures Valid()
      ensures deleted <==> id in old(db.hotels)
      ensures db.hotels == old(db.hotels) - {id}
      ensures db.configs == Select(old(db.configs), id, false) && db.rooms == Select(old(db.rooms), id, false)
    {
      deleted := hotelRepository.Delete(id);
    }
  }
}
