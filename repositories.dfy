/** The data-access layer: one class per repository, each a thin view over the shared
    database. Writes the schema refuses come back as `Err(Query(..))` and change nothing. */
module Repositories {
  import opened Common
  import opened Schema
  import opened Store

  /** HotelRepository: the `hotels` table. */
  class HotelRepository {
    const db: Database

    constructor (db: Database)
      ensures this.db == db
    {
      this.db := db;
    }

    /** `find`: the hotel with this id, or null. */
    function Find(id: nat): (r: Option<Hotel>)
      reads db
      ensures r.Some? <==> id in db.hotels
      ensures r.Some? ==> r.value == db.hotels[id]
    {
      if id in db.hotels then Some(db.hotels[id]) else None
    }

    /** `create`: inserts the hotel under the next auto-increment id. */
    method Create(data: Hotel) returns (id: nat)
      requires db.Valid()
      modifies db`hotels, db`nextHotelId
      ensures db.Valid()
      ensures id == old(db.nextHotelId) && id !in old(db.hotels) && id > 0
      ensures db.hotels == old(db.hotels)[id := data]
      ensures Find(id) == Some(data)
    {
      id := db.nextHotelId;
      db.hotels := db.hotels[id := data];
      db.nextHotelId := db.nextHotelId + 1;
    }

    /** `update`: null for an unknown id; otherwise the hotel with the patch applied. */
    method Update(id: nat, patch: HotelPatch) returns (r: Option<Hotel>)
      requires db.Valid()
      modifies db`hotels
      ensures db.Valid()
      ensures id !in old(db.hotels) ==> r == None && db.hotels == old(db.hotels)
      ensures id in old(db.hotels) ==>
        r == Some(ApplyHotelPatch(old(db.hotels)[id], patch)) && db.hotels == old(db.hotels)[id := r.value]
      ensures db.hotels.Keys == old(db.hotels).Keys
    {
      if id in db.hotels {
        var h := ApplyHotelPatch(db.hotels[id], patch);
        db.hotels := db.hotels[id := h];
        r := Some(h);
      } else {
        r := None;
      }
    }

    /** `delete`: `Hotel::destroy($id) > 0`; the foreign keys of both room tables cascade. */
    method Delete(id: nat) returns (deleted: bool)
      requires db.Valid()
      modifies db`hotels, db`configs, db`rooms
      ensures db.Valid()
      ensures deleted <==> id in old(db.hotels)
      ensures db.hotels == old(db.hotels) - {id}
      ensures db.configs == Select(old(db.configs), id, false)
      ensures db.rooms == Select(old(db.rooms), id, false)
      ensures !deleted ==> db.configs == old(db.configs) && db.rooms == old(db.rooms)
    {
      deleted := id in db.hotels;
      if deleted {
        DropHotelKeepsTable(db.configs, db.nextConfigId, db.hotels, db.roomTypes, db.accommodations, id);
        DropHotelKeepsTable(db.rooms, db.nextRoomId, db.hotels, db.roomTypes, db.accommodations, id);
        db.hotels := db.hotels - {id};
        db.configs := Select(db.configs, id, false);
        db.rooms := Select(db.rooms, id, false);
      } else {
        SelectUniform(db.configs, id, false);
        SelectUniform(db.rooms, id, false);
      }
    }
  }

  /** Deleting a hotel together with its rows keeps the table valid against the remaining hotels. */
  lemma DropHotelKeepsTable(rows: seq<RoomRow>, nextId: nat, hotels: map<nat, Hotel>,
                            roomTypes: seq<CatalogEntry>, accommodations: seq<CatalogEntry>, id: nat)
    requires TableValid(rows, nextId, hotels, roomTypes, accommodations)
    ensures TableValid(Select(rows, id, false), nextId, hotels - {id}, roomTypes, accommodations)
  {
    SelectShape(rows, id, false);
  }

  /** Writing a row the schema accepts at position `i` (or at the end, when `i == |rows|`)
      keeps the table valid. */
  lemma WriteKeepsTable(rows: seq<RoomRow>, nextId: nat, hotels: map<nat, Hotel>,
                        roomTypes: seq<CatalogEntry>, accommodations: seq<CatalogEntry>, i: nat, row: RoomRow)
    requires TableValid(rows, nextId, hotels, roomTypes, accommodations)
    requires i <= |rows| && 0 < row.id < nextId
    requires i < |rows| ==> row.id == rows[i].id
    requires i == |rows| ==> forall x | x in rows :: x.id < row.id
    requires WriteViolation(rows, row, hotels, roomTypes, accommodations).None?
    ensures TableValid(if i < |rows| then rows[i := row] else rows + [row], nextId, hotels, roomTypes, accommodations)
  {
    var s := if i < |rows| then rows[i := row] else rows + [row];
    assert |s| == |rows| || |s| == |rows| + 1;
    forall a, b | 0 <= a < b < |s| ensures s[a].id < s[b].id && KeyOf(s[a]) != KeyOf(s[b]) {
      if a != i && b != i {
        assert s[a] == rows[a] && s[b] == rows[b];
      } else if a == i {
        assert s[b] == rows[b] && rows[b].id != row.id;
      } else {
        assert s[a] == rows[a];
        if i == |rows| {
          assert rows[a] in rows;
        }
      }
    }
    forall x | x in s ensures 0 < x.id < nextId && References(x, hotels, roomTypes, accommodations) {
      var k :| 0 <= k < |s| && s[k] == x;
      if k != i {
        assert s[k] == rows[k];
      }
    }
  }

  /** Where each row of a table with position `i` removed came from. */
  lemma RemovedPositions(rows: seq<RoomRow>, i: nat, s: seq<RoomRow>)
    requires i < |rows| && s == rows[..i] + rows[i + 1..]
    ensures |s| == |rows| - 1
    ensures forall k | 0 <= k < i :: s[k] == rows[k]
    ensures forall k | i <= k < |s| :: s[k] == rows[k + 1]
  {
  }

  /** Removing the row at position `i` keeps the table valid. */
  lemma RemoveKeepsTable(rows: seq<RoomRow>, nextId: nat, hotels: map<nat, Hotel>,
                         roomTypes: seq<CatalogEntry>, accommodations: seq<CatalogEntry>, i: nat)
    requires TableValid(rows, nextId, hotels, roomTypes, accommodations)
    requires i < |rows|
    ensures TableValid(rows[..i] + rows[i + 1..], nextId, hotels, roomTypes, accommodations)
  {
    var s := rows[..i] + rows[i + 1..];
    RemovedPositions(rows, i, s);
    forall a, b | 0 <= a < b < |s| ensures s[a].id < s[b].id && KeyOf(s[a]) != KeyOf(s[b]) {
      assert s[a] == rows[if a < i then a else a + 1];
      assert s[b] == rows[if b < i then b else b + 1];
    }
    forall x | x in s ensures x in rows {
      var k :| 0 <= k < |s| && s[k] == x;
      assert s[k] == rows[if k < i then k else k + 1];
    }
  }

  /** HotelRoomConfigurationRepository: the `hotel_room_configurations` table. */
  class HotelRoomConfigurationRepository {
    const db: Database

    constructor (db: Database)
      ensures this.db == db
    {
      this.db := db;
    }

    /** `find`: the row with this id, or null. */
    function Find(id: nat): (r: Option<RoomRow>)
      reads db
      ensures r.Some? ==> r.value in db.configs && r.value.id == id
      ensures r.None? <==> forall x | x in db.configs :: x.id != id
    {
      match IndexOf(db.configs, id)
      case None => None
      case Some(i) => Some(db.configs[i])
    }

    /** `create`: inserts the row under the next id, unless the schema refuses it. */
    method Create(hotelId: nat, data: ConfigData) returns (r: Result<RoomRow>)
      requires db.Valid()
      modifies db`configs, db`nextConfigId
      ensures db.Valid()
      ensures var row := NewRow(old(db.nextConfigId), hotelId, data);
        match WriteViolation(old(db.configs), row, db.hotels, db.roomTypes, db.accommodations)
        case Some(v) => r == Err(Query(v)) && db.configs == old(db.configs) && db.nextConfigId == old(db.nextConfigId)
        case None => r == Ok(row) && db.configs == old(db.configs) + [row] && db.nextConfigId == row.id + 1
    {
      var row := NewRow(db.nextConfigId, hotelId, data);
      var v := WriteViolation(db.configs, row, db.hotels, db.roomTypes, db.accommodations);
      if v.Some? {
        return Err(Query(v.value));
      }
      WriteKeepsTable(db.configs, db.nextConfigId + 1, db.hotels, db.roomTypes, db.accommodations, |db.configs|, row);
      db.configs := db.configs + [row];
      db.nextConfigId := db.nextConfigId + 1;
      r := Ok(row);
    }

    /** `update`: null for an unknown id; otherwise the row with the patch applied, unless
        the schema refuses the new values. */
    method Update(id: nat, patch: ConfigPatch) returns (r: Result<Option<RoomRow>>)
      requires db.Valid()
      modifies db`configs
      ensures db.Valid()
      ensures IndexOf(old(db.configs), id).None? ==> r == Ok(None) && db.configs == old(db.configs)
      ensures IndexOf(old(db.configs), id).Some? ==>
        var i := IndexOf(old(db.configs), id).value;
        var row := ApplyConfigPatch(old(db.configs)[i], patch);
        match WriteViolation(old(db.configs), row, db.hotels, db.roomTypes, db.accommodations)
        case Some(v) => r == Err(Query(v)) && db.configs == old(db.configs)
        case None => r == Ok(Some(row)) && db.configs == old(db.configs)[i := row]
    {
      var k := IndexOf(db.configs, id);
      if k.None? {
        return Ok(None);
      }
      var i := k.value;
      var row := ApplyConfigPatch(db.configs[i], patch);
      var v := WriteViolation(db.configs, row, db.hotels, db.roomTypes, db.accommodations);
      if v.Some? {
        return Err(Query(v.value));
      }
      assert db.configs[i] in db.configs;
      WriteKeepsTable(db.configs, db.nextConfigId, db.hotels, db.roomTypes, db.accommodations, i, row);
      db.configs := db.configs[i := row];
      r := Ok(Some(row));
    }

    /** `delete`: false for an unknown id; otherwise the row is removed. */
    method Delete(id: nat) returns (deleted: bool)
      requires db.Valid()
      modifies db`configs
      ensures db.Valid()
      ensures deleted <==> IndexOf(old(db.configs), id).Some?
      ensures !deleted ==> db.configs == old(db.configs)
      ensures deleted ==>
        var i := IndexOf(old(db.configs), id).value;
        db.configs == old(db.configs)[..i] + old(db.configs)[i + 1..]
    {
      var k := IndexOf(db.configs, id);
      deleted := k.Some?;
      if deleted {
        RemoveKeepsTable(db.configs, db.nextConfigId, db.hotels, db.roomTypes, db.accommodations, k.value);
        db.configs := db.configs[..k.value] + db.configs[k.value + 1..];
      }
    }

    /** `deleteByHotelId`: removes every row of the hotel and returns how many there were. */
    method DeleteByHotelId(hotelId: nat) returns (count: nat)
      requires db.Valid()
      modifies db`configs
      ensures db.Valid()
      ensures count == |Select(old(db.configs), hotelId, true)|
      ensures db.configs == Select(old(db.configs), hotelId, false)
      ensures HotelSum(db.configs, hotelId) == 0
    {
      count := |Select(db.configs, hotelId, true)|;
      SelectShape(db.configs, hotelId, false);
      db.configs := Select(db.configs, hotelId, false);
      HotelSumNone(db.configs, hotelId);
    }

    /** `getExistingRoomsQuantity`: the hotel's quantities, leaving out the row `excludeId`
        names; a null or zero `excludeId` is falsy in PHP and leaves nothing out. */
    function GetExistingRoomsQuantity(hotelId: nat, excludeId: Option<int>): (n: nat)
      reads db
      requires db.Valid()
      ensures excludeId.None? || excludeId == Some(0) ==> n == HotelSum(db.configs, hotelId)
      ensures excludeId.Some? && excludeId.value != 0 ==>
        match IndexOf(db.configs, excludeId.value)
        case None => n == HotelSum(db.configs, hotelId)
        case Some(i) => n + Contribution(db.configs[i], hotelId) == HotelSum(db.configs, hotelId)
    {
      SumExceptSplit(db.configs, hotelId, if excludeId.Some? then excludeId.value else 0);
      if excludeId.Some? && excludeId.value != 0 then SumExcept(db.configs, hotelId, excludeId.value)
      else HotelSum(db.configs, hotelId)
    }

    /** `getByHotelId`: exactly the hotel's rows, in table order. */
    function GetByHotelId(hotelId: nat): (r: seq<RoomRow>)
      reads db
      ensures forall x :: x in r <==> x in db.configs && x.hotelId == hotelId
    {
      Select(db.configs, hotelId, true)
    }

    /** `getTotalRoomQuantityByHotelId`: the sum of the quantities of the rows `getByHotelId` returns. */
    function GetTotalRoomQuantityByHotelId(hotelId: nat): (n: nat)
      reads db
      ensures n == Total(GetByHotelId(hotelId))
    {
      SelectSum(db.configs, hotelId, true, hotelId);
      HotelSum(db.configs, hotelId)
    }
  }

  /** HotelRoomRepository: the `hotel_rooms` table. */
  class HotelRoomRepository {
    const db: Database

    constructor (db: Database)
      ensures this.db == db
    {
      this.db := db;
    }

    /** `find`: the row with this id, or null. */
    function Find(id: nat): (r: Option<RoomRow>)
      reads db
      ensures r.Some? ==> r.value in db.rooms && r.value.id == id
      ensures r.None? <==> forall x | x in db.rooms :: x.id != id
    {
      match IndexOf(db.rooms, id)
      case None => None
      case Some(i) => Some(db.rooms[i])
    }

    /** `getByHotelId`: exactly the hotel's rows, in table order. */
    function GetByHotelId(hotelId: nat): (r: seq<RoomRow>)
      reads db
      ensures forall x :: x in r <==> x in db.rooms && x.hotelId == hotelId
    {
      Select(db.rooms, hotelId, true)
    }

    /** `countByHotelId`: despite its name, the sum of the quantities of the hotel's rows. */
    function CountByHotelId(hotelId: nat): (n: nat)
      reads db
      ensures n == Total(GetByHotelId(hotelId))
    {
      SelectSum(db.rooms, hotelId, true, hotelId);
      HotelSum(db.rooms, hotelId)
    }

    /** `create`: inserts the row under the next id, unless the schema refuses it. */
    method Create(hotelId: nat, data: ConfigData) returns (r: Result<RoomRow>)
      requires db.Valid()
      modifies db`rooms, db`nextRoomId
      ensures db.Valid()
      ensures var row := NewRow(old(db.nextRoomId), hotelId, data);
        match WriteViolation(old(db.rooms), row, db.hotels, db.roomTypes, db.accommodations)
        case Some(v) => r == Err(Query(v)) && db.rooms == old(db.rooms) && db.nextRoomId == old(db.nextRoomId)
        case None => r == Ok(row) && db.rooms == old(db.rooms) + [row] && db.nextRoomId == row.id + 1
    {
      var row := NewRow(db.nextRoomId, hotelId, data);
      var v := WriteViolation(db.rooms, row, db.hotels, db.roomTypes, db.accommodations);
      if v.Some? {
        return Err(Query(v.value));
      }
      WriteKeepsTable(db.rooms, db.nextRoomId + 1, db.hotels, db.roomTypes, db.accommodations, |db.rooms|, row);
      db.rooms := db.rooms + [row];
      db.nextRoomId := db.nextRoomId + 1;
      r := Ok(row);
    }
  }
}
