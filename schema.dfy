/** The rows of the tables the capacity bookkeeping reads and writes, and the pure
    queries and facts about them that every layer above relies on.

    `hotel_room_configurations` and `hotel_rooms` have the same columns (migrations
    2025_08_13_153034_*): an auto-increment id, a hotel, a room type, an accommodation
    and a quantity, with a unique index on (hotel_id, room_type_id, accommodation_id).
    A table is a sequence of rows in ascending id order. */
module Schema {
  import opened Common

  /** A row of `hotels`; its id is the key of the hotel map. */
  datatype Hotel = Hotel(name: string, address: string, nit: string, roomsTotal: nat, cityId: nat)

  /** The columns `Hotel::update` may change: a key that is absent leaves the column as it is. */
  datatype HotelPatch = HotelPatch(
    name: Option<string>, address: Option<string>, nit: Option<string>,
    roomsTotal: Option<nat>, cityId: Option<nat>)

  /** A row of `hotel_room_configurations` or of `hotel_rooms`. */
  datatype RoomRow = RoomRow(id: nat, hotelId: nat, roomTypeId: nat, accommodationId: nat, quantity: nat)

  /** The columns a caller supplies for a new room row; the hotel comes from the route. */
  datatype ConfigData = ConfigData(roomTypeId: nat, accommodationId: nat, quantity: nat)

  /** The columns an update request may carry; an absent key leaves the column as it is. */
  datatype ConfigPatch = ConfigPatch(roomTypeId: Option<nat>, accommodationId: Option<nat>, quantity: Option<nat>)

  /** An entry of the `room_types` or `accommodations` catalog. */
  datatype CatalogEntry = CatalogEntry(id: nat, name: string)

  /** The unique index of both room tables. */
  datatype Key = Key(hotelId: nat, roomTypeId: nat, accommodationId: nat)

  function KeyOf(r: RoomRow): Key {
    Key(r.hotelId, r.roomTypeId, r.accommodationId)
  }

  function NewRow(id: nat, hotelId: nat, d: ConfigData): RoomRow {
    RoomRow(id, hotelId, d.roomTypeId, d.accommodationId, d.quantity)
  }

  function ApplyHotelPatch(h: Hotel, p: HotelPatch): Hotel {
    Hotel(
      if p.name.Some? then p.name.value else h.name,
      if p.address.Some? then p.address.value else h.address,
      if p.nit.Some? then p.nit.value else h.nit,
      if p.roomsTotal.Some? then p.roomsTotal.value else h.roomsTotal,
      if p.cityId.Some? then p.cityId.value else h.cityId)
  }

  function ApplyConfigPatch(r: RoomRow, p: ConfigPatch): RoomRow {
    r.(roomTypeId := if p.roomTypeId.Some? then p.roomTypeId.value else r.roomTypeId,
       accommodationId := if p.accommodationId.Some? then p.accommodationId.value else r.accommodationId,
       quantity := if p.quantity.Some? then p.quantity.value else r.quantity)
  }

  // ---------------------------------------------------------------------------
  // Catalog lookups

  predicate InCatalog(catalog: seq<CatalogEntry>, id: int) {
    exists k | 0 <= k < |catalog| :: catalog[k].id == id
  }

  /** `Model::where('name', $name)->first()`: the id of the first entry with exactly this name. */
  function FirstByName(catalog: seq<CatalogEntry>, name: string): (r: Option<nat>)
    ensures r.Some? ==> InCatalog(catalog, r.value)
    ensures r.Some? ==> exists k | 0 <= k < |catalog| :: catalog[k] == CatalogEntry(r.value, name)
    ensures r.None? <==> forall k | 0 <= k < |catalog| :: catalog[k].name != name
  {
    if catalog == [] then None
    else if catalog[0].name == name then Some(catalog[0].id)
    else
      var rest := FirstByName(catalog[1..], name);
      assert forall k | 1 <= k < |catalog| :: catalog[k] == catalog[1..][k - 1];
      rest
  }

  /** `Model::find($id)` on a catalog. */
  function FindEntry(catalog: seq<CatalogEntry>, id: int): (r: Option<CatalogEntry>)
    ensures r.Some? <==> InCatalog(catalog, id)
    ensures r.Some? ==> r.value.id == id && r.value in catalog
  {
    if catalog == [] then None
    else if catalog[0].id == id then Some(catalog[0])
    else
      var rest := FindEntry(catalog[1..], id);
      assert forall k | 1 <= k < |catalog| :: catalog[k] == catalog[1..][k - 1];
      rest
  }

  // ---------------------------------------------------------------------------
  // Table shape and constraints

  ghost predicate IdsAscending(rows: seq<RoomRow>) {
    forall i, j | 0 <= i < j < |rows| :: rows[i].id < rows[j].id
  }

  ghost predicate KeysDistinct(rows: seq<RoomRow>) {
    forall i, j | 0 <= i < j < |rows| :: KeyOf(rows[i]) != KeyOf(rows[j])
  }

  /** The three foreign keys of a room row. */
  predicate References(r: RoomRow, hotels: map<nat, Hotel>, roomTypes: seq<CatalogEntry>, accommodations: seq<CatalogEntry>) {
    r.hotelId in hotels && InCatalog(roomTypes, r.roomTypeId) && InCatalog(accommodations, r.accommodationId)
  }

  /** What the database holds of a room table: ids from the auto-increment counter in
      ascending order, every foreign key satisfied, the unique index respected. */
  ghost predicate TableValid(rows: seq<RoomRow>, nextId: nat, hotels: map<nat, Hotel>,
                             roomTypes: seq<CatalogEntry>, accommodations: seq<CatalogEntry>) {
    && 0 < nextId
    && IdsAscending(rows)
    && KeysDistinct(rows)
    && (forall r | r in rows :: 0 < r.id < nextId && References(r, hotels, roomTypes, accommodations))
  }

  /** Whether writing `row` into the table breaks the unique index (against every other
      row: the row's own id is skipped, so an update does not clash with itself) or a
      foreign key. */
  function WriteViolation(rows: seq<RoomRow>, row: RoomRow, hotels: map<nat, Hotel>,
                          roomTypes: seq<CatalogEntry>, accommodations: seq<CatalogEntry>): (v: Option<Violation>)
    ensures v.None? <==>
      (forall i | 0 <= i < |rows| && rows[i].id != row.id :: KeyOf(rows[i]) != KeyOf(row))
      && References(row, hotels, roomTypes, accommodations)
  {
    if exists i | 0 <= i < |rows| :: rows[i].id != row.id && KeyOf(rows[i]) == KeyOf(row) then Some(DuplicateKey)
    else if !References(row, hotels, roomTypes, accommodations) then Some(MissingReference)
    else None
  }

  // ---------------------------------------------------------------------------
  // Lookups and selections

  /** Position of the row with this id. */
  function IndexOf(rows: seq<RoomRow>, id: int): (r: Option<nat>)
    ensures r.Some? ==> r.value < |rows| && rows[r.value].id == id
    ensures r.None? <==> forall x | x in rows :: x.id != id
  {
    if rows == [] then None
    else if rows[0].id == id then Some(0)
    else
      match IndexOf(rows[1..], id)
      case None => None
      case Some(k) => Some(k + 1)
  }

  /** With ascending ids, a row's id leads back to that row's position. */
  lemma {:induction false} IndexOfPosition(rows: seq<RoomRow>, i: nat)
    requires IdsAscending(rows) && i < |rows|
    ensures IndexOf(rows, rows[i].id) == Some(i)
    decreases i
  {
    if i > 0 {
      assert IdsAscending(rows[1..]) && rows[1..][i - 1] == rows[i];
      IndexOfPosition(rows[1..], i - 1);
    }
  }

  /** The rows whose hotel is `h` (when `ofHotel`) or whose hotel is not `h`, in table order. */
  function Select(rows: seq<RoomRow>, h: nat, ofHotel: bool): (r: seq<RoomRow>)
    ensures forall x :: x in r <==> x in rows && (x.hotelId == h) == ofHotel
    ensures |r| <= |rows|
  {
    if rows == [] then []
    else
      var rest := Select(rows[1..], h, ofHotel);
      if (rows[0].hotelId == h) == ofHotel then [rows[0]] + rest else rest
  }

  lemma {:induction false} SelectConcat(a: seq<RoomRow>, b: seq<RoomRow>, h: nat, ofHotel: bool)
    ensures Select(a + b, h, ofHotel) == Select(a, h, ofHotel) + Select(b, h, ofHotel)
    decreases |a|
  {
    if a == [] {
      assert a + b == b;
    } else {
      assert (a + b)[0] == a[0] && (a + b)[1..] == a[1..] + b;
      SelectConcat(a[1..], b, h, ofHotel);
      var left, right := Select(a[1..], h, ofHotel), Select(b, h, ofHotel);
      assert [a[0]] + (left + right) == ([a[0]] + left) + right;
    }
  }

  /** Selecting a hotel's rows from rows that all belong to it keeps them all, and from rows
      that none belong to it keeps none. */
  lemma {:induction false} SelectUniform(rows: seq<RoomRow>, h: nat, ofHotel: bool)
    requires forall x | x in rows :: (x.hotelId == h) == ofHotel
    ensures Select(rows, h, ofHotel) == rows
    ensures Select(rows, h, !ofHotel) == []
    decreases |rows|
  {
    if rows != [] {
      assert forall x | x in rows[1..] :: x in rows;
      SelectUniform(rows[1..], h, ofHotel);
      assert rows == [rows[0]] + rows[1..];
    }
  }

  /** A row placed in front of rows with larger ids and other keys keeps a table well shaped. */
  lemma Cons(x: RoomRow, rest: seq<RoomRow>)
    requires IdsAscending(rest) && KeysDistinct(rest)
    requires forall y | y in rest :: x.id < y.id && KeyOf(x) != KeyOf(y)
    ensures IdsAscending([x] + rest) && KeysDistinct([x] + rest)
  {
    var s := [x] + rest;
    forall i, j | 0 <= i < j < |s| ensures s[i].id < s[j].id && KeyOf(s[i]) != KeyOf(s[j]) {
      assert s[j] == rest[j - 1];
      if i > 0 {
        assert s[i] == rest[i - 1];
      } else {
        assert rest[j - 1] in rest;
      }
    }
  }

  /** Selecting rows keeps the table's ascending ids and distinct keys. */
  lemma {:induction false} SelectShape(rows: seq<RoomRow>, h: nat, ofHotel: bool)
    requires IdsAscending(rows) && KeysDistinct(rows)
    ensures IdsAscending(Select(rows, h, ofHotel)) && KeysDistinct(Select(rows, h, ofHotel))
    decreases |rows|
  {
    if rows != [] {
      var rest := Select(rows[1..], h, ofHotel);
      SelectShape(rows[1..], h, ofHotel);
      if (rows[0].hotelId == h) == ofHotel {
        forall y | y in rest ensures rows[0].id < y.id && KeyOf(rows[0]) != KeyOf(y) {
          assert y in rows[1..];
          var j :| 0 <= j < |rows[1..]| && rows[1..][j] == y;
          assert rows[j + 1] == y;
        }
        Cons(rows[0], rest);
      }
    }
  }

  // ---------------------------------------------------------------------------
  // Quantities

  /** How much row `r` counts towards hotel `h`. */
  function Contribution(r: RoomRow, h: nat): nat {
    if r.hotelId == h then r.quantity else 0
  }

  /** `where('hotel_id', $h)->sum('quantity')`. */
  function HotelSum(rows: seq<RoomRow>, h: nat): (r: nat)
    ensures r <= Total(rows)
  {
    if rows == [] then 0 else Contribution(rows[0], h) + HotelSum(rows[1..], h)
  }

  /** The plain sum of the quantity column. */
  function Total(rows: seq<RoomRow>): nat {
    if rows == [] then 0 else rows[0].quantity + Total(rows[1..])
  }

  /** The hotel's quantities, skipping the row with id `x`. */
  function SumExcept(rows: seq<RoomRow>, h: nat, x: int): nat {
    if rows == [] then 0
    else (if rows[0].id == x then 0 else Contribution(rows[0], h)) + SumExcept(rows[1..], h, x)
  }

  /** A hotel's rows never add up to more than the hotel's `rooms_total`. */
  predicate WithinCapacity(hotels: map<nat, Hotel>, rows: seq<RoomRow>, h: nat) {
    h in hotels ==> HotelSum(rows, h) <= hotels[h].roomsTotal
  }

  lemma {:induction false} HotelSumConcat(a: seq<RoomRow>, b: seq<RoomRow>, h: nat)
    ensures HotelSum(a + b, h) == HotelSum(a, h) + HotelSum(b, h)
    decreases |a|
  {
    if a == [] {
      assert a + b == b;
    } else {
      assert (a + b)[1..] == a[1..] + b;
      HotelSumConcat(a[1..], b, h);
    }
  }

  /** Rows of other hotels do not count. */
  lemma {:induction false} HotelSumNone(rows: seq<RoomRow>, h: nat)
    requires forall x | x in rows :: x.hotelId != h
    ensures HotelSum(rows, h) == 0
    decreases |rows|
  {
    if rows != [] {
      assert forall x | x in rows[1..] :: x in rows;
      HotelSumNone(rows[1..], h);
    }
  }

  /** A hotel's sum is the plain total of the rows `getByHotelId` returns, and the rows
      left after deleting a hotel's rows keep every other hotel's sum. */
  lemma {:induction false} SelectSum(rows: seq<RoomRow>, h: nat, ofHotel: bool, g: nat)
    ensures HotelSum(Select(rows, h, ofHotel), g) == if (g == h) == ofHotel then HotelSum(rows, g) else 0
    ensures ofHotel ==> Total(Select(rows, h, true)) == HotelSum(rows, h)
    decreases |rows|
  {
    if rows != [] {
      SelectSum(rows[1..], h, ofHotel, g);
      var rest := Select(rows[1..], h, ofHotel);
      if (rows[0].hotelId == h) == ofHotel {
        assert ([rows[0]] + rest)[1..] == rest;
      }
    }
  }

  /** Replacing one row changes each hotel's sum by the difference of the two rows' contributions. */
  lemma HotelSumReplace(rows: seq<RoomRow>, i: nat, r: RoomRow, h: nat)
    requires i < |rows|
    ensures HotelSum(rows[i := r], h) + Contribution(rows[i], h) == HotelSum(rows, h) + Contribution(r, h)
  {
    assert rows == rows[..i] + [rows[i]] + rows[i + 1..];
    assert rows[i := r] == rows[..i] + [r] + rows[i + 1..];
    HotelSumConcat(rows[..i] + [rows[i]], rows[i + 1..], h);
    HotelSumConcat(rows[..i], [rows[i]], h);
    HotelSumConcat(rows[..i] + [r], rows[i + 1..], h);
    HotelSumConcat(rows[..i], [r], h);
  }

  /** Removing one row takes its contribution off each hotel's sum. */
  lemma HotelSumRemove(rows: seq<RoomRow>, i: nat, h: nat)
    requires i < |rows|
    ensures HotelSum(rows[..i] + rows[i + 1..], h) + Contribution(rows[i], h) == HotelSum(rows, h)
  {
    assert rows == rows[..i] + [rows[i]] + rows[i + 1..];
    HotelSumConcat(rows[..i] + [rows[i]], rows[i + 1..], h);
    HotelSumConcat(rows[..i], [rows[i]], h);
    HotelSumConcat(rows[..i], rows[i + 1..], h);
  }

  /** Skipping a row id takes exactly that row's contribution off the sum, and skipping an
      id no row has takes nothing off. */
  lemma {:induction false} SumExceptSplit(rows: seq<RoomRow>, h: nat, x: int)
    requires IdsAscending(rows)
    ensures IndexOf(rows, x).None? ==> SumExcept(rows, h, x) == HotelSum(rows, h)
    ensures IndexOf(rows, x).Some? ==>
      SumExcept(rows, h, x) + Contribution(rows[IndexOf(rows, x).value], h) == HotelSum(rows, h)
    decreases |rows|
  {
    if rows != [] {
      assert IdsAscending(rows[1..]);
      SumExceptSplit(rows[1..], h, x);
      if rows[0].id == x {
        assert forall y | y in rows[1..] :: y.id != x;
      }
    }
  }

  // ---------------------------------------------------------------------------
  // Capacity is kept by the three writes the capacity services guard

  /** Appending a row that fits its hotel's remaining capacity keeps every hotel within capacity. */
  lemma AppendKeepsCapacity(hotels: map<nat, Hotel>, rows: seq<RoomRow>, row: RoomRow)
    requires row.hotelId in hotels
    requires HotelSum(rows, row.hotelId) + row.quantity <= hotels[row.hotelId].roomsTotal
    ensures WithinCapacity(hotels, rows + [row], row.hotelId)
    ensures forall h :: WithinCapacity(hotels, rows, h) ==> WithinCapacity(hotels, rows + [row], h)
  {
    forall h ensures HotelSum(rows + [row], h) == HotelSum(rows, h) + Contribution(row, h) {
      HotelSumConcat(rows, [row], h);
    }
  }

  /** Replacing a row by one of the same hotel whose new total fits keeps every hotel within capacity. */
  lemma ReplaceKeepsCapacity(hotels: map<nat, Hotel>, rows: seq<RoomRow>, i: nat, row: RoomRow)
    requires i < |rows| && row.hotelId == rows[i].hotelId && row.hotelId in hotels
    requires HotelSum(rows, row.hotelId) - rows[i].quantity + row.quantity <= hotels[row.hotelId].roomsTotal
    ensures WithinCapacity(hotels, rows[i := row], row.hotelId)
    ensures forall h :: WithinCapacity(hotels, rows, h) ==> WithinCapacity(hotels, rows[i := row], h)
  {
    forall h ensures HotelSum(rows[i := row], h) + Contribution(rows[i], h) == HotelSum(rows, h) + Contribution(row, h) {
      HotelSumReplace(rows, i, row, h);
    }
  }

  /** Removing a row keeps every hotel within capacity. */
  lemma RemoveKeepsCapacity(hotels: map<nat, Hotel>, rows: seq<RoomRow>, i: nat)
    requires i < |rows|
    ensures forall h :: WithinCapacity(hotels, rows, h) ==> WithinCapacity(hotels, rows[..i] + rows[i + 1..], h)
  {
    forall h ensures HotelSum(rows[..i] + rows[i + 1..], h) <= HotelSum(rows, h) {
      HotelSumRemove(rows, i, h);
    }
  }
}
