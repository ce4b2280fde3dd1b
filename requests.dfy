/** The form requests that guard the capacity bookkeeping: StoreHotelRequest with its
    exact-sum check, UpdateHotelRoomConfigurationRequest, StoreHotelRoomRequest and
    UpdateHotelRoomRequest. Each is a function from the request body, the route parameters
    and the tables its rules query to the set of fields that carry an error; the request
    is accepted when that set is empty. Which message a field gets is not modelled. */
module Requests {
  import opened Common
  import opened Schema
  import opened HotelServices

  /** A value of the request body as a rule sees it. `Other` stands for arrays, floats and
      booleans. A blank string reaches the rules as null: the framework's middleware trims
      strings and turns empty ones into null. */
  datatype Value = Absent | Null | Text(s: string) | Integer(i: int) | Other

  /** The fields an error can be reported on. */
  datatype Field =
    | Name | Address | Nit | RoomsTotal | CityId | RoomConfigurations
    | EntryRoomType(index: nat) | EntryAccommodation(index: nat) | EntryQuantity(index: nat)
    | RoomTypeId | AccommodationId | Quantity

  /** The characters PHP's `trim` removes. */
  predicate TrimmedAway(c: char) {
    c == ' ' || c == '\t' || c == '\n' || c == '\r' || c == '\U{0000}' || c == '\U{000B}'
  }

  predicate Blank(s: string) {
    forall k | 0 <= k < |s| :: TrimmedAway(s[k])
  }

  /** `required`: an absent key, null and a string that trims to nothing fail. */
  predicate Present(v: Value) {
    !v.Absent? && !v.Null? && !(v.Text? && Blank(v.s))
  }

  /** `required|string|min:lo|max:hi`, lengths in characters. */
  predicate TextField(v: Value, lo: nat, hi: nat) {
    Present(v) && v.Text? && lo <= |v.s| <= hi
  }

  /** `required|integer|min:1`. */
  predicate PositiveInteger(v: Value) {
    v.Integer? && v.i >= 1
  }

  /** `exists:<catalog>,id`. */
  predicate ExistingId(v: Value, catalog: seq<CatalogEntry>) {
    v.Integer? && InCatalog(catalog, v.i)
  }

  // ---------------------------------------------------------------------------
  // StoreHotelRequest

  /** One element of `room_configurations`; a key the element lacks is `Absent`. */
  datatype ConfigurationInput = ConfigurationInput(roomType: Value, accommodation: Value, quantity: Value)

  /** The `room_configurations` input: absent or null, present but not an array, or a list. */
  datatype ListInput = NoList | NotAnArray | List(entries: seq<ConfigurationInput>)

  datatype StoreHotelInput = StoreHotelInput(
    name: Value, address: Value, nit: Value, roomsTotal: Value, cityId: Value, configurations: ListInput)

  /** Every `room_configurations.*` rule holds for the element. */
  predicate EntryValid(e: ConfigurationInput) {
    TextField(e.roomType, 0, 255) && TextField(e.accommodation, 0, 255) && PositiveInteger(e.quantity)
  }

  /** The errors of the `room_configurations.*` rules for the element at `index`. */
  function EntryFieldErrors(e: ConfigurationInput, index: nat): set<Field> {
    (if TextField(e.roomType, 0, 255) then {} else {EntryRoomType(index)})
    + (if TextField(e.accommodation, 0, 255) then {} else {EntryAccommodation(index)})
    + (if PositiveInteger(e.quantity) then {} else {EntryQuantity(index)})
  }

  /** The errors of the `room_configurations.*` rules over the first `n` elements. */
  function EntryErrors(entries: seq<ConfigurationInput>, n: nat): (r: set<Field>)
    requires n <= |entries|
    ensures forall f | f in r :: (f.EntryRoomType? || f.EntryAccommodation? || f.EntryQuantity?) && f.index < n
  {
    if n == 0 then {} else EntryErrors(entries, n - 1) + EntryFieldErrors(entries[n - 1], n - 1)
  }

  /** A value as an addend of `array_sum`, and as `(int)` casts `rooms_total`: an absent key
      or null adds nothing. */
  function AsInt(v: Value): int {
    if v.Integer? then v.i else 0
  }

  /** `array_sum(array_column(entries, 'quantity'))`. */
  function QuantitySum(entries: seq<ConfigurationInput>): (r: int)
    ensures (forall k | 0 <= k < |entries| :: PositiveInteger(entries[k].quantity)) ==> r >= |entries|
  {
    if entries == [] then 0
    else
      assert forall k | 1 <= k < |entries| :: entries[1..][k - 1] == entries[k];
      AsInt(entries[0].quantity) + QuantitySum(entries[1..])
  }

  /** The `after` hook: it only looks at an array, and compares the sum of its quantities
      with `rooms_total` strictly. It runs whether or not the rules failed. */
  predicate SumMismatch(input: StoreHotelInput) {
    input.configurations.List? && QuantitySum(input.configurations.entries) != AsInt(input.roomsTotal)
  }

  /** `rules()` and `after()` of StoreHotelRequest, given the nits of the hotels already
      stored and the ids of `cities`. */
  function StoreHotelErrors(input: StoreHotelInput, existingNits: set<string>, cities: set<int>): (r: set<Field>)
    ensures r == {} ==> && input.configurations.List? && |input.configurations.entries| > 0
                        && input.roomsTotal.Integer? && input.roomsTotal.i >= 1
                        && QuantitySum(input.configurations.entries) == input.roomsTotal.i
  {
    (if TextField(input.name, 0, 255) then {} else {Name})
    + (if TextField(input.address, 0, 255) then {} else {Address})
    + (if TextField(input.nit, 5, 20) && input.nit.s !in existingNits then {} else {Nit})
    + (if PositiveInteger(input.roomsTotal) && !SumMismatch(input) then {} else {RoomsTotal})
    + (if input.cityId.Integer? && input.cityId.i in cities then {} else {CityId})
    + (if input.configurations.List? && input.configurations.entries != [] then {} else {RoomConfigurations})
    + (if input.configurations.List? then EntryErrors(input.configurations.entries, |input.configurations.entries|) else {})
  }

  /** The element at position `k` contributes its own errors, under its own index. */
  lemma {:induction false} EntryErrorsAt(entries: seq<ConfigurationInput>, n: nat, k: nat)
    requires k < n <= |entries|
    ensures EntryFieldErrors(entries[k], k) <= EntryErrors(entries, n)
    decreases n
  {
    if k < n - 1 {
      EntryErrorsAt(entries, n - 1, k);
    }
  }

  /** Every error of the `room_configurations.*` rules belongs to one element. */
  lemma {:induction false} EntryErrorsFrom(entries: seq<ConfigurationInput>, n: nat, f: Field) returns (k: nat)
    requires n <= |entries| && f in EntryErrors(entries, n)
    ensures k < n && f in EntryFieldErrors(entries[k], k)
    decreases n
  {
    var own := EntryFieldErrors(entries[n - 1], n - 1);
    var before := EntryErrors(entries, n - 1);
    assert f in before + own;
    if f in own {
      k := n - 1;
    } else {
      k := EntryErrorsFrom(entries, n - 1, f);
    }
  }

  /** The `room_configurations.*` rules pass exactly when every element is valid. */
  lemma EntryErrorsEmpty(entries: seq<ConfigurationInput>)
    ensures EntryErrors(entries, |entries|) == {} <==> forall k | 0 <= k < |entries| :: EntryValid(entries[k])
  {
    if EntryErrors(entries, |entries|) == {} {
      forall k | 0 <= k < |entries| ensures EntryValid(entries[k]) {
        EntryErrorsAt(entries, |entries|, k);
      }
    }
    if EntryErrors(entries, |entries|) != {} {
      var f :| f in EntryErrors(entries, |entries|);
      var k := EntryErrorsFrom(entries, |entries|, f);
    }
  }

  /** A quantity error is reported on an element's own index, exactly when its quantity is
      not an integer of at least 1. */
  lemma {:induction false} EntryQuantityAt(entries: seq<ConfigurationInput>, n: nat, index: nat)
    requires index < n <= |entries|
    ensures EntryQuantity(index) in EntryErrors(entries, n) <==> !PositiveInteger(entries[index].quantity)
    decreases n
  {
    if index == n - 1 {
      assert EntryQuantity(index) !in EntryErrors(entries, n - 1);
    } else {
      EntryQuantityAt(entries, n - 1, index);
      assert EntryQuantity(index) !in EntryFieldErrors(entries[n - 1], n - 1);
    }
  }

  /** StoreHotelRequest accepts exactly a request whose hotel columns pass their rules and
      whose `room_configurations` is a non-empty list of valid elements whose quantities add
      up to `rooms_total`, an integer of at least 1. */
  lemma StoreHotelAccepted(input: StoreHotelInput, existingNits: set<string>, cities: set<int>)
    ensures StoreHotelErrors(input, existingNits, cities) == {} <==>
      && TextField(input.name, 0, 255) && TextField(input.address, 0, 255)
      && TextField(input.nit, 5, 20) && input.nit.s !in existingNits
      && input.cityId.Integer? && input.cityId.i in cities
      && PositiveInteger(input.roomsTotal)
      && input.configurations.List? && |input.configurations.entries| > 0
      && (forall k | 0 <= k < |input.configurations.entries| :: EntryValid(input.configurations.entries[k]))
      && QuantitySum(input.configurations.entries) == input.roomsTotal.i
  {
    if input.configurations.List? {
      EntryErrorsEmpty(input.configurations.entries);
    }
  }

  /** `rooms_total` carries an error exactly when its own rules fail or the quantities do
      not add up to it. */
  lemma RoomsTotalError(input: StoreHotelInput, existingNits: set<string>, cities: set<int>)
    ensures RoomsTotal in StoreHotelErrors(input, existingNits, cities) <==> !PositiveInteger(input.roomsTotal) || SumMismatch(input)
  {
  }

  /** When `room_configurations` is not an array the sum is not checked: `rooms_total` is
      judged by its own rules alone, and the list itself is refused. */
  lemma NonArraySkipsSum(input: StoreHotelInput, existingNits: set<string>, cities: set<int>)
    requires !input.configurations.List?
    ensures RoomsTotal in StoreHotelErrors(input, existingNits, cities) <==> !PositiveInteger(input.roomsTotal)
    ensures RoomConfigurations in StoreHotelErrors(input, existingNits, cities)
  {
  }

  /** `rooms_total` 10 with quantities 4 and 5 is refused on `rooms_total`, even though every
      element is valid; 4 and 6 pass the sum check. */
  lemma SumMismatchExample()
    ensures var one := ConfigurationInput(Text("JUNIOR"), Text("TRIPLE"), Integer(4));
      var input := StoreHotelInput(Text("Decameron"), Text("Calle 1"), Text("12345"), Integer(10), Integer(1),
                                   List([one, one.(quantity := Integer(5))]));
      && RoomsTotal in StoreHotelErrors(input, {}, {1})
      && RoomsTotal !in StoreHotelErrors(input.(configurations := List([one, one.(quantity := Integer(6))])), {}, {1})
  {
    var one := ConfigurationInput(Text("JUNIOR"), Text("TRIPLE"), Integer(4));
    var five, six := one.(quantity := Integer(5)), one.(quantity := Integer(6));
    assert [one, five][1..] == [five] && [one, six][1..] == [six];
    assert QuantitySum([one, five]) == 4 + QuantitySum([five]) == 4 + 5 + QuantitySum([]);
    assert QuantitySum([one, six]) == 4 + QuantitySum([six]) == 4 + 6 + QuantitySum([]);
    var input := StoreHotelInput(Text("Decameron"), Text("Calle 1"), Text("12345"), Integer(10), Integer(1), List([one, five]));
    RoomsTotalError(input, {}, {1});
    RoomsTotalError(input.(configurations := List([one, six])), {}, {1});
  }

  /** The entry HotelService::create receives for a valid element. */
  function Validated(e: ConfigurationInput): NamedEntry
    requires EntryValid(e)
  {
    NamedEntry(e.roomType.s, Some(e.accommodation.s), e.quantity.i as nat)
  }

  /** The entries HotelService::create receives from an accepted request. */
  function ValidatedEntries(entries: seq<ConfigurationInput>): (r: seq<NamedEntry>)
    requires forall k | 0 <= k < |entries| :: EntryValid(entries[k])
    ensures |r| == |entries|
    ensures forall k | 0 <= k < |entries| :: r[k] == Validated(entries[k])
  {
    if entries == [] then [] else [Validated(entries[0])] + ValidatedEntries(entries[1..])
  }

  /** Passing the entries on keeps the total they ask for. */
  lemma {:induction false} ValidatedEntriesSum(entries: seq<ConfigurationInput>)
    requires forall k | 0 <= k < |entries| :: EntryValid(entries[k])
    ensures EntriesSum(ValidatedEntries(entries)) == QuantitySum(entries)
    decreases |entries|
  {
    if entries != [] {
      ValidatedEntriesSum(entries[1..]);
      assert ValidatedEntries(entries)[1..] == ValidatedEntries(entries[1..]);
    }
  }

  /** An accepted request hands `create` entries that ask for exactly `rooms_total` rooms. */
  lemma StoreHotelGuaranteesExactCapacity(input: StoreHotelInput, existingNits: set<string>, cities: set<int>)
    requires StoreHotelErrors(input, existingNits, cities) == {}
    ensures input.configurations.List? && forall k | 0 <= k < |input.configurations.entries| :: EntryValid(input.configurations.entries[k])
    ensures input.roomsTotal.Integer? && input.roomsTotal.i >= 1
    ensures EntriesSum(ValidatedEntries(input.configurations.entries)) == input.roomsTotal.i
  {
    StoreHotelAccepted(input, existingNits, cities);
    ValidatedEntriesSum(input.configurations.entries);
  }

  /** A hotel created from an accepted request whose configuration rows are all inserted
      holds exactly `rooms_total` rooms. */
  lemma ValidatedHotelIsFull(input: StoreHotelInput, existingNits: set<string>, cities: set<int>,
                             rows: seq<RoomRow>, hotels: map<nat, Hotel>,
                             roomTypes: seq<CatalogEntry>, accommodations: seq<CatalogEntry>, hotelId: nat, nextId: nat)
    requires StoreHotelErrors(input, existingNits, cities) == {}
    requires input.configurations.List? && forall k | 0 <= k < |input.configurations.entries| :: EntryValid(input.configurations.entries[k])
    requires InsertAll(ResolveAll(ValidatedEntries(input.configurations.entries), roomTypes, accommodations),
                       rows, hotels, roomTypes, accommodations, hotelId, nextId).Ok?
    ensures HotelSum(InsertAll(ResolveAll(ValidatedEntries(input.configurations.entries), roomTypes, accommodations),
                               rows, hotels, roomTypes, accommodations, hotelId, nextId).value, hotelId)
            == input.roomsTotal.i
  {
    StoreHotelGuaranteesExactCapacity(input, existingNits, cities);
    InsertAllSum(ValidatedEntries(input.configurations.entries), rows, hotels, roomTypes, accommodations, hotelId, nextId);
  }

  // ---------------------------------------------------------------------------
  // UpdateHotelRoomConfigurationRequest

  /** The `unique` rule on `room_type_id`: another configuration of the hotel, whatever its
      accommodation, with this room type. */
  predicate RoomTypeTaken(configs: seq<RoomRow>, hotelId: int, configurationId: int, roomTypeId: int) {
    exists k | 0 <= k < |configs| ::
      configs[k].id != configurationId && configs[k].hotelId == hotelId && configs[k].roomTypeId == roomTypeId
  }

  /** `rules()` of UpdateHotelRoomConfigurationRequest for configuration `configurationId`
      of hotel `hotelId`, both taken from the route. */
  function UpdateConfigurationErrors(configs: seq<RoomRow>, roomTypes: seq<CatalogEntry>, hotelId: int, configurationId: int,
                                     roomTypeId: Value, quantity: Value): (r: set<Field>)
    ensures r <= {RoomTypeId, Quantity}
    ensures RoomTypeId !in r ==>
      && roomTypeId.Integer? && InCatalog(roomTypes, roomTypeId.i)
      && forall k | 0 <= k < |configs| && configs[k].hotelId == hotelId && configs[k].id != configurationId ::
           configs[k].roomTypeId != roomTypeId.i
  {
    (if ExistingId(roomTypeId, roomTypes) && !RoomTypeTaken(configs, hotelId, configurationId, roomTypeId.i) then {} else {RoomTypeId})
    + (if PositiveInteger(quantity) then {} else {Quantity})
  }

  /** Another configuration of the same hotel with the same room type refuses the request,
      even when its accommodation differs. */
  lemma SameRoomTypeRefused(configs: seq<RoomRow>, roomTypes: seq<CatalogEntry>, configurationId: int, other: RoomRow, quantity: Value)
    requires other in configs && other.id != configurationId
    ensures RoomTypeId in UpdateConfigurationErrors(configs, roomTypes, other.hotelId, configurationId, Integer(other.roomTypeId), quantity)
  {
    var k :| 0 <= k < |configs| && configs[k] == other;
  }

  /** Re-submitting the room type of the configuration itself passes when no other
      configuration of the hotel has it: the row being updated is ignored. */
  lemma OwnRoomTypeAccepted(configs: seq<RoomRow>, roomTypes: seq<CatalogEntry>, hotelId: int, configurationId: int,
                            roomTypeId: int, quantity: Value)
    requires InCatalog(roomTypes, roomTypeId)
    requires forall x | x in configs && x.hotelId == hotelId && x.roomTypeId == roomTypeId :: x.id == configurationId
    ensures RoomTypeId !in UpdateConfigurationErrors(configs, roomTypes, hotelId, configurationId, Integer(roomTypeId), quantity)
  {
  }

  /** Only the hotel's own configurations matter: the same room type elsewhere does not
      conflict. */
  lemma OtherHotelsIgnored(configs: seq<RoomRow>, roomTypes: seq<CatalogEntry>, hotelId: nat, configurationId: int,
                           roomTypeId: Value, quantity: Value)
    ensures UpdateConfigurationErrors(configs, roomTypes, hotelId, configurationId, roomTypeId, quantity)
         == UpdateConfigurationErrors(Select(configs, hotelId, true), roomTypes, hotelId, configurationId, roomTypeId, quantity)
  {
    var mine := Select(configs, hotelId, true);
    if roomTypeId.Integer? {
      if RoomTypeTaken(configs, hotelId, configurationId, roomTypeId.i) {
        var k :| 0 <= k < |configs| && configs[k].id != configurationId && configs[k].hotelId == hotelId && configs[k].roomTypeId == roomTypeId.i;
        assert configs[k] in mine;
      }
      if RoomTypeTaken(mine, hotelId, configurationId, roomTypeId.i) {
        var k :| 0 <= k < |mine| && mine[k].id != configurationId && mine[k].hotelId == hotelId && mine[k].roomTypeId == roomTypeId.i;
        assert mine[k] in configs;
      }
    }
  }

  /** Two configurations of a hotel may share a room type under different accommodations
      (the table's unique key allows it); then neither can be updated, not even with its own
      room type. */
  lemma SharedRoomTypeBlocksUpdate(configs: seq<RoomRow>, roomTypes: seq<CatalogEntry>, a: RoomRow, b: RoomRow, quantity: Value)
    requires a in configs && b in configs && a.id != b.id
    requires a.hotelId == b.hotelId && a.roomTypeId == b.roomTypeId
    ensures RoomTypeId in UpdateConfigurationErrors(configs, roomTypes, a.hotelId, a.id, Integer(a.roomTypeId), quantity)
    ensures RoomTypeId in UpdateConfigurationErrors(configs, roomTypes, b.hotelId, b.id, Integer(b.roomTypeId), quantity)
  {
    SameRoomTypeRefused(configs, roomTypes, a.id, b, quantity);
    SameRoomTypeRefused(configs, roomTypes, b.id, a, quantity);
  }

  // ---------------------------------------------------------------------------
  // StoreHotelRoomRequest and UpdateHotelRoomRequest

  /** The `Rule::unique('hotel_rooms')` query on `room_type_id`: a row of hotel `hotelId`,
      other than the ignored one, with this room type and the accommodation of the input.
      An accommodation input that is not an integer matches no row. */
  predicate PairTaken(rooms: seq<RoomRow>, hotelId: int, ignore: Option<int>, roomTypeId: int, accommodationId: Value) {
    && accommodationId.Integer?
    && exists k | 0 <= k < |rooms| ::
      && (ignore.None? || rooms[k].id != ignore.value)
      && rooms[k].hotelId == hotelId && rooms[k].roomTypeId == roomTypeId && rooms[k].accommodationId == accommodationId.i
  }

  /** `rules()` of StoreHotelRoomRequest for hotel `hotelId`, taken from the route. */
  function StoreRoomErrors(rooms: seq<RoomRow>, roomTypes: seq<CatalogEntry>, accommodations: seq<CatalogEntry>, hotelId: int,
                           roomTypeId: Value, accommodationId: Value, quantity: Value): (r: set<Field>)
    ensures r <= {RoomTypeId, AccommodationId, Quantity}
    ensures r == {} ==>
      && roomTypeId.Integer? && accommodationId.Integer? && PositiveInteger(quantity)
      && forall k | 0 <= k < |rooms| && rooms[k].hotelId == hotelId ::
           (rooms[k].roomTypeId, rooms[k].accommodationId) != (roomTypeId.i, accommodationId.i)
  {
    (if ExistingId(roomTypeId, roomTypes) && !PairTaken(rooms, hotelId, None, roomTypeId.i, accommodationId) then {} else {RoomTypeId})
    + (if ExistingId(accommodationId, accommodations) then {} else {AccommodationId})
    + (if PositiveInteger(quantity) then {} else {Quantity})
  }

  /** StoreHotelRoomRequest accepts exactly the rows the `hotel_rooms` table accepts for an
      existing hotel: ids in their catalogs, a (hotel, room type, accommodation) key no row
      holds, and a quantity of at least 1. In particular the same room type under another
      accommodation, or the same pair in another hotel, is accepted. */
  lemma StoreRoomAcceptedIff(rooms: seq<RoomRow>, nextId: nat, hotels: map<nat, Hotel>,
                             roomTypes: seq<CatalogEntry>, accommodations: seq<CatalogEntry>,
                             hotelId: nat, data: ConfigData)
    requires TableValid(rooms, nextId, hotels, roomTypes, accommodations) && hotelId in hotels
    ensures StoreRoomErrors(rooms, roomTypes, accommodations, hotelId,
                            Integer(data.roomTypeId), Integer(data.accommodationId), Integer(data.quantity)) == {}
        <==> data.quantity >= 1 && WriteViolation(rooms, NewRow(nextId, hotelId, data), hotels, roomTypes, accommodations).None?
  {
    var row := NewRow(nextId, hotelId, data);
    assert forall k | 0 <= k < |rooms| :: rooms[k] in rooms;
    if PairTaken(rooms, hotelId, None, data.roomTypeId, Integer(data.accommodationId)) {
      var k :| 0 <= k < |rooms| && rooms[k].hotelId == hotelId && rooms[k].roomTypeId == data.roomTypeId && rooms[k].accommodationId == data.accommodationId;
      assert rooms[k].id != row.id && KeyOf(rooms[k]) == KeyOf(row);
    }
  }

  /** `rules()` of UpdateHotelRoomRequest for row `hotelRoomId` of hotel `hotelId`, both
      taken from the route: every rule is `sometimes`, so an absent field is not checked. */
  function UpdateRoomErrors(rooms: seq<RoomRow>, roomTypes: seq<CatalogEntry>, accommodations: seq<CatalogEntry>,
                            hotelId: int, hotelRoomId: int,
                            roomTypeId: Value, accommodationId: Value, quantity: Value): (r: set<Field>)
    ensures r <= {RoomTypeId, AccommodationId, Quantity}
    ensures r == {} && !roomTypeId.Absent? && !accommodationId.Absent? ==>
      && roomTypeId.Integer? && accommodationId.Integer?
      && forall k | 0 <= k < |rooms| && rooms[k].hotelId == hotelId && rooms[k].id != hotelRoomId ::
           (rooms[k].roomTypeId, rooms[k].accommodationId) != (roomTypeId.i, accommodationId.i)
  {
    (if roomTypeId.Absent? || (ExistingId(roomTypeId, roomTypes) && !PairTaken(rooms, hotelId, Some(hotelRoomId), roomTypeId.i, accommodationId))
     then {} else {RoomTypeId})
    + (if accommodationId.Absent? || ExistingId(accommodationId, accommodations) then {} else {AccommodationId})
    + (if quantity.Absent? || PositiveInteger(quantity) then {} else {Quantity})
  }

  /** An absent field carries no error, and a present one is checked as in the store
      request. */
  lemma UpdateRoomOptionalFields(rooms: seq<RoomRow>, roomTypes: seq<CatalogEntry>, accommodations: seq<CatalogEntry>,
                                 hotelId: int, hotelRoomId: int, roomTypeId: Value, accommodationId: Value, quantity: Value)
    ensures var errors := UpdateRoomErrors(rooms, roomTypes, accommodations, hotelId, hotelRoomId, roomTypeId, accommodationId, quantity);
      && (roomTypeId.Absent? ==> RoomTypeId !in errors)
      && (accommodationId.Absent? ==> AccommodationId !in errors)
      && (!quantity.Absent? ==> (Quantity in errors <==> !PositiveInteger(quantity)))
      && (!accommodationId.Absent? ==> (AccommodationId in errors <==> !ExistingId(accommodationId, accommodations)))
  {
  }

  /** Keeping the row's own room type and accommodation passes: the row being edited is
      ignored, and no other row of the table holds its key. */
  lemma KeepingOwnPairAccepted(rooms: seq<RoomRow>, nextId: nat, hotels: map<nat, Hotel>,
                               roomTypes: seq<CatalogEntry>, accommodations: seq<CatalogEntry>, self: RoomRow, quantity: Value)
    requires TableValid(rooms, nextId, hotels, roomTypes, accommodations) && self in rooms
    ensures RoomTypeId !in UpdateRoomErrors(rooms, roomTypes, accommodations, self.hotelId, self.id,
                                            Integer(self.roomTypeId), Integer(self.accommodationId), quantity)
    ensures AccommodationId !in UpdateRoomErrors(rooms, roomTypes, accommodations, self.hotelId, self.id,
                                                 Integer(self.roomTypeId), Integer(self.accommodationId), quantity)
  {
    var i :| 0 <= i < |rooms| && rooms[i] == self;
  }

  /** Another row of the hotel with the requested pair refuses the request. */
  lemma OtherRowPairRefused(rooms: seq<RoomRow>, roomTypes: seq<CatalogEntry>, accommodations: seq<CatalogEntry>,
                            hotelRoomId: int, other: RoomRow, quantity: Value)
    requires other in rooms && other.id != hotelRoomId
    ensures RoomTypeId in UpdateRoomErrors(rooms, roomTypes, accommodations, other.hotelId, hotelRoomId,
                                           Integer(other.roomTypeId), Integer(other.accommodationId), quantity)
  {
    var k :| 0 <= k < |rooms| && rooms[k] == other;
  }

  /** With both ids present, an accepted update gives the edited row a key no other row
      holds, so the table's unique index will not refuse it. */
  lemma AcceptedUpdateKeepsKeysDistinct(rooms: seq<RoomRow>, roomTypes: seq<CatalogEntry>, accommodations: seq<CatalogEntry>,
                                        self: RoomRow, patch: ConfigPatch)
    requires patch.roomTypeId.Some? && patch.accommodationId.Some?
    requires var q := if patch.quantity.Some? then Integer(patch.quantity.value) else Absent;
      UpdateRoomErrors(rooms, roomTypes, accommodations, self.hotelId, self.id,
                       Integer(patch.roomTypeId.value), Integer(patch.accommodationId.value), q) == {}
    ensures forall k | 0 <= k < |rooms| && rooms[k].id != self.id :: KeyOf(rooms[k]) != KeyOf(ApplyConfigPatch(self, patch))
  {
  }

  /** When only the room type is sent, the pair is not checked at all (the unique query
      looks for a null accommodation), so a patch the table's unique index refuses still
      passes: row 2 of hotel 1 moved onto the room type of row 1, which has the same
      accommodation. */
  lemma RoomTypeOnlyUpdateSkipsPairCheck()
    ensures var rooms := [RoomRow(1, 1, 1, 1, 5), RoomRow(2, 1, 2, 1, 5)];
      var catalog := [CatalogEntry(1, "ESTANDAR"), CatalogEntry(2, "JUNIOR")];
      && UpdateRoomErrors(rooms, catalog, catalog, 1, 2, Integer(1), Absent, Absent) == {}
      && WriteViolation(rooms, ApplyConfigPatch(rooms[1], ConfigPatch(Some(1), None, None)), map[1 := Hotel("", "", "", 10, 1)], catalog, catalog)
         == Some(DuplicateKey)
  {
    var rooms := [RoomRow(1, 1, 1, 1, 5), RoomRow(2, 1, 2, 1, 5)];
    var row := ApplyConfigPatch(rooms[1], ConfigPatch(Some(1), None, None));
    assert rooms[0].id != row.id && KeyOf(rooms[0]) == KeyOf(row);
    var catalog := [CatalogEntry(1, "ESTANDAR"), CatalogEntry(2, "JUNIOR")];
    assert catalog[0].id == 1;
  }
}
