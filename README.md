# Hotel room-capacity bookkeeping

This project models how the hotel back end keeps each hotel's rooms within its
declared `rooms_total`, and the front-end form that repeats those rules. It covers:

- the `hotels`, `hotel_room_configurations` and `hotel_rooms` tables and their
  repositories;
- the services that add, change and remove configuration rows one at a time
  (HotelRoomConfigurationService, HotelRoomService);
- HotelService, which creates a hotel together with its whole configuration list
  and replaces that list on update, inside a transaction;
- AccommodationService's room-type/accommodation compatibility table;
- the form requests that validate these writes (StoreHotelRequest,
  UpdateHotelRoomConfigurationRequest, StoreHotelRoomRequest, UpdateHotelRoomRequest);
- the `HotelForm` editor of the front end: its live validation, its row editor and
  its submit guard.

The database is one `Store.Database` object. Each room table is a sequence of rows
in ascending id order. Its `Valid()` states what the schema enforces:

- ids below the auto-increment counter;
- the three foreign keys;
- the unique (hotel, room type, accommodation) index.

Repositories and services are classes that share that object and change it through
`modifies` clauses. Every writing method is proved to keep `Valid()`. The capacity
services also keep `Schema.WithinCapacity`: a hotel whose rows sum to at most its
`rooms_total` still does after any call. The transactional loops of HotelService
are proved against `HotelServices.InsertAll`, a pure description of a batch of
inserts. The form requests are functions from the input to the set of fields that
carry an error. The front-end editor is a class whose `errors` always equal
`HotelForm.FormErrors` of the current form.

Files:

- `common.dfy`: Option, Result and the error kinds.
- `schema.dfy`: rows, table shape, and the per-hotel sums with their lemmas.
- `database.dfy`: the database state.
- `repositories.dfy`: the three repositories.
- `capacity_services.dfy`: the row-at-a-time services.
- `hotel_service.dfy`: HotelService.
- `accommodation_service.dfy`: AccommodationService.
- `requests.dfy`: the form requests.
- `hotel_form.dfy`: the front-end editor.
- `consistency.dfy`: the back-end compatibility table compared with the front end's.

## Model

Source paths are under `api_hotels_decameron_back/` unless they start with
`api_hotels_decameron_front/`.

| member | source | states |
|---|---|---|
| Schema.FirstByName | api_hotels_decameron_back/app/Services/HotelService.php:80-81 | `where('name', …)->first()` finds an entry with exactly that name, or nothing exactly when no entry has it |
| Schema.FindEntry | api_hotels_decameron_back/app/Services/AccommodationService.php:61 | finding a catalog id succeeds exactly when the id is in the catalog, and returns that entry |
| Schema.WriteViolation | api_hotels_decameron_back/database/migrations/2025_08_13_153034_create_hotel_room_configurations_table.php:17-36 | a write is refused exactly when another row has the same (hotel, room type, accommodation) key or a foreign key is missing |
| Schema.IndexOfPosition | api_hotels_decameron_back/app/Repositories/HotelRoomConfigurationRepository.php:50-53 | in a table with ascending ids, looking up a row's id finds that very row |
| Schema.Select | api_hotels_decameron_back/app/Repositories/HotelRoomConfigurationRepository.php:98-131 | `where('hotel_id', …)` and its negation: a row is kept exactly when it is in the table and on the requested side of the hotel test; never more rows than the table |
| Schema.HotelSum | api_hotels_decameron_back/app/Repositories/HotelRoomConfigurationRepository.php:139-142 | `sum('quantity')` over a hotel's rows is at most the total of the whole column |
| Schema.SelectConcat | api_hotels_decameron_back/app/Repositories/HotelRoomConfigurationRepository.php:128-131 | selecting a hotel's rows distributes over concatenation of tables |
| Schema.SelectUniform | api_hotels_decameron_back/app/Repositories/HotelRoomConfigurationRepository.php:98-101 | when every row is on the same side of the hotel test, selecting that side keeps the whole table and selecting the other side keeps nothing |
| Schema.Cons | api_hotels_decameron_back/database/migrations/2025_08_13_153034_create_hotel_room_configurations_table.php:36 | a row with a smaller id and a new key can lead a valid table |
| Schema.SelectShape | api_hotels_decameron_back/database/migrations/2025_08_13_153034_create_hotel_room_configurations_table.php:17-20 | any selection of a valid table keeps ascending ids and distinct keys |
| Schema.HotelSumConcat | api_hotels_decameron_back/app/Repositories/HotelRoomConfigurationRepository.php:139-142 | a hotel's quantity sum over two tables is the sum of the two |
| Schema.HotelSumNone | api_hotels_decameron_back/app/Repositories/HotelRoomConfigurationRepository.php:98-101 | a table without rows of a hotel sums to 0 for it |
| Schema.SelectSum | api_hotels_decameron_back/app/Repositories/HotelRoomConfigurationRepository.php:139-142 | the total of the selected rows is the hotel's sum over the whole table, and other hotels see nothing |
| Schema.HotelSumReplace | api_hotels_decameron_back/app/Services/HotelRoomConfigurationService.php:71-72 | replacing a row changes a hotel's sum by the new contribution minus the old |
| Schema.HotelSumRemove | api_hotels_decameron_back/app/Repositories/HotelRoomConfigurationRepository.php:85-90 | removing a row lowers a hotel's sum by exactly that row's contribution |
| Schema.SumExceptSplit | api_hotels_decameron_back/app/Repositories/HotelRoomConfigurationRepository.php:111-120 | the sum that skips one id is the hotel's sum minus that row's contribution, or the whole sum when the id is absent |
| Schema.AppendKeepsCapacity | api_hotels_decameron_back/app/Services/HotelRoomConfigurationService.php:40-43 | appending a row whose hotel stays within `rooms_total` keeps every hotel within capacity |
| Schema.ReplaceKeepsCapacity | api_hotels_decameron_back/app/Services/HotelRoomConfigurationService.php:71-76 | replacing a row when sum − old + new ≤ `rooms_total` keeps every hotel within capacity |
| Schema.RemoveKeepsCapacity | api_hotels_decameron_back/app/Services/HotelRoomConfigurationService.php:87-90 | removing a row keeps every hotel within capacity |
| Store.RollbackValid | api_hotels_decameron_back/app/Services/HotelService.php:66-99 | restoring the tables after a failed transaction gives a valid state even though the counters stay advanced |
| Store.Database.constructor | api_hotels_decameron_back/database/migrations/2025_08_13_153034_create_hotel_room_configurations_table.php:14-37 | a fresh database is empty and valid |
| Repositories.HotelRepository.Find | api_hotels_decameron_back/app/Repositories/HotelRepository.php:26-29 | the stored hotel, or null exactly for an unknown id |
| Repositories.HotelRepository.Create | api_hotels_decameron_back/app/Repositories/HotelRepository.php:37-40 | adds the hotel under a fresh id, after which `find` returns it |
| Repositories.HotelRepository.Update | api_hotels_decameron_back/app/Repositories/HotelRepository.php:49-56 | null and no change for an unknown id; otherwise only that hotel changes, to the patched one, which is returned |
| Repositories.HotelRepository.Delete | api_hotels_decameron_back/app/Repositories/HotelRepository.php:64-67 | true exactly when the hotel existed; the hotel and, by cascade, all its rows in both tables are gone |
| Repositories.DropHotelKeepsTable | api_hotels_decameron_back/database/migrations/2025_08_13_153034_create_hotel_rooms_table.php:17-20 | deleting a hotel with its rows leaves a valid table |
| Repositories.WriteKeepsTable | api_hotels_decameron_back/database/migrations/2025_08_13_153034_create_hotel_rooms_table.php:35 | a write the schema accepts keeps the table valid |
| Repositories.RemovedPositions | api_hotels_decameron_back/app/Repositories/HotelRoomConfigurationRepository.php:85-90 | after removing position `i`, every other row keeps its relative order |
| Repositories.RemoveKeepsTable | api_hotels_decameron_back/app/Repositories/HotelRoomConfigurationRepository.php:85-90 | removing a row keeps the table valid |
| Repositories.HotelRoomConfigurationRepository.Find | api_hotels_decameron_back/app/Repositories/HotelRoomConfigurationRepository.php:50-53 | the row with that id, or null exactly when no row has it |
| Repositories.HotelRoomConfigurationRepository.Create | api_hotels_decameron_back/app/Repositories/HotelRoomConfigurationRepository.php:39-42 | appends exactly the new row under the next id, or returns the schema's refusal and changes nothing |
| Repositories.HotelRoomConfigurationRepository.Update | api_hotels_decameron_back/app/Repositories/HotelRoomConfigurationRepository.php:65-75 | null and no change for an unknown id; otherwise only that row changes, to the patched row, which is returned |
| Repositories.HotelRoomConfigurationRepository.Delete | api_hotels_decameron_back/app/Repositories/HotelRoomConfigurationRepository.php:85-90 | false and no change for an unknown id; otherwise exactly that row is removed |
| Repositories.HotelRoomConfigurationRepository.DeleteByHotelId | api_hotels_decameron_back/app/Repositories/HotelRoomConfigurationRepository.php:98-101 | removes exactly the hotel's rows, keeps all others in order, and returns how many it removed |
| Repositories.HotelRoomConfigurationRepository.GetExistingRoomsQuantity | api_hotels_decameron_back/app/Repositories/HotelRoomConfigurationRepository.php:111-120 | the hotel's sum without the excluded row; a null or 0 exclude-id excludes nothing |
| Repositories.HotelRoomConfigurationRepository.GetByHotelId | api_hotels_decameron_back/app/Repositories/HotelRoomConfigurationRepository.php:128-131 | exactly the rows of the hotel |
| Repositories.HotelRoomConfigurationRepository.GetTotalRoomQuantityByHotelId | api_hotels_decameron_back/app/Repositories/HotelRoomConfigurationRepository.php:139-142 | the sum of the quantities of exactly the hotel's rows |
| Repositories.HotelRoomRepository.Find | api_hotels_decameron_back/app/Repositories/HotelRoomRepository.php:26-29 | the row with that id, or null exactly when no row has it |
| Repositories.HotelRoomRepository.GetByHotelId | api_hotels_decameron_back/app/Repositories/HotelRoomRepository.php:37-40 | exactly the rows of the hotel |
| Repositories.HotelRoomRepository.CountByHotelId | api_hotels_decameron_back/app/Repositories/HotelRoomRepository.php:48-51 | the sum of the quantities of the hotel's rows, not their number |
| Repositories.HotelRoomRepository.Create | api_hotels_decameron_back/app/Repositories/HotelRoomRepository.php:59-62 | appends exactly the new row under the next id, or returns the schema's refusal and changes nothing |
| CapacityServices.ValidateRoomsTotal | api_hotels_decameron_back/app/Services/HotelRoomConfigurationService.php:100-109 | refuses on `quantity` exactly when the new total exceeds `rooms_total`, so equality passes |
| CapacityServices.HotelRoomConfigurationService.Create | api_hotels_decameron_back/app/Services/HotelRoomConfigurationService.php:30-44 | `hotel_id` error for an unknown hotel; `quantity` error exactly when sum + quantity > `rooms_total`; otherwise exactly the data plus `hotel_id` is stored; capacity is preserved and a failure changes nothing |
| CapacityServices.HotelRoomConfigurationService.Update | api_hotels_decameron_back/app/Services/HotelRoomConfigurationService.php:54-79 | null for an unknown id; sum − old quantity + new quantity is checked against `rooms_total`; on success only the target row changes; capacity is preserved and a failure changes nothing |
| CapacityServices.HotelRoomConfigurationService.Delete | api_hotels_decameron_back/app/Services/HotelRoomConfigurationService.php:87-90 | true exactly when the row existed, removing only it; capacity is preserved |
| CapacityServices.HotelRoomService.Find | api_hotels_decameron_back/app/Services/HotelRoomService.php:44-47 | the row with that id, or null exactly when no row has it |
| CapacityServices.HotelRoomService.Create | api_hotels_decameron_back/app/Services/HotelRoomService.php:56-76 | an unknown hotel throws and stores nothing; `quantity` error exactly when the quantity sum + quantity > `rooms_total`; otherwise the data plus `hotel_id` is stored; capacity is preserved |
| HotelServices.Resolve | api_hotels_decameron_back/app/Services/HotelService.php:76-95 | an entry resolves exactly when it has an accommodation and both names are in their catalogs, to those entries' ids and its quantity |
| HotelServices.ResolveAll | api_hotels_decameron_back/app/Services/HotelService.php:73-96 | one resolution per entry, in order |
| HotelServices.AsItems | api_hotels_decameron_back/app/Services/HotelService.php:129-137 | the replacement list as items, one per element, in order |
| HotelServices.Attempt | api_hotels_decameron_back/app/Services/HotelService.php:91-95 | inserting one item succeeds exactly when it resolved and the schema accepts its row, owned by the hotel |
| HotelServices.InsertAll | api_hotels_decameron_back/app/Services/HotelService.php:73-96 | a successful batch yields one row per item; any item that failed to resolve makes the batch fail |
| HotelServices.InsertAllRows | api_hotels_decameron_back/app/Services/HotelService.php:73-96 | a successful batch has one row per entry, in order, with consecutive ids, owned by the hotel |
| HotelServices.BatchOwnsHotel | api_hotels_decameron_back/app/Services/HotelService.php:124-138 | after a successful batch for a hotel without rows, the hotel's rows are exactly the batch |
| HotelServices.InsertAllSum | api_hotels_decameron_back/app/Services/HotelService.php:91-95 | a successful batch adds exactly the entries' quantities to the hotel |
| HotelServices.InsertAllIgnoresCapacity | api_hotels_decameron_back/app/Services/HotelService.php:64-142 | whether a batch succeeds does not depend on `rooms_total` |
| HotelServices.InsertAllStep | api_hotels_decameron_back/app/Services/HotelService.php:73-96 | an inserted item moves from the batch to the rows done |
| HotelServices.InsertAllStops | api_hotels_decameron_back/app/Services/HotelService.php:76-89 | the first failing item's error is the batch's error |
| HotelServices.InsertAllAdvance | api_hotels_decameron_back/app/Services/HotelService.php:73-96 | one loop iteration advances the batch, whichever way its item goes |
| HotelServices.InsertAllDone | api_hotels_decameron_back/app/Services/HotelService.php:98 | a batch with no items left returns the rows done |
| HotelServices.HotelService.Create | api_hotels_decameron_back/app/Services/HotelService.php:64-100 | all or nothing: on success the hotel is added, its rows are exactly the batch and sum to the entries' quantities; on failure hotels and rows are as before |
| HotelServices.HotelService.CreateWithConfigurations | api_hotels_decameron_back/app/Services/HotelService.php:66-99 | inserts the hotel, then the batch; the result is the batch's outcome |
| HotelServices.HotelService.CreateEntry | api_hotels_decameron_back/app/Services/HotelService.php:74-95 | one loop iteration: the lookups in source order, then the insert, advance the batch by one step |
| HotelServices.HotelService.CreateConfigurations | api_hotels_decameron_back/app/Services/HotelService.php:73-96 | the loop returns exactly `InsertAll` of the resolved entries and appends its rows |
| HotelServices.HotelService.Update | api_hotels_decameron_back/app/Services/HotelService.php:110-142 | null and no change for an unknown hotel; without a list only the hotel's columns change; with a list the hotel's rows become exactly the list, or on failure nothing changes |
| HotelServices.HotelService.ReplaceConfigurations | api_hotels_decameron_back/app/Services/HotelService.php:124-138 | deletes the hotel's rows, then inserts the list; the result is the batch over the remaining rows |
| HotelServices.HotelService.InsertEntry | api_hotels_decameron_back/app/Services/HotelService.php:129-137 | one insert of the replacement list advances the batch by one step |
| HotelServices.HotelService.InsertBatch | api_hotels_decameron_back/app/Services/HotelService.php:129-137 | the `createMany` loop returns exactly `InsertAll` of the list and appends its rows |
| HotelServices.HotelService.Delete | api_hotels_decameron_back/app/Services/HotelService.php:150-153 | true exactly when the hotel existed; it and all its rows are gone |
| AccommodationServices.CheckCompatibility | api_hotels_decameron_back/app/Services/AccommodationService.php:76-80 | passes exactly when the room-type name is a key and lists the accommodation; otherwise the undefined-key exception or an `accommodation` error |
| AccommodationServices.CreateResult | api_hotels_decameron_back/app/Services/AccommodationService.php:58-85 | succeeds exactly when the room type exists and the table allows the accommodation for its name; the record is the data plus `hotel_id` |
| AccommodationServices.AccommodationMapPairs | api_hotels_decameron_back/app/Services/AccommodationService.php:69-73 | the table allows exactly the seven listed (room type, accommodation) name pairs |
| AccommodationServices.UnlistedRoomTypeNeverAccepted | api_hotels_decameron_back/app/Services/AccommodationService.php:76 | a room type whose name is not a key always fails with the undefined-key exception |
| AccommodationServices.DisallowedAccommodationRefused | api_hotels_decameron_back/app/Services/AccommodationService.php:76-80 | an accommodation outside its room type's list is refused on `accommodation` |
| AccommodationServices.UnknownRoomTypeRefused | api_hotels_decameron_back/app/Services/AccommodationService.php:61-65 | an unknown room-type id throws before anything else is checked |
| AccommodationServices.SeededRoomTypesRefused | api_hotels_decameron_back/app/Services/AccommodationService.php:69-76 | over the seeded room types, `create` as written never succeeds |
| AccommodationServices.AccommodationRepository.Create | api_hotels_decameron_back/app/Services/AccommodationService.php:84 | the record is appended |
| AccommodationServices.AccommodationService.Create | api_hotels_decameron_back/app/Services/AccommodationService.php:58-85 | returns `CreateResult` and stores the record exactly when it succeeds |
| Requests.EntryErrors | api_hotels_decameron_back/app/Http/Requests/StoreHotelRequest.php:33-35 | the wildcard rules only report element fields (room type, accommodation, quantity), each under the index of an element of the list |
| Requests.QuantitySum | api_hotels_decameron_back/app/Http/Requests/StoreHotelRequest.php:54 | when every element's quantity is an integer ≥ 1, the sum is at least the number of elements |
| Requests.StoreHotelErrors | api_hotels_decameron_back/app/Http/Requests/StoreHotelRequest.php:25-64 | no error only for a non-empty array of elements and an integer `rooms_total` ≥ 1 equal to the quantity sum |
| Requests.EntryErrorsAt | api_hotels_decameron_back/app/Http/Requests/StoreHotelRequest.php:33-35 | every element's own errors are reported, under its own index |
| Requests.EntryErrorsFrom | api_hotels_decameron_back/app/Http/Requests/StoreHotelRequest.php:33-35 | every element error belongs to some element |
| Requests.EntryErrorsEmpty | api_hotels_decameron_back/app/Http/Requests/StoreHotelRequest.php:33-35 | the element rules pass exactly when every element is valid |
| Requests.EntryQuantityAt | api_hotels_decameron_back/app/Http/Requests/StoreHotelRequest.php:35 | the quantity error of the element at position `index` is reported exactly when that element's quantity is not an integer ≥ 1 |
| Requests.StoreHotelAccepted | api_hotels_decameron_back/app/Http/Requests/StoreHotelRequest.php:25-64 | accepted exactly when name and address are non-blank strings of at most 255 characters, the nit has 5 to 20 characters and is new, the city exists, `rooms_total` is an integer ≥ 1, and the list is non-empty with valid elements whose quantities sum to `rooms_total` |
| Requests.RoomsTotalError | api_hotels_decameron_back/app/Http/Requests/StoreHotelRequest.php:53-61 | `rooms_total` has an error exactly when its own rules fail or the list's quantity sum differs from it |
| Requests.NonArraySkipsSum | api_hotels_decameron_back/app/Http/Requests/StoreHotelRequest.php:49-51 | without an array the sum is not checked, and the list itself is refused |
| Requests.SumMismatchExample | api_hotels_decameron_back/app/Http/Requests/StoreHotelRequest.php:53-61 | total 10 with quantities 4 and 5 is refused on `rooms_total`; 4 and 6 pass |
| Requests.ValidatedEntries | api_hotels_decameron_back/app/Http/Requests/StoreHotelRequest.php:33-35 | one entry for `create` per valid element, in order |
| Requests.ValidatedEntriesSum | api_hotels_decameron_back/app/Http/Requests/StoreHotelRequest.php:54 | passing the elements on keeps their quantity sum |
| Requests.StoreHotelGuaranteesExactCapacity | api_hotels_decameron_back/app/Http/Requests/StoreHotelRequest.php:53-61 | an accepted request asks for exactly `rooms_total` rooms |
| Requests.ValidatedHotelIsFull | api_hotels_decameron_back/app/Http/Requests/StoreHotelRequest.php:53-61 | a hotel created from an accepted request holds exactly `rooms_total` rooms |
| Requests.UpdateConfigurationErrors | api_hotels_decameron_back/app/Http/Requests/UpdateHotelRoomConfigurationRequest.php:26-37 | errors only on `room_type_id` and `quantity`; a room type without error is an integer id of the catalog that no other row of the hotel holds |
| Requests.SameRoomTypeRefused | api_hotels_decameron_back/app/Http/Requests/UpdateHotelRoomConfigurationRequest.php:34 | another row of the hotel with the same room type refuses the request, whatever its accommodation |
| Requests.OwnRoomTypeAccepted | api_hotels_decameron_back/app/Http/Requests/UpdateHotelRoomConfigurationRequest.php:26-34 | re-submitting the row's own room type passes: the row itself is ignored |
| Requests.OtherHotelsIgnored | api_hotels_decameron_back/app/Http/Requests/UpdateHotelRoomConfigurationRequest.php:27-34 | only the hotel's own rows decide the outcome |
| Requests.SharedRoomTypeBlocksUpdate | api_hotels_decameron_back/app/Http/Requests/UpdateHotelRoomConfigurationRequest.php:34 | two rows of a hotel with one room type can neither be updated |
| Requests.StoreRoomErrors | api_hotels_decameron_back/app/Http/Requests/StoreHotelRoomRequest.php:25-46 | errors only on the three fields; without errors both ids are integers, the quantity is an integer ≥ 1 and no row of the hotel has the pair |
| Requests.StoreRoomAcceptedIff | api_hotels_decameron_back/app/Http/Requests/StoreHotelRoomRequest.php:27-45 | accepted exactly when quantity ≥ 1 and the table accepts the new row: known ids, a new (hotel, room type, accommodation) key |
| Requests.UpdateRoomErrors | api_hotels_decameron_back/app/Http/Requests/UpdateHotelRoomRequest.php:25-45 | errors only on the three fields; without errors and with both ids sent, they are integers and no other row of the hotel has the pair |
| Requests.UpdateRoomOptionalFields | api_hotels_decameron_back/app/Http/Requests/UpdateHotelRoomRequest.php:28-44 | an absent field carries no error; a present quantity or accommodation is checked as on store |
| Requests.KeepingOwnPairAccepted | api_hotels_decameron_back/app/Http/Requests/UpdateHotelRoomRequest.php:30-34 | keeping the row's own pair passes |
| Requests.OtherRowPairRefused | api_hotels_decameron_back/app/Http/Requests/UpdateHotelRoomRequest.php:30-34 | another row of the hotel with the requested pair refuses the request |
| Requests.AcceptedUpdateKeepsKeysDistinct | api_hotels_decameron_back/app/Http/Requests/UpdateHotelRoomRequest.php:27-39 | with both ids sent, an accepted update gives the row a key no other row holds |
| Requests.RoomTypeOnlyUpdateSkipsPairCheck | api_hotels_decameron_back/app/Http/Requests/UpdateHotelRoomRequest.php:30-34 | with only a room type sent the pair is not checked, so a patch the unique index refuses passes |
| HotelForm.FindRoomType | api_hotels_decameron_front/src/hotels/HotelForm.tsx:120 | the room type with that id, or none exactly when no entry has it |
| HotelForm.FirstNonSpace | api_hotels_decameron_front/src/hotels/HotelForm.tsx:83 | the index of the first non-space character at or after `i`, or the end; everything skipped is white space |
| HotelForm.EndOfNonSpace | api_hotels_decameron_front/src/hotels/HotelForm.tsx:83 | the index just past the last non-space character before `j`, or 0; everything skipped is white space |
| HotelForm.TrimStart | api_hotels_decameron_front/src/hotels/HotelForm.tsx:83 | starts with no white space, no longer than the string, and empty exactly when the string is all white space |
| HotelForm.TrimEnd | api_hotels_decameron_front/src/hotels/HotelForm.tsx:83 | ends with no white space, no longer than the string, and empty exactly when the string is all white space |
| HotelForm.Trim | api_hotels_decameron_front/src/hotels/HotelForm.tsx:83-92 | empty exactly when the string is all white space; otherwise it starts and ends with a non-space |
| HotelForm.TrimStartDropsSpace | api_hotels_decameron_front/src/hotels/HotelForm.tsx:83 | what `trimStart` keeps is a suffix of the string, and everything before it is white space |
| HotelForm.TrimEndDropsSpace | api_hotels_decameron_front/src/hotels/HotelForm.tsx:83 | what `trimEnd` keeps is a prefix of the string, and everything after it is white space |
| HotelForm.TrimDropsOnlySpace | api_hotels_decameron_front/src/hotels/HotelForm.tsx:83-92 | `trim` keeps one contiguous piece of the string, and everything around it is white space |
| HotelForm.Lower | api_hotels_decameron_front/src/hotels/HotelForm.tsx:129-130 | same length, each character lower-cased |
| HotelForm.CodeUnits | api_hotels_decameron_front/src/hotels/HotelForm.tsx:87-88 | the first `n` characters take between `n` and `2n` UTF-16 code units, exactly `n` when none is outside the Basic Multilingual Plane |
| HotelForm.JsLength | api_hotels_decameron_front/src/hotels/HotelForm.tsx:87-88 | `.length` counts UTF-16 code units: between the number of characters and twice it, equal to it when every character is in the Basic Multilingual Plane |
| HotelForm.QuantityPrefix | api_hotels_decameron_front/src/hotels/HotelForm.tsx:70-77 | when the first `n` quantities are positive, their sum is at least `n` |
| HotelForm.SumQuantity | api_hotels_decameron_front/src/hotels/HotelForm.tsx:70-77 | when every quantity is positive, `sumQuantity` is at least the number of rows |
| HotelForm.RowCheck | api_hotels_decameron_front/src/hotels/HotelForm.tsx:105-124 | one visit of the row loop pushes at most four errors |
| HotelForm.RowErrors | api_hotels_decameron_front/src/hotels/HotelForm.tsx:104-124 | the first `n` rows push at most four errors each |
| HotelForm.FindFrom | api_hotels_decameron_front/src/hotels/HotelForm.tsx:133-136 | `find` returns nothing exactly when no element from `i` on is accepted; otherwise an accepted element with no accepted element before it |
| HotelForm.FindConflict | api_hotels_decameron_front/src/hotels/HotelForm.tsx:127-138 | a hotel is found exactly when some snapshot hotel, other than the one edited, has the trimmed nit or name ignoring case; it is such a hotel |
| HotelForm.Push | api_hotels_decameron_front/src/hotels/HotelForm.tsx:83-99 | `errs.push` under a condition adds nothing exactly when the condition is false, and only that error otherwise |
| HotelForm.HeaderErrors | api_hotels_decameron_front/src/hotels/HotelForm.tsx:83-99 | no header error exactly when name and address are not blank, the trimmed nit has 5 to 20 UTF-16 code units, `rooms_total` is positive and equals the quantity sum |
| HotelForm.FormErrors | api_hotels_decameron_front/src/hotels/HotelForm.tsx:80-142 | an empty row list always reports `NoRows`, and a clashing snapshot hotel always reports `HotelExists` |
| HotelForm.VisitRow | api_hotels_decameron_front/src/hotels/HotelForm.tsx:105-124 | the callback pushes exactly the row's errors and adds its key to `seen` |
| HotelForm.CollectRowErrors | api_hotels_decameron_front/src/hotels/HotelForm.tsx:104-124 | the loop leaves exactly the rows' errors, in row order |
| HotelForm.ValidationBlock | api_hotels_decameron_front/src/hotels/HotelForm.tsx:80-141 | the statements of the effect build exactly the validation result of the form |
| HotelForm.Spliced | api_hotels_decameron_front/src/hotels/HotelForm.tsx:158-162 | `splice(i, 1)` either leaves the rows unchanged or removes one, and adds no row |
| HotelForm.UpdatedRow | api_hotels_decameron_front/src/hotels/HotelForm.tsx:164-174 | the patched room type and quantity win; the patched accommodation wins when no room type is set or the type allows it; an accommodation the patch does not touch stays unless a room type is set |
| HotelForm.SplicedRemovesOne | api_hotels_decameron_front/src/hotels/HotelForm.tsx:158-162 | removing an index in range deletes exactly that row and keeps the rest in order; past the end nothing changes; -1 removes the last row |
| HotelForm.UpdatedRowAllowed | api_hotels_decameron_front/src/hotels/HotelForm.tsx:164-174 | after choosing a room type, the accommodation the merge gives is kept when the type allows it and becomes the type's first allowed accommodation otherwise; the quantity is the patched one |
| HotelForm.PairsBeforeMembers | api_hotels_decameron_front/src/hotels/HotelForm.tsx:104-110 | `seen` holds exactly the keys of the earlier rows |
| HotelForm.RowErrorsEmpty | api_hotels_decameron_front/src/hotels/HotelForm.tsx:105-124 | no row errors exactly when every row's checks pass |
| HotelForm.RowErrorsContain | api_hotels_decameron_front/src/hotels/HotelForm.tsx:105-124 | an error pushed for a row stays in the list |
| HotelForm.DuplicateReported | api_hotels_decameron_front/src/hotels/HotelForm.tsx:104-110 | a row is reported as a duplicate exactly when an earlier row has its pair, one error per later occurrence |
| HotelForm.RowCheckEmpty | api_hotels_decameron_front/src/hotels/HotelForm.tsx:105-124 | a row adds no error exactly when its pair is new, both ids are set, its quantity is positive and, when its room type is one of `ROOM_TYPES`, that type allows its accommodation |
| HotelForm.RowsAccepted | api_hotels_decameron_front/src/hotels/HotelForm.tsx:101-125 | the row loop pushes nothing exactly when every row is valid |
| HotelForm.FormErrorsEmpty | api_hotels_decameron_front/src/hotels/HotelForm.tsx:80-142 | no errors exactly when the header is valid, there is a row, no row has an error and no hotel clashes |
| HotelForm.FormAccepted | api_hotels_decameron_front/src/hotels/HotelForm.tsx:80-142 | no errors exactly when name and address are not blank, the trimmed nit has 5 to 20 UTF-16 code units, `rooms_total` is positive and equals the quantity sum, there is a row, every row is valid and no other hotel clashes |
| HotelForm.DefaultRowChecks | api_hotels_decameron_front/src/hotels/HotelForm.tsx:147-156 | the row `addRow` appends passes every row check; a second one is a duplicate |
| HotelForm.HotelFormComponent.constructor | api_hotels_decameron_front/src/hotels/HotelForm.tsx:53-65 | the initial form: each field of the hotel being edited, or its default (`""`, `0`, the first city, no rows) when absent, or all defaults without a hotel; editing exactly when the initial id is non-zero; its errors computed |
| HotelForm.HotelFormComponent.Validate | api_hotels_decameron_front/src/hotels/HotelForm.tsx:80-142 | `errors` becomes exactly the validation result of the form |
| HotelForm.HotelFormComponent.AddRow | api_hotels_decameron_front/src/hotels/HotelForm.tsx:147-156 | appends the default row and re-validates |
| HotelForm.HotelFormComponent.RemoveRow | api_hotels_decameron_front/src/hotels/HotelForm.tsx:158-162 | the rows with index `i` spliced out, re-validated |
| HotelForm.HotelFormComponent.UpdateRow | api_hotels_decameron_front/src/hotels/HotelForm.tsx:164-174 | only row `i` changes, to the patched row, re-validated |
| HotelForm.HotelFormComponent.Submit | api_hotels_decameron_front/src/hotels/HotelForm.tsx:176-196 | a payload exactly when there are no errors; it holds the trimmed fields, and its quantities sum to a positive `rooms_total` |
| Consistency.FormRoomTypesAreSeeded | api_hotels_decameron_front/src/hotels/HotelForm.tsx:31-35 | the editor's room types are the seeded ones, with the same ids and names |
| Consistency.ListedMatchesAllowed | api_hotels_decameron_back/database/seeders/AccommodationSeeder.php:17-22 | under the seeded names, each room type's list matches the editor's allowed ids |
| Consistency.SeededTableMatchesForm | api_hotels_decameron_back/app/Services/AccommodationService.php:69-80 | with the table keyed by the seeded names, a seeded pair passes exactly when the editor allows it |
| Consistency.SeededCreateMatchesForm | api_hotels_decameron_back/app/Services/AccommodationService.php:58-85 | with that table, `create` stores a seeded pair exactly when the editor would accept it |

## Left out

- HTTP controllers, routes, resources and dependency wiring are not modelled. Neither are authentication and authorization: the policy and every `authorize()` allow everything.
- Error messages are not modelled; errors are kinds and the field they are reported on.
- Transactions are modelled over one sequential state: a failed transaction restores the tables it touched. Locks and concurrent writers are not modelled. The auto-increment counters are not rolled back.
- A write the schema refuses does not consume an auto-increment id in the model.
- Hotel-table constraints are not modelled: the unique nit and name, the city and user foreign keys, ownership, and the 16-bit width of `quantity` and `rooms_total`.
- The database collation is not modelled: every string comparison is exact. This covers the nit's `unique` rule of StoreHotelRequest and the catalog lookups by name in HotelService `create` (`Schema.FirstByName`, api_hotels_decameron_back/app/Services/HotelService.php:80-81). A case-insensitive collation would make these match more. The unique rules of UpdateHotelRoomConfigurationRequest, StoreHotelRoomRequest and UpdateHotelRoomRequest compare integer ids, which a collation does not affect.
- Request values are modelled as absent, null, a string, an integer or something else. Numeric strings and floats in integer fields are not modelled. `(int)` of a non-integer `rooms_total` is taken as 0, which matters only for requests the `integer` rule already refuses.
- The front end sends room-type and accommodation ids, while StoreHotelRequest expects names. The model treats the two sides separately and does not connect them.
- HotelService `update` replaces the configuration list only when its input holds `room_configurations` (api_hotels_decameron_back/app/Services/HotelService.php:124). UpdateHotelRequest has no rule for that key (api_hotels_decameron_back/app/Http/Requests/UpdateHotelRequest.php:24-32), and HotelController passes `$request->validated()` (api_hotels_decameron_back/app/Http/Controllers/HotelController.php:62). So the replacing branch is never taken over HTTP. A direct call reaches it, with entries nothing has validated. The model takes every entry as holding its three keys. An entry missing one, which PHP reports as an undefined array key, is not modelled.
- `createRoomConfigurations` is not part of this model: nothing calls it.
- AccommodationRepository defines no `create` method in the source. `AccommodationServices.AccommodationRepository.Create` is modelled as appending the record to a list.
- HotelForm: JavaScript numbers are integers; NaN and fractions are not modelled, and `Number(x) || 0` is the number itself. `toLowerCase` is modelled for ASCII and Latin-1 letters only.
- HotelForm: rendering, `isSubmitting`, the `onSave` network call and its errors are not modelled.
- HotelForm: the hotels snapshot is always a list in the model. When `hotelsSnapshot` is not an array, the source skips the uniqueness check (api_hotels_decameron_front/src/hotels/HotelForm.tsx:127); that case is not modelled.
- HotelForm.HotelFormComponent.UpdateRow: requires an index inside the list. JavaScript would write past the end for an index outside it, which the editor never passes.
- HotelForm.HotelFormComponent.UpdateRow: requires that a patched non-zero room type is one of `ROOM_TYPES`. The source asserts this with `!`, and the room-type select offers only those ids.

## Findings

| source | as written | input that shows it | evidently intended | confidence | as-written member | corrected member |
|---|---|---|---|---|---|---|
| api_hotels_decameron_back/app/Services/AccommodationService.php:69-76 | the compatibility table is keyed by `Estándar`, `Junior` and `Suite`, but the seeded room types are named `ESTANDAR`, `JUNIOR` and `SUITE` (api_hotels_decameron_back/database/seeders/RoomTypeSeeder.php:17-21), so `$accommodationMap[$roomType->name]` is an undefined key for every seeded room type | `room_type_id` 1 (`ESTANDAR`) with accommodation `Sencilla`, or `SENCILLA`: `create` throws instead of storing | the table keyed by the seeded names, allowing the same pairs the front end's `ROOM_TYPES` allows | not executed | AccommodationServices.SeededRoomTypesRefused | Consistency.SeededTableMatchesForm |

Two further behaviours are proved but left as they are, since the code states them deliberately:

- UpdateHotelRoomConfigurationRequest checks uniqueness on the room type alone. Two rows of a hotel that share a room type under different accommodations can exist, because the table's key allows it. Neither row can then be updated (`Requests.SharedRoomTypeBlocksUpdate`).
- UpdateHotelRoomRequest does not check the pair when only the room type is sent (`Requests.RoomTypeOnlyUpdateSkipsPairCheck`). In that case the unique index is what refuses the write.
