/** HotelForm.tsx: the hotel editor of the front end. It keeps the form in component
    state, re-validates it after every change (the `useEffect` block), lets the user add,
    remove and edit configuration rows, and refuses to submit while any error stands.
    JavaScript numbers are modelled as integers. */
module HotelForm {
  import opened Common

  /** A configuration row of the editor. */
  datatype FormRow = FormRow(roomTypeId: int, accommodationId: int, quantity: int)

  /** The fields of a row that `updateRow` may overwrite. */
  datatype RowPatch = RowPatch(roomTypeId: Option<int>, accommodationId: Option<int>, quantity: Option<int>)

  /** The form state. */
  datatype FormState = FormState(name: string, address: string, nit: string, roomsTotal: int, cityId: int, rows: seq<FormRow>)

  /** A hotel of the list the page already loaded. */
  datatype SnapshotHotel = SnapshotHotel(id: int, name: string, nit: string)

  /** The hotel being edited, as the page hands it over; absent fields are None. */
  datatype InitialHotel = InitialHotel(
    id: int, name: Option<string>, address: Option<string>, nit: Option<string>,
    roomsTotal: Option<int>, cityId: Option<int>, rows: Option<seq<FormRow>>)

  /** What submit hands to `onSave`. */
  datatype Payload = Payload(name: string, address: string, nit: string, roomsTotal: int, cityId: int, rows: seq<FormRow>)

  /** The errors the validation block pushes, in the order it pushes them; `index` is the
      row's position (the message shows it plus one). */
  datatype FormError =
    | NameRequired | NitRequired | NitLength | AddressRequired | RoomsTotalRequired
    | SumMismatch(sum: int, total: int) | NoRows
    | DuplicatePair(index: nat) | MissingIds(index: nat) | QuantityNotPositive(index: nat) | IncompatiblePair(index: nat)
    | HotelExists

  /** An entry of `ROOM_TYPES`: the accommodation ids allowed with the room type. */
  datatype RoomTypeOption = RoomTypeOption(id: int, name: string, allowed: seq<int>)

  const RoomTypes: seq<RoomTypeOption> := [
    RoomTypeOption(1, "ESTANDAR", [1, 2]),
    RoomTypeOption(2, "JUNIOR", [3, 4]),
    RoomTypeOption(3, "SUITE", [1, 2, 3])]

  /** `CITIES[0].id`, the city of a new form. */
  const FirstCityId := 1

  /** `ROOM_TYPES.find((r) => r.id === id)`. */
  function FindRoomType(options: seq<RoomTypeOption>, id: int): (r: Option<RoomTypeOption>)
    ensures r.Some? ==> r.value in options && r.value.id == id
    ensures r.None? <==> forall k | 0 <= k < |options| :: options[k].id != id
  {
    if options == [] then None
    else if options[0].id == id then Some(options[0])
    else
      var rest := FindRoomType(options[1..], id);
      assert forall k | 1 <= k < |options| :: options[k] == options[1..][k - 1];
      rest
  }

  // ---------------------------------------------------------------------------
  // Strings

  /** The characters `String.prototype.trim` removes: white space and line terminators. */
  predicate IsJsSpace(c: char) {
    || c == '\t' || c == '\n' || c == '\U{000B}' || c == '\U{000C}' || c == '\r' || c == ' '
    || c == '\U{00A0}' || c == '\U{1680}' || ('\U{2000}' <= c <= '\U{200A}')
    || c == '\U{2028}' || c == '\U{2029}' || c == '\U{202F}' || c == '\U{205F}' || c == '\U{3000}' || c == '\U{FEFF}'
  }

  predicate AllSpace(s: string) {
    forall k | 0 <= k < |s| :: IsJsSpace(s[k])
  }

  /** Every character of `s` outside the index range `[a, b)` is white space. */
  predicate SpaceOutside(s: string, a: int, b: int) {
    forall k | 0 <= k < |s| && !(a <= k < b) :: IsJsSpace(s[k])
  }

  /** The index of the first character at or after `i` that is not white space, or `|s|`. */
  function FirstNonSpace(s: string, i: nat): (n: nat)
    requires i <= |s|
    ensures i <= n <= |s|
    ensures forall k | i <= k < n :: IsJsSpace(s[k])
    ensures n == |s| || !IsJsSpace(s[n])
    decreases |s| - i
  {
    if i < |s| && IsJsSpace(s[i]) then FirstNonSpace(s, i + 1) else i
  }

  /** The index just past the last character before `j` that is not white space, or 0. */
  function EndOfNonSpace(s: string, j: nat): (n: nat)
    requires j <= |s|
    ensures n <= j
    ensures forall k | n <= k < j :: IsJsSpace(s[k])
    ensures n == 0 || !IsJsSpace(s[n - 1])
  {
    if j > 0 && IsJsSpace(s[j - 1]) then EndOfNonSpace(s, j - 1) else j
  }

  function TrimStart(s: string): (r: string)
    ensures |r| <= |s|
    ensures r == [] || !IsJsSpace(r[0])
    ensures r == [] <==> AllSpace(s)
  {
    var n := FirstNonSpace(s, 0);
    assert n < |s| ==> !AllSpace(s);
    s[n..]
  }

  function TrimEnd(s: string): (r: string)
    ensures |r| <= |s|
    ensures r == [] || !IsJsSpace(r[|r| - 1])
    ensures r == [] <==> AllSpace(s)
  {
    var n := EndOfNonSpace(s, |s|);
    assert n > 0 ==> !AllSpace(s);
    s[..n]
  }

  /** `s.trim()`: the string without its leading and trailing white space; it is empty
      exactly when `s` is all white space. */
  function Trim(s: string): (r: string)
    ensures r == [] <==> AllSpace(s)
    ensures r == [] || (!IsJsSpace(r[0]) && !IsJsSpace(r[|r| - 1]))
  {
    var t := TrimStart(s);
    if t == [] then t
    else
      var r := TrimEnd(t);
      TrimEndDropsSpace(t);
      assert !AllSpace(t);
      assert r[0] == t[0];
      r
  }

  /** `TrimStart` keeps a suffix of `s` and removes white space only: everything before
      that suffix. */
  lemma TrimStartDropsSpace(s: string)
    ensures TrimStart(s) == s[|s| - |TrimStart(s)|..]
    ensures SpaceOutside(s, |s| - |TrimStart(s)|, |s|)
  {
    var n := FirstNonSpace(s, 0);
    assert |TrimStart(s)| == |s| - n;
  }

  /** `TrimEnd` keeps a prefix of `s` and removes white space only: everything after
      that prefix. */
  lemma TrimEndDropsSpace(s: string)
    ensures TrimEnd(s) == s[..|TrimEnd(s)|]
    ensures SpaceOutside(s, 0, |TrimEnd(s)|)
  {
    var n := EndOfNonSpace(s, |s|);
    assert |TrimEnd(s)| == n;
  }

  /** `Trim` keeps one contiguous piece of the string, and everything around it is
      white space. */
  lemma TrimDropsOnlySpace(s: string)
    ensures exists a, b | 0 <= a <= b <= |s| :: Trim(s) == s[a..b] && SpaceOutside(s, a, b)
  {
    var t := TrimStart(s);
    var a := |s| - |t|;
    TrimStartDropsSpace(s);
    if t == [] {
      assert Trim(s) == s[a..a];
    } else {
      var r := TrimEnd(t);
      TrimEndDropsSpace(t);
      assert Trim(s) == r == s[a..a + |r|];
      assert forall k | a + |r| <= k < |s| :: s[k] == t[k - a];
      assert SpaceOutside(s, a, a + |r|);
    }
  }

  /** `toLowerCase` on the letters of the Latin-1 range. */
  function LowerChar(c: char): char {
    if 'A' <= c <= 'Z' || ('\U{00C0}' <= c <= '\U{00DE}' && c != '\U{00D7}') then (c as int + 32) as char else c
  }

  function Lower(s: string): (r: string)
    ensures |r| == |s| && forall k | 0 <= k < |s| :: r[k] == LowerChar(s[k])
  {
    seq(|s|, k requires 0 <= k < |s| => LowerChar(s[k]))
  }

  /** `length` of a JavaScript string: UTF-16 code units, so a character above U+FFFF
      counts twice. */
  function JsLength(s: string): (n: nat)
    ensures |s| <= n <= 2 * |s|
    ensures (forall k | 0 <= k < |s| :: s[k] <= '\U{FFFF}') ==> n == |s|
  {
    CodeUnits(s, |s|)
  }

  /** The UTF-16 code units of the first `n` characters of `s`. */
  function CodeUnits(s: string, n: nat): (u: nat)
    requires n <= |s|
    ensures n <= u <= 2 * n
    ensures (forall k | 0 <= k < n :: s[k] <= '\U{FFFF}') ==> u == n
  {
    if n == 0 then 0 else CodeUnits(s, n - 1) + (if s[n - 1] > '\U{FFFF}' then 2 else 1)
  }

  // ---------------------------------------------------------------------------
  // The validation block

  /** `sumQuantity`: the quantities added up; `Number(q) || 0` is `q` for an integer. */
  function SumQuantity(rows: seq<FormRow>): (r: int)
    ensures (forall k | 0 <= k < |rows| :: rows[k].quantity > 0) ==> r >= |rows|
  {
    QuantityPrefix(rows, |rows|)
  }

  /** The quantities of the first `n` rows added up, in `reduce` order. */
  function QuantityPrefix(rows: seq<FormRow>, n: nat): (r: int)
    requires n <= |rows|
    ensures (forall k | 0 <= k < n :: rows[k].quantity > 0) ==> r >= n
  {
    if n == 0 then 0 else QuantityPrefix(rows, n - 1) + rows[n - 1].quantity
  }

  /** The `${room_type_id}-${accommodation_id}` key of a row; distinct integer pairs give
      distinct keys. */
  function PairOf(r: FormRow): (int, int) {
    (r.roomTypeId, r.accommodationId)
  }

  /** The keys in `seen` when the loop reaches row `k`. */
  function PairsBefore(rows: seq<FormRow>, k: nat): set<(int, int)>
    requires k <= |rows|
  {
    if k == 0 then {} else PairsBefore(rows, k - 1) + {PairOf(rows[k - 1])}
  }

  /** The errors the loop pushes for row `k`: a key seen before, a missing (zero) id, a
      quantity that is not positive, an accommodation a known room type does not allow. */
  function RowCheck(rows: seq<FormRow>, k: nat): (r: seq<FormError>)
    requires k < |rows|
    ensures |r| <= 4
  {
    var rc := rows[k];
    var rt := FindRoomType(RoomTypes, rc.roomTypeId);
    (if PairOf(rc) in PairsBefore(rows, k) then [DuplicatePair(k)] else [])
    + (if rc.roomTypeId == 0 || rc.accommodationId == 0 then [MissingIds(k)] else [])
    + (if rc.quantity <= 0 then [QuantityNotPositive(k)] else [])
    + (if rt.Some? && rc.accommodationId !in rt.value.allowed then [IncompatiblePair(k)] else [])
  }

  /** The errors the loop pushes for the first `n` rows. */
  function RowErrors(rows: seq<FormRow>, n: nat): (r: seq<FormError>)
    requires n <= |rows|
    ensures |r| <= 4 * n
  {
    if n == 0 then [] else RowErrors(rows, n - 1) + RowCheck(rows, n - 1)
  }

  /** Whether two hotels clash: the same trimmed nit or name, ignoring case. */
  predicate SameIdentity(h: SnapshotHotel, f: FormState) {
    Lower(Trim(h.nit)) == Lower(Trim(f.nit)) || Lower(Trim(h.name)) == Lower(Trim(f.name))
  }

  /** The test of the `find` callback: a hotel other than the one being edited that has
      the same identity as the form. */
  predicate Clashes(h: SnapshotHotel, f: FormState, editingId: Option<int>) {
    (editingId.None? || h.id != editingId.value) && SameIdentity(h, f)
  }

  /** `Array.prototype.find` from index `i` on: the first element `p` accepts. */
  function FindFrom<T>(xs: seq<T>, p: T -> bool, i: nat): (r: Option<T>)
    requires i <= |xs|
    ensures r.None? <==> forall k | i <= k < |xs| :: !p(xs[k])
    ensures r.Some? ==> exists k | i <= k < |xs| :: xs[k] == r.value && p(xs[k]) && forall j | i <= j < k :: !p(xs[j])
    decreases |xs| - i
  {
    if i == |xs| then None
    else if p(xs[i]) then Some(xs[i])
    else FindFrom(xs, p, i + 1)
  }

  /** `hotelsSnapshot.find(...)`: the first hotel that clashes with the form, skipping the
      hotel being edited. */
  function FindConflict(snapshot: seq<SnapshotHotel>, f: FormState, editingId: Option<int>): (r: Option<SnapshotHotel>)
    ensures r.Some? <==> exists k | 0 <= k < |snapshot| :: Clashes(snapshot[k], f, editingId)
    ensures r.Some? ==> r.value in snapshot && Clashes(r.value, f, editingId)
  {
    FindFrom(snapshot, h => Clashes(h, f, editingId), 0)
  }

  /** `if (failed) errs.push(e)`. */
  function Push(failed: bool, e: FormError): (r: seq<FormError>)
    ensures r == [] <==> !failed
    ensures forall x | x in r :: x == e
  {
    if failed then [e] else []
  }

  /** What the hotel's own fields must be for the block to push nothing about them. */
  predicate HeaderValid(f: FormState) {
    && !AllSpace(f.name) && !AllSpace(f.address)
    && 5 <= JsLength(Trim(f.nit)) <= 20
    && f.roomsTotal > 0 && SumQuantity(f.rows) == f.roomsTotal
  }

  /** The errors of the hotel's own fields, in the order the block pushes them. */
  function HeaderErrors(f: FormState): (r: seq<FormError>)
    ensures r == [] <==> HeaderValid(f)
  {
    var nitLength := JsLength(Trim(f.nit));
    Push(Trim(f.name) == [], NameRequired)
    + Push(Trim(f.nit) == [], NitRequired)
    + Push(nitLength < 5 || nitLength > 20, NitLength)
    + Push(Trim(f.address) == [], AddressRequired)
    + Push(f.roomsTotal <= 0, RoomsTotalRequired)
    + Push(SumQuantity(f.rows) != f.roomsTotal, SumMismatch(SumQuantity(f.rows), f.roomsTotal))
  }

  /** The list the validation block leaves in `errors`. */
  function FormErrors(f: FormState, snapshot: seq<SnapshotHotel>, editingId: Option<int>): (r: seq<FormError>)
    ensures f.rows == [] ==> NoRows in r
    ensures (exists k | 0 <= k < |snapshot| :: Clashes(snapshot[k], f, editingId)) ==> HotelExists in r
  {
    HeaderErrors(f)
    + (if f.rows == [] then [NoRows] else RowErrors(f.rows, |f.rows|))
    + (if FindConflict(snapshot, f, editingId).Some? then [HotelExists] else [])
  }

  /** The callback of the row loop for row `index`: it pushes the row's errors and adds
      the row's key to `seen`. */
  method VisitRow(rows: seq<FormRow>, index: nat, errs: seq<FormError>, seen: set<(int, int)>)
    returns (errs': seq<FormError>, seen': set<(int, int)>)
    requires index < |rows| && seen == PairsBefore(rows, index)
    ensures errs' == errs + RowCheck(rows, index)
    ensures seen' == PairsBefore(rows, index + 1)
  {
    errs', seen' := errs, seen;
    var rc := rows[index];
    var key := (rc.roomTypeId, rc.accommodationId);
    if key in seen' {
      errs' := errs' + [DuplicatePair(index)];
    }
    seen' := seen' + {key};
    if rc.roomTypeId == 0 || rc.accommodationId == 0 {
      errs' := errs' + [MissingIds(index)];
    }
    if rc.quantity <= 0 {
      errs' := errs' + [QuantityNotPositive(index)];
    }
    ghost var checked := errs';
    var rt := FindRoomType(RoomTypes, rc.roomTypeId);
    if rt.Some? && rc.accommodationId !in rt.value.allowed {
      errs' := errs' + [IncompatiblePair(index)];
    }
    assert errs' == checked + (if rt.Some? && rc.accommodationId !in rt.value.allowed then [IncompatiblePair(index)] else []);
  }

  /** The row loop of the validation block: a `seen` set of keys and one pass over the rows. */
  method CollectRowErrors(rows: seq<FormRow>) returns (errs: seq<FormError>)
    ensures errs == RowErrors(rows, |rows|)
  {
    errs := [];
    var seen: set<(int, int)> := {};
    var index := 0;
    while index < |rows|
      invariant 0 <= index <= |rows|
      invariant seen == PairsBefore(rows, index)
      invariant errs == RowErrors(rows, index)
    {
      errs, seen := VisitRow(rows, index, errs, seen);
      index := index + 1;
    }
  }

  /** The validation block of the `useEffect`: the header checks, the row loop (or
      `NoRows`), then the uniqueness check against the hotels snapshot. */
  method ValidationBlock(f: FormState, snapshot: seq<SnapshotHotel>, editingId: Option<int>)
    returns (errs: seq<FormError>)
    ensures errs == FormErrors(f, snapshot, editingId)
  {
    errs := HeaderErrors(f);
    if f.rows == [] {
      errs := errs + [NoRows];
    } else {
      var rowErrors := CollectRowErrors(f.rows);
      errs := errs + rowErrors;
    }
    var conflict := FindConflict(snapshot, f, editingId);
    if conflict.Some? {
      errs := errs + [HotelExists];
    }
  }

  // ---------------------------------------------------------------------------
  // Row editing

  /** The row `addRow` appends: the first room type with its first allowed accommodation. */
  const DefaultRow := FormRow(1, 1, 1)

  /** `next.splice(i, 1)` on a copy of the rows: a negative index counts from the end, and
      an index past the end removes nothing. */
  function Spliced(rows: seq<FormRow>, i: int): (r: seq<FormRow>)
    ensures r == rows || |r| == |rows| - 1
    ensures forall x | x in r :: x in rows
  {
    var start := if i < 0 then (if |rows| + i < 0 then 0 else |rows| + i) else i;
    if start >= |rows| then rows else rows[..start] + rows[start + 1..]
  }

  /** `{ ...next[i], ...patch }`, then, when the patch sets a (non-zero) room type whose
      allowed list lacks the row's accommodation, that list's first accommodation. */
  function UpdatedRow(row: FormRow, patch: RowPatch): (r: FormRow)
    requires patch.roomTypeId.Some? && patch.roomTypeId.value != 0 ==> FindRoomType(RoomTypes, patch.roomTypeId.value).Some?
    ensures r.roomTypeId == if patch.roomTypeId.Some? then patch.roomTypeId.value else row.roomTypeId
    ensures r.quantity == if patch.quantity.Some? then patch.quantity.value else row.quantity
    ensures patch.accommodationId.Some?
            && (patch.roomTypeId.None? || patch.roomTypeId.value == 0
                || patch.accommodationId.value in FindRoomType(RoomTypes, patch.roomTypeId.value).value.allowed)
            ==> r.accommodationId == patch.accommodationId.value
    ensures patch.accommodationId.None? && (patch.roomTypeId.None? || patch.roomTypeId.value == 0)
            ==> r.accommodationId == row.accommodationId
  {
    var merged := FormRow(
      if patch.roomTypeId.Some? then patch.roomTypeId.value else row.roomTypeId,
      if patch.accommodationId.Some? then patch.accommodationId.value else row.accommodationId,
      if patch.quantity.Some? then patch.quantity.value else row.quantity);
    if patch.roomTypeId.Some? && patch.roomTypeId.value != 0 then
      var rt := FindRoomType(RoomTypes, patch.roomTypeId.value).value;
      if merged.accommodationId in rt.allowed then merged else merged.(accommodationId := rt.allowed[0])
    else merged
  }

  /** removeRow with an index in range deletes exactly that row and keeps the others in
      order; out of range to the right it changes nothing. */
  lemma SplicedRemovesOne(rows: seq<FormRow>, i: int)
    ensures 0 <= i < |rows| ==> Spliced(rows, i) == rows[..i] + rows[i + 1..] && |Spliced(rows, i)| == |rows| - 1
    ensures 0 <= i < |rows| ==> forall k | 0 <= k < |rows| - 1 :: Spliced(rows, i)[k] == rows[if k < i then k else k + 1]
    ensures i >= |rows| ==> Spliced(rows, i) == rows
    ensures rows != [] && i == -1 ==> Spliced(rows, i) == rows[..|rows| - 1]
  {
    if 0 <= i < |rows| {
      var r := Spliced(rows, i);
      assert r == rows[..i] + rows[i + 1..];
      forall k | 0 <= k < |rows| - 1
        ensures r[k] == rows[if k < i then k else k + 1]
      {
        if k < i {
          assert r[k] == rows[..i][k];
        } else {
          assert r[k] == rows[i + 1..][k - i];
        }
      }
    }
    if rows != [] && i == -1 {
      assert rows[|rows| - 1 + 1..] == [];
    }
  }

  /** A room type chosen in the editor brings an accommodation it allows: the accommodation
      the row would have after the merge is kept when that type allows it, and is replaced
      by the type's first allowed accommodation otherwise. The quantity is the patched one. */
  lemma UpdatedRowAllowed(row: FormRow, patch: RowPatch)
    requires patch.roomTypeId.Some? && patch.roomTypeId.value != 0
    requires FindRoomType(RoomTypes, patch.roomTypeId.value).Some?
    ensures var r := UpdatedRow(row, patch);
      var rt := FindRoomType(RoomTypes, patch.roomTypeId.value).value;
      var merged := if patch.accommodationId.Some? then patch.accommodationId.value else row.accommodationId;
      && r.roomTypeId == patch.roomTypeId.value
      && r.accommodationId in rt.allowed
      && (merged in rt.allowed ==> r.accommodationId == merged)
      && (merged !in rt.allowed ==> |rt.allowed| > 0 && r.accommodationId == rt.allowed[0])
      && (r.quantity == if patch.quantity.Some? then patch.quantity.value else row.quantity)
  {
    var rt := FindRoomType(RoomTypes, patch.roomTypeId.value).value;
    assert rt in RoomTypes;
    assert |rt.allowed| > 0;
  }

  // ---------------------------------------------------------------------------
  // Facts about the validation block

  /** The keys seen before row `k` are exactly those of the earlier rows. */
  lemma {:induction false} PairsBeforeMembers(rows: seq<FormRow>, k: nat, p: (int, int))
    requires k <= |rows|
    ensures p in PairsBefore(rows, k) <==> exists j | 0 <= j < k :: PairOf(rows[j]) == p
  {
    if k > 0 {
      PairsBeforeMembers(rows, k - 1, p);
    }
  }

  /** The errors for the first `n` rows are those of the rows' own checks, one row after
      the other. */
  lemma {:induction false} RowErrorsEmpty(rows: seq<FormRow>, n: nat)
    requires n <= |rows|
    ensures RowErrors(rows, n) == [] <==> forall k | 0 <= k < n :: RowCheck(rows, k) == []
  {
    if n > 0 {
      RowErrorsEmpty(rows, n - 1);
    }
  }

  /** Every error pushed for row `k` stays in the list. */
  lemma {:induction false} RowErrorsContain(rows: seq<FormRow>, n: nat, k: nat, e: FormError)
    requires k < n <= |rows| && e in RowCheck(rows, k)
    ensures e in RowErrors(rows, n)
  {
    var before := RowErrors(rows, n - 1);
    assert RowErrors(rows, n) == before + RowCheck(rows, n - 1);
    if k < n - 1 {
      RowErrorsContain(rows, n - 1, k, e);
      assert e in before;
    }
  }

  /** A row is reported as a duplicate exactly when an earlier row has the same pair: one
      error for each later occurrence. */
  lemma DuplicateReported(rows: seq<FormRow>, k: nat)
    requires k < |rows|
    ensures DuplicatePair(k) in RowCheck(rows, k) <==> exists j | 0 <= j < k :: PairOf(rows[j]) == PairOf(rows[k])
    ensures (exists j | 0 <= j < k :: PairOf(rows[j]) == PairOf(rows[k])) ==> DuplicatePair(k) in RowErrors(rows, |rows|)
  {
    PairsBeforeMembers(rows, k, PairOf(rows[k]));
    if exists j | 0 <= j < k :: PairOf(rows[j]) == PairOf(rows[k]) {
      RowErrorsContain(rows, |rows|, k, DuplicatePair(k));
    }
  }

  /** What a row must be for the loop to push nothing for it. */
  predicate RowValid(rows: seq<FormRow>, k: nat)
    requires k < |rows|
  {
    var rc := rows[k];
    && (forall j | 0 <= j < k :: PairOf(rows[j]) != PairOf(rc))
    && rc.roomTypeId != 0 && rc.accommodationId != 0
    && rc.quantity > 0
    && (FindRoomType(RoomTypes, rc.roomTypeId).Some? ==> rc.accommodationId in FindRoomType(RoomTypes, rc.roomTypeId).value.allowed)
  }

  lemma RowCheckEmpty(rows: seq<FormRow>, k: nat)
    requires k < |rows|
    ensures RowCheck(rows, k) == [] <==> RowValid(rows, k)
  {
    PairsBeforeMembers(rows, k, PairOf(rows[k]));
  }

  /** The row loop pushes nothing exactly when every row is valid. */
  lemma RowsAccepted(rows: seq<FormRow>)
    ensures RowErrors(rows, |rows|) == [] <==> forall k | 0 <= k < |rows| :: RowValid(rows, k)
  {
    RowErrorsEmpty(rows, |rows|);
    forall k | 0 <= k < |rows| ensures RowCheck(rows, k) == [] <==> RowValid(rows, k) {
      RowCheckEmpty(rows, k);
    }
  }

  /** The list is empty exactly when each of its three parts is. */
  lemma FormErrorsEmpty(f: FormState, snapshot: seq<SnapshotHotel>, editingId: Option<int>)
    ensures FormErrors(f, snapshot, editingId) == [] <==>
      HeaderValid(f) && f.rows != [] && RowErrors(f.rows, |f.rows|) == [] && FindConflict(snapshot, f, editingId).None?
  {
  }

  /** The form passes validation exactly when the names are not blank, the trimmed nit has
      5 to 20 UTF-16 code units, `rooms_total` is positive and equal to the sum of the quantities,
      there is at least one row, every row is valid and no other hotel has the nit or
      name. */
  lemma FormAccepted(f: FormState, snapshot: seq<SnapshotHotel>, editingId: Option<int>)
    ensures FormErrors(f, snapshot, editingId) == [] <==>
      && !AllSpace(f.name) && !AllSpace(f.address)
      && 5 <= JsLength(Trim(f.nit)) <= 20
      && f.roomsTotal > 0 && SumQuantity(f.rows) == f.roomsTotal
      && |f.rows| > 0
      && (forall k | 0 <= k < |f.rows| :: RowValid(f.rows, k))
      && (forall k | 0 <= k < |snapshot| :: !Clashes(snapshot[k], f, editingId))
  {
    FormErrorsEmpty(f, snapshot, editingId);
    RowsAccepted(f.rows);
  }

  /** Adding a row to an empty form gives a row that passes every row check; adding a
      second one without editing the first makes it a duplicate. */
  lemma DefaultRowChecks()
    ensures RowCheck([DefaultRow], 0) == []
    ensures RowCheck([DefaultRow, DefaultRow], 1) == [DuplicatePair(1)]
  {
    assert PairsBefore([DefaultRow, DefaultRow], 1) == {PairOf(DefaultRow)};
  }

  // ---------------------------------------------------------------------------
  // The component

  class HotelFormComponent {
    var form: FormState
    var errors: seq<FormError>
    const snapshot: seq<SnapshotHotel>
    /** `initial.id` when `editing`, that is when the initial hotel has a non-zero id. */
    const editingId: Option<int>

    /** `errors` is what the validation block computes for the current form: the effect
        runs after every change of the form. */
    ghost predicate Valid()
      reads this
    {
      errors == FormErrors(form, snapshot, editingId)
    }

    /** The initial state: the fields of the hotel being edited, or empty ones, and the
        errors the first run of the validation block reports. */
    constructor (initial: Option<InitialHotel>, snapshot: seq<SnapshotHotel>)
      ensures Valid()
      ensures this.snapshot == snapshot
      ensures editingId == if initial.Some? && initial.value.id != 0 then Some(initial.value.id) else None
      ensures initial.None? ==> form == FormState("", "", "", 0, FirstCityId, [])
      ensures initial.Some? ==> form == FormState(
        if initial.value.name.Some? then initial.value.name.value else "",
        if initial.value.address.Some? then initial.value.address.value else "",
        if initial.value.nit.Some? then initial.value.nit.value else "",
        if initial.value.roomsTotal.Some? then initial.value.roomsTotal.value else 0,
        if initial.value.cityId.Some? then initial.value.cityId.value else FirstCityId,
        if initial.value.rows.Some? then initial.value.rows.value else [])
    {
      this.snapshot := snapshot;
      var editing := if initial.Some? && initial.value.id != 0 then Some(initial.value.id) else None;
      editingId := editing;
      var f: FormState;
      if initial.None? {
        f := FormState("", "", "", 0, FirstCityId, []);
      } else {
        var h := initial.value;
        f := FormState(
          if h.name.Some? then h.name.value else "",
          if h.address.Some? then h.address.value else "",
          if h.nit.Some? then h.nit.value else "",
          if h.roomsTotal.Some? then h.roomsTotal.value else 0,
          if h.cityId.Some? then h.cityId.value else FirstCityId,
          if h.rows.Some? then h.rows.value else []);
      }
      form := f;
      var errs := ValidationBlock(f, snapshot, editing);
      errors := errs;
    }

    /** The effect: it re-runs the validation block on the current form. */
    method Validate()
      modifies this`errors
      ensures Valid()
    {
      errors := ValidationBlock(form, snapshot, editingId);
    }

    /** `addRow`: appends the default row. */
    method AddRow()
      modifies this
      ensures form == old(form).(rows := old(form.rows) + [DefaultRow])
      ensures Valid()
    {
      form := form.(rows := form.rows + [DefaultRow]);
      Validate();
    }

    /** `removeRow(i)`: the rows with the one at `i` spliced out. */
    method RemoveRow(i: int)
      modifies this
      ensures form == old(form).(rows := Spliced(old(form.rows), i))
      ensures Valid()
    {
      var next := form.rows;
      next := Spliced(next, i);
      form := form.(rows := next);
      Validate();
    }

    /** `updateRow(i, patch)`: row `i` patched, every other row as it was. The room type a
        patch sets must be one of `ROOM_TYPES` (the code asserts that it finds it). */
    method UpdateRow(i: nat, patch: RowPatch)
      requires i < |form.rows|
      requires patch.roomTypeId.Some? && patch.roomTypeId.value != 0 ==> FindRoomType(RoomTypes, patch.roomTypeId.value).Some?
      modifies this
      ensures form == old(form).(rows := old(form.rows)[i := UpdatedRow(old(form.rows)[i], patch)])
      ensures Valid()
    {
      var next := form.rows;
      next := next[i := UpdatedRow(next[i], patch)];
      form := form.(rows := next);
      Validate();
    }

    /** `submit`: nothing while errors stand; otherwise the trimmed payload for `onSave`. */
    method Submit() returns (payload: Option<Payload>)
      requires Valid()
      ensures payload.Some? <==> FormErrors(form, snapshot, editingId) == []
      ensures payload.Some? ==> payload.value == Payload(Trim(form.name), Trim(form.address), Trim(form.nit),
                                                         form.roomsTotal, form.cityId, form.rows)
      ensures payload.Some? ==> payload.value.roomsTotal > 0 && SumQuantity(payload.value.rows) == payload.value.roomsTotal
    {
      if |errors| > 0 {
        return None;
      }
      FormAccepted(form, snapshot, editingId);
      payload := Some(Payload(Trim(form.name), Trim(form.address), Trim(form.nit), form.roomsTotal, form.cityId, form.rows));
    }
  }
}
