/**
 * The stock ledger of server/src/routes/inventory.ts: adding an item, the
 * field-by-field update, the sequential checkout without rollback, and the
 * spreadsheet export's row mapping. The collection is a map from document
 * id to document held by the class `Inventory`; every `save()` goes through
 * `InventoryModel.Save`, the corrected save that runs the barcode hook before
 * the schema constraints and the unique indexes. Adding an item with the
 * validation first, as Mongoose orders it, is `AddOutcomeAsWritten`.
 */
module InventoryRoutes {
  import opened Wrappers
  import opened JsText
  import opened InventoryModel

  datatype LedgerError =
    | Invalid                                 // express-validator rejected the body
    | PartNumberExists                        // 'Part number already exists'
    | ItemNotFound                            // 'Item not found' (update)
    | CheckoutItemNotFound(id: ItemId)        // `Item ${id} not found` (checkout)
    | InsufficientQuantity(itemName: string)  // `Insufficient quantity for item ${itemName}`
    | SaveRejected(cause: SaveError)          // thrown by save(), answered by the error handler

  /** The HTTP status the route itself attaches; a rejected save has none of its own. */
  function Status(e: LedgerError): (r: Option<nat>)
    ensures r.None? <==> e.SaveRejected?
    ensures r == Some(404) <==> e.ItemNotFound? || e.CheckoutItemNotFound?
  {
    match e
    case Invalid => Some(400)
    case PartNumberExists => Some(400)
    case ItemNotFound => Some(404)
    case CheckoutItemNotFound(_) => Some(404)
    case InsufficientQuantity(_) => Some(400)
    case SaveRejected(_) => None
  }

  /** The new collection after a route, and what the route answers. */
  datatype Outcome<T> = Outcome(items: map<ItemId, Item>, result: Result<T, LedgerError>)

  // ---------------------------------------------------------------- add item

  /** The body of POST /inventory. */
  datatype AddRequest = AddRequest(itemName: string, partNumber: string, category: string, workingGroup: string, quantity: int)

  /** The route's validators: trimmed name and part number non-empty, enumerations, quantity an integer at least 0. */
  predicate AddRequestValid(req: AddRequest) {
    && Trim(req.itemName) != ""
    && Trim(req.partNumber) != ""
    && ParseCategory(req.category).Some?
    && ParseWorkingGroup(req.workingGroup).Some?
    && req.quantity >= 0
  }

  predicate PartNumberInUse(items: map<ItemId, Item>, partNumber: string) {
    exists id :: id in items && items[id].partNumber == partNumber
  }

  predicate BarcodeInUse(items: map<ItemId, Item>, barcode: string) {
    exists id :: id in items && items[id].barcode == barcode
  }

  /** Under a fresh id the unique indexes only ask that neither key is taken. */
  lemma KeysFreeForNewId(items: map<ItemId, Item>, id: ItemId, d: Item)
    requires id !in items
    ensures KeysFree(items, id, d) <==> !PartNumberInUse(items, d.partNumber) && !BarcodeInUse(items, d.barcode)
  {
  }

  /** The document the route constructs: sanitised strings, no barcode yet, `lastUpdated` defaulted to the clock. */
  function NewDocument(req: AddRequest, createdAt: nat): (d: Item)
    requires AddRequestValid(req)
    ensures d.barcode == "" && !SchemaValid(d)
    ensures forall b :: b != "" ==> SchemaValid(d.(barcode := b))
  {
    Item(Trim(req.itemName), Trim(req.partNumber), ParseCategory(req.category).value,
      ParseWorkingGroup(req.workingGroup).value, req.quantity, "", createdAt)
  }

  /** POST /inventory over a collection whose next fresh id is `newId`. */
  function AddOutcome(items: map<ItemId, Item>, newId: ItemId, req: AddRequest, createdAt: nat, stamp: SaveStamp)
    : (o: Outcome<Item>)
    ensures !AddRequestValid(req) ==> o == Outcome(items, Failure(Invalid))
    ensures AddRequestValid(req) && PartNumberInUse(items, Trim(req.partNumber)) ==>
      o == Outcome(items, Failure(PartNumberExists))
    ensures o.result.Failure? ==> o.items == items
    ensures o.result.Success? ==>
      && AddRequestValid(req)
      && o.items == items[newId := o.result.value]
      && o.result.value.(barcode := "") == NewDocument(req, createdAt)
      && o.result.value.barcode == Barcode(stamp.now, stamp.random)
    ensures AddRequestValid(req) && !PartNumberInUse(items, Trim(req.partNumber)) ==>
      (o.result.Success? <==> KeysFree(items, newId, NewDocument(req, createdAt).(barcode := Barcode(stamp.now, stamp.random))))
    ensures newId !in items && o.result.Success? ==> |o.items| == |items| + 1
  {
    if !AddRequestValid(req) then Outcome(items, Failure(Invalid))
    else if PartNumberInUse(items, Trim(req.partNumber)) then Outcome(items, Failure(PartNumberExists))
    else
      var doc := NewDocument(req, createdAt);
      match Save(items, newId, doc, false, stamp)
      case Failure(e) => Outcome(items, Failure(SaveRejected(e)))
      case Success(next) => Outcome(next, Success(next[newId]))
  }

  /**
   * A valid request with an unused part number is stored under the fresh id
   * unless the generated barcode already belongs to another item.
   */
  lemma AddFailsOnlyOnBarcodeCollision(items: map<ItemId, Item>, newId: ItemId, req: AddRequest, createdAt: nat, stamp: SaveStamp)
    requires newId !in items
    requires AddRequestValid(req) && !PartNumberInUse(items, Trim(req.partNumber))
    ensures AddOutcome(items, newId, req, createdAt, stamp).result.Success? <==> !BarcodeInUse(items, Barcode(stamp.now, stamp.random))
    ensures AddOutcome(items, newId, req, createdAt, stamp).result.Failure? ==>
      AddOutcome(items, newId, req, createdAt, stamp).result.error == SaveRejected(DuplicateKey)
  {
    KeysFreeForNewId(items, newId, NewDocument(req, createdAt).(barcode := Barcode(stamp.now, stamp.random)));
    BarcodeLengthBounds(stamp.now, stamp.random);
  }

  /**
   * POST /inventory with `save()` in the order Mongoose runs it: the same
   * validators and lookup, then `SaveAsWritten`, which checks `required`
   * before the hook has written a barcode.
   */
  function AddOutcomeAsWritten(items: map<ItemId, Item>, newId: ItemId, req: AddRequest, createdAt: nat, stamp: SaveStamp)
    : (o: Outcome<Item>)
    ensures o.items == items
    ensures !AddRequestValid(req) ==> o.result == Failure(Invalid)
    ensures AddRequestValid(req) && PartNumberInUse(items, Trim(req.partNumber)) ==> o.result == Failure(PartNumberExists)
  {
    if !AddRequestValid(req) then Outcome(items, Failure(Invalid))
    else if PartNumberInUse(items, Trim(req.partNumber)) then Outcome(items, Failure(PartNumberExists))
    else
      var doc := NewDocument(req, createdAt);
      match SaveAsWritten(items, newId, doc, false, stamp)
      case Failure(e) => Outcome(items, Failure(SaveRejected(e)))
      case Success(next) => Outcome(next, Success(PreSave(doc, false, stamp)))
  }

  /**
   * As written, a request that passes the validators and names an unused part
   * number is refused by the schema for its missing barcode, so no add ever
   * stores an item; every request the hook-first route stores is among them.
   */
  lemma AddRejectedAsWritten(items: map<ItemId, Item>, newId: ItemId, req: AddRequest, createdAt: nat, stamp: SaveStamp)
    ensures AddOutcomeAsWritten(items, newId, req, createdAt, stamp).result.Failure?
    ensures AddRequestValid(req) && !PartNumberInUse(items, Trim(req.partNumber)) ==>
      AddOutcomeAsWritten(items, newId, req, createdAt, stamp).result == Failure(SaveRejected(SchemaViolation))
    ensures AddOutcome(items, newId, req, createdAt, stamp).result.Success? ==>
      AddOutcomeAsWritten(items, newId, req, createdAt, stamp).result == Failure(SaveRejected(SchemaViolation))
  {
    if AddRequestValid(req) && !PartNumberInUse(items, Trim(req.partNumber)) {
      NewDocumentRejectedAsWritten(items, newId, NewDocument(req, createdAt), stamp);
    }
  }

  // ------------------------------------------------------------- update item

  /** One key of the PATCH body with the value supplied for it. */
  datatype FieldUpdate =
    | SetItemName(name: string)
    | SetPartNumber(partNumber: string)
    | SetCategory(category: string)
    | SetWorkingGroup(group: string)
    | SetQuantity(quantity: int)
    | SetBarcode(barcode: string)
    | SetLastUpdated(date: nat)

  /** The optional validators of PATCH /inventory/:id; keys without a validator pass. */
  predicate UpdateValid(u: FieldUpdate) {
    match u
    case SetItemName(s) => Trim(s) != ""
    case SetCategory(s) => ParseCategory(s).Some?
    case SetWorkingGroup(s) => ParseWorkingGroup(s).Some?
    case SetQuantity(q) => q >= 0
    case _ => true
  }

  predicate UpdatesValid(us: seq<FieldUpdate>) {
    forall k :: 0 <= k < |us| ==> UpdateValid(us[k])
  }

  /** The two keys the update loop skips. */
  predicate Protected(u: FieldUpdate) {
    u.SetPartNumber? || u.SetBarcode?
  }

  /** `item[key] = updates[key]` for one key (the name arrives trimmed by the sanitiser). */
  function Assign(doc: Item, u: FieldUpdate): Item
    requires UpdateValid(u)
  {
    match u
    case SetItemName(s) => doc.(itemName := Trim(s))
    case SetPartNumber(s) => doc.(partNumber := s)
    case SetCategory(s) => doc.(category := ParseCategory(s).value)
    case SetWorkingGroup(s) => doc.(workingGroup := ParseWorkingGroup(s).value)
    case SetQuantity(q) => doc.(quantity := q)
    case SetBarcode(s) => doc.(barcode := s)
    case SetLastUpdated(t) => doc.(lastUpdated := t)
  }

  /** The update loop's effect on the document after the keys `us`, in order. */
  function ApplyUpdates(doc: Item, us: seq<FieldUpdate>): (r: Item)
    requires UpdatesValid(us)
    ensures r.partNumber == doc.partNumber && r.barcode == doc.barcode
    ensures SchemaValid(doc) ==> SchemaValid(r)
  {
    if us == [] then doc
    else
      var d := ApplyUpdates(doc, us[..|us| - 1]);
      var u := us[|us| - 1];
      if Protected(u) then d else Assign(d, u)
  }

  datatype Cell = Text(text: string) | Number(number: int)

  datatype Key = ItemNameKey | PartNumberKey | CategoryKey | WorkingGroupKey | QuantityKey | BarcodeKey | LastUpdatedKey

  function KeyOf(u: FieldUpdate): Key {
    match u
    case SetItemName(_) => ItemNameKey
    case SetPartNumber(_) => PartNumberKey
    case SetCategory(_) => CategoryKey
    case SetWorkingGroup(_) => WorkingGroupKey
    case SetQuantity(_) => QuantityKey
    case SetBarcode(_) => BarcodeKey
    case SetLastUpdated(_) => LastUpdatedKey
  }

  /** The value a document holds under a key, as the JSON the route answers shows it. */
  function Field(doc: Item, k: Key): Cell {
    match k
    case ItemNameKey => Text(doc.itemName)
    case PartNumberKey => Text(doc.partNumber)
    case CategoryKey => Text(CategoryName(doc.category))
    case WorkingGroupKey => Text(WorkingGroupName(doc.workingGroup))
    case QuantityKey => Number(doc.quantity)
    case BarcodeKey => Text(doc.barcode)
    case LastUpdatedKey => Number(doc.lastUpdated)
  }

  /** The value a body key supplies once validated and sanitised. */
  function Supplied(u: FieldUpdate): Cell {
    match u
    case SetItemName(s) => Text(Trim(s))
    case SetPartNumber(s) => Text(s)
    case SetCategory(s) => Text(s)
    case SetWorkingGroup(s) => Text(s)
    case SetQuantity(q) => Number(q)
    case SetBarcode(s) => Text(s)
    case SetLastUpdated(t) => Number(t)
  }

  /** The value supplied for `k` by the last key of `us` that names it. */
  function LastSupplied(us: seq<FieldUpdate>, k: Key): Option<Cell> {
    if us == [] then None
    else if KeyOf(us[|us| - 1]) == k then Some(Supplied(us[|us| - 1]))
    else LastSupplied(us[..|us| - 1], k)
  }

  /** Assigning one key changes that key to the supplied value and no other key. */
  lemma AssignField(doc: Item, u: FieldUpdate, k: Key)
    requires UpdateValid(u)
    ensures Field(Assign(doc, u), k) == if KeyOf(u) == k then Supplied(u) else Field(doc, k)
  {
    match u
    case SetItemName(_) =>
    case SetPartNumber(_) =>
    case SetCategory(s) => assert CategoryName(ParseCategory(s).value) == s;
    case SetWorkingGroup(s) => assert WorkingGroupName(ParseWorkingGroup(s).value) == s;
    case SetQuantity(_) =>
    case SetBarcode(_) =>
    case SetLastUpdated(_) =>
  }

  /**
   * After the update loop every key holds the value last supplied for it,
   * except `partNumber` and `barcode`, which keep the document's values.
   */
  lemma {:induction false} ApplyUpdatesFields(doc: Item, us: seq<FieldUpdate>, k: Key)
    requires UpdatesValid(us)
    ensures Field(ApplyUpdates(doc, us), k) ==
      if k == PartNumberKey || k == BarcodeKey || LastSupplied(us, k).None? then Field(doc, k)
      else LastSupplied(us, k).value
  {
    if us != [] {
      var init := us[..|us| - 1];
      var u := us[|us| - 1];
      assert UpdatesValid(init);
      ApplyUpdatesFields(doc, init, k);
      var d := ApplyUpdates(doc, init);
      assert LastSupplied(us, k) == if KeyOf(u) == k then Some(Supplied(u)) else LastSupplied(init, k);
      if Protected(u) {
        assert ApplyUpdates(doc, us) == d;
      } else {
        assert ApplyUpdates(doc, us) == Assign(d, u);
        AssignField(d, u, k);
      }
    }
  }

  /** PATCH /inventory/:id. */
  function UpdateOutcome(items: map<ItemId, Item>, id: ItemId, us: seq<FieldUpdate>, stamp: SaveStamp)
    : (o: Outcome<Item>)
    ensures !UpdatesValid(us) ==> o == Outcome(items, Failure(Invalid))
    ensures UpdatesValid(us) && id !in items ==> o == Outcome(items, Failure(ItemNotFound))
    ensures o.result.Failure? ==> o.items == items
    ensures o.result.Success? ==>
      && UpdatesValid(us) && id in items
      && o.items == items[id := o.result.value]
      && o.result.value.(barcode := items[id].barcode) == ApplyUpdates(items[id], us)
      && o.result.value.barcode == Barcode(stamp.now, stamp.random)
    ensures UpdatesValid(us) && id in items && StoreValid(items) ==>
      (o.result.Success? <==> KeysFree(items, id, ApplyUpdates(items[id], us).(barcode := Barcode(stamp.now, stamp.random))))
  {
    if !UpdatesValid(us) then Outcome(items, Failure(Invalid))
    else if id !in items then Outcome(items, Failure(ItemNotFound))
    else
      var doc := ApplyUpdates(items[id], us);
      match Save(items, id, doc, false, stamp)
      case Failure(e) => Outcome(items, Failure(SaveRejected(e)))
      case Success(next) => Outcome(next, Success(next[id]))
  }

  // ---------------------------------------------------------------- checkout

  /** One element of the checkout body's `items` array. */
  datatype CheckoutEntry = CheckoutEntry(id: ItemId, quantity: int)

  /** One element of `results`. */
  datatype CheckoutLine = CheckoutLine(item: string, quantity: int, remaining: int)

  /** The validator `items.*.quantity` is an integer at least 1. */
  predicate EntriesValid(entries: seq<CheckoutEntry>) {
    forall k :: 0 <= k < |entries| ==> entries[k].quantity >= 1
  }

  /** Where a checkout stopped: the collection, the lines pushed so far, and the error if it stopped early. */
  datatype Walk = Walk(items: map<ItemId, Item>, lines: seq<CheckoutLine>, failure: Option<LedgerError>) {
    /** What the route answers: the results on success, else the error; the collection keeps its changes either way. */
    function Response(): Result<seq<CheckoutLine>, LedgerError> {
      if failure.Some? then Failure(failure.value) else Success(lines)
    }
  }

  /** All fields but the stock and the barcode agree. */
  predicate SameButStockAndBarcode(a: Item, b: Item) {
    a.itemName == b.itemName && a.partNumber == b.partNumber && a.category == b.category
    && a.workingGroup == b.workingGroup && a.lastUpdated == b.lastUpdated
  }

  /** One iteration of the checkout loop: look the item up, check its stock, decrement and save. */
  function CheckoutStep(items: map<ItemId, Item>, e: CheckoutEntry, stamp: SaveStamp)
    : (r: Result<(map<ItemId, Item>, CheckoutLine), LedgerError>)
    ensures r.Failure? ==> FailsAt(items, e, stamp, r.error)
    ensures e.id in items && items[e.id].quantity >= e.quantity
      && SchemaValid(Decremented(items[e.id], e, stamp)) && KeysFree(items, e.id, Decremented(items[e.id], e, stamp))
      ==> r.Success?
    ensures r.Success? ==>
      var (next, line) := r.value;
      && e.id in items && items[e.id].quantity >= e.quantity
      && next.Keys == items.Keys
      && (StoreValid(items) ==> StoreValid(next))
      && next[e.id].quantity == items[e.id].quantity - e.quantity
      && SameButStockAndBarcode(next[e.id], items[e.id])
      && (forall other :: other in items && other != e.id ==> next[other] == items[other])
      && line == CheckoutLine(items[e.id].itemName, e.quantity, next[e.id].quantity)
  {
    if e.id !in items then Failure(CheckoutItemNotFound(e.id))
    else
      var item := items[e.id];
      if item.quantity < e.quantity then Failure(InsufficientQuantity(item.itemName))
      else
        match Save(items, e.id, item.(quantity := item.quantity - e.quantity), false, stamp)
        case Failure(err) => Failure(SaveRejected(err))
        case Success(next) => Success((next, CheckoutLine(item.itemName, e.quantity, next[e.id].quantity)))
  }

  /** The document a step saves: the stock lowered by the entry, then the hook's barcode. */
  function Decremented(item: Item, e: CheckoutEntry, stamp: SaveStamp): Item {
    PreSave(item.(quantity := item.quantity - e.quantity), false, stamp)
  }

  /**
   * What a failed step says about the entry, its save stamp and the collection
   * it met: an unknown id, short stock, or a save the schema or a unique index
   * refuses.
   */
  predicate FailsAt(items: map<ItemId, Item>, e: CheckoutEntry, stamp: SaveStamp, err: LedgerError) {
    match err
    case CheckoutItemNotFound(x) => x == e.id && e.id !in items
    case InsufficientQuantity(name) => e.id in items && items[e.id].quantity < e.quantity && name == items[e.id].itemName
    case SaveRejected(cause) =>
      && e.id in items && items[e.id].quantity >= e.quantity
      && var d := Decremented(items[e.id], e, stamp);
         if SchemaValid(d) then cause == DuplicateKey && !KeysFree(items, e.id, d) else cause == SchemaViolation
    case _ => false
  }

  /**
   * In a valid collection a step with enough stock can only fail on its save,
   * and only because the new barcode already belongs to another item.
   */
  lemma StepFailsOnlyOnBarcodeCollision(items: map<ItemId, Item>, e: CheckoutEntry, stamp: SaveStamp)
    requires StoreValid(items) && e.id in items && items[e.id].quantity >= e.quantity
    ensures CheckoutStep(items, e, stamp).Success? <==>
      forall other :: other in items && other != e.id ==> items[other].barcode != Barcode(stamp.now, stamp.random)
    ensures CheckoutStep(items, e, stamp).Failure? ==> CheckoutStep(items, e, stamp).error == SaveRejected(DuplicateKey)
  {
    BarcodeLengthBounds(stamp.now, stamp.random);
    var d := Decremented(items[e.id], e, stamp);
    assert SchemaValid(d);
    assert KeysFree(items, e.id, d) <==>
      forall other :: other in items && other != e.id ==> items[other].barcode != Barcode(stamp.now, stamp.random);
  }

  /** The loop over the entries, one save stamp per entry; it stops at the first failing entry. */
  function WalkEntries(items: map<ItemId, Item>, entries: seq<CheckoutEntry>, stamps: seq<SaveStamp>): Walk
    requires |stamps| == |entries|
    decreases |entries|
  {
    if entries == [] then Walk(items, [], None)
    else
      match CheckoutStep(items, entries[0], stamps[0])
      case Failure(err) => Walk(items, [], Some(err))
      case Success((next, line)) =>
        var w := WalkEntries(next, entries[1..], stamps[1..]);
        w.(lines := [line] + w.lines)
  }

  /** The loop resumed at entry `i`: one step, then the rest; past the last entry it stops with nothing more. */
  lemma WalkUnfolds(items: map<ItemId, Item>, entries: seq<CheckoutEntry>, stamps: seq<SaveStamp>, i: nat)
    requires |stamps| == |entries| && i <= |entries|
    ensures i == |entries| ==> WalkEntries(items, entries[i..], stamps[i..]) == Walk(items, [], None)
    ensures i < |entries| ==>
      var w := WalkEntries(items, entries[i..], stamps[i..]);
      var step := CheckoutStep(items, entries[i], stamps[i]);
      && (step.Failure? ==> w == Walk(items, [], Some(step.error)))
      && (step.Success? ==>
            var rest := WalkEntries(step.value.0, entries[i + 1..], stamps[i + 1..]);
            w.items == rest.items && w.failure == rest.failure && w.lines == [step.value.1] + rest.lines)
  {
    if i < |entries| {
      assert entries[i..][1..] == entries[i + 1..] && stamps[i..][1..] == stamps[i + 1..];
    } else {
      assert entries[i..] == [];
    }
  }

  /** POST /inventory/checkout: the validators first, then the loop. */
  function RunCheckout(items: map<ItemId, Item>, entries: seq<CheckoutEntry>, stamps: seq<SaveStamp>): Walk
    requires |stamps| == |entries|
  {
    if !EntriesValid(entries) then Walk(items, [], Some(Invalid))
    else WalkEntries(items, entries, stamps)
  }

  /** The total quantity the entries request of item `id`. */
  function Requested(entries: seq<CheckoutEntry>, id: ItemId): int {
    if entries == [] then 0
    else (if entries[0].id == id then entries[0].quantity else 0) + Requested(entries[1..], id)
  }

  lemma {:induction false} RequestedSplit(entries: seq<CheckoutEntry>, n: nat, id: ItemId)
    requires 0 < n <= |entries|
    ensures Requested(entries[..n], id) ==
      (if entries[0].id == id then entries[0].quantity else 0) + Requested(entries[1..][..n - 1], id)
  {
    assert entries[..n][1..] == entries[1..][..n - 1];
  }

  /** The loop commits a prefix of the entries, finishes exactly when it commits all of them, and keeps the key set. */
  lemma {:induction false} WalkShape(items: map<ItemId, Item>, entries: seq<CheckoutEntry>, stamps: seq<SaveStamp>)
    requires |stamps| == |entries|
    ensures var w := WalkEntries(items, entries, stamps);
      && |w.lines| <= |entries|
      && (w.failure.None? <==> |w.lines| == |entries|)
      && w.items.Keys == items.Keys
  {
    if entries != [] && CheckoutStep(items, entries[0], stamps[0]).Success? {
      var (next, line) := CheckoutStep(items, entries[0], stamps[0]).value;
      WalkShape(next, entries[1..], stamps[1..]);
      var rest := WalkEntries(next, entries[1..], stamps[1..]);
      assert WalkEntries(items, entries, stamps) == rest.(lines := [line] + rest.lines);
    }
  }

  /** None of the first `n` entries names item `id`. */
  predicate NotNamed(entries: seq<CheckoutEntry>, n: nat, id: ItemId) {
    forall k :: 0 <= k < n && k < |entries| ==> entries[k].id != id
  }

  /** An item that no committed entry names is never saved: it keeps its whole document, barcode included. */
  lemma {:induction false} WalkKeepsUnnamed(items: map<ItemId, Item>, entries: seq<CheckoutEntry>, stamps: seq<SaveStamp>)
    requires |stamps| == |entries|
    ensures var w := WalkEntries(items, entries, stamps);
      forall id :: id in items && NotNamed(entries, |w.lines|, id) ==> id in w.items && w.items[id] == items[id]
  {
    if entries != [] && CheckoutStep(items, entries[0], stamps[0]).Success? {
      var (next, line) := CheckoutStep(items, entries[0], stamps[0]).value;
      WalkKeepsUnnamed(next, entries[1..], stamps[1..]);
      var rest := WalkEntries(next, entries[1..], stamps[1..]);
      var w := WalkEntries(items, entries, stamps);
      assert w == rest.(lines := [line] + rest.lines);
      forall id | id in items && NotNamed(entries, |w.lines|, id)
        ensures id in w.items && w.items[id] == items[id]
      {
        assert entries[0].id != id;
        forall k | 0 <= k < |rest.lines| && k < |entries[1..]|
          ensures entries[1..][k].id != id
        {
          assert entries[1..][k] == entries[k + 1];
        }
        assert NotNamed(entries[1..], |rest.lines|, id);
      }
    }
  }

  /**
   * The loop commits a prefix of the entries: it finishes exactly when it
   * commits all of them; every item's stock drops by what the committed entries
   * requested of it and never below 0 when it started at 0 or more; only stock
   * and barcode change; and the key set is kept.
   */
  lemma {:induction false} WalkStock(items: map<ItemId, Item>, entries: seq<CheckoutEntry>, stamps: seq<SaveStamp>)
    requires |stamps| == |entries|
    ensures var w := WalkEntries(items, entries, stamps);
      && |w.lines| <= |entries|
      && (w.failure.None? <==> |w.lines| == |entries|)
      && w.items.Keys == items.Keys
      && forall id :: id in items ==>
        && w.items[id].quantity == items[id].quantity - Requested(entries[..|w.lines|], id)
        && (items[id].quantity >= 0 ==> w.items[id].quantity >= 0)
        && SameButStockAndBarcode(w.items[id], items[id])
  {
    WalkShape(items, entries, stamps);
    var w := WalkEntries(items, entries, stamps);
    if entries == [] || CheckoutStep(items, entries[0], stamps[0]).Failure? {
      assert entries[..0] == [];
    } else {
      var (next, line) := CheckoutStep(items, entries[0], stamps[0]).value;
      WalkStock(next, entries[1..], stamps[1..]);
      var rest := WalkEntries(next, entries[1..], stamps[1..]);
      assert w == rest.(lines := [line] + rest.lines);
      forall id | id in items
        ensures w.items[id].quantity == items[id].quantity - Requested(entries[..|w.lines|], id)
        ensures items[id].quantity >= 0 ==> w.items[id].quantity >= 0
        ensures SameButStockAndBarcode(w.items[id], items[id])
      {
        assert w.items[id] == rest.items[id];
        RequestedSplit(entries, |w.lines|, id);
      }
    }
  }

  /**
   * The whole ledger of the loop: WalkStock's prefix, stock and key-set facts,
   * and an item no committed entry names keeps its whole document.
   */
  lemma WalkLedger(items: map<ItemId, Item>, entries: seq<CheckoutEntry>, stamps: seq<SaveStamp>)
    requires |stamps| == |entries|
    ensures var w := WalkEntries(items, entries, stamps);
      && |w.lines| <= |entries|
      && (w.failure.None? <==> |w.lines| == |entries|)
      && w.items.Keys == items.Keys
      && forall id :: id in items ==>
        && w.items[id].quantity == items[id].quantity - Requested(entries[..|w.lines|], id)
        && (items[id].quantity >= 0 ==> w.items[id].quantity >= 0)
        && SameButStockAndBarcode(w.items[id], items[id])
        && (NotNamed(entries, |w.lines|, id) ==> w.items[id] == items[id])
  {
    WalkStock(items, entries, stamps);
    WalkKeepsUnnamed(items, entries, stamps);
  }

  /** Line `line` is the result entry `k` should get: its item's name, its quantity, and the stock left after entries 0..k. */
  predicate LineAt(items: map<ItemId, Item>, entries: seq<CheckoutEntry>, k: nat, line: CheckoutLine) {
    && k < |entries| && entries[k].id in items
    && line == CheckoutLine(items[entries[k].id].itemName, entries[k].quantity,
         items[entries[k].id].quantity - Requested(entries[..k + 1], entries[k].id))
  }

  /**
   * Line k of the results names the item of entry k, repeats the requested
   * quantity, and shows what remains once entries 0..k have been taken, so
   * a repeated id sees the earlier decrements.
   */
  lemma WalkLines(items: map<ItemId, Item>, entries: seq<CheckoutEntry>, stamps: seq<SaveStamp>)
    requires |stamps| == |entries|
    ensures forall k :: 0 <= k < |WalkEntries(items, entries, stamps).lines| ==>
      LineAt(items, entries, k, WalkEntries(items, entries, stamps).lines[k])
  {
    forall k | 0 <= k < |WalkEntries(items, entries, stamps).lines|
      ensures LineAt(items, entries, k, WalkEntries(items, entries, stamps).lines[k])
    {
      WalkLineAt(items, entries, stamps, k);
    }
  }

  lemma {:induction false} WalkLineAt(items: map<ItemId, Item>, entries: seq<CheckoutEntry>, stamps: seq<SaveStamp>, k: nat)
    requires |stamps| == |entries|
    requires k < |WalkEntries(items, entries, stamps).lines|
    ensures LineAt(items, entries, k, WalkEntries(items, entries, stamps).lines[k])
    decreases k
  {
    var step := CheckoutStep(items, entries[0], stamps[0]);
    var (next, line) := step.value;
    if k == 0 {
      RequestedSplit(entries, 1, entries[0].id);
    } else {
      WalkLineAt(next, entries[1..], stamps[1..], k - 1);
      assert entries[1..][k - 1] == entries[k];
      assert entries[1..][..k] == entries[1..][..k - 1 + 1];
      RequestedSplit(entries, k + 1, entries[k].id);
    }
  }

  /** A loop that stops early stops at the first uncommitted entry, for the reason the collection at that moment gives. */
  lemma {:induction false} WalkFailure(items: map<ItemId, Item>, entries: seq<CheckoutEntry>, stamps: seq<SaveStamp>)
    requires |stamps| == |entries|
    ensures var w := WalkEntries(items, entries, stamps);
      w.failure.Some? ==> |w.lines| < |entries| && FailsAt(w.items, entries[|w.lines|], stamps[|w.lines|], w.failure.value)
  {
    if entries != [] && CheckoutStep(items, entries[0], stamps[0]).Success? {
      var (next, line) := CheckoutStep(items, entries[0], stamps[0]).value;
      WalkFailure(next, entries[1..], stamps[1..]);
      var rest := WalkEntries(next, entries[1..], stamps[1..]);
      assert WalkEntries(items, entries, stamps) == rest.(lines := [line] + rest.lines);
      if rest.failure.Some? {
        assert entries[1 + |rest.lines|] == entries[1..][|rest.lines|];
        assert stamps[1 + |rest.lines|] == stamps[1..][|rest.lines|];
      }
    }
  }

  /** When the loop commits at least one entry, that entry's item carries the barcode generated at its save. */
  lemma {:induction false} WalkRegeneratesBarcode(items: map<ItemId, Item>, entries: seq<CheckoutEntry>, stamps: seq<SaveStamp>)
    requires |stamps| == |entries|
    ensures var w := WalkEntries(items, entries, stamps); var n := |w.lines|;
      0 < n <= |entries| ==>
        entries[n - 1].id in w.items
        && w.items[entries[n - 1].id].barcode == Barcode(stamps[n - 1].now, stamps[n - 1].random)
  {
    if entries != [] && CheckoutStep(items, entries[0], stamps[0]).Success? {
      var (next, line) := CheckoutStep(items, entries[0], stamps[0]).value;
      WalkRegeneratesBarcode(next, entries[1..], stamps[1..]);
      WalkStock(next, entries[1..], stamps[1..]);
      var rest := WalkEntries(next, entries[1..], stamps[1..]);
      assert WalkEntries(items, entries, stamps) == rest.(lines := [line] + rest.lines);
    }
  }

  /** Requesting an item in some entry makes the total requested of it at least that entry's quantity. */
  lemma {:induction false} RequestedCovers(entries: seq<CheckoutEntry>, k: nat, id: ItemId)
    requires EntriesValid(entries)
    ensures Requested(entries, id) >= 0
    ensures k < |entries| && entries[k].id == id ==> Requested(entries, id) >= entries[k].quantity
  {
    if entries != [] {
      assert EntriesValid(entries[1..]);
      RequestedCovers(entries[1..], if k > 0 then k - 1 else 0, id);
    }
  }

  /**
   * A successful checkout answers one line per entry, in input order, and
   * lowers every item by exactly the total its entries requested.
   */
  lemma CheckoutSucceeds(items: map<ItemId, Item>, entries: seq<CheckoutEntry>, stamps: seq<SaveStamp>)
    requires |stamps| == |entries|
    requires RunCheckout(items, entries, stamps).Response().Success?
    ensures var w := RunCheckout(items, entries, stamps);
      && |w.lines| == |entries|
      && w.items.Keys == items.Keys
      && (forall k :: 0 <= k < |entries| ==> LineAt(items, entries, k, w.lines[k]))
      && (forall id :: id in items ==> w.items[id].quantity == items[id].quantity - Requested(entries, id))
  {
    WalkStock(items, entries, stamps);
    WalkLines(items, entries, stamps);
    assert entries[..|entries|] == entries;
  }

  /**
   * A failed checkout either was rejected by the validators and changed
   * nothing, or committed the first n entries for good (no rollback) and then
   * met entry n: unknown id, short stock or a rejected save.
   */
  lemma CheckoutFailsPartway(items: map<ItemId, Item>, entries: seq<CheckoutEntry>, stamps: seq<SaveStamp>)
    requires |stamps| == |entries|
    requires RunCheckout(items, entries, stamps).Response().Failure?
    ensures var w := RunCheckout(items, entries, stamps); var err := w.failure.value;
      if !EntriesValid(entries) then err == Invalid && w.items == items
      else
        var n := |w.lines|;
        && n < |entries|
        && w.items.Keys == items.Keys
        && (forall id :: id in items ==> w.items[id].quantity == items[id].quantity - Requested(entries[..n], id))
        && (forall id :: id in items && NotNamed(entries, n, id) ==> w.items[id] == items[id])
        && FailsAt(w.items, entries[n], stamps[n], err)
  {
    if EntriesValid(entries) {
      WalkLedger(items, entries, stamps);
      WalkFailure(items, entries, stamps);
    }
  }

  /**
   * Stock never rises and never turns negative, and every item named by a
   * committed entry ends strictly lower, since each quantity is at least 1.
   */
  lemma CheckoutLowersStock(items: map<ItemId, Item>, entries: seq<CheckoutEntry>, stamps: seq<SaveStamp>)
    requires |stamps| == |entries|
    ensures var w := RunCheckout(items, entries, stamps);
      && w.items.Keys == items.Keys
      && (forall id :: id in items ==> w.items[id].quantity <= items[id].quantity)
      && (forall id :: id in items && items[id].quantity >= 0 ==> w.items[id].quantity >= 0)
      && |w.lines| <= |entries|
      && (forall k :: 0 <= k < |w.lines| ==>
            (entries[k].id in items && w.items[entries[k].id].quantity < items[entries[k].id].quantity))
  {
    var w := RunCheckout(items, entries, stamps);
    if EntriesValid(entries) {
      assert w == WalkEntries(items, entries, stamps);
      WalkStock(items, entries, stamps);
      var n := |w.lines|;
      var done := entries[..n];
      assert EntriesValid(done);
      forall id | id in items
        ensures w.items[id].quantity <= items[id].quantity
      {
        RequestedCovers(done, 0, id);
      }
      WalkLines(items, entries, stamps);
      forall k | 0 <= k < n
        ensures entries[k].id in items && w.items[entries[k].id].quantity < items[entries[k].id].quantity
      {
        assert LineAt(items, entries, k, w.lines[k]);
        assert done[k] == entries[k];
        RequestedCovers(done, k, entries[k].id);
      }
    }
  }

  /**
   * The partial-failure case: Widget (5 in stock) and Gadget (10 in stock);
   * asking for 2 Widgets and then 999 Gadgets fails on Gadget, whatever the
   * clock and the draws, and Widget stays at 3.
   */
  lemma PartialFailureExample(s0: SaveStamp, s1: SaveStamp)
    ensures var widget := Item("Widget", "PN-100", Rpm, SmartClick, 5, "SHV-W", 0);
      var gadget := Item("Gadget", "PN-200", Handheld, FE, 10, "SHV-G", 0);
      var w := RunCheckout(map[0 := widget, 1 := gadget], [CheckoutEntry(0, 2), CheckoutEntry(1, 999)], [s0, s1]);
      && w.Response() == Failure(InsufficientQuantity("Gadget"))
      && w.items[0].quantity == 3
      && w.items[1] == gadget
  {
    var widget := Item("Widget", "PN-100", Rpm, SmartClick, 5, "SHV-W", 0);
    var gadget := Item("Gadget", "PN-200", Handheld, FE, 10, "SHV-G", 0);
    var items := map[0 := widget, 1 := gadget];
    var entries := [CheckoutEntry(0, 2), CheckoutEntry(1, 999)];
    var b := Barcode(s0.now, s0.random);
    BarcodeLengthBounds(s0.now, s0.random);
    assert KeysFree(items, 0, widget.(quantity := 3, barcode := b));
    var next := items[0 := widget.(quantity := 3, barcode := b)];
    assert CheckoutStep(items, entries[0], s0) == Success((next, CheckoutLine("Widget", 2, 3)));
    assert CheckoutStep(next, entries[1], s1) == Failure(InsufficientQuantity("Gadget"));
    assert entries[1..][1..] == [];
  }

  // ------------------------------------------------------------------ export

  const ExportHeaders: seq<string> :=
    ["Item Name", "Part Number", "Category", "Working Group", "Quantity", "Barcode", "Last Updated"]

  /** One spreadsheet row: header and cell, in column order. */
  type Row = seq<(string, Cell)>

  /** The projection of GET /inventory/export; `formatDate` is `toLocaleDateString`. */
  function ExportRow(item: Item, formatDate: nat -> string): (row: Row)
    ensures |row| == |ExportHeaders| && forall k :: 0 <= k < |row| ==> row[k].0 == ExportHeaders[k]
  {
    [ ("Item Name", Text(item.itemName)),
      ("Part Number", Text(item.partNumber)),
      ("Category", Text(CategoryName(item.category))),
      ("Working Group", Text(WorkingGroupName(item.workingGroup))),
      ("Quantity", Number(item.quantity)),
      ("Barcode", Text(item.barcode)),
      ("Last Updated", Text(formatDate(item.lastUpdated))) ]
  }

  /** One row per listed item, in listing order. */
  function ExportRows(items: seq<Item>, formatDate: nat -> string): (rows: seq<Row>)
    ensures |rows| == |items|
    ensures forall k :: 0 <= k < |items| ==> rows[k] == ExportRow(items[k], formatDate)
  {
    seq(|items|, k requires 0 <= k < |items| => ExportRow(items[k], formatDate))
  }

  /** What a reader of the sheet recovers from one row. */
  datatype RowFields = RowFields(
    itemName: string, partNumber: string, category: Category, workingGroup: WorkingGroup,
    quantity: int, barcode: string, lastUpdated: string)

  function ReadRow(row: Row): Option<RowFields> {
    if |row| == 7 && (forall k :: 0 <= k < 7 ==> row[k].0 == ExportHeaders[k])
      && row[0].1.Text? && row[1].1.Text? && row[2].1.Text? && row[3].1.Text?
      && row[4].1.Number? && row[5].1.Text? && row[6].1.Text?
      && ParseCategory(row[2].1.text).Some? && ParseWorkingGroup(row[3].1.text).Some?
    then Some(RowFields(row[0].1.text, row[1].1.text, ParseCategory(row[2].1.text).value,
      ParseWorkingGroup(row[3].1.text).value, row[4].1.number, row[5].1.text, row[6].1.text))
    else None
  }

  /** Every field of an item can be read back from its exported row; the date as formatted. */
  lemma ExportRowRoundTrip(item: Item, formatDate: nat -> string)
    ensures ReadRow(ExportRow(item, formatDate)) == Some(RowFields(item.itemName, item.partNumber,
      item.category, item.workingGroup, item.quantity, item.barcode, formatDate(item.lastUpdated)))
  {
  }

  // ------------------------------------------------------------ the collection

  class Inventory {
    var items: map<ItemId, Item>
    var nextId: ItemId

    ghost predicate Valid()
      reads this
    {
      (forall id :: id in items ==> id < nextId) && StoreValid(items)
    }

    constructor ()
      ensures Valid() && items == map[]
    {
      items := map[];
      nextId := 0;
    }

    /** POST /inventory, with the corrected hook-first save. */
    method AddItem(req: AddRequest, createdAt: nat, stamp: SaveStamp) returns (r: Result<Item, LedgerError>)
      requires Valid()
      modifies this
      ensures Valid()
      ensures var o := AddOutcome(old(items), old(nextId), req, createdAt, stamp); items == o.items && r == o.result
      ensures nextId == if r.Success? then old(nextId) + 1 else old(nextId)
    {
      if !AddRequestValid(req) {
        return Failure(Invalid);
      }
      if PartNumberInUse(items, Trim(req.partNumber)) {
        return Failure(PartNumberExists);
      }
      var doc := NewDocument(req, createdAt);
      var saved := Save(items, nextId, doc, false, stamp);
      if saved.Failure? {
        return Failure(SaveRejected(saved.error));
      }
      items := saved.value;
      r := Success(items[nextId]);
      nextId := nextId + 1;
    }

    /** PATCH /inventory/:id: validate, look up, copy every key but the two protected ones, save. */
    method UpdateItem(id: ItemId, updates: seq<FieldUpdate>, stamp: SaveStamp) returns (r: Result<Item, LedgerError>)
      requires Valid()
      modifies this
      ensures Valid() && nextId == old(nextId)
      ensures var o := UpdateOutcome(old(items), id, updates, stamp); items == o.items && r == o.result
    {
      if !UpdatesValid(updates) {
        return Failure(Invalid);
      }
      if id !in items {
        return Failure(ItemNotFound);
      }
      var doc := items[id];
      for k := 0 to |updates|
        invariant doc == ApplyUpdates(items[id], updates[..k])
      {
        assert updates[..k + 1][..k] == updates[..k];
        var u := updates[k];
        if !Protected(u) {
          doc := Assign(doc, u);
        }
      }
      assert updates[..|updates|] == updates;
      var saved := Save(items, id, doc, false, stamp);
      if saved.Failure? {
        return Failure(SaveRejected(saved.error));
      }
      items := saved.value;
      r := Success(items[id]);
    }

    /**
     * POST /inventory/checkout: entry by entry, look the item up, check its
     * stock, decrement and save at once. An error ends the call and leaves
     * the entries before it committed.
     */
    method Checkout(entries: seq<CheckoutEntry>, stamps: seq<SaveStamp>) returns (r: Result<seq<CheckoutLine>, LedgerError>)
      requires Valid()
      requires |stamps| == |entries|
      modifies this
      ensures Valid() && nextId == old(nextId)
      ensures var w := RunCheckout(old(items), entries, stamps); items == w.items && r == w.Response()
    {
      if !EntriesValid(entries) {
        return Failure(Invalid);
      }
      var results: seq<CheckoutLine> := [];
      var i := 0;
      while i < |entries|
        invariant 0 <= i <= |entries|
        invariant Valid() && nextId == old(nextId)
        invariant WalkEntries(old(items), entries, stamps).items == WalkEntries(items, entries[i..], stamps[i..]).items
        invariant WalkEntries(old(items), entries, stamps).failure == WalkEntries(items, entries[i..], stamps[i..]).failure
        invariant WalkEntries(old(items), entries, stamps).lines == results + WalkEntries(items, entries[i..], stamps[i..]).lines
      {
        WalkUnfolds(items, entries, stamps, i);
        match CheckoutStep(items, entries[i], stamps[i])
        case Failure(err) =>
          return Failure(err);
        case Success((next, line)) =>
          assert results + WalkEntries(items, entries[i..], stamps[i..]).lines
              == (results + [line]) + WalkEntries(next, entries[i + 1..], stamps[i + 1..]).lines;
          items := next;
          results := results + [line];
          i := i + 1;
      }
      WalkUnfolds(items, entries, stamps, i);
      assert results + [] == results;
      r := Success(results);
    }
  }
}
