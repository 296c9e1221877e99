/**
 * The inventory item schema of server/src/models/Inventory.ts: its closed
 * enumerations, the constraints checked when a document is saved, the unique
 * indexes on part number and barcode, and the pre-save hook that writes a
 * barcode of the form "SHV" + last six digits of the clock + three random digits.
 */
module InventoryModel {
  import opened Wrappers
  import opened JsText

  datatype Category = Rpm | UtilityPanel | Handheld | Other

  function CategoryName(c: Category): string {
    match c
    case Rpm => "RPM"
    case UtilityPanel => "Utility Panel"
    case Handheld => "Handheld"
    case Other => "Other"
  }

  /** Membership in the category enumeration: the names above and nothing else. */
  function ParseCategory(s: string): (r: Option<Category>)
    ensures forall c :: r == Some(c) <==> CategoryName(c) == s
  {
    if s == "RPM" then Some(Rpm)
    else if s == "Utility Panel" then Some(UtilityPanel)
    else if s == "Handheld" then Some(Handheld)
    else if s == "Other" then Some(Other)
    else None
  }

  datatype WorkingGroup = SmartClick | FE

  function WorkingGroupName(g: WorkingGroup): string {
    match g
    case SmartClick => "Smart Click"
    case FE => "F.E."
  }

  /** Membership in the working-group enumeration, shared by items and accounts on the server. */
  function ParseWorkingGroup(s: string): (r: Option<WorkingGroup>)
    ensures forall g :: r == Some(g) <==> WorkingGroupName(g) == s
  {
    if s == "Smart Click" then Some(SmartClick)
    else if s == "F.E." then Some(FE)
    else None
  }

  type ItemId = nat

  /**
   * One inventory document. An unset barcode is the empty string, which
   * Mongoose's `required` check treats like a missing value. `lastUpdated`
   * is a clock reading in milliseconds.
   */
  datatype Item = Item(
    itemName: string,
    partNumber: string,
    category: Category,
    workingGroup: WorkingGroup,
    quantity: int,
    barcode: string,
    lastUpdated: nat)

  /** The per-document schema constraints: required strings present, quantity at least 0. */
  predicate SchemaValid(doc: Item) {
    doc.itemName != "" && doc.partNumber != "" && doc.barcode != "" && doc.quantity >= 0
  }

  /** The two unique indexes: no two documents share a part number or a barcode. */
  predicate UniqueKeys(items: map<ItemId, Item>) {
    forall a, b :: a in items && b in items && a != b ==>
      items[a].partNumber != items[b].partNumber && items[a].barcode != items[b].barcode
  }

  /** Writing `doc` under `id` violates neither unique index. */
  predicate KeysFree(items: map<ItemId, Item>, id: ItemId, doc: Item) {
    forall other :: other in items && other != id ==>
      items[other].partNumber != doc.partNumber && items[other].barcode != doc.barcode
  }

  /** The invariant of the stored collection. */
  predicate StoreValid(items: map<ItemId, Item>) {
    (forall id :: id in items ==> SchemaValid(items[id])) && UniqueKeys(items)
  }

  const BarcodePrefix := "SHV"

  /** `Math.floor(Math.random() * 1000)`. */
  type Random3 = r: int | 0 <= r < 1000

  /** What one call of the hook reads from its environment: `Date.now()` and the random draw. */
  datatype SaveStamp = SaveStamp(now: nat, random: Random3)

  /** The three-character random part: the draw, zero-padded to three digits. */
  function RandomSuffix(random: Random3): string {
    PadStart(Decimal(random), 3, '0')
  }

  /** The random part is exactly three digits and reads back as the draw. */
  lemma RandomSuffixDigits(random: Random3)
    ensures var r := RandomSuffix(random); |r| == 3 && AllDigits(r) && DigitsValue(r) == random
  {
    var digits := Decimal(random);
    assert Pow10(3) == 1000;
    DecimalLengthAtMost(random, 3);
    DecimalRoundTrip(random);
    var r := PadStart(digits, 3, '0');
    LeadingZerosValue(r[..|r| - |digits|], digits);
    assert r[..|r| - |digits|] + digits == r;
  }

  /** The barcode the hook writes for a clock reading and a random draw. */
  function Barcode(now: nat, random: Random3): string {
    BarcodePrefix + SliceLast(Decimal(now), 6) + RandomSuffix(random)
  }

  /** Splits a barcode into its clock part and its random part. */
  function ParseBarcode(b: string): Option<(string, nat)> {
    if |b| >= 6 && b[..3] == BarcodePrefix && AllDigits(b[|b| - 3..])
    then Some((b[3..|b| - 3], DigitsValue(b[|b| - 3..])))
    else None
  }

  /** A generated barcode reads back as the last six clock digits and the random draw. */
  lemma BarcodeRoundTrip(now: nat, random: Random3)
    ensures ParseBarcode(Barcode(now, random)) == Some((SliceLast(Decimal(now), 6), random))
  {
    RandomSuffixDigits(random);
    ParseAssembled(SliceLast(Decimal(now), 6), RandomSuffix(random));
  }

  lemma ParseAssembled(mid: string, suffix: string)
    requires |suffix| == 3 && AllDigits(suffix)
    ensures ParseBarcode(BarcodePrefix + mid + suffix) == Some((mid, DigitsValue(suffix)))
  {
    var b := BarcodePrefix + mid + suffix;
    assert b[..3] == BarcodePrefix;
    assert b[|b| - 3..] == suffix;
    assert b[3..|b| - 3] == mid;
  }

  /** With a clock reading of at least six digits the barcode is twelve characters long. */
  lemma BarcodeLength(now: nat, random: Random3)
    requires now >= 100000
    ensures |Barcode(now, random)| == 12
  {
    assert Pow10(5) == 100000;
    DecimalLengthAbove(now, 5);
    RandomSuffixDigits(random);
  }

  /**
   * A generated barcode has between 7 and 12 characters, so it is never
   * empty and satisfies the `required` constraint.
   */
  lemma BarcodeLengthBounds(now: nat, random: Random3)
    ensures 7 <= |Barcode(now, random)| <= 12
  {
    RandomSuffixDigits(random);
  }

  /**
   * The pre-save hook: when `barcode` was not modified on the document it is
   * overwritten with a fresh barcode, otherwise the document is left alone.
   */
  function PreSave(doc: Item, barcodeModified: bool, stamp: SaveStamp): (r: Item)
    ensures r.(barcode := doc.barcode) == doc
    ensures barcodeModified ==> r == doc
    ensures !barcodeModified ==> r.barcode == Barcode(stamp.now, stamp.random)
  {
    if barcodeModified then doc
    else doc.(barcode := Barcode(stamp.now, stamp.random))
  }

  /**
   * Every save of a document whose barcode was not set by the caller leaves
   * it with a barcode that reads back as the save's clock digits and draw.
   */
  lemma HookStampsBarcode(doc: Item, stamp: SaveStamp)
    ensures ParseBarcode(PreSave(doc, false, stamp).barcode) == Some((SliceLast(Decimal(stamp.now), 6), stamp.random))
  {
    BarcodeRoundTrip(stamp.now, stamp.random);
  }

  datatype SaveError = SchemaViolation | DuplicateKey

  /**
   * `doc.save()` for the document stored (or to be stored) under `id`, with the
   * hook run before the schema constraints are checked, then the unique indexes.
   */
  function Save(items: map<ItemId, Item>, id: ItemId, doc: Item, barcodeModified: bool, stamp: SaveStamp)
    : (r: Result<map<ItemId, Item>, SaveError>)
    ensures var d := PreSave(doc, barcodeModified, stamp);
      && (r.Success? <==> SchemaValid(d) && KeysFree(items, id, d))
      && (r.Success? ==> r.value == items[id := d])
      && (r == Failure(SchemaViolation) <==> !SchemaValid(d))
    ensures r.Success? && StoreValid(items) ==> StoreValid(r.value)
  {
    var d := PreSave(doc, barcodeModified, stamp);
    if !SchemaValid(d) then Failure(SchemaViolation)
    else if !KeysFree(items, id, d) then Failure(DuplicateKey)
    else
      WriteKeepsStoreValid(items, id, d);
      Success(items[id := d])
  }

  /** Writing a schema-valid document whose keys are free keeps the collection valid. */
  lemma WriteKeepsStoreValid(items: map<ItemId, Item>, id: ItemId, d: Item)
    requires SchemaValid(d) && KeysFree(items, id, d)
    ensures StoreValid(items) ==> StoreValid(items[id := d])
  {
    if StoreValid(items) {
      var m := items[id := d];
      forall a, b | a in m && b in m && a != b
        ensures m[a].partNumber != m[b].partNumber && m[a].barcode != m[b].barcode
      {
        if a == id {
          assert m[b] == items[b];
        } else if b == id {
          assert m[a] == items[a];
        } else {
          assert m[a] == items[a] && m[b] == items[b];
        }
      }
    }
  }

  /**
   * `doc.save()` in the order Mongoose runs it: schema validation is itself a
   * pre('save') hook registered ahead of the application's hook, so the
   * constraints see the document before its barcode is generated.
   */
  function SaveAsWritten(items: map<ItemId, Item>, id: ItemId, doc: Item, barcodeModified: bool, stamp: SaveStamp)
    : (r: Result<map<ItemId, Item>, SaveError>)
    ensures r == Failure(SchemaViolation) <==> !SchemaValid(doc)
  {
    if !SchemaValid(doc) then Failure(SchemaViolation)
    else
      var d := PreSave(doc, barcodeModified, stamp);
      if !KeysFree(items, id, d) then Failure(DuplicateKey)
      else Success(items[id := d])
  }

  /** As written, a document created without a barcode is always rejected by `required`. */
  lemma NewDocumentRejectedAsWritten(items: map<ItemId, Item>, id: ItemId, doc: Item, stamp: SaveStamp)
    requires doc.barcode == ""
    ensures SaveAsWritten(items, id, doc, false, stamp) == Failure(SchemaViolation)
  {
  }

  /** With the hook first, the same document is stored with a generated barcode when its other fields are valid. */
  lemma NewDocumentSavedWithHookFirst(items: map<ItemId, Item>, id: ItemId, doc: Item, stamp: SaveStamp)
    requires doc.itemName != "" && doc.partNumber != "" && doc.quantity >= 0
    requires KeysFree(items, id, doc.(barcode := Barcode(stamp.now, stamp.random)))
    ensures Save(items, id, doc, false, stamp) == Success(items[id := doc.(barcode := Barcode(stamp.now, stamp.random))])
  {
    BarcodeLengthBounds(stamp.now, stamp.random);
  }

  /** For a document that already carries a barcode the two orders agree. */
  lemma SaveOrdersAgreeOnStoredDocuments(items: map<ItemId, Item>, id: ItemId, doc: Item, modified: bool, stamp: SaveStamp)
    requires doc.barcode != ""
    ensures SaveAsWritten(items, id, doc, modified, stamp) == Save(items, id, doc, modified, stamp)
  {
    BarcodeLengthBounds(stamp.now, stamp.random);
  }
}
