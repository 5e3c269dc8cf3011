/** The import script: each raw JSON row becomes a sale record, and the records are written
    in batches of 1000 as the rows arrive, with a final flush of the remainder. Decoding the
    JSON stream is left out; the rows arrive as an already decoded sequence. The store's
    answers (whether clearing and each insert succeed) and the ids the driver generates are
    parameters. */
module Seed {
  import opened JsStrings
  import opened Paging
  import opened Batching
  import opened SaleModel

  /** A JSON value as a raw row holds it. */
  datatype Json = JText(s: string) | JNumber(n: int) | JList(items: seq<string>)

  /** A raw row: column name to value, as the JSON file spells the columns. */
  type RawRow = map<string, Json>

  /** JavaScript truthiness: the empty string and zero are falsy; arrays are truthy. */
  predicate JsonTruthy(v: Json) {
    match v
    case JText(s) => s != ""
    case JNumber(n) => n != 0
    case JList(_) => true
  }

  /** `String(v)`; an array of strings renders as its items joined with commas. */
  function StringOf(v: Json): string {
    match v
    case JText(s) => s
    case JNumber(n) => IntToDecimal(n)
    case JList(items) => Join(items, ',')
  }

  predicate IsScalar(v: Json) {
    v.JText? || v.JNumber?
  }

  /** `column` is present and holds a value the text fields of the schema accept. */
  predicate TextColumn(row: RawRow, column: string) {
    column in row && IsScalar(row[column])
  }

  /** `column` is present and holds a number. */
  predicate NumberColumn(row: RawRow, column: string) {
    column in row && row[column].JNumber?
  }

  /** The columns a row must carry for the transform to produce a storable record: every
      column but "Transaction ID", which may be missing, with values the schema can cast. */
  predicate Decodable(row: RawRow) {
    && ("Transaction ID" in row ==> IsScalar(row["Transaction ID"]))
    && TextColumn(row, "Customer ID") && TextColumn(row, "Customer Name")
    && TextColumn(row, "Gender") && NumberColumn(row, "Age")
    && TextColumn(row, "Customer Region") && "Phone Number" in row
    && TextColumn(row, "Email")
    && TextColumn(row, "Product ID") && TextColumn(row, "Product Name")
    && TextColumn(row, "Brand") && TextColumn(row, "Product Category")
    && "Tags" in row && !row["Tags"].JNumber?
    && NumberColumn(row, "Quantity") && NumberColumn(row, "Price per Unit")
    && NumberColumn(row, "Discount Percentage") && NumberColumn(row, "Total Amount")
    && NumberColumn(row, "Final Amount") && NumberColumn(row, "Date")
    && TextColumn(row, "Payment Method") && TextColumn(row, "Store ID")
    && TextColumn(row, "Store Location") && TextColumn(row, "Delivery Type")
    && TextColumn(row, "Salesperson ID") && TextColumn(row, "Employee Name")
  }

  /** `item['Transaction ID'] || new ObjectId()`, stored as text. */
  function TransactionIdOf(row: RawRow, freshId: string): string {
    if "Transaction ID" in row && JsonTruthy(row["Transaction ID"]) then StringOf(row["Transaction ID"])
    else freshId
  }

  /** A text `Tags` value is split on commas and each piece trimmed; a list passes through. */
  function TagsOf(v: Json): seq<string>
    requires !v.JNumber?
  {
    match v
    case JText(s) => TrimAll(Split(s, ','))
    case JList(items) => items
  }

  /** The customer part of a row's record. */
  function CustomerOf(row: RawRow): Customer
    requires Decodable(row)
  {
    Customer(
      StringOf(row["Customer ID"]),
      StringOf(row["Customer Name"]),
      StringOf(row["Gender"]),
      row["Age"].n,
      StringOf(row["Customer Region"]),
      StringOf(row["Phone Number"]),
      StringOf(row["Email"]))
  }

  /** The product part of a row's record. */
  function ProductOf(row: RawRow): Product
    requires Decodable(row)
  {
    Product(
      StringOf(row["Product ID"]),
      StringOf(row["Product Name"]),
      StringOf(row["Brand"]),
      StringOf(row["Product Category"]),
      TagsOf(row["Tags"]))
  }

  /** The figures of a row's record. */
  function FiguresOf(row: RawRow): SaleFigures
    requires Decodable(row)
  {
    SaleFigures(
      row["Quantity"].n,
      row["Price per Unit"].n,
      row["Discount Percentage"].n,
      row["Total Amount"].n,
      row["Final Amount"].n,
      row["Date"].n)
  }

  /** The operational part of a row's record. */
  function OperationalOf(row: RawRow): Operational
    requires Decodable(row)
  {
    Operational(
      StringOf(row["Payment Method"]),
      StringOf(row["Store ID"]),
      StringOf(row["Store Location"]),
      StringOf(row["Delivery Type"]),
      SalesPerson(StringOf(row["Salesperson ID"]), StringOf(row["Employee Name"])))
  }

  /** The record a raw row is stored as. */
  function ToDoc(row: RawRow, freshId: string): Sale
    requires Decodable(row)
  {
    Sale(TransactionIdOf(row, freshId), CustomerOf(row), ProductOf(row), FiguresOf(row), OperationalOf(row))
  }

  // ---------------------------------------------------------------------------
  // What the transform promises
  // ---------------------------------------------------------------------------

  /** The raw column each record field is read from. */
  function Column(p: FieldPath): string {
    match p
    case TransactionId => "Transaction ID"
    case CustomerId => "Customer ID"
    case CustomerName => "Customer Name"
    case CustomerGender => "Gender"
    case CustomerAge => "Age"
    case CustomerRegion => "Customer Region"
    case CustomerPhone => "Phone Number"
    case CustomerEmail => "Email"
    case ProductId => "Product ID"
    case ProductName => "Product Name"
    case ProductBrand => "Brand"
    case ProductCategory => "Product Category"
    case ProductTags => "Tags"
    case SaleQuantity => "Quantity"
    case SalePricePerUnit => "Price per Unit"
    case SaleDiscount => "Discount Percentage"
    case SaleTotalAmount => "Total Amount"
    case SaleFinalAmount => "Final Amount"
    case SaleDate => "Date"
    case PaymentMethod => "Payment Method"
    case StoreId => "Store ID"
    case StoreLocation => "Store Location"
    case DeliveryType => "Delivery Type"
    case SalesPersonId => "Salesperson ID"
    case SalesPersonName => "Employee Name"
  }

  predicate IsNumberField(p: FieldPath) {
    p in {CustomerAge, SaleQuantity, SalePricePerUnit, SaleDiscount, SaleTotalAmount, SaleFinalAmount, SaleDate}
  }

  /** A raw value the schema can store in field `p`. */
  predicate Castable(p: FieldPath, v: Json) {
    (IsNumberField(p) ==> v.JNumber?) && (p == ProductTags ==> !v.JNumber?)
  }

  /** How the schema stores a raw value in field `p`: numbers as numbers, the date as a point
      in time, the tags as a list, everything else as text. */
  function Stored(p: FieldPath, v: Json): Value
    requires Castable(p, v)
  {
    if p == SaleDate then Date(v.n)
    else if IsNumberField(p) then Number(v.n)
    else if p == ProductTags then TextList(TagsOf(v))
    else Text(StringOf(v))
  }

  /** Which part of the record a field belongs to. */
  datatype Part = IdPart | CustomerPart | ProductPart | FiguresPart | OperationalPart

  function PartOf(p: FieldPath): Part {
    match p
    case TransactionId => IdPart
    case CustomerId | CustomerName | CustomerGender | CustomerAge | CustomerRegion
       | CustomerPhone | CustomerEmail => CustomerPart
    case ProductId | ProductName | ProductBrand | ProductCategory | ProductTags => ProductPart
    case SaleQuantity | SalePricePerUnit | SaleDiscount | SaleTotalAmount | SaleFinalAmount
       | SaleDate => FiguresPart
    case PaymentMethod | StoreId | StoreLocation | DeliveryType | SalesPersonId
       | SalesPersonName => OperationalPart
  }

  /** The customer fields are their raw columns. */
  lemma CustomerFieldsRenamed(row: RawRow, freshId: string, p: FieldPath)
    requires Decodable(row) && PartOf(p) == CustomerPart
    ensures Column(p) in row && Castable(p, row[Column(p)])
    ensures Get(p, ToDoc(row, freshId)) == Stored(p, row[Column(p)])
  {
  }

  /** The product fields are their raw columns. */
  lemma ProductFieldsRenamed(row: RawRow, freshId: string, p: FieldPath)
    requires Decodable(row) && PartOf(p) == ProductPart
    ensures Column(p) in row && Castable(p, row[Column(p)])
    ensures Get(p, ToDoc(row, freshId)) == Stored(p, row[Column(p)])
  {
  }

  /** The sale figures are their raw columns. */
  lemma FiguresRenamed(row: RawRow, freshId: string, p: FieldPath)
    requires Decodable(row) && PartOf(p) == FiguresPart
    ensures Column(p) in row && Castable(p, row[Column(p)])
    ensures Get(p, ToDoc(row, freshId)) == Stored(p, row[Column(p)])
  {
  }

  /** The operational fields are their raw columns. */
  lemma OperationalFieldsRenamed(row: RawRow, freshId: string, p: FieldPath)
    requires Decodable(row) && PartOf(p) == OperationalPart
    ensures Column(p) in row && Castable(p, row[Column(p)])
    ensures Get(p, ToDoc(row, freshId)) == Stored(p, row[Column(p)])
  {
  }

  /** Every field except the transaction id is the value of its own raw column, cast to the
      field's type: the transform renames columns and changes nothing else. */
  lemma FieldsAreRenamedColumns(row: RawRow, freshId: string, p: FieldPath)
    requires Decodable(row) && p != TransactionId
    ensures Column(p) in row && Castable(p, row[Column(p)])
    ensures Get(p, ToDoc(row, freshId)) == Stored(p, row[Column(p)])
  {
    match PartOf(p)
    case CustomerPart => CustomerFieldsRenamed(row, freshId, p);
    case ProductPart => ProductFieldsRenamed(row, freshId, p);
    case FiguresPart => FiguresRenamed(row, freshId, p);
    case OperationalPart => OperationalFieldsRenamed(row, freshId, p);
  }

  /** The tags of a text value are its comma-separated pieces, trimmed: one more than the
      number of commas, each the piece with surrounding white space removed, none containing a
      comma or starting or ending in white space. */
  lemma TagsFromText(s: string)
    ensures |TagsOf(JText(s))| == multiset(s)[','] + 1
    ensures forall i :: 0 <= i < |TagsOf(JText(s))| ==>
              && TrimmedFrom(Split(s, ',')[i], TagsOf(JText(s))[i])
              && ',' !in TagsOf(JText(s))[i]
              && Unpadded(TagsOf(JText(s))[i])
  {
    TrimmedSplit(s, ',');
  }

  /** When no comma-separated piece of a text value is padded with white space, the tags are
      exactly the pieces, and joining them with commas gives the text back. */
  lemma TagsRoundTrip(s: string)
    requires forall i :: 0 <= i < |Split(s, ',')| ==> Unpadded(Split(s, ',')[i])
    ensures TagsOf(JText(s)) == Split(s, ',')
    ensures Join(TagsOf(JText(s)), ',') == s
  {
    TrimAllUnpadded(Split(s, ','));
    JoinOfSplit(s, ',');
  }

  /** The transaction id is the raw one, as text, when that is truthy, and the generated id
      otherwise; the generated id is not used at all when the raw id is truthy. */
  lemma TransactionIdFallback(row: RawRow, a: string, b: string)
    requires Decodable(row)
    ensures "Transaction ID" in row && JsonTruthy(row["Transaction ID"]) ==>
              ToDoc(row, a).transactionId == StringOf(row["Transaction ID"]) && ToDoc(row, a) == ToDoc(row, b)
    ensures !("Transaction ID" in row && JsonTruthy(row["Transaction ID"])) ==>
              ToDoc(row, a).transactionId == a && ToDoc(row, b).transactionId == b
  {
  }

  // ---------------------------------------------------------------------------
  // The batched import
  // ---------------------------------------------------------------------------

  const BatchSize: nat := 1000

  /** The records of all rows, row `i` with generated id `freshId(i)`. */
  function DecodeAll(rows: seq<RawRow>, freshId: nat -> string): (docs: seq<Sale>)
    requires forall i :: 0 <= i < |rows| ==> Decodable(rows[i])
    ensures |docs| == |rows|
    ensures forall i :: 0 <= i < |rows| ==> docs[i] == ToDoc(rows[i], freshId(i))
  {
    seq(|rows|, i requires 0 <= i < |rows| => ToDoc(rows[i], freshId(i)))
  }

  /** The store after the clear step: emptied, or, when clearing fails (the failure is only
      logged), the records `kept` that the failed delete left behind. */
  function Cleared(clearOk: bool, kept: seq<Sale>): seq<Sale> {
    if clearOk then [] else kept
  }

  /** The whole import: clear the store, transform every row, and write the records in
      batches of 1000 (as `BatchedRun` states). Row `i` gets the generated id `freshId(i)` when
      it needs one. A failed clear is only logged; it may have deleted some of the old
      records, and those it left, `kept`, stay ahead of the new ones. */
  method ImportData(existing: seq<Sale>, clearOk: bool, kept: seq<Sale>, rows: seq<RawRow>,
                    freshId: nat -> string, insertOk: nat -> bool)
    returns (report: ImportReport<Sale>)
    requires multiset(kept) <= multiset(existing)
    requires forall i :: 0 <= i < |rows| ==> Decodable(rows[i])
    ensures clearOk ==> report.store == Flatten(report.batches)
    ensures !clearOk ==> report.store == kept + Flatten(report.batches)
    ensures BatchedRun(Cleared(clearOk, kept), DecodeAll(rows, freshId), BatchSize, insertOk, report)
  {
    var docs := DecodeAll(rows, freshId);
    report := WriteInBatches(Cleared(clearOk, kept), docs, BatchSize, insertOk);
  }
}
