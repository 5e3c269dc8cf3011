/** The stored sale record: one transaction with nested customer, product, sale and
    operational parts, and the dotted field paths by which queries and sorts name its fields. */
module SaleModel {
  import opened Optional

  /** A point in time, in milliseconds since the epoch; only its order matters here. */
  type Timestamp = int

  datatype Customer = Customer(
    id: string,
    name: string,
    gender: string,
    age: int,
    region: string,
    phone: string,
    email: string)

  datatype Product = Product(
    id: string,
    name: string,
    brand: string,
    category: string,
    tags: seq<string>)

  /** The figures of the transaction itself (the record's `sale` part). */
  datatype SaleFigures = SaleFigures(
    quantity: int,
    pricePerUnit: int,
    discount: int,
    totalAmount: int,
    finalAmount: int,
    date: Timestamp)

  datatype SalesPerson = SalesPerson(id: string, name: string)

  datatype Operational = Operational(
    paymentMethod: string,
    storeId: string,
    storeLocation: string,
    deliveryType: string,
    salesPerson: SalesPerson)

  datatype Sale = Sale(
    transactionId: string,
    customer: Customer,
    product: Product,
    sale: SaleFigures,
    operational: Operational)

  /** Every field of a record, as a dotted path names it. */
  datatype FieldPath =
    | TransactionId
    | CustomerId | CustomerName | CustomerGender | CustomerAge | CustomerRegion
    | CustomerPhone | CustomerEmail
    | ProductId | ProductName | ProductBrand | ProductCategory | ProductTags
    | SaleQuantity | SalePricePerUnit | SaleDiscount | SaleTotalAmount | SaleFinalAmount
    | SaleDate
    | PaymentMethod | StoreId | StoreLocation | DeliveryType
    | SalesPersonId | SalesPersonName

  /** The value held at a field: a string, a number, a date or a list of strings. */
  datatype Value = Text(s: string) | Number(n: int) | Date(t: Timestamp) | TextList(items: seq<string>)

  function PathName(p: FieldPath): string {
    match p
    case TransactionId => "transactionId"
    case CustomerId => "customer.id"
    case CustomerName => "customer.name"
    case CustomerGender => "customer.gender"
    case CustomerAge => "customer.age"
    case CustomerRegion => "customer.region"
    case CustomerPhone => "customer.phone"
    case CustomerEmail => "customer.email"
    case ProductId => "product.id"
    case ProductName => "product.name"
    case ProductBrand => "product.brand"
    case ProductCategory => "product.category"
    case ProductTags => "product.tags"
    case SaleQuantity => "sale.quantity"
    case SalePricePerUnit => "sale.pricePerUnit"
    case SaleDiscount => "sale.discount"
    case SaleTotalAmount => "sale.totalAmount"
    case SaleFinalAmount => "sale.finalAmount"
    case SaleDate => "sale.date"
    case PaymentMethod => "operational.paymentMethod"
    case StoreId => "operational.storeId"
    case StoreLocation => "operational.storeLocation"
    case DeliveryType => "operational.deliveryType"
    case SalesPersonId => "operational.salesPerson.id"
    case SalesPersonName => "operational.salesPerson.name"
  }

  /** Every field, each once. */
  const AllPaths: seq<FieldPath> := [
    TransactionId,
    CustomerId, CustomerName, CustomerGender, CustomerAge, CustomerRegion, CustomerPhone,
    CustomerEmail,
    ProductId, ProductName, ProductBrand, ProductCategory, ProductTags,
    SaleQuantity, SalePricePerUnit, SaleDiscount, SaleTotalAmount, SaleFinalAmount, SaleDate,
    PaymentMethod, StoreId, StoreLocation, DeliveryType, SalesPersonId, SalesPersonName]

  lemma EveryPathListed(p: FieldPath)
    ensures p in AllPaths
  {
  }

  /** The first field of `ps` whose path is `name`. */
  function Lookup(name: string, ps: seq<FieldPath>): (r: Option<FieldPath>)
    ensures r.Some? ==> r.value in ps && PathName(r.value) == name
    ensures r.None? ==> forall i :: 0 <= i < |ps| ==> PathName(ps[i]) != name
  {
    if |ps| == 0 then None
    else if PathName(ps[0]) == name then Some(ps[0])
    else Lookup(name, ps[1..])
  }

  /** The field a dotted path names: found exactly when some field has that path. */
  function ParsePath(name: string): (r: Option<FieldPath>)
    ensures r.Some? ==> PathName(r.value) == name
    ensures r.None? ==> forall p :: PathName(p) != name
  {
    var r := Lookup(name, AllPaths);
    if r.None? then
      forall p ensures PathName(p) != name {
        EveryPathListed(p);
      }
      r
    else r
  }

  /** The value of field `p` of record `s`. */
  function Get(p: FieldPath, s: Sale): Value {
    match p
    case TransactionId => Text(s.transactionId)
    case CustomerId => Text(s.customer.id)
    case CustomerName => Text(s.customer.name)
    case CustomerGender => Text(s.customer.gender)
    case CustomerAge => Number(s.customer.age)
    case CustomerRegion => Text(s.customer.region)
    case CustomerPhone => Text(s.customer.phone)
    case CustomerEmail => Text(s.customer.email)
    case ProductId => Text(s.product.id)
    case ProductName => Text(s.product.name)
    case ProductBrand => Text(s.product.brand)
    case ProductCategory => Text(s.product.category)
    case ProductTags => TextList(s.product.tags)
    case SaleQuantity => Number(s.sale.quantity)
    case SalePricePerUnit => Number(s.sale.pricePerUnit)
    case SaleDiscount => Number(s.sale.discount)
    case SaleTotalAmount => Number(s.sale.totalAmount)
    case SaleFinalAmount => Number(s.sale.finalAmount)
    case SaleDate => Date(s.sale.date)
    case PaymentMethod => Text(s.operational.paymentMethod)
    case StoreId => Text(s.operational.storeId)
    case StoreLocation => Text(s.operational.storeLocation)
    case DeliveryType => Text(s.operational.deliveryType)
    case SalesPersonId => Text(s.operational.salesPerson.id)
    case SalesPersonName => Text(s.operational.salesPerson.name)
  }
}
