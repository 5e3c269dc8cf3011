/** `getSalesData`: the request parameters become a conjunctive filter document over sale
    records; the matches are sorted by one field, cut into a skip/limit page and returned
    with the match count and the number of pages. The store is a sequence of records. */
module SalesService {
  import opened Optional
  import opened JsStrings
  import opened Paging
  import opened SaleModel
  import opened SortOrder
  import opened Selection

  /** The filtering parameters. A text parameter that is absent or empty is "" (either way it
      is falsy and adds no constraint); numeric and date bounds are `Some` when supplied. */
  datatype Filters = Filters(
    search: string,
    gender: string,
    region: string,
    category: string,
    paymentMethod: string,
    tags: string,
    minAge: Option<int>,
    maxAge: Option<int>,
    startDate: Option<Timestamp>,
    endDate: Option<Timestamp>)

  /** The request parameters: the filters, the sort and the page asked for. */
  datatype SalesQuery = SalesQuery(
    filters: Filters,
    sortBy: Option<string>,
    order: Option<string>,
    page: Option<int>,
    limit: Option<int>)

  // ---------------------------------------------------------------------------
  // The filter document and how the store evaluates it
  // ---------------------------------------------------------------------------

  /** One field condition of a filter document. */
  datatype Condition =
    | Pattern(path: FieldPath, text: string)                    // { $regex: text, $options: 'i' }
    | OneOf(path: FieldPath, values: seq<string>)               // { $in: values }
    | Between(path: FieldPath, low: Option<int>, high: Option<int>)  // { $gte: low, $lte: high }

  /** A top-level entry: an `$or` of conditions, or a single field condition. */
  datatype Clause = AnyOf(alternatives: seq<Condition>) | Where(condition: Condition)

  /** The entries of a filter document, all of which must hold. */
  type FilterDoc = seq<Clause>

  predicate InRange(n: int, low: Option<int>, high: Option<int>) {
    (low.None? || low.value <= n) && (high.None? || n <= high.value)
  }

  /** How the store evaluates one condition on a record; on a list-valued field a condition
      holds when it holds of some element. */
  predicate Holds(c: Condition, s: Sale) {
    match c
    case Pattern(p, text) =>
      (match Get(p, s)
       case Text(x) => ContainsIgnoreCase(x, text)
       case TextList(xs) => exists i :: 0 <= i < |xs| && ContainsIgnoreCase(xs[i], text)
       case _ => false)
    case OneOf(p, values) =>
      (match Get(p, s)
       case Text(x) => x in values
       case TextList(xs) => exists i :: 0 <= i < |xs| && xs[i] in values
       case _ => false)
    case Between(p, low, high) =>
      (match Get(p, s)
       case Number(n) => InRange(n, low, high)
       case Date(t) => InRange(t, low, high)
       case _ => false)
  }

  predicate ClauseHolds(cl: Clause, s: Sale) {
    match cl
    case AnyOf(alternatives) => exists i :: 0 <= i < |alternatives| && Holds(alternatives[i], s)
    case Where(c) => Holds(c, s)
  }

  /** The record satisfies every entry of the document. */
  predicate Selects(doc: FilterDoc, s: Sale) {
    |doc| == 0 || (ClauseHolds(doc[0], s) && Selects(doc[1..], s))
  }

  function Include(active: bool, cl: Clause): seq<Clause> {
    if active then [cl] else []
  }

  /** `$or` of a case-insensitive pattern on the name and on the phone, when `search` is truthy. */
  function SearchPart(search: string): seq<Clause> {
    Include(search != "", AnyOf([Pattern(CustomerName, search), Pattern(CustomerPhone, search)]))
  }

  /** `{ $in: param.split(',') }` on `path`, when `param` is truthy. */
  function InPart(param: string, path: FieldPath): seq<Clause> {
    Include(param != "", Where(OneOf(path, Split(param, ','))))
  }

  /** `{ $gte: low, $lte: high }` on `path`, with only the bounds supplied, when either is. */
  function RangePart(low: Option<int>, high: Option<int>, path: FieldPath): seq<Clause> {
    Include(low.Some? || high.Some?, Where(Between(path, low, high)))
  }

  /** The filter document built from the parameters: search on name or phone, membership in
      the comma-split lists, and inclusive bounds on age and date. */
  function BuildFilter(f: Filters): FilterDoc
  {
    SearchPart(f.search) + ListParts(f) + RangeParts(f)
  }

  /** The membership conditions, in the order the service adds them. */
  function ListParts(f: Filters): FilterDoc {
    InPart(f.gender, CustomerGender)
    + InPart(f.region, CustomerRegion)
    + InPart(f.category, ProductCategory)
    + InPart(f.paymentMethod, PaymentMethod)
    + InPart(f.tags, ProductTags)
  }

  /** The age bounds, then the date bounds. */
  function RangeParts(f: Filters): FilterDoc {
    RangePart(f.minAge, f.maxAge, CustomerAge) + RangePart(f.startDate, f.endDate, SaleDate)
  }

  // ---------------------------------------------------------------------------
  // The reference meaning of the parameters
  // ---------------------------------------------------------------------------

  /** A non-empty search matches when the name or the phone contains it, ignoring case. */
  ghost predicate SearchAdmits(search: string, s: Sale) {
    search != "" ==>
      Contains(Lower(s.customer.name), Lower(search)) || Contains(Lower(s.customer.phone), Lower(search))
  }

  /** A non-empty list parameter restricts the field to the pieces of its comma split. */
  ghost predicate ListAdmits(param: string, field: string) {
    param != "" ==> field in Split(param, ',')
  }

  /** A non-empty tags parameter needs a tag of the record among its comma-split pieces. */
  ghost predicate TagsAdmit(param: string, tags: seq<string>) {
    param != "" ==> exists t :: t in tags && t in Split(param, ',')
  }

  ghost predicate BoundsAdmit(low: Option<int>, high: Option<int>, n: int) {
    (low.Some? ==> low.value <= n) && (high.Some? ==> n <= high.value)
  }

  /** The record satisfies every constraint the parameters impose. */
  ghost predicate Admits(f: Filters, s: Sale) {
    && SearchAdmits(f.search, s)
    && ListAdmits(f.gender, s.customer.gender)
    && ListAdmits(f.region, s.customer.region)
    && ListAdmits(f.category, s.product.category)
    && ListAdmits(f.paymentMethod, s.operational.paymentMethod)
    && TagsAdmit(f.tags, s.product.tags)
    && BoundsAdmit(f.minAge, f.maxAge, s.customer.age)
    && BoundsAdmit(f.startDate, f.endDate, s.sale.date)
  }

  lemma {:induction false} SelectsAppend(a: FilterDoc, b: FilterDoc, s: Sale)
    ensures Selects(a + b, s) <==> Selects(a, s) && Selects(b, s)
    decreases |a|
  {
    if |a| > 0 {
      SelectsAppend(a[1..], b, s);
      assert (a + b)[1..] == a[1..] + b;
    } else {
      assert a + b == b;
    }
  }

  lemma SearchPartMeaning(search: string, s: Sale)
    ensures Selects(SearchPart(search), s) <==> SearchAdmits(search, s)
  {
    ContainsIgnoreCaseMeaning(s.customer.name, search);
    ContainsIgnoreCaseMeaning(s.customer.phone, search);
    if search != "" {
      var alts := [Pattern(CustomerName, search), Pattern(CustomerPhone, search)];
      var doc := [AnyOf(alts)];
      assert Selects(doc, s) <==> ClauseHolds(doc[0], s) by {
        assert Selects(doc[1..], s);
      }
      assert ClauseHolds(doc[0], s) <==> Holds(alts[0], s) || Holds(alts[1], s);
    }
  }

  lemma InPartMeaning(param: string, p: FieldPath, field: string, s: Sale)
    requires Get(p, s) == Text(field)
    ensures Selects(InPart(param, p), s) <==> ListAdmits(param, field)
  {
    if param != "" {
      var doc := [Where(OneOf(p, Split(param, ',')))];
      assert Selects(doc, s) <==> ClauseHolds(doc[0], s) by {
        assert Selects(doc[1..], s);
      }
    }
  }

  lemma TagsPartMeaning(param: string, s: Sale)
    ensures Selects(InPart(param, ProductTags), s) <==> TagsAdmit(param, s.product.tags)
  {
    if param != "" {
      var doc := [Where(OneOf(ProductTags, Split(param, ',')))];
      assert Selects(doc, s) <==> ClauseHolds(doc[0], s) by {
        assert Selects(doc[1..], s);
      }
      var xs := s.product.tags;
      if ClauseHolds(doc[0], s) {
        var i :| 0 <= i < |xs| && xs[i] in Split(param, ',');
        assert xs[i] in xs;
      }
    }
  }

  lemma RangePartMeaning(low: Option<int>, high: Option<int>, p: FieldPath, n: int, s: Sale)
    requires Get(p, s) == Number(n) || Get(p, s) == Date(n)
    ensures Selects(RangePart(low, high, p), s) <==> BoundsAdmit(low, high, n)
  {
    if low.Some? || high.Some? {
      var doc := [Where(Between(p, low, high))];
      assert Selects(doc, s) <==> ClauseHolds(doc[0], s) by {
        assert Selects(doc[1..], s);
      }
    }
  }

  /** The customer membership conditions select exactly the records on those lists. */
  lemma CustomerListsMeaning(f: Filters, s: Sale)
    ensures Selects(InPart(f.gender, CustomerGender) + InPart(f.region, CustomerRegion) + InPart(f.category, ProductCategory), s)
      <==> ListAdmits(f.gender, s.customer.gender) && ListAdmits(f.region, s.customer.region)
           && ListAdmits(f.category, s.product.category)
  {
    var d1, d2, d3 := InPart(f.gender, CustomerGender), InPart(f.region, CustomerRegion), InPart(f.category, ProductCategory);
    SelectsAppend(d1 + d2, d3, s);
    SelectsAppend(d1, d2, s);
    InPartMeaning(f.gender, CustomerGender, s.customer.gender, s);
    InPartMeaning(f.region, CustomerRegion, s.customer.region, s);
    InPartMeaning(f.category, ProductCategory, s.product.category, s);
  }

  /** The membership conditions select exactly the records on the comma-split lists and
      sharing a tag with the tags list. */
  lemma ListPartsMeaning(f: Filters, s: Sale)
    ensures Selects(ListParts(f), s) <==>
      && ListAdmits(f.gender, s.customer.gender)
      && ListAdmits(f.region, s.customer.region)
      && ListAdmits(f.category, s.product.category)
      && ListAdmits(f.paymentMethod, s.operational.paymentMethod)
      && TagsAdmit(f.tags, s.product.tags)
  {
    var d123 := InPart(f.gender, CustomerGender) + InPart(f.region, CustomerRegion) + InPart(f.category, ProductCategory);
    var d4, d5 := InPart(f.paymentMethod, PaymentMethod), InPart(f.tags, ProductTags);
    SelectsAppend(d123 + d4, d5, s);
    SelectsAppend(d123, d4, s);
    CustomerListsMeaning(f, s);
    InPartMeaning(f.paymentMethod, PaymentMethod, s.operational.paymentMethod, s);
    TagsPartMeaning(f.tags, s);
  }

  /** The range conditions select exactly the records within the supplied bounds. */
  lemma RangePartsMeaning(f: Filters, s: Sale)
    ensures Selects(RangeParts(f), s) <==>
      BoundsAdmit(f.minAge, f.maxAge, s.customer.age) && BoundsAdmit(f.startDate, f.endDate, s.sale.date)
  {
    SelectsAppend(RangePart(f.minAge, f.maxAge, CustomerAge), RangePart(f.startDate, f.endDate, SaleDate), s);
    RangePartMeaning(f.minAge, f.maxAge, CustomerAge, s.customer.age, s);
    RangePartMeaning(f.startDate, f.endDate, SaleDate, s.sale.date, s);
  }

  /** The store selects a record by the built document exactly when the record satisfies
      every constraint the parameters impose: search on name OR phone, the membership lists,
      the tag overlap and the inclusive bounds, all conjoined. */
  lemma FilterMeaning(f: Filters, s: Sale)
    ensures Selects(BuildFilter(f), s) <==> Admits(f, s)
  {
    SelectsAppend(SearchPart(f.search) + ListParts(f), RangeParts(f), s);
    SelectsAppend(SearchPart(f.search), ListParts(f), s);
    SearchPartMeaning(f.search, s);
    ListPartsMeaning(f, s);
    RangePartsMeaning(f, s);
  }

  /** With no filter parameter supplied, every record matches. */
  lemma NoParametersNoRestriction(f: Filters, s: Sale)
    requires f.search == "" && f.gender == "" && f.region == "" && f.category == ""
    requires f.paymentMethod == "" && f.tags == ""
    requires f.minAge.None? && f.maxAge.None? && f.startDate.None? && f.endDate.None?
    ensures Selects(BuildFilter(f), s)
  {
    FilterMeaning(f, s);
  }

  // ---------------------------------------------------------------------------
  // find / countDocuments over the store
  // ---------------------------------------------------------------------------

  /** The document as a test on records. */
  function Selector(doc: FilterDoc): Sale -> bool {
    s => Selects(doc, s)
  }

  /** `find(doc)`: the selected records, in store order. */
  function Find(store: seq<Sale>, doc: FilterDoc): seq<Sale> {
    Keep(store, Selector(doc))
  }

  /** `countDocuments(doc)`: how many positions of the store hold selected records. */
  function CountDocuments(store: seq<Sale>, doc: FilterDoc): nat {
    |KeptPositions(store, Selector(doc))|
  }

  /** The count and the find agree: the count is the number of records `find` returns. */
  lemma CountIsFindLength(store: seq<Sale>, doc: FilterDoc)
    ensures CountDocuments(store, doc) == |Find(store, doc)|
  {
    KeepCountsPositions(store, Selector(doc));
  }

  // ---------------------------------------------------------------------------
  // getSalesData
  // ---------------------------------------------------------------------------

  datatype Pagination = Pagination(total: nat, page: int, limit: int, totalPages: nat)

  datatype SalesResult = SalesResult(data: seq<Sale>, pagination: Pagination)

  /** `Math.max(1, Number(page))`, page defaulting to 1. */
  function PageNum(q: SalesQuery): (n: int)
    ensures n >= 1
    ensures q.page.Some? && q.page.value >= 1 ==> n == q.page.value
    ensures q.page.None? || q.page.value <= 1 ==> n == 1
  {
    var p := q.page.GetOr(1);
    if p < 1 then 1 else p
  }

  /** `Number(limit)`, limit defaulting to 10. */
  function LimitNum(q: SalesQuery): int {
    q.limit.GetOr(10)
  }

  /** The sort field, defaulting to "sale.date". */
  function SortField(q: SalesQuery): string {
    q.sortBy.GetOr("sale.date")
  }

  /** All matches, in the order the sort puts them. */
  function Arranged(store: seq<Sale>, q: SalesQuery): seq<Sale> {
    SortBy(Find(store, BuildFilter(q.filters)), SortField(q), DirectionOf(q.order))
  }

  /** The page requested and the pagination metadata. */
  function GetSalesData(store: seq<Sale>, q: SalesQuery): (r: SalesResult)
    requires LimitNum(q) >= 1
    ensures |r.data| <= LimitNum(q)
    ensures r.pagination.page == PageNum(q) && r.pagination.limit == LimitNum(q)
    ensures r.pagination.total == |Find(store, BuildFilter(q.filters))|
    ensures r.pagination.totalPages == CeilDiv(r.pagination.total, LimitNum(q))
  {
    var doc := BuildFilter(q.filters);
    var pageNum := PageNum(q);
    var limitNum := LimitNum(q);
    var skip := Offset(pageNum, limitNum);
    var sales := Window(Arranged(store, q), skip, limitNum);
    var total := CountDocuments(store, doc);
    CountIsFindLength(store, doc);
    SalesResult(sales, Pagination(total, pageNum, limitNum, CeilDiv(total, limitNum)))
  }

  /** Every returned record is a record of the store that satisfies all active constraints,
      and the page is ordered by the sort key. */
  lemma ReturnedRowsMatch(store: seq<Sale>, q: SalesQuery)
    requires LimitNum(q) >= 1
    ensures forall i :: 0 <= i < |GetSalesData(store, q).data| ==>
              GetSalesData(store, q).data[i] in store && Admits(q.filters, GetSalesData(store, q).data[i])
    ensures Ordered(GetSalesData(store, q).data, SortField(q), DirectionOf(q.order))
  {
    var matches := Find(store, BuildFilter(q.filters));
    var sorted := Arranged(store, q);
    SortByOrdered(matches, SortField(q), DirectionOf(q.order));
    var skip := Offset(PageNum(q), LimitNum(q));
    var data := Window(sorted, skip, LimitNum(q));
    assert GetSalesData(store, q).data == data;
    OrderedWindow(sorted, skip, LimitNum(q), KeyOf(SortField(q)), DirectionOf(q.order));
    forall i | 0 <= i < |data| ensures data[i] in store && Admits(q.filters, data[i]) {
      assert data[i] in multiset(matches) by {
        assert data[i] in multiset(sorted);
      }
      assert data[i] in matches;
      FilterMeaning(q.filters, data[i]);
    }
  }

  /** `total` counts exactly the positions of the store whose records satisfy all constraints. */
  lemma TotalCountsMatches(store: seq<Sale>, q: SalesQuery)
    requires LimitNum(q) >= 1
    ensures GetSalesData(store, q).pagination.total == |set i: nat | i < |store| && Admits(q.filters, store[i])|
  {
    CountIsFindLength(store, BuildFilter(q.filters));
    forall i: nat | i < |store| ensures Selects(BuildFilter(q.filters), store[i]) <==> Admits(q.filters, store[i]) {
      FilterMeaning(q.filters, store[i]);
    }
    assert KeptPositions(store, Selector(BuildFilter(q.filters))) == set i: nat | i < |store| && Admits(q.filters, store[i]);
  }

  /** `total` and `totalPages` do not depend on the page asked for, and `total` not on the limit. */
  lemma TotalIgnoresPaging(store: seq<Sale>, q: SalesQuery, page: Option<int>, limit: Option<int>)
    requires LimitNum(q) >= 1 && limit.GetOr(10) >= 1
    ensures GetSalesData(store, q.(page := page, limit := limit)).pagination.total
            == GetSalesData(store, q).pagination.total
    ensures GetSalesData(store, q.(page := page)).pagination.totalPages
            == GetSalesData(store, q).pagination.totalPages
  {
  }

  /** The returned rows are page `PageNum(q)` of the sorted matches cut into pages of the limit. */
  lemma DataIsPageOf(store: seq<Sale>, q: SalesQuery)
    requires LimitNum(q) >= 1
    ensures GetSalesData(store, q).data == PageOf(Arranged(store, q), PageNum(q), LimitNum(q))
  {
  }

  /** Asking for page `j` returns page `j` of the same sorted matches, whatever page `q` named. */
  lemma AnswerForPage(store: seq<Sale>, q: SalesQuery, j: nat)
    requires LimitNum(q) >= 1 && j >= 1
    ensures GetSalesData(store, q.(page := Some(j))).data == PageOf(Arranged(store, q), j, LimitNum(q))
  {
    var q' := q.(page := Some(j));
    assert Arranged(store, q') == Arranged(store, q);
    DataIsPageOf(store, q');
  }

  /** A page number past `totalPages` gives an empty page, not an error; a page number within
      range gives a non-empty page. */
  lemma PagesBeyondTheEndAreEmpty(store: seq<Sale>, q: SalesQuery)
    requires LimitNum(q) >= 1
    ensures PageNum(q) > GetSalesData(store, q).pagination.totalPages ==> GetSalesData(store, q).data == []
    ensures PageNum(q) <= GetSalesData(store, q).pagination.totalPages ==> GetSalesData(store, q).data != []
  {
    var sorted := Arranged(store, q);
    DataIsPageOf(store, q);
    if PageNum(q) > GetSalesData(store, q).pagination.totalPages {
      PageBeyondEnd(sorted, PageNum(q), LimitNum(q));
    } else {
      PageInRange(sorted, PageNum(q), LimitNum(q));
    }
  }

  /** Asking for pages 1 to `totalPages` in turn returns the pages of the sorted matches one
      after another, and those pages laid end to end reproduce the sorted matches exactly: no
      record is repeated or skipped. */
  lemma PagesReassembleMatches(store: seq<Sale>, q: SalesQuery)
    requires LimitNum(q) >= 1
    ensures |PageList(Arranged(store, q), LimitNum(q))| == GetSalesData(store, q).pagination.totalPages
    ensures forall j :: 1 <= j <= |PageList(Arranged(store, q), LimitNum(q))| ==>
              GetSalesData(store, q.(page := Some(j))).data == PageList(Arranged(store, q), LimitNum(q))[j - 1]
    ensures Flatten(PageList(Arranged(store, q), LimitNum(q))) == Arranged(store, q)
  {
    var sorted := Arranged(store, q);
    var limit := LimitNum(q);
    var pages := PageList(sorted, limit);
    assert |pages| == GetSalesData(store, q).pagination.totalPages;
    forall j | 1 <= j <= |pages|
      ensures GetSalesData(store, q.(page := Some(j))).data == pages[j - 1]
    {
      AnswerForPage(store, q, j);
    }
    PageListFlatten(sorted, limit);
  }
}
