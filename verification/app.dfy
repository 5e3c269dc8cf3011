/** The dashboard's page state: the query parameters the user edits through the search box,
    the filter dropdowns, the sort menu, the reset button and the page buttons, and the
    request those parameters become. List filters are held as arrays and sent as
    comma-joined text; payment method and tags are shown in the interface but never sent. */
module App {
  import opened Optional
  import opened JsStrings
  import opened Api
  import opened FilterDropdowns
  import SalesService

  /** The edited parameters. Age bounds are the text of the two number inputs. */
  datatype Params = Params(
    search: string,
    page: int,
    limit: int,
    sortBy: string,
    order: string,
    region: seq<string>,
    gender: seq<string>,
    category: seq<string>,
    paymentMethod: seq<string>,
    tags: seq<string>,
    minAge: string,
    maxAge: string)

  /** The list filters a multi-select dropdown edits. */
  datatype FilterKey = Region | Gender | Category | PaymentMethodKey | Tags

  function Selected(p: Params, key: FilterKey): seq<string> {
    match key
    case Region => p.region
    case Gender => p.gender
    case Category => p.category
    case PaymentMethodKey => p.paymentMethod
    case Tags => p.tags
  }

  /** The options each dropdown offers. */
  function OptionsOf(key: FilterKey): seq<string> {
    match key
    case Region => ["North", "South", "East", "West"]
    case Gender => ["Male", "Female"]
    case Category => ["Electronics", "Clothing", "Beauty"]
    case PaymentMethodKey => ["Credit Card", "Debit Card", "PayPal", "Net Banking", "Cash"]
    case Tags => ["Sale", "New", "Premium", "Discounted", "Bulk"]
  }

  /** An option survives the comma-joined transport: it is not empty and holds no comma. */
  predicate Transportable(option: string) {
    option != "" && ',' !in option
  }

  lemma OptionsTransportable(key: FilterKey, option: string)
    requires option in OptionsOf(key)
    ensures Transportable(option)
  {
  }

  /** The state the page starts in. */
  const InitialParams: Params := Params(
    "", 1, 10, "sale.date", "desc", [], [], [], [], [], "", "")

  // ---------------------------------------------------------------------------
  // Handlers
  // ---------------------------------------------------------------------------

  /** Nothing but the list filters and the page differ. */
  predicate SameScalars(p: Params, q: Params) {
    q.search == p.search && q.limit == p.limit && q.sortBy == p.sortBy && q.order == p.order
    && q.minAge == p.minAge && q.maxAge == p.maxAge
  }

  /** Every list filter agrees. */
  predicate SameSelections(p: Params, q: Params) {
    q.region == p.region && q.gender == p.gender && q.category == p.category
    && q.paymentMethod == p.paymentMethod && q.tags == p.tags
  }

  /** A dropdown reports a new selection: that filter takes it and the page returns to 1. */
  function HandleFilterChange(p: Params, key: FilterKey, values: seq<string>): (q: Params)
    ensures Selected(q, key) == values
    ensures forall k :: k != key ==> Selected(q, k) == Selected(p, k)
    ensures q.page == 1
    ensures SameScalars(p, q)
  {
    match key
    case Region => p.(region := values, page := 1)
    case Gender => p.(gender := values, page := 1)
    case Category => p.(category := values, page := 1)
    case PaymentMethodKey => p.(paymentMethod := values, page := 1)
    case Tags => p.(tags := values, page := 1)
  }

  /** The age dropdown applies its bounds: both are replaced and the page returns to 1. */
  function HandleAgeChange(p: Params, min: string, max: string): (q: Params)
    ensures q.minAge == min && q.maxAge == max && q.page == 1
    ensures q.search == p.search && q.limit == p.limit && q.sortBy == p.sortBy && q.order == p.order
    ensures SameSelections(p, q)
  {
    p.(minAge := min, maxAge := max, page := 1)
  }

  /** Typing in the search box: the text replaces the search and the page returns to 1. */
  function HandleSearch(p: Params, text: string): (q: Params)
    ensures q.search == text && q.page == 1
    ensures q.limit == p.limit && q.sortBy == p.sortBy && q.order == p.order
    ensures q.minAge == p.minAge && q.maxAge == p.maxAge
    ensures SameSelections(p, q)
  {
    p.(search := text, page := 1)
  }

  /** The sorts the menu offers, as field and direction. */
  predicate OfferedSort(sortBy: string, order: string) {
    (sortBy, order) in {("sale.date", "desc"), ("sale.quantity", "desc"), ("customer.name", "asc")}
  }

  /** Choosing in the sort menu: one of the three known entries sets field and direction
      together; any other value leaves the state as it was. The page is kept. */
  function HandleSortChange(p: Params, value: string): (q: Params)
    ensures value == "date-newest" ==> q.sortBy == "sale.date" && q.order == "desc"
    ensures value == "quantity-desc" ==> q.sortBy == "sale.quantity" && q.order == "desc"
    ensures value == "name-asc" ==> q.sortBy == "customer.name" && q.order == "asc"
    ensures value !in {"date-newest", "quantity-desc", "name-asc"} ==> q == p
    ensures OfferedSort(p.sortBy, p.order) ==> OfferedSort(q.sortBy, q.order)
    ensures q.page == p.page && q.search == p.search && q.limit == p.limit
    ensures q.minAge == p.minAge && q.maxAge == p.maxAge && SameSelections(p, q)
  {
    if value == "date-newest" then p.(sortBy := "sale.date", order := "desc")
    else if value == "quantity-desc" then p.(sortBy := "sale.quantity", order := "desc")
    else if value == "name-asc" then p.(sortBy := "customer.name", order := "asc")
    else p
  }

  /** The reset button puts back every parameter the page started with. */
  function HandleReset(p: Params): (q: Params)
    ensures q == InitialParams
  {
    Params("", 1, 10, "sale.date", "desc", [], [], [], [], [], "", "")
  }

  /** The previous-page button is disabled on page 1. */
  predicate PrevEnabled(p: Params) {
    p.page != 1
  }

  /** A click on the previous-page button: one page back, or nothing when it is disabled. */
  function PrevPage(p: Params): (q: Params)
    ensures PrevEnabled(p) ==> q.page == p.page - 1
    ensures !PrevEnabled(p) ==> q == p
    ensures p.page >= 1 ==> q.page >= 1
    ensures SameScalars(p, q) && SameSelections(p, q)
  {
    if PrevEnabled(p) then p.(page := p.page - 1) else p
  }

  /** A click on the next-page button, which is never disabled. */
  function NextPage(p: Params): (q: Params)
    ensures q.page == p.page + 1
    ensures SameScalars(p, q) && SameSelections(p, q)
  {
    p.(page := p.page + 1)
  }

  // ---------------------------------------------------------------------------
  // The request
  // ---------------------------------------------------------------------------

  /** The query parameters the page hands to the request. */
  datatype QueryKey =
    | SearchParam | PageParam | LimitParam | SortByParam | OrderParam
    | RegionParam | GenderParam | CategoryParam | PaymentMethodParam | TagsParam
    | MinAgeParam | MaxAgeParam

  /** The name each parameter carries in the query string. */
  function WireName(k: QueryKey): string {
    match k
    case SearchParam => "search"
    case PageParam => "page"
    case LimitParam => "limit"
    case SortByParam => "sortBy"
    case OrderParam => "order"
    case RegionParam => "region"
    case GenderParam => "gender"
    case CategoryParam => "category"
    case PaymentMethodParam => "paymentMethod"
    case TagsParam => "tags"
    case MinAgeParam => "minAge"
    case MaxAgeParam => "maxAge"
  }

  /** The value handed over for each parameter: list filters joined with commas, payment
      method and tags blanked. */
  function ApiValue(p: Params, k: QueryKey): JsValue {
    match k
    case SearchParam => Str(p.search)
    case PageParam => Num(p.page)
    case LimitParam => Num(p.limit)
    case SortByParam => Str(p.sortBy)
    case OrderParam => Str(p.order)
    case RegionParam => Str(Join(p.region, ','))
    case GenderParam => Str(Join(p.gender, ','))
    case CategoryParam => Str(Join(p.category, ','))
    case PaymentMethodParam => Str("")
    case TagsParam => Str("")
    case MinAgeParam => Str(p.minAge)
    case MaxAgeParam => Str(p.maxAge)
  }

  /** Every parameter, each with its value. */
  function ApiParams(p: Params): (params: QueryParams<QueryKey>)
    ensures forall k :: k in params && params[k] == ApiValue(p, k)
  {
    map k: QueryKey | true :: ApiValue(p, k)
  }

  /** The query actually sent when the parameters change: exactly the parameters whose
      value is sendable, each unchanged. Payment method and tags are never among them. */
  function Request(p: Params): (sent: QueryParams<QueryKey>)
    ensures PaymentMethodParam !in sent && TagsParam !in sent
    ensures forall k :: k in sent <==> Sendable(ApiValue(p, k))
    ensures forall k :: k in sent ==> sent[k] == ApiValue(p, k)
  {
    CleanParams(ApiParams(p))
  }

  /** The page and the page size are always sent; search and each age bound are sent
      exactly when they are not empty. */
  lemma ScalarsInRequest(p: Params)
    ensures PageParam in Request(p) && Request(p)[PageParam] == Num(p.page)
    ensures LimitParam in Request(p) && Request(p)[LimitParam] == Num(p.limit)
    ensures SearchParam in Request(p) <==> p.search != ""
    ensures MinAgeParam in Request(p) <==> p.minAge != ""
    ensures MaxAgeParam in Request(p) <==> p.maxAge != ""
  {
    assert Sendable(ApiValue(p, PageParam)) && Sendable(ApiValue(p, LimitParam));
  }

  /** Payment method and tags never reach the server: two states that differ only there
      send the same query. */
  lemma RequestIgnoresPaymentAndTags(p: Params, q: Params)
    requires SameScalars(p, q) && q.page == p.page
    requires q.region == p.region && q.gender == p.gender && q.category == p.category
    ensures Request(q) == Request(p)
  {
    assert ApiParams(q) == ApiParams(p);
  }

  /** The text the server reads for a query parameter: an absent one reads as empty. */
  function Received(sent: QueryParams<QueryKey>, k: QueryKey): (text: string)
    ensures k in sent && sent[k].Str? ==> text == sent[k].s
    ensures k !in sent ==> text == ""
  {
    if k in sent && sent[k].Str? then sent[k].s else ""
  }

  /** The query parameter of each list filter. */
  function ParamOf(key: FilterKey): QueryKey {
    match key
    case Region => RegionParam
    case Gender => GenderParam
    case Category => CategoryParam
    case PaymentMethodKey => PaymentMethodParam
    case Tags => TagsParam
  }

  /** The list filters whose selection is sent. */
  predicate Sent(key: FilterKey) {
    key in {Region, Gender, Category}
  }

  /** A sent list filter arrives as its selection joined with commas, and is left out of
      the query when nothing is selected. */
  lemma SelectionInRequest(p: Params, key: FilterKey)
    requires Sent(key)
    requires forall x :: x in Selected(p, key) ==> Transportable(x)
    ensures ParamOf(key) in Request(p) <==> Selected(p, key) != []
    ensures Received(Request(p), ParamOf(key)) == Join(Selected(p, key), ',')
  {
    var xs := Selected(p, key);
    assert ApiValue(p, ParamOf(key)) == Str(Join(xs, ','));
    forall i | 0 <= i < |xs| ensures xs[i] != "" {
      assert Transportable(xs[i]);
    }
    JoinEmpty(xs, ',');
  }

  /** The server splits what it receives back into exactly the selected options, so a
      record passes that filter exactly when the selection is empty or holds its value. */
  lemma SelectionReachesServer(p: Params, key: FilterKey, field: string)
    requires Sent(key)
    requires forall x :: x in Selected(p, key) ==> Transportable(x)
    ensures SalesService.ListAdmits(Received(Request(p), ParamOf(key)), field)
      <==> Selected(p, key) == [] || field in Selected(p, key)
  {
    var xs := Selected(p, key);
    SelectionInRequest(p, key);
    if xs != [] {
      forall i | 0 <= i < |xs| ensures ',' !in xs[i] {
        assert Transportable(xs[i]);
      }
      SplitOfJoin(xs, ',');
    }
  }

  // ---------------------------------------------------------------------------
  // The page as a sequence of user events
  // ---------------------------------------------------------------------------

  /** The page state: the parameters and the age dropdown's unapplied draft. The draft is
      set from the parameters once, when the dropdown is first created. */
  datatype Page = Page(params: Params, ageDraft: RangeDraft)

  const InitialPage: Page := Page(InitialParams, InitialDraft(InitialParams.minAge, InitialParams.maxAge))

  datatype Event =
    | Filter(key: FilterKey, choice: MultiEvent)
    | Age(edit: RangeEvent)
    | Search(text: string)
    | Sort(value: string)
    | Reset
    | Prev
    | Next

  /** An event the interface offers: a checkbox exists only for the dropdown's own options. */
  predicate Offered(ev: Event) {
    ev.Filter? && ev.choice.Toggle? ==> ev.choice.option in OptionsOf(ev.key)
  }

  /** The page after one event. A dropdown that reports nothing leaves the parameters as
      they were. */
  function Step(s: Page, ev: Event): Page {
    match ev
    case Filter(key, mev) =>
      (match MultiSelect(Selected(s.params, key), mev)
       case Some(values) => s.(params := HandleFilterChange(s.params, key, values))
       case None => s)
    case Age(rev) =>
      var out := RangeStep(s.params.minAge, s.params.maxAge, s.ageDraft, rev);
      (match out.reported
       case Some(bounds) => Page(HandleAgeChange(s.params, bounds.0, bounds.1), out.draft)
       case None => s.(ageDraft := out.draft))
    case Search(text) => s.(params := HandleSearch(s.params, text))
    case Sort(value) => s.(params := HandleSortChange(s.params, value))
    case Reset => s.(params := HandleReset(s.params))
    case Prev => s.(params := PrevPage(s.params))
    case Next => s.(params := NextPage(s.params))
  }

  function Run(s: Page, evs: seq<Event>): Page
    decreases |evs|
  {
    if |evs| == 0 then s else Run(Step(s, evs[0]), evs[1..])
  }

  /** Each list filter holds distinct options from its own dropdown. */
  predicate SelectionsValid(p: Params) {
    forall key: FilterKey :: Distinct(Selected(p, key))
      && (forall x :: x in Selected(p, key) ==> x in OptionsOf(key))
  }

  /** What holds of every state the page can reach. */
  predicate Valid(p: Params) {
    p.page >= 1 && p.limit == 10 && OfferedSort(p.sortBy, p.order) && SelectionsValid(p)
  }

  lemma FilterStepValid(p: Params, key: FilterKey, mev: MultiEvent)
    requires Valid(p)
    requires mev.Toggle? ==> mev.option in OptionsOf(key)
    ensures Valid(match MultiSelect(Selected(p, key), mev)
                  case Some(values) => HandleFilterChange(p, key, values)
                  case None => p)
  {
    var reported := MultiSelect(Selected(p, key), mev);
    if reported.Some? {
      var q := HandleFilterChange(p, key, reported.value);
      if mev.Toggle? {
        ToggleDistinct(Selected(p, key), mev.option);
        ToggleWithinOptions(OptionsOf(key), Selected(p, key), mev.option);
      }
      forall k: FilterKey ensures Distinct(Selected(q, k)) && (forall x :: x in Selected(q, k) ==> x in OptionsOf(k)) {
        if k != key {
          assert Selected(q, k) == Selected(p, k);
        }
      }
    }
  }

  /** Every offered event keeps the state valid. */
  lemma StepValid(s: Page, ev: Event)
    requires Valid(s.params) && Offered(ev)
    ensures Valid(Step(s, ev).params)
  {
    match ev {
      case Filter(key, mev) =>
        FilterStepValid(s.params, key, mev);
      case Age(rev) =>
        var q := Step(s, ev).params;
        assert SameSelections(s.params, q);
        assert Selected(q, Region) == Selected(s.params, Region);
        forall k: FilterKey ensures Selected(q, k) == Selected(s.params, k) {
        }
      case Search(text) =>
        var q := Step(s, ev).params;
        forall k: FilterKey ensures Selected(q, k) == Selected(s.params, k) {
        }
      case Sort(value) =>
        var q := Step(s, ev).params;
        forall k: FilterKey ensures Selected(q, k) == Selected(s.params, k) {
        }
      case Reset =>
      case Prev =>
        var q := Step(s, ev).params;
        forall k: FilterKey ensures Selected(q, k) == Selected(s.params, k) {
        }
      case Next =>
        var q := Step(s, ev).params;
        forall k: FilterKey ensures Selected(q, k) == Selected(s.params, k) {
        }
    }
  }

  /** From the start, any sequence of offered events keeps the page at 1 or beyond, ten
      rows per page, one of the three offered sorts, and list filters made of distinct
      offered options. */
  lemma {:induction false} RunValid(s: Page, evs: seq<Event>)
    requires Valid(s.params)
    requires forall i :: 0 <= i < |evs| ==> Offered(evs[i])
    ensures Valid(Run(s, evs).params)
    decreases |evs|
  {
    if |evs| > 0 {
      StepValid(s, evs[0]);
      RunValid(Step(s, evs[0]), evs[1..]);
    }
  }

  lemma InitialValid()
    ensures Valid(InitialPage.params)
  {
    forall key: FilterKey ensures Selected(InitialParams, key) == [] {
    }
  }

  /** In any reachable state, a sent list filter reaches the server as exactly the options
      the user selected. */
  lemma ReachableSelectionsReachServer(evs: seq<Event>, key: FilterKey, field: string)
    requires forall i :: 0 <= i < |evs| ==> Offered(evs[i])
    requires Sent(key)
    ensures
      var p := Run(InitialPage, evs).params;
      var admitted := SalesService.ListAdmits(Received(Request(p), ParamOf(key)), field);
      admitted <==> Selected(p, key) == [] || field in Selected(p, key)
  {
    InitialValid();
    RunValid(InitialPage, evs);
    var p := Run(InitialPage, evs).params;
    forall x | x in Selected(p, key) ensures Transportable(x) {
      OptionsTransportable(key, x);
    }
    SelectionReachesServer(p, key, field);
  }

  /** Reset does not touch the age dropdown's draft: bounds typed before a reset are applied
      again by the next Apply, although the reset cleared them. */
  lemma ResetKeepsAgeDraft(s: Page)
    ensures Step(s, Reset).params.minAge == ""
    ensures Step(Step(s, Reset), Age(Apply)).params.minAge == s.ageDraft.localMin
    ensures Step(Step(s, Reset), Age(Apply)).params.maxAge == s.ageDraft.localMax
  {
  }

  /** Clearing the age range takes both bounds out of the query. */
  lemma ClearedAgeNotSent(s: Page)
    requires IsActive(s.params.minAge, s.params.maxAge)
    ensures MinAgeParam !in Request(Step(s, Age(ClearRange)).params)
    ensures MaxAgeParam !in Request(Step(s, Age(ClearRange)).params)
  {
    ScalarsInRequest(Step(s, Age(ClearRange)).params);
  }
}
