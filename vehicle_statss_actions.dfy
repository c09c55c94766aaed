/**
 * The listing arguments and the plain action creators of the vehicle-stats
 * management front end.
 */
module VehicleStatssActions {
  import opened Wrappers
  import JsText
  import opened GraphQLInputs

  /** The listing filters; `active` is `None` when it is `null` (both states shown). */
  datatype Filters = Filters(name: string, organizationId: string, active: Option<bool>)

  /** The table order: a column id (`None` when unset) and a direction. */
  datatype Order = Order(id: Option<string>, direction: string)

  /** The argument of `getListingQueryArguments`. */
  datatype QueryParams = QueryParams(filters: Filters, order: Order, page: int, rowsPerPage: int)

  datatype FilterInput = FilterInput(organizationId: string, name: Option<string>, active: Option<bool>)
  datatype PaginationInput = PaginationInput(page: int, count: int, queryTotalResultCount: bool)

  /** The arguments of the listing query. */
  datatype ListingArgs = ListingArgs(filterInput: FilterInput, paginationInput: PaginationInput, sortInput: Option<SortInput>)

  /** JS truthiness of the order's column id: set and not empty. */
  predicate HasSortColumn(order: Order) {
    JsText.TruthyString(order.id)
  }

  /**
   * `getListingQueryArguments`: the organization always; the untrimmed name only
   * when it is not blank; `active` unless it is null; page and count as given,
   * the total asked for on page 0 only; a sort only when a column is set.
   */
  function GetListingQueryArguments(p: QueryParams): (r: ListingArgs)
    ensures r.filterInput.organizationId == p.filters.organizationId
    ensures r.filterInput.name.Some? <==> !JsText.AllSpace(p.filters.name)
    ensures r.filterInput.name.Some? ==> r.filterInput.name.value == p.filters.name
    ensures r.filterInput.active == p.filters.active
    ensures r.paginationInput.page == p.page && r.paginationInput.count == p.rowsPerPage
    ensures r.paginationInput.queryTotalResultCount <==> p.page == 0
    ensures r.sortInput.None? <==> !HasSortColumn(p.order)
    ensures r.sortInput.Some? ==>
      Some(r.sortInput.value.field) == p.order.id && (r.sortInput.value.asc <==> p.order.direction == "asc")
  {
    JsText.TrimNonEmptyIff(p.filters.name);
    var args := ListingArgs(
      FilterInput(p.filters.organizationId, None, None),
      PaginationInput(p.page, p.rowsPerPage, p.page == 0),
      if HasSortColumn(p.order) then Some(SortInput(p.order.id.value, p.order.direction == "asc")) else None);
    var args := if |JsText.Trim(p.filters.name)| > 0 then args.(filterInput := args.filterInput.(name := Some(p.filters.name))) else args;
    if p.filters.active.Some? then args.(filterInput := args.filterInput.(active := p.filters.active)) else args
  }

  // ----- Action creators -----

  const SetPageType := "[VEHICLE_STATS_MNG] SET VEHICLE_STATSS PAGE"
  const SetRowsPerPageType := "[VEHICLE_STATS_MNG] SET VEHICLE_STATSS ROWS PER PAGE"
  const SetOrderType := "[VEHICLE_STATS_MNG] SET VEHICLE_STATSS ORDER"
  const SetFilterOrganizationIdType := "[VEHICLE_STATS_MNG] SET VEHICLE_STATSS FILTERS ORGANIZATION_ID"
  const SetFilterNameType := "[VEHICLE_STATS_MNG] SET VEHICLE_STATSS FILTERS NAME"
  const SetFilterActiveType := "[VEHICLE_STATS_MNG] SET VEHICLE_STATSS FILTERS ACTIVE"

  /** The value an action carries. */
  datatype Payload = IntValue(n: int) | OrderValue(order: Order) | StringValue(s: string) | ActiveValue(active: Option<bool>)

  /** A Redux action `{ type, <key>: value }`. */
  datatype Action = Action(actionType: string, key: string, payload: Payload)

  function SetVehicleStatssPage(page: int): (a: Action)
    ensures a.actionType == SetPageType && a.key == "page" && a.payload == IntValue(page)
  {
    Action(SetPageType, "page", IntValue(page))
  }

  function SetVehicleStatssRowsPerPage(rowsPerPage: int): (a: Action)
    ensures a.actionType == SetRowsPerPageType && a.key == "rowsPerPage" && a.payload == IntValue(rowsPerPage)
  {
    Action(SetRowsPerPageType, "rowsPerPage", IntValue(rowsPerPage))
  }

  function SetVehicleStatssOrder(order: Order): (a: Action)
    ensures a.actionType == SetOrderType && a.key == "order" && a.payload == OrderValue(order)
  {
    Action(SetOrderType, "order", OrderValue(order))
  }

  function SetVehicleStatssFilterName(name: string): (a: Action)
    ensures a.actionType == SetFilterNameType && a.key == "name" && a.payload == StringValue(name)
  {
    Action(SetFilterNameType, "name", StringValue(name))
  }

  function SetVehicleStatssFilterActive(active: Option<bool>): (a: Action)
    ensures a.actionType == SetFilterActiveType && a.key == "active" && a.payload == ActiveValue(active)
  {
    Action(SetFilterActiveType, "active", ActiveValue(active))
  }

  function SetVehicleStatssFilterOrganizationId(organizationId: string): (a: Action)
    ensures a.actionType == SetFilterOrganizationIdType && a.key == "organizationId" && a.payload == StringValue(organizationId)
  {
    Action(SetFilterOrganizationIdType, "organizationId", StringValue(organizationId))
  }

  /** The six action types are pairwise different, so a reducer can tell the actions apart by type alone. */
  lemma ActionTypesDistinct()
    ensures var types := [SetPageType, SetRowsPerPageType, SetOrderType,
                          SetFilterOrganizationIdType, SetFilterNameType, SetFilterActiveType];
      forall i, j :: 0 <= i < j < |types| ==> types[i] != types[j]
  {
    var types := [SetPageType, SetRowsPerPageType, SetOrderType,
                  SetFilterOrganizationIdType, SetFilterNameType, SetFilterActiveType];
    // The types differ at index 39 (after the common prefix) or, among the filters, at index 47.
    assert types[0][39] == 'P' && types[1][39] == 'R' && types[2][39] == 'O';
    assert types[3][39] == 'F' && types[4][39] == 'F' && types[5][39] == 'F';
    assert types[3][47] == 'O' && types[4][47] == 'N' && types[5][47] == 'A';
  }
}
