/**
 * The production-orders page: the search over the API's orders, the list it
 * shows (the hits, or three sample orders when there are none), the stat
 * cards, and the badge colours and labels.
 */
module OrdersPage {
  import opened Wrappers
  import opened Seqs
  import opened Text

  /** The fields of an order the page reads; the date fields feed only the "today" card. */
  datatype OrderItem = OrderItem(
    id: string,
    orderNumber: string,
    productName: string,
    quantity: int,
    priority: string,
    status: string)

  /** Shown whenever the search has no hits. */
  const SampleOrders: seq<OrderItem> := [
    OrderItem("1", "PO-2024-0156", "Widget A", 500, "high", "in_progress"),
    OrderItem("2", "PO-2024-0157", "Component B", 250, "critical", "pending"),
    OrderItem("3", "PO-2024-0158", "Assembly C", 100, "medium", "completed")
  ]

  /** The lowercased order number or product name contains the lowercased term. */
  predicate OrderMatches(o: OrderItem, term: string) {
    Includes(Lower(o.orderNumber), Lower(term)) || Includes(Lower(o.productName), Lower(term))
  }

  /** `filteredOrders`: nothing while the orders are absent, otherwise the hits in their order. */
  function FilteredOrders(orders: Option<seq<OrderItem>>, term: string): (r: seq<OrderItem>)
    ensures orders.None? ==> r == []
    ensures orders.Some? ==> Sublist(r, orders.value)
    ensures orders.Some? ==> forall o :: o in r <==> o in orders.value && OrderMatches(o, term)
    ensures orders.Some? ==> forall o :: multiset(r)[o] == if OrderMatches(o, term) then multiset(orders.value)[o] else 0
  {
    match orders
    case None => []
    case Some(list) =>
      FilterIsSublist(list, o => OrderMatches(o, term));
      FilterMultiset(list, o => OrderMatches(o, term));
      Filter(list, o => OrderMatches(o, term))
  }

  /** An empty search lists every order. */
  lemma EmptySearchKeepsAll(list: seq<OrderItem>)
    ensures FilteredOrders(Some(list), "") == list
  {
    assert Lower("") == "";
    forall i | 0 <= i < |list| ensures OrderMatches(list[i], "") {
      IncludesEmpty(Lower(list[i].orderNumber));
    }
    FilterKeepsAll(list, o => OrderMatches(o, ""));
  }

  /** `displayOrders`: the hits when there are any, otherwise the samples; never empty. */
  function DisplayOrders(filtered: seq<OrderItem>): (r: seq<OrderItem>)
    ensures |r| > 0
    ensures |filtered| > 0 ==> r == filtered
    ensures |filtered| == 0 ==> r == SampleOrders
  {
    if |filtered| > 0 then filtered else SampleOrders
  }

  /** A search without hits, or no orders at all, shows the samples. */
  lemma NoHitsShowSamples(orders: Option<seq<OrderItem>>, term: string)
    requires orders.None? || forall i :: 0 <= i < |orders.value| ==> !OrderMatches(orders.value[i], term)
    ensures DisplayOrders(FilteredOrders(orders, term)) == SampleOrders
  {
    if orders.Some? {
      FilterKeepsNone(orders.value, o => OrderMatches(o, term));
    }
  }

  // ------------------------------------------------------------------- stats

  predicate InProgress(o: OrderItem) {
    o.status == "in_progress"
  }

  predicate Critical(o: OrderItem) {
    o.priority == "critical"
  }

  /** The "Total Orders", "In Progress" and "Critical" cards. */
  datatype OrderCards = OrderCards(total: nat, inProgress: nat, critical: nat)

  /**
   * The total counts the orders themselves, or the shown list when there are
   * none; the other two count over the shown list.
   */
  function Cards(orders: Option<seq<OrderItem>>, shown: seq<OrderItem>): (r: OrderCards)
    requires |shown| > 0
    ensures r.total >= 1
    ensures orders.Some? && |orders.value| > 0 ==> r.total == |orders.value|
    ensures orders.None? || |orders.value| == 0 ==> r.total == |shown|
    ensures r.inProgress == Count(shown, InProgress) && r.critical == Count(shown, Critical)
    ensures r.inProgress <= |shown| && r.critical <= |shown|
    ensures r.inProgress == 0 <==> forall i :: 0 <= i < |shown| ==> !InProgress(shown[i])
    ensures r.critical == 0 <==> forall i :: 0 <= i < |shown| ==> !Critical(shown[i])
  {
    CountZero(shown, InProgress);
    CountZero(shown, Critical);
    OrderCards(
      if orders.Some? && |orders.value| > 0 then |orders.value| else |shown|,
      Count(shown, InProgress),
      Count(shown, Critical))
  }

  /**
   * One more shown order raises the in-progress card by one exactly when it
   * is in progress and the critical card by one exactly when it is critical.
   */
  lemma CardsAfterOneMore(orders: Option<seq<OrderItem>>, shown: seq<OrderItem>, o: OrderItem)
    requires |shown| > 0
    ensures var before, after := Cards(orders, shown), Cards(orders, shown + [o]);
      && after.inProgress == before.inProgress + (if InProgress(o) then 1 else 0)
      && after.critical == before.critical + (if Critical(o) then 1 else 0)
  {
    CountAppend(shown, o, InProgress);
    CountAppend(shown, o, Critical);
  }

  /** The cards of the samples: three orders, one in progress, one critical. */
  lemma SampleCards()
    ensures Cards(None, SampleOrders) == OrderCards(3, 1, 1)
  {
    var s := SampleOrders;
    assert InProgress(s[0]) && !InProgress(s[1]) && !InProgress(s[2]);
    assert !Critical(s[0]) && Critical(s[1]) && !Critical(s[2]);
  }

  /**
   * With orders present but no hit, the total still counts the real orders
   * while the other cards count the samples.
   */
  lemma MissedSearchMixesCards(list: seq<OrderItem>, term: string)
    requires |list| > 0
    requires forall i :: 0 <= i < |list| ==> !OrderMatches(list[i], term)
    ensures var shown := DisplayOrders(FilteredOrders(Some(list), term));
      Cards(Some(list), shown) == OrderCards(|list|, 1, 1)
  {
    NoHitsShowSamples(Some(list), term);
    SampleCards();
  }

  // ---------------------------------------------------------- colours, label

  const Grey := "bg-gray-100 text-gray-700"

  /** `getPriorityColor`. */
  function PriorityColor(priority: string): (r: string)
    ensures r == Grey <==> priority !in {"critical", "high", "medium"}
    ensures priority == "critical" ==> r == "bg-error-100 text-error-700"
    ensures priority == "high" ==> r == "bg-warning-100 text-warning-700"
    ensures priority == "medium" ==> r == "bg-primary-100 text-primary-700"
  {
    match priority
    case "critical" => "bg-error-100 text-error-700"
    case "high" => "bg-warning-100 text-warning-700"
    case "medium" => "bg-primary-100 text-primary-700"
    case "low" => Grey
    case _ => Grey
  }

  /** `getStatusColor`. */
  function StatusColor(status: string): (r: string)
    ensures r == Grey <==> status !in {"completed", "in_progress", "pending", "cancelled"}
    ensures status == "completed" ==> r == "bg-success-100 text-success-700"
    ensures status == "in_progress" ==> r == "bg-primary-100 text-primary-700"
    ensures status == "pending" ==> r == "bg-warning-100 text-warning-700"
    ensures status == "cancelled" ==> r == "bg-error-100 text-error-700"
  {
    match status
    case "completed" => "bg-success-100 text-success-700"
    case "in_progress" => "bg-primary-100 text-primary-700"
    case "pending" => "bg-warning-100 text-warning-700"
    case "cancelled" => "bg-error-100 text-error-700"
    case _ => Grey
  }

  /** `status.replace('_', ' ')`: only the first underscore becomes a space. */
  function StatusLabel(status: string): (r: string)
    ensures |r| == |status|
    ensures '_' !in status ==> r == status
    ensures '_' in status ==> r == status[FirstIndex(status, '_') := ' ']
  {
    ReplaceFirst(status, '_', ' ')
  }

  /** A status reads as its words, with the first "_" turned into a space. */
  lemma StatusLabelWords(x: string, y: string)
    requires '_' !in x
    ensures StatusLabel(x + "_" + y) == x + " " + y
  {
    ReplaceFirstAt(x, '_', ' ', y);
  }
}
