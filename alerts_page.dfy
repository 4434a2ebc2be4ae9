/**
 * The alerts page: the list it shows (the API's alerts, or five samples
 * while there are none), the search/type/status filter over that list, the
 * stat counters, and the message shown when the filtered list is empty.
 */
module AlertsPage {
  import opened Wrappers
  import opened Seqs
  import opened Text

  /** The fields of an alert the page reads; `createdAt` feeds only the "today" counter. */
  datatype AlertItem = AlertItem(
    id: string,
    kind: string,
    title: string,
    message: string,
    areaName: Option<string>,
    isResolved: bool)

  /** Shown while the API has returned no data. */
  const SampleAlerts: seq<AlertItem> := [
    AlertItem("1", "critical", "Equipment Malfunction",
      "Assembly Line B conveyor belt has stopped. Immediate attention required.", Some("Assembly Line B"), false),
    AlertItem("2", "warning", "Shift Change Reminder",
      "Night shift starts in 15 minutes. Ensure proper handover.", Some("All Areas"), false),
    AlertItem("3", "info", "New Production Order",
      "Order #PO-2024-0156 has been assigned to Assembly Line A.", Some("Assembly Line A"), false),
    AlertItem("4", "warning", "Quality Control Understaffed",
      "Quality Control area is currently understaffed. Need 2 additional employees.", Some("Quality Control"), false),
    AlertItem("5", "critical", "Safety Incident",
      "Minor safety incident reported in Packaging area. Investigation required.", Some("Packaging"), true)
  ]

  /** `alerts || sampleAlerts`: `None` is the absent response; any array, even an empty one, is shown as is. */
  function DisplayAlerts(alerts: Option<seq<AlertItem>>): (r: seq<AlertItem>)
    ensures alerts.Some? ==> r == alerts.value
    ensures alerts.None? ==> r == SampleAlerts
    ensures alerts.None? ==> |r| == 5 && Count(r, Unresolved) == 4 && Count(r, OpenCritical) == 1
  {
    match alerts
    case Some(list) => list
    case None =>
      SampleCounts();
      SampleAlerts
  }

  /** Four of the samples are unresolved, one of them critical. */
  lemma SampleCounts()
    ensures Count(SampleAlerts, Unresolved) == 4 && Count(SampleAlerts, OpenCritical) == 1
  {
    var s := SampleAlerts;
    assert Unresolved(s[0]) && Unresolved(s[1]) && Unresolved(s[2]) && Unresolved(s[3]) && !Unresolved(s[4]);
    assert OpenCritical(s[0]) && !OpenCritical(s[1]) && !OpenCritical(s[2]) && !OpenCritical(s[3]) && !OpenCritical(s[4]);
    for k := 0 to 5
      invariant Count(s[..k], Unresolved) == (if k < 4 then k else 4)
      invariant Count(s[..k], OpenCritical) == (if k == 0 then 0 else 1)
    {
      assert s[..k + 1] == s[..k] + [s[k]];
      CountAppend(s[..k], s[k], Unresolved);
      CountAppend(s[..k], s[k], OpenCritical);
    }
    assert s[..5] == s;
  }

  // ------------------------------------------------------------------ filter

  /** The title or the message contains the search term, ignoring case. */
  predicate MatchesSearch(a: AlertItem, term: string) {
    Includes(Lower(a.title), Lower(term)) || Includes(Lower(a.message), Lower(term))
  }

  predicate MatchesType(a: AlertItem, filterType: string) {
    filterType == "all" || a.kind == filterType
  }

  predicate MatchesStatus(a: AlertItem, filterStatus: string) {
    || filterStatus == "all"
    || (filterStatus == "resolved" && a.isResolved)
    || (filterStatus == "unresolved" && !a.isResolved)
  }

  predicate Matches(a: AlertItem, term: string, filterType: string, filterStatus: string) {
    MatchesSearch(a, term) && MatchesType(a, filterType) && MatchesStatus(a, filterStatus)
  }

  /** `filteredAlerts`: the shown alerts that pass all three filters, in their order. */
  function FilteredAlerts(shown: seq<AlertItem>, term: string, filterType: string, filterStatus: string): (r: seq<AlertItem>)
    ensures Sublist(r, shown)
    ensures forall a :: a in r <==> a in shown && Matches(a, term, filterType, filterStatus)
    ensures forall a :: multiset(r)[a] == if Matches(a, term, filterType, filterStatus) then multiset(shown)[a] else 0
  {
    FilterIsSublist(shown, a => Matches(a, term, filterType, filterStatus));
    FilterMultiset(shown, a => Matches(a, term, filterType, filterStatus));
    Filter(shown, a => Matches(a, term, filterType, filterStatus))
  }

  /** An empty search term matches every alert, whatever its case. */
  lemma EmptySearchMatches(a: AlertItem)
    ensures MatchesSearch(a, "")
  {
    assert Lower("") == "";
    IncludesEmpty(Lower(a.title));
  }

  /** With no search term and both filters at "all", every shown alert is listed. */
  lemma NoFilterKeepsAll(shown: seq<AlertItem>)
    ensures FilteredAlerts(shown, "", "all", "all") == shown
  {
    forall i | 0 <= i < |shown| ensures Matches(shown[i], "", "all", "all") {
      EmptySearchMatches(shown[i]);
    }
    FilterKeepsAll(shown, a => Matches(a, "", "all", "all"));
  }

  /** A status filter other than "all", "resolved" and "unresolved" lists nothing. */
  lemma UnknownStatusKeepsNone(shown: seq<AlertItem>, term: string, filterType: string, filterStatus: string)
    requires filterStatus != "all" && filterStatus != "resolved" && filterStatus != "unresolved"
    ensures FilteredAlerts(shown, term, filterType, filterStatus) == []
  {
    FilterKeepsNone(shown, a => Matches(a, term, filterType, filterStatus));
  }

  /** The type and status filters, with no search term, keep exactly the alerts they name. */
  lemma TypeAndStatusExact(shown: seq<AlertItem>, filterType: string, a: AlertItem)
    requires filterType != "all"
    ensures a in FilteredAlerts(shown, "", filterType, "resolved") <==> a in shown && a.kind == filterType && a.isResolved
    ensures a in FilteredAlerts(shown, "", filterType, "unresolved") <==> a in shown && a.kind == filterType && !a.isResolved
  {
    EmptySearchMatches(a);
  }

  /** Searching is insensitive to the case of the term. */
  lemma SearchIgnoresCase(a: AlertItem, term: string)
    ensures MatchesSearch(a, term) == MatchesSearch(a, Lower(term))
  {
    LowerIdempotent(term);
  }

  // ---------------------------------------------------------------- counters

  predicate Unresolved(a: AlertItem) {
    !a.isResolved
  }

  predicate OpenCritical(a: AlertItem) {
    a.kind == "critical" && !a.isResolved
  }

  /** The "Total Alerts", "Critical" and "Unresolved" cards and the top bar's notification badge. */
  datatype AlertCounters = AlertCounters(total: nat, critical: nat, unresolved: nat, notifications: nat)

  function Counters(shown: seq<AlertItem>): (r: AlertCounters)
    ensures r.total == |shown|
    ensures r.unresolved == Count(shown, Unresolved) && r.critical == Count(shown, OpenCritical)
    ensures r.critical <= r.unresolved <= r.total
    ensures r.notifications == r.unresolved
    ensures r.unresolved == 0 <==> forall i :: 0 <= i < |shown| ==> shown[i].isResolved
    ensures r.critical == 0 <==> forall i :: 0 <= i < |shown| ==> !OpenCritical(shown[i])
  {
    CountMonotone(shown, OpenCritical, Unresolved);
    CountZero(shown, Unresolved);
    CountZero(shown, OpenCritical);
    AlertCounters(|shown|, Count(shown, OpenCritical), Count(shown, Unresolved), Count(shown, Unresolved))
  }

  /**
   * One more shown alert adds one to the total, one to the unresolved count
   * and the badge exactly when it is open, and one to the critical count
   * exactly when it is an open critical alert.
   */
  lemma CountersAfterOneMore(shown: seq<AlertItem>, a: AlertItem)
    ensures var before, after := Counters(shown), Counters(shown + [a]);
      && after.total == before.total + 1
      && after.unresolved == before.unresolved + (if a.isResolved then 0 else 1)
      && after.notifications == after.unresolved
      && after.critical == before.critical + (if OpenCritical(a) then 1 else 0)
  {
    CountAppend(shown, a, Unresolved);
    CountAppend(shown, a, OpenCritical);
  }

  // ------------------------------------------------------------- empty state

  const FilteredOutMessage := "No alerts match your filters"
  const NothingMessage := "No alerts found"

  /** The text shown when no alert passes the filters. */
  function EmptyMessage(term: string, filterType: string, filterStatus: string): (r: string)
    ensures r == FilteredOutMessage <==> term != "" || filterType != "all" || filterStatus != "all"
    ensures r == FilteredOutMessage || r == NothingMessage
  {
    if term != "" || filterType != "all" || filterStatus != "all" then FilteredOutMessage else NothingMessage
  }

  /** "No alerts found" is shown only when there really is nothing to show. */
  lemma NothingMeansEmpty(shown: seq<AlertItem>, term: string, filterType: string, filterStatus: string)
    requires FilteredAlerts(shown, term, filterType, filterStatus) == []
    requires EmptyMessage(term, filterType, filterStatus) == NothingMessage
    ensures shown == []
  {
    NoFilterKeepsAll(shown);
  }
}
