/**
 * The employees page: the directory search over the employees the API
 * returned, the "Total Employees" and "Currently Active" cards with their
 * hard-coded fallbacks, and the working-time badge.
 */
module EmployeesPage {
  import opened Wrappers
  import opened Seqs
  import opened Text
  import opened Schema

  /**
   * What the employees query hands the page.  The API client returns the
   * parsed body unchecked, so besides no data yet and an array of employees
   * it can be a body that is not an array: the `{ error }` object of a failed
   * request, which has neither `length` nor `filter`.
   */
  datatype EmployeesData = Absent | NotAnArray | Listed(list: seq<Employee>)

  /** The lowercased "first last" contains the lowercased term. */
  predicate NameMatches(e: Employee, term: string) {
    Includes(Lower(e.firstName + " " + e.lastName), Lower(term))
  }

  /** The skills are an array and one of them contains the term, ignoring case. */
  predicate SkillMatches(e: Employee, term: string) {
    e.skills.Some? && exists i :: 0 <= i < |e.skills.value| && Includes(Lower(e.skills.value[i]), Lower(term))
  }

  predicate EmployeeMatches(e: Employee, term: string) {
    NameMatches(e, term) || SkillMatches(e, term)
  }

  /**
   * `filteredEmployees`: data that is not an array (absent or an error body)
   * lists nobody; an array lists its matching employees in their order.
   */
  function FilteredEmployees(employees: EmployeesData, term: string): (r: seq<Employee>)
    ensures !employees.Listed? ==> r == []
    ensures employees.Listed? ==> Sublist(r, employees.list)
    ensures employees.Listed? ==> forall e :: e in r <==> e in employees.list && EmployeeMatches(e, term)
    ensures employees.Listed? ==> forall e :: multiset(r)[e] == if EmployeeMatches(e, term) then multiset(employees.list)[e] else 0
  {
    match employees
    case Absent => []
    case NotAnArray => []
    case Listed(list) =>
      FilterIsSublist(list, e => EmployeeMatches(e, term));
      FilterMultiset(list, e => EmployeeMatches(e, term));
      Filter(list, e => EmployeeMatches(e, term))
  }

  /** An empty search lists every employee. */
  lemma EmptySearchKeepsAll(list: seq<Employee>)
    ensures FilteredEmployees(Listed(list), "") == list
  {
    assert Lower("") == "";
    forall i | 0 <= i < |list| ensures EmployeeMatches(list[i], "") {
      IncludesEmpty(Lower(list[i].firstName + " " + list[i].lastName));
    }
    FilterKeepsAll(list, e => EmployeeMatches(e, ""));
  }

  /** A skill that contains the term keeps its employee, whatever the name. */
  lemma SkillHitKeeps(list: seq<Employee>, term: string, k: nat, j: nat)
    requires k < |list| && list[k].skills.Some? && j < |list[k].skills.value|
    requires Includes(Lower(list[k].skills.value[j]), Lower(term))
    ensures list[k] in FilteredEmployees(Listed(list), term)
  {
  }

  /** An employee whose skills are not an array is found by name only. */
  lemma NoSkillsNameOnly(e: Employee, term: string)
    requires e.skills.None?
    ensures EmployeeMatches(e, term) <==> NameMatches(e, term)
  {
  }

  // ------------------------------------------------------------------- stats

  /** `employees?.length || 156`: an error body has no `length`, which is falsy. */
  function TotalCard(employees: EmployeesData): (r: nat)
    ensures r >= 1
    ensures employees.Listed? && |employees.list| > 0 ==> r == |employees.list|
    ensures !employees.Listed? || |employees.list| == 0 ==> r == 156
  {
    if employees.Listed? && |employees.list| > 0 then |employees.list| else 156
  }

  predicate IsActive(e: Employee) {
    e.isActive
  }

  /**
   * `employees?.filter(e => e.isActive).length || 142`.  On an error body
   * `filter` is undefined and calling it throws a `TypeError`, so the page
   * does not render: that case is `None`.
   */
  function ActiveCard(employees: EmployeesData): (r: Option<nat>)
    ensures r.None? <==> employees.NotAnArray?
    ensures r.Some? ==> r.value >= 1
    ensures employees.Listed? && Count(employees.list, IsActive) > 0 ==>
      r == Some(Count(employees.list, IsActive)) && r.value <= |employees.list|
    ensures employees.Absent? || (employees.Listed? && Count(employees.list, IsActive) == 0) ==> r == Some(142)
  {
    match employees
    case Absent => Some(142)
    case NotAnArray => None
    case Listed(list) => if Count(list, IsActive) > 0 then Some(Count(list, IsActive)) else Some(142)
  }

  /** With real data the active card never shows more than the total card. */
  lemma ActiveWithinTotal(list: seq<Employee>)
    requires Count(list, IsActive) > 0
    ensures ActiveCard(Listed(list)).value <= TotalCard(Listed(list))
  {
  }

  /**
   * The two fallbacks are chosen independently: a non-empty directory with
   * nobody active shows its own size as the total and 142 as active.
   */
  lemma FallbacksIndependent(e: Employee)
    requires !e.isActive
    ensures TotalCard(Listed([e])) == 1 && ActiveCard(Listed([e])) == Some(142)
  {
    assert Filter([e], IsActive) == [];
  }

  // ------------------------------------------------------------ working time

  /** `workingTimeModel?.replace('_', ' ') || 'Full Time'`. */
  function WorkingTimeLabel(model: Option<string>): (r: string)
    ensures r != ""
    ensures !Truthy(model) ==> r == "Full Time"
    ensures Truthy(model) && '_' !in model.value ==> r == model.value
    ensures Truthy(model) && '_' in model.value ==> r == model.value[FirstIndex(model.value, '_') := ' ']
  {
    if Truthy(model) then ReplaceFirst(model.value, '_', ' ') else "Full Time"
  }

  /** The model reads as its words: the first "_" becomes a space and any later one stays. */
  lemma WorkingTimeWords(x: string, y: string)
    requires '_' !in x
    ensures WorkingTimeLabel(Some(x + "_" + y)) == x + " " + y
  {
    ReplaceFirstAt(x, '_', ' ', y);
  }
}
