/**
 * `MemStorage`: five keyed tables held in place and changed by its create and
 * update methods.  Fresh identifiers come from a counter that is larger than
 * every key in use, standing in for `randomUUID`.
 */
module Storage {
  import opened Wrappers
  import opened Tables
  import opened Schema
  import opened Seqs

  /** Every row is stored under its own id, and every key is below `bound`. */
  ghost predicate Keyed<T>(t: Table<T>, idOf: T -> Id, bound: nat) {
    && t.Valid()
    && (forall k :: k in t.rows ==> idOf(t.rows[k]) == k)
    && (forall k :: k in t.rows ==> k < bound)
  }

  const SampleEmployees: seq<InsertEmployee> := [
    InsertEmployee("John", "Smith", "john.smith@company.com", Some(["welding", "assembly"]), Some("full_time"), Some(true)),
    InsertEmployee("Sarah", "Johnson", "sarah.johnson@company.com", Some(["quality_control", "testing"]), Some("full_time"), Some(true)),
    InsertEmployee("Mike", "Brown", "mike.brown@company.com", Some(["maintenance", "repair"]), Some("part_time"), Some(true))
  ]

  const SampleAreas: seq<InsertProductionArea> := [
    InsertProductionArea("Assembly Line A", Some("Primary assembly line"), 12, Some(8), Some("87.50"), Some("operational"), None),
    InsertProductionArea("Quality Control", Some("Quality inspection area"), 6, Some(4), Some("92.30"), Some("operational"), None),
    InsertProductionArea("Packaging", Some("Final packaging department"), 8, Some(5), Some("78.90"), Some("understaffed"), None)
  ]

  const SampleAlerts: seq<InsertProductionAlert> := [
    InsertProductionAlert("warning", "Low Staffing Alert", "Packaging department is understaffed", None, Some(false)),
    InsertProductionAlert("critical", "Equipment Malfunction", "Machine #3 requires immediate attention", None, Some(false)),
    InsertProductionAlert("info", "Shift Change", "Night shift starts in 1 hour", None, Some(false))
  ]

  /** The first `k` of `items` as the store records them, from id `base` on. */
  function SeededEmployees(items: seq<InsertEmployee>, base: Id, now: Instant, k: nat): (r: seq<Employee>)
    requires k <= |items|
    ensures |r| == k
    ensures forall i :: 0 <= i < k ==> r[i].id == base + i && r[i].firstName == items[i].firstName
  {
    seq(k, i requires 0 <= i < k => NewEmployee(items[i], base + i, now))
  }

  function SeededAreas(items: seq<InsertProductionArea>, base: Id, k: nat): (r: seq<ProductionArea>)
    requires k <= |items|
    ensures |r| == k
    ensures forall i :: 0 <= i < k ==> r[i].id == base + i && r[i].name == items[i].name
  {
    seq(k, i requires 0 <= i < k => NewProductionArea(items[i], base + i))
  }

  function SeededAlerts(items: seq<InsertProductionAlert>, base: Id, now: Instant, k: nat): (r: seq<ProductionAlert>)
    requires k <= |items|
    ensures |r| == k
    ensures forall i :: 0 <= i < k ==> r[i].id == base + i && r[i].title == items[i].title
  {
    seq(k, i requires 0 <= i < k => NewProductionAlert(items[i], base + i, now))
  }

  lemma SeededEmployeesStep(items: seq<InsertEmployee>, base: Id, now: Instant, k: nat)
    requires k < |items|
    ensures SeededEmployees(items, base, now, k + 1) == SeededEmployees(items, base, now, k) + [NewEmployee(items[k], base + k, now)]
  {
  }

  lemma SeededAreasStep(items: seq<InsertProductionArea>, base: Id, k: nat)
    requires k < |items|
    ensures SeededAreas(items, base, k + 1) == SeededAreas(items, base, k) + [NewProductionArea(items[k], base + k)]
  {
  }

  lemma SeededAlertsStep(items: seq<InsertProductionAlert>, base: Id, now: Instant, k: nat)
    requires k < |items|
    ensures SeededAlerts(items, base, now, k + 1) == SeededAlerts(items, base, now, k) + [NewProductionAlert(items[k], base + k, now)]
  {
  }

  class MemStorage {
    var employees: Table<Employee>
    var productionAreas: Table<ProductionArea>
    var shiftAssignments: Table<ShiftAssignment>
    var productionOrders: Table<ProductionOrder>
    var alerts: Table<ProductionAlert>
    /** The next identifier handed out; larger than every key in every table. */
    var nextId: Id

    ghost predicate Valid()
      reads this
    {
      && Keyed(employees, (e: Employee) => e.id, nextId)
      && Keyed(productionAreas, (a: ProductionArea) => a.id, nextId)
      && Keyed(shiftAssignments, (s: ShiftAssignment) => s.id, nextId)
      && Keyed(productionOrders, (o: ProductionOrder) => o.id, nextId)
      && Keyed(alerts, (a: ProductionAlert) => a.id, nextId)
    }

    /** A store holding the three sample employees, areas and alerts, and nothing else. */
    constructor (now: Instant)
      ensures Valid()
      ensures employees.Values() == SeededEmployees(SampleEmployees, 0, now, 3)
      ensures productionAreas.Values() == SeededAreas(SampleAreas, 3, 3)
      ensures alerts.Values() == SeededAlerts(SampleAlerts, 6, now, 3)
      ensures shiftAssignments.Values() == [] && productionOrders.Values() == []
    {
      employees, productionAreas, shiftAssignments := Empty(), Empty(), Empty();
      productionOrders, alerts, nextId := Empty(), Empty(), 0;
      new;
      InitializeSampleData(now);
    }

    /** Inserts the sample employees, then the sample areas, then the sample alerts. */
    method InitializeSampleData(now: Instant)
      requires Valid()
      modifies this
      ensures Valid() && nextId == old(nextId) + 9
      ensures employees.Values() == old(employees.Values())
        + SeededEmployees(SampleEmployees, old(nextId), now, 3)
      ensures productionAreas.Values() == old(productionAreas.Values())
        + SeededAreas(SampleAreas, old(nextId) + 3, 3)
      ensures alerts.Values() == old(alerts.Values())
        + SeededAlerts(SampleAlerts, old(nextId) + 6, now, 3)
      ensures shiftAssignments == old(shiftAssignments) && productionOrders == old(productionOrders)
    {
      SeedEmployees(SampleEmployees, now);
      SeedAreas(SampleAreas);
      SeedAlerts(SampleAlerts, now);
    }

    /** The first loop of `initializeSampleData`. */
    method SeedEmployees(items: seq<InsertEmployee>, now: Instant)
      requires Valid()
      modifies this
      ensures Valid() && nextId == old(nextId) + |items|
      ensures employees.Values() == old(employees.Values()) + SeededEmployees(items, old(nextId), now, |items|)
      ensures productionAreas == old(productionAreas) && alerts == old(alerts)
      ensures shiftAssignments == old(shiftAssignments) && productionOrders == old(productionOrders)
    {
      var base := nextId;
      for k := 0 to |items|
        invariant Valid() && nextId == base + k
        invariant employees.Values() == old(employees.Values()) + SeededEmployees(items, base, now, k)
        invariant productionAreas == old(productionAreas) && alerts == old(alerts)
        invariant shiftAssignments == old(shiftAssignments) && productionOrders == old(productionOrders)
      {
        var x := CreateEmployee(items[k], now);
        SeededEmployeesStep(items, base, now, k);
        AppendStep(old(employees.Values()), SeededEmployees(items, base, now, k), SeededEmployees(items, base, now, k + 1), x, employees.Values());
      }
    }

    /** The second loop of `initializeSampleData`. */
    method SeedAreas(items: seq<InsertProductionArea>)
      requires Valid()
      modifies this
      ensures Valid() && nextId == old(nextId) + |items|
      ensures productionAreas.Values() == old(productionAreas.Values()) + SeededAreas(items, old(nextId), |items|)
      ensures employees == old(employees) && alerts == old(alerts)
      ensures shiftAssignments == old(shiftAssignments) && productionOrders == old(productionOrders)
    {
      var base := nextId;
      for k := 0 to |items|
        invariant Valid() && nextId == base + k
        invariant productionAreas.Values() == old(productionAreas.Values()) + SeededAreas(items, base, k)
        invariant employees == old(employees) && alerts == old(alerts)
        invariant shiftAssignments == old(shiftAssignments) && productionOrders == old(productionOrders)
      {
        var x := CreateProductionArea(items[k]);
        SeededAreasStep(items, base, k);
        AppendStep(old(productionAreas.Values()), SeededAreas(items, base, k), SeededAreas(items, base, k + 1), x, productionAreas.Values());
      }
    }

    /** The third loop of `initializeSampleData`. */
    method SeedAlerts(items: seq<InsertProductionAlert>, now: Instant)
      requires Valid()
      modifies this
      ensures Valid() && nextId == old(nextId) + |items|
      ensures alerts.Values() == old(alerts.Values()) + SeededAlerts(items, old(nextId), now, |items|)
      ensures employees == old(employees) && productionAreas == old(productionAreas)
      ensures shiftAssignments == old(shiftAssignments) && productionOrders == old(productionOrders)
    {
      var base := nextId;
      for k := 0 to |items|
        invariant Valid() && nextId == base + k
        invariant alerts.Values() == old(alerts.Values()) + SeededAlerts(items, base, now, k)
        invariant employees == old(employees) && productionAreas == old(productionAreas)
        invariant shiftAssignments == old(shiftAssignments) && productionOrders == old(productionOrders)
      {
        var x := CreateAlert(items[k], now);
        SeededAlertsStep(items, base, now, k);
        AppendStep(old(alerts.Values()), SeededAlerts(items, base, now, k), SeededAlerts(items, base, now, k + 1), x, alerts.Values());
      }
    }

    // ------------------------------------------------------------- employees

    method GetEmployees() returns (r: seq<Employee>)
      requires Valid()
      ensures r == employees.Values()
    {
      r := employees.Values();
    }

    method GetEmployee(id: Id) returns (r: Option<Employee>)
      requires Valid()
      ensures r.Some? <==> id in employees.rows
      ensures r.Some? ==> r.value == employees.rows[id] && r.value.id == id
    {
      r := employees.Get(id);
    }

    method CreateEmployee(e: InsertEmployee, now: Instant) returns (r: Employee)
      requires Valid()
      modifies this
      ensures Valid() && nextId == old(nextId) + 1
      ensures r == NewEmployee(e, old(nextId), now) && r.id !in old(employees.rows)
      ensures employees.Values() == old(employees.Values()) + [r]
      ensures employees.Get(r.id) == Some(r)
      ensures forall k :: k != r.id ==> employees.Get(k) == old(employees.Get(k))
      ensures productionAreas == old(productionAreas) && shiftAssignments == old(shiftAssignments)
      ensures productionOrders == old(productionOrders) && alerts == old(alerts)
    {
      var id := nextId;
      r := NewEmployee(e, id, now);
      SetNew(employees, id, r);
      employees := employees.Set(id, r);
      nextId := nextId + 1;
    }

    method UpdateEmployee(id: Id, data: EmployeePatch) returns (r: Option<Employee>)
      requires Valid()
      modifies this
      ensures Valid()
      ensures id !in old(employees.rows) ==> r == None && unchanged(this)
      ensures id in old(employees.rows) ==>
        && r == Some(old(employees.rows[id]).Merge(data))
        && employees.keys == old(employees.keys)
        && employees.Values() == old(employees.Values())[old(employees.IndexOf(id)) := r.value]
        && employees.Get(id) == r
        && (forall k :: k != id ==> employees.Get(k) == old(employees.Get(k)))
      ensures nextId == old(nextId) && productionAreas == old(productionAreas)
      ensures shiftAssignments == old(shiftAssignments)
      ensures productionOrders == old(productionOrders) && alerts == old(alerts)
    {
      var current := employees.Get(id);
      if current.None? {
        return None;
      }
      var updated := current.value.Merge(data);
      SetExisting(employees, id, updated);
      employees := employees.Set(id, updated);
      r := Some(updated);
    }

    // ------------------------------------------------------ production areas

    method GetProductionAreas() returns (r: seq<ProductionArea>)
      requires Valid()
      ensures r == productionAreas.Values()
    {
      r := productionAreas.Values();
    }

    method GetProductionArea(id: Id) returns (r: Option<ProductionArea>)
      requires Valid()
      ensures r.Some? <==> id in productionAreas.rows
      ensures r.Some? ==> r.value == productionAreas.rows[id] && r.value.id == id
    {
      r := productionAreas.Get(id);
    }

    method CreateProductionArea(a: InsertProductionArea) returns (r: ProductionArea)
      requires Valid()
      modifies this
      ensures Valid() && nextId == old(nextId) + 1
      ensures r == NewProductionArea(a, old(nextId)) && r.id !in old(productionAreas.rows)
      ensures productionAreas.Values() == old(productionAreas.Values()) + [r]
      ensures productionAreas.Get(r.id) == Some(r)
      ensures forall k :: k != r.id ==> productionAreas.Get(k) == old(productionAreas.Get(k))
      ensures employees == old(employees) && shiftAssignments == old(shiftAssignments)
      ensures productionOrders == old(productionOrders) && alerts == old(alerts)
    {
      var id := nextId;
      r := NewProductionArea(a, id);
      SetNew(productionAreas, id, r);
      productionAreas := productionAreas.Set(id, r);
      nextId := nextId + 1;
    }

    // ----------------------------------------------------- shift assignments

    method GetShiftAssignments() returns (r: seq<ShiftAssignment>)
      requires Valid()
      ensures r == shiftAssignments.Values()
    {
      r := shiftAssignments.Values();
    }

    method CreateShiftAssignment(s: InsertShiftAssignment) returns (r: ShiftAssignment)
      requires Valid()
      modifies this
      ensures Valid() && nextId == old(nextId) + 1
      ensures r == NewShiftAssignment(s, old(nextId)) && r.id !in old(shiftAssignments.rows)
      ensures shiftAssignments.Values() == old(shiftAssignments.Values()) + [r]
      ensures shiftAssignments.Get(r.id) == Some(r)
      ensures forall k :: k != r.id ==> shiftAssignments.Get(k) == old(shiftAssignments.Get(k))
      ensures employees == old(employees) && productionAreas == old(productionAreas)
      ensures productionOrders == old(productionOrders) && alerts == old(alerts)
    {
      var id := nextId;
      r := NewShiftAssignment(s, id);
      SetNew(shiftAssignments, id, r);
      shiftAssignments := shiftAssignments.Set(id, r);
      nextId := nextId + 1;
    }

    method UpdateShiftAssignment(id: Id, data: ShiftAssignmentPatch) returns (r: Option<ShiftAssignment>)
      requires Valid()
      modifies this
      ensures Valid()
      ensures id !in old(shiftAssignments.rows) ==> r == None && unchanged(this)
      ensures id in old(shiftAssignments.rows) ==>
        && r == Some(old(shiftAssignments.rows[id]).Merge(data))
        && shiftAssignments.keys == old(shiftAssignments.keys)
        && shiftAssignments.Values() == old(shiftAssignments.Values())[old(shiftAssignments.IndexOf(id)) := r.value]
        && shiftAssignments.Get(id) == r
        && (forall k :: k != id ==> shiftAssignments.Get(k) == old(shiftAssignments.Get(k)))
      ensures nextId == old(nextId) && employees == old(employees)
      ensures productionAreas == old(productionAreas)
      ensures productionOrders == old(productionOrders) && alerts == old(alerts)
    {
      var current := shiftAssignments.Get(id);
      if current.None? {
        return None;
      }
      var updated := current.value.Merge(data);
      SetExisting(shiftAssignments, id, updated);
      shiftAssignments := shiftAssignments.Set(id, updated);
      r := Some(updated);
    }

    // ----------------------------------------------------- production orders

    method GetProductionOrders() returns (r: seq<ProductionOrder>)
      requires Valid()
      ensures r == productionOrders.Values()
    {
      r := productionOrders.Values();
    }

    method CreateProductionOrder(o: InsertProductionOrder, now: Instant) returns (r: ProductionOrder)
      requires Valid()
      modifies this
      ensures Valid() && nextId == old(nextId) + 1
      ensures r == NewProductionOrder(o, old(nextId), now) && r.id !in old(productionOrders.rows)
      ensures productionOrders.Values() == old(productionOrders.Values()) + [r]
      ensures productionOrders.Get(r.id) == Some(r)
      ensures forall k :: k != r.id ==> productionOrders.Get(k) == old(productionOrders.Get(k))
      ensures employees == old(employees) && productionAreas == old(productionAreas)
      ensures shiftAssignments == old(shiftAssignments) && alerts == old(alerts)
    {
      var id := nextId;
      r := NewProductionOrder(o, id, now);
      SetNew(productionOrders, id, r);
      productionOrders := productionOrders.Set(id, r);
      nextId := nextId + 1;
    }

    method UpdateProductionOrder(id: Id, data: ProductionOrderPatch) returns (r: Option<ProductionOrder>)
      requires Valid()
      modifies this
      ensures Valid()
      ensures id !in old(productionOrders.rows) ==> r == None && unchanged(this)
      ensures id in old(productionOrders.rows) ==>
        && r == Some(old(productionOrders.rows[id]).Merge(data))
        && productionOrders.keys == old(productionOrders.keys)
        && productionOrders.Values() == old(productionOrders.Values())[old(productionOrders.IndexOf(id)) := r.value]
        && productionOrders.Get(id) == r
        && (forall k :: k != id ==> productionOrders.Get(k) == old(productionOrders.Get(k)))
      ensures nextId == old(nextId) && employees == old(employees)
      ensures productionAreas == old(productionAreas)
      ensures shiftAssignments == old(shiftAssignments) && alerts == old(alerts)
    {
      var current := productionOrders.Get(id);
      if current.None? {
        return None;
      }
      var updated := current.value.Merge(data);
      SetExisting(productionOrders, id, updated);
      productionOrders := productionOrders.Set(id, updated);
      r := Some(updated);
    }

    // ---------------------------------------------------------------- alerts

    method GetAlerts() returns (r: seq<ProductionAlert>)
      requires Valid()
      ensures r == alerts.Values()
    {
      r := alerts.Values();
    }

    method CreateAlert(a: InsertProductionAlert, now: Instant) returns (r: ProductionAlert)
      requires Valid()
      modifies this
      ensures Valid() && nextId == old(nextId) + 1
      ensures r == NewProductionAlert(a, old(nextId), now) && r.id !in old(alerts.rows)
      ensures alerts.Values() == old(alerts.Values()) + [r]
      ensures alerts.Get(r.id) == Some(r)
      ensures forall k :: k != r.id ==> alerts.Get(k) == old(alerts.Get(k))
      ensures employees == old(employees) && productionAreas == old(productionAreas)
      ensures shiftAssignments == old(shiftAssignments) && productionOrders == old(productionOrders)
    {
      var id := nextId;
      r := NewProductionAlert(a, id, now);
      SetNew(alerts, id, r);
      alerts := alerts.Set(id, r);
      nextId := nextId + 1;
    }

    method UpdateAlert(id: Id, data: ProductionAlertPatch) returns (r: Option<ProductionAlert>)
      requires Valid()
      modifies this
      ensures Valid()
      ensures id !in old(alerts.rows) ==> r == None && unchanged(this)
      ensures id in old(alerts.rows) ==>
        && r == Some(old(alerts.rows[id]).Merge(data))
        && alerts.keys == old(alerts.keys)
        && alerts.Values() == old(alerts.Values())[old(alerts.IndexOf(id)) := r.value]
        && alerts.Get(id) == r
        && (forall k :: k != id ==> alerts.Get(k) == old(alerts.Get(k)))
      ensures nextId == old(nextId) && employees == old(employees)
      ensures productionAreas == old(productionAreas)
      ensures shiftAssignments == old(shiftAssignments) && productionOrders == old(productionOrders)
    {
      var current := alerts.Get(id);
      if current.None? {
        return None;
      }
      var updated := current.value.Merge(data);
      SetExisting(alerts, id, updated);
      alerts := alerts.Set(id, updated);
      r := Some(updated);
    }
  }
}
