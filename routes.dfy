/**
 * The route handlers that compute something: the dashboard counters, the
 * per-employee utilisation, the schedule generator, and the three PATCH
 * handlers that are one store update plus a 404 rule.  Handlers read the
 * store through its getters and change it only through its create and
 * update methods.
 */
module Routes {
  import opened Wrappers
  import opened Tables
  import opened Schema
  import opened Seqs
  import opened Storage
  import opened Scheduling

  /** A handler's answer: the JSON body with status 200, or a 404 with its error text. */
  datatype Response<T> = Ok(value: T) | NotFound(error: string)

  // ------------------------------------------------------------ dashboard

  datatype DashboardStats = DashboardStats(
    activeEmployees: nat,
    productionAreas: nat,
    activeOrders: nat,
    criticalAlerts: nat,
    totalCapacity: int,
    currentStaff: int)

  predicate IsActive(e: Employee) {
    e.isActive
  }

  predicate InProgress(o: ProductionOrder) {
    o.status == "in_progress"
  }

  /** A critical alert nobody has resolved yet. */
  predicate OpenCritical(a: ProductionAlert) {
    a.kind == "critical" && !a.isResolved
  }

  function Capacity(a: ProductionArea): int {
    a.capacity
  }

  function Staff(a: ProductionArea): int {
    a.currentStaff
  }

  /** The body of `GET /api/dashboard/stats`, without the average efficiency. */
  function Stats(employees: seq<Employee>, areas: seq<ProductionArea>, orders: seq<ProductionOrder>,
                 alerts: seq<ProductionAlert>): (r: DashboardStats)
    ensures r.productionAreas == |areas|
    ensures r.activeEmployees <= |employees| && r.activeOrders <= |orders| && r.criticalAlerts <= |alerts|
    ensures r.activeEmployees == |employees| <==> forall i :: 0 <= i < |employees| ==> employees[i].isActive
    ensures r.activeOrders == 0 <==> forall i :: 0 <= i < |orders| ==> orders[i].status != "in_progress"
    ensures r.criticalAlerts == 0 <==>
      forall i :: 0 <= i < |alerts| ==> alerts[i].kind != "critical" || alerts[i].isResolved
    ensures areas == [] ==> r.totalCapacity == 0 && r.currentStaff == 0
  {
    CountFull(employees, IsActive);
    CountZero(orders, InProgress);
    CountZero(alerts, OpenCritical);
    DashboardStats(Count(employees, IsActive), |areas|, Count(orders, InProgress),
      Count(alerts, OpenCritical), Sum(areas, Capacity), Sum(areas, Staff))
  }

  /** `GET /api/dashboard/stats`: the counters over what the getters return. */
  method GetDashboardStats(store: MemStorage) returns (r: DashboardStats)
    requires store.Valid()
    ensures r == Stats(store.employees.Values(), store.productionAreas.Values(),
      store.productionOrders.Values(), store.alerts.Values())
  {
    var employees := store.GetEmployees();
    var areas := store.GetProductionAreas();
    var orders := store.GetProductionOrders();
    var alerts := store.GetAlerts();
    r := Stats(employees, areas, orders, alerts);
  }

  /** A new employee raises the active count by one exactly when it is active. */
  lemma StatsAfterNewEmployee(employees: seq<Employee>, areas: seq<ProductionArea>,
                              orders: seq<ProductionOrder>, alerts: seq<ProductionAlert>, e: Employee)
    ensures var before, after := Stats(employees, areas, orders, alerts), Stats(employees + [e], areas, orders, alerts);
      after == before.(activeEmployees := before.activeEmployees + if e.isActive then 1 else 0)
  {
    CountAppend(employees, e, IsActive);
  }

  /** A new area adds one area, its capacity and its staff. */
  lemma StatsAfterNewArea(employees: seq<Employee>, areas: seq<ProductionArea>,
                          orders: seq<ProductionOrder>, alerts: seq<ProductionAlert>, a: ProductionArea)
    ensures var before, after := Stats(employees, areas, orders, alerts), Stats(employees, areas + [a], orders, alerts);
      && after.productionAreas == before.productionAreas + 1
      && after.totalCapacity == before.totalCapacity + a.capacity
      && after.currentStaff == before.currentStaff + a.currentStaff
      && after.activeEmployees == before.activeEmployees
      && after.activeOrders == before.activeOrders
      && after.criticalAlerts == before.criticalAlerts
  {
    SumAppend(areas, a, Capacity);
    SumAppend(areas, a, Staff);
  }

  /** A new order raises the active-order count by one exactly when it is in progress. */
  lemma StatsAfterNewOrder(employees: seq<Employee>, areas: seq<ProductionArea>,
                           orders: seq<ProductionOrder>, alerts: seq<ProductionAlert>, o: ProductionOrder)
    ensures var before, after := Stats(employees, areas, orders, alerts), Stats(employees, areas, orders + [o], alerts);
      after == before.(activeOrders := before.activeOrders + if o.status == "in_progress" then 1 else 0)
  {
    CountAppend(orders, o, InProgress);
  }

  /**
   * Resolving alert `i` lowers the critical count by one when that alert was
   * an open critical one, and leaves every counter alone otherwise.
   */
  lemma StatsAfterResolve(employees: seq<Employee>, areas: seq<ProductionArea>,
                          orders: seq<ProductionOrder>, alerts: seq<ProductionAlert>, i: nat)
    requires i < |alerts|
    ensures var before := Stats(employees, areas, orders, alerts);
      var after := Stats(employees, areas, orders, alerts[i := alerts[i].Merge(ResolvePatch)]);
      after == before.(criticalAlerts := before.criticalAlerts - if OpenCritical(alerts[i]) then 1 else 0)
  {
    ResolveOnlyFlag(alerts[i]);
    CountUpdate(alerts, i, alerts[i].Merge(ResolvePatch), OpenCritical);
  }

  // ---------------------------------------------------------- utilisation

  datatype EmployeeUtilization = EmployeeUtilization(id: Id, name: string, utilization: int, hoursWorked: int)

  /** How many of `assignments` belong to employee `id`. */
  function ShiftCount(assignments: seq<ShiftAssignment>, id: Id): nat {
    Count(assignments, (a: ShiftAssignment) => a.employeeId == id)
  }

  /** One entry of `GET /api/employees/utilization`, without the random efficiency. */
  function UtilizationOf(e: Employee, assignments: seq<ShiftAssignment>): (u: EmployeeUtilization)
    ensures u.id == e.id && u.name == e.firstName + " " + e.lastName
    ensures 0 <= u.utilization <= 100
    ensures u.utilization == 100 <==> ShiftCount(assignments, e.id) >= 5
    ensures u.utilization < 100 ==> 5 * u.hoursWorked == 2 * u.utilization
    ensures u.hoursWorked == 8 * ShiftCount(assignments, e.id)
  {
    var n := ShiftCount(assignments, e.id);
    EmployeeUtilization(e.id, e.firstName + " " + e.lastName, Min(100, n * 20), n * 8)
  }

  /** The body of `GET /api/employees/utilization`: one entry per employee, in order. */
  function Utilization(employees: seq<Employee>, assignments: seq<ShiftAssignment>): (r: seq<EmployeeUtilization>)
    ensures |r| == |employees|
    ensures forall i :: 0 <= i < |r| ==> r[i] == UtilizationOf(employees[i], assignments)
  {
    seq(|employees|, i requires 0 <= i < |employees| => UtilizationOf(employees[i], assignments))
  }

  method GetUtilization(store: MemStorage) returns (r: seq<EmployeeUtilization>)
    requires store.Valid()
    ensures r == Utilization(store.employees.Values(), store.shiftAssignments.Values())
  {
    var employees := store.GetEmployees();
    var assignments := store.GetShiftAssignments();
    r := Utilization(employees, assignments);
  }

  /**
   * A further assignment raises its own employee's hours by 8 and leaves
   * everyone else's entry unchanged; nobody's utilisation goes down.
   */
  lemma UtilizationAfterAssign(employees: seq<Employee>, assignments: seq<ShiftAssignment>, x: ShiftAssignment, i: nat)
    requires i < |employees|
    ensures var before, after := Utilization(employees, assignments)[i], Utilization(employees, assignments + [x])[i];
      && after.hoursWorked == before.hoursWorked + (if x.employeeId == employees[i].id then 8 else 0)
      && (x.employeeId != employees[i].id ==> after == before)
      && after.utilization >= before.utilization
  {
    CountAppend(assignments, x, (a: ShiftAssignment) => a.employeeId == employees[i].id);
  }

  // ------------------------------------------------------------- schedule

  datatype ScheduleData = ScheduleData(
    totalShifts: nat,
    coverage: string,
    efficiency: string,
    assignments: seq<ShiftAssignment>)

  datatype ScheduleResponse = ScheduleResponse(success: bool, message: string, data: ScheduleData)

  /** The records the store creates from `spec`, numbered from `base`. */
  function Stored(spec: seq<InsertShiftAssignment>, base: Id): (r: seq<ShiftAssignment>)
    ensures |r| == |spec|
  {
    seq(|spec|, k requires 0 <= k < |spec| => NewShiftAssignment(spec[k], base + k))
  }

  lemma StoredAppend(a: seq<InsertShiftAssignment>, b: seq<InsertShiftAssignment>, base: Id)
    ensures Stored(a + b, base) == Stored(a, base) + Stored(b, base + |a|)
  {
  }

  /**
   * What the generator stores: every record has its own consecutive id, is
   * "scheduled", names one of the first two employees and one of the areas,
   * and spans eight hours.
   */
  lemma GeneratedAssignments(today: Instant, employees: seq<Employee>, areas: seq<ProductionArea>, base: Id, k: nat)
    requires k < |Schedule(today, employees, areas)|
    ensures var x := Stored(Schedule(today, employees, areas), base)[k];
      && x.id == base + k
      && x.status == Some("scheduled")
      && x.employeeId in WorkerIds(employees)
      && x.productionAreaId in Ids(areas, AreaId)
      && x.shiftType in ["morning", "afternoon", "night"]
      && Elapsed(x.endTime) - Elapsed(x.startTime) == 8
  {
    ScheduleRecords(today, employees, areas, k);
  }

  /**
   * `POST /api/generate-schedule`: the day loop.  `created` is the handler's
   * `assignments` array; the store gains exactly those records, in order.
   */
  method GenerateSchedule(store: MemStorage, today: Instant) returns (r: ScheduleResponse, created: seq<ShiftAssignment>)
    requires store.Valid()
    modifies store
    ensures store.Valid()
    ensures created == Stored(Schedule(today, old(store.employees.Values()), old(store.productionAreas.Values())), old(store.nextId))
    ensures store.shiftAssignments.Values() == old(store.shiftAssignments.Values()) + created
    ensures store.nextId == old(store.nextId) + |created|
    ensures store.employees == old(store.employees) && store.productionAreas == old(store.productionAreas)
    ensures store.productionOrders == old(store.productionOrders) && store.alerts == old(store.alerts)
    ensures r.success && r.message == "Schedule generated successfully"
    ensures r.data.totalShifts == |created| && r.data.coverage == "98%" && r.data.efficiency == "89%"
    ensures r.data.assignments == created[..Min(10, |created|)]
  {
    var employees := store.GetEmployees();
    var areas := store.GetProductionAreas();
    created := ScheduleWeek(store, today, employees, areas);
    r := ScheduleResponse(true, "Schedule generated successfully",
      ScheduleData(|created|, "98%", "89%", created[..Min(10, |created|)]));
  }

  /** The day loop: seven days, each starting one calendar day after `today`'s previous one. */
  method ScheduleWeek(store: MemStorage, today: Instant, employees: seq<Employee>, areas: seq<ProductionArea>)
    returns (created: seq<ShiftAssignment>)
    requires store.Valid()
    modifies store
    ensures store.Valid() && store.nextId == old(store.nextId) + |created|
    ensures created == Stored(Schedule(today, employees, areas), old(store.nextId))
    ensures store.shiftAssignments.Values() == old(store.shiftAssignments.Values()) + created
    ensures store.employees == old(store.employees) && store.productionAreas == old(store.productionAreas)
    ensures store.productionOrders == old(store.productionOrders) && store.alerts == old(store.alerts)
  {
    ghost var slots := Slots(Ids(areas, AreaId), WorkerIds(employees));
    ghost var base := store.nextId;
    ghost var before := store.shiftAssignments.Values();
    created := [];
    for i := 0 to PlannedDays
      invariant store.Valid() && store.nextId == base + |created|
      invariant created == Stored(DaysPrefix(today, i, slots), base)
      invariant store.shiftAssignments.Values() == before + created
      invariant store.employees == old(store.employees) && store.productionAreas == old(store.productionAreas)
      invariant store.productionOrders == old(store.productionOrders) && store.alerts == old(store.alerts)
    {
      var shiftDate := DayStart(today, i);
      var records := ScheduleDay(store, shiftDate, employees, areas);
      WeekLoopStep(today, slots, i, created, records, base);
      AppendAssoc(before, created, records);
      created := created + records;
    }
  }

  /** One pass of the day loop appends that day's records. */
  lemma WeekLoopStep(today: Instant, slots: seq<Slot>, i: nat, created: seq<ShiftAssignment>, records: seq<ShiftAssignment>, base: Id)
    requires created == Stored(DaysPrefix(today, i, slots), base)
    requires records == Stored(Day(DayStart(today, i), slots), base + |created|)
    ensures created + records == Stored(DaysPrefix(today, i + 1, slots), base)
  {
    StoredAppend(DaysPrefix(today, i, slots), Day(DayStart(today, i), slots), base);
  }

  /** One pass of the shift loop appends that shift's block and moves the date on. */
  lemma DayLoopStep(dayStart: Instant, slots: seq<Slot>, j: nat, created: seq<ShiftAssignment>, records: seq<ShiftAssignment>, base: Id)
    requires j < |Shifts|
    requires created == Stored(DayPrefix(dayStart, j, slots), base)
    requires records == Stored(Block(ShiftStartDate(dayStart, j, |slots|), Shifts[j], slots), base + |created|)
    ensures created + records == Stored(DayPrefix(dayStart, j + 1, slots), base)
    ensures LoopDate(ShiftStartDate(dayStart, j, |slots|), Shifts[j], |slots|) == ShiftStartDate(dayStart, j + 1, |slots|)
  {
    DayPrefixStep(dayStart, j, slots);
    StoredAppend(DayPrefix(dayStart, j, slots), Block(ShiftStartDate(dayStart, j, |slots|), Shifts[j], slots), base);
  }

  /** The shift loop of one day; the loop's date carries over from shift to shift. */
  method ScheduleDay(store: MemStorage, dayStart: Instant, employees: seq<Employee>, areas: seq<ProductionArea>)
    returns (created: seq<ShiftAssignment>)
    requires store.Valid()
    modifies store
    ensures store.Valid() && store.nextId == old(store.nextId) + |created|
    ensures created == Stored(Day(dayStart, Slots(Ids(areas, AreaId), WorkerIds(employees))), old(store.nextId))
    ensures store.shiftAssignments.Values() == old(store.shiftAssignments.Values()) + created
    ensures store.employees == old(store.employees) && store.productionAreas == old(store.productionAreas)
    ensures store.productionOrders == old(store.productionOrders) && store.alerts == old(store.alerts)
  {
    ghost var slots := Slots(Ids(areas, AreaId), WorkerIds(employees));
    ghost var base := store.nextId;
    ghost var before := store.shiftAssignments.Values();
    var shiftDate := dayStart;
    created := [];
    for j := 0 to |Shifts|
      invariant store.Valid() && store.nextId == base + |created|
      invariant created == Stored(DayPrefix(dayStart, j, slots), base)
      invariant shiftDate == ShiftStartDate(dayStart, j, |slots|)
      invariant store.shiftAssignments.Values() == before + created
      invariant store.employees == old(store.employees) && store.productionAreas == old(store.productionAreas)
      invariant store.productionOrders == old(store.productionOrders) && store.alerts == old(store.alerts)
    {
      var records;
      shiftDate, records := ScheduleShift(store, Shifts[j], shiftDate, employees, areas);
      DayLoopStep(dayStart, slots, j, created, records, base);
      AppendAssoc(before, created, records);
      created := created + records;
    }
  }

  /** The area loop of one shift; the loop's date carries over from area to area. */
  method ScheduleShift(store: MemStorage, shift: Shift, date: Instant, employees: seq<Employee>, areas: seq<ProductionArea>)
    returns (dateOut: Instant, created: seq<ShiftAssignment>)
    requires store.Valid()
    modifies store
    ensures store.Valid() && store.nextId == old(store.nextId) + |created|
    ensures created == Stored(Block(date, shift, Slots(Ids(areas, AreaId), WorkerIds(employees))), old(store.nextId))
    ensures dateOut == LoopDate(date, shift, |Slots(Ids(areas, AreaId), WorkerIds(employees))|)
    ensures store.shiftAssignments.Values() == old(store.shiftAssignments.Values()) + created
    ensures store.employees == old(store.employees) && store.productionAreas == old(store.productionAreas)
    ensures store.productionOrders == old(store.productionOrders) && store.alerts == old(store.alerts)
  {
    ghost var areaIds, workers := Ids(areas, AreaId), WorkerIds(employees);
    ghost var base := store.nextId;
    ghost var before := store.shiftAssignments.Values();
    dateOut, created := date, [];
    for a := 0 to |areas|
      invariant store.Valid() && store.nextId == base + |created|
      invariant created == Stored(Block(date, shift, Slots(areaIds[..a], workers)), base)
      invariant dateOut == LoopDate(date, shift, |Slots(areaIds[..a], workers)|)
      invariant store.shiftAssignments.Values() == before + created
      invariant store.employees == old(store.employees) && store.productionAreas == old(store.productionAreas)
      invariant store.productionOrders == old(store.productionOrders) && store.alerts == old(store.alerts)
    {
      assert Row(areas[a].id, Ids(Team(employees), EmployeeId)) == Row(areaIds[a], workers);
      var records;
      dateOut, records := ScheduleArea(store, shift, dateOut, areas[a].id, Team(employees));
      ShiftLoopStep(date, shift, areaIds, workers, a, created, records, base);
      AppendAssoc(before, created, records);
      created := created + records;
    }
    assert areaIds[..|areas|] == areaIds;
  }

  /** One pass of the area loop extends the shift's block by that area's row. */
  lemma ShiftLoopStep(date: Instant, shift: Shift, areaIds: seq<Id>, workers: seq<Id>, a: nat,
                      created: seq<ShiftAssignment>, records: seq<ShiftAssignment>, base: Id)
    requires a < |areaIds|
    requires created == Stored(Block(date, shift, Slots(areaIds[..a], workers)), base)
    requires records == Stored(Block(LoopDate(date, shift, |Slots(areaIds[..a], workers)|), shift, Row(areaIds[a], workers)), base + |created|)
    ensures created + records == Stored(Block(date, shift, Slots(areaIds[..a + 1], workers)), base)
    ensures LoopDate(LoopDate(date, shift, |Slots(areaIds[..a], workers)|), shift, |workers|)
         == LoopDate(date, shift, |Slots(areaIds[..a + 1], workers)|)
  {
    var done := Slots(areaIds[..a], workers);
    var row := Row(areaIds[a], workers);
    AreaStep(date, shift, areaIds, workers, a);
    StoredAppend(Block(date, shift, done), Block(LoopDate(date, shift, |done|), shift, row), base);
  }

  /** One pass of the employee loop stores the next record of the area's block. */
  lemma AreaLoopStep(date: Instant, shift: Shift, areaId: Id, team: seq<Employee>, base: Id, e: nat,
                     created: seq<ShiftAssignment>, assignment: ShiftAssignment)
    requires e < |team|
    requires created == Stored(Block(date, shift, Row(areaId, Ids(team, EmployeeId))), base)[..e]
    requires var recorded := LoopDate(date, shift, e);
      var startTime := SetHours(recorded, StartHour(shift));
      assignment == NewShiftAssignment(InsertShiftAssignment(team[e].id, areaId, recorded,
        ShiftName(shift), startTime, SetHours(startTime, EndHour(shift)), Some("scheduled")), base + e)
    ensures created + [assignment] == Stored(Block(date, shift, Row(areaId, Ids(team, EmployeeId))), base)[..e + 1]
  {
    var all := Stored(Block(date, shift, Row(areaId, Ids(team, EmployeeId))), base);
    assert assignment == all[e];
    assert all[..e + 1] == all[..e] + [all[e]];
  }

  /**
   * The employee loop for one area.  Each record takes the loop's date as it
   * stands, then two `setHours` calls move that date to the window's start
   * and on to its end.
   */
  method ScheduleArea(store: MemStorage, shift: Shift, date: Instant, areaId: Id, team: seq<Employee>)
    returns (dateOut: Instant, created: seq<ShiftAssignment>)
    requires store.Valid()
    modifies store
    ensures store.Valid() && store.nextId == old(store.nextId) + |created|
    ensures created == Stored(Block(date, shift, Row(areaId, Ids(team, EmployeeId))), old(store.nextId))
    ensures dateOut == LoopDate(date, shift, |team|)
    ensures store.shiftAssignments.Values() == old(store.shiftAssignments.Values()) + created
    ensures store.employees == old(store.employees) && store.productionAreas == old(store.productionAreas)
    ensures store.productionOrders == old(store.productionOrders) && store.alerts == old(store.alerts)
  {
    ghost var all := Stored(Block(date, shift, Row(areaId, Ids(team, EmployeeId))), store.nextId);
    dateOut, created := date, [];
    for e := 0 to |team|
      invariant store.Valid() && store.nextId == old(store.nextId) + e
      invariant created == all[..e]
      invariant dateOut == LoopDate(date, shift, e)
      invariant store.shiftAssignments.Values() == old(store.shiftAssignments.Values()) + created
      invariant store.employees == old(store.employees) && store.productionAreas == old(store.productionAreas)
      invariant store.productionOrders == old(store.productionOrders) && store.alerts == old(store.alerts)
    {
      var employee := team[e];
      var recorded := dateOut;
      LoopDateStep(date, shift, e);
      dateOut := SetHours(dateOut, StartHour(shift));
      var startTime := dateOut;
      dateOut := SetHours(dateOut, EndHour(shift));
      var endTime := dateOut;
      var assignment := store.CreateShiftAssignment(InsertShiftAssignment(employee.id, areaId, recorded,
        ShiftName(shift), startTime, endTime, Some("scheduled")));
      AreaLoopStep(date, shift, areaId, team, old(store.nextId), e, created, assignment);
      AppendAssoc(old(store.shiftAssignments.Values()), created, [assignment]);
      created := created + [assignment];
    }
  }

  // -------------------------------------------------------- PATCH handlers

  /** `PATCH /api/employees/:id`: merge the body into the employee, or 404. */
  method PatchEmployee(store: MemStorage, id: Id, body: EmployeePatch) returns (r: Response<Employee>)
    requires store.Valid()
    modifies store
    ensures store.Valid()
    ensures id !in old(store.employees.rows) ==> r == NotFound("Employee not found") && unchanged(store)
    ensures id in old(store.employees.rows) ==>
      && r == Ok(old(store.employees.rows[id]).Merge(body))
      && r.value.id == id && r.value.createdAt == old(store.employees.rows[id]).createdAt
      && store.employees.Get(id) == Some(r.value)
      && store.employees.keys == old(store.employees.keys)
      && store.employees.Values() == old(store.employees.Values())[old(store.employees.IndexOf(id)) := r.value]
      && (forall k :: k != id ==> store.employees.Get(k) == old(store.employees.Get(k)))
    ensures store.productionAreas == old(store.productionAreas) && store.shiftAssignments == old(store.shiftAssignments)
    ensures store.productionOrders == old(store.productionOrders) && store.alerts == old(store.alerts)
    ensures store.nextId == old(store.nextId)
  {
    var updated := store.UpdateEmployee(id, body);
    if updated.None? {
      return NotFound("Employee not found");
    }
    r := Ok(updated.value);
  }

  /** `PATCH /api/shift-assignments/:id/status`: only the status changes, or 404. */
  method PatchShiftStatus(store: MemStorage, id: Id, status: Option<string>) returns (r: Response<ShiftAssignment>)
    requires store.Valid()
    modifies store
    ensures store.Valid()
    ensures id !in old(store.shiftAssignments.rows) ==> r == NotFound("Shift assignment not found") && unchanged(store)
    ensures id in old(store.shiftAssignments.rows) ==>
      && r == Ok(old(store.shiftAssignments.rows[id]).(status := status))
      && store.shiftAssignments.Get(id) == Some(r.value)
      && store.shiftAssignments.Values()
         == old(store.shiftAssignments.Values())[old(store.shiftAssignments.IndexOf(id)) := r.value]
      && (forall k :: k != id ==> store.shiftAssignments.Get(k) == old(store.shiftAssignments.Get(k)))
    ensures store.employees == old(store.employees) && store.productionAreas == old(store.productionAreas)
    ensures store.productionOrders == old(store.productionOrders) && store.alerts == old(store.alerts)
    ensures store.nextId == old(store.nextId)
  {
    ghost var before := store.shiftAssignments.Get(id);
    var updated := store.UpdateShiftAssignment(id, StatusPatch(status));
    if updated.None? {
      return NotFound("Shift assignment not found");
    }
    StatusPatchOnlyStatus(before.value, status);
    r := Ok(updated.value);
  }

  /**
   * `PATCH /api/alerts/:id/resolve`: set `isResolved` and nothing else, or
   * 404; the dashboard's critical count drops by one exactly when the alert
   * was an open critical one.
   */
  method ResolveAlert(store: MemStorage, id: Id) returns (r: Response<ProductionAlert>)
    requires store.Valid()
    modifies store
    ensures store.Valid()
    ensures id !in old(store.alerts.rows) ==> r == NotFound("Alert not found") && unchanged(store)
    ensures id in old(store.alerts.rows) ==>
      && r == Ok(old(store.alerts.rows[id]).(isResolved := true))
      && store.alerts.Get(id) == Some(r.value)
      && store.alerts.Values() == old(store.alerts.Values())[old(store.alerts.IndexOf(id)) := r.value]
      && (forall k :: k != id ==> store.alerts.Get(k) == old(store.alerts.Get(k)))
      && Count(store.alerts.Values(), OpenCritical)
         == Count(old(store.alerts.Values()), OpenCritical) - (if OpenCritical(old(store.alerts.rows[id])) then 1 else 0)
    ensures store.employees == old(store.employees) && store.productionAreas == old(store.productionAreas)
    ensures store.shiftAssignments == old(store.shiftAssignments) && store.productionOrders == old(store.productionOrders)
    ensures store.nextId == old(store.nextId)
  {
    ghost var before := store.alerts.Values();
    ghost var at := if id in store.alerts.rows then store.alerts.IndexOf(id) else 0;
    var updated := store.UpdateAlert(id, ResolvePatch);
    if updated.None? {
      return NotFound("Alert not found");
    }
    ResolveOnlyFlag(before[at]);
    CountUpdate(before, at, updated.value, OpenCritical);
    r := Ok(updated.value);
  }
}
