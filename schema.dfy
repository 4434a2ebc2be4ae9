/**
 * The records the store keeps (one per table of the schema), the shapes a
 * create accepts (the record without its generated fields), and the partial
 * shapes an update merges in.  A patch field is `None` when the key is absent
 * from the partial object and `Some(v)` when it carries `v`; `Some(None)` on a
 * nullable field is an explicit `null`, and on the status of a shift
 * assignment patch it is a present key whose value is `undefined`.
 */
module Schema {
  import opened Wrappers
  import opened Tables

  /** A point in time as a day number and an hour of that day. */
  datatype Instant = Instant(day: int, hour: int)

  datatype OperationalHours = OperationalHours(start: string, end: string)

  /** JavaScript truthiness of an optional string: present and not "". */
  predicate Truthy(s: Option<string>) {
    s.Some? && s.value != ""
  }

  /** `s || fallback` for an optional string. */
  function OrElse(s: Option<string>, fallback: string): (r: string)
    ensures Truthy(s) ==> r == s.value
    ensures !Truthy(s) ==> r == fallback
  {
    if Truthy(s) then s.value else fallback
  }

  // ---------------------------------------------------------------- employees

  datatype Employee = Employee(
    id: Id,
    firstName: string,
    lastName: string,
    email: string,
    skills: Option<seq<string>>,
    workingTimeModel: Option<string>,
    isActive: bool,
    createdAt: Instant)
  {
    /** `{ ...employee, ...data }` */
    function Merge(p: EmployeePatch): (r: Employee)
      ensures r.id == id && r.createdAt == createdAt
    {
      Employee(id,
        p.firstName.GetOr(firstName),
        p.lastName.GetOr(lastName),
        p.email.GetOr(email),
        p.skills.GetOr(skills),
        p.workingTimeModel.GetOr(workingTimeModel),
        p.isActive.GetOr(isActive),
        createdAt)
    }
  }

  datatype InsertEmployee = InsertEmployee(
    firstName: string,
    lastName: string,
    email: string,
    skills: Option<seq<string>>,
    workingTimeModel: Option<string>,
    isActive: Option<bool>)

  datatype EmployeePatch = EmployeePatch(
    firstName: Option<string>,
    lastName: Option<string>,
    email: Option<string>,
    skills: Option<Option<seq<string>>>,
    workingTimeModel: Option<Option<string>>,
    isActive: Option<bool>)

  const NoEmployeeChange := EmployeePatch(None, None, None, None, None, None)

  /** The record `createEmployee` stores: skills are always an array. */
  function NewEmployee(e: InsertEmployee, id: Id, now: Instant): (r: Employee)
    ensures r.id == id && r.createdAt == now
    ensures r.skills.Some?
    ensures r.skills.value == (if e.skills.Some? then e.skills.value else [])
    ensures r.firstName == e.firstName && r.lastName == e.lastName && r.email == e.email
    ensures r.workingTimeModel == e.workingTimeModel
    ensures r.isActive <==> e.isActive == Some(true)
  {
    Employee(id, e.firstName, e.lastName, e.email, Some(e.skills.GetOr([])),
      e.workingTimeModel, e.isActive.GetOr(false), now)
  }

  /** An empty patch changes nothing, and applying a patch twice is applying it once. */
  lemma EmployeeMergeLaws(x: Employee, p: EmployeePatch)
    ensures x.Merge(NoEmployeeChange) == x
    ensures x.Merge(p).Merge(p) == x.Merge(p)
  {
  }

  // ----------------------------------------------------------- production areas

  datatype ProductionArea = ProductionArea(
    id: Id,
    name: string,
    description: Option<string>,
    capacity: int,
    currentStaff: int,
    efficiency: string,
    status: string,
    operationalHours: Option<OperationalHours>)

  datatype InsertProductionArea = InsertProductionArea(
    name: string,
    description: Option<string>,
    capacity: int,
    currentStaff: Option<int>,
    efficiency: Option<string>,
    status: Option<string>,
    operationalHours: Option<OperationalHours>)

  /** The record `createProductionArea` stores, with the falsy fields defaulted. */
  function NewProductionArea(a: InsertProductionArea, id: Id): (r: ProductionArea)
    ensures r.id == id && r.name == a.name && r.capacity == a.capacity
    ensures r.status == (if Truthy(a.status) then a.status.value else "operational")
    ensures r.efficiency == (if Truthy(a.efficiency) then a.efficiency.value else "0.00")
    ensures r.description == (if Truthy(a.description) then a.description else None)
    ensures r.currentStaff == (if a.currentStaff.Some? then a.currentStaff.value else 0)
    ensures r.operationalHours == a.operationalHours
    ensures r.status != "" && r.efficiency != ""
  {
    ProductionArea(id, a.name,
      if Truthy(a.description) then a.description else None,
      a.capacity,
      a.currentStaff.GetOr(0),
      OrElse(a.efficiency, "0.00"),
      OrElse(a.status, "operational"),
      a.operationalHours)
  }

  // ---------------------------------------------------------- shift assignments

  /**
   * A shift assignment.  `status` is `None` only after a status update whose
   * body carried no status: the spread then stores `undefined`.
   */
  datatype ShiftAssignment = ShiftAssignment(
    id: Id,
    employeeId: Id,
    productionAreaId: Id,
    shiftDate: Instant,
    shiftType: string,
    startTime: Instant,
    endTime: Instant,
    status: Option<string>)
  {
    /** `{ ...assignment, ...data }` */
    function Merge(p: ShiftAssignmentPatch): (r: ShiftAssignment)
      ensures r.id == id
    {
      ShiftAssignment(id,
        p.employeeId.GetOr(employeeId),
        p.productionAreaId.GetOr(productionAreaId),
        p.shiftDate.GetOr(shiftDate),
        p.shiftType.GetOr(shiftType),
        p.startTime.GetOr(startTime),
        p.endTime.GetOr(endTime),
        p.status.GetOr(status))
    }
  }

  datatype InsertShiftAssignment = InsertShiftAssignment(
    employeeId: Id,
    productionAreaId: Id,
    shiftDate: Instant,
    shiftType: string,
    startTime: Instant,
    endTime: Instant,
    status: Option<string>)

  datatype ShiftAssignmentPatch = ShiftAssignmentPatch(
    employeeId: Option<Id>,
    productionAreaId: Option<Id>,
    shiftDate: Option<Instant>,
    shiftType: Option<string>,
    startTime: Option<Instant>,
    endTime: Option<Instant>,
    status: Option<Option<string>>)

  const NoShiftChange := ShiftAssignmentPatch(None, None, None, None, None, None, None)

  /** `{ status }`: the key is always present, its value possibly undefined. */
  function StatusPatch(status: Option<string>): ShiftAssignmentPatch {
    NoShiftChange.(status := Some(status))
  }

  /** The record `createShiftAssignment` stores: a falsy status becomes "assigned". */
  function NewShiftAssignment(s: InsertShiftAssignment, id: Id): (r: ShiftAssignment)
    ensures r.id == id
    ensures r.employeeId == s.employeeId && r.productionAreaId == s.productionAreaId
    ensures r.shiftDate == s.shiftDate && r.shiftType == s.shiftType
    ensures r.startTime == s.startTime && r.endTime == s.endTime
    ensures r.status == Some(if Truthy(s.status) then s.status.value else "assigned")
  {
    ShiftAssignment(id, s.employeeId, s.productionAreaId, s.shiftDate, s.shiftType,
      s.startTime, s.endTime, Some(OrElse(s.status, "assigned")))
  }

  /** A status patch changes the status and nothing else. */
  lemma StatusPatchOnlyStatus(x: ShiftAssignment, status: Option<string>)
    ensures x.Merge(StatusPatch(status)) == x.(status := status)
    ensures x.Merge(NoShiftChange) == x
  {
  }

  // ---------------------------------------------------------- production orders

  datatype ProductionOrder = ProductionOrder(
    id: Id,
    orderNumber: string,
    productName: string,
    quantity: int,
    priority: string,
    status: string,
    dueDate: Option<Instant>,
    createdAt: Instant)
  {
    /** `{ ...order, ...data }` */
    function Merge(p: ProductionOrderPatch): (r: ProductionOrder)
      ensures r.id == id && r.createdAt == createdAt
    {
      ProductionOrder(id,
        p.orderNumber.GetOr(orderNumber),
        p.productName.GetOr(productName),
        p.quantity.GetOr(quantity),
        p.priority.GetOr(priority),
        p.status.GetOr(status),
        p.dueDate.GetOr(dueDate),
        createdAt)
    }
  }

  datatype InsertProductionOrder = InsertProductionOrder(
    orderNumber: string,
    productName: string,
    quantity: int,
    priority: Option<string>,
    status: Option<string>,
    dueDate: Option<Instant>)

  datatype ProductionOrderPatch = ProductionOrderPatch(
    orderNumber: Option<string>,
    productName: Option<string>,
    quantity: Option<int>,
    priority: Option<string>,
    status: Option<string>,
    dueDate: Option<Option<Instant>>)

  const NoOrderChange := ProductionOrderPatch(None, None, None, None, None, None)

  /** The record `createProductionOrder` stores, with status, priority and due date defaulted. */
  function NewProductionOrder(o: InsertProductionOrder, id: Id, now: Instant): (r: ProductionOrder)
    ensures r.id == id && r.createdAt == now
    ensures r.orderNumber == o.orderNumber && r.productName == o.productName && r.quantity == o.quantity
    ensures r.status == (if Truthy(o.status) then o.status.value else "pending")
    ensures r.priority == (if Truthy(o.priority) then o.priority.value else "medium")
    ensures r.dueDate == o.dueDate
  {
    ProductionOrder(id, o.orderNumber, o.productName, o.quantity,
      OrElse(o.priority, "medium"), OrElse(o.status, "pending"), o.dueDate, now)
  }

  lemma OrderMergeLaws(x: ProductionOrder, p: ProductionOrderPatch)
    ensures x.Merge(NoOrderChange) == x
    ensures x.Merge(p).Merge(p) == x.Merge(p)
  {
  }

  // --------------------------------------------------------------------- alerts

  datatype ProductionAlert = ProductionAlert(
    id: Id,
    kind: string,
    title: string,
    message: string,
    productionAreaId: Option<Id>,
    isResolved: bool,
    createdAt: Instant)
  {
    /** `{ ...alert, ...data }` */
    function Merge(p: ProductionAlertPatch): (r: ProductionAlert)
      ensures r.id == id && r.createdAt == createdAt
    {
      ProductionAlert(id,
        p.kind.GetOr(kind),
        p.title.GetOr(title),
        p.message.GetOr(message),
        p.productionAreaId.GetOr(productionAreaId),
        p.isResolved.GetOr(isResolved),
        createdAt)
    }
  }

  datatype InsertProductionAlert = InsertProductionAlert(
    kind: string,
    title: string,
    message: string,
    productionAreaId: Option<Id>,
    isResolved: Option<bool>)

  datatype ProductionAlertPatch = ProductionAlertPatch(
    kind: Option<string>,
    title: Option<string>,
    message: Option<string>,
    productionAreaId: Option<Option<Id>>,
    isResolved: Option<bool>)

  const NoAlertChange := ProductionAlertPatch(None, None, None, None, None)

  /** `{ isResolved: true }` */
  const ResolvePatch := NoAlertChange.(isResolved := Some(true))

  /** The record `createAlert` stores: unresolved and area-less unless told otherwise. */
  function NewProductionAlert(a: InsertProductionAlert, id: Id, now: Instant): (r: ProductionAlert)
    ensures r.id == id && r.createdAt == now
    ensures r.kind == a.kind && r.title == a.title && r.message == a.message
    ensures r.productionAreaId == a.productionAreaId
    ensures r.isResolved <==> a.isResolved == Some(true)
  {
    ProductionAlert(id, a.kind, a.title, a.message, a.productionAreaId,
      a.isResolved.GetOr(false), now)
  }

  /** Resolving sets the flag and leaves every other field alone. */
  lemma ResolveOnlyFlag(x: ProductionAlert)
    ensures x.Merge(ResolvePatch) == x.(isResolved := true)
    ensures x.Merge(NoAlertChange) == x
  {
  }
}
