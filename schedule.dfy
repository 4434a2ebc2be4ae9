/**
 * What the generate-schedule handler inserts, as a function of the date it
 * runs on and the employee and area lists it read.  The handler walks seven
 * days, three shifts per day, every area, and the first one or two
 * employees; for each it records the loop's date, then moves that date with
 * `setHours(start)` and `setHours(end)` and records the two results.  The
 * date is reset per day but not per shift, so it carries from one window to
 * the next: an afternoon window ends at midnight of the next day, and that is
 * where the next afternoon window starts from.
 */
module Scheduling {
  import opened Wrappers
  import opened Tables
  import opened Schema
  import opened Seqs

  datatype Shift = Morning | Afternoon | Night

  /** `["morning", "afternoon", "night"]`, in loop order. */
  const Shifts: seq<Shift> := [Morning, Afternoon, Night]

  /** The number of days the handler plans ahead, today included. */
  const PlannedDays: nat := 7

  function ShiftName(s: Shift): string {
    match s
    case Morning => "morning"
    case Afternoon => "afternoon"
    case Night => "night"
  }

  function StartHour(s: Shift): nat {
    match s
    case Morning => 8
    case Afternoon => 16
    case Night => 0
  }

  function EndHour(s: Shift): nat {
    match s
    case Morning => 16
    case Afternoon => 24
    case Night => 8
  }

  /** Hours since day 0, hour 0. */
  function Elapsed(t: Instant): int {
    t.day * 24 + t.hour
  }

  /** `date.setHours(h)`: same day at hour `h`, where `h` past 23 rolls into later days. */
  function SetHours(t: Instant, h: nat): (r: Instant)
    ensures 0 <= r.hour < 24
    ensures Elapsed(r) == t.day * 24 + h
  {
    Instant(t.day + h / 24, h % 24)
  }

  /**
   * The loop's date after it has produced `n` windows of shift `s`, starting
   * from `c`: each window sets the hours to the start, then to the end.
   */
  function DateAfter(c: Instant, s: Shift, n: nat): Instant {
    if n == 0 then c else SetHours(SetHours(DateAfter(c, s, n - 1), StartHour(s)), EndHour(s))
  }

  /**
   * The same date in closed form: mornings leave it on the same day at
   * 16:00, nights on the same day at 8:00, and each afternoon moves it to
   * midnight of the following day.
   */
  function LoopDate(c: Instant, s: Shift, n: nat): Instant {
    if n == 0 then c
    else match s
      case Morning => Instant(c.day, 16)
      case Afternoon => Instant(c.day + n, 0)
      case Night => Instant(c.day, 8)
  }

  /** One more window moves the closed form exactly as the two `setHours` calls do. */
  lemma LoopDateStep(c: Instant, s: Shift, n: nat)
    ensures LoopDate(c, s, n + 1) == SetHours(SetHours(LoopDate(c, s, n), StartHour(s)), EndHour(s))
  {
  }

  /** Iterating the two `setHours` calls gives the closed form. */
  lemma {:induction false} DateAfterIsLoopDate(c: Instant, s: Shift, n: nat)
    ensures DateAfter(c, s, n) == LoopDate(c, s, n)
  {
    if n > 0 {
      DateAfterIsLoopDate(c, s, n - 1);
      LoopDateStep(c, s, n - 1);
    }
  }

  /** An (area, employee) pair the two innermost loops visit. */
  datatype Slot = Slot(areaId: Id, employeeId: Id)

  /** One area with each of the chosen employees. */
  function Row(areaId: Id, workers: seq<Id>): (r: seq<Slot>)
    ensures |r| == |workers|
  {
    seq(|workers|, j requires 0 <= j < |workers| => Slot(areaId, workers[j]))
  }

  /** All (area, employee) pairs of one shift, areas outermost, in loop order. */
  function Slots(areaIds: seq<Id>, workers: seq<Id>): seq<Slot> {
    if areaIds == [] then []
    else Slots(areaIds[..|areaIds| - 1], workers) + Row(areaIds[|areaIds| - 1], workers)
  }

  lemma {:induction false} SlotsLength(areaIds: seq<Id>, workers: seq<Id>)
    ensures |Slots(areaIds, workers)| == |areaIds| * |workers|
  {
    if areaIds != [] {
      SlotsLength(areaIds[..|areaIds| - 1], workers);
      assert |areaIds| * |workers| == (|areaIds| - 1) * |workers| + |workers|;
    }
  }

  function AreaId(a: ProductionArea): Id { a.id }

  function EmployeeId(e: Employee): Id { e.id }

  /** `xs.map(x => x.id)`, for the areas and the employees alike. */
  function Ids<T>(xs: seq<T>, key: T -> Id): (r: seq<Id>)
    ensures |r| == |xs|
    ensures forall i :: 0 <= i < |xs| ==> r[i] == key(xs[i])
  {
    seq(|xs|, i requires 0 <= i < |xs| => key(xs[i]))
  }

  /** `employees.slice(0, Math.min(2, employees.length))`: the employees put on every shift. */
  function Team(employees: seq<Employee>): (r: seq<Employee>)
    ensures |r| == Min(2, |employees|)
    ensures forall i :: 0 <= i < |r| ==> r[i] == employees[i]
  {
    employees[..Min(2, |employees|)]
  }

  /** The ids of the team. */
  function WorkerIds(employees: seq<Employee>): (r: seq<Id>)
    ensures |r| == Min(2, |employees|)
  {
    Ids(Team(employees), EmployeeId)
  }

  /** The area loop's step: one more area appends its row. */
  lemma SlotsStep(areaIds: seq<Id>, workers: seq<Id>, a: nat)
    requires a < |areaIds|
    ensures Slots(areaIds[..a + 1], workers) == Slots(areaIds[..a], workers) + Row(areaIds[a], workers)
  {
    assert areaIds[..a + 1][..a] == areaIds[..a];
  }

  /** The record inserted for `slot` when the loop's date is `c`. */
  function ShiftRecord(c: Instant, s: Shift, slot: Slot): InsertShiftAssignment {
    var start := SetHours(c, StartHour(s));
    InsertShiftAssignment(slot.employeeId, slot.areaId, c, ShiftName(s),
      start, SetHours(start, EndHour(s)), Some("scheduled"))
  }

  /** The records of one shift of one day, when the loop's date is `c` as the shift begins. */
  function Block(c: Instant, s: Shift, slots: seq<Slot>): (r: seq<InsertShiftAssignment>)
    ensures |r| == |slots|
  {
    seq(|slots|, k requires 0 <= k < |slots| => ShiftRecord(LoopDate(c, s, k), s, slots[k]))
  }

  /** The date after `m` windows and then `e` more is the date after `m + e`. */
  lemma LoopDateAdd(c: Instant, s: Shift, m: nat, e: nat)
    ensures LoopDate(LoopDate(c, s, m), s, e) == LoopDate(c, s, m + e)
  {
  }

  /** A block over `x + y` is the block over `x`, then the block over `y` from where `x` left the date. */
  lemma BlockAppend(c: Instant, s: Shift, x: seq<Slot>, y: seq<Slot>)
    ensures Block(c, s, x + y) == Block(c, s, x) + Block(LoopDate(c, s, |x|), s, y)
  {
    var whole, parts := Block(c, s, x + y), Block(c, s, x) + Block(LoopDate(c, s, |x|), s, y);
    forall k | 0 <= k < |whole|
      ensures whole[k] == parts[k]
    {
      if k >= |x| {
        LoopDateAdd(c, s, |x|, k - |x|);
        assert (x + y)[k] == y[k - |x|];
      }
    }
  }

  /**
   * The area loop's step: area `a` appends the block of its row, which starts
   * from where the earlier areas left the date and moves it on by one window
   * per employee.
   */
  lemma AreaStep(c: Instant, s: Shift, areaIds: seq<Id>, workers: seq<Id>, a: nat)
    requires a < |areaIds|
    ensures var done, row := Slots(areaIds[..a], workers), Row(areaIds[a], workers);
      && Slots(areaIds[..a + 1], workers) == done + row
      && Block(c, s, done + row) == Block(c, s, done) + Block(LoopDate(c, s, |done|), s, row)
      && LoopDate(LoopDate(c, s, |done|), s, |workers|) == LoopDate(c, s, |done| + |workers|)
  {
    var done, row := Slots(areaIds[..a], workers), Row(areaIds[a], workers);
    SlotsStep(areaIds, workers, a);
    BlockAppend(c, s, done, row);
    LoopDateAdd(c, s, |done|, |workers|);
  }

  /**
   * The records of one loop day that starts at `dayStart`: the morning block,
   * then the afternoon block from wherever the mornings left the date, then
   * the night block from wherever the afternoons left it.
   */
  function Day(dayStart: Instant, slots: seq<Slot>): (r: seq<InsertShiftAssignment>)
    ensures |r| == 3 * |slots|
  {
    var afternoonFrom := LoopDate(dayStart, Morning, |slots|);
    var nightFrom := LoopDate(afternoonFrom, Afternoon, |slots|);
    Block(dayStart, Morning, slots) + Block(afternoonFrom, Afternoon, slots) + Block(nightFrom, Night, slots)
  }

  /** The loop's date when shift number `j` of a day begins, `n` windows per shift. */
  function ShiftStartDate(dayStart: Instant, j: nat, n: nat): Instant
    requires j <= 3
  {
    var afternoonFrom := LoopDate(dayStart, Morning, n);
    var nightFrom := LoopDate(afternoonFrom, Afternoon, n);
    if j == 0 then dayStart
    else if j == 1 then afternoonFrom
    else if j == 2 then nightFrom
    else LoopDate(nightFrom, Night, n)
  }

  /** The records of the first `j` shifts of a day, as the shift loop builds them. */
  function DayPrefix(dayStart: Instant, j: nat, slots: seq<Slot>): seq<InsertShiftAssignment>
    requires j <= 3
  {
    var n := |slots|;
    if j == 0 then []
    else if j == 1 then Block(dayStart, Morning, slots)
    else if j == 2 then Block(dayStart, Morning, slots) + Block(ShiftStartDate(dayStart, 1, n), Afternoon, slots)
    else Day(dayStart, slots)
  }

  /**
   * The shift loop's step: shift `j` appends its block, starting from where
   * the previous shifts left the date, and moves the date on by its windows.
   */
  lemma DayPrefixStep(dayStart: Instant, j: nat, slots: seq<Slot>)
    requires j < 3
    ensures DayPrefix(dayStart, j + 1, slots)
      == DayPrefix(dayStart, j, slots) + Block(ShiftStartDate(dayStart, j, |slots|), Shifts[j], slots)
    ensures ShiftStartDate(dayStart, j + 1, |slots|) == LoopDate(ShiftStartDate(dayStart, j, |slots|), Shifts[j], |slots|)
  {
    assert Shifts[0] == Morning && Shifts[1] == Afternoon && Shifts[2] == Night;
  }

  /** `new Date(today)` moved `i` days on with `setDate`: same time of day. */
  function DayStart(today: Instant, i: nat): Instant {
    Instant(today.day + i, today.hour)
  }

  /** The records of the first `i` days. */
  function DaysPrefix(today: Instant, i: nat, slots: seq<Slot>): seq<InsertShiftAssignment> {
    if i == 0 then []
    else DaysPrefix(today, i - 1, slots) + Day(DayStart(today, i - 1), slots)
  }

  lemma DaysPrefixLength(today: Instant, i: nat, slots: seq<Slot>)
    ensures |DaysPrefix(today, i, slots)| == i * (3 * |slots|)
  {
    LinearGrowth(k => |DaysPrefix(today, k, slots)|, 3 * |slots|, i);
  }

  /** Everything the handler inserts, in insertion order. */
  function Schedule(today: Instant, employees: seq<Employee>, areas: seq<ProductionArea>): seq<InsertShiftAssignment> {
    DaysPrefix(today, PlannedDays, Slots(Ids(areas, AreaId), WorkerIds(employees)))
  }

  // ------------------------------------------------------------------ lemmas

  /** 7 days, 3 shifts, every area, and min(2, |employees|) employees. */
  lemma ScheduleSize(today: Instant, employees: seq<Employee>, areas: seq<ProductionArea>)
    ensures |Schedule(today, employees, areas)| == 7 * 3 * |areas| * Min(2, |employees|)
  {
    var slots := Slots(Ids(areas, AreaId), WorkerIds(employees));
    SlotsLength(Ids(areas, AreaId), WorkerIds(employees));
    DaysPrefixLength(today, PlannedDays, slots);
  }

  /** Every window the loop produces is eight hours long, whatever the loop's date was. */
  lemma WindowIsEightHours(c: Instant, s: Shift, slot: Slot)
    ensures Elapsed(ShiftRecord(c, s, slot).endTime) - Elapsed(ShiftRecord(c, s, slot).startTime) == 8
    ensures ShiftRecord(c, s, slot).startTime.hour == StartHour(s)
    ensures ShiftRecord(c, s, slot).endTime.hour == EndHour(s) % 24
  {
  }

  /** The `k`-th window of a shift block, counted from 0, from the loop's date `c`. */
  lemma BlockWindow(c: Instant, s: Shift, slots: seq<Slot>, k: nat)
    requires k < |slots|
    ensures Block(c, s, slots)[k].startTime == match s
      case Morning => Instant(c.day, 8)
      case Afternoon => Instant(c.day + k, 16)
      case Night => Instant(c.day, 0)
    ensures Block(c, s, slots)[k].endTime == match s
      case Morning => Instant(c.day, 16)
      case Afternoon => Instant(c.day + k + 1, 0)
      case Night => Instant(c.day, 8)
  {
  }

  /**
   * The windows of loop day `i` (day `d` = today + i, `n` windows per shift):
   * every morning window is `d` 8:00-16:00; the `k`-th afternoon window is
   * `d + k` 16:00 to `d + k + 1` 0:00; every night window is `d + n`
   * 0:00-8:00.  Only the first afternoon and no night window fall on `d`
   * itself once `n > 1`.
   */
  lemma DayWindows(today: Instant, i: nat, slots: seq<Slot>, k: nat)
    requires k < |slots|
    ensures var day, d, n := Day(DayStart(today, i), slots), today.day + i, |slots|;
      && day[k].shiftType == "morning" && day[k].startTime == Instant(d, 8) && day[k].endTime == Instant(d, 16)
      && day[n + k].shiftType == "afternoon"
      && day[n + k].startTime == Instant(d + k, 16) && day[n + k].endTime == Instant(d + k + 1, 0)
      && day[n + n + k].shiftType == "night"
      && day[n + n + k].startTime == Instant(d + n, 0) && day[n + n + k].endTime == Instant(d + n, 8)
  {
    var start, n := DayStart(today, i), |slots|;
    var m := LoopDate(start, Morning, n);
    var a := LoopDate(m, Afternoon, n);
    var mornings, afternoons, nights := Block(start, Morning, slots), Block(m, Afternoon, slots), Block(a, Night, slots);
    var day := Day(start, slots);
    assert day == mornings + afternoons + nights;
    BlockWindow(start, Morning, slots, k);
    BlockWindow(m, Afternoon, slots, k);
    BlockWindow(a, Night, slots, k);
    assert day[k] == mornings[k];
    assert day[n + k] == afternoons[k];
    assert day[n + n + k] == nights[k];
  }

  /** Facts every inserted record satisfies. */
  ghost predicate Scheduled(x: InsertShiftAssignment, workers: seq<Id>, areaIds: seq<Id>) {
    && x.status == Some("scheduled")
    && x.employeeId in workers
    && x.productionAreaId in areaIds
    && x.shiftType in ["morning", "afternoon", "night"]
    && Elapsed(x.endTime) - Elapsed(x.startTime) == 8
  }

  lemma {:induction false} SlotsFrom(areaIds: seq<Id>, workers: seq<Id>, k: nat)
    requires k < |Slots(areaIds, workers)|
    ensures Slots(areaIds, workers)[k].areaId in areaIds
    ensures Slots(areaIds, workers)[k].employeeId in workers
  {
    var init := areaIds[..|areaIds| - 1];
    var slots := Slots(areaIds, workers);
    assert slots == Slots(init, workers) + Row(areaIds[|areaIds| - 1], workers);
    if k < |Slots(init, workers)| {
      SlotsFrom(init, workers, k);
      assert slots[k] == Slots(init, workers)[k];
    } else {
      assert slots[k] == Row(areaIds[|areaIds| - 1], workers)[k - |Slots(init, workers)|];
    }
  }

  lemma BlockScheduled(c: Instant, s: Shift, areaIds: seq<Id>, workers: seq<Id>, k: nat)
    requires k < |Slots(areaIds, workers)|
    ensures Scheduled(Block(c, s, Slots(areaIds, workers))[k], workers, areaIds)
  {
    var slots := Slots(areaIds, workers);
    SlotsFrom(areaIds, workers, k);
    WindowIsEightHours(LoopDate(c, s, k), s, slots[k]);
  }

  lemma DayScheduled(dayStart: Instant, areaIds: seq<Id>, workers: seq<Id>, k: nat)
    requires k < |Day(dayStart, Slots(areaIds, workers))|
    ensures Scheduled(Day(dayStart, Slots(areaIds, workers))[k], workers, areaIds)
  {
    var slots := Slots(areaIds, workers);
    var n := |slots|;
    var m := LoopDate(dayStart, Morning, n);
    var a := LoopDate(m, Afternoon, n);
    var mornings, afternoons, nights := Block(dayStart, Morning, slots), Block(m, Afternoon, slots), Block(a, Night, slots);
    assert Day(dayStart, slots) == mornings + afternoons + nights;
    if k < n {
      BlockScheduled(dayStart, Morning, areaIds, workers, k);
      assert Day(dayStart, slots)[k] == mornings[k];
    } else if k < n + n {
      BlockScheduled(m, Afternoon, areaIds, workers, k - n);
      assert Day(dayStart, slots)[k] == afternoons[k - n];
    } else {
      BlockScheduled(a, Night, areaIds, workers, k - n - n);
      assert Day(dayStart, slots)[k] == nights[k - n - n];
    }
  }

  lemma {:induction false} DaysScheduled(today: Instant, i: nat, areaIds: seq<Id>, workers: seq<Id>, k: nat)
    requires k < |DaysPrefix(today, i, Slots(areaIds, workers))|
    ensures Scheduled(DaysPrefix(today, i, Slots(areaIds, workers))[k], workers, areaIds)
  {
    var slots := Slots(areaIds, workers);
    var before := DaysPrefix(today, i - 1, slots);
    var day := Day(DayStart(today, i - 1), slots);
    assert DaysPrefix(today, i, slots) == before + day;
    if k < |before| {
      DaysScheduled(today, i - 1, areaIds, workers, k);
    } else {
      DayScheduled(DayStart(today, i - 1), areaIds, workers, k - |before|);
    }
  }

  /**
   * Every inserted record is "scheduled", names one of the first two
   * employees and one of the areas, and spans eight hours.
   */
  lemma ScheduleRecords(today: Instant, employees: seq<Employee>, areas: seq<ProductionArea>, k: nat)
    requires k < |Schedule(today, employees, areas)|
    ensures Scheduled(Schedule(today, employees, areas)[k], WorkerIds(employees), Ids(areas, AreaId))
  {
    DaysScheduled(today, PlannedDays, Ids(areas, AreaId), WorkerIds(employees), k);
  }

  /** Day `i`'s records sit at offset `i * 3n` of the first `days` days. */
  lemma {:induction false} DaysPrefixAt(today: Instant, days: nat, slots: seq<Slot>, i: nat, j: nat)
    requires i < days && j < 3 * |slots|
    ensures i * (3 * |slots|) + j < |DaysPrefix(today, days, slots)|
    ensures DaysPrefix(today, days, slots)[i * (3 * |slots|) + j] == Day(DayStart(today, i), slots)[j]
  {
    var n := 3 * |slots|;
    var before := DaysPrefix(today, days - 1, slots);
    var day := Day(DayStart(today, days - 1), slots);
    assert DaysPrefix(today, days, slots) == before + day;
    var at := i * n + j;
    if i < days - 1 {
      DaysPrefixAt(today, days - 1, slots, i, j);
    } else {
      DaysPrefixLength(today, days - 1, slots);
      assert at == |before| + j;
    }
  }
}
