# ShiftGenius core, modelled in Dafny

ShiftGenius is a manufacturing shift-planning dashboard. This project models its core logic:

- the server's in-memory store `MemStorage`: five keyed tables (employees, production areas, shift assignments, production orders and alerts) with their get/create/update methods and the sample data loaded at start-up;
- the route handlers that compute something: the dashboard counters, per-employee utilisation, the week-long schedule generator, and the three PATCH handlers (employee, shift status, resolve alert);
- the client's list filters and counters on the alerts, employees and production-orders pages;
- two view rules: the drag-and-drop area (its `isDragOver` flag, the drop dispatch, the drop-zone, shortfall and header rules) and the employee card (initials, avatar colour, subtitle, skill badges).

Layout, one Dafny module per file:

| file | module | models |
|---|---|---|
| wrappers.dfy | `Wrappers` | `Option` |
| seqs.dfy | `Seqs` | order-preserving filter, counting and sums, with their laws |
| text.dfy | `Text` | ASCII case mapping, `includes`, `replace` of the first occurrence, `split`/`join`, number formatting |
| tables.dfy | `Tables` | a JavaScript `Map` keyed by id: insertion-ordered keys, `get`, `set`, `values()` |
| schema.dfy | `Schema` | the five record types, their insert and partial-update shapes, the defaults each `create*` fills in, and `{ ...old, ...data }` |
| storage.dfy | `Storage` | class `MemStorage`, the tables updated in place |
| schedule.dfy | `Scheduling` | the specification of the schedule generator: which records, in which order, with which times |
| routes.dfy | `Routes` | the handlers, as methods over a `MemStorage` |
| alerts_page.dfy, employees_page.dfy, orders_page.dfy | `AlertsPage`, `EmployeesPage`, `OrdersPage` | the pages' filters, fallbacks, counters and labels |
| drag_drop_area.dfy | `DragDropAreaView` | class `DragDropArea` and its pure rules |
| employee_card.dfy | `EmployeeCard` | the card's derived text and colour |

Modelling choices:

- Identifiers are natural numbers drawn from a counter `nextId` that is larger than every key in use. This stands for `randomUUID`: each create gets a key that is not already present.
- A point in time is `Instant(day, hour)`. `setHours(h)` keeps the day and sets the hour; an `h` past 23 rolls into the next day, as JavaScript's `Date` does.
- The schedule generator keeps the source's mutation of `shiftDate`. Each record's `shiftDate` is the loop's date as it stood. The two `setHours` calls then move that date on, and the next record starts from there. As a result:
  - a morning window is always 8:00–16:00 of the day;
  - a night window is 0:00–8:00 of the day, but on the day after the afternoon windows have moved the date;
  - the `k`-th afternoon window of a day starts `k` days after that day.

  `Scheduling.DayWindows` states this exactly. Every window still spans 8 hours (`Scheduling.WindowIsEightHours`).
- Optional values use `Option`. A partial-update field is `None` when the key is absent and `Some(v)` when it is present. On a nullable field, `Some(None)` is an explicit `null`. On the status of a shift-assignment patch, `Some(None)` is a key that is present with the value `undefined`: the status route sends `{ status }` even when the request has no status.
- JavaScript truthiness of an optional string (`x || fallback`) is `Schema.Truthy`: present and not empty.
- Client data that may be missing (`alerts`, `orders`) is an `Option<seq<…>>`. The employees response is `EmployeesPage.EmployeesData`, which has three cases: absent, a body that is not an array, or an array. The third case exists because the API client returns the parsed body unchecked (client/src/lib/api.ts:10), so a failed request hands the page its `{ error }` object.
- On the drag-and-drop area, a capacity of `Some(0)` is the falsy zero.

## Model

| member | source | states |
|---|---|---|
| Tables.SetNew | server/storage.ts:116 | `Map.set` on a new key appends exactly one value at the end of `values()`; `get` of that key returns it and every other key reads as before |
| Tables.SetExisting | server/storage.ts:125 | `Map.set` on a present key keeps every key in place and replaces exactly the value at that key's position |
| Schema.NewEmployee | server/storage.ts:108-118 | the stored employee has the fresh id and creation time, keeps the given fields, always has a skills array (`[]` when absent), and is active only when `isActive` was `true` |
| Schema.NewProductionArea | server/storage.ts:138-151 | a falsy status becomes "operational", a falsy efficiency "0.00", a missing currentStaff 0, a falsy description `null`; name and capacity are kept |
| Schema.NewShiftAssignment | server/storage.ts:158-167 | every field is kept, and a falsy status becomes "assigned" |
| Schema.NewProductionOrder | server/storage.ts:183-195 | a falsy status becomes "pending" and a falsy priority "medium"; number, product and quantity are kept |
| Schema.NewProductionAlert | server/storage.ts:211-222 | the alert is unresolved unless `isResolved` was `true`; type, title, message and area id are kept |
| Schema.Employee.Merge | server/storage.ts:124 | `{ ...employee, ...data }` never changes the id or the creation time |
| Schema.EmployeeMergeLaws | server/storage.ts:124 | an empty partial changes nothing, and merging the same partial twice is merging it once |
| Schema.ShiftAssignment.Merge | server/storage.ts:173 | a merged assignment keeps its id |
| Schema.ProductionOrder.Merge | server/storage.ts:201 | a merged order keeps its id and creation time |
| Schema.OrderMergeLaws | server/storage.ts:201 | an empty partial changes nothing, and merging twice is merging once |
| Schema.ProductionAlert.Merge | server/storage.ts:228 | a merged alert keeps its id and creation time |
| Schema.StatusPatchOnlyStatus | server/routes.ts:144-145 | the `{ status }` partial changes the status field and nothing else |
| Schema.ResolveOnlyFlag | server/routes.ts:272 | the `{ isResolved: true }` partial sets the flag and leaves every other field alone |
| Storage.SeededEmployees | server/storage.ts:66-74 | the seeded employees are numbered consecutively from the first id, one per sample, in sample order |
| Storage.SeededAreas | server/storage.ts:77-85 | the seeded areas are numbered consecutively, one per sample, in sample order |
| Storage.SeededAlerts | server/storage.ts:88-96 | the seeded alerts are numbered consecutively, one per sample, in sample order |
| Storage.MemStorage.constructor | server/storage.ts:53-97 | once the seeding has run, a new store holds exactly the three sample employees, the three sample areas and the three sample alerts, and no orders or shift assignments |
| Storage.MemStorage.InitializeSampleData | server/storage.ts:64-97 | the employees, then the areas, then the alerts are appended, nine ids in all; the other two tables are untouched |
| Storage.MemStorage.SeedEmployees | server/storage.ts:72-74 | the loop appends one created employee per sample, in order, and changes no other table |
| Storage.MemStorage.SeedAreas | server/storage.ts:83-85 | the loop appends one created area per sample, in order, and changes no other table |
| Storage.MemStorage.SeedAlerts | server/storage.ts:94-96 | the loop appends one created alert per sample, in order, and changes no other table |
| Storage.MemStorage.GetEmployees | server/storage.ts:100-102 | returns exactly the table's values, in insertion order |
| Storage.MemStorage.GetEmployee | server/storage.ts:104-106 | finds a record iff its id is a key, and the record found carries that id |
| Storage.MemStorage.CreateEmployee | server/storage.ts:108-118 | stores the new employee under a fresh id; the table grows by exactly that record at the end, a get by the id returns it, and nothing else changes |
| Storage.MemStorage.UpdateEmployee | server/storage.ts:120-127 | a missing id returns nothing and leaves the store unchanged; a present id stores the merge under the same key and at the same position, returns it, and leaves every other key alone |
| Storage.MemStorage.GetProductionAreas | server/storage.ts:130-132 | returns exactly the table's values |
| Storage.MemStorage.GetProductionArea | server/storage.ts:134-136 | finds a record iff its id is a key |
| Storage.MemStorage.CreateProductionArea | server/storage.ts:138-151 | stores the defaulted area under a fresh id, appended at the end; nothing else changes |
| Storage.MemStorage.GetShiftAssignments | server/storage.ts:154-156 | returns exactly the table's values |
| Storage.MemStorage.CreateShiftAssignment | server/storage.ts:158-167 | stores the defaulted assignment under a fresh id, appended at the end; nothing else changes |
| Storage.MemStorage.UpdateShiftAssignment | server/storage.ts:169-176 | a miss changes nothing; a hit replaces exactly that record, in place, by the merge |
| Storage.MemStorage.GetProductionOrders | server/storage.ts:179-181 | returns exactly the table's values |
| Storage.MemStorage.CreateProductionOrder | server/storage.ts:183-195 | stores the defaulted order under a fresh id, appended at the end; nothing else changes |
| Storage.MemStorage.UpdateProductionOrder | server/storage.ts:197-204 | a miss changes nothing; a hit replaces exactly that record, in place, by the merge |
| Storage.MemStorage.GetAlerts | server/storage.ts:207-209 | returns exactly the table's values |
| Storage.MemStorage.CreateAlert | server/storage.ts:211-222 | stores the defaulted alert under a fresh id, appended at the end; nothing else changes |
| Storage.MemStorage.UpdateAlert | server/storage.ts:224-231 | a miss changes nothing; a hit replaces exactly that record, in place, by the merge |
| Routes.Stats | server/routes.ts:30-38 | the area count is the number of areas; each counter is at most its list's length; all employees are counted iff all are active; no active order iff none is "in_progress"; no critical alert iff every alert is non-critical or resolved; no areas gives zero capacity and staff |
| Routes.GetDashboardStats | server/routes.ts:23-44 | the handler's counters are those of exactly what the four getters return |
| Routes.StatsAfterNewEmployee | server/routes.ts:31 | one more employee raises the active count by one exactly when that employee is active |
| Routes.StatsAfterNewArea | server/routes.ts:32-37 | one more area adds one to the area count and its capacity and staff to the sums, and leaves the other counters alone |
| Routes.StatsAfterNewOrder | server/routes.ts:33 | one more order raises the active-order count by one exactly when it is "in_progress" |
| Routes.StatsAfterResolve | server/routes.ts:34 | resolving alert `i` lowers the critical count by one exactly when it was an open critical alert, and changes nothing else |
| Routes.UtilizationOf | server/routes.ts:84-93 | an entry carries the employee's id and "first last"; utilisation lies in 0..100 and is 100 iff the employee has at least 5 assignments; hours are 8 per assignment |
| Routes.Utilization | server/routes.ts:84-93 | one entry per employee, in the same order |
| Routes.GetUtilization | server/routes.ts:79-99 | the handler's entries are computed from exactly what the getters return |
| Routes.UtilizationAfterAssign | server/routes.ts:85-90 | one more assignment adds 8 hours to its own employee only, leaves everyone else's entry unchanged, and lowers nobody's utilisation |
| Routes.StoredAppend | server/storage.ts:158-167 | storing two batches one after the other numbers the second batch after the first |
| Routes.GeneratedAssignments | server/routes.ts:177-200 | every generated record has its own consecutive id, status "scheduled", one of the first two employees, one of the areas, one of the three shift types, and an 8-hour window |
| Routes.GenerateSchedule | server/routes.ts:166-218 | the store gains exactly the records of the schedule specification, in order and numbered consecutively, and no other table changes; the response reports their count and previews the first min(10, count) |
| Routes.ScheduleWeek | server/routes.ts:177-200 | the day loop appends the seven days' records, in order |
| Routes.ScheduleDay | server/routes.ts:181-199 | the shift loop appends one day's morning, afternoon and night blocks, in order |
| Routes.ScheduleShift | server/routes.ts:182-198 | the area loop appends one block per area and leaves the date where the last window put it |
| Routes.ScheduleArea | server/routes.ts:184-197 | the employee loop stores one record per team member, each at the date as it stood, then moved by the two `setHours` calls |
| Routes.WeekLoopStep | server/routes.ts:177-179 | one pass of the day loop extends the records by exactly that day's |
| Routes.DayLoopStep | server/routes.ts:181 | one pass of the shift loop extends the records by that shift's block, and the date carries over to the next shift |
| Routes.ShiftLoopStep | server/routes.ts:182 | one pass of the area loop extends the block by that area's row, and the date carries over |
| Routes.AreaLoopStep | server/routes.ts:186-196 | one pass of the employee loop stores the next record of the area's block |
| Routes.PatchEmployee | server/routes.ts:66-77 | a missing id answers 404 "Employee not found" and changes nothing; otherwise the answer is the merged employee, stored under the same id and in the same position of the listing, with the key order, every other employee, every other table and the id counter unchanged |
| Routes.PatchShiftStatus | server/routes.ts:141-153 | a missing id answers 404 "Shift assignment not found" and changes nothing; otherwise only the status field of that one assignment changes, in place, and the id counter is unchanged |
| Routes.ResolveAlert | server/routes.ts:269-280 | a missing id answers 404 "Alert not found" and changes nothing; otherwise only that alert's `isResolved` becomes true, the id counter is unchanged, and the dashboard's critical count drops by one exactly when the alert was an open critical one |
| Scheduling.SetHours | server/routes.ts:191-192 | the hour lands in 0..23, and the hours since day 0 are the day's start plus the requested hour |
| Scheduling.LoopDateStep | server/routes.ts:191-192 | the closed form of the loop's date moves exactly as the two `setHours` calls move it |
| Scheduling.DateAfterIsLoopDate | server/routes.ts:191-192 | iterating the two `setHours` calls `n` times gives the closed form |
| Scheduling.Team | server/routes.ts:184 | the team is the first min(2, n) employees, in order |
| Scheduling.SlotsLength | server/routes.ts:182-186 | one shift has exactly (areas × team size) slots |
| Scheduling.Day | server/routes.ts:181-199 | one day holds three blocks, each as long as the shift's slots |
| Scheduling.BlockAppend | server/routes.ts:182-198 | a block over two runs of slots is the first block, then the second starting from the date the first left |
| Scheduling.DayPrefixStep | server/routes.ts:181 | each shift of a day appends its block from the date the previous shift left |
| Scheduling.DaysPrefixLength | server/routes.ts:177-200 | `i` days hold `i` times three times the slots |
| Scheduling.ScheduleSize | server/routes.ts:177-200 | the generator inserts exactly 7 × 3 × areas × min(2, employees) records |
| Scheduling.WindowIsEightHours | server/routes.ts:191-192 | every window starts at its shift's start hour, ends at its end hour (24 read as 0), and spans 8 hours |
| Scheduling.BlockWindow | server/routes.ts:191-192 | the `k`-th window of a block: mornings 8–16 of the date, afternoons from 16 of the date plus `k` days to the next midnight, nights 0–8 |
| Scheduling.DayWindows | server/routes.ts:178-199 | on day `d`: every morning window is `d` 8–16, the `k`-th afternoon runs from `d + k` 16:00 to `d + k + 1` 0:00, and every night is `d + n` 0–8 |
| Scheduling.ScheduleRecords | server/routes.ts:187-195 | every scheduled record names a team member and an area, is "scheduled", and spans 8 hours |
| Scheduling.DaysPrefixAt | server/routes.ts:177-179 | day `i`'s records sit, in order, at offset `i` × the day's length |
| AlertsPage.DisplayAlerts | client/src/pages/alerts.tsx:50-98 | present API data is shown as is, even when empty; otherwise exactly the five samples, four of them unresolved and one an open critical alert |
| AlertsPage.SampleCounts | client/src/pages/alerts.tsx:50-96 | the samples hold four unresolved alerts, one of them critical |
| AlertsPage.FilteredAlerts | client/src/pages/alerts.tsx:100-109 | an order-preserving sub-list of the shown alerts, holding an alert iff it passes the search, type and status filters, and holding every copy of a passing alert |
| AlertsPage.EmptySearchMatches | client/src/pages/alerts.tsx:101-102 | an empty search term matches every alert |
| AlertsPage.NoFilterKeepsAll | client/src/pages/alerts.tsx:100-109 | with no term and both filters at "all", every shown alert is listed |
| AlertsPage.UnknownStatusKeepsNone | client/src/pages/alerts.tsx:104-106 | a status filter other than "all", "resolved" and "unresolved" lists nothing |
| AlertsPage.TypeAndStatusExact | client/src/pages/alerts.tsx:103-106 | a type other than "all" keeps exactly the alerts of that type; "resolved" keeps exactly the resolved ones and "unresolved" exactly the others |
| AlertsPage.SearchIgnoresCase | client/src/pages/alerts.tsx:101-102 | searching for a term or for its lowercase form gives the same result |
| AlertsPage.Counters | client/src/pages/alerts.tsx:135-218 | the total is the number of shown alerts, the unresolved card the number of unresolved ones and the critical card the number of open critical ones; critical ≤ unresolved ≤ total; the notification badge equals the unresolved count; each count is 0 iff no shown alert qualifies |
| AlertsPage.CountersAfterOneMore | client/src/pages/alerts.tsx:135-218 | one more shown alert adds one to the total, one to the unresolved card and the badge exactly when it is open, and one to the critical card exactly when it is open and critical |
| AlertsPage.EmptyMessage | client/src/pages/alerts.tsx:334-337 | "No alerts match your filters" iff a search term or a filter other than "all" is set, otherwise "No alerts found" |
| AlertsPage.NothingMeansEmpty | client/src/pages/alerts.tsx:330-337 | "No alerts found" appears only when there are no shown alerts at all |
| EmployeesPage.FilteredEmployees | client/src/pages/employees.tsx:18-21 | data that is not an array (absent or an error body) lists nobody; otherwise an order-preserving sub-list holding an employee iff "first last" or some skill contains the term, ignoring case, and holding every copy of a matching employee |
| EmployeesPage.EmptySearchKeepsAll | client/src/pages/employees.tsx:19 | an empty search lists every employee |
| EmployeesPage.SkillHitKeeps | client/src/pages/employees.tsx:20 | a skill containing the term keeps its employee, whatever the name |
| EmployeesPage.NoSkillsNameOnly | client/src/pages/employees.tsx:20 | an employee without a skills array is found by name only |
| EmployeesPage.TotalCard | client/src/pages/employees.tsx:68 | the employee count, or 156 when the data is absent, an error body without `length`, or an empty array |
| EmployeesPage.ActiveCard | client/src/pages/employees.tsx:84 | an error: the page does not render, exactly when the data is a non-array body, whose missing `filter` throws; otherwise the active count (at most the total), or 142 when the data is absent or nobody is active |
| EmployeesPage.ActiveWithinTotal | client/src/pages/employees.tsx:68-84 | with real active employees, the active card never exceeds the total card |
| EmployeesPage.FallbacksIndependent | client/src/pages/employees.tsx:68-84 | the two fallbacks are chosen separately: one inactive employee shows a total of 1 and 142 active |
| EmployeesPage.WorkingTimeLabel | client/src/pages/employees.tsx:157 | "Full Time" when the model is absent or empty; otherwise the model with only its first "_" turned into a space |
| EmployeesPage.WorkingTimeWords | client/src/pages/employees.tsx:157 | a model `x_y` with no "_" in `x` reads `x y`, and later underscores stay |
| OrdersPage.FilteredOrders | client/src/pages/production-orders.tsx:21-24 | nothing while the orders are absent; otherwise an order-preserving sub-list holding an order iff its number or product name contains the term, ignoring case, and holding every copy of a matching order |
| OrdersPage.EmptySearchKeepsAll | client/src/pages/production-orders.tsx:21-24 | an empty search lists every order |
| OrdersPage.DisplayOrders | client/src/pages/production-orders.tsx:80 | the hits when there are any, otherwise the three samples; never empty |
| OrdersPage.NoHitsShowSamples | client/src/pages/production-orders.tsx:21-80 | absent orders, or a search no order matches, shows the samples |
| OrdersPage.Cards | client/src/pages/production-orders.tsx:121-153 | the total is the real order count, falling back to the shown count when the orders are absent or empty; the in-progress and critical cards are the numbers of shown orders with status "in_progress" and priority "critical", and are 0 iff no shown order qualifies |
| OrdersPage.CardsAfterOneMore | client/src/pages/production-orders.tsx:137-153 | one more shown order raises the in-progress card by one exactly when it is in progress, and the critical card by one exactly when it is critical |
| OrdersPage.SampleCards | client/src/pages/production-orders.tsx:47-78 | over the samples the cards read 3, 1 and 1 |
| OrdersPage.MissedSearchMixesCards | client/src/pages/production-orders.tsx:121-153 | with orders present but no hit, the total counts the real orders while the other two cards count the samples |
| OrdersPage.PriorityColor | client/src/pages/production-orders.tsx:26-34 | the three named priorities get their own classes; every other value, "low" included, is grey |
| OrdersPage.StatusColor | client/src/pages/production-orders.tsx:36-44 | the four named statuses get their own classes; the result is grey iff the status is unknown |
| OrdersPage.StatusLabel | client/src/pages/production-orders.tsx:228 | same length as the status; only the first "_" becomes a space |
| OrdersPage.StatusLabelWords | client/src/pages/production-orders.tsx:228 | a status `x_y` with no "_" in `x` reads `x y` |
| DragDropAreaView.AreaStatus | client/src/components/shift-assignment/drag-drop-area.tsx:32 | the status prop, "available" when absent |
| DragDropAreaView.DragDropArea.constructor | client/src/components/shift-assignment/drag-drop-area.tsx:36 | a new area starts without the drag highlight |
| DragDropAreaView.DragDropArea.DragOver | client/src/components/shift-assignment/drag-drop-area.tsx:38-41 | dragging over sets the highlight |
| DragDropAreaView.DragDropArea.DragLeave | client/src/components/shift-assignment/drag-drop-area.tsx:43-45 | leaving clears the highlight |
| DragDropAreaView.DragDropArea.HandleDrop | client/src/components/shift-assignment/drag-drop-area.tsx:47-55 | a drop clears the highlight and calls the parent once, with the dragged id and this area's id, iff the id is non-empty and a callback is given |
| DragDropAreaView.ShowDropZone | client/src/components/shift-assignment/drag-drop-area.tsx:96 | shown iff the employee count is below the capacity; an absent or 0 capacity is unbounded |
| DragDropAreaView.Shortfall | client/src/components/shift-assignment/drag-drop-area.tsx:105-107 | "Need k more" appears iff the drop zone shows, the status is "understaffed" and the capacity is truthy; then k ≥ 1 and k plus the count is the capacity |
| DragDropAreaView.FullAreaNeedsNobody | client/src/components/shift-assignment/drag-drop-area.tsx:96-107 | a full or over-full area shows neither a drop zone nor a shortfall |
| DragDropAreaView.Header | client/src/components/shift-assignment/drag-drop-area.tsx:78 | the title and a space, then nothing for an absent capacity, "0" for a zero one, and otherwise a parenthesised text that splits at "/" into exactly the count's and the capacity's numerals |
| DragDropAreaView.FractionSplits | client/src/components/shift-assignment/drag-drop-area.tsx:78 | the "count/capacity" text splits at its "/" into the two numerals, since neither numeral holds a "/" |
| DragDropAreaView.CardStatus | client/src/components/shift-assignment/drag-drop-area.tsx:88 | each card is "available" iff the area is "available", and "active" otherwise |
| DragDropAreaView.DefaultStatusAvailable | client/src/components/shift-assignment/drag-drop-area.tsx:32-88 | cards in an area without a status prop are shown as available |
| EmployeeCard.FirstChars | client/src/components/ui/employee-card.tsx:25 | at most one character per part |
| EmployeeCard.Initials | client/src/components/ui/employee-card.tsx:25 | no more initials than " "-separated parts, and none of them is a lowercase letter |
| EmployeeCard.FirstCharsOfWords | client/src/components/ui/employee-card.tsx:25 | over non-empty parts, exactly one first character per part, in order |
| EmployeeCard.FirstCharsSkipsEmpty | client/src/components/ui/employee-card.tsx:25 | an empty part contributes nothing: the first characters of all parts are those of the non-empty parts |
| EmployeeCard.InitialsOfAnyName | client/src/components/ui/employee-card.tsx:25 | for every name, the initials are the uppercased first characters of its non-empty " "-separated parts, in order |
| EmployeeCard.NameInitials | client/src/components/ui/employee-card.tsx:25 | a name of words separated by single spaces gets exactly its words' first characters, uppercased |
| EmployeeCard.ColorIndex | client/src/components/ui/employee-card.tsx:36 | defined iff the id is non-empty, and then the first character's code modulo the number of colours |
| EmployeeCard.AvatarColor | client/src/components/ui/employee-card.tsx:27-37 | every non-empty id gets the colour at its colour index, one of the six |
| EmployeeCard.ColorsCycle | client/src/components/ui/employee-card.tsx:36-37 | ids whose first characters have consecutive codes take consecutive colours, wrapping after the sixth |
| EmployeeCard.ColorByFirstChar | client/src/components/ui/employee-card.tsx:36-37 | the colour depends only on the id's first character |
| EmployeeCard.Subtitle | client/src/components/ui/employee-card.tsx:60 | the role when truthy, otherwise the skills joined by ", " |
| EmployeeCard.SubtitleListsSkills | client/src/components/ui/employee-card.tsx:60 | without a role, every skill can be found in the subtitle |
| EmployeeCard.Badges | client/src/components/ui/employee-card.tsx:72-84 | no badges with a role or without skills; otherwise the first min(2, n) skills, plus a "+k more" badge iff n > 2, where shown plus k is n |
| EmployeeCard.MoreLabel | client/src/components/ui/employee-card.tsx:81 | the badge reads "+", then k in decimal, then " more" |
| EmployeeCard.ShowsActive | client/src/components/ui/employee-card.tsx:19-69 | the "Active" badge appears iff the status is "active"; the default status "available" never shows it |

## Left out

- The HTTP layer is not modelled: Express wiring, status codes other than the 404 rule, JSON serialisation, and the try/catch mapping to 400/500. Handlers return a `Response` value instead.
- The health, export, process-steps and plain list/create endpoints are left out. They only forward a store call, or return constants.
- Body validation is not modelled. The zod/drizzle schemas belong to a foreign library, so bodies arrive already shaped as the insert or partial-update records. Extra keys in a raw PATCH body are not modelled. PATCH /api/employees/:id spreads the raw `req.body` over the stored record (server/routes.ts:69, server/storage.ts:124), so a body that carries `id` or `createdAt` overwrites those fields. `Schema.Employee.Merge`'s guarantee that the id and the creation time never change holds only for bodies of the partial-update shape.
- `randomUUID` is replaced by the `nextId` counter. Ids are natural numbers, so an empty-string id cannot occur.
- Clock readings are not modelled. `createdAt` and the generator's `today` are parameters, and the response's `generatedAt` is left out.
- Minutes, seconds, time zones, DST, month lengths and locale date formatting are not modelled. Times are whole hours on numbered days.
- Routes.Stats: the average efficiency is left out. It is a floating-point division that is NaN when there are no areas.
- Routes.UtilizationOf: the random efficiency is left out.
- Async and promises are not modelled. Each request handler awaits its storage calls in turn, so its methods run them one after another as ordinary calls. Interleaving between concurrent requests is not modelled.
- Storage.MemStorage.constructor: states the store once the seeding has finished. The source's constructor starts `initializeSampleData` without awaiting it, and that method awaits each create (server/storage.ts:61, 73, 84, 95). So when `new MemStorage()` returns, only the first sample employee is stored, and the rest arrive on later microtask turns, before any request is served.
- Case mapping covers ASCII letters only. JavaScript's full Unicode `toLowerCase`/`toUpperCase` is not modelled.
- EmployeeCard.ColorIndex uses the first character's code. `charCodeAt` on a character outside the Basic Multilingual Plane would give its high surrogate; Dafny characters are whole code points.
- EmployeeCard.FirstChars and EmployeeCard.Initials take a whole character as a word's first character. In the source, `n[0]` indexes UTF-16 code units, so a word starting outside the Basic Multilingual Plane contributes a lone high surrogate.
- React is not modelled: rendering, react-query loading states (the "..." placeholders), toasts, icons and CSS classes other than the colour rules.
- On the alerts page, the resolve mutation, `getTypeColor` and the type icons are not modelled. The "Resolved Today" counter depends on the clock.
- On the orders page, `dueDate`/`createdAt` and the "Completed Today" counter depend on the clock and are not modelled.
- The employees page's empty-list messages and its static sample directory are not modelled.
- Only the rules of the drag-and-drop area and the employee card are modelled. The drag start/end handlers that set the transfer data and the opacity are left out.
- The other pages, the hooks, the API client, the layout components and the PHP entry point are not part of this model.
