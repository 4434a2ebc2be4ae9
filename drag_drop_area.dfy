/**
 * One production area's drop target on the shift-assignment board: the
 * `isDragOver` flag its three drag handlers switch, the drop dispatch, and
 * the rules for its header, its drop zone and its shortfall message.
 *
 * `capacity` is an optional number: `None` is an absent prop and `Some(0)`
 * is the falsy 0, both of which JavaScript's `capacity || Infinity` treats
 * as "no limit".
 */
module DragDropAreaView {
  import opened Wrappers
  import opened Text

  /** `capacity` is present and not 0. */
  predicate HasCapacity(capacity: Option<int>) {
    capacity.Some? && capacity.value != 0
  }

  /** The `status` prop with its default. */
  function AreaStatus(status: Option<string>): (r: string)
    ensures status.None? ==> r == "available"
    ensures status.Some? ==> r == status.value
  {
    status.GetOr("available")
  }

  /** A drop made on the area: the callback the parent receives, with its arguments. */
  datatype Drop = Drop(employeeId: string, areaId: string)

  class DragDropArea {
    const areaId: string
    /** Whether the parent passed `onEmployeeDrop`. */
    const hasDropHandler: bool
    var isDragOver: bool

    constructor (areaId: string, hasDropHandler: bool)
      ensures this.areaId == areaId && this.hasDropHandler == hasDropHandler
      ensures !Highlighted()
    {
      this.areaId := areaId;
      this.hasDropHandler := hasDropHandler;
      isDragOver := false;
    }

    /** `handleDragOver`. */
    method DragOver()
      modifies this
      ensures Highlighted()
    {
      isDragOver := true;
    }

    /** `handleDragLeave`. */
    method DragLeave()
      modifies this
      ensures !Highlighted()
    {
      isDragOver := false;
    }

    /**
     * `handleDrop`: clears the highlight, then calls the parent once with the
     * dragged id and this area's id, when there is an id and a callback.
     */
    method HandleDrop(employeeId: string) returns (call: Option<Drop>)
      modifies this
      ensures !Highlighted()
      ensures call.Some? <==> employeeId != "" && hasDropHandler
      ensures call.Some? ==> call.value == Drop(employeeId, areaId)
    {
      isDragOver := false;
      if employeeId != "" && hasDropHandler {
        call := Some(Drop(employeeId, areaId));
      } else {
        call := None;
      }
    }

    /** The ring around the area and the highlighted drop zone both follow the flag. */
    predicate Highlighted()
      reads this
    {
      isDragOver
    }
  }

  /** `employees.length < (capacity || Infinity)`. */
  function ShowDropZone(count: nat, capacity: Option<int>): (r: bool)
    ensures !HasCapacity(capacity) ==> r
    ensures HasCapacity(capacity) ==> (r <==> count < capacity.value)
  {
    if HasCapacity(capacity) then count < capacity.value else true
  }

  /**
   * "Understaffed - Need k more": shown inside a shown drop zone when the
   * status is "understaffed" and the capacity is truthy; `k` is then at least 1.
   */
  function Shortfall(status: Option<string>, count: nat, capacity: Option<int>): (r: Option<int>)
    ensures r.Some? <==> ShowDropZone(count, capacity) && AreaStatus(status) == "understaffed" && HasCapacity(capacity)
    ensures r.Some? ==> r.value >= 1 && r.value + count == capacity.value
  {
    if ShowDropZone(count, capacity) && AreaStatus(status) == "understaffed" && HasCapacity(capacity)
    then Some(capacity.value - count)
    else None
  }

  /** A full or over-full area never asks for more staff. */
  lemma FullAreaNeedsNobody(status: Option<string>, count: nat, c: int)
    requires c != 0 && count >= c
    ensures !ShowDropZone(count, Some(c)) && Shortfall(status, count, Some(c)).None?
  {
  }

  /**
   * The header: the title, a space, then what `capacity && ...` renders:
   * nothing for an absent capacity, "0" for a zero one, "(n/capacity)" otherwise.
   */
  function Header(title: string, count: nat, capacity: Option<int>): (r: string)
    ensures |r| >= |title| + 1 && r[..|title| + 1] == title + " "
    ensures capacity.None? ==> r == title + " "
    ensures capacity == Some(0) ==> r == title + " 0"
    ensures HasCapacity(capacity) ==> |r| > |title| + 2 && r[|title| + 1] == '(' && r[|r| - 1] == ')'
    ensures HasCapacity(capacity) ==>
      Split(r[|title| + 2..|r| - 1], '/') == [NatToString(count), IntToString(capacity.value)]
  {
    match capacity
    case None => title + " "
    case Some(c) =>
      if c == 0 then title + " 0"
      else
        var n, m := NatToString(count), IntToString(c);
        var h := title + " " + "(" + n + "/" + m + ")";
        assert h[|title| + 2..|h| - 1] == n + "/" + m;
        FractionSplits(count, c);
        h
  }

  /** The fraction of the header splits at its one "/" into its two numerals. */
  lemma FractionSplits(count: nat, c: int)
    ensures Split(NatToString(count) + "/" + IntToString(c), '/') == [NatToString(count), IntToString(c)]
  {
    SplitAtSeparator(NatToString(count), '/', IntToString(c));
    SplitNoSeparator(IntToString(c), '/');
  }

  /** The status each employee card receives: "available" only in an available area. */
  function CardStatus(status: Option<string>): (r: string)
    ensures r == "available" <==> AreaStatus(status) == "available"
    ensures r == "available" || r == "active"
  {
    if AreaStatus(status) == "available" then "available" else "active"
  }

  /** Cards in an area without a status prop are shown as available. */
  lemma DefaultStatusAvailable()
    ensures CardStatus(None) == "available"
  {
  }
}
