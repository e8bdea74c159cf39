/** The per-cell callbacks of the attendance table: the style hook run when
    a cell is parsed and the overlay hook run after a cell is drawn. Both
    look only at body cells of the status column. */
module CellHooks {
  import opened Minutes
  import opened Tables

  /** The part of the table a cell belongs to. */
  datatype Section = Head | Body | Foot

  datatype FontStyle = Normal | Bold | Italic

  datatype Rgb = Rgb(red: int, green: int, blue: int)

  datatype StyleOverride = StyleOverride(textColor: Rgb, fontStyle: FontStyle)

  /** An image drawn over a cell, in millimetres. */
  datatype Stamp = Stamp(image: string, x: real, y: real, width: real, height: real)

  const AbsentColor: Rgb := Rgb(220, 38, 38)

  /** The status column's fixed width and minimum row height. */
  const StatusCellWidth: real := 60.0
  const StatusMinCellHeight: real := 15.0

  /** Whether the table library asks about participant `row`'s status cell. */
  predicate IsStatusCell(section: Section, column: nat) {
    section == Body && column == StatusColumn
  }

  /** The style hook: absent participants' status text red and italic. */
  function StyleHook(ps: seq<Participant>, section: Section, row: nat, column: nat): (r: Option<StyleOverride>)
    requires IsStatusCell(section, column) ==> row < |ps|
    ensures r.Some? <==> IsStatusCell(section, column) && ps[row].attendance == TidakHadir
    ensures r.Some? ==> r.value == StyleOverride(AbsentColor, Italic)
  {
    if IsStatusCell(section, column) && ps[row].attendance == TidakHadir then
      Some(StyleOverride(AbsentColor, Italic))
    else None
  }

  /** The overlay hook: a present participant's signature stamped inside the
      status cell whose top-left corner is (`cellX`, `cellY`). */
  function OverlayHook(ps: seq<Participant>, section: Section, row: nat, column: nat, cellX: real, cellY: real): (r: Option<Stamp>)
    requires IsStatusCell(section, column) ==> row < |ps|
    ensures r.Some? <==> IsStatusCell(section, column) && Truthy(ps[row].signature) && ps[row].attendance == Hadir
    ensures r.Some? ==> r.value == Stamp(ps[row].signature.value, cellX + 10.0, cellY + 2.0, 25.0, 10.0)
    ensures r.Some? ==>
      cellX <= r.value.x && r.value.x + r.value.width <= cellX + StatusCellWidth &&
      cellY <= r.value.y && r.value.y + r.value.height <= cellY + StatusMinCellHeight
  {
    if IsStatusCell(section, column) && Truthy(ps[row].signature) && ps[row].attendance == Hadir then
      Some(Stamp(ps[row].signature.value, cellX + 10.0, cellY + 2.0, 25.0, 10.0))
    else None
  }

  /** A styled status cell is exactly one whose text reads "Tidak Hadir",
      and no such cell is ever stamped with a signature. */
  lemma StyledCellsAreAbsentRows(ps: seq<Participant>, users: seq<User>, units: seq<Unit>, i: nat, cellX: real, cellY: real)
    requires i < |ps|
    ensures StyleHook(ps, Body, i, StatusColumn).Some?
        <==> AttendanceBody(ps, users, units)[i][StatusColumn] == Text("Tidak Hadir")
    ensures StyleHook(ps, Body, i, StatusColumn).Some? ==> OverlayHook(ps, Body, i, StatusColumn, cellX, cellY).None?
    ensures OverlayHook(ps, Body, i, StatusColumn, cellX, cellY).Some?
        ==> AttendanceBody(ps, users, units)[i][StatusColumn] == Text("")
  {
  }

  /** In a whole table, the stamped status cells are exactly those of the
      present participants who have a signature. */
  lemma StampedRows(ps: seq<Participant>, cellX: real, cellY: real)
    ensures forall i :: 0 <= i < |ps| ==>
      (OverlayHook(ps, Body, i, StatusColumn, cellX, cellY).Some? <==> ps[i].attendance == Hadir && Truthy(ps[i].signature))
    ensures forall i, c :: 0 <= i < |ps| && c != StatusColumn ==>
      OverlayHook(ps, Body, i, c, cellX, cellY).None? && StyleHook(ps, Body, i, c).None?
  {
  }
}
