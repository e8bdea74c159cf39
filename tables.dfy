/** The bodies of the two tables the export hands to the table library: the
    agenda of the minutes form and the attendance roster, with the
    participant's unit resolved through the reference data. */
module Tables {
  import opened Minutes

  /** A table cell as passed to the table library: a number or a text. */
  datatype Cell = Num(n: int) | Text(s: string)

  type Row = seq<Cell>

  const AgendaHeader: Row :=
    [Text("No"), Text("Pokok Bahasan"), Text("Keputusan"), Text("Tindakan"), Text("PIC"), Text("Monitoring")]

  const AttendanceHeader: Row :=
    [Text("No."), Text("NAMA"), Text("BAGIAN"), Text("PARAF")]

  /** The status ("paraf") column of the attendance table. */
  const StatusColumn: nat := 3

  /** Row of agenda item `item` at position `index`; rich text goes through
      the caller's markup stripper. */
  function AgendaRow(index: nat, item: AgendaItem, stripHtml: string -> string): (r: Row)
    ensures |r| == |AgendaHeader|
    ensures r[0] == Num(index + 1) && r[1] == Text(item.topic)
    ensures r[2] == Text(stripHtml(item.decision)) && r[3] == Text(stripHtml(item.action))
    ensures r[4] == Text(item.pic) && r[5] == Text(item.monitoring)
  {
    [Num(index + 1), Text(item.topic), Text(stripHtml(item.decision)), Text(stripHtml(item.action)),
     Text(item.pic), Text(item.monitoring)]
  }

  /** The single row shown when the minutes have no agenda items. */
  const PlaceholderRow: Row :=
    [Text("-"), Text("Tidak ada item pembahasan"), Text("-"), Text("-"), Text("-"), Text("-")]

  /** Builds the agenda body by pushing one row per item, in order. */
  method BuildAgendaRows(items: Option<seq<AgendaItem>>, stripHtml: string -> string) returns (rows: seq<Row>)
    ensures items.Some? && items.value != [] ==>
      |rows| == |items.value| &&
      forall i :: 0 <= i < |rows| ==> rows[i] == AgendaRow(i, items.value[i], stripHtml)
    ensures items.None? || items.value == [] ==> rows == [PlaceholderRow]
    ensures forall i :: 0 <= i < |rows| ==> |rows[i]| == |AgendaHeader|
  {
    rows := [];
    if items.Some? && |items.value| > 0 {
      var xs := items.value;
      var i := 0;
      while i < |xs|
        invariant 0 <= i <= |xs|
        invariant |rows| == i
        invariant forall k :: 0 <= k < i ==> rows[k] == AgendaRow(k, xs[k], stripHtml)
      {
        rows := rows + [AgendaRow(i, xs[i], stripHtml)];
        i := i + 1;
      }
    } else {
      rows := rows + [PlaceholderRow];
    }
  }

  /** The position of the element `find` returns: the first one satisfying `p`. */
  function FindIndex<T>(s: seq<T>, p: T -> bool): (r: Option<nat>)
    ensures r.Some? ==> r.value < |s| && p(s[r.value]) && forall j :: 0 <= j < r.value ==> !p(s[j])
    ensures r.None? ==> forall j :: 0 <= j < |s| ==> !p(s[j])
  {
    if |s| == 0 then None
    else if p(s[0]) then Some(0)
    else match FindIndex(s[1..], p)
      case None => None
      case Some(k) => Some(k + 1)
  }

  /** `i` is the first user whose id is the participant's `userId`. */
  ghost predicate FirstUser(users: seq<User>, userId: Option<string>, i: int) {
    0 <= i < |users| && Some(users[i].id) == userId &&
    forall k :: 0 <= k < i ==> Some(users[k].id) != userId
  }

  /** `j` is the first unit whose id is `unitId`. */
  ghost predicate FirstUnit(units: seq<Unit>, unitId: string, j: int) {
    0 <= j < |units| && units[j].id == unitId &&
    forall k :: 0 <= k < j ==> units[k].id != unitId
  }

  /** The unit shown for a participant: the denormalised name if there is
      one, else the name of the unit of the participant's user, else `-`. */
  function ResolveUnit(p: Participant, users: seq<User>, units: seq<Unit>): (r: string)
    ensures r != ""
    ensures Truthy(p.unitName) ==> r == p.unitName.value
  {
    var unitName :=
      if Truthy(p.unitName) then p.unitName
      else match FindIndex(users, (u: User) => Some(u.id) == p.userId)
        case None => p.unitName
        case Some(i) =>
          if !Truthy(users[i].unitId) then p.unitName
          else match FindIndex(units, (v: Unit) => Some(v.id) == users[i].unitId)
            case None => p.unitName
            case Some(j) => Some(units[j].name);
    OrDash(unitName)
  }

  /** Without a denormalised name, the unit comes from the first matching
      user and then the first matching unit. */
  lemma UnitThroughUser(p: Participant, users: seq<User>, units: seq<Unit>, i: int, j: int)
    requires !Truthy(p.unitName)
    requires FirstUser(users, p.userId, i) && Truthy(users[i].unitId)
    requires FirstUnit(units, users[i].unitId.value, j)
    ensures ResolveUnit(p, users, units) == (if units[j].name != "" then units[j].name else "-")
  {
  }

  /** No user, no unit id or no unit to resolve through gives `-`. */
  lemma UnitFallback(p: Participant, users: seq<User>, units: seq<Unit>)
    requires !Truthy(p.unitName)
    requires forall i :: FirstUser(users, p.userId, i) ==>
      !Truthy(users[i].unitId) || forall j :: 0 <= j < |units| ==> Some(units[j].id) != users[i].unitId
    ensures ResolveUnit(p, users, units) == "-"
  {
  }

  /** The status text: "Tidak Hadir" for an absent participant, empty
      (room for the signature) otherwise. */
  function ParafText(a: Attendance): (r: string)
    ensures r == "Tidak Hadir" <==> a == TidakHadir
    ensures r == "" <==> a.Hadir?
  {
    if a.TidakHadir? then "Tidak Hadir" else ""
  }

  /** One roster row: number, name, resolved unit and status text. */
  function ParticipantRow(index: nat, p: Participant, users: seq<User>, units: seq<Unit>): (r: Row)
    ensures |r| == |AttendanceHeader| && r[0] == Num(index + 1) && r[1] == Text(p.name)
    ensures r[2] == Text(ResolveUnit(p, users, units)) && r[2] != Text("")
    ensures r[StatusColumn] == Text(ParafText(p.attendance))
    ensures r[StatusColumn] == Text("Tidak Hadir") <==> p.attendance.TidakHadir?
    ensures r[StatusColumn] == Text("") <==> p.attendance.Hadir?
  {
    [Num(index + 1), Text(p.name), Text(ResolveUnit(p, users, units)), Text(ParafText(p.attendance))]
  }

  /** The attendance body: one four-cell row per participant, in order. */
  function AttendanceBody(ps: seq<Participant>, users: seq<User>, units: seq<Unit>): (r: seq<Row>)
    ensures |r| == |ps|
    ensures forall i :: 0 <= i < |r| ==> |r[i]| == |AttendanceHeader| && r[i][0] == Num(i + 1) && r[i][1] == Text(ps[i].name)
    ensures forall i :: 0 <= i < |r| ==> r[i][2] == Text(ResolveUnit(ps[i], users, units)) && r[i][2] != Text("")
    ensures forall i :: 0 <= i < |r| ==> r[i][StatusColumn] == Text(ParafText(ps[i].attendance))
    ensures forall i :: 0 <= i < |r| ==> (r[i][StatusColumn] == Text("Tidak Hadir") <==> ps[i].attendance.TidakHadir?)
    ensures forall i :: 0 <= i < |r| ==> (r[i][StatusColumn] == Text("") <==> ps[i].attendance.Hadir?)
  {
    seq(|ps|, i requires 0 <= i < |ps| => ParticipantRow(i, ps[i], users, units))
  }
}
