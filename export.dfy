/** The PDF export of one meeting record, after the reference data has been
    fetched: header geometry, the two table bodies, the cursor flow after
    the agenda table and the saved file name. What the table library does
    with the bodies (row splitting, header repetition, `finalY`) comes in as
    `agendaPages` and `agendaFinalY`; markup stripping and image embedding
    are the caller's `stripHtml` and `embeds`. A record without a
    participant list makes the roster step throw; the export then fails and
    no file is saved. */
module Export {
  import opened Minutes
  import opened Text
  import opened Tables
  import opened Header
  import opened Cursor

  datatype ExportResult = ExportResult(
    fileName: string,
    header: HeaderGeometry,
    agendaRows: seq<Row>,
    attendanceRows: seq<Row>,
    layout: Flow)

  /** What the export ends in: the saved document, or the failure alert. */
  datatype ExportOutcome = Saved(saved: ExportResult) | Failed

  method ExportPdf(
    minute: Minute, users: seq<User>, units: seq<Unit>, logo: Option<string>,
    titleLines: nat, agendaPages: nat, agendaFinalY: real,
    stripHtml: string -> string, embeds: string -> bool)
    returns (out: ExportOutcome)
    ensures out.Failed? <==> minute.participants.None?
    ensures out.Saved? ==> out.saved.fileName == FileName(minute.title)
    ensures out.Saved? ==> out.saved.header == HeaderLayout(Truthy(logo), titleLines)
    ensures out.Saved? && minute.items.Some? && minute.items.value != [] ==>
      |out.saved.agendaRows| == |minute.items.value| &&
      forall i :: 0 <= i < |out.saved.agendaRows| ==>
        out.saved.agendaRows[i] == AgendaRow(i, minute.items.value[i], stripHtml)
    ensures out.Saved? && (minute.items.None? || minute.items.value == []) ==>
      out.saved.agendaRows == [PlaceholderRow]
    ensures out.Saved? ==> out.saved.attendanceRows == AttendanceBody(minute.participants.value, users, units)
    ensures out.Saved? ==> out.saved.layout == AfterAgenda(agendaPages, agendaFinalY, minute.attachments, embeds)
    ensures out.Saved? ==> WellFormed(out.saved.layout) && out.saved.layout.pageCount > agendaPages
    ensures out.Saved? ==>
      out.saved.layout.log[|out.saved.layout.log| - 1].y == AttendanceTableStartY() as real
  {
    var header := HeaderLayout(Truthy(logo), titleLines);
    var agendaRows := BuildAgendaRows(minute.items, stripHtml);
    var cursor := new LayoutCursor(agendaPages, agendaFinalY);
    cursor.PlaceSignature();
    cursor.PlaceAttachments(minute.attachments, embeds);
    cursor.StartAttendanceForm();
    if minute.participants.None? {
      return Failed;
    }
    var attendanceRows := AttendanceBody(minute.participants.value, users, units);
    AfterAgendaWellFormed(agendaPages, agendaFinalY, minute.attachments, embeds);
    out := Saved(ExportResult(FileName(minute.title), header, agendaRows, attendanceRows, cursor.State()));
  }
}
