/** The meeting record ("notulen") and the reference data the PDF export reads.
    Optional fields of the record are `Option`s; JavaScript truthiness of an
    optional string (present and not empty) is `Truthy`. */
module Minutes {

  datatype Option<+T> = None | Some(value: T)

  /** Attendance of a participant: HADIR (present) or TIDAK_HADIR (absent). */
  datatype Attendance = Hadir | TidakHadir

  /** One agenda row of the minutes; `decision` and `action` hold rich text (HTML). */
  datatype AgendaItem = AgendaItem(
    topic: string,
    decision: string,
    action: string,
    pic: string,
    monitoring: string)

  /** A participant. The unit is either denormalised (`unitName`) or reached
      through `userId` and the user's `unitId`. */
  datatype Participant = Participant(
    name: string,
    unitName: Option<string>,
    userId: Option<string>,
    attendance: Attendance,
    signature: Option<string>)

  /** An attachment; `filePath` is a data URL or a storage reference. */
  datatype Attachment = Attachment(fileName: string, filePath: string)

  datatype User = User(id: string, unitId: Option<string>)

  datatype Unit = Unit(id: string, name: string)

  /** A meeting record. `date` is the ISO date string the list compares;
      `participants` may be missing from a stored record. */
  datatype Minute = Minute(
    title: string,
    location: string,
    date: string,
    time: Option<string>,
    picName: Option<string>,
    picSignature: Option<string>,
    items: Option<seq<AgendaItem>>,
    participants: Option<seq<Participant>>,
    attachments: Option<seq<Attachment>>)

  /** JavaScript truthiness of an optional string. */
  predicate Truthy(s: Option<string>) {
    s.Some? && s.value != ""
  }

  /** The `s || '-'` fallback used for missing optional text. */
  function OrDash(s: Option<string>): (r: string)
    ensures r != ""
    ensures Truthy(s) ==> r == s.value
    ensures !Truthy(s) ==> r == "-"
  {
    if Truthy(s) then s.value else "-"
  }
}
