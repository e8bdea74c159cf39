# Meeting-minutes PDF export — a Dafny model

This project models the PDF export of the meeting-minutes client (`handleDownloadPDF` in
`components/MinuteList.tsx`) and the list helpers around it. The export turns a meeting
record ("notulen") into a landscape A4 document with two forms:

- the minutes form: header, metadata block, agenda table, signature block and attachments;
- the attendance form ("daftar hadir") on a page of its own: header, metadata block and the
  participant table, whose status ("paraf") cell is styled or stamped with a signature.

The drawing library and the table library are foreign code. The model keeps the decisions the
export makes around them:

- the table bodies it hands over;
- the per-cell hooks;
- the header geometry;
- the vertical layout cursor `(pageCount, currentY)` that decides the page breaks after the
  agenda table;
- the saved file name;
- the list's search, date-range filter and 9-per-page slice.

Modules, one per concern of the source:

- `Minutes` (`minutes.dfy`): the record, participants, attachments, users and units, and
  JavaScript truthiness of optional strings.
- `Text` (`text.dfy`): the JavaScript `\s` class, `startsWith`, `isImage`,
  `replace(/\s+/g, '-')`, `includes`, and the `<`/`<=` order on strings.
- `Tables` (`tables.dfy`): the agenda body (built by a loop that pushes rows), the unit
  resolution and the attendance body.
- `CellHooks` (`hooks.dfy`): `didParseCell` and `didDrawCell` as pure decision functions.
- `Header` (`header.dfy`): header and metadata geometry of both forms, in integer millimetres.
- `Cursor` (`cursor.dfy`): the cursor state as a value (`Flow`), its step functions, the
  layout invariant `WellFormed`, and the class `LayoutCursor`. The class holds the mutable
  `pageCount` and `currentY` fields, with methods and the attachment loop, each proved equal
  to the step functions.
- `MinuteFilter` (`listview.dfy`): `filter`, the filter predicate, and JavaScript `slice`
  paging.
- `Export` (`export.dfy`): one export run, tying everything together.

Inputs the model takes as parameters instead of computing them:

- `stripHtml` (it uses the DOM);
- `toLowerCase`;
- whether embedding an image succeeds;
- the title's wrapped line count (`splitTextToSize(...).length`);
- the agenda table's `finalY` and the number of pages the table library has produced by then.

Every block the cursor places is logged with its page and y. `WellFormed` states three things
about that log:

- each block has the room its own check reserves (`y + 40 <= 190` for the signature, `y <= 180`
  for the caption, `y + 85 <= 190` for an image, `y <= 190` for a document);
- every two consecutive blocks either sit on the same page exactly the previous block's advance
  apart, or on the next page at or below the top margin;
- the cursor sits just below the last block.

Each block has its own threshold: 190 with a 40 mm reserve for the signature, 180 for the
caption, 190 with an 85 mm reserve for images, and 190 for documents. A document attachment
advances the cursor 6 mm; an image advances it 80 mm, or 15 mm when embedding it fails.

A record without a participant list makes the roster step (`participants.map`) throw; the export
then ends in the failure alert and saves nothing. `Export.ExportPdf` returns `Failed` for it.

## Model

| member | source | states |
|---|---|---|
| `Minutes.OrDash` | components/MinuteList.tsx:354 | the `x \|\| '-'` fallback is never empty and keeps a truthy value |
| `Text.IsImage` | components/MinuteList.tsx:75 | an attachment is an image exactly when its path starts with `data:image` |
| `Text.CollapseRuns` | components/MinuteList.tsx:411 | the scan behind `replace(/\s+/g, '-')` never lengthens its input, and outside a run a non-empty input gives a non-empty output |
| `Text.ReplaceWhitespace` | components/MinuteList.tsx:411 | `replace(/\s+/g, '-')` leaves no whitespace, never lengthens the string, keeps a non-empty string non-empty, and leaves a whitespace-free string unchanged |
| `Text.FileName` | components/MinuteList.tsx:411 | the saved name is `Notulen-` + the title with every whitespace run replaced + `.pdf`: it starts with `Notulen-`, ends with `.pdf`, contains no whitespace, is longer than `Notulen-.pdf` for a non-empty title, and is `Notulen-<title>.pdf` for a title without whitespace |
| `Text.FileNameOfRun` | components/MinuteList.tsx:411 | a title of two whitespace-free words around a whitespace run of any length is saved as `Notulen-<word>-<word>.pdf` |
| `Text.CollapseRunsHasNoSpace` | components/MinuteList.tsx:411 | the whitespace replacement leaves no whitespace character |
| `Text.CollapseRunsIdentity` | components/MinuteList.tsx:411 | a title without whitespace passes through unchanged |
| `Text.CollapseRunsAppend` | components/MinuteList.tsx:411 | the replacement is compositional: the second part continues in the run state the first part ends in |
| `Text.CollapseRunsSkipsRun` | components/MinuteList.tsx:411 | inside a run, further whitespace produces nothing |
| `Text.RunBecomesOneDash` | components/MinuteList.tsx:411 | a whitespace run of any length between whitespace-free parts becomes exactly one `-` |
| `Text.Contains` | components/MinuteList.tsx:56-57 | `includes` holds exactly when the needle occurs at some position of the hay |
| `Text.LexLess` | components/MinuteList.tsx:58-59 | string `<` holds exactly when the left string is a proper prefix of the right one or has the smaller character where they first differ |
| `Text.LexLe` | components/MinuteList.tsx:58-59 | string `<=` holds exactly when the strings are equal or the left one is less |
| `Text.LexLessIrreflexive` | components/MinuteList.tsx:58-59 | no string is less than itself |
| `Text.LexLessTotal` | components/MinuteList.tsx:58-59 | any two different strings are ordered one way or the other |
| `Text.LexLessTransitive` | components/MinuteList.tsx:58-59 | string `<` is transitive |
| `Text.LexLessAsymmetric` | components/MinuteList.tsx:58-59 | string `<` is asymmetric |
| `Text.LexLeTransitive` | components/MinuteList.tsx:58-59 | string `<=`, the comparison of the date bounds, is transitive |
| `Tables.AgendaRow` | components/MinuteList.tsx:182-189 | an agenda row has the header's six cells: number i+1, the topic, the decision and action passed through `stripHtml`, the PIC and the monitoring note |
| `Tables.BuildAgendaRows` | components/MinuteList.tsx:177-194 | one row per agenda item in order, row i being `[i+1, topic, stripHtml(decision), stripHtml(action), pic, monitoring]`; a missing or empty agenda gives exactly the placeholder row; every row has the header's six cells |
| `Tables.FindIndex` | components/MinuteList.tsx:342-344 | `find`: the position returned is the first satisfying the predicate; none is returned only when nothing satisfies it |
| `Tables.ResolveUnit` | components/MinuteList.tsx:338-354 | the unit text is never empty and is the participant's own unit name when that is non-empty |
| `Tables.UnitThroughUser` | components/MinuteList.tsx:341-354 | without an own unit name, the unit is the name of the first unit whose id is the unit id of the first user whose id is the participant's user id, or `-` if that name is empty |
| `Tables.UnitFallback` | components/MinuteList.tsx:341-354 | without an own unit name, and with no user, no unit id or no matching unit, the unit is `-` |
| `Tables.ParafText` | components/MinuteList.tsx:352 | the status text is `Tidak Hadir` exactly for an absent participant and empty exactly for a present one |
| `Tables.ParticipantRow` | components/MinuteList.tsx:352-354 | a roster row has the header's four cells: number i+1, the name, the resolved (non-empty) unit and the status text, which reads `Tidak Hadir` exactly for an absent participant and is empty exactly for a present one |
| `Tables.AttendanceBody` | components/MinuteList.tsx:337-355 | one four-cell row per participant in order: number i+1, name, resolved (non-empty) unit, and the status cell `ParafText` of the attendance: `Tidak Hadir` exactly when absent, empty exactly when present |
| `CellHooks.StyleHook` | components/MinuteList.tsx:385-393 | a style override is given exactly for body cells of column 3 of absent participants, and it is colour (220,38,38) italic |
| `CellHooks.OverlayHook` | components/MinuteList.tsx:394-408 | a signature is stamped exactly on body cells of column 3 of present participants with a signature, at (x+10, y+2) with size 25×10, inside the 60 mm wide, at least 15 mm high cell |
| `CellHooks.StyledCellsAreAbsentRows` | components/MinuteList.tsx:352-408 | the styled status cells are exactly those whose text reads `Tidak Hadir`, none of them is ever stamped, and a stamped cell is an empty one |
| `CellHooks.StampedRows` | components/MinuteList.tsx:385-408 | across the table, stamped rows are exactly present participants with a signature, and no other column is styled or stamped |
| `Header.HeaderLayout` | components/MinuteList.tsx:100-175 | header text at x 45 with a logo (right of the logo box) and 14 without; row2Y = 40 + 5L + 2 and row3Y = row2Y + 7 for L title lines; the agenda table starts 10 mm below both metadata columns, never above y 64, and at 59 + 5L when L > 0 |
| `Header.TableStartMonotone` | components/MinuteList.tsx:136-175 | more title lines never move the agenda table up |
| `Header.AttendanceInfoRowY` | components/MinuteList.tsx:331-334 | the attendance metadata rows lie between y 40 and 58 |
| `Header.AttendanceTableStartY` | components/MinuteList.tsx:317-358 | the attendance table starts at y 68, 10 mm below every metadata row |
| `Cursor.Advance` | components/MinuteList.tsx:258-289 | the cursor never moves up |
| `Cursor.BreakIf` | components/MinuteList.tsx:234-237 | a page break adds one page and resets y to 20; without a break the state is unchanged; the log never changes |
| `Cursor.Emit` | components/MinuteList.tsx:244-289 | drawing a block logs it at the current page and y, keeps the page, and never moves the cursor up |
| `Cursor.SignatureStep` | components/MinuteList.tsx:230-258 | the signature block adds one page exactly when `y + 40 > 190`, is drawn at 20 after a break and at the current y otherwise, fits (`y + 40 <= 190`), and the cursor moves 45 below it |
| `Cursor.CaptionStep` | components/MinuteList.tsx:262-267 | the caption adds one page exactly when `y > 180`, fits (`y <= 180`), and the cursor moves 8 below it |
| `Cursor.AttachmentBlock` | components/MinuteList.tsx:270-289 | an attachment is drawn as an image item exactly when its path is an image, otherwise as a document item, under its own file name |
| `Cursor.AttachmentStep` | components/MinuteList.tsx:269-291 | an image breaks exactly when `y + 85 > 190`, any other file exactly when `y > 190`; at most one page is added, and the cursor moves 80, 15 or 6 below the item |
| `Cursor.Items` | components/MinuteList.tsx:269-291 | the `forEach` over the attachments adds one placement per attachment and never removes pages |
| `Cursor.AttachmentsStep` | components/MinuteList.tsx:262-292 | without attachments nothing changes; with attachments the caption comes first, followed by one placement per attachment, and the earlier log is kept |
| `Cursor.Start` | components/MinuteList.tsx:230 | the cursor starts on the agenda table's last page at `finalY + 10`, with nothing placed, and satisfies the layout invariant |
| `Cursor.AfterAgenda` | components/MinuteList.tsx:230-295 | the flow after the agenda table ends at least one page later, starts with the signature block and ends with the attendance table at y 68 on the last page |
| `Cursor.AttendanceStep` | components/MinuteList.tsx:295 | the attendance form always adds exactly one page, whatever the current y, with its table at y 68 on that page |
| `Cursor.PlacingKeepsWellFormed` | components/MinuteList.tsx:234-291 | placing a block that fits keeps the layout invariant |
| `Cursor.AttendanceKeepsWellFormed` | components/MinuteList.tsx:295 | the forced break keeps the layout invariant |
| `Cursor.ItemsExtendLog` | components/MinuteList.tsx:269-291 | the attachment loop only appends, one placement per attachment |
| `Cursor.ItemsPlaceInOrder` | components/MinuteList.tsx:269-291 | the i-th placement of the loop is the i-th attachment: in order, none skipped |
| `Cursor.ItemsPageBounds` | components/MinuteList.tsx:269-291 | the loop never removes pages and adds at most one per attachment |
| `Cursor.ItemsWellFormed` | components/MinuteList.tsx:269-291 | the attachment loop keeps the layout invariant |
| `Cursor.BeforeAttendanceWellFormed` | components/MinuteList.tsx:230-292 | signature block and attachment section keep the layout invariant from the cursor's start |
| `Cursor.AfterAgendaWellFormed` | components/MinuteList.tsx:230-295 | after the agenda table, every block fits and consecutive blocks never overlap |
| `Cursor.AfterAgendaOrder` | components/MinuteList.tsx:230-295 | the blocks are the signature, then the caption and every attachment in order only when there are attachments, then the attendance table |
| `Cursor.AfterAgendaPages` | components/MinuteList.tsx:230-295 | the page count grows by at least one (the attendance form) and by at most one per break check |
| `Cursor.AttendanceOnOwnPage` | components/MinuteList.tsx:295-358 | the attendance table is the last placement, at y 68, on a page after every block of the minutes form |
| `Cursor.LayoutCursor.constructor` | components/MinuteList.tsx:230 | the cursor starts on the agenda table's last page at `finalY + 10` |
| `Cursor.LayoutCursor.AddPage` | components/MinuteList.tsx:235-236 | one more page and y reset to 20 |
| `Cursor.LayoutCursor.Place` | components/MinuteList.tsx:244-289 | the block is logged at the current page and y, and the cursor moves by its advance |
| `Cursor.LayoutCursor.PlaceSignature` | components/MinuteList.tsx:234-258 | the in-place update equals `SignatureStep` |
| `Cursor.LayoutCursor.PlaceAttachment` | components/MinuteList.tsx:270-290 | the in-place update equals `AttachmentStep` |
| `Cursor.LayoutCursor.PlaceAttachments` | components/MinuteList.tsx:262-292 | the caption and the loop over all attachments equal the attachment section of the flow |
| `Cursor.LayoutCursor.StartAttendanceForm` | components/MinuteList.tsx:295 | the in-place update equals `AttendanceStep` |
| `MinuteFilter.Filter` | components/MinuteList.tsx:55 | `filter` keeps exactly the elements the predicate accepts, and nothing else |
| `MinuteFilter.MatchSearch` | components/MinuteList.tsx:56-57 | an empty lower-cased search term matches every minute |
| `MinuteFilter.MatchDates` | components/MinuteList.tsx:58-59 | empty date bounds match every minute, and a minute matching both non-empty bounds implies start `<=` end |
| `MinuteFilter.Keep` | components/MinuteList.tsx:55-60 | an empty term with empty bounds keeps the minute, and a start date after the end date rejects it |
| `MinuteFilter.FilterMinutes` | components/MinuteList.tsx:55-61 | every kept minute matches the search term in title or location (case-insensitively) and every non-empty date bound; every minute that does so is kept |
| `MinuteFilter.FilterAppend` | components/MinuteList.tsx:55 | filtering distributes over concatenation, so it preserves order |
| `MinuteFilter.FilterKeepsAll` | components/MinuteList.tsx:55 | a list the predicate accepts throughout passes through unchanged |
| `MinuteFilter.FilterKeepsNone` | components/MinuteList.tsx:55 | a list the predicate rejects throughout filters to nothing |
| `MinuteFilter.NoCriteriaKeepsEverything` | components/MinuteList.tsx:55-61 | an empty term with empty bounds keeps every minute, in order |
| `MinuteFilter.InvertedRangeKeepsNothing` | components/MinuteList.tsx:58-60 | a start date after the end date keeps nothing |
| `MinuteFilter.JsSlice` | components/MinuteList.tsx:66 | `slice` never returns more than the list |
| `MinuteFilter.PageItems` | components/MinuteList.tsx:63-66 | a page holds at most 9 minutes, and page p ≥ 1 is `filtered[(p-1)*9 .. p*9]` clamped to the list |
| `MinuteFilter.ItemOnItsPage` | components/MinuteList.tsx:63-66 | minute i is shown at position i mod 9 of page i div 9 + 1 |
| `MinuteFilter.PagesCoverPrefix` | components/MinuteList.tsx:63-66 | pages 1..k together show exactly the first 9k filtered minutes, in order |
| `Export.ExportPdf` | components/MinuteList.tsx:77-415 | the export fails exactly when the record has no participant list; otherwise it gives the file name, the header geometry, the agenda and attendance bodies as above, and a cursor flow that keeps the layout invariant, ends at least one page after the agenda table and puts the attendance table at the start row the header geometry gives |

## Left out

- Drawing calls (`text`, `line`, `addImage`, `setFont*`, `setFontSize`, `setLineWidth`, `save`): a
  foreign library. The texts the export draws (captions, the two form identifiers, the fixed dates,
  the metadata values, `( picName )`) are not modelled. Only where blocks go is modelled.
- The table library's layout: row heights, page splitting and header repetition on continuation
  pages. Its `finalY` and the pages it adds are inputs (`agendaPages`, `agendaFinalY`). The bodies
  and the hooks handed to it are modelled.
- `stripHtml`, `toLowerCase`, `splitTextToSize`: taken as parameters (DOM, Unicode case mapping,
  font metrics).
- `formatDate` and `getDayName`: locale formatting with `toLocaleDateString('id-ID')`, only drawn
  as text.
- Logo and signature `addImage` failures: they are caught and change no position, so they are not
  modelled. Image attachments are the exception: whether `addImage` succeeds decides the 80 or 15
  advance, and comes in as `embeds`.
- The concurrent fetch of users, units and settings, the `try`/`catch` with `alert`, and the React
  state (`downloadingId`, resetting the page when a filter changes): I/O, concurrency and UI.
- The page width: used only to draw the header rule.
- `Cursor.Flow`: `currentY` is an exact `real`, while the source computes it in IEEE doubles. The
  model does not capture rounding, for example a `finalY` of `125 + 2^-46`, where `finalY + 10`
  rounds to 135 in doubles. All thresholds and advances are whole millimetres, so the difference
  shows only when the table library's `finalY` is not a whole number near a threshold.
- `Text.LexLess`: compares characters by code point, while JavaScript compares UTF-16 code units.
  The two orders differ only above U+FFFF (a surrogate pair sorts below U+E000–U+FFFF in
  JavaScript). The dates compared are ASCII ISO strings.
- A failed export: the alert text and the pages drawn before the throw are not modelled; `Failed`
  carries nothing.
- The participant count on each card of the list (`participants?.length || 0`): display only.
- `minute.date` as a Firestore timestamp: the model takes dates as ISO strings. Comparing a
  timestamp object with a string bound is not modelled.
- `AttendanceStatus` is taken to have two values, present and absent. The enum's declaration is not
  part of this model.
- `Cursor.LayoutCursor.StartAttendanceForm`: also moves the cursor's y to the attendance table's
  start (68). The source leaves `currentY` unchanged there and never reads it again, so the
  difference cannot be observed.
- `components/UnitManager.tsx` and `components/AdminSettings.tsx`: CRUD and settings screens with no
  export logic. `components/Layout.tsx`: the navigation shell with its role filter. UnitManager.tsx
  slices 10 per page with the formula `PageItems` uses with 9.
