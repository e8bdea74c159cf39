/** The vertical layout cursor that runs after the agenda table: signature
    block, attachment section and the forced break before the attendance
    form. The state is the page count and the current y (millimetres from
    the top of the page); every block the cursor places is logged with the
    page and y it was drawn at. The drawing calls themselves are not
    modelled. */
module Cursor {
  import opened Minutes
  import opened Text
  import Header

  /** Where blocks may be drawn: the bottom limit and the top margin a page
      break resets to. */
  const PageLimit: real := 190.0
  const CaptionLimit: real := 180.0
  const TopMargin: real := 20.0

  /** Heights the cursor reserves before placing a block. */
  const SignatureHeight: real := 40.0
  const ImageBlockHeight: real := 85.0

  /** Gap between the end of the agenda table and the signature block. */
  const TableGap: real := 10.0

  /** Where the attendance table starts on its own page. */
  const AttendanceTableY: real := Header.AttendanceTableStartY() as real

  /** A block placed by the cursor. `ImageItem`'s flag says whether
      embedding the image succeeded. */
  datatype Block =
    | Signature
    | Caption
    | ImageItem(fileName: string, embedded: bool)
    | DocumentItem(fileName: string)
    | AttendanceTable

  /** A block and where it was drawn. */
  datatype Placement = Placement(block: Block, page: nat, y: real)

  /** The cursor's state: page count, current y, placements so far. */
  datatype Flow = Flow(pageCount: nat, currentY: real, log: seq<Placement>)

  /** How far the cursor moves after drawing a block. The attendance table
      is laid out by the table library; the cursor stays at its start. */
  function Advance(b: Block): (d: real)
    ensures d >= 0.0
  {
    match b
    case Signature => 45.0
    case Caption => 8.0
    case ImageItem(_, embedded) => if embedded then 80.0 else 15.0
    case DocumentItem(_) => 6.0
    case AttendanceTable => 0.0
  }

  /** The room each kind of block needs below its y. */
  predicate Fits(p: Placement) {
    match p.block
    case Signature => p.y + SignatureHeight <= PageLimit
    case Caption => p.y <= CaptionLimit
    case ImageItem(_, _) => p.y + ImageBlockHeight <= PageLimit
    case DocumentItem(_) => p.y <= PageLimit
    case AttendanceTable => p.y == AttendanceTableY
  }

  /** `b` is placed directly after `a`: on the same page exactly `a`'s
      advance below it, or on the next page at or below the top margin. */
  predicate Follows(a: Placement, b: Placement) {
    (b.page == a.page && b.y == a.y + Advance(a.block))
    || (b.page == a.page + 1 && b.y >= TopMargin)
  }

  /** The layout invariant: every block fits, consecutive blocks never
      overlap, and the cursor sits right after the last block. */
  ghost predicate WellFormed(f: Flow) {
    && (forall k :: 0 <= k < |f.log| ==> Fits(f.log[k]) && f.log[k].page <= f.pageCount)
    && (forall k :: 0 < k < |f.log| ==> Follows(f.log[k - 1], f.log[k]))
    && (f.log != [] ==>
          f.log[|f.log| - 1].page == f.pageCount &&
          f.currentY == f.log[|f.log| - 1].y + Advance(f.log[|f.log| - 1].block))
  }

  /** `g` is `f` with one more block `b`, placed on the current page or on
      exactly one new page, at the top margin after a break. */
  ghost predicate OneBlock(f: Flow, g: Flow, b: Block) {
    && |g.log| == |f.log| + 1 && g.log[..|f.log|] == f.log
    && g.log[|f.log|].block == b
    && (g.pageCount == f.pageCount || g.pageCount == f.pageCount + 1)
    && g.log[|f.log|].page == g.pageCount
    && (g.pageCount == f.pageCount + 1 ==> g.log[|f.log|].y == TopMargin)
    && (g.pageCount == f.pageCount ==> g.log[|f.log|].y == f.currentY)
    && g.currentY == g.log[|f.log|].y + Advance(b)
  }

  /** `doc.addPage(); currentY = 20` when `overflow` holds. */
  function BreakIf(f: Flow, overflow: bool): (g: Flow)
    ensures g.log == f.log
    ensures overflow ==> g.pageCount == f.pageCount + 1 && g.currentY == TopMargin
    ensures !overflow ==> g == f
  {
    if overflow then Flow(f.pageCount + 1, TopMargin, f.log) else f
  }

  /** Draw `b` at the current y and advance past it. */
  function Emit(f: Flow, b: Block): (g: Flow)
    ensures g.pageCount == f.pageCount && g.currentY >= f.currentY
    ensures g.log == f.log + [Placement(b, f.pageCount, f.currentY)]
  {
    Flow(f.pageCount, f.currentY + Advance(b), f.log + [Placement(b, f.pageCount, f.currentY)])
  }

  /** Signature block: break when `y + 40 > 190`, then advance 45. */
  function SignatureStep(f: Flow): (g: Flow)
    ensures OneBlock(f, g, Signature) && Fits(g.log[|f.log|])
    ensures g.pageCount == f.pageCount + 1 <==> f.currentY + SignatureHeight > PageLimit
  {
    Emit(BreakIf(f, f.currentY + SignatureHeight > PageLimit), Signature)
  }

  /** Attachment caption: break when `y > 180`, then advance 8. */
  function CaptionStep(f: Flow): (g: Flow)
    ensures OneBlock(f, g, Caption) && Fits(g.log[|f.log|])
    ensures g.pageCount == f.pageCount + 1 <==> f.currentY > CaptionLimit
  {
    Emit(BreakIf(f, f.currentY > CaptionLimit), Caption)
  }

  /** The block an attachment is drawn as. */
  function AttachmentBlock(att: Attachment, embeds: string -> bool): (b: Block)
    ensures b.ImageItem? <==> IsImage(att.filePath)
    ensures b.DocumentItem? <==> !IsImage(att.filePath)
    ensures (b.ImageItem? || b.DocumentItem?) && b.fileName == att.fileName
  {
    if IsImage(att.filePath) then ImageItem(att.fileName, embeds(att.filePath))
    else DocumentItem(att.fileName)
  }

  /** The room an attachment needs: an image breaks when `y + 85 > 190`, any
      other file when `y > 190`. */
  predicate AttachmentOverflows(att: Attachment, y: real) {
    if IsImage(att.filePath) then y + ImageBlockHeight > PageLimit else y > PageLimit
  }

  /** One attachment, image or document. */
  function AttachmentStep(f: Flow, att: Attachment, embeds: string -> bool): (g: Flow)
    ensures OneBlock(f, g, AttachmentBlock(att, embeds)) && Fits(g.log[|f.log|])
    ensures g.pageCount == f.pageCount + 1 <==> AttachmentOverflows(att, f.currentY)
  {
    Emit(BreakIf(f, AttachmentOverflows(att, f.currentY)), AttachmentBlock(att, embeds))
  }

  /** The attachments one after the other, in order. */
  function Items(f: Flow, atts: seq<Attachment>, embeds: string -> bool): (g: Flow)
    ensures |g.log| == |f.log| + |atts|
    ensures f.pageCount <= g.pageCount
    decreases |atts|
  {
    if atts == [] then f
    else AttachmentStep(Items(f, atts[..|atts| - 1], embeds), atts[|atts| - 1], embeds)
  }

  /** The attachment section: a caption and the items, only when there is
      at least one attachment. */
  function AttachmentsStep(f: Flow, atts: Option<seq<Attachment>>, embeds: string -> bool): (g: Flow)
    ensures atts.None? || atts.value == [] ==> g == f
    ensures atts.Some? && atts.value != [] ==>
      |g.log| == |f.log| + 1 + |atts.value| && g.log[|f.log|].block == Caption
    ensures f.pageCount <= g.pageCount && g.log[..|f.log|] == f.log
  {
    if atts.Some? && atts.value != [] then
      var c := CaptionStep(f);
      ItemsExtendLog(c, atts.value, embeds);
      assert c.log[..|f.log|] == f.log;
      Items(c, atts.value, embeds)
    else f
  }

  /** The attendance form always starts on a new page; its table starts at
      y = 68 there. */
  function AttendanceStep(f: Flow): (g: Flow)
    ensures g.pageCount == f.pageCount + 1
    ensures g.log == f.log + [Placement(AttendanceTable, g.pageCount, AttendanceTableY)]
  {
    var p := f.pageCount + 1;
    Flow(p, AttendanceTableY, f.log + [Placement(AttendanceTable, p, AttendanceTableY)])
  }

  /** The state the cursor starts in: on the page the agenda table ends on,
      10 mm below its end. */
  function Start(agendaPages: nat, finalY: real): (f: Flow)
    ensures f.pageCount == agendaPages && f.currentY == finalY + TableGap && f.log == []
    ensures WellFormed(f)
  {
    Flow(agendaPages, finalY + TableGap, [])
  }

  /** Everything after the agenda table. */
  function AfterAgenda(agendaPages: nat, finalY: real, atts: Option<seq<Attachment>>, embeds: string -> bool): (g: Flow)
    ensures g.pageCount > agendaPages
    ensures |g.log| >= 2 && g.log[0].block == Signature
    ensures g.log[|g.log| - 1] == Placement(AttendanceTable, g.pageCount, AttendanceTableY)
  {
    AttendanceStep(AttachmentsStep(SignatureStep(Start(agendaPages, finalY)), atts, embeds))
  }

  /** Placing one block that fits keeps the layout invariant. */
  lemma PlacingKeepsWellFormed(f: Flow, g: Flow, b: Block)
    requires WellFormed(f) && OneBlock(f, g, b) && Fits(g.log[|f.log|])
    ensures WellFormed(g)
  {
  }

  /** The forced break before the attendance form keeps the layout invariant. */
  lemma AttendanceKeepsWellFormed(f: Flow)
    requires WellFormed(f)
    ensures WellFormed(AttendanceStep(f))
  {
  }

  /** The attachments only append to the log, one placement each. */
  lemma {:induction false} ItemsExtendLog(f: Flow, atts: seq<Attachment>, embeds: string -> bool)
    ensures |Items(f, atts, embeds).log| == |f.log| + |atts|
    ensures Items(f, atts, embeds).log[..|f.log|] == f.log
    decreases |atts|
  {
    if atts != [] {
      var h := Items(f, atts[..|atts| - 1], embeds);
      ItemsExtendLog(f, atts[..|atts| - 1], embeds);
      var g := Items(f, atts, embeds);
      assert g.log[..|h.log|] == h.log;
      assert g.log[..|f.log|] == h.log[..|f.log|];
    }
  }

  /** The attachments are placed in order and none is skipped: the i-th
      placement after `f` is the i-th attachment. */
  lemma {:induction false} ItemsPlaceInOrder(f: Flow, atts: seq<Attachment>, embeds: string -> bool)
    ensures |Items(f, atts, embeds).log| == |f.log| + |atts|
    ensures forall i :: 0 <= i < |atts| ==>
      Items(f, atts, embeds).log[|f.log| + i].block == AttachmentBlock(atts[i], embeds)
    decreases |atts|
  {
    ItemsExtendLog(f, atts, embeds);
    if atts != [] {
      var init := atts[..|atts| - 1];
      var h := Items(f, init, embeds);
      ItemsPlaceInOrder(f, init, embeds);
      var g := Items(f, atts, embeds);
      assert g.log[..|h.log|] == h.log;
      forall i | 0 <= i < |atts| ensures g.log[|f.log| + i].block == AttachmentBlock(atts[i], embeds) {
        if i < |init| {
          assert g.log[|f.log| + i] == h.log[|f.log| + i];
          assert atts[i] == init[i];
        }
      }
    }
  }

  /** Each attachment adds at most one page, and pages are never removed. */
  lemma {:induction false} ItemsPageBounds(f: Flow, atts: seq<Attachment>, embeds: string -> bool)
    ensures f.pageCount <= Items(f, atts, embeds).pageCount <= f.pageCount + |atts|
    decreases |atts|
  {
    if atts != [] {
      ItemsPageBounds(f, atts[..|atts| - 1], embeds);
    }
  }

  /** The attachments keep the layout invariant. */
  lemma {:induction false} ItemsWellFormed(f: Flow, atts: seq<Attachment>, embeds: string -> bool)
    requires WellFormed(f)
    ensures WellFormed(Items(f, atts, embeds))
    decreases |atts|
  {
    if atts != [] {
      var h := Items(f, atts[..|atts| - 1], embeds);
      ItemsWellFormed(f, atts[..|atts| - 1], embeds);
      var last := atts[|atts| - 1];
      PlacingKeepsWellFormed(h, AttachmentStep(h, last, embeds), AttachmentBlock(last, embeds));
    }
  }

  /** The state before the attendance break keeps the layout invariant. */
  lemma {:induction false} BeforeAttendanceWellFormed(agendaPages: nat, finalY: real, atts: Option<seq<Attachment>>, embeds: string -> bool)
    ensures WellFormed(AttachmentsStep(SignatureStep(Start(agendaPages, finalY)), atts, embeds))
  {
    var s0 := Start(agendaPages, finalY);
    var s1 := SignatureStep(s0);
    PlacingKeepsWellFormed(s0, s1, Signature);
    if atts.Some? && atts.value != [] {
      var c := CaptionStep(s1);
      PlacingKeepsWellFormed(s1, c, Caption);
      ItemsWellFormed(c, atts.value, embeds);
    }
  }

  /** The whole flow after the agenda table keeps the layout invariant: every
      block fits on its page and no two consecutive blocks overlap. */
  lemma {:induction false} AfterAgendaWellFormed(agendaPages: nat, finalY: real, atts: Option<seq<Attachment>>, embeds: string -> bool)
    ensures WellFormed(AfterAgenda(agendaPages, finalY, atts, embeds))
  {
    BeforeAttendanceWellFormed(agendaPages, finalY, atts, embeds);
    AttendanceKeepsWellFormed(AttachmentsStep(SignatureStep(Start(agendaPages, finalY)), atts, embeds));
  }

  /** The blocks after the agenda table come in the source's order: the
      signature block, then (only with attachments) the caption and every
      attachment in order, then the attendance table. */
  lemma {:induction false} AfterAgendaOrder(agendaPages: nat, finalY: real, atts: Option<seq<Attachment>>, embeds: string -> bool)
    ensures var g := AfterAgenda(agendaPages, finalY, atts, embeds);
      var n := if atts.Some? && atts.value != [] then |atts.value| else 0;
      && |g.log| == (if n > 0 then 3 + n else 2)
      && g.log[0].block == Signature
      && (n > 0 ==> g.log[1].block == Caption)
      && (forall i :: 0 <= i < n ==> g.log[2 + i].block == AttachmentBlock(atts.value[i], embeds))
      && g.log[|g.log| - 1].block == AttendanceTable
  {
    var s1 := SignatureStep(Start(agendaPages, finalY));
    var s2 := AttachmentsStep(s1, atts, embeds);
    var g := AttendanceStep(s2);
    if atts.Some? && atts.value != [] {
      var c := CaptionStep(s1);
      ItemsExtendLog(c, atts.value, embeds);
      ItemsPlaceInOrder(c, atts.value, embeds);
      assert g.log[0] == s2.log[0] == c.log[0];
      assert g.log[1] == s2.log[1] == c.log[1];
      forall i | 0 <= i < |atts.value| ensures g.log[2 + i].block == AttachmentBlock(atts.value[i], embeds) {
        assert g.log[2 + i] == s2.log[|c.log| + i];
      }
    }
  }

  /** The page count after the agenda table: at least one page more (the
      attendance form), at most one more per break check. */
  lemma {:induction false} AfterAgendaPages(agendaPages: nat, finalY: real, atts: Option<seq<Attachment>>, embeds: string -> bool)
    ensures var g := AfterAgenda(agendaPages, finalY, atts, embeds);
      && agendaPages + 1 <= g.pageCount
      && g.pageCount <= agendaPages + 2 + (if atts.Some? && atts.value != [] then 1 + |atts.value| else 0)
  {
    var s1 := SignatureStep(Start(agendaPages, finalY));
    if atts.Some? && atts.value != [] {
      ItemsPageBounds(CaptionStep(s1), atts.value, embeds);
    }
  }

  /** The attendance table is on a page of its own, after every block the
      minutes form placed. */
  lemma {:induction false} AttendanceOnOwnPage(agendaPages: nat, finalY: real, atts: Option<seq<Attachment>>, embeds: string -> bool)
    ensures var g := AfterAgenda(agendaPages, finalY, atts, embeds);
      && g.log != [] && g.log[|g.log| - 1] == Placement(AttendanceTable, g.pageCount, AttendanceTableY)
      && forall k :: 0 <= k < |g.log| - 1 ==> g.log[k].page < g.pageCount
  {
    var s2 := AttachmentsStep(SignatureStep(Start(agendaPages, finalY)), atts, embeds);
    BeforeAttendanceWellFormed(agendaPages, finalY, atts, embeds);
    var g := AttendanceStep(s2);
    forall k | 0 <= k < |g.log| - 1 ensures g.log[k].page < g.pageCount {
      assert g.log[k] == s2.log[k];
    }
  }

  /** The cursor as the export drives it: `pageCount` and `currentY` are
      updated in place around each page break; `log` records what was
      placed where. */
  class LayoutCursor {
    var pageCount: nat
    var currentY: real
    var log: seq<Placement>

    function State(): Flow
      reads this
    {
      Flow(pageCount, currentY, log)
    }

    /** `currentY = lastAutoTable.finalY + 10` on the agenda table's last page. */
    constructor (agendaPages: nat, finalY: real)
      ensures State() == Start(agendaPages, finalY)
    {
      pageCount := agendaPages;
      currentY := finalY + TableGap;
      log := [];
    }

    /** `doc.addPage(); currentY = 20;` */
    method AddPage()
      modifies this
      ensures State() == BreakIf(old(State()), true)
    {
      pageCount := pageCount + 1;
      currentY := TopMargin;
    }

    /** Draw `b` at the current y and move below it. */
    method Place(b: Block)
      modifies this
      ensures State() == Emit(old(State()), b)
    {
      log := log + [Placement(b, pageCount, currentY)];
      currentY := currentY + Advance(b);
    }

    method PlaceSignature()
      modifies this
      ensures State() == SignatureStep(old(State()))
    {
      if currentY + SignatureHeight > PageLimit {
        AddPage();
      }
      Place(Signature);
    }

    method PlaceAttachment(att: Attachment, embeds: string -> bool)
      modifies this
      ensures State() == AttachmentStep(old(State()), att, embeds)
    {
      if IsImage(att.filePath) {
        if currentY + ImageBlockHeight > PageLimit {
          AddPage();
        }
        Place(ImageItem(att.fileName, embeds(att.filePath)));
      } else {
        if currentY > PageLimit {
          AddPage();
        }
        Place(DocumentItem(att.fileName));
      }
    }

    /** The caption and then every attachment in order. */
    method PlaceAttachments(atts: Option<seq<Attachment>>, embeds: string -> bool)
      modifies this
      ensures State() == AttachmentsStep(old(State()), atts, embeds)
    {
      if atts.Some? && |atts.value| > 0 {
        if currentY > CaptionLimit {
          AddPage();
        }
        Place(Caption);
        var xs := atts.value;
        ghost var afterCaption := State();
        var i := 0;
        while i < |xs|
          invariant 0 <= i <= |xs|
          invariant State() == Items(afterCaption, xs[..i], embeds)
        {
          PlaceAttachment(xs[i], embeds);
          assert xs[..i + 1][..i] == xs[..i];
          i := i + 1;
        }
        assert xs[..|xs|] == xs;
      }
    }

    /** `doc.addPage()` before the attendance form, whatever `currentY` is. */
    method StartAttendanceForm()
      modifies this
      ensures State() == AttendanceStep(old(State()))
    {
      pageCount := pageCount + 1;
      currentY := AttendanceTableY;
      log := log + [Placement(AttendanceTable, pageCount, AttendanceTableY)];
    }
  }
}
