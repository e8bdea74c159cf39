/** The fixed geometry (in millimetres) of the header and metadata blocks of
    both forms. The only inputs are whether a logo is configured and how
    many lines the title wraps to. */
module Header {

  /** Top of the metadata block of both forms. */
  const StartY: int := 40

  /** The logo box: x = 14, width 25. */
  const LogoX: int := 14
  const LogoWidth: int := 25

  /** Line pitch the metadata block assumes for a wrapped title. */
  const TitleLinePitch: int := 5

  /** Y of the last row of the right-hand metadata column (PIC). */
  const RightColumnLastY: int := StartY + 14

  datatype HeaderGeometry = HeaderGeometry(textX: int, row2Y: int, row3Y: int, tableStartY: int)

  /** Header text position, the two left-column rows below the title, and
      where the agenda table starts. */
  function HeaderLayout(hasLogo: bool, titleLines: nat): (g: HeaderGeometry)
    ensures g.textX == (if hasLogo then 45 else 14)
    ensures hasLogo ==> g.textX > LogoX + LogoWidth
    ensures g.row2Y == StartY + TitleLinePitch * titleLines + 2
    ensures g.row3Y == g.row2Y + 7
    ensures g.tableStartY >= g.row3Y + 10 && g.tableStartY >= RightColumnLastY + 10
    ensures g.tableStartY == g.row3Y + 10 || g.tableStartY == RightColumnLastY + 10
    ensures g.tableStartY >= 64
    ensures titleLines > 0 ==> g.tableStartY == 59 + 5 * titleLines
  {
    var textX := if hasLogo then 45 else 14;
    var row2Y := StartY + titleLines * 5 + 2;
    var row3Y := row2Y + 7;
    var tableStartY := (if row3Y > StartY + 14 then row3Y else StartY + 14) + 10;
    HeaderGeometry(textX, row2Y, row3Y, tableStartY)
  }

  /** More title lines never move the agenda table up. */
  lemma TableStartMonotone(hasLogo: bool, l1: nat, l2: nat)
    requires l1 <= l2
    ensures HeaderLayout(hasLogo, l1).tableStartY <= HeaderLayout(hasLogo, l2).tableStartY
  {
  }

  /** Top of the attendance form's metadata block. */
  const AttStartY: int := 40

  /** The four metadata rows of the attendance form, 6 mm apart. */
  function AttendanceInfoRowY(k: nat): (y: int)
    requires k < 4
    ensures AttStartY <= y <= AttStartY + 18
  {
    AttStartY + 6 * k
  }

  /** The attendance table starts at `attStartY + 28`, 10 mm below the last
      metadata row. */
  function AttendanceTableStartY(): (y: int)
    ensures y == 68
    ensures forall k :: 0 <= k < 4 ==> y >= AttendanceInfoRowY(k) + 10
  {
    AttStartY + 28
  }
}
