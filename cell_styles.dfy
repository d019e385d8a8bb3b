/**
 * The style decision of the devices report: which borders a cell gets, in
 * which colour, and which fill, as a pure function of the cell's role, its
 * place in its block (top, bottom) and whether its device was written before.
 */
module CellStyles {

  /** The three style tags of the report (the strings "EMAIL", "UREĐAJ" and "TOTAL"). */
  datatype Role = Email | DeviceName | Total

  /** The tag string; the header row prints the first two as its labels. */
  function Tag(role: Role): (t: string)
    ensures role == Email <==> t == "EMAIL"
    ensures role == DeviceName <==> t == "URE\U{0110}AJ"
    ensures role == Total <==> t == "TOTAL"
  {
    match role
    case Email => "EMAIL"
    case DeviceName => "URE\U{0110}AJ"
    case Total => "TOTAL"
  }

  /** The indexed colours the report uses. */
  datatype Colour = Blue | SkyBlue | Green | LightGreen | Grey80Percent | Grey25Percent

  datatype BorderKind = Thick | Dashed

  /** One side of a cell: not set at all, or a line of some kind and colour. */
  datatype Border = Unset | Line(kind: BorderKind, colour: Colour)

  datatype Borders = Borders(top: Border, bottom: Border, left: Border, right: Border)

  datatype FillPattern = Squares | SolidForeground

  /**
   * A cell style. Alignment (centred both ways) and the font face (bold black
   * Arial) are the same for every cell and are left implicit.
   */
  datatype Style = Style(borders: Borders, pattern: FillPattern, fill: Colour, fontSize: nat)

  const BODY_FONT_SIZE: nat := 12
  const HEADER_FONT_SIZE: nat := 14

  /** `setBorderStyle`: the top is drawn only for the top of a block, the bottom is thick at the bottom of a block and dashed inside it, the sides are always thick. */
  function SetBorderStyle(top: bool, bottom: bool, colour: Colour): (b: Borders)
    ensures top ==> b.top == Line(Thick, colour)
    ensures !top ==> b.top == Unset
    ensures bottom ==> b.bottom == Line(Thick, colour)
    ensures !bottom ==> b.bottom == Line(Dashed, colour)
    ensures b.left == Line(Thick, colour) && b.right == Line(Thick, colour)
  {
    Borders(if top then Line(Thick, colour) else Unset,
            Line(if bottom then Thick else Dashed, colour),
            Line(Thick, colour),
            Line(Thick, colour))
  }

  /** The colours and fill pattern of a role: border colour, pattern, fill colour. */
  function Palette(role: Role, alreadyWritten: bool): (p: (Colour, FillPattern, Colour))
    ensures role == Email ==> p == (Blue, Squares, SkyBlue)
    ensures role == DeviceName && !alreadyWritten ==> p == (Green, SolidForeground, LightGreen)
    ensures role == DeviceName && alreadyWritten ==> p == (Grey80Percent, SolidForeground, Grey25Percent)
    ensures role == Total ==> p == (Green, SolidForeground, LightGreen)
  {
    match role
    case Email => (Blue, Squares, SkyBlue)
    case DeviceName => if alreadyWritten then (Grey80Percent, SolidForeground, Grey25Percent) else (Green, SolidForeground, LightGreen)
    case Total => (Green, SolidForeground, LightGreen)
  }

  /**
   * `applyCellStyle`. The flags are recoverable from the result: the top is
   * drawn exactly when `top`, the bottom is thick exactly when `bottom`, and
   * the duplicate fill appears exactly on device names already written.
   */
  function ApplyCellStyle(role: Role, top: bool, bottom: bool, alreadyWritten: bool): (s: Style)
    ensures s.borders.top.Line? <==> top
    ensures s.borders.bottom.Line? && (s.borders.bottom.kind == Thick <==> bottom)
    ensures s.borders.left == s.borders.right == Line(Thick, Palette(role, alreadyWritten).0)
    ensures s.borders.bottom.colour == s.borders.left.colour
    ensures top ==> s.borders.top == Line(Thick, Palette(role, alreadyWritten).0)
    ensures s.pattern == Palette(role, alreadyWritten).1 && s.fill == Palette(role, alreadyWritten).2
    ensures s.fill == Grey25Percent <==> role == DeviceName && alreadyWritten
    ensures s.fontSize == BODY_FONT_SIZE
  {
    var (border, pattern, fill) := Palette(role, alreadyWritten);
    Style(SetBorderStyle(top, bottom, border), pattern, fill, BODY_FONT_SIZE)
  }

  /** A header cell: the tag's own style with top and no bottom, then a larger font. */
  function HeaderStyle(role: Role): (s: Style)
    ensures s.borders.top == Line(Thick, Palette(role, false).0)
    ensures s.borders.bottom == Line(Dashed, Palette(role, false).0)
    ensures s.borders.left == s.borders.right == Line(Thick, Palette(role, false).0)
    ensures s.pattern == Palette(role, false).1 && s.fill == Palette(role, false).2
    ensures s.fontSize == HEADER_FONT_SIZE
  {
    ApplyCellStyle(role, true, false, false).(fontSize := HEADER_FONT_SIZE)
  }

  /** What a reader of the sheet can tell from a style alone: (top of block, bottom of block, duplicate). */
  function ReadFlags(s: Style): (bool, bool, bool)
  {
    (s.borders.top.Line?, s.borders.bottom.Line? && s.borders.bottom.kind == Thick, s.fill == Grey25Percent)
  }

  /** The style loses none of the structural information it encodes. */
  lemma ReadFlagsRoundTrip(role: Role, top: bool, bottom: bool, alreadyWritten: bool)
    ensures ReadFlags(ApplyCellStyle(role, top, bottom, alreadyWritten)) == (top, bottom, role == DeviceName && alreadyWritten)
  {
  }

  /** The duplicate flag changes the style of device names only. */
  lemma DuplicateFlagOnlyForDevices(role: Role, top: bool, bottom: bool)
    ensures (ApplyCellStyle(role, top, bottom, true) == ApplyCellStyle(role, top, bottom, false)) <==> role != DeviceName
  {
  }
}
