/** How a text cell of the CSV file reaches the pipeline. pandas reads a blank
    cell as NaN; the model's `Card` holds such a cell as the empty string.
    This module compares the image check of line 260 on raw cells, as the
    source writes it, with the check the rest of the model uses. */
module Cells {
  import opened Cards
  import Gallery

  /** A cell as `read_csv` delivers it: blank (NaN) or filled with text. */
  datatype Cell = Blank | Filled(text: string)

  /** The string the model stores for a cell. */
  function CellText(c: Cell): string {
    match c
    case Blank => ""
    case Filled(s) => s
  }

  /** Python truthiness of the value `row.get(...)` gives back: NaN is a
      non-zero float and so true; a string is true when it is non-empty. */
  predicate Truthy(c: Cell) {
    match c
    case Blank => true
    case Filled(s) => s != ""
  }

  /** Line 260 as written: `if front_image and back_image`. */
  function DrawnAsWritten(front: Cell, back: Cell): (drawn: bool)
    ensures front == Blank && back == Blank ==> drawn
    ensures front == Filled("") || back == Filled("") ==> !drawn
    ensures drawn <==> (front == Blank || CellText(front) != "") && (back == Blank || CellText(back) != "")
  {
    Truthy(front) && Truthy(back)
  }

  /** A card whose Front Image cell is blank passes the check as written and
      is drawn with the image address "nan". */
  lemma BlankImageIsDrawn(url: string)
    requires url != ""
    ensures DrawnAsWritten(Blank, Filled(url))
    ensures CellText(Blank) == ""
  {
  }

  /** The evidently intended check: both cells hold an address. */
  predicate Drawn(front: Cell, back: Cell) {
    CellText(front) != "" && CellText(back) != ""
  }

  /** The intended check is the gallery's `HasImages` on the card the cells
      are loaded into, and it agrees with the check as written except on a
      blank cell. */
  lemma {:induction false} DrawnIffHasImages(front: Cell, back: Cell, c: Card)
    requires c.frontImage == CellText(front) && c.backImage == CellText(back)
    ensures Drawn(front, back) <==> Gallery.HasImages(c)
    ensures front != Blank && back != Blank ==> (Drawn(front, back) <==> DrawnAsWritten(front, back))
    ensures Drawn(front, back) ==> DrawnAsWritten(front, back)
  {
    match front
    case Blank =>
    case Filled(s) =>
  }
}
