/** The virtual terminal: a fixed grid of cells kept as four parallel flat
    arrays, and the one bounds-checked index function every access goes
    through (src/lib/superpac/term/virtterm.ts). */
module Term {
  import opened Wrappers
  import opened Text
  import opened Common
  import opened Sgr
  import opened Arith

  // Style bits of a cell.
  const BOLD: bv16 := 0x0001
  const FAINT: bv16 := 0x0002
  const ITALIC: bv16 := 0x0004
  const UNDERLINE: bv16 := 0x0008
  const BLINK: bv16 := 0x0010
  const INVERT: bv16 := 0x0020
  const CONCEAL: bv16 := 0x0040
  const STRIKE: bv16 := 0x0080
  /** Marks a cell whose character occupies two columns. */
  const DOUBLE_WIDTH: bv16 := 0x8000

  const STYLE_FLAGS: seq<bv16> := [BOLD, FAINT, ITALIC, UNDERLINE, BLINK, INVERT, CONCEAL, STRIKE, DOUBLE_WIDTH]

  /** Each style flag is one bit of the 16-bit style word, and no two flags
      share a bit. */
  lemma StyleFlagsAreDistinctBits()
    ensures forall i :: 0 <= i < |STYLE_FLAGS| ==> STYLE_FLAGS[i] != 0 && STYLE_FLAGS[i] & (STYLE_FLAGS[i] - 1) == 0
    ensures forall i, j :: 0 <= i < j < |STYLE_FLAGS| ==> STYLE_FLAGS[i] & STYLE_FLAGS[j] == 0
  {
  }

  datatype Size = Size(columns: int, rows: int)

  /** The `RangeError` `indexOf` throws: the axis, its size and the value. */
  datatype IndexError =
    | InvalidRow(rows: int, row: int)
    | InvalidColumn(columns: int, column: int)

  class VirtTerm {
    const size: Size
    /** Each cell's character as UTF-8 bytes (`char` in the source). */
    const chars: array<seq<byte>>
    /** Background colours. */
    const back: array<BackColor>
    /** Foreground colours. */
    const fore: array<ForeColor>
    /** Style bits. */
    const style: array<bv16>

    /** The four arrays hold one entry per cell, and they are four separate
        arrays: writing the colour arrays leaves `chars` and `style` alone. */
    ghost predicate Valid() {
      && size.rows >= 0 && size.columns >= 0
      && chars.Length == back.Length == fore.Length == style.Length == size.rows * size.columns
      && chars as object != back as object && chars as object != fore as object
      && style as object != back as object && style as object != fore as object
    }

    /** `new VirtTerm(size)`: every cell holds the bytes of `SPACE` (the one
        byte 32), the default colours of `COLOR4` (`ESC [ 39 m` and
        `ESC [ 49 m`) and no style. `space` and `color4` stand for the
        module-level `SPACE` and `COLOR4`. */
    constructor (size: Size, space: CharSeq, color4: Color4)
      requires size.rows >= 0 && size.columns >= 0
      requires space.txt == " "
      requires color4.default.fore.cs.txt == CSI + "39m"
      requires color4.default.back.cs.txt == CSI + "49m"
      ensures Valid() && this.size == size
      ensures fresh(chars) && fresh(back) && fresh(fore) && fresh(style)
      ensures forall i :: 0 <= i < chars.Length ==> chars[i] == space.Bin() == [32]
      ensures forall i :: 0 <= i < back.Length ==> back[i].cs.txt == CSI + "49m"
      ensures forall i :: 0 <= i < fore.Length ==> fore[i].cs.txt == CSI + "39m"
      ensures forall i :: 0 <= i < back.Length ==> back[i] == color4.default.back
      ensures forall i :: 0 <= i < fore.Length ==> fore[i] == color4.default.fore
      ensures forall i :: 0 <= i < style.Length ==> style[i] == 0
    {
      Utf8OfAscii(" ");
      var totalSize := size.rows * size.columns;
      this.size := size;
      chars := new seq<byte>[totalSize](_ => space.Bin());
      back := new BackColor[totalSize](_ => color4.default.back);
      fore := new ForeColor[totalSize](_ => color4.default.fore);
      style := new bv16[totalSize](_ => 0);
    }

    /** `indexOf(row, column)`: the row is checked first, then the column; a
        cell inside the grid has index `row * columns + column`. */
    function IndexOf(row: int, column: int): (r: Result<int, IndexError>)
      ensures r.Ok? <==> 0 <= row < size.rows && 0 <= column < size.columns
      ensures !(0 <= row < size.rows) ==> r == Err(InvalidRow(size.rows, row))
      ensures 0 <= row < size.rows && !(0 <= column < size.columns) ==> r == Err(InvalidColumn(size.columns, column))
      ensures r.Ok? ==> r.value == row * size.columns + column && 0 <= r.value < size.rows * size.columns
    {
      if row < 0 || row >= size.rows then Err(InvalidRow(size.rows, row))
      else if column < 0 || column >= size.columns then Err(InvalidColumn(size.columns, column))
      else
        CellInGrid(row, column, size.rows, size.columns);
        Ok(row * size.columns + column)
    }

    /** `IndexOf` is a bijection from the grid's cells onto
        `[0, rows * columns)`: different cells get different indices, and
        every index is the index of the cell `(k / columns, k % columns)`. */
    lemma IndexOfBijective(row: int, column: int, row': int, column': int, k: int)
      requires Valid()
      ensures IndexOf(row, column).Ok? && IndexOf(row', column').Ok? ==>
        (IndexOf(row, column) == IndexOf(row', column') <==> row == row' && column == column')
      ensures 0 <= k < size.rows * size.columns ==> IndexOf(k / size.columns, k % size.columns) == Ok(k)
    {
      if IndexOf(row, column).Ok? && IndexOf(row', column').Ok? && IndexOf(row, column) == IndexOf(row', column') {
        CellOfIndex(row, column, size.columns);
        CellOfIndex(row', column', size.columns);
      }
      if 0 <= k < size.rows * size.columns {
        IndexCell(k, size.rows, size.columns);
      }
    }
  }

  /** A cell inside the grid has a linear index inside the arrays. */
  lemma CellInGrid(row: int, column: int, rows: int, columns: int)
    requires 0 <= row < rows && 0 <= column < columns
    ensures 0 <= row * columns + column < rows * columns
  {
    assert row * columns + column < (row + 1) * columns <= rows * columns;
  }

  /** The linear index gives its cell back: row by division, column as the
      remainder. */
  lemma CellOfIndex(row: int, column: int, columns: int)
    requires 0 <= row && 0 <= column < columns
    ensures (row * columns + column) / columns == row
    ensures (row * columns + column) % columns == column
  {
    DivModUnique(row * columns + column, columns, row, column);
  }

  /** Every index inside the arrays belongs to a cell inside the grid. */
  lemma IndexCell(k: int, rows: nat, columns: nat)
    requires 0 <= k < rows * columns
    ensures columns > 0
    ensures 0 <= k / columns < rows && 0 <= k % columns < columns
  {
  }
}
