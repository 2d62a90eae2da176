/** The half-block blitter: draws an RGBA raster onto the virtual terminal
    at twice the vertical resolution, even pixel rows into a cell's
    background and odd rows into its foreground
    (src/lib/superpac/halfblock/halfblock-blit.ts). */
module HalfBlock {
  import opened Wrappers
  import opened Text
  import opened Sgr
  import opened Term
  import opened Arith

  datatype Point = Point(x: int, y: int)

  /** The canvas library's `ImageData`: `width * height` pixels of four bytes
      (red, green, blue, alpha), row after row. */
  datatype ImageData = ImageData(width: nat, height: nat, data: seq<byte>) {
    predicate Valid() {
      |data| == 4 * (width * height)
    }
  }

  /** `colorFn`: quantises a pixel's red, green and blue to a colour pair. */
  type ColorFn = (byte, byte, byte) -> ColorDef

  /** Which byte the blitter reads as a pixel's alpha. */
  datatype AlphaSampling =
    | NextPixelRed  // offset +4, as the source reads it: the next pixel's red byte
    | OwnAlpha      // offset +3, the pixel's own alpha byte

  function AlphaOffset(s: AlphaSampling): nat {
    if s.NextPixelRed? then 4 else 3
  }

  function Max(a: int, b: int): int { if a >= b then a else b }
  function Min(a: int, b: int): int { if a <= b then a else b }

  /** Whether pixel `(y, x)` is handled before the loops reach `(yDone, xDone)`. */
  predicate Before(y: int, x: int, yDone: int, xDone: int) {
    y < yDone || (y == yDone && x < xDone)
  }

  /** One call of `blit`: the raster, its resolved position, the grid's size,
      the colour function and the alpha sampling. */
  datatype Job = Job(image: ImageData, pos: Point, rows: nat, columns: nat, colorFn: ColorFn, sampling: AlphaSampling) {

    // The clipped pixel rectangle: the raster's box intersected with the
    // grid's `columns` x `rows * 2` pixels.
    function XBegin(): int { Max(0, pos.x) }
    function XEnd(): int { Min(columns, pos.x + image.width) }
    function YBegin(): int { Max(0, pos.y) }
    function YEnd(): int { Min(rows * 2, pos.y + image.height) }

    predicate InClip(y: int, x: int) {
      XBegin() <= x < XEnd() && YBegin() <= y < YEnd()
    }

    /** The raster lies wholly left of, right of, above or below the grid. */
    predicate ClippedOut() {
      || pos.x + image.width < 1
      || pos.x >= columns
      || pos.y + image.height < 1
      || pos.y >= rows * 2
    }

    /** `iImage`: the byte offset of pixel `(y, x)`'s red in the raster. */
    function Offset(y: int, x: int): int {
      ((x - pos.x) + (y - pos.y) * image.width) * 4
    }

    /** The alpha the blitter samples; a read past the end of the data is
        `undefined` in JavaScript, which is not `> 0`, so it counts as 0. */
    function Alpha(y: int, x: int): byte {
      var i := Offset(y, x) + AlphaOffset(sampling);
      if 0 <= i < |image.data| then image.data[i] else 0
    }

    /** The pixels that are written: inside the clip with a positive alpha. */
    predicate Drawn(y: int, x: int) {
      InClip(y, x) && Alpha(y, x) > 0
    }

    /** The colour pair `colorFn` gives a drawn pixel. */
    function Color(y: int, x: int): ColorDef
      requires Drawn(y, x)
    {
      ClipInRaster(this, y, x);
      var i := Offset(y, x);
      colorFn(image.data[i], image.data[i + 1], image.data[i + 2])
    }
  }

  /** The job `blit` runs; `pos` defaults to the origin. */
  function JobOf(image: ImageData, term: VirtTerm, pos: Option<Point>, colorFn: ColorFn, sampling: AlphaSampling): Job
    requires term.Valid()
  {
    Job(image, pos.GetOr(Point(0, 0)), term.size.rows, term.size.columns, colorFn, sampling)
  }

  /** A clipped pixel lies in the raster and its cell `(y >> 1, x)` lies in
      the grid, so `indexOf` cannot fail and the red, green and blue reads of
      a drawn pixel stay in the data. */
  lemma ClipInRaster(job: Job, y: int, x: int)
    requires job.InClip(y, x)
    ensures 0 <= x - job.pos.x < job.image.width && 0 <= y - job.pos.y < job.image.height
    ensures 0 <= y / 2 < job.rows && 0 <= x < job.columns
    ensures 0 <= job.Offset(y, x)
    ensures job.Alpha(y, x) > 0 ==> job.Offset(y, x) + 2 < |job.image.data|
  {
    assert (y - job.pos.y) * job.image.width >= 0;
  }

  /** The index of the cell slot pixel `(y, x)` writes. */
  function CellSlot(columns: nat, y: int, x: int): int {
    (y / 2) * columns + x
  }

  /** Each slot is written by at most one pixel: two clipped pixels that land
      on the same index and the same half (even rows on `back`, odd rows on
      `fore`) are the same pixel. */
  lemma SlotWrittenOnce(job: Job, y: int, x: int, y': int, x': int)
    requires job.InClip(y, x) && job.InClip(y', x')
    requires CellSlot(job.columns, y, x) == CellSlot(job.columns, y', x') && y % 2 == y' % 2
    ensures y == y' && x == x'
  {
    ClipInRaster(job, y, x);
    ClipInRaster(job, y', x');
    CellOfIndex(y / 2, x, job.columns);
    CellOfIndex(y' / 2, x', job.columns);
  }

  function BackOf(c: ColorDef): BackColor { c.back }
  function ForeOf(c: ColorDef): ForeColor { c.fore }

  /** A colour layer (`half` 0: `back`, from the even pixel rows; `half` 1:
      `fore`, from the odd rows) after the pixels before `(yDone, xDone)`
      have been handled: slot `k` belongs to cell `(k / columns, k % columns)`
      and is taken from pixel `(2 * row + half, column)` if that pixel is
      drawn and handled, and keeps its old value otherwise. */
  function Painted<T>(prev: seq<T>, job: Job, half: nat, pick: ColorDef -> T, yDone: int, xDone: int): (s: seq<T>)
    requires |prev| == job.rows * job.columns
    ensures |s| == |prev|
  {
    seq(|prev|, k requires 0 <= k < |prev| => SlotValue(prev, job, half, pick, yDone, xDone, k))
  }

  /** Slot `k` of `Painted`. */
  function SlotValue<T>(prev: seq<T>, job: Job, half: nat, pick: ColorDef -> T, yDone: int, xDone: int, k: int): T
    requires |prev| == job.rows * job.columns && 0 <= k < |prev|
  {
    IndexCell(k, job.rows, job.columns);
    var y, x := 2 * (k / job.columns) + half, k % job.columns;
    if job.Drawn(y, x) && Before(y, x, yDone, xDone) then pick(job.Color(y, x)) else prev[k]
  }

  /** `back` after a whole call. */
  function BackAfter(prev: seq<BackColor>, job: Job): seq<BackColor>
    requires |prev| == job.rows * job.columns
  {
    Painted(prev, job, 0, BackOf, job.rows * 2, 0)
  }

  /** `fore` after a whole call. */
  function ForeAfter(prev: seq<ForeColor>, job: Job): seq<ForeColor>
    requires |prev| == job.rows * job.columns
  {
    Painted(prev, job, 1, ForeOf, job.rows * 2, 0)
  }

  /** Cell by cell: a call sets the background of cell `(row, column)` to the
      colour of pixel `(2 * row, column)` and its foreground to that of pixel
      `(2 * row + 1, column)` when those pixels are drawn, and leaves every
      other slot as it was. */
  lemma AfterByCell(prevBack: seq<BackColor>, prevFore: seq<ForeColor>, job: Job, row: int, column: int)
    requires |prevBack| == |prevFore| == job.rows * job.columns
    requires 0 <= row < job.rows && 0 <= column < job.columns
    ensures var k := row * job.columns + column;
      && 0 <= k < |prevBack|
      && BackAfter(prevBack, job)[k] == (if job.Drawn(2 * row, column) then job.Color(2 * row, column).back else prevBack[k])
      && ForeAfter(prevFore, job)[k] == (if job.Drawn(2 * row + 1, column) then job.Color(2 * row + 1, column).fore else prevFore[k])
  {
    CellInGrid(row, column, job.rows, job.columns);
    CellOfIndex(row, column, job.columns);
  }

  /** When the raster is wholly outside the grid nothing is drawn: the early
      returns of `blit` agree with the empty clip rectangle. */
  lemma ClippedOutIsNoOp<T>(prev: seq<T>, job: Job, half: nat, pick: ColorDef -> T)
    requires |prev| == job.rows * job.columns
    requires job.ClippedOut()
    ensures Painted(prev, job, half, pick, job.rows * 2, 0) == prev
  {
    forall k | 0 <= k < |prev|
      ensures Painted(prev, job, half, pick, job.rows * 2, 0)[k] == prev[k]
    {
      IndexCell(k, job.rows, job.columns);
      assert !job.InClip(2 * (k / job.columns) + half, k % job.columns);
    }
  }

  /** Nothing is handled before the first clipped pixel. */
  lemma PaintedStart<T>(prev: seq<T>, job: Job, half: nat, pick: ColorDef -> T)
    requires |prev| == job.rows * job.columns
    ensures Painted(prev, job, half, pick, job.YBegin(), job.XBegin()) == prev
  {
  }

  /** Handling pixel `(y, x)` writes its slot in the layer of its half if it
      is drawn, and changes nothing else. */
  lemma PaintedStep<T>(prev: seq<T>, job: Job, half: nat, pick: ColorDef -> T, y: int, x: int)
    requires |prev| == job.rows * job.columns && half < 2
    requires job.InClip(y, x)
    ensures 0 <= CellSlot(job.columns, y, x) < |prev|
    ensures Painted(prev, job, half, pick, y, x + 1) ==
      if job.Drawn(y, x) && y % 2 == half
      then Painted(prev, job, half, pick, y, x)[CellSlot(job.columns, y, x) := pick(job.Color(y, x))]
      else Painted(prev, job, half, pick, y, x)
  {
    ClipInRaster(job, y, x);
    CellInGrid(y / 2, x, job.rows, job.columns);
    var idx := CellSlot(job.columns, y, x);
    var before := Painted(prev, job, half, pick, y, x);
    var after := Painted(prev, job, half, pick, y, x + 1);
    forall k | 0 <= k < |prev|
      ensures after[k] == if job.Drawn(y, x) && y % 2 == half && k == idx then pick(job.Color(y, x)) else before[k]
    {
      SlotValueStep(prev, job, half, pick, y, x, k);
    }
  }

  /** `PaintedStep` for one slot `k`. */
  lemma SlotValueStep<T>(prev: seq<T>, job: Job, half: nat, pick: ColorDef -> T, y: int, x: int, k: int)
    requires |prev| == job.rows * job.columns && half < 2
    requires job.InClip(y, x) && 0 <= k < |prev|
    ensures SlotValue(prev, job, half, pick, y, x + 1, k) ==
      if job.Drawn(y, x) && y % 2 == half && k == CellSlot(job.columns, y, x)
      then pick(job.Color(y, x))
      else SlotValue(prev, job, half, pick, y, x, k)
  {
    ClipInRaster(job, y, x);
    IndexCell(k, job.rows, job.columns);
    SlotShowsPixel(k, job.columns, half, y, x);
    var row, column := k / job.columns, k % job.columns;
    assert Before(2 * row + half, column, y, x + 1) == (Before(2 * row + half, column, y, x) || (2 * row + half == y && column == x));
  }

  /** Slot `k` of the layer of `half` shows pixel `(y, x)` exactly when it is
      the slot `(y, x)` writes and `y` has that half's parity. */
  lemma SlotShowsPixel(k: int, columns: int, half: int, y: int, x: int)
    requires columns > 0 && 0 <= k && 0 <= half < 2 && 0 <= y && 0 <= x < columns
    ensures (2 * (k / columns) + half == y && k % columns == x) <==> (k == CellSlot(columns, y, x) && y % 2 == half)
  {
    CellOfIndex(y / 2, x, columns);
    assert k == (k / columns) * columns + k % columns;
  }

  /** Finishing a pixel row is the same as starting the next one. */
  lemma PaintedNextRow<T>(prev: seq<T>, job: Job, half: nat, pick: ColorDef -> T, y: int)
    requires |prev| == job.rows * job.columns
    ensures Painted(prev, job, half, pick, y, job.XEnd()) == Painted(prev, job, half, pick, y + 1, job.XBegin())
  {
  }

  /** Once the loops are past the last clipped row, every pixel is handled. */
  lemma PaintedEnd<T>(prev: seq<T>, job: Job, half: nat, pick: ColorDef -> T, y: int)
    requires |prev| == job.rows * job.columns
    requires y >= job.YEnd()
    ensures Painted(prev, job, half, pick, y, job.XBegin()) == Painted(prev, job, half, pick, job.rows * 2, 0)
  {
  }

  /** Pixel `p`'s own alpha byte, the fourth of its four. */
  function AlphaOf(image: ImageData, p: int): byte
    requires image.Valid() && 0 <= p < image.width * image.height
  {
    image.data[4 * p + 3]
  }

  /** Every pixel of the raster has alpha 0. */
  predicate FullyTransparent(image: ImageData)
    requires image.Valid()
  {
    forall p :: 0 <= p < image.width * image.height ==> AlphaOf(image, p) == 0
  }

  /** The raster pixel that grid pixel `(y, x)` shows. */
  function PixelOf(job: Job, y: int, x: int): int {
    (x - job.pos.x) + (y - job.pos.y) * job.image.width
  }

  /** Sampling the pixel's own alpha, a clipped pixel is drawn exactly when
      its alpha is positive. */
  lemma OwnAlphaDrawn(job: Job, y: int, x: int)
    requires job.sampling == OwnAlpha && job.image.Valid() && job.InClip(y, x)
    ensures 0 <= PixelOf(job, y, x) < job.image.width * job.image.height
    ensures job.Drawn(y, x) <==> AlphaOf(job.image, PixelOf(job, y, x)) > 0
  {
    ClipInRaster(job, y, x);
    var p := PixelOf(job, y, x);
    CellInGrid(y - job.pos.y, x - job.pos.x, job.image.height, job.image.width);
    assert job.image.height * job.image.width == job.image.width * job.image.height;
    assert job.Offset(y, x) == 4 * p;
    assert 4 * p + 3 < |job.image.data|;
  }

  /** Sampling the pixel's own alpha, a fully transparent raster leaves both
      colour layers as they were. */
  lemma TransparentImageLeavesGrid(prevBack: seq<BackColor>, prevFore: seq<ForeColor>, job: Job)
    requires |prevBack| == |prevFore| == job.rows * job.columns
    requires job.sampling == OwnAlpha && job.image.Valid() && FullyTransparent(job.image)
    ensures BackAfter(prevBack, job) == prevBack
    ensures ForeAfter(prevFore, job) == prevFore
  {
    forall k | 0 <= k < |prevBack|
      ensures BackAfter(prevBack, job)[k] == prevBack[k] && ForeAfter(prevFore, job)[k] == prevFore[k]
    {
      IndexCell(k, job.rows, job.columns);
      var row, column := k / job.columns, k % job.columns;
      if job.InClip(2 * row, column) {
        OwnAlphaDrawn(job, 2 * row, column);
      }
      if job.InClip(2 * row + 1, column) {
        OwnAlphaDrawn(job, 2 * row + 1, column);
      }
    }
  }

  /** As written, the alpha sampled for a pixel is the next pixel's red: a
      two-pixel raster whose alpha bytes are both 0 still paints the one-cell
      grid's background with its first pixel's colour. */
  lemma TransparentImageDrawnAsWritten(prevBack: seq<BackColor>, colorFn: ColorFn)
    requires |prevBack| == 1
    ensures var job := Job(ImageData(2, 1, [10, 20, 30, 0, 40, 50, 60, 0]), Point(0, 0), 1, 1, colorFn, NextPixelRed);
      && job.image.Valid() && FullyTransparent(job.image)
      && job.Drawn(0, 0)
      && BackAfter(prevBack, job) == [colorFn(10, 20, 30).back]
  {
    var job := Job(ImageData(2, 1, [10, 20, 30, 0, 40, 50, 60, 0]), Point(0, 0), 1, 1, colorFn, NextPixelRed);
    assert AlphaOf(job.image, 0) == 0 && AlphaOf(job.image, 1) == 0;
    assert job.Alpha(0, 0) == 40;
    assert BackAfter(prevBack, job)[0] == SlotValue(prevBack, job, 0, BackOf, 2, 0, 0);
  }

  /** `blit(image, term, {pos, colorFn})`, as written: the alpha is sampled
      at offset +4. */
  method Blit(image: ImageData, term: VirtTerm, pos: Option<Point>, colorFn: ColorFn)
    requires term.Valid()
    modifies term.back, term.fore
    ensures unchanged(term.chars, term.style)
    ensures term.back[..] == BackAfter(old(term.back[..]), JobOf(image, term, pos, colorFn, NextPixelRed))
    ensures term.fore[..] == ForeAfter(old(term.fore[..]), JobOf(image, term, pos, colorFn, NextPixelRed))
  {
    BlitSampling(image, term, pos, colorFn, NextPixelRed);
  }

  /** `blit` reading each pixel's own alpha byte (offset +3). */
  method BlitRgba(image: ImageData, term: VirtTerm, pos: Option<Point>, colorFn: ColorFn)
    requires term.Valid()
    modifies term.back, term.fore
    ensures unchanged(term.chars, term.style)
    ensures term.back[..] == BackAfter(old(term.back[..]), JobOf(image, term, pos, colorFn, OwnAlpha))
    ensures term.fore[..] == ForeAfter(old(term.fore[..]), JobOf(image, term, pos, colorFn, OwnAlpha))
  {
    BlitSampling(image, term, pos, colorFn, OwnAlpha);
  }

  /** The body of the inner loop for pixel `(y, x)`, with the values the
      outer loop computed for the row: the image row `yImg`, the half
      `termBlock` and the cell row `rowOfTerm`. */
  method BlitPixel(image: ImageData, term: VirtTerm, colorFn: ColorFn, sampling: AlphaSampling,
                   y: int, x: int, yImg: int, termBlock: int, rowOfTerm: int, xImg: int,
                   ghost job: Job, ghost back0: seq<BackColor>, ghost fore0: seq<ForeColor>)
    requires term.Valid() && job.image == image && job.colorFn == colorFn && job.sampling == sampling
    requires job.rows == term.size.rows && job.columns == term.size.columns
    requires job.InClip(y, x)
    requires yImg == y - job.pos.y && xImg == x - job.pos.x && termBlock == y % 2 && rowOfTerm == y / 2
    requires |back0| == |fore0| == job.rows * job.columns
    requires term.back[..] == Painted(back0, job, 0, BackOf, y, x)
    requires term.fore[..] == Painted(fore0, job, 1, ForeOf, y, x)
    modifies term.back, term.fore
    ensures term.back[..] == Painted(back0, job, 0, BackOf, y, x + 1)
    ensures term.fore[..] == Painted(fore0, job, 1, ForeOf, y, x + 1)
  {
    ClipInRaster(job, y, x);
    PaintedStep(back0, job, 0, BackOf, y, x);
    PaintedStep(fore0, job, 1, ForeOf, y, x);

    var iImage := (xImg + yImg * image.width) * 4;
    var iAlpha := iImage + AlphaOffset(sampling);
    var alpha := if iAlpha < |image.data| then image.data[iAlpha] else 0;
    assert alpha == job.Alpha(y, x);
    if alpha > 0 {
      var r := image.data[iImage + 0];
      var g := image.data[iImage + 1];
      var b := image.data[iImage + 2];
      var iTerm := term.IndexOf(rowOfTerm, x).value;
      var color := colorFn(r, g, b);
      assert color == job.Color(y, x);
      if termBlock == 0 {
        term.back[iTerm] := color.back;
      } else {
        term.fore[iTerm] := color.fore;
      }
    }
  }

  /** The blitter's body: the four early returns, then the nested loops over
      the clipped rectangle. `chars` and `style` are not in the frame and are
      arrays apart from `back` and `fore`, so they keep their contents. */
  method BlitSampling(image: ImageData, term: VirtTerm, pos: Option<Point>, colorFn: ColorFn, sampling: AlphaSampling)
    requires term.Valid()
    modifies term.back, term.fore
    ensures unchanged(term.chars, term.style)
    ensures term.back[..] == BackAfter(old(term.back[..]), JobOf(image, term, pos, colorFn, sampling))
    ensures term.fore[..] == ForeAfter(old(term.fore[..]), JobOf(image, term, pos, colorFn, sampling))
  {
    var p := pos.GetOr(Point(0, 0));
    ghost var job := JobOf(image, term, pos, colorFn, sampling);
    ghost var back0, fore0 := term.back[..], term.fore[..];

    if p.x + image.width < 1 || p.x >= term.size.columns || p.y + image.height < 1 || p.y >= term.size.rows * 2 {
      // cases 1 to 4: left of, right of, above or below the grid
      ClippedOutIsNoOp(back0, job, 0, BackOf);
      ClippedOutIsNoOp(fore0, job, 1, ForeOf);
      return;
    }

    var xBgn := Max(0, p.x);
    var xEnd := Min(term.size.columns, p.x + image.width);
    var yBgn := Max(0, p.y);
    var yEnd := Min(term.size.rows * 2, p.y + image.height);
    var xImgOffset := -p.x;
    var yImgOffset := -p.y;

    PaintedStart(back0, job, 0, BackOf);
    PaintedStart(fore0, job, 1, ForeOf);
    var y := yBgn;
    while y < yEnd
      invariant yBgn <= y <= yEnd
      invariant term.back[..] == Painted(back0, job, 0, BackOf, y, xBgn)
      invariant term.fore[..] == Painted(fore0, job, 1, ForeOf, y, xBgn)
    {
      var yImg := y + yImgOffset;
      var termBlock := y % 2;  // y & 0x01, as y >= 0
      var rowOfTerm := y / 2;  // y >> 1, as y >= 0
      var x := xBgn;
      while x < xEnd
        invariant xBgn <= x <= xEnd
        invariant term.back[..] == Painted(back0, job, 0, BackOf, y, x)
        invariant term.fore[..] == Painted(fore0, job, 1, ForeOf, y, x)
      {
        BlitPixel(image, term, colorFn, sampling, y, x, yImg, termBlock, rowOfTerm, x + xImgOffset, job, back0, fore0);
        x := x + 1;
      }
      PaintedNextRow(back0, job, 0, BackOf, y);
      PaintedNextRow(fore0, job, 1, ForeOf, y);
      y := y + 1;
    }
    PaintedEnd(back0, job, 0, BackOf, y);
    PaintedEnd(fore0, job, 1, ForeOf, y);
  }
}
