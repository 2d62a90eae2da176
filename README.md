# superpac terminal-graphics core, modelled in Dafny

This models the core of superpac, a Deno library that draws images in a
terminal with ANSI escape sequences. It covers four parts.

- **Interned character sequences** (`src/lib/superpac/ansi/common.ts`):
  - a `CharSeq` holds a text, its UTF-8 bytes and an identity token `uid`;
  - the `uid` comes from a process-wide counter, `nextUid`;
  - `ansiEscControlSeq` puts the Control Sequence Introducer `ESC [` in front of a body;
  - also covered: the `range` helper and the constants `CR`, `LF`, `SPACE` and `LOW_HALFBLOCK`.
- **SGR (Select Graphic Rendition) tables** (`src/lib/superpac/ansi/sgr.ts`):
  - the attribute switches and the `FONT` selectors;
  - the 4-bit table `COLOR4` and the 8-bit table `COLOR8`, including its 6x6x6 cube;
  - `check` and the on-demand 24-bit `COLOR24`, whose ids are computed from the channels.
- **The virtual terminal** (`src/lib/superpac/term/virtterm.ts`): a grid of cells kept as four parallel flat arrays. `indexOf` is the one bounds-checked index function.
- **The half-block blitter** (`src/lib/superpac/halfblock/halfblock-blit.ts`): `blit` clips an RGBA raster against the grid. A grid cell is two pixels tall, so each cell shows two pixels:
  - even pixel rows go to a cell's background colour;
  - odd pixel rows go to its foreground colour;
  - pixels whose sampled alpha is not positive are skipped.

Files:

- `wrappers.dfy`: `Option` and `Result`.
- `arith.dfy`: uniqueness of division with remainder, which the grid and palette layouts rely on.
- `text.dfy`: the decimal formatting that template strings do, and the UTF-8 encoding that `TextEncoder` does.
- `common.dfy`, `sgr.dfy`, `virtterm.dfy` and `halfblock.dfy`: one module per source file.

How state is modelled:

- **Counter.** The id counter lives on the global `window` in the source. Here it is an explicit `Registry` object, and every operation that draws ids takes it and states how far it moves. Evaluating a module's constants is a method.
  - `InitCommon` draws 4 ids.
  - `InitSgr` draws 582 ids, and its contract gives the exact id of every entry, counted from the first id it draws.
  - The registry also records, as ghost state, the set of ids handed out so far; every operation keeps them all below the counter, so a drawn id is never one handed out before.
- **`VirtTerm`** is a class whose four arrays are `const` fields.
- **`blit`** writes the terminal's `back` and `fore` arrays in place; `pos` is optional and defaults to the origin.
  - Its contract states the arrays after the call as a function of the arrays before it.
  - Lemmas relate that function to the cell-by-cell behaviour.

## Model

| member | source | states |
|---|---|---|
| Common.Registry.constructor | src/lib/superpac/ansi/common.ts:10-12 | the counter starts at 0 on first use, with no id handed out yet |
| Common.Registry.NextUid | src/lib/superpac/ansi/common.ts:8-15 | returns the current counter value and moves the counter on by exactly one; the id is new, above every id handed out before, and every id handed out stays below the counter, so successive calls give distinct, strictly increasing ids |
| Common.Registry.Resolve | src/lib/superpac/ansi/common.ts:51 | `uid \|\| nextUid()`: a supplied non-zero id is returned and the counter is untouched; an absent or zero id draws an id different from every id handed out before and advances the counter by one |
| Common.Range | src/lib/superpac/ansi/common.ts:17-23 | the result has `max(0, to - from)` elements and element `k` is `from + k` (`from` defaults to 0), so an empty or reversed range is empty |
| Common.ControlBodyRoundTrip | src/lib/superpac/ansi/common.ts:57-65 | an `AnsiEscControlSeq` is its body with exactly `ESC [` in front: the body can be read back unchanged, the uid is kept, and every CSI-prefixed sequence is one |
| Common.CharSeqOf | src/lib/superpac/ansi/common.ts:50-52 | `charSeq` keeps the text as given and resolves the id as `uid \|\| nextUid()`; a drawn id is distinct from every id handed out before |
| Common.AnsiEscControlSeqOf | src/lib/superpac/ansi/common.ts:74-79 | `ansiEscControlSeq` prefixes the CSI and resolves the id as `uid \|\| nextUid()`; a drawn id is distinct from every id handed out before |
| Common.InitCommon | src/lib/superpac/ansi/common.ts:81-85 | `CR`, `LF`, `SPACE` and `LOW_HALFBLOCK` take four consecutive ids in source order, with the texts as written |
| Common.ConstantsBytes | src/lib/superpac/ansi/common.ts:81-84 | the bytes of `CR`, `LF` and `SPACE` are 13, 10 and 32, and their ids are pairwise distinct |
| Text.ParseDecimalOfDecimal | src/lib/superpac/ansi/sgr.ts:226 | the decimal text of a number reads back as that number |
| Text.DecimalInjective | src/lib/superpac/ansi/sgr.ts:226 | different numbers have different decimal texts |
| Text.Utf8OfAscii | src/lib/superpac/ansi/common.ts:39 | an ASCII text encodes to one byte per character, each the character's code |
| Text.Utf8Append | src/lib/superpac/ansi/common.ts:39 | the encoding of a concatenation is the concatenation of the encodings |
| Sgr.MakeSwitch | src/lib/superpac/ansi/sgr.ts:21-24 | a switch's `on` and `off` sequences take two consecutive ids, `on` first |
| Sgr.ForeColorOf | src/lib/superpac/ansi/sgr.ts:93-95 | `foreColor` is a control sequence whose id resolves as `uid \|\| nextUid()`; without a supplied id it gets a fresh counter id, distinct from every id handed out before |
| Sgr.BackColorOf | src/lib/superpac/ansi/sgr.ts:97-99 | `backColor` likewise, including the fresh counter id |
| Sgr.ColorPairs | src/lib/superpac/ansi/sgr.ts:119-124 | `range({to}).map(...)` builds `count` pairs; pair `n` has the scheme's text for `n`, its fore id is `base + 2n` and its back id is `base + 2n + 1` |
| Sgr.Font | src/lib/superpac/ansi/sgr.ts:72-73 | `FONT` holds the eleven selectors `10m` through `20m` with consecutive ids |
| Sgr.Cube | src/lib/superpac/ansi/sgr.ts:137-156 | the cube is 6x6x6; entry `[r][g][b]` names palette index `16 + 36r + 6g + b` and has id `base + 36r + 6g + b`; 216 ids are drawn |
| Sgr.CubePlane | src/lib/superpac/ansi/sgr.ts:146-153 | the green-and-blue loops for one red value build a 6x6 plane of cube entries, drawing the next 36 ids |
| Sgr.CubeLine | src/lib/superpac/ansi/sgr.ts:149-152 | the blue loop builds a line of 6 cube entries, drawing the next 6 ids |
| Sgr.MakeColor4 | src/lib/superpac/ansi/sgr.ts:118-135 | `COLOR4`: normal codes 30-37/40-47, bright codes 90-97/100-107, defaults 39/49, 34 ids in source order |
| Sgr.MakeColor8 | src/lib/superpac/ansi/sgr.ts:161-191 | `COLOR8`: the standard (0-7, `;`) and high (8-15, `:`) palette pairs, both cubes, and the grayscale ramp 232-255, 512 ids in source order |
| Sgr.MakeAttributes | src/lib/superpac/ansi/sgr.ts:19-88 | `RESET`, the twelve switches and `FONT` have their texts as written and take the first 36 ids in source order |
| Sgr.InitSgr | src/lib/superpac/ansi/sgr.ts:19-191 | every exported table, with its texts and the exact id of each entry: the attributes take the first id drawn and the 35 after it, `COLOR4` starts 36 ids after the first id drawn and `COLOR8` 70 ids after it; 582 ids in total (when `common.ts`'s four constants are evaluated first they take ids 0-3, so `RESET` is id 4 and `COLOR4` starts at id 40) |
| Sgr.SharedOffTexts | src/lib/superpac/ansi/sgr.ts:21-83 | `BOLD`/`FAINT`, `SLOW_BLINK`/`RAPID_BLINK` and `FRAMED`/`ENCIRCLED` have `off` sequences with equal texts but different ids, so sequences with the same text need not share an id |
| Sgr.Check | src/lib/superpac/ansi/sgr.ts:193-201 | no error exactly when the channel is in 0..255; otherwise the error names the channel and its value and says which bound was crossed |
| Sgr.Color24 | src/lib/superpac/ansi/sgr.ts:213-239 | succeeds exactly when all three channels are valid; otherwise reports the first bad channel in the order red, green, blue; on success both ids decode back to the direction and channels, and the texts are `38;2;r;g;bm` and `48;2;r;g;bm` |
| Sgr.PartIdDecodes | src/lib/superpac/ansi/sgr.ts:225 | for valid channels `partid` is below 2^24, and red, green and blue come back out of it by division and remainder |
| Sgr.Color24Identity | src/lib/superpac/ansi/sgr.ts:225-237 | two 24-bit colours share a fore id, or a back id, exactly when their channels agree; no fore id equals a back id |
| Sgr.Color24LeavesCounter | src/lib/superpac/ansi/sgr.ts:229-237 | the computed ids are never 0, so `uid \|\| nextUid()` keeps them and the counter does not move |
| Sgr.CounterIdsAreNot24Bit | src/lib/superpac/ansi/sgr.ts:230-236 | ids drawn from the counter below 0x01000000 never decode as a 24-bit colour |
| Sgr.SlotOf | src/lib/superpac/ansi/sgr.ts:161-191 | every palette index 0..255 is named by some slot of `COLOR8` |
| Sgr.PaletteSlotsBijective | src/lib/superpac/ansi/sgr.ts:161-191 | each slot of `COLOR8` names an index below 256, and that index leads back to the same slot; cube slots lie in 16..231 |
| Sgr.CubeIndexInjective | src/lib/superpac/ansi/sgr.ts:150 | different cube coordinates name different palette indices |
| Sgr.CubeIdentity | src/lib/superpac/ansi/sgr.ts:137-183 | within each cube, two entries share an id exactly when they are the same entry; every back-cube id lies above every fore-cube id; in both cubes an entry's body is its palette text (`38;5;(i)m` fore, `48;5;(i)m` back) |
| Sgr.CodesAreSgr | src/lib/superpac/ansi/sgr.ts:119-133 | every 4-bit colour text is a well-formed SGR sequence (CSI, parameter bytes, final `m`) |
| Sgr.Color24IsSgr | src/lib/superpac/ansi/sgr.ts:226-236 | every 24-bit colour text is a well-formed SGR sequence |
| Sgr.PaletteTextIsNotSgr | src/lib/superpac/ansi/sgr.ts:150 | as written, no palette-index text is a well-formed SGR sequence |
| Sgr.PaletteTextIntendedIsSgr | src/lib/superpac/ansi/sgr.ts:164-188 | without the parentheses every palette-index text is a well-formed SGR sequence, for either separator |
| Term.StyleFlagsAreDistinctBits | src/lib/superpac/term/virtterm.ts:5-15 | each style flag is a single bit of the 16-bit style word, and no two flags share a bit |
| Term.VirtTerm.constructor | src/lib/superpac/term/virtterm.ts:30-40 | all four arrays have `rows * columns` entries; every cell holds `SPACE`'s bytes (the single byte 32), the default colours of `COLOR4` (texts `ESC [ 39 m` and `ESC [ 49 m`) and no style |
| Term.VirtTerm.IndexOf | src/lib/superpac/term/virtterm.ts:42-58 | succeeds exactly for cells inside the grid, with index `row * columns + column` inside the arrays; otherwise the row error if the row is bad, else the column error |
| Term.VirtTerm.IndexOfBijective | src/lib/superpac/term/virtterm.ts:56 | distinct cells get distinct indices, and every index is the index of cell `(k / columns, k % columns)` |
| Term.CellOfIndex | src/lib/superpac/term/virtterm.ts:56 | a cell's index gives the cell back by division and remainder |
| HalfBlock.Blit | src/lib/superpac/halfblock/halfblock-blit.ts:15-78 | `back` and `fore` after the call are `BackAfter`/`ForeAfter` of their old contents, with the alpha sampled at `+4` as written; `chars` and `style` keep their contents, since the terminal's four arrays are distinct |
| HalfBlock.BlitRgba | src/lib/superpac/halfblock/halfblock-blit.ts:59 | the same with each pixel's own alpha byte (`+3`) |
| HalfBlock.BlitSampling | src/lib/superpac/halfblock/halfblock-blit.ts:23-76 | the early returns and the clipped nested loops compute exactly `BackAfter`/`ForeAfter`, and leave `chars` and `style` unchanged |
| HalfBlock.BlitPixel | src/lib/superpac/halfblock/halfblock-blit.ts:56-73 | one pass of the inner loop takes both layers from "pixels before `(y, x)` handled" to "pixels up to and including `(y, x)` handled" |
| HalfBlock.AfterByCell | src/lib/superpac/halfblock/halfblock-blit.ts:50-76 | after a call, cell `(row, column)` has the background of pixel `(2*row, column)` and the foreground of pixel `(2*row+1, column)` when those pixels are drawn, and otherwise keeps its old colours |
| HalfBlock.ClippedOutIsNoOp | src/lib/superpac/halfblock/halfblock-blit.ts:26-37 | a raster wholly left of, right of, above or below the grid changes nothing, which is what the four early returns do |
| HalfBlock.ClipInRaster | src/lib/superpac/halfblock/halfblock-blit.ts:41-66 | a clipped pixel lies in the raster and its cell lies in the grid, so `indexOf` cannot throw; the red, green and blue reads of a drawn pixel stay in the data |
| HalfBlock.SlotWrittenOnce | src/lib/superpac/halfblock/halfblock-blit.ts:52-73 | two clipped pixels that write the same slot of the same layer are the same pixel |
| HalfBlock.PaintedStart | src/lib/superpac/halfblock/halfblock-blit.ts:50-55 | before the first clipped pixel nothing is written |
| HalfBlock.PaintedStep | src/lib/superpac/halfblock/halfblock-blit.ts:55-74 | handling one pixel writes its slot in the layer of its half if the pixel is drawn, and changes nothing else |
| HalfBlock.SlotShowsPixel | src/lib/superpac/halfblock/halfblock-blit.ts:52-70 | a slot of a layer shows pixel `(y, x)` exactly when it is the slot `(y >> 1) * columns + x` and `y & 1` selects that layer |
| HalfBlock.PaintedNextRow | src/lib/superpac/halfblock/halfblock-blit.ts:50-55 | finishing a pixel row is starting the next one |
| HalfBlock.PaintedEnd | src/lib/superpac/halfblock/halfblock-blit.ts:50 | past the last clipped row every pixel has been handled |
| HalfBlock.OwnAlphaDrawn | src/lib/superpac/halfblock/halfblock-blit.ts:58-61 | with the own-alpha reading, a clipped pixel is drawn exactly when its alpha is positive |
| HalfBlock.TransparentImageLeavesGrid | src/lib/superpac/halfblock/halfblock-blit.ts:58-61 | with the own-alpha reading, a fully transparent raster leaves both colour layers unchanged |
| HalfBlock.TransparentImageDrawnAsWritten | src/lib/superpac/halfblock/halfblock-blit.ts:59 | as written, a fully transparent two-pixel raster still paints the background of a one-cell grid |

## Left out

- The `window` global is not modelled; the counter is an explicit `Registry` passed to every operation that draws ids. That changes nothing about which ids are drawn, or in what order.
- Every `Number.isInteger` test is left out, because the model's numbers are integers:
  - `check`'s "must be an integer" error;
  - `indexOf`'s two "is not an integer" errors;
  - the constructor's assertions.
- `TextEncoder` is modelled as the UTF-8 encoding of Unicode scalar values. Dafny strings cannot hold lone surrogates, which `TextEncoder` would replace with U+FFFD.
- Term.VirtTerm.constructor: requires non-negative `rows` and `columns`. The source also accepts a negative size whenever the product `rows * columns` is not negative: two negative sizes, or a negative size beside a zero one (the product is then `-0`, and `Array(-0)` is empty). It throws from `Array(n)` for a negative product.
- Term.VirtTerm.constructor: `SPACE` and `COLOR4` are parameters instead of module constants; its requires pin their texts to the ones `common.ts` and `sgr.ts` define, and leave their ids free.
- Term.VirtTerm.constructor: every cell's bytes are a value. The source fills the array with one shared `Uint8Array`.
- `import.meta.main` printing the console size is I/O and is left out.
- `mapRGBToCube6`, `blit`'s default `colorFn`, is not part of this model. `colorFn` is a required parameter, a total function.
- The `render` side of the library is not part of this model. That covers writing the grid to the terminal, the examples under `play/` and the key handling.
- HalfBlock.Blit: pixel offsets are unbounded integers. The source's `<< 2` converts to a 32-bit integer and would wrap for rasters of more than 2^29 pixels.
- HalfBlock.Blit: `y & 0x01` and `y >> 1` are written as `y % 2` and `y / 2`. These are equal because `y` is never negative there.
- The tables (`Sgr.Cube`, `Sgr.MakeColor8`, `Sgr.InitSgr`) keep the palette texts as written, with the parentheses.
  - The corrected spelling is `Sgr.PaletteBodyIntended`.
  - It is proved well formed, but no table is built from it.
- The `CharSeq` constructor's parameter `seq` is a reserved word in Dafny, so the text is the field `txt`. The source keeps it in both `seq` and `txt`. The `VirtTerm` field `char` is `chars` here for the same reason.

## Findings

Both rows come from proofs only; nothing was executed.

| source | as written | input that shows it | evidently intended | confidence | as-written member | corrected member |
|---|---|---|---|---|---|---|
| src/lib/superpac/halfblock/halfblock-blit.ts:59 | the alpha of a pixel is read at `iImage + 4`, which is the next pixel's red byte; the last pixel reads past the data and is never drawn | a 2x1 raster with bytes `[10,20,30,0, 40,50,60,0]` at (0, 0) on a 1x1 grid: both alphas are 0, yet the cell's background becomes `colorFn(10, 20, 30).back` | `iImage + 3`, the pixel's own alpha byte, so a fully transparent raster draws nothing | high; not executed | HalfBlock.TransparentImageDrawnAsWritten | HalfBlock.TransparentImageLeavesGrid |
| src/lib/superpac/ansi/sgr.ts:150-188 | palette-index colours are spelled `38;5;(196)m`, with parentheses around the index | cube entry `[5][0][0]`: its text is `ESC[38;5;(196)m`; the character `(` is not an SGR parameter byte (section 5.4 of ECMA-48) | `38;5;196m` (and `38:5:8m` for the high colours) | high; not executed | Sgr.PaletteTextIsNotSgr | Sgr.PaletteTextIntendedIsSgr |
