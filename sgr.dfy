/** Select Graphic Rendition sequences (section 8.3.117 of ECMA-48): the
    on/off switches, the 4-bit, 8-bit and 24-bit colour tables and the font
    selectors (src/lib/superpac/ansi/sgr.ts). */
module Sgr {
  import opened Wrappers
  import opened Text
  import opened Common
  import opened Arith

  /** An attribute's pair of sequences (`AnsiEscSwitch`). */
  datatype Switch = Switch(on: CharSeq, off: CharSeq)

  /** The two subclasses of `AnsiEscControlSeq`; keeping them apart as types
      means a foreground colour cannot be stored where a background one goes. */
  datatype ForeColor = ForeColor(cs: CharSeq)
  datatype BackColor = BackColor(cs: CharSeq)

  /** A colour in both directions. */
  datatype ColorDef = ColorDef(fore: ForeColor, back: BackColor)

  datatype Direction = Fore | Back

  /** The extended-colour parameter: 38 selects the foreground, 48 the background. */
  function ExtendedCode(d: Direction): string {
    if d.Fore? then "38" else "48"
  }

  // The colour names of the 4-bit tables, as indices into `normal` and `bright`.
  const BLACK := 0
  const RED := 1
  const GREEN := 2
  const YELLOW := 3
  const BLUE := 4
  const PURPLE := 5
  const VIOLET := PURPLE
  const CYAN := 6
  const WHITE := 7

  /** Two `ansiEscControlSeq` calls without uid, `on` first. */
  method MakeSwitch(reg: Registry, on: string, off: string) returns (s: Switch)
    requires reg.Valid()
    modifies reg
    ensures reg.Valid()
    ensures SwitchAt(s, on, off, old(reg.next))
    ensures reg.next == old(reg.next) + 2
  {
    var onSeq := AnsiEscControlSeqOf(reg, on, None);
    var offSeq := AnsiEscControlSeqOf(reg, off, None);
    s := Switch(onSeq, offSeq);
  }

  predicate SwitchAt(s: Switch, on: string, off: string, base: int) {
    s == Switch(AnsiEscControlSeq(on, base), AnsiEscControlSeq(off, base + 1))
  }

  /** `foreColor(seq, uid?)`. */
  method ForeColorOf(reg: Registry, body: string, uid: Option<int>) returns (c: ForeColor)
    requires reg.Valid()
    modifies reg
    ensures reg.Valid()
    ensures c == ForeColor(AnsiEscControlSeq(body, ResolvedUid(uid, old(reg.next))))
    ensures reg.next == AdvancedCounter(uid, old(reg.next))
    ensures !Supplied(uid) ==> c.cs.uid !in old(reg.issued) && reg.issued == old(reg.issued) + {c.cs.uid}
  {
    var id := reg.Resolve(uid);
    c := ForeColor(AnsiEscControlSeq(body, id));
  }

  /** `backColor(seq, uid?)`. */
  method BackColorOf(reg: Registry, body: string, uid: Option<int>) returns (c: BackColor)
    requires reg.Valid()
    modifies reg
    ensures reg.Valid()
    ensures c == BackColor(AnsiEscControlSeq(body, ResolvedUid(uid, old(reg.next))))
    ensures reg.next == AdvancedCounter(uid, old(reg.next))
    ensures !Supplied(uid) ==> c.cs.uid !in old(reg.issued) && reg.issued == old(reg.issued) + {c.cs.uid}
  {
    var id := reg.Resolve(uid);
    c := BackColor(AnsiEscControlSeq(body, id));
  }

  /** The palette-index text the 8-bit tables use, exactly as written:
      `38;5;(196)m`, with the parentheses, and `sep` between the parameters. */
  function PaletteBody(d: Direction, sep: char, index: nat): string {
    ExtendedCode(d) + [sep] + "5" + [sep] + "(" + Decimal(index) + ")m"
  }

  /** How a table of colour pairs spells entry `n`: plain codes
      (`${foreBase + n}m`) or a palette index (`38;5;(${first + n})m`). */
  datatype PairScheme =
    | Codes(foreBase: nat, backBase: nat)
    | Indexed(sep: char, first: nat)

  function PairBody(scheme: PairScheme, d: Direction, n: nat): string {
    match scheme
    case Codes(foreBase, backBase) => Decimal((if d.Fore? then foreBase else backBase) + n) + "m"
    case Indexed(sep, first) => PaletteBody(d, sep, first + n)
  }

  /** The pair a table built by `ColorPairs` holds at `n`, the fore colour
      taking id `uid` and the back colour the next one. */
  function Pair(scheme: PairScheme, n: nat, uid: int): ColorDef {
    ColorDef(ForeColor(AnsiEscControlSeq(PairBody(scheme, Fore, n), uid)),
             BackColor(AnsiEscControlSeq(PairBody(scheme, Back, n), uid + 1)))
  }

  predicate PairsFrom(pairs: seq<ColorDef>, count: nat, scheme: PairScheme, base: int) {
    |pairs| == count && forall n :: 0 <= n < count ==> pairs[n] == Pair(scheme, n, base + 2 * n)
  }

  /** `range({to: count}).map((n) => ({fore: foreColor(..), back: backColor(..)}))`. */
  method ColorPairs(reg: Registry, count: nat, scheme: PairScheme) returns (pairs: seq<ColorDef>)
    requires reg.Valid()
    modifies reg
    ensures reg.Valid()
    ensures PairsFrom(pairs, count, scheme, old(reg.next))
    ensures reg.next == old(reg.next) + 2 * count
  {
    var ns := Range(None, count);
    pairs := [];
    var i := 0;
    while i < |ns|
      invariant reg.Valid()
      invariant 0 <= i <= |ns| == count
      invariant reg.next == old(reg.next) + 2 * i
      invariant |pairs| == i
      invariant forall n :: 0 <= n < i ==> pairs[n] == Pair(scheme, n, old(reg.next) + 2 * n)
    {
      var n := ns[i];
      var fore := ForeColorOf(reg, PairBody(scheme, Fore, n), None);
      var back := BackColorOf(reg, PairBody(scheme, Back, n), None);
      assert ColorDef(fore, back) == Pair(scheme, i, old(reg.next) + 2 * i);
      pairs := pairs + [ColorDef(fore, back)];
      i := i + 1;
    }
  }

  /** `FONT`: the eleven font selectors `10m` .. `20m`; index 0 is the
      standard font. */
  method Font(reg: Registry) returns (font: seq<CharSeq>)
    requires reg.Valid()
    modifies reg
    ensures reg.Valid()
    ensures FontFrom(font, old(reg.next))
    ensures reg.next == old(reg.next) + 11
  {
    var ns := Range(None, 11);
    font := [];
    var i := 0;
    while i < |ns|
      invariant reg.Valid()
      invariant 0 <= i <= |ns| == 11
      invariant reg.next == old(reg.next) + i
      invariant |font| == i
      invariant forall n :: 0 <= n < i ==> font[n] == AnsiEscControlSeq(Decimal(10 + n) + "m", old(reg.next) + n)
    {
      var f := AnsiEscControlSeqOf(reg, Decimal(10 + ns[i]) + "m", None);
      font := font + [f];
      i := i + 1;
    }
  }

  predicate FontFrom(font: seq<CharSeq>, base: int) {
    |font| == 11 && forall n :: 0 <= n < 11 ==> font[n] == AnsiEscControlSeq(Decimal(10 + n) + "m", base + n)
  }

  /** The 8-bit palette index of cube entry `[r][g][b]`. */
  function CubeIndex(r: nat, g: nat, b: nat): nat {
    16 + 36 * r + 6 * g + b
  }

  predicate InCube(r: int, g: int, b: int) {
    0 <= r < 6 && 0 <= g < 6 && 0 <= b < 6
  }

  /** The entry a cube built by `Cube` holds at `[r][g][b]`: entries draw ids
      in the order the loops visit them. */
  function CubeEntry<T>(kind: Direction, wrap: CharSeq -> T, r: nat, g: nat, b: nat, base: int): T {
    wrap(AnsiEscControlSeq(PaletteBody(kind, ';', CubeIndex(r, g, b)), base + 36 * r + 6 * g + b))
  }

  ghost predicate CubeFrom<T>(cube: seq<seq<seq<T>>>, kind: Direction, wrap: CharSeq -> T, base: int) {
    && |cube| == 6
    && (forall r :: 0 <= r < 6 ==> |cube[r]| == 6)
    && (forall r, g :: 0 <= r < 6 && 0 <= g < 6 ==> |cube[r][g]| == 6)
    && (forall r, g, b :: InCube(r, g, b) ==> cube[r][g][b] == CubeEntry(kind, wrap, r, g, b, base))
  }

  /** `cube(kind)`: three nested loops over 0..5, one colour each, wrapped by
      `wrap` as the class the kind selects. The loops over green and blue
      are `CubePlane` and `CubeLine`. */
  method Cube<T>(reg: Registry, kind: Direction, wrap: CharSeq -> T) returns (cube: seq<seq<seq<T>>>)
    requires reg.Valid()
    modifies reg
    ensures reg.Valid()
    ensures CubeFrom(cube, kind, wrap, old(reg.next))
    ensures reg.next == old(reg.next) + 216
  {
    ghost var base := reg.next;
    cube := [];
    var rs := Range(None, 6);
    var i := 0;
    while i < |rs|
      invariant reg.Valid()
      invariant 0 <= i <= |rs| == 6
      invariant reg.next == base + 36 * i
      invariant |cube| == i
      invariant forall r :: 0 <= r < i ==> |cube[r]| == 6
      invariant forall r, g :: 0 <= r < i && 0 <= g < 6 ==> |cube[r][g]| == 6
      invariant forall r, g, b :: 0 <= r < i && 0 <= g < 6 && 0 <= b < 6 ==>
        cube[r][g][b] == CubeEntry(kind, wrap, r, g, b, base)
    {
      var rG := CubePlane(reg, kind, wrap, rs[i], base);
      cube := cube + [rG];
      i := i + 1;
    }
  }

  /** The plane `[r]` of the cube, drawing the next 36 ids. */
  method CubePlane<T>(reg: Registry, kind: Direction, wrap: CharSeq -> T, r: nat, ghost base: int) returns (rG: seq<seq<T>>)
    requires reg.next == base + 36 * r
    requires reg.Valid()
    modifies reg
    ensures reg.Valid()
    ensures reg.next == old(reg.next) + 36
    ensures |rG| == 6 && forall g :: 0 <= g < 6 ==> |rG[g]| == 6
    ensures forall g, b :: 0 <= g < 6 && 0 <= b < 6 ==> rG[g][b] == CubeEntry(kind, wrap, r, g, b, base)
  {
    rG := [];
    var gs := Range(None, 6);
    var j := 0;
    while j < |gs|
      invariant reg.Valid()
      invariant 0 <= j <= |gs| == 6
      invariant reg.next == base + 36 * r + 6 * j
      invariant |rG| == j
      invariant forall g :: 0 <= g < j ==> |rG[g]| == 6
      invariant forall g, b :: 0 <= g < j && 0 <= b < 6 ==> rG[g][b] == CubeEntry(kind, wrap, r, g, b, base)
    {
      var rB := CubeLine(reg, kind, wrap, r, gs[j], base);
      rG := rG + [rB];
      j := j + 1;
    }
  }

  /** The line `[r][g]` of the cube, drawing the next 6 ids. */
  method CubeLine<T>(reg: Registry, kind: Direction, wrap: CharSeq -> T, r: nat, g: nat, ghost base: int) returns (rB: seq<T>)
    requires reg.next == base + 36 * r + 6 * g
    requires reg.Valid()
    modifies reg
    ensures reg.Valid()
    ensures reg.next == old(reg.next) + 6
    ensures |rB| == 6 && forall b :: 0 <= b < 6 ==> rB[b] == CubeEntry(kind, wrap, r, g, b, base)
  {
    rB := [];
    var bs := Range(None, 6);
    var k := 0;
    while k < |bs|
      invariant reg.Valid()
      invariant 0 <= k <= |bs| == 6
      invariant reg.next == base + 36 * r + 6 * g + k
      invariant |rB| == k
      invariant forall b :: 0 <= b < k ==> rB[b] == CubeEntry(kind, wrap, r, g, b, base)
    {
      var b := bs[k];
      var c := AnsiEscControlSeqOf(reg, PaletteBody(kind, ';', CubeIndex(r, g, b)), None);
      rB := rB + [wrap(c)];
      k := k + 1;
    }
  }

  datatype Color4 = Color4(normal: seq<ColorDef>, bright: seq<ColorDef>, default: ColorDef)

  datatype Cube6 = Cube6(fore: seq<seq<seq<ForeColor>>>, back: seq<seq<seq<BackColor>>>)

  datatype Color8 = Color8(standard: seq<ColorDef>, high: seq<ColorDef>, cube6: Cube6, grayscale: seq<ColorDef>)

  /** `RESET`, the attribute switches and `FONT`, in the order they are
      defined. */
  datatype Attributes = Attributes(
    reset: CharSeq,
    bold: Switch, faint: Switch, italic: Switch, underline: Switch,
    slowBlink: Switch, rapidBlink: Switch, invert: Switch, conceal: Switch, strike: Switch,
    font: seq<CharSeq>,
    framed: Switch, encircled: Switch, overlined: Switch)

  /** Every table the module exports. */
  datatype Tables = Tables(attributes: Attributes, color4: Color4, color8: Color8)

  const COLOR4_NORMAL := Codes(30, 40)
  const COLOR4_BRIGHT := Codes(90, 100)
  const COLOR8_STANDARD := Indexed(';', 0)
  const COLOR8_HIGH := Indexed(':', 8)
  const COLOR8_GRAYSCALE := Indexed(';', 232)

  /** Where each table's ids start, counted from the id `RESET` takes. */
  const FONT_BASE := 19
  const COLOR4_BASE := 36
  const COLOR8_BASE := 70
  const CUBE_FORE_BASE := 102
  const CUBE_BACK_BASE := 318
  const GRAYSCALE_BASE := 534
  /** How many ids evaluating the module draws from the counter. */
  const SGR_UIDS := 582

  ghost predicate Color4From(c: Color4, base: int) {
    && PairsFrom(c.normal, 8, COLOR4_NORMAL, base)
    && PairsFrom(c.bright, 8, COLOR4_BRIGHT, base + 16)
    && c.default == ColorDef(ForeColor(AnsiEscControlSeq("39m", base + 32)),
                             BackColor(AnsiEscControlSeq("49m", base + 33)))
  }

  /** `COLOR4`: normal colours (codes 30..37 and 40..47), bright colours
      (90..97 and 100..107) and the terminal's defaults (39 and 49). */
  method MakeColor4(reg: Registry) returns (c: Color4)
    requires reg.Valid()
    modifies reg
    ensures reg.Valid()
    ensures Color4From(c, old(reg.next))
    ensures reg.next == old(reg.next) + 34
  {
    var normal := ColorPairs(reg, 8, COLOR4_NORMAL);
    var bright := ColorPairs(reg, 8, COLOR4_BRIGHT);
    var defaultFore := ForeColorOf(reg, "39m", None);
    var defaultBack := BackColorOf(reg, "49m", None);
    c := Color4(normal, bright, ColorDef(defaultFore, defaultBack));
  }

  ghost predicate Color8From(c: Color8, base: int) {
    && PairsFrom(c.standard, 8, COLOR8_STANDARD, base)
    && PairsFrom(c.high, 8, COLOR8_HIGH, base + 16)
    && CubeFrom(c.cube6.fore, Fore, cs => ForeColor(cs), base + CUBE_FORE_BASE - COLOR8_BASE)
    && CubeFrom(c.cube6.back, Back, cs => BackColor(cs), base + CUBE_BACK_BASE - COLOR8_BASE)
    && PairsFrom(c.grayscale, 24, COLOR8_GRAYSCALE, base + GRAYSCALE_BASE - COLOR8_BASE)
  }

  /** `COLOR8`: the standard and high-intensity palette entries 0..15, the
      6x6x6 cube (entries 16..231) in both directions, and the grayscale
      ramp (entries 232..255). */
  method MakeColor8(reg: Registry) returns (c: Color8)
    requires reg.Valid()
    modifies reg
    ensures reg.Valid()
    ensures Color8From(c, old(reg.next))
    ensures reg.next == old(reg.next) + SGR_UIDS - COLOR8_BASE
  {
    var standard := ColorPairs(reg, 8, COLOR8_STANDARD);
    var high := ColorPairs(reg, 8, COLOR8_HIGH);
    var cubeFore := Cube(reg, Fore, cs => ForeColor(cs));
    var cubeBack := Cube(reg, Back, cs => BackColor(cs));
    var grayscale := ColorPairs(reg, 24, COLOR8_GRAYSCALE);
    c := Color8(standard, high, Cube6(cubeFore, cubeBack), grayscale);
  }

  predicate AttributesFrom(a: Attributes, base: int) {
    && a.reset == AnsiEscControlSeq("0m", base)
    && SwitchAt(a.bold, "1m", "22m", base + 1)
    && SwitchAt(a.faint, "2m", "22m", base + 3)
    && SwitchAt(a.italic, "3m", "23m", base + 5)
    && SwitchAt(a.underline, "4m", "24m", base + 7)
    && SwitchAt(a.slowBlink, "5m", "25m", base + 9)
    && SwitchAt(a.rapidBlink, "6m", "25m", base + 11)
    && SwitchAt(a.invert, "7m", "27m", base + 13)
    && SwitchAt(a.conceal, "8m", "28m", base + 15)
    && SwitchAt(a.strike, "9m", "29m", base + 17)
    && FontFrom(a.font, base + FONT_BASE)
    && SwitchAt(a.framed, "51m", "54m", base + 30)
    && SwitchAt(a.encircled, "52m", "54m", base + 32)
    && SwitchAt(a.overlined, "53m", "55m", base + 34)
  }

  /** The module's first 36 ids: `RESET`, each switch `on` then `off`, and
      the eleven fonts, in source order. */
  method MakeAttributes(reg: Registry) returns (a: Attributes)
    requires reg.Valid()
    modifies reg
    ensures reg.Valid()
    ensures AttributesFrom(a, old(reg.next))
    ensures reg.next == old(reg.next) + COLOR4_BASE
  {
    ghost var base := reg.next;
    var reset := AnsiEscControlSeqOf(reg, "0m", None);
    assert reset == AnsiEscControlSeq("0m", base);
    var bold := MakeSwitch(reg, "1m", "22m");
    assert SwitchAt(bold, "1m", "22m", base + 1);
    var faint := MakeSwitch(reg, "2m", "22m");
    assert SwitchAt(faint, "2m", "22m", base + 3);
    var italic := MakeSwitch(reg, "3m", "23m");
    assert SwitchAt(italic, "3m", "23m", base + 5);
    var underline := MakeSwitch(reg, "4m", "24m");
    assert SwitchAt(underline, "4m", "24m", base + 7);
    var slowBlink := MakeSwitch(reg, "5m", "25m");
    assert SwitchAt(slowBlink, "5m", "25m", base + 9);
    var rapidBlink := MakeSwitch(reg, "6m", "25m");
    assert SwitchAt(rapidBlink, "6m", "25m", base + 11);
    var invert := MakeSwitch(reg, "7m", "27m");
    assert SwitchAt(invert, "7m", "27m", base + 13);
    var conceal := MakeSwitch(reg, "8m", "28m");
    assert SwitchAt(conceal, "8m", "28m", base + 15);
    var strike := MakeSwitch(reg, "9m", "29m");
    assert SwitchAt(strike, "9m", "29m", base + 17);
    var font := Font(reg);
    assert FontFrom(font, base + FONT_BASE);
    var framed := MakeSwitch(reg, "51m", "54m");
    assert SwitchAt(framed, "51m", "54m", base + 30);
    var encircled := MakeSwitch(reg, "52m", "54m");
    assert SwitchAt(encircled, "52m", "54m", base + 32);
    var overlined := MakeSwitch(reg, "53m", "55m");
    assert SwitchAt(overlined, "53m", "55m", base + 34);
    a := Attributes(reset, bold, faint, italic, underline, slowBlink, rapidBlink, invert, conceal, strike,
                    font, framed, encircled, overlined);
  }

  /** Evaluating the module: every table, in source order, each id drawn
      from the counter. */
  method InitSgr(reg: Registry) returns (t: Tables)
    requires reg.Valid()
    modifies reg
    ensures reg.Valid()
    ensures AttributesFrom(t.attributes, old(reg.next))
    ensures Color4From(t.color4, old(reg.next) + COLOR4_BASE)
    ensures Color8From(t.color8, old(reg.next) + COLOR8_BASE)
    ensures reg.next == old(reg.next) + SGR_UIDS
  {
    var attributes := MakeAttributes(reg);
    var color4 := MakeColor4(reg);
    var color8 := MakeColor8(reg);
    t := Tables(attributes, color4, color8);
  }

  /** Equal ids mean equal texts, but not the other way round: the three
      pairs of switches whose `off` texts coincide (`22m`, `25m`, `54m`)
      each hold two sequences with the same text and different ids. */
  lemma SharedOffTexts(t: Attributes, base: int)
    requires AttributesFrom(t, base)
    ensures t.bold.off.txt == t.faint.off.txt && t.bold.off.uid != t.faint.off.uid
    ensures t.slowBlink.off.txt == t.rapidBlink.off.txt && t.slowBlink.off.uid != t.rapidBlink.off.uid
    ensures t.framed.off.txt == t.encircled.off.txt && t.framed.off.uid != t.encircled.off.uid
  {
  }

  // ---------------------------------------------------------------------
  // 24-bit colour

  /** Why `check` rejects a channel: below 0 or above 255. (The
      not-an-integer case cannot arise for an `int`.) */
  datatype Problem = BelowZero | Above255

  /** The `RangeError` `check` throws, naming the channel and its value. */
  datatype RangeError = RangeError(channel: string, problem: Problem, value: int)

  predicate IsChannel(x: int) {
    0 <= x <= 255
  }

  /** `check(axis, label)`: `None` when the channel is in range, otherwise the
      error it throws. */
  function Check(axis: int, name: string): (e: Option<RangeError>)
    ensures e.None? <==> IsChannel(axis)
    ensures e.Some? ==> e.value.channel == name && e.value.value == axis
    ensures e.Some? ==> (e.value.problem == BelowZero <==> axis < 0)
  {
    if axis < 0 then Some(RangeError(name, BelowZero, axis))
    else if axis > 255 then Some(RangeError(name, Above255, axis))
    else None
  }

  const FORE24_BASE := 0x0100_0000
  const BACK24_BASE := 0x0200_0000

  /** `partid`: the channels packed as one 24-bit number. */
  function PartId(r: int, g: int, b: int): int {
    r * 65536 + g * 256 + b
  }

  /** `2;r;g;bm`, the part of the 24-bit text after `38;` or `48;`. */
  function Sub24(r: nat, g: nat, b: nat): string {
    "2;" + Decimal(r) + ";" + Decimal(g) + ";" + Decimal(b) + "m"
  }

  /** The channels come back out of `partid`. */
  lemma PartIdDecodes(r: int, g: int, b: int)
    requires IsChannel(r) && IsChannel(g) && IsChannel(b)
    ensures 0 <= PartId(r, g, b) < 0x100_0000
    ensures PartId(r, g, b) / 65536 == r
    ensures PartId(r, g, b) / 256 % 256 == g
    ensures PartId(r, g, b) % 256 == b
  {
    var p := PartId(r, g, b);
    DivModUnique(p, 65536, r, g * 256 + b);
    DivModUnique(p, 256, r * 256 + g, b);
    DivModUnique(r * 256 + g, 256, r, g);
  }

  /** Reads an id back as the direction and channels of the 24-bit colour it
      was computed for, or `None` when no 24-bit colour has that id. */
  function DecodeUid24(uid: int): Option<(Direction, int, int, int)> {
    if FORE24_BASE <= uid < FORE24_BASE + 0x100_0000 then
      var p := uid - FORE24_BASE;
      Some((Fore, p / 65536, p / 256 % 256, p % 256))
    else if BACK24_BASE <= uid < BACK24_BASE + 0x100_0000 then
      var p := uid - BACK24_BASE;
      Some((Back, p / 65536, p / 256 % 256, p % 256))
    else None
  }

  /** `COLOR24({r, g, b})`: the channels are checked red, green, blue and the
      first bad one is reported; otherwise the fore and back colours carry
      ids computed from the channels, which decode back to them, so equal
      colours get equal ids, different colours different ids, and no fore id
      is a back id. */
  function Color24(r: int, g: int, b: int): (res: Result<ColorDef, RangeError>)
    ensures res.Ok? <==> IsChannel(r) && IsChannel(g) && IsChannel(b)
    ensures !IsChannel(r) ==> res == Err(Check(r, "RED").value)
    ensures IsChannel(r) && !IsChannel(g) ==> res == Err(Check(g, "GREEN").value)
    ensures IsChannel(r) && IsChannel(g) && !IsChannel(b) ==> res == Err(Check(b, "BLUE").value)
    ensures res.Ok? ==> DecodeUid24(res.value.fore.cs.uid) == Some((Fore, r, g, b))
    ensures res.Ok? ==> DecodeUid24(res.value.back.cs.uid) == Some((Back, r, g, b))
    ensures res.Ok? ==> ControlBody(res.value.fore.cs) == Some("38;" + Sub24(r, g, b))
    ensures res.Ok? ==> ControlBody(res.value.back.cs) == Some("48;" + Sub24(r, g, b))
  {
    if Check(r, "RED").Some? then Err(Check(r, "RED").value)
    else if Check(g, "GREEN").Some? then Err(Check(g, "GREEN").value)
    else if Check(b, "BLUE").Some? then Err(Check(b, "BLUE").value)
    else
      var partid := PartId(r, g, b);
      var subcmd := Sub24(r, g, b);
      PartIdDecodes(r, g, b);
      ControlBodyRoundTrip("38;" + subcmd, FORE24_BASE + partid, CharSeq("", 0));
      ControlBodyRoundTrip("48;" + subcmd, BACK24_BASE + partid, CharSeq("", 0));
      Ok(ColorDef(ForeColor(AnsiEscControlSeq("38;" + subcmd, FORE24_BASE + partid)),
                  BackColor(AnsiEscControlSeq("48;" + subcmd, BACK24_BASE + partid))))
  }

  /** The identity-token contract of 24-bit colours: two valid colours have
      the same fore id exactly when their channels agree (and likewise for
      back ids), and a fore id never equals a back id. */
  lemma Color24Identity(r: int, g: int, b: int, r': int, g': int, b': int)
    requires Color24(r, g, b).Ok? && Color24(r', g', b').Ok?
    ensures Color24(r, g, b).value.fore.cs.uid == Color24(r', g', b').value.fore.cs.uid <==> (r, g, b) == (r', g', b')
    ensures Color24(r, g, b).value.back.cs.uid == Color24(r', g', b').value.back.cs.uid <==> (r, g, b) == (r', g', b')
    ensures Color24(r, g, b).value.fore.cs.uid != Color24(r', g', b').value.back.cs.uid
  {
  }

  /** The ids `COLOR24` passes to `foreColor`/`backColor` are never 0, so
      `uid || nextUid()` keeps them and the counter is not touched: modelling
      `COLOR24` as a function of the channels alone is exact. */
  lemma Color24LeavesCounter(r: int, g: int, b: int, next: nat)
    requires Color24(r, g, b).Ok?
    ensures var c := Color24(r, g, b).value;
      && ResolvedUid(Some(c.fore.cs.uid), next) == c.fore.cs.uid
      && ResolvedUid(Some(c.back.cs.uid), next) == c.back.cs.uid
      && AdvancedCounter(Some(c.fore.cs.uid), next) == next
      && AdvancedCounter(Some(c.back.cs.uid), next) == next
  {
  }

  /** An id the counter hands out before it reaches 0x01000000 can never be
      mistaken for a 24-bit colour. */
  lemma CounterIdsAreNot24Bit(uid: nat)
    requires uid < FORE24_BASE
    ensures DecodeUid24(uid).None?
  {
  }

  // ---------------------------------------------------------------------
  // The 8-bit palette

  /** A place in the `COLOR8` tables that names a palette index. */
  datatype PaletteSlot =
    | Standard(n: nat)
    | High(n: nat)
    | CubeSlot(r: nat, g: nat, b: nat)
    | Gray(n: nat)

  predicate ValidSlot(s: PaletteSlot) {
    match s
    case Standard(n) => n < 8
    case High(n) => n < 8
    case CubeSlot(r, g, b) => InCube(r, g, b)
    case Gray(n) => n < 24
  }

  /** The palette index a slot's text names. */
  function SlotIndex(s: PaletteSlot): nat {
    match s
    case Standard(n) => COLOR8_STANDARD.first + n
    case High(n) => COLOR8_HIGH.first + n
    case CubeSlot(r, g, b) => CubeIndex(r, g, b)
    case Gray(n) => COLOR8_GRAYSCALE.first + n
  }

  /** The slot that names palette index `i`. */
  function SlotOf(i: nat): (s: PaletteSlot)
    requires i < 256
    ensures ValidSlot(s) && SlotIndex(s) == i
  {
    if i < 8 then Standard(i)
    else if i < 16 then High(i - 8)
    else if i < 232 then CubeSlot((i - 16) / 36, (i - 16) / 6 % 6, (i - 16) % 6)
    else Gray(i - 232)
  }

  /** The `COLOR8` tables name each of the 256 palette indices exactly once:
      the cube covers 16..231 with `16 + 36r + 6g + b`, different
      coordinates giving different indices. */
  lemma PaletteSlotsBijective(s: PaletteSlot)
    requires ValidSlot(s)
    ensures SlotIndex(s) < 256 && SlotOf(SlotIndex(s)) == s
    ensures s.CubeSlot? ==> 16 <= SlotIndex(s) <= 231
  {
    if s.CubeSlot? {
      var j := CubeIndex(s.r, s.g, s.b) - 16;
      DivModUnique(j, 36, s.r, 6 * s.g + s.b);
      DivModUnique(j, 6, 6 * s.r + s.g, s.b);
      DivModUnique(6 * s.r + s.g, 6, s.r, s.g);
    }
  }

  /** Distinct cube coordinates give distinct palette indices. */
  lemma CubeIndexInjective(r: nat, g: nat, b: nat, r': nat, g': nat, b': nat)
    requires InCube(r, g, b) && InCube(r', g', b')
    ensures CubeIndex(r, g, b) == CubeIndex(r', g', b') <==> (r, g, b) == (r', g', b')
  {
    PaletteSlotsBijective(CubeSlot(r, g, b));
    PaletteSlotsBijective(CubeSlot(r', g', b'));
  }

  /** In a cube built by `Cube`, ids identify entries: two entries share an
      id exactly when they are the same entry, and then their texts agree.
      The back cube's ids all lie above the fore cube's, and in both cubes
      an entry's body is its palette text. */
  lemma CubeIdentity(c: Color8, base: int, r: nat, g: nat, b: nat, r': nat, g': nat, b': nat)
    requires Color8From(c, base)
    requires InCube(r, g, b) && InCube(r', g', b')
    ensures c.cube6.fore[r][g][b].cs.uid == c.cube6.fore[r'][g'][b'].cs.uid <==> (r, g, b) == (r', g', b')
    ensures c.cube6.back[r][g][b].cs.uid == c.cube6.back[r'][g'][b'].cs.uid <==> (r, g, b) == (r', g', b')
    ensures c.cube6.fore[r][g][b].cs.uid < c.cube6.back[r'][g'][b'].cs.uid
    ensures ControlBody(c.cube6.fore[r][g][b].cs) == Some(PaletteBody(Fore, ';', CubeIndex(r, g, b)))
    ensures ControlBody(c.cube6.back[r][g][b].cs) == Some(PaletteBody(Back, ';', CubeIndex(r, g, b)))
  {
    CubeIndexInjective(r, g, b, r', g', b');
    ControlBodyRoundTrip(PaletteBody(Fore, ';', CubeIndex(r, g, b)), c.cube6.fore[r][g][b].cs.uid, c.cube6.fore[r][g][b].cs);
    ControlBodyRoundTrip(PaletteBody(Back, ';', CubeIndex(r, g, b)), c.cube6.back[r][g][b].cs.uid, c.cube6.back[r][g][b].cs);
  }

  // ---------------------------------------------------------------------
  // Well-formedness under ECMA-48

  /** A parameter byte (column 03 of the code table, section 5.4 of ECMA-48). */
  predicate IsParameterByte(c: char) {
    0x30 <= c as int <= 0x3F
  }

  predicate ParameterBytes(s: string) {
    forall i :: 0 <= i < |s| ==> IsParameterByte(s[i])
  }

  /** A complete SGR control function: CSI, parameter bytes only, final `m`
      (section 8.3.117 of ECMA-48). */
  predicate IsSgrSequence(c: CharSeq) {
    && |c.txt| >= 3
    && c.txt[..2] == CSI
    && c.txt[|c.txt| - 1] == 'm'
    && ParameterBytes(c.txt[2..|c.txt| - 1])
  }

  lemma ParameterBytesAppend(s: string, t: string)
    requires ParameterBytes(s) && ParameterBytes(t)
    ensures ParameterBytes(s + t)
  {
    forall i | |s| <= i < |s + t| ensures IsParameterByte((s + t)[i]) {
      assert (s + t)[i] == t[i - |s|];
    }
  }

  /** Decimal digits are parameter bytes. */
  lemma DecimalParameterBytes(n: nat)
    ensures ParameterBytes(Decimal(n))
  {
  }

  /** Parameter bytes, then `m`, after the CSI make an SGR sequence. */
  lemma SgrOfParameters(params: string, uid: int)
    requires ParameterBytes(params)
    ensures IsSgrSequence(AnsiEscControlSeq(params + "m", uid))
  {
    var t := AnsiEscControlSeq(params + "m", uid).txt;
    assert t == CSI + params + "m";
    assert t[2..|t| - 1] == params;
  }

  /** Every text of a `Codes` scheme (the 4-bit colours) is a well-formed
      SGR sequence. */
  lemma CodesAreSgr(scheme: PairScheme, d: Direction, n: nat, uid: int)
    requires scheme.Codes?
    ensures IsSgrSequence(AnsiEscControlSeq(PairBody(scheme, d, n), uid))
  {
    var k := (if d.Fore? then scheme.foreBase else scheme.backBase) + n;
    DecimalParameterBytes(k);
    SgrOfParameters(Decimal(k), uid);
  }

  /** Both texts of a 24-bit colour, `38;2;r;g;bm` and `48;2;r;g;bm`, are
      well-formed SGR sequences. */
  lemma Color24IsSgr(r: int, g: int, b: int)
    requires Color24(r, g, b).Ok?
    ensures IsSgrSequence(Color24(r, g, b).value.fore.cs)
    ensures IsSgrSequence(Color24(r, g, b).value.back.cs)
  {
    var c := Color24(r, g, b).value;
    DecimalParameterBytes(r);
    DecimalParameterBytes(g);
    DecimalParameterBytes(b);
    var p1 := "2;" + Decimal(r);
    ParameterBytesAppend("2;", Decimal(r));
    var p2 := p1 + ";" + Decimal(g);
    ParameterBytesAppend(p1, ";");
    ParameterBytesAppend(p1 + ";", Decimal(g));
    var p3 := p2 + ";" + Decimal(b);
    ParameterBytesAppend(p2, ";");
    ParameterBytesAppend(p2 + ";", Decimal(b));
    assert Sub24(r, g, b) == p3 + "m";
    ParameterBytesAppend("38;", p3);
    ParameterBytesAppend("48;", p3);
    assert "38;" + Sub24(r, g, b) == ("38;" + p3) + "m";
    assert "48;" + Sub24(r, g, b) == ("48;" + p3) + "m";
    SgrOfParameters("38;" + p3, c.fore.cs.uid);
    SgrOfParameters("48;" + p3, c.back.cs.uid);
  }

  /** As written, no palette-index text of `COLOR8` is an SGR sequence: the
      `(` after `38;5;` is an intermediate byte, not a parameter byte. */
  lemma PaletteTextIsNotSgr(d: Direction, sep: char, index: nat, uid: int)
    ensures !IsSgrSequence(AnsiEscControlSeq(PaletteBody(d, sep, index), uid))
  {
    var t := AnsiEscControlSeq(PaletteBody(d, sep, index), uid).txt;
    assert t[2..|t| - 1][5] == '(';
  }

  /** The palette-index text as ECMA-48 and xterm expect it: `38;5;196m`. */
  function PaletteBodyIntended(d: Direction, sep: char, index: nat): string {
    ExtendedCode(d) + [sep] + "5" + [sep] + Decimal(index) + "m"
  }

  /** With the parentheses dropped, every palette-index text is an SGR
      sequence for either separator. */
  lemma PaletteTextIntendedIsSgr(d: Direction, sep: char, index: nat, uid: int)
    requires sep == ';' || sep == ':'
    ensures IsSgrSequence(AnsiEscControlSeq(PaletteBodyIntended(d, sep, index), uid))
  {
    var prefix := ExtendedCode(d) + [sep] + "5" + [sep];
    assert ParameterBytes(prefix);
    DecimalParameterBytes(index);
    ParameterBytesAppend(prefix, Decimal(index));
    assert PaletteBodyIntended(d, sep, index) == (prefix + Decimal(index)) + "m";
    SgrOfParameters(prefix + Decimal(index), uid);
  }
}
