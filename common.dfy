/** Character sequences with identity tokens, the `nextUid` counter behind
    them, and the `range` helper the escape-sequence tables are built with
    (src/lib/superpac/ansi/common.ts). */
module Common {
  import opened Wrappers
  import opened Text

  const ESCAPE: char := '\U{1B}'

  /** The Control Sequence Introducer, `ESC [`. */
  const CSI: string := [ESCAPE, '[']

  /** The process-wide identity counter, an explicit object here instead of a
      property of the global `window`. Its value is the next id to hand out;
      `issued` records the ids handed out so far, all of them below it. */
  class Registry {
    var next: nat
    ghost var issued: set<int>

    ghost predicate Valid()
      reads this
    {
      forall u :: u in issued ==> 0 <= u < next
    }

    /** The counter as it is on first use: the first id is 0. */
    constructor ()
      ensures Valid() && next == 0 && issued == {}
    {
      next := 0;
      issued := {};
    }

    /** `nextUid()`: the current value, then the counter moves on by one. The
        id is new: it differs from every id handed out before, and it is
        above all of them. */
    method NextUid() returns (uid: nat)
      requires Valid()
      modifies this
      ensures Valid()
      ensures uid == old(next) && next == old(next) + 1
      ensures uid !in old(issued) && issued == old(issued) + {uid}
      ensures forall u :: u in old(issued) ==> u < uid
    {
      uid := next;
      next := next + 1;
      issued := issued + {uid};
    }

    /** `uid || nextUid()`: a supplied non-zero id is kept and the counter is
        not touched; otherwise a fresh id is drawn. */
    method Resolve(uid: Option<int>) returns (id: int)
      requires Valid()
      modifies this
      ensures Valid()
      ensures id == ResolvedUid(uid, old(next))
      ensures next == AdvancedCounter(uid, old(next))
      ensures Supplied(uid) ==> issued == old(issued)
      ensures !Supplied(uid) ==> id !in old(issued) && issued == old(issued) + {id}
    {
      if Supplied(uid) {
        id := uid.value;
      } else {
        id := NextUid();
      }
    }
  }

  /** Whether JavaScript's `uid || ...` keeps `uid`: it is present and not 0. */
  predicate Supplied(uid: Option<int>) {
    uid.Some? && uid.value != 0
  }

  /** The id `uid || nextUid()` yields when the counter stands at `next`. */
  function ResolvedUid(uid: Option<int>, next: nat): int {
    if Supplied(uid) then uid.value else next
  }

  /** The counter after `uid || nextUid()`. */
  function AdvancedCounter(uid: Option<int>, next: nat): nat {
    if Supplied(uid) then next else next + 1
  }

  /** `range({from, to})`: the integers `from`, `from + 1`, ..., `to - 1`;
      `from` defaults to 0. */
  method Range(from: Option<int>, to: int) returns (r: seq<int>)
    ensures |r| == if to > from.GetOr(0) then to - from.GetOr(0) else 0
    ensures forall k :: 0 <= k < |r| ==> r[k] == from.GetOr(0) + k
  {
    r := [];
    var i := from.GetOr(0);
    while i < to
      invariant from.GetOr(0) <= i
      invariant i <= to || r == []
      invariant |r| == i - from.GetOr(0)
      invariant forall k :: 0 <= k < |r| ==> r[k] == from.GetOr(0) + k
    {
      r := r + [i];
      i := i + 1;
    }
  }

  /** A `CharSeq`: the text `txt` (the constructor's `seq`, stored as
      given), its UTF-8 bytes `bin`, and the identity token `uid`. */
  datatype CharSeq = CharSeq(txt: string, uid: int) {
    function Bin(): seq<byte> { Utf8(txt) }
  }

  /** `new AnsiEscControlSeq(seq, uid)`: the CSI prefixed to `seq`. */
  function AnsiEscControlSeq(body: string, uid: int): CharSeq {
    CharSeq(CSI + body, uid)
  }

  /** The control sequence carried by a `CharSeq` that starts with the CSI. */
  function ControlBody(c: CharSeq): Option<string> {
    if |c.txt| >= 2 && c.txt[..2] == CSI then Some(c.txt[2..]) else None
  }

  /** `AnsiEscControlSeq` prefixes exactly the CSI and keeps the uid: the body
      comes back out unchanged, and every CSI-prefixed `CharSeq` is one. */
  lemma ControlBodyRoundTrip(body: string, uid: int, c: CharSeq)
    ensures ControlBody(AnsiEscControlSeq(body, uid)) == Some(body)
    ensures AnsiEscControlSeq(body, uid).uid == uid
    ensures ControlBody(c).Some? ==> c == AnsiEscControlSeq(ControlBody(c).value, c.uid)
  {
    var s := AnsiEscControlSeq(body, uid).txt;
    assert s[..2] == CSI && s[2..] == body;
    if ControlBody(c).Some? {
      assert c.txt == c.txt[..2] + c.txt[2..];
    }
  }

  /** `charSeq(seq, uid?)`. */
  method CharSeqOf(reg: Registry, text: string, uid: Option<int>) returns (c: CharSeq)
    requires reg.Valid()
    modifies reg
    ensures reg.Valid()
    ensures c == CharSeq(text, ResolvedUid(uid, old(reg.next)))
    ensures reg.next == AdvancedCounter(uid, old(reg.next))
    ensures !Supplied(uid) ==> c.uid !in old(reg.issued) && reg.issued == old(reg.issued) + {c.uid}
  {
    var id := reg.Resolve(uid);
    c := CharSeq(text, id);
  }

  /** `ansiEscControlSeq(seq, uid?)`. */
  method AnsiEscControlSeqOf(reg: Registry, body: string, uid: Option<int>) returns (c: CharSeq)
    requires reg.Valid()
    modifies reg
    ensures reg.Valid()
    ensures c == AnsiEscControlSeq(body, ResolvedUid(uid, old(reg.next)))
    ensures reg.next == AdvancedCounter(uid, old(reg.next))
    ensures !Supplied(uid) ==> c.uid !in old(reg.issued) && reg.issued == old(reg.issued) + {c.uid}
  {
    var id := reg.Resolve(uid);
    c := AnsiEscControlSeq(body, id);
  }

  /** The module's constants, `CR`, `LF`, `SPACE` and `LOW_HALFBLOCK`. */
  datatype Constants = Constants(cr: CharSeq, lf: CharSeq, space: CharSeq, lowHalfBlock: CharSeq)

  /** The text of `LOW_HALFBLOCK` as the file spells it: three characters,
      U+00E2 U+2013 U+201E (the UTF-8 bytes of U+2584 read as Windows-1252). */
  const LOW_HALFBLOCK_TEXT: string := ['â', '–', '„']

  /** Evaluating the module: four `charSeq` calls without uid, in order. */
  method InitCommon(reg: Registry) returns (k: Constants)
    requires reg.Valid()
    modifies reg
    ensures reg.Valid()
    ensures k.cr == CharSeq("\r", old(reg.next))
    ensures k.lf == CharSeq("\n", old(reg.next) + 1)
    ensures k.space == CharSeq(" ", old(reg.next) + 2)
    ensures k.lowHalfBlock == CharSeq(LOW_HALFBLOCK_TEXT, old(reg.next) + 3)
    ensures reg.next == old(reg.next) + 4
  {
    var cr := CharSeqOf(reg, "\r", None);
    var lf := CharSeqOf(reg, "\n", None);
    var space := CharSeqOf(reg, " ", None);
    var low := CharSeqOf(reg, LOW_HALFBLOCK_TEXT, None);
    k := Constants(cr, lf, space, low);
  }

  /** The bytes of `CR`, `LF` and `SPACE` are the single ASCII codes 13, 10
      and 32, and the three have distinct ids. */
  lemma ConstantsBytes(k: Constants, base: nat)
    requires k.cr == CharSeq("\r", base) && k.lf == CharSeq("\n", base + 1)
    requires k.space == CharSeq(" ", base + 2)
    ensures k.cr.Bin() == [13] && k.lf.Bin() == [10] && k.space.Bin() == [32]
    ensures k.cr.uid != k.lf.uid && k.lf.uid != k.space.uid && k.cr.uid != k.space.uid
  {
    Utf8OfAscii("\r");
    Utf8OfAscii("\n");
    Utf8OfAscii(" ");
  }
}
