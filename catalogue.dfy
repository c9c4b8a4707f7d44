/** The static catalogue of block parts: the eight standard colours, the 22
    special effects, and the texture slot each of them is drawn from.

    In the game every colour and every effect is a subclass of BlockPart; here
    each is a tag, and the per-class constants become total functions on the
    tag. Texture offsets are pairs of floats `(lo / n, hi / n)` in the game; the
    model keeps the integer numerators `lo`, `hi` and the denominator `n`. */
module Catalogue {

  datatype Colour = Red | Green | Blue | Cyan | Yellow | Purple | Grey | Pink

  datatype Effect =
    | Faster | Slower | Stair | Fill | Rumble | Inverse | Switch | Packet
    | Flip | Mini | Blink | Blind | Background | Anti | Bridge | Trans
    | Clear | Question | SZ | Color | Ring | Castle

  /** What a block part is: a standard colour or a special effect. */
  datatype PartKind = Standard(colour: Colour) | Special(effect: Effect) {
    /** The `is_special` flag: set only by the special parts' constructor. */
    predicate IsSpecial() {
      Special?
    }
  }

  /** A texture slot `(lo / denom, hi / denom)` of a texture sheet. */
  datatype TexSlot = TexSlot(lo: int, hi: int, denom: nat)

  /** Number of special effects, the denominator of their texture slots. */
  const SpecialCount: nat := 22

  /** Number of standard colour slots, the denominator of their texture slots. */
  const StandardSlots: nat := 8

  /** SPECIAL_PARTS, in its declared order. */
  function SpecialParts(): seq<Effect> {
    [Faster, Slower, Stair, Fill, Rumble, Inverse, Switch, Packet,
     Flip, Mini, Blink, Blind, Background, Anti, Bridge, Trans,
     Clear, Question, SZ, Color, Ring, Castle]
  }

  /** STANDARD_PARTS, in its declared order; Grey is not among them. */
  function StandardParts(): seq<Colour> {
    [Pink, Purple, Yellow, Cyan, Blue, Green, Red]
  }

  /** The `type` string each special part's constructor sets. */
  function TypeName(e: Effect): string {
    match e
    case Faster => "Faster"
    case Slower => "Slower"
    case Stair => "Stair"
    case Fill => "Fill"
    case Rumble => "Rumble"
    case Inverse => "Inverse"
    case Switch => "Switch"
    case Packet => "Packet"
    case Flip => "Flip"
    case Mini => "Mini"
    case Blink => "Blink"
    case Blind => "Blind"
    case Background => "Background"
    case Anti => "Anti"
    case Bridge => "Bridge"
    case Trans => "Trans"
    case Clear => "Clear"
    case Question => "Question"
    case SZ => "SZ"
    case Color => "Color"
    case Ring => "Ring"
    case Castle => "Castle"
  }

  /** The numerator pair of each special part's `tex_offset`, over 22. */
  function SpecialNumerators(e: Effect): (int, int) {
    match e
    case Faster => (0, 1)
    case Slower => (1, 2)
    case Stair => (2, 3)
    case Fill => (3, 4)
    case Rumble => (4, 5)
    case Inverse => (5, 6)
    case Switch => (6, 7)
    case Packet => (7, 8)
    case Flip => (8, 9)
    case Mini => (9, 10)
    case Blink => (10, 11)
    case Blind => (11, 12)
    case Background => (12, 13)
    case Anti => (13, 14)
    case Bridge => (14, 15)
    case Trans => (15, 16)
    case Clear => (16, 17)
    case Question => (17, 18)
    case SZ => (18, 19)
    case Color => (19, 20)
    case Ring => (20, 21)
    case Castle => (21, 22)
  }

  /** The numerator pair of each standard part's `tex_offset`, over 8. */
  function StandardNumerators(c: Colour): (int, int) {
    match c
    case Red => (1, 2)
    case Green => (2, 3)
    case Blue => (0, 1)
    case Cyan => (5, 6)
    case Yellow => (3, 4)
    case Purple => (4, 5)
    case Grey => (7, 8)
    case Pink => (6, 7)
  }

  /** The texture slot of a part of kind `k`. */
  function TexOffset(k: PartKind): (t: TexSlot)
    ensures t.hi == t.lo + 1 && 0 <= t.lo < t.denom
    ensures t.denom == if k.IsSpecial() then SpecialCount else StandardSlots
  {
    match k
    case Special(e) =>
      var (lo, hi) := SpecialNumerators(e);
      TexSlot(lo, hi, SpecialCount)
    case Standard(c) =>
      var (lo, hi) := StandardNumerators(c);
      TexSlot(lo, hi, StandardSlots)
  }

  /** Where effect `e` stands in SPECIAL_PARTS: every effect stands there,
      and its texture slot is its position. */
  function SpecialIndex(e: Effect): (i: nat)
    ensures i < |SpecialParts()| && SpecialParts()[i] == e
    ensures TexOffset(Special(e)) == TexSlot(i, i + 1, SpecialCount)
  {
    SpecialNumerators(e).0
  }

  /** SPECIAL_PARTS has 22 entries; entry i is special, has texture slot
      (i, i+1) over 22, and no two entries share an effect or a type name. */
  lemma SpecialPartsTable()
    ensures |SpecialParts()| == SpecialCount
    ensures forall i :: 0 <= i < |SpecialParts()| ==>
      Special(SpecialParts()[i]).IsSpecial() &&
      TexOffset(Special(SpecialParts()[i])) == TexSlot(i, i + 1, SpecialCount)
    ensures forall i, j :: 0 <= i < j < |SpecialParts()| ==>
      SpecialParts()[i] != SpecialParts()[j] &&
      TypeName(SpecialParts()[i]) != TypeName(SpecialParts()[j])
  {
    forall i | 0 <= i < |SpecialParts()|
      ensures TexOffset(Special(SpecialParts()[i])) == TexSlot(i, i + 1, SpecialCount)
    {
      SpecialEntry(i);
    }
    forall i, j | 0 <= i < j < |SpecialParts()|
      ensures SpecialParts()[i] != SpecialParts()[j]
      ensures TypeName(SpecialParts()[i]) != TypeName(SpecialParts()[j])
    {
      SpecialEntry(i);
      SpecialEntry(j);
      TypeNameInjective(SpecialParts()[i], SpecialParts()[j]);
    }
  }

  /** Entry `i` of SPECIAL_PARTS is the effect whose index is `i`. */
  lemma SpecialEntry(i: int)
    requires 0 <= i < |SpecialParts()|
    ensures SpecialIndex(SpecialParts()[i]) == i
  {
    if i < 11 {
      assert i == 0 || i == 1 || i == 2 || i == 3 || i == 4 || i == 5 ||
             i == 6 || i == 7 || i == 8 || i == 9 || i == 10;
    } else {
      assert i == 11 || i == 12 || i == 13 || i == 14 || i == 15 || i == 16 ||
             i == 17 || i == 18 || i == 19 || i == 20 || i == 21;
    }
  }

  /** Two effects with the same type name are the same effect. */
  lemma TypeNameInjective(e1: Effect, e2: Effect)
    ensures TypeName(e1) == TypeName(e2) ==> e1 == e2
  {
    if TypeName(e1) == TypeName(e2) {
      var n := TypeName(e1);
      assert |n| == |TypeName(e2)|;
      assert n[0] == TypeName(e2)[0];
    }
  }

  /** STANDARD_PARTS has 7 distinct colours, none of them Grey and none of
      them special. */
  lemma StandardPartsTable()
    ensures |StandardParts()| == 7
    ensures Grey !in StandardParts()
    ensures forall i :: 0 <= i < |StandardParts()| ==> !Standard(StandardParts()[i]).IsSpecial()
    ensures forall i, j :: 0 <= i < j < |StandardParts()| ==> StandardParts()[i] != StandardParts()[j]
  {
  }

  /** The eight colours occupy the eight slots 0..7 of the standard sheet,
      one each. */
  lemma StandardSlotsDistinct(c1: Colour, c2: Colour)
    ensures 0 <= TexOffset(Standard(c1)).lo < StandardSlots
    ensures c1 != c2 ==> TexOffset(Standard(c1)) != TexOffset(Standard(c2))
  {
  }
}
