/** Interrupt priorities (`CORE/core_cm4.h`): packing preemption and sub-priority into the
    implemented bits, and the registers the result is kept in. `bits` stands for
    `__NVIC_PRIO_BITS`. */
module Nvic {

  function Mask(bits: bv32): bv32
    requires bits <= 8
  {
    (1 << bits) - 1
  }

  function PreemptBits(bits: bv32, group: bv32): (r: bv32)
    requires 1 <= bits <= 8
    ensures r <= 7
  {
    var g := group & 0x07;
    if 7 - g > bits then bits else 7 - g
  }

  function SubBits(bits: bv32, group: bv32): (r: bv32)
    requires 1 <= bits <= 8
    ensures r <= 8
  {
    var g := group & 0x07;
    if g + bits < 7 then 0 else (g - 7) + bits
  }

  function EncodePriority(bits: bv32, group: bv32, preempt: bv32, sub: bv32): bv32
    requires 1 <= bits <= 8
  {
    Packed(PreemptBits(bits, group), SubBits(bits, group), preempt, sub)
  }

  /** Two fields of p and s bits side by side. */
  function Packed(p: bv32, s: bv32, preempt: bv32, sub: bv32): bv32
    requires p <= 8 && s <= 8
  {
    ((preempt & Mask(p)) << s) | (sub & Mask(s))
  }

  function Unpacked(p: bv32, s: bv32, x: bv32): (bv32, bv32)
    requires p <= 8 && s <= 8
  {
    ((x >> s) & Mask(p), x & Mask(s))
  }

  method DecodePriority(bits: bv32, priority: bv32, group: bv32) returns (preempt: bv32, sub: bv32)
    requires 1 <= bits <= 8
    ensures (preempt, sub) == Decoded(bits, priority, group)
  {
    var g := group & 0x07;
    var preemptBits := if 7 - g > bits then bits else 7 - g;
    var subBits := if g + bits < 7 then 0 else (g - 7) + bits;
    preempt := (priority >> subBits) & ((1 << preemptBits) - 1);
    sub := priority & ((1 << subBits) - 1);
  }

  function Decoded(bits: bv32, priority: bv32, group: bv32): (bv32, bv32)
    requires 1 <= bits <= 8
  {
    Unpacked(PreemptBits(bits, group), SubBits(bits, group), priority)
  }

  /** Encoding the parts of a priority that fits the implemented bits gives it back. */
  lemma EncodeUndoesDecode(bits: bv32, group: bv32, priority: bv32)
    requires 1 <= bits <= 8 && priority <= Mask(bits)
    ensures var (preempt, sub) := Decoded(bits, priority, group);
      EncodePriority(bits, group, preempt, sub) == priority
  {
    FieldsShareTheBits(bits, group);
    Repack(bits, PreemptBits(bits, group), SubBits(bits, group), priority);
  }

  /** Decoding an encoded pair gives back the pair, cut to the widths of the fields. */
  lemma DecodeUndoesEncode(bits: bv32, group: bv32, preempt: bv32, sub: bv32)
    requires 1 <= bits <= 8
    ensures Decoded(bits, EncodePriority(bits, group, preempt, sub), group) ==
      (preempt & Mask(PreemptBits(bits, group)), sub & Mask(SubBits(bits, group)))
  {
    var p, s := PreemptBits(bits, group), SubBits(bits, group);
    FieldsShareTheBits(bits, group);
    MaskedFits(p, preempt);
    MaskedFits(s, sub);
    Unpack(p, s, preempt & Mask(p), sub & Mask(s));
  }

  lemma Unpack(p: bv32, s: bv32, x: bv32, y: bv32)
    requires p <= 8 && s <= 8 && x <= Mask(p) && y <= Mask(s)
    ensures (((x << s) | y) >> s) & Mask(p) == x
    ensures ((x << s) | y) & Mask(s) == y
  {
  }

  // ----- The two fields

  /** Between them the two fields use exactly the implemented bits, whatever the group. */
  lemma FieldsShareTheBits(bits: bv32, group: bv32)
    requires 1 <= bits <= 8
    ensures PreemptBits(bits, group) + SubBits(bits, group) == bits
  {
  }

  lemma MaskedFits(bits: bv32, x: bv32)
    requires bits <= 8
    ensures x & Mask(bits) <= Mask(bits) <= 0xff
    ensures x <= Mask(bits) ==> x & Mask(bits) == x
  {
  }

  lemma Rejoin(p: bv32, s: bv32, x: bv32)
    requires p <= 8 && s <= 8 && p + s <= 8 && x <= Mask(p + s)
    ensures (x >> s) & Mask(p) == x >> s
    ensures ((x >> s) << s) | (x & Mask(s)) == x
  {
  }

  lemma MaskedTwice(bits: bv32, x: bv32)
    requires bits <= 8
    ensures (x & Mask(bits)) & Mask(bits) == x & Mask(bits)
  {
  }

  lemma Repack(bits: bv32, p: bv32, s: bv32, x: bv32)
    requires bits <= 8 && p <= 8 && s <= 8 && p + s == bits && x <= Mask(bits)
    ensures Packed(p, s, Unpacked(p, s, x).0, Unpacked(p, s, x).1) == x
  {
    Rejoin(p, s, x);
    MaskedTwice(s, x);
  }

  lemma PackedFits(p: bv32, s: bv32, x: bv32, y: bv32)
    requires p <= 8 && s <= 8 && p + s <= 8 && x <= Mask(p) && y <= Mask(s)
    ensures (x << s) | y <= Mask(p + s)
  {
  }

  lemma Below(s: bv32, x: bv32, y: bv32)
    requires s <= 8 && x <= 0xff && y <= Mask(s)
    ensures (x << s) | y < (x + 1) << s
  {
  }

  lemma ShiftKeepsOrder(s: bv32, x: bv32, x': bv32)
    requires s <= 8 && x <= x' <= 0x100
    ensures x << s <= x' << s
  {
  }

  lemma HigherFieldWins(s: bv32, x: bv32, y: bv32, x': bv32, y': bv32)
    requires s <= 8 && x < x' <= 0xff && y <= Mask(s) && y' <= Mask(s)
    ensures (x << s) | y < (x' << s) | y'
  {
    Below(s, x, y);
    ShiftKeepsOrder(s, x + 1, x');
  }

  lemma LowerFieldDecides(s: bv32, x: bv32, y: bv32, y': bv32)
    requires s <= 8 && x <= 0xff && y < y' <= Mask(s)
    ensures (x << s) | y < (x << s) | y'
  {
  }

  /** An encoded priority is the two fields side by side, and fits the implemented bits. */
  lemma EncodedFields(bits: bv32, group: bv32, preempt: bv32, sub: bv32)
    requires 1 <= bits <= 8
    requires preempt <= Mask(PreemptBits(bits, group)) && sub <= Mask(SubBits(bits, group))
    ensures EncodePriority(bits, group, preempt, sub) == (preempt << SubBits(bits, group)) | sub
    ensures EncodePriority(bits, group, preempt, sub) <= Mask(bits)
    ensures preempt <= 0xff
  {
    var p, s := PreemptBits(bits, group), SubBits(bits, group);
    MaskedFits(p, preempt);
    MaskedFits(s, sub);
    FieldsShareTheBits(bits, group);
    PackedFits(p, s, preempt, sub);
  }

  /** Encoded priorities compare as the pairs do: preemption priority first, sub-priority
      second. Both orders are total, so this is an order isomorphism, and different pairs
      have different codes. */
  lemma EncodingKeepsOrder(bits: bv32, group: bv32, preempt: bv32, sub: bv32, preempt': bv32, sub': bv32)
    requires 1 <= bits <= 8
    requires preempt <= Mask(PreemptBits(bits, group)) && sub <= Mask(SubBits(bits, group))
    requires preempt' <= Mask(PreemptBits(bits, group)) && sub' <= Mask(SubBits(bits, group))
    requires preempt < preempt' || (preempt == preempt' && sub < sub')
    ensures EncodePriority(bits, group, preempt, sub) < EncodePriority(bits, group, preempt', sub')
  {
    EncodedFields(bits, group, preempt, sub);
    EncodedFields(bits, group, preempt', sub');
    if preempt < preempt' {
      HigherFieldWins(SubBits(bits, group), preempt, sub, preempt', sub');
    } else {
      LowerFieldDecides(SubBits(bits, group), preempt, sub, sub');
    }
  }

  /** What the hardware makes of the byte a priority is stored as: with group g it takes the
      bits above bit g for preemption and the others for the sub-priority, of both the upper
      ones that are implemented. The two fields are exactly those. */
  lemma HardwareSplitsFields(bits: bv32, group: bv32, preempt: bv32, sub: bv32)
    requires 1 <= bits <= 8
    requires preempt <= Mask(PreemptBits(bits, group)) && sub <= Mask(SubBits(bits, group))
    ensures var (g, stored) := (group & 0x07, Stored(bits, EncodePriority(bits, group, preempt, sub)) as bv32);
      && PreemptBits(bits, group) <= 7 - g
      && stored >> (g + 1) == preempt << (7 - g - PreemptBits(bits, group))
      && stored & Mask(g + 1) == sub << (8 - bits)
  {
    var g, p, s := group & 0x07, PreemptBits(bits, group), SubBits(bits, group);
    EncodedFields(bits, group, preempt, sub);
    FieldsShareTheBits(bits, group);
    SplitAt(bits, g, p, s, preempt, sub);
  }

  lemma SplitAt(bits: bv32, g: bv32, p: bv32, s: bv32, x: bv32, y: bv32)
    requires 1 <= bits <= 8 && g <= 7 && p == (if 7 - g > bits then bits else 7 - g) && s == bits - p
    requires x <= Mask(p) && y <= Mask(s)
    ensures (((((x << s) | y) << (8 - bits)) & 0xff) >> (g + 1)) == x << (7 - g - p)
    ensures (((((x << s) | y) << (8 - bits)) & 0xff) & Mask(g + 1)) == y << (8 - bits)
  {
  }

  // ----- The registers

  /** The byte a priority is stored as, in its upper bits, and what is read back. */
  function Stored(bits: bv32, priority: bv32): bv8
    requires 1 <= bits <= 8
  {
    ((priority << (8 - bits)) & 0xff) as bv8
  }

  function Loaded(bits: bv32, stored: bv8): bv32
    requires 1 <= bits <= 8
  {
    (stored as bv32) >> (8 - bits)
  }

  lemma LoadedIsStored(bits: bv32, priority: bv32)
    requires 1 <= bits <= 8
    ensures Loaded(bits, Stored(bits, priority)) == priority & Mask(bits)
  {
  }

  class Registers {
    const ip: array<bv8>
    const shp: array<bv8>
    var aircr: bv32

    ghost predicate Valid() {
      ip.Length == 240 && shp.Length == 12 && ip != shp
    }

    constructor (aircr: bv32)
      ensures Valid() && this.aircr == aircr
    {
      ip := new bv8[240](_ => 0);
      shp := new bv8[12](_ => 0);
      this.aircr := aircr;
    }

    /** The byte of an interrupt. Negative numbers are core exceptions; `& 0xF` on them is
        the remainder by 16. */
    function Byte(irq: int): bv8
      requires Valid() && -12 <= irq < 240
      reads ip, shp
    {
      if irq < 0 then shp[irq % 16 - 4] else ip[irq]
    }

    method GetPriority(bits: bv32, irq: int) returns (priority: bv32)
      requires Valid() && 1 <= bits <= 8 && -12 <= irq < 240
      ensures priority == Loaded(bits, Byte(irq))
    {
      if irq < 0 {
        priority := (shp[irq % 16 - 4] as bv32) >> (8 - bits);
      } else {
        priority := (ip[irq] as bv32) >> (8 - bits);
      }
    }

    /** The interrupt keeps what was set, reads it back cut to the implemented bits, and no
        other interrupt is affected. */
    method SetPriority(bits: bv32, irq: int, priority: bv32)
      requires Valid() && 1 <= bits <= 8 && -12 <= irq < 240
      modifies ip, shp
      ensures Byte(irq) == Stored(bits, priority) && Loaded(bits, Byte(irq)) == priority & Mask(bits)
      ensures forall other :: -12 <= other < 240 && other != irq ==> Byte(other) == old(Byte(other))
    {
      if irq < 0 {
        shp[irq % 16 - 4] := ((priority << (8 - bits)) & 0xff) as bv8;
      } else {
        ip[irq] := ((priority << (8 - bits)) & 0xff) as bv8;
      }
      LoadedIsStored(bits, priority);
    }

    function GetPriorityGrouping(): bv32
      reads this
    {
      (aircr & 0x0000_0700) >> 8
    }

    /** The group is replaced under the write key; the bits below the key that do not belong
        to the group are kept. */
    method SetPriorityGrouping(group: bv32)
      modifies this
      ensures GetPriorityGrouping() == group & 0x07
      ensures aircr >> 16 == 0x5fa
      ensures aircr & 0x0000_f8ff == old(aircr) & 0x0000_f8ff
    {
      var regValue := aircr & !(0xffff_0000 | 0x0000_0700);
      aircr := regValue | (0x5fa << 16) | ((group & 0x07) << 8);
    }
  }

  /** What is set under any grouping is what is found: encoding, storing, loading and
      decoding together only cut the two fields to their widths. */
  lemma ConfiguredPriorityIsFound(bits: bv32, group: bv32, preempt: bv32, sub: bv32)
    requires 1 <= bits <= 8
    ensures Decoded(bits, Loaded(bits, Stored(bits, EncodePriority(bits, group, preempt, sub))), group) ==
      (preempt & Mask(PreemptBits(bits, group)), sub & Mask(SubBits(bits, group)))
  {
    EncodedFits(bits, group, preempt, sub);
    StoredLosesNothing(bits, EncodePriority(bits, group, preempt, sub));
    DecodeUndoesEncode(bits, group, preempt, sub);
  }

  lemma StoredLosesNothing(bits: bv32, priority: bv32)
    requires 1 <= bits <= 8 && priority <= Mask(bits)
    ensures Loaded(bits, Stored(bits, priority)) == priority
  {
  }

  lemma EncodedFits(bits: bv32, group: bv32, preempt: bv32, sub: bv32)
    requires 1 <= bits <= 8
    ensures EncodePriority(bits, group, preempt, sub) <= Mask(bits)
  {
    var p, s := PreemptBits(bits, group), SubBits(bits, group);
    MaskedFits(p, preempt);
    MaskedFits(s, sub);
    FieldsShareTheBits(bits, group);
    PackedFits(p, s, preempt & Mask(p), sub & Mask(s));
  }
}
