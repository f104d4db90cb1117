/** The `PacketFlags` bitset of the telemetry frame: twelve named one-bit flags in a
    16-bit word. A value of the type never has a bit outside the twelve defined
    positions; `FromBits` is the strict constructor that refuses such words.

    Rust's `PacketFlags` is a `Copy` value, so `flags.insert(x)` is the same as
    rebinding the variable to `Insert(flags, x)`; the mutators are modelled that way. */
module Flags {
  import opened Outcomes

  /** Bits 12-15: no defined flag lives there. */
  const UNDEFINED_BITS: bv16 := 0xF000

  type PacketFlags = b: bv16 | b & 0xF000 == 0

  /** The flag the source names `None` (no bit). */
  const NoFlags: PacketFlags := 0
  const CarOnTrack: PacketFlags := 1 << 0
  const Paused: PacketFlags := 1 << 1
  const LoadingOrProcessing: PacketFlags := 1 << 2
  const InGear: PacketFlags := 1 << 3
  const HasTurbo: PacketFlags := 1 << 4
  const RevLimiterBlinkAlertActive: PacketFlags := 1 << 5
  const HandBrakeActive: PacketFlags := 1 << 6
  const LightsActive: PacketFlags := 1 << 7
  const HighBeamActive: PacketFlags := 1 << 8
  const LowBeamActive: PacketFlags := 1 << 9
  const ASMActive: PacketFlags := 1 << 10
  const TCSActive: PacketFlags := 1 << 11

  /** `bits()`: the raw word. */
  function Bits(f: PacketFlags): bv16 {
    f
  }

  /** `empty()`. */
  function Empty(): PacketFlags {
    NoFlags
  }

  /** `a | b`. */
  function Union(a: PacketFlags, b: PacketFlags): PacketFlags {
    Bits(a) | Bits(b)
  }

  /** `all()`: the union of every defined flag. */
  function All(): PacketFlags {
    Bits(CarOnTrack) | Bits(Paused) | Bits(LoadingOrProcessing) | Bits(InGear) | Bits(HasTurbo)
    | Bits(RevLimiterBlinkAlertActive) | Bits(HandBrakeActive) | Bits(LightsActive)
    | Bits(HighBeamActive) | Bits(LowBeamActive) | Bits(ASMActive) | Bits(TCSActive)
  }

  /** `contains`: every bit of `other` is set in `f`. */
  predicate Contains(f: PacketFlags, other: PacketFlags) {
    Bits(f) & Bits(other) == Bits(other)
  }

  /** `intersects`: some bit of `other` is set in `f`. */
  predicate Intersects(f: PacketFlags, other: PacketFlags) {
    Bits(f) & Bits(other) != 0
  }

  /** `from_bits_truncate`: the undefined bits are dropped, the defined ones kept. */
  function FromBitsTruncate(b: bv16): (r: PacketFlags)
    ensures Bits(r) == b & !UNDEFINED_BITS
  {
    AllBits();
    b & Bits(All())
  }

  /** `from_bits`: present exactly when no undefined bit is set, and then the word is
      kept as it is. */
  function FromBits(b: bv16): (r: Option<PacketFlags>)
    ensures r.Some? <==> b & UNDEFINED_BITS == 0
    ensures r.Some? ==> Bits(r.value) == b
  {
    var truncated := FromBitsTruncate(b);
    if Bits(truncated) == b then Some(truncated) else None
  }

  /** `insert`: `other` is set afterwards. */
  function Insert(f: PacketFlags, other: PacketFlags): (r: PacketFlags)
    ensures Contains(r, other)
  {
    Bits(f) | Bits(other)
  }

  /** `remove`: no bit of `other` is left. */
  function Remove(f: PacketFlags, other: PacketFlags): (r: PacketFlags)
    ensures !Intersects(r, other)
  {
    Bits(f) & !Bits(other)
  }

  /** `toggle`: a bit of `other` is set afterwards exactly when it was clear before. */
  function Toggle(f: PacketFlags, other: PacketFlags): (r: PacketFlags)
    ensures Bits(r) & Bits(other) == !Bits(f) & Bits(other)
  {
    Bits(f) ^ Bits(other)
  }

  // ------------------------------------------------------------ properties

  /** `all().bits()` is 0x0FFF: the twelve defined flags cover every position except
      the undefined ones. */
  lemma AllBits()
    ensures Bits(All()) == !UNDEFINED_BITS
  {
  }

  /** 0xF000 is refused, a single flag's word comes back as that flag, and masking
      0xFFFF gives `all()`. */
  lemma FromBitsExamples()
    ensures FromBits(0xF000) == None
    ensures FromBits(Bits(CarOnTrack)) == Some(CarOnTrack)
    ensures FromBitsTruncate(0xFFFF) == All()
    ensures FromBitsTruncate(Bits(CarOnTrack) | Bits(InGear)) == Union(CarOnTrack, InGear)
  {
    AllBits();
  }

  /** `from_bits(f.bits()) == Some(f)` for every flag set. */
  lemma FromBitsOfBits(f: PacketFlags)
    ensures FromBits(Bits(f)) == Some(f)
  {
  }

  /** `empty()` is the `None` flag and the word 0; it contains only itself and
      intersects nothing. */
  lemma EmptyFacts(g: PacketFlags)
    ensures Bits(Empty()) == 0
    ensures Contains(Empty(), g) <==> g == NoFlags
    ensures !Intersects(Empty(), g)
  {
  }

  /** The union contains both operands and nothing else. */
  lemma UnionBounds(a: PacketFlags, b: PacketFlags)
    ensures Contains(Union(a, b), a) && Contains(Union(a, b), b)
    ensures Bits(Union(a, b)) & !Bits(a) & !Bits(b) == 0
  {
  }

  /** `contains(A|B)` needs all of the bits of A and of B. */
  lemma ContainsUnion(f: PacketFlags, a: PacketFlags, b: PacketFlags)
    ensures Contains(f, Union(a, b)) <==> Contains(f, a) && Contains(f, b)
  {
    ContainsBothContainsUnion(f, a, b);
    ContainsUnionContainsBoth(f, a, b);
  }

  lemma ContainsBothContainsUnion(f: PacketFlags, a: PacketFlags, b: PacketFlags)
    ensures Contains(f, a) && Contains(f, b) ==> Contains(f, Union(a, b))
  {
  }

  lemma ContainsUnionContainsBoth(f: PacketFlags, a: PacketFlags, b: PacketFlags)
    ensures Contains(f, Union(a, b)) ==> Contains(f, a) && Contains(f, b)
  {
  }

  /** `intersects(A|B)` needs a bit of A or a bit of B. */
  lemma IntersectsUnion(f: PacketFlags, a: PacketFlags, b: PacketFlags)
    ensures Intersects(f, Union(a, b)) <==> Intersects(f, a) || Intersects(f, b)
  {
    if Intersects(f, a) {
      IntersectsLeftIntersectsUnion(f, a, b);
    } else if Intersects(f, b) {
      IntersectsRightIntersectsUnion(f, a, b);
    }
    IntersectsUnionIntersectsEither(f, a, b);
  }

  lemma IntersectsLeftIntersectsUnion(f: PacketFlags, a: PacketFlags, b: PacketFlags)
    requires Intersects(f, a)
    ensures Intersects(f, Union(a, b))
  {
  }

  lemma IntersectsRightIntersectsUnion(f: PacketFlags, a: PacketFlags, b: PacketFlags)
    requires Intersects(f, b)
    ensures Intersects(f, Union(a, b))
  {
  }

  lemma IntersectsUnionIntersectsEither(f: PacketFlags, a: PacketFlags, b: PacketFlags)
    ensures Intersects(f, Union(a, b)) ==> Intersects(f, a) || Intersects(f, b)
  {
  }

  /** For the two "not racing" flags, meeting their union is holding one of them. */
  lemma PausedOrLoading(f: PacketFlags)
    ensures Intersects(f, Union(Paused, LoadingOrProcessing)) <==> Contains(f, Paused) || Contains(f, LoadingOrProcessing)
  {
    IntersectsUnion(f, Paused, LoadingOrProcessing);
    SingleBitMembership(f);
  }

  lemma SingleBitMembership(f: PacketFlags)
    ensures Intersects(f, Paused) <==> Contains(f, Paused)
    ensures Intersects(f, LoadingOrProcessing) <==> Contains(f, LoadingOrProcessing)
  {
  }

  /** Inserting `x` leaves the membership of flags disjoint from `x` as it was. */
  lemma InsertKeepsOthers(f: PacketFlags, x: PacketFlags, g: PacketFlags)
    requires !Intersects(g, x)
    ensures Contains(Insert(f, x), g) <==> Contains(f, g)
  {
  }

  /** Removing `x` leaves the membership of flags disjoint from `x` as it was. */
  lemma RemoveKeepsOthers(f: PacketFlags, x: PacketFlags, g: PacketFlags)
    requires !Intersects(g, x)
    ensures Contains(Remove(f, x), g) <==> Contains(f, g)
  {
  }

  /** Toggling leaves the membership of flags disjoint from `x` as it was. */
  lemma ToggleKeepsOthers(f: PacketFlags, x: PacketFlags, g: PacketFlags)
    requires !Intersects(g, x)
    ensures Contains(Toggle(f, x), g) <==> Contains(f, g)
  {
  }

  /** Toggling twice gives back the original set. */
  lemma ToggleTwice(f: PacketFlags, x: PacketFlags)
    ensures Toggle(Toggle(f, x), x) == f
  {
  }

  /** Inserting then removing a flag that was absent gives back the original set. */
  lemma RemoveUndoesInsert(f: PacketFlags, x: PacketFlags)
    requires !Intersects(f, x)
    ensures Remove(Insert(f, x), x) == f
  {
  }

  // ------------------------------------------------------------ serde

  /** `Serialize`: the set is written as the `u16` word `bits()`. */
  function Serialize(f: PacketFlags): (w: bv16)
    ensures w & UNDEFINED_BITS == 0
  {
    Bits(f)
  }

  /** `Deserialize`: the `u16` that was read goes through the strict `from_bits`; a
      word with an undefined bit is an invalid value. */
  function Deserialize(w: bv16): (r: Result<PacketFlags, bv16>)
    ensures r.Ok? <==> w & UNDEFINED_BITS == 0
    ensures r.Ok? ==> Serialize(r.value) == w
    ensures r.Err? ==> r.error == w
  {
    match FromBits(w)
    case Some(f) => Ok(f)
    case None => Err(w)
  }

  /** Every flag set survives a serialisation round trip, the empty set included. */
  lemma SerdeRoundTrip(f: PacketFlags)
    ensures Deserialize(Serialize(f)) == Ok(f)
  {
  }

  /** CarOnTrack | LightsActive is written as 129 and the empty set as 0; 0 reads back
      as the empty set. */
  lemma SerializeExamples()
    ensures Serialize(Union(CarOnTrack, LightsActive)) as int == 129
    ensures Serialize(Empty()) as int == 0
    ensures Deserialize(0) == Ok(Empty())
  {
  }

  // ------------------------------------------------------------ in place

  /** A `let mut` flag set: `insert`, `remove` and `toggle` take `&mut self` and
      replace the value held. */
  class FlagCell {
    var flags: PacketFlags

    constructor(init: PacketFlags)
      ensures flags == init
    {
      flags := init;
    }

    method InsertFlags(other: PacketFlags)
      modifies this
      ensures flags == Insert(old(flags), other)
    {
      flags := Insert(flags, other);
    }

    method RemoveFlags(other: PacketFlags)
      modifies this
      ensures flags == Remove(old(flags), other)
    {
      flags := Remove(flags, other);
    }

    method ToggleFlags(other: PacketFlags)
      modifies this
      ensures flags == Toggle(old(flags), other)
    {
      flags := Toggle(flags, other);
    }
  }

  /** The flag-operation walk-through: start empty, insert CarOnTrack, insert Paused,
      remove CarOnTrack, toggle Paused twice; every membership query along the way
      answers as the walk-through expects. */
  method FlagWalkThrough() returns (checks: seq<bool>, last: PacketFlags)
    ensures |checks| == 12 && forall i | 0 <= i < |checks| :: checks[i]
    ensures last == Paused
  {
    var cell := new FlagCell(Empty());
    checks := [cell.flags == NoFlags, !Contains(cell.flags, CarOnTrack)];
    cell.InsertFlags(CarOnTrack);
    checks := checks + [Contains(cell.flags, CarOnTrack), Intersects(cell.flags, Union(CarOnTrack, Paused)), !Contains(cell.flags, Paused)];
    cell.InsertFlags(Paused);
    checks := checks + [Contains(cell.flags, Union(CarOnTrack, Paused)), Contains(cell.flags, CarOnTrack), Contains(cell.flags, Paused)];
    cell.RemoveFlags(CarOnTrack);
    checks := checks + [!Contains(cell.flags, CarOnTrack), Contains(cell.flags, Paused)];
    cell.ToggleFlags(Paused);
    checks := checks + [!Contains(cell.flags, Paused)];
    cell.ToggleFlags(Paused);
    checks := checks + [Contains(cell.flags, Paused)];
    last := cell.flags;
  }
}
