/** Small scalar types: their packed ids and their extreme values.

    The largest finite value of a floating-point type is computed by assembling the bits
    of an IEEE 754 double (section 3.4 of IEEE 754-2019).  Values are measured here in
    units of 2^-1074, the least positive double, so that all of them are integers. */
module ScalarTypes {
  import opened Common

  datatype NanRepr = NoNans | Ieee754 | ExtdRangeMaxMin

  datatype ScalarType = ScalarType(exponent: nat, mantissa: nat, signed: bool, bias: int,
                                   finiteValuesOnly: bool, nanRepr: NanRepr)

  function NanValue(n: NanRepr): nat {
    match n
    case NoNans => 0
    case Ieee754 => 1
    case ExtdRangeMaxMin => 2
  }

  function BoolValue(b: bool): nat {
    if b then 1 else 0
  }

  // --------------------------------------------------------------- Bits of integers

  function Pow2(n: nat): (p: nat)
    ensures p > 0
  {
    if n == 0 then 1 else 2 * Pow2(n - 1)
  }

  /** The operator | on non-negative integers. */
  function BitOr(a: nat, b: nat): nat {
    if a == 0 then b
    else if b == 0 then a
    else 2 * BitOr(a / 2, b / 2) + if a % 2 == 1 || b % 2 == 1 then 1 else 0
  }

  /** member & ((1 << width) - 1), for members of either sign. */
  function LowBits(member: int, width: nat): (r: nat)
    ensures r < Pow2(width)
  {
    member % Pow2(width)
  }

  lemma {:induction false} Pow2Add(a: nat, b: nat)
    ensures Pow2(a + b) == Pow2(a) * Pow2(b)
  {
    if a > 0 {
      Pow2Add(a - 1, b);
      assert Pow2(a + b) == 2 * Pow2(a - 1 + b);
    }
  }

  lemma {:induction false} Pow2Grows(a: nat, b: nat)
    requires a <= b
    ensures Pow2(a) <= Pow2(b)
  {
    if a < b { Pow2Grows(a, b - 1); }
  }

  lemma Doubled(b: nat, p: nat)
    ensures (b * (2 * p)) / 2 == b * p && (b * (2 * p)) % 2 == 0
  {
    assert b * (2 * p) == 2 * (b * p);
  }

  /** Or-ing in a field above all set bits adds it. */
  lemma {:induction false} OrDisjoint(a: nat, b: nat, k: nat)
    requires a < Pow2(k)
    ensures BitOr(a, b * Pow2(k)) == a + b * Pow2(k)
  {
    if k > 0 {
      Doubled(b, Pow2(k - 1));
      OrDisjoint(a / 2, b, k - 1);
    }
  }

  // ---------------------------------------------------------------------- Packed ids

  datatype Field = Field(member: int, width: nat)

  function Width(fields: seq<Field>): nat {
    if fields == [] then 0 else Width(fields[..|fields| - 1]) + fields[|fields| - 1].width
  }

  /** The fields next to each other, the first one lowest. */
  function Packed(fields: seq<Field>): nat {
    if fields == [] then 0
    else
      var init, last := fields[..|fields| - 1], fields[|fields| - 1];
      Packed(init) + LowBits(last.member, last.width) * Pow2(Width(init))
  }

  lemma {:induction false} PackedFits(fields: seq<Field>)
    ensures Packed(fields) < Pow2(Width(fields))
  {
    if fields != [] {
      var init, last := fields[..|fields| - 1], fields[|fields| - 1];
      PackedFits(init);
      Pow2Add(Width(init), last.width);
      TopField(Packed(init), LowBits(last.member, last.width), Pow2(Width(init)), Pow2(last.width));
    }
  }

  lemma TopField(low: nat, top: nat, p: nat, q: nat)
    requires low < p && top < q
    ensures low + top * p < p * q
  {
    assert top * p <= (q - 1) * p;
    assert (q - 1) * p == p * q - p;
  }

  lemma BelowNext(a: nat, x: nat, y: nat, p: nat)
    requires a < p && x < y
    ensures a + x * p < y * p
  {
    var d := y - x - 1;
    assert y * p == x * p + p + d * p;
  }

  lemma SplitUnique(a: nat, x: nat, b: nat, y: nat, p: nat)
    requires a < p && b < p && a + x * p == b + y * p
    ensures a == b && x == y
  {
    if x < y { BelowNext(a, x, y, p); }
    if y < x { BelowNext(b, y, x, p); }
  }

  predicate SameWidths(f: seq<Field>, g: seq<Field>) {
    |f| == |g| && forall k :: 0 <= k < |f| ==> f[k].width == g[k].width
  }

  predicate SameLowBits(f: seq<Field>, g: seq<Field>)
    requires |f| == |g|
  {
    forall k :: 0 <= k < |f| ==> LowBits(f[k].member, f[k].width) == LowBits(g[k].member, g[k].width)
  }

  lemma {:induction false} WidthsAgree(f: seq<Field>, g: seq<Field>)
    requires SameWidths(f, g)
    ensures Width(f) == Width(g)
  {
    if f != [] { WidthsAgree(f[..|f| - 1], g[..|g| - 1]); }
  }

  /** Fields of given widths pack to the same number exactly when every field agrees in
      its low bits: no field disturbs another. */
  lemma {:induction false} PackedEqualIff(f: seq<Field>, g: seq<Field>)
    requires SameWidths(f, g)
    ensures Packed(f) == Packed(g) <==> SameLowBits(f, g)
  {
    if f != [] {
      var n := |f| - 1;
      PackedEqualIff(f[..n], g[..n]);
      WidthsAgree(f[..n], g[..n]);
      PackedFits(f[..n]);
      PackedFits(g[..n]);
      var x, y, p := LowBits(f[n].member, f[n].width), LowBits(g[n].member, g[n].width), Pow2(Width(f[..n]));
      if Packed(f) == Packed(g) {
        SplitUnique(Packed(f[..n]), x, Packed(g[..n]), y, p);
      }
    }
  }

  function FieldsOf(t: ScalarType): seq<Field> {
    [Field(t.exponent, 8), Field(t.mantissa, 8), Field(BoolValue(t.signed), 1), Field(t.bias, 32),
     Field(BoolValue(t.finiteValuesOnly), 1), Field(NanValue(t.nanRepr), 8)]
  }

  function TypeId(t: ScalarType): nat {
    Packed(FieldsOf(t))
  }

  method OrAndAdvance(val: nat, offset: nat, member: int, width: nat, ghost before: seq<Field>)
    returns (val': nat, offset': nat)
    requires val == Packed(before) && offset == Width(before)
    ensures val' == Packed(before + [Field(member, width)])
    ensures offset' == offset + width == Width(before + [Field(member, width)])
  {
    val' := BitOr(val, LowBits(member, width) * Pow2(offset));
    offset' := offset + width;
    PackedFits(before);
    OrDisjoint(val, LowBits(member, width), offset);
    assert (before + [Field(member, width)])[..|before|] == before;
  }

  lemma FitsInInt64(t: ScalarType)
    ensures TypeId(t) < Pow2(58)
  {
    var f := FieldsOf(t);
    PackedFits(f);
    FieldsWidth(f);
  }

  lemma FieldsWidth(f: seq<Field>)
    requires |f| == 6 && f[0].width == f[1].width == 8 && f[2].width == 1 && f[3].width == 32
    requires f[4].width == 1 && f[5].width == 8
    ensures Width(f) == 58
  {
    assert f[..5][..4] == f[..4] && f[..4][..3] == f[..3] && f[..3][..2] == f[..2] && f[..2][..1] == f[..1];
    assert Width(f[..0]) == 0 && f[..1][..0] == f[..0];
    assert Width(f[..1]) == 8;
    assert Width(f[..2]) == 16;
    assert Width(f[..3]) == 17;
    assert Width(f[..4]) == 49;
    assert Width(f[..5]) == 50;
  }

  /** The id computed field by field; it needs 58 bits. */
  method ComputeId(t: ScalarType) returns (val: nat)
    ensures val == TypeId(t) < Pow2(58)
  {
    FitsInInt64(t);
    hide Packed, Width, Pow2, LowBits;
    EmptyPack();
    ghost var f, g := [], FieldsOf(t);
    var offset;
    val, offset := OrAndAdvance(0, 0, t.exponent, 8, f);
    f := f + [g[0]];
    val, offset := OrAndAdvance(val, offset, t.mantissa, 8, f);
    f := f + [g[1]];
    val, offset := OrAndAdvance(val, offset, BoolValue(t.signed), 1, f);
    f := f + [g[2]];
    val, offset := OrAndAdvance(val, offset, t.bias, 32, f);
    f := f + [g[3]];
    val, offset := OrAndAdvance(val, offset, BoolValue(t.finiteValuesOnly), 1, f);
    f := f + [g[4]];
    val, offset := OrAndAdvance(val, offset, NanValue(t.nanRepr), 8, f);
    assert f + [g[5]] == g;
    assert offset <= 64;
  }

  /** The id as a sum, each field at its own place. */
  lemma IdIsSum(t: ScalarType)
    ensures TypeId(t)
         == LowBits(t.exponent, 8) + LowBits(t.mantissa, 8) * Pow2(8) + LowBits(BoolValue(t.signed), 1) * Pow2(16)
            + LowBits(t.bias, 32) * Pow2(17) + LowBits(BoolValue(t.finiteValuesOnly), 1) * Pow2(49)
            + LowBits(NanValue(t.nanRepr), 8) * Pow2(50)
  {
    var f := FieldsOf(t);
    hide LowBits, Pow2;
    FieldsWidth(f);
    PowZero();
    assert f[..5][..4] == f[..4] && f[..4][..3] == f[..3] && f[..3][..2] == f[..2] && f[..2][..1] == f[..1];
    assert Packed(f[..0]) == 0 && f[..1][..0] == f[..0];
    assert Packed(f[..1]) == LowBits(f[0].member, f[0].width) * Pow2(0);
    assert Packed(f[..2]) == Packed(f[..1]) + LowBits(f[1].member, f[1].width) * Pow2(8);
    assert Packed(f[..3]) == Packed(f[..2]) + LowBits(f[2].member, f[2].width) * Pow2(16);
    assert Packed(f[..4]) == Packed(f[..3]) + LowBits(f[3].member, f[3].width) * Pow2(17);
    assert Packed(f[..5]) == Packed(f[..4]) + LowBits(f[4].member, f[4].width) * Pow2(49);
  }

  lemma PowZero()
    ensures Pow2(0) == 1
  {
  }

  lemma PlacePowers()
    ensures Pow2(8) == 0x100 && Pow2(16) == 0x1_0000 && Pow2(17) == 0x2_0000 && Pow2(32) == 0x1_0000_0000
    ensures Pow2(49) == 0x2_0000_0000_0000 && Pow2(50) == 0x4_0000_0000_0000
  {
    PowersUsed();
    Pow2Add(8, 8);
    Pow2Add(17, 32);
    assert Pow2(17) == 2 * Pow2(16) && Pow2(50) == 2 * Pow2(49);
  }

  /** Every field can be read back at its place: exponent lowest, then mantissa, sign, bias,
      the finite-values flag and the NaN representation. */
  lemma FieldPlaces(t: ScalarType)
    ensures var v := TypeId(t);
            && v % 0x100 == t.exponent % 0x100
            && v / 0x100 % 0x100 == t.mantissa % 0x100
            && (v / 0x1_0000 % 2 == 1 <==> t.signed)
            && v / 0x2_0000 % 0x1_0000_0000 == t.bias % 0x1_0000_0000
            && (v / 0x2_0000_0000_0000 % 2 == 1 <==> t.finiteValuesOnly)
            && v / 0x4_0000_0000_0000
               == match t.nanRepr { case NoNans => 0 case Ieee754 => 1 case ExtdRangeMaxMin => 2 }
  {
    IdIsSum(t);
    PlacePowers();
    SmallFields(t);
    var e, m, b := LowBits(t.exponent, 8), LowBits(t.mantissa, 8), LowBits(t.bias, 32);
    assert e == t.exponent % 0x100 && m == t.mantissa % 0x100 && b == t.bias % 0x1_0000_0000;
    hide LowBits, Pow2, TypeId;
    ReadBack(e, m, BoolValue(t.signed), b, BoolValue(t.finiteValuesOnly), NanValue(t.nanRepr));
  }

  lemma ReadBack(e: nat, m: nat, s: nat, b: nat, f: nat, n: nat)
    requires e < 0x100 && m < 0x100 && s < 2 && b < 0x1_0000_0000 && f < 2
    ensures var v := e + m * 0x100 + s * 0x1_0000 + b * 0x2_0000 + f * 0x2_0000_0000_0000 + n * 0x4_0000_0000_0000;
            && v % 0x100 == e && v / 0x100 % 0x100 == m && v / 0x1_0000 % 2 == s
            && v / 0x2_0000 % 0x1_0000_0000 == b && v / 0x2_0000_0000_0000 % 2 == f && v / 0x4_0000_0000_0000 == n
  {
    var flags := f + n * 2;
    var bias := b + flags * 0x1_0000_0000;
    var sign := s + bias * 2;
    var mantissa := m + sign * 0x100;
    var v := e + mantissa * 0x100;
    DivModIs(v, 0x100, mantissa, e);
    DivModIs(mantissa, 0x100, sign, m);
    DivModIs(v, 0x1_0000, sign, e + m * 0x100);
    DivModIs(sign, 2, bias, s);
    DivModIs(v, 0x2_0000, bias, e + m * 0x100 + s * 0x1_0000);
    DivModIs(bias, 0x1_0000_0000, flags, b);
    DivModIs(v, 0x2_0000_0000_0000, flags, e + m * 0x100 + s * 0x1_0000 + b * 0x2_0000);
    DivModIs(flags, 2, n, f);
    DivModIs(v, 0x4_0000_0000_0000, n, e + m * 0x100 + s * 0x1_0000 + b * 0x2_0000 + f * 0x2_0000_0000_0000);
  }

  lemma EmptyPack()
    ensures Packed([]) == 0 && Width([]) == 0
  {
  }

  /** Two types have the same id exactly when their fields agree modulo the widths. */
  lemma SameIdIff(t: ScalarType, u: ScalarType)
    ensures TypeId(t) == TypeId(u) <==>
      && LowBits(t.exponent, 8) == LowBits(u.exponent, 8)
      && LowBits(t.mantissa, 8) == LowBits(u.mantissa, 8)
      && LowBits(t.bias, 32) == LowBits(u.bias, 32)
      && t.signed == u.signed && t.finiteValuesOnly == u.finiteValuesOnly && t.nanRepr == u.nanRepr
  {
    hide Packed, LowBits, Pow2;
    var f, g := FieldsOf(t), FieldsOf(u);
    PackedEqualIff(f, g);
    SmallFields(t);
    SmallFields(u);
    if TypeId(t) != TypeId(u) {
      var k :| 0 <= k < 6 && LowBits(f[k].member, f[k].width) != LowBits(g[k].member, g[k].width);
    } else {
      assert forall k :: 0 <= k < 6 ==> LowBits(f[k].member, f[k].width) == LowBits(g[k].member, g[k].width);
      assert LowBits(f[0].member, f[0].width) == LowBits(g[0].member, g[0].width);
      assert LowBits(f[1].member, f[1].width) == LowBits(g[1].member, g[1].width);
      assert LowBits(f[2].member, f[2].width) == LowBits(g[2].member, g[2].width);
      assert LowBits(f[3].member, f[3].width) == LowBits(g[3].member, g[3].width);
      assert LowBits(f[4].member, f[4].width) == LowBits(g[4].member, g[4].width);
      assert LowBits(f[5].member, f[5].width) == LowBits(g[5].member, g[5].width);
    }
  }

  lemma SmallFields(t: ScalarType)
    ensures LowBits(BoolValue(t.signed), 1) == BoolValue(t.signed)
    ensures LowBits(BoolValue(t.finiteValuesOnly), 1) == BoolValue(t.finiteValuesOnly)
    ensures LowBits(NanValue(t.nanRepr), 8) == NanValue(t.nanRepr)
  {
    Pow2Grows(2, 8);
  }

  /** The field ranges of the C++ counterpart. */
  predicate InRange(t: ScalarType) {
    t.exponent < 256 && t.mantissa < 256 && -0x8000_0000 <= t.bias < 0x8000_0000
  }

  lemma PowersUsed()
    ensures Pow2(8) == 256 && Pow2(32) == 0x1_0000_0000
  {
    Pow2Add(4, 4);
    Pow2Add(8, 8);
    Pow2Add(16, 16);
  }

  /** Within those ranges the id determines the type. */
  lemma IdInjective(t: ScalarType, u: ScalarType)
    requires InRange(t) && InRange(u) && TypeId(t) == TypeId(u)
    ensures t == u
  {
    SameIdIff(t, u);
    PowersUsed();
    hide Pow2, TypeId;
    SameResidue(t.bias, u.bias);
  }

  lemma SameResidue(a: int, b: int)
    requires -0x8000_0000 <= a < 0x8000_0000 && -0x8000_0000 <= b < 0x8000_0000
    requires a % 0x1_0000_0000 == b % 0x1_0000_0000
    ensures a == b
  {
  }

  // ------------------------------------------------------------------- The registry

  class Registry {
    var types: map<nat, ScalarType>
    ghost var made: seq<ScalarType>

    /** The registry is what the types made so far have left in it. */
    ghost predicate Valid()
      reads this
    {
      types == Registered(map[], made)
    }

    constructor ()
      ensures Valid() && made == []
    {
      types, made := map[], [];
    }

    /** Asking a type for its id also records the type. */
    method Id(t: ScalarType) returns (val: nat)
      requires Valid()
      modifies this
      ensures Valid() && val == TypeId(t) && types == old(types)[val := t] && made == old(made) + [t]
    {
      val := ComputeId(t);
      types, made := types[val := t], made + [t];
    }

    /** None stands for the ValueError of an unknown id.  For types within the field
        ranges the id of a type that was made finds a type equal to it. */
    method FromId(id: nat) returns (r: Option<ScalarType>)
      requires Valid()
      ensures r.None? <==> forall t | t in made :: TypeId(t) != id
      ensures r.Some? ==> r.value in made && TypeId(r.value) == id
      ensures (forall t | t in made :: InRange(t)) ==> forall t | t in made && TypeId(t) == id :: r == Some(t)
    {
      RegisteredExactly(made, id);
      if forall t | t in made :: InRange(t) {
        forall t | t in made && TypeId(t) == id ensures types[id] == t { FromIdFindsEqual(map[], made, t); }
      }
      r := if id in types then Some(types[id]) else None;
    }

    /** A signed type; its size includes the sign bit. */
    method Int(sizeBits: nat, bias: Option<int>) returns (t: ScalarType)
      requires Valid() && sizeBits > 0
      modifies this
      ensures Valid() && made == old(made) + [t]
      ensures t.exponent == 0 && t.signed && SizeBits(t) == sizeBits && t.bias == if bias.Some? then bias.value else 0
    {
      t := ScalarType(0, sizeBits - 1, true, if bias.Some? then bias.value else 0, false, Ieee754);
      var _ := Id(t);
    }

    method Uint(sizeBits: nat, bias: Option<int>) returns (t: ScalarType)
      requires Valid()
      modifies this
      ensures Valid() && made == old(made) + [t]
      ensures t.exponent == 0 && !t.signed && SizeBits(t) == sizeBits && t.bias == if bias.Some? then bias.value else 0
    {
      t := ScalarType(0, sizeBits, false, if bias.Some? then bias.value else 0, false, Ieee754);
      var _ := Id(t);
    }

    /** None stands for a failed assertion, which records nothing. */
    method FloatIeee754(exponent: nat, mantissa: nat) returns (r: Option<ScalarType>)
      requires Valid()
      modifies this
      ensures Valid() && (r.Some? <==> mantissa > 0 && exponent > 0)
      ensures made == if r.Some? then old(made) + [r.value] else old(made)
      ensures r.Some? ==>
        IsFloat(r.value) && (r.value.exponent, r.value.mantissa, r.value.nanRepr) == (exponent, mantissa, Ieee754)
    {
      if !(mantissa > 0 && exponent > 0) {
        return None;
      }
      r := Some(ScalarType(exponent, mantissa, true, 0, false, Ieee754));
      var _ := Id(r.value);
    }

    method Float(exponent: nat, mantissa: nat, finiteValuesOnly: bool, nanRepr: NanRepr) returns (r: Option<ScalarType>)
      requires Valid()
      modifies this
      ensures Valid() && (r.Some? <==> mantissa > 0 && exponent > 0 && nanRepr != Ieee754)
      ensures made == if r.Some? then old(made) + [r.value] else old(made)
      ensures r.Some? ==>
        && IsFloat(r.value) && r.value.finiteValuesOnly == finiteValuesOnly
        && (r.value.exponent, r.value.mantissa, r.value.nanRepr) == (exponent, mantissa, nanRepr)
    {
      if !(mantissa > 0 && exponent > 0) || nanRepr == Ieee754 {
        return None;
      }
      r := Some(ScalarType(exponent, mantissa, true, 0, finiteValuesOnly, nanRepr));
      var _ := Id(r.value);
    }
  }

  /** An id is recorded exactly when a type with that id was made. */
  lemma {:induction false} RegisteredExactly(ts: seq<ScalarType>, id: nat)
    ensures id in Registered(map[], ts) <==> exists t | t in ts :: TypeId(t) == id
    ensures id in Registered(map[], ts) ==> Registered(map[], ts)[id] in ts && TypeId(Registered(map[], ts)[id]) == id
  {
    hide TypeId;
    if ts != [] {
      var init, last := ts[..|ts| - 1], ts[|ts| - 1];
      assert ts == init + [last];
      RegisteredExactly(init, id);
    }
  }

  function Registered(types: map<nat, ScalarType>, ts: seq<ScalarType>): map<nat, ScalarType> {
    if ts == [] then types
    else Registered(types, ts[..|ts| - 1])[TypeId(ts[|ts| - 1]) := ts[|ts| - 1]]
  }

  /** After any series of constructions, the id of each type constructed finds a type
      equal to it. */
  lemma {:induction false} FromIdFindsEqual(types: map<nat, ScalarType>, ts: seq<ScalarType>, t: ScalarType)
    requires forall u | u in ts :: InRange(u)
    requires t in ts
    ensures TypeId(t) in Registered(types, ts) && Registered(types, ts)[TypeId(t)] == t
  {
    hide TypeId, InRange;
    var init, last := ts[..|ts| - 1], ts[|ts| - 1];
    assert last in ts;
    if TypeId(t) == TypeId(last) {
      IdInjective(t, last);
    } else {
      assert ts == init + [last];
      FromIdFindsEqual(types, init, t);
    }
  }

  // -------------------------------------------------------- Largest finite values

  const DOUBLE_MANTISSA: nat := 52
  const DOUBLE_BIAS: nat := 1023
  const UNIT: nat := 1074

  /** A type a floating-point constructor can return. */
  predicate IsFloat(t: ScalarType) {
    t.exponent > 0 && t.mantissa > 0 && t.signed && t.bias == 0
  }

  function ExponentBias(t: ScalarType): nat
    requires t.exponent > 0
  {
    Pow2(t.exponent - 1) - 1
  }

  function MaxMantissa(t: ScalarType): nat
    requires t.mantissa > 0
  {
    Pow2(t.mantissa) - 1 - if t.nanRepr == ExtdRangeMaxMin then 1 else 0
  }

  function MaxExponent(t: ScalarType): nat
    requires t.exponent > 0
  {
    Pow2(t.exponent) - 2 + if t.nanRepr == Ieee754 then 0 else 1
  }

  predicate Representable(t: ScalarType) {
    t.mantissa <= 52 && (if t.nanRepr == Ieee754 then t.exponent <= 11 else t.exponent < 11)
  }

  /** The bits of a double that stand for the largest value; None is a failed assertion. */
  function FloatingPointMaxInt(t: ScalarType): (r: Option<nat>)
    requires IsFloat(t)
    ensures r.Some? <==> Representable(t)
  {
    if !(t.mantissa <= 52 && t.exponent <= 11) then None
    else if t.nanRepr != Ieee754 && !(t.exponent < 11) then None
    else
      var maxMantissa, maxExponentDouble := FractionField(t), ExponentField(t);
      Some(BitOr(maxMantissa, maxExponentDouble * Pow2(DOUBLE_MANTISSA)))
  }

  lemma BiasFits(t: ScalarType)
    requires t.exponent > 0 && t.exponent <= 11
    ensures ExponentBias(t) <= DOUBLE_BIAS
    ensures MaxExponent(t) - ExponentBias(t) <= DOUBLE_BIAS || t.nanRepr != Ieee754
    ensures t.exponent < 11 ==> MaxExponent(t) - ExponentBias(t) <= DOUBLE_BIAS
  {
    Pow2Grows(t.exponent - 1, 10);
    PowTen();
    if t.exponent < 11 { Pow2Grows(t.exponent - 1, 9); }
  }

  lemma PowTen()
    ensures Pow2(9) == 512 && Pow2(10) == 1024 && Pow2(11) == 2048
  {
    Pow2Add(5, 4);
  }

  // ------------------------------------------------------------- What the bits mean

  datatype Value = Finite(units: int) | NonFinite

  /** Section 3.4 of IEEE 754-2019 for binary64, in units of 2^-1074. */
  function DecodeDouble(sign: nat, exponent: nat, fraction: nat): Value {
    if exponent == 2047 then NonFinite
    else
      var magnitude := if exponent == 0 then fraction else (Pow2(52) + fraction) * Pow2(exponent - 1);
      Finite(if sign == 0 then magnitude else -magnitude)
  }

  /** The fields of a 64-bit pattern. */
  predicate BitsOf(raw: nat, sign: nat, exponent: nat, fraction: nat) {
    && sign < 2 && exponent < 2048 && fraction < Pow2(52)
    && raw == fraction + (exponent + sign * 2048) * Pow2(52)
  }

  /** The encodings of type t that are numbers: the NaN representation decides which
      patterns with an all-ones exponent are not. */
  predicate FiniteEncoding(t: ScalarType, x: nat, y: nat) {
    && x < Pow2(t.exponent) && y < Pow2(t.mantissa)
    && match t.nanRepr
       case Ieee754 => x < Pow2(t.exponent) - 1
       case ExtdRangeMaxMin => !(x == Pow2(t.exponent) - 1 && y == Pow2(t.mantissa) - 1)
       case NoNans => true
  }

  /** The magnitude of the encoding with exponent field x and mantissa field y. */
  function Magnitude(t: ScalarType, x: nat, y: nat): nat
    requires IsFloat(t) && Representable(t)
  {
    BiasFits(t);
    if x == 0 then y * Pow2(UNIT + 1 - ExponentBias(t) - t.mantissa)
    else (Pow2(t.mantissa) + y) * Pow2(UNIT + x - ExponentBias(t) - t.mantissa)
  }

  /** A larger exponent field means a larger magnitude. */
  lemma ExponentDominates(t: ScalarType, x: nat, y: nat, z: nat, w: nat)
    requires IsFloat(t) && Representable(t) && x < z && y < Pow2(t.mantissa)
    ensures Magnitude(t, x, y) <= Magnitude(t, z, w)
  {
    BiasFits(t);
    hide Pow2;
    var base := UNIT - ExponentBias(t) - t.mantissa;
    var p := Pow2(t.mantissa);
    if x == 0 {
      ProductGrows(y, p, Pow2(base + 1));
      Pow2Grows(base + 1, base + z);
      ProductGrows(Pow2(base + 1), Pow2(base + z), p);
    } else {
      ProductGrows(p + y, 2 * p, Pow2(base + x));
      OnePowerUp(p, base + x);
      Pow2Grows(base + x + 1, base + z);
      ProductGrows(Pow2(base + x + 1), Pow2(base + z), p);
    }
    ProductGrows(p, p + w, Pow2(base + z));
  }

  lemma OnePowerUp(p: nat, n: nat)
    ensures 2 * p * Pow2(n) == p * Pow2(n + 1)
  {
  }

  lemma MantissaMonotone(t: ScalarType, x: nat, y: nat, w: nat)
    requires IsFloat(t) && Representable(t) && y <= w
    ensures Magnitude(t, x, y) <= Magnitude(t, x, w)
  {
    BiasFits(t);
    var base := UNIT - ExponentBias(t) - t.mantissa;
    if x == 0 {
      ProductGrows(y, w, Pow2(base + 1));
    } else {
      ProductGrows(Pow2(t.mantissa) + y, Pow2(t.mantissa) + w, Pow2(base + x));
    }
  }

  /** The pattern the computation aims at is a number, and no number is larger. */
  lemma TopEncodingIsGreatest(t: ScalarType, x: nat, y: nat)
    requires IsFloat(t) && Representable(t) && FiniteEncoding(t, x, y)
    ensures FiniteEncoding(t, MaxExponent(t), MaxMantissa(t))
    ensures Magnitude(t, x, y) <= Magnitude(t, MaxExponent(t), MaxMantissa(t))
  {
    Pow2Grows(1, t.exponent);
    Pow2Grows(1, t.mantissa);
    if x < MaxExponent(t) {
      ExponentDominates(t, x, y, MaxExponent(t), MaxMantissa(t));
    } else {
      MantissaMonotone(t, x, y, MaxMantissa(t));
    }
  }

  /** The value of the assembled double, in units. */
  function Built(t: ScalarType): nat
    requires IsFloat(t) && Representable(t)
  {
    BiasFits(t);
    (Pow2(t.mantissa) + MaxMantissa(t)) * Pow2(UNIT + MaxExponent(t) - ExponentBias(t) - t.mantissa)
  }

  function ExponentField(t: ScalarType): nat
    requires IsFloat(t) && Representable(t)
  {
    BiasFits(t);
    MaxExponent(t) - ExponentBias(t) + DOUBLE_BIAS
  }

  function FractionField(t: ScalarType): nat
    requires IsFloat(t) && Representable(t)
  {
    MaxMantissa(t) * Pow2(52 - t.mantissa)
  }

  lemma ExponentFieldInRange(t: ScalarType)
    requires IsFloat(t) && Representable(t)
    ensures 1 <= ExponentField(t) <= 2046
    ensures ExponentField(t) == MaxExponent(t) + DOUBLE_BIAS - ExponentBias(t)
  {
    BiasFits(t);
    Pow2Grows(t.exponent - 1, 10);
    PowTen();
    if t.nanRepr != Ieee754 { Pow2Grows(t.exponent - 1, 9); }
  }

  lemma FractionFits(m: nat, n: nat, y: nat)
    requires m <= n && y < Pow2(m)
    ensures y * Pow2(n - m) < Pow2(n)
    ensures Pow2(n) == Pow2(m) * Pow2(n - m)
  {
    Pow2Add(m, n - m);
    StrictScale(Pow2(n - m), y, Pow2(m));
  }

  lemma StrictScale(k: nat, a: nat, b: nat)
    requires a < b && k > 0
    ensures a * k < b * k
  {
  }

  lemma Regroup(a: nat, y: nat, b: nat, c: nat)
    ensures (a * b + y * b) * c == (a + y) * (b * c)
  {
  }

  /** The bits are those of a finite double whose value is Built(t). */
  lemma BuiltBits(t: ScalarType)
    requires IsFloat(t) && Representable(t)
    ensures BitsOf(FloatingPointMaxInt(t).value, 0, ExponentField(t), FractionField(t))
    ensures DecodeDouble(0, ExponentField(t), FractionField(t)) == Finite(Built(t))
  {
    hide Pow2, BitOr, MaxExponent, ExponentBias;
    var m, e := t.mantissa, ExponentField(t);
    ExponentFieldInRange(t);
    MantissaFits(t);
    FractionFits(m, 52, MaxMantissa(t));
    OrDisjoint(FractionField(t), e, 52);
    Regroup(Pow2(m), MaxMantissa(t), Pow2(52 - m), Pow2(e - 1));
    Pow2Add(52 - m, e - 1);
  }

  lemma MantissaFits(t: ScalarType)
    requires t.mantissa > 0
    ensures MaxMantissa(t) < Pow2(t.mantissa)
  {
  }

  ghost predicate Greatest(t: ScalarType, v: int)
    requires IsFloat(t) && Representable(t)
  {
    && (forall x: nat, y: nat :: FiniteEncoding(t, x, y) ==> Magnitude(t, x, y) <= v)
    && (exists x: nat, y: nat :: FiniteEncoding(t, x, y) && Magnitude(t, x, y) == v)
  }

  /** With a one-bit IEEE exponent the only numbers are subnormal, and the assembled
      double lies strictly above them all. */
  lemma OneBitExponent(t: ScalarType, x: nat, y: nat)
    requires IsFloat(t) && Representable(t) && t.nanRepr == Ieee754 && t.exponent == 1
    requires FiniteEncoding(t, x, y)
    ensures Magnitude(t, x, y) < Built(t)
  {
    var m := t.mantissa;
    assert x == 0 && ExponentBias(t) == 0 && MaxExponent(t) == 0;
    OnePowerUp(y, UNIT - m);
    assert 2 * y + 1 <= Pow2(m) + MaxMantissa(t);
    ProductGrows(2 * y + 1, Pow2(m) + MaxMantissa(t), Pow2(UNIT - m));
    assert (2 * y + 1) * Pow2(UNIT - m) == 2 * y * Pow2(UNIT - m) + Pow2(UNIT - m);
  }

  /** The assembled double is the largest finite value of the type, attained by one of
      its encodings, for every type except IEEE types with a one-bit exponent. */
  lemma LargestFiniteIff(t: ScalarType)
    requires IsFloat(t) && Representable(t)
    ensures Greatest(t, Built(t)) <==> !(t.nanRepr == Ieee754 && t.exponent == 1)
  {
    hide Magnitude, FiniteEncoding, Built, Pow2;
    if t.nanRepr == Ieee754 && t.exponent == 1 {
      forall x: nat, y: nat | FiniteEncoding(t, x, y) ensures Magnitude(t, x, y) != Built(t) {
        OneBitExponent(t, x, y);
      }
    } else {
      BuiltIsTopEncoding(t);
      assert FiniteEncoding(t, MaxExponent(t), MaxMantissa(t));
      forall x: nat, y: nat | FiniteEncoding(t, x, y) ensures Magnitude(t, x, y) <= Built(t) {
        TopEncodingIsGreatest(t, x, y);
      }
    }
  }

  lemma BuiltIsTopEncoding(t: ScalarType)
    requires IsFloat(t) && Representable(t) && !(t.nanRepr == Ieee754 && t.exponent == 1)
    ensures FiniteEncoding(t, MaxExponent(t), MaxMantissa(t))
    ensures Magnitude(t, MaxExponent(t), MaxMantissa(t)) == Built(t)
  {
    Pow2Grows(1, t.mantissa);
    if t.nanRepr == Ieee754 { Pow2Grows(2, t.exponent); } else { Pow2Grows(1, t.exponent); }
  }

  lemma SignWeight()
    ensures Pow2(63) == 2048 * Pow2(52)
  {
    Pow2Add(11, 52);
    PowTen();
  }

  lemma SetSignBit(raw: nat, e: nat, f: nat)
    requires BitsOf(raw, 0, e, f)
    ensures BitsOf(BitOr(raw, Pow2(63)), 1, e, f)
  {
    hide Pow2, BitOr;
    SignWeight();
    TopField(f, e, Pow2(52), 2048);
    OrDisjoint(raw, 1, 63);
  }

  /** The minimum sets the sign bit of the same pattern. */
  function FloatingPointMinInt(t: ScalarType): (r: nat)
    requires IsFloat(t) && Representable(t)
    ensures BitsOf(r, 1, ExponentField(t), FractionField(t))
  {
    BuiltBits(t);
    var raw := FloatingPointMaxInt(t).value;
    SetSignBit(raw, ExponentField(t), FractionField(t));
    BitOr(raw, Pow2(63))
  }

  /** The double with the sign bit set has the negated value. */
  lemma FloatMinimumIsNegated(t: ScalarType)
    requires IsFloat(t) && Representable(t)
    ensures var greatest: int := Built(t);
            DecodeDouble(1, ExponentField(t), FractionField(t)) == Finite(-greatest)
  {
    BuiltBits(t);
    hide Built, ExponentField, FractionField;
  }

  function SignedValue(t: ScalarType, negative: bool, x: nat, y: nat): int
    requires IsFloat(t) && Representable(t)
  {
    var magnitude: int := Magnitude(t, x, y);
    if negative then -magnitude else magnitude
  }

  /** No signed number of the type lies outside -v .. v, and both ends are attained. */
  ghost predicate Extremes(t: ScalarType, v: int)
    requires IsFloat(t) && Representable(t)
  {
    && (forall s: bool, x: nat, y: nat :: FiniteEncoding(t, x, y) ==> -v <= SignedValue(t, s, x, y) <= v)
    && (exists x: nat, y: nat :: FiniteEncoding(t, x, y) && SignedValue(t, false, x, y) == v)
    && (exists x: nat, y: nat :: FiniteEncoding(t, x, y) && SignedValue(t, true, x, y) == -v)
  }

  /** The negated double is the least value and the double the greatest one, signs taken
      into account, for every type except IEEE types with a one-bit exponent. */
  lemma ExtremesIff(t: ScalarType)
    requires IsFloat(t) && Representable(t)
    ensures Extremes(t, Built(t)) <==> !(t.nanRepr == Ieee754 && t.exponent == 1)
  {
    LargestFiniteIff(t);
    SignedExtremes(t, Built(t));
  }

  lemma SignedExtremes(t: ScalarType, v: int)
    requires IsFloat(t) && Representable(t)
    ensures Extremes(t, v) <==> Greatest(t, v)
  {
    hide Magnitude, FiniteEncoding;
    if Greatest(t, v) {
      var x: nat, y: nat :| FiniteEncoding(t, x, y) && Magnitude(t, x, y) == v;
      assert SignedValue(t, false, x, y) == v && SignedValue(t, true, x, y) == -v;
    }
    if Extremes(t, v) {
      forall x: nat, y: nat | FiniteEncoding(t, x, y) ensures Magnitude(t, x, y) <= v {
        assert SignedValue(t, false, x, y) <= v;
      }
      var x: nat, y: nat :| FiniteEncoding(t, x, y) && SignedValue(t, false, x, y) == v;
      assert Magnitude(t, x, y) == v;
    }
  }

  // ------------------------------------------------------------------- Integer types

  function SizeBits(t: ScalarType): nat {
    t.exponent + t.mantissa + BoolValue(t.signed)
  }

  /** Largest and least value of an integer type; None is a failed assertion. */
  function IntMax(t: ScalarType): Option<int>
    requires t.exponent == 0
  {
    if SizeBits(t) < 64 || (SizeBits(t) == 64 && t.signed) then Some(Pow2(t.mantissa) - 1 - t.bias) else None
  }

  function IntMin(t: ScalarType): Option<int>
    requires t.exponent == 0
  {
    if t.signed && SizeBits(t) > 64 then None
    else Some((if t.signed then 0 - Pow2(SizeBits(t) - 1) as int else 0) - t.bias)
  }

  /** The assertions admit exactly the types whose extremes, before the bias, are 64-bit
      signed integers. */
  lemma IntegerFits(t: ScalarType)
    requires t.exponent == 0
    ensures IntMax(t).Some? <==> Pow2(t.mantissa) - 1 < Pow2(63)
    ensures IntMin(t).Some? <==> (t.signed ==> Pow2(t.mantissa) <= Pow2(63))
    ensures IntMax(t).Some? ==> IntMax(t).value + t.bias == Pow2(t.mantissa) - 1
    ensures IntMin(t).Some? ==> IntMin(t).value + t.bias == if t.signed then -(Pow2(t.mantissa) as int) else 0
  {
    if t.mantissa <= 63 { Pow2Grows(t.mantissa, 63); } else { Pow2Grows(64, t.mantissa); }
    assert Pow2(64) == 2 * Pow2(63);
  }

  /** The value of a stored pattern: two's complement when signed, less the bias. */
  function StoredValue(t: ScalarType, stored: nat): int
    requires t.exponent == 0
  {
    (if t.signed && stored >= Pow2(t.mantissa) then stored - 2 * Pow2(t.mantissa) else stored) - t.bias
  }

  /** Every stored pattern lies between the two extremes, and both occur. */
  lemma IntegerExtremes(t: ScalarType)
    requires t.exponent == 0 && IntMax(t).Some? && IntMin(t).Some?
    ensures forall stored: nat :: stored < Pow2(SizeBits(t)) ==>
              IntMin(t).value <= StoredValue(t, stored) <= IntMax(t).value
    ensures exists stored: nat :: stored < Pow2(SizeBits(t)) && StoredValue(t, stored) == IntMin(t).value
    ensures exists stored: nat :: stored < Pow2(SizeBits(t)) && StoredValue(t, stored) == IntMax(t).value
  {
    var low := if t.signed then Pow2(t.mantissa) else 0;
    assert low < Pow2(SizeBits(t)) && StoredValue(t, low) == IntMin(t).value;
    assert Pow2(t.mantissa) - 1 < Pow2(SizeBits(t)) && StoredValue(t, Pow2(t.mantissa) - 1) == IntMax(t).value;
  }
}
