/**
  ScalarType (vllm/scalar_type.py): packing a type into an integer id, the registry behind
  `from_id`, and the largest and smallest finite value of a float format as an IEEE 754 double.
 */
module ScalarTypes {
  import opened Wrappers

  datatype NanRepr = NONE | IEEE_754 | EXTD_RANGE_MAX_MIN

  datatype ScalarType = ScalarType(
    exponent: nat,
    mantissa: nat,
    signed: bool,
    bias: int,
    finiteValuesOnly: bool,
    nanRepr: NanRepr)

  /******* Bits of Python integers *******/

  function Pow2(n: nat): (p: nat)
    ensures p >= 1
  {
    if n == 0 then 1 else 2 * Pow2(n - 1)
  }

  /** `a | b` */
  function BitOr(a: nat, b: nat): nat {
    if a == 0 && b == 0 then 0
    else (if a % 2 == 1 || b % 2 == 1 then 1 else 0) + 2 * BitOr(a / 2, b / 2)
  }

  /** `a << k` */
  function Shl(a: nat, k: nat): nat {
    a * Pow2(k)
  }

  /** `a & ((1 << width) - 1)`, two's complement for negative a */
  function LowBits(a: int, width: nat): (r: nat)
    ensures r < Pow2(width)
  {
    a % Pow2(width)
  }

  lemma {:induction false} OrZero(b: nat)
    ensures BitOr(0, b) == b
  {
    if b > 0 {
      OrZero(b / 2);
    }
  }

  /** Or-ing in bits above the highest one set is adding them. */
  lemma {:induction false} OrAbove(a: nat, b: nat, k: nat)
    requires a < Pow2(k)
    ensures BitOr(a, Shl(b, k)) == a + b * Pow2(k)
    decreases k
  {
    if k == 0 {
      OrZero(b);
    } else {
      var high := b * Pow2(k - 1);
      assert b * Pow2(k) == 2 * high;
      OrAbove(a / 2, b, k - 1);
      if a == 0 && high == 0 {
      } else {
        assert BitOr(a, 2 * high) == a % 2 + 2 * BitOr(a / 2, high);
      }
    }
  }

  lemma {:induction false} Pow2Add(i: nat, j: nat)
    ensures Pow2(i + j) == Pow2(i) * Pow2(j)
    decreases i
  {
    if i > 0 {
      Pow2Add(i - 1, j);
      assert i + j - 1 == i - 1 + j;
    }
  }

  lemma {:induction false} Pow2Mono(i: nat, j: nat)
    requires i <= j
    ensures Pow2(i) <= Pow2(j)
  {
    if i < j {
      Pow2Mono(i, j - 1);
    }
  }

  lemma {:induction false} Pow2Values()
    ensures Pow2(0) == 1 && Pow2(1) == 2 && Pow2(8) == 256 && Pow2(10) == 1024 && Pow2(11) == 2048
    ensures Pow2(16) == 0x1_0000 && Pow2(17) == 0x2_0000 && Pow2(32) == 0x1_0000_0000
    ensures Pow2(49) == 0x2_0000_0000_0000 && Pow2(50) == 0x4_0000_0000_0000 && Pow2(52) == 0x10_0000_0000_0000
    ensures Pow2(58) == 0x400_0000_0000_0000 && Pow2(63) == 0x8000_0000_0000_0000
  {
    Pow2Small();
    hide Pow2;
    Pow2Add(8, 8);
    Pow2Add(16, 1);
    Pow2Add(16, 16);
    Pow2Add(32, 16);
    Pow2Add(48, 1);
    Pow2Add(48, 2);
    Pow2Add(48, 4);
    Pow2Add(48, 10);
    Pow2Add(52, 11);
  }

  lemma {:induction false} Pow2Small()
    ensures Pow2(0) == 1 && Pow2(1) == 2 && Pow2(2) == 4 && Pow2(4) == 16
    ensures Pow2(8) == 256 && Pow2(10) == 1024 && Pow2(11) == 2048
  {
    assert Pow2(2) == 4;
    assert Pow2(4) == 16;
    assert Pow2(6) == 64;
    assert Pow2(8) == 256;
    assert Pow2(10) == 1024;
  }

  lemma {:induction false} MulMono(a: nat, b: nat, c: nat)
    requires b <= c
    ensures a * b <= a * c
  {
  }

  /******* The id *******/

  function AsInt(b: bool): nat {
    if b then 1 else 0
  }

  function NanValue(n: NanRepr): nat {
    match n case NONE => 0 case IEEE_754 => 1 case EXTD_RANGE_MAX_MIN => 2
  }

  /** The fields in place, lowest first: 8, 8, 1, 32, 1 and 8 bits; the bias as 32-bit two's complement. */
  ghost function Pack(t: ScalarType): nat {
    t.exponent % 256 + 256 * (t.mantissa % 256 + 256 * (AsInt(t.signed) +
      2 * (t.bias % 0x1_0000_0000 + 0x1_0000_0000 * (AsInt(t.finiteValuesOnly) + 2 * NanValue(t.nanRepr)))))
  }

  /** Reads the fields back, the bias as a signed 32-bit integer. */
  ghost function Unpack(id: nat): ScalarType {
    var afterExponent := id / 256;
    var afterMantissa := afterExponent / 256;
    var afterSigned := afterMantissa / 2;
    var afterBias := afterSigned / 0x1_0000_0000;
    var nan := afterBias / 2;
    var bias := afterSigned % 0x1_0000_0000;
    ScalarType(id % 256, afterExponent % 256, afterMantissa % 2 == 1,
               if bias < 0x8000_0000 then bias else bias - 0x1_0000_0000,
               afterBias % 2 == 1,
               if nan == 0 then NONE else if nan == 1 then IEEE_754 else EXTD_RANGE_MAX_MIN)
  }

  ghost predicate InRange(t: ScalarType) {
    t.exponent < 256 && t.mantissa < 256 && -0x8000_0000 <= t.bias < 0x8000_0000
  }

  /** Unpacking gives back every field that fits. */
  lemma {:induction false} UnpackPack(t: ScalarType)
    requires InRange(t)
    ensures Unpack(Pack(t)) == t
  {
    var l5 := AsInt(t.finiteValuesOnly) + 2 * NanValue(t.nanRepr);
    var l4 := t.bias % 0x1_0000_0000 + 0x1_0000_0000 * l5;
    var l3 := AsInt(t.signed) + 2 * l4;
    var l2 := t.mantissa % 256 + 256 * l3;
    var id := t.exponent % 256 + 256 * l2;
    assert id / 256 == l2 && id % 256 == t.exponent;
    assert l2 / 256 == l3 && l2 % 256 == t.mantissa;
    assert l3 / 2 == l4 && l3 % 2 == AsInt(t.signed);
    assert l4 / 0x1_0000_0000 == l5 && l4 % 0x1_0000_0000 == t.bias % 0x1_0000_0000;
    assert l5 / 2 == NanValue(t.nanRepr) && l5 % 2 == AsInt(t.finiteValuesOnly);
  }

  /** The fields agree in the bits that the id keeps of them. */
  ghost predicate SameKeptBits(a: ScalarType, b: ScalarType) {
    && a.exponent % 256 == b.exponent % 256 && a.mantissa % 256 == b.mantissa % 256 && a.signed == b.signed
    && a.bias % 0x1_0000_0000 == b.bias % 0x1_0000_0000
    && a.finiteValuesOnly == b.finiteValuesOnly && a.nanRepr == b.nanRepr
  }

  /** Two types share an id exactly when their fields agree in the bits that are kept. */
  lemma {:induction false} PackCollides(a: ScalarType, b: ScalarType)
    ensures Pack(a) == Pack(b) <==> SameKeptBits(a, b)
  {
    hide Pack;
    WrappedPack(a);
    WrappedPack(b);
    UnpackPack(Wrapped(a));
    UnpackPack(Wrapped(b));
    SameWrapped(a, b);
  }

  lemma {:induction false} WrappedPack(t: ScalarType)
    ensures Pack(Wrapped(t)) == Pack(t)
  {
  }

  lemma {:induction false} SameWrapped(a: ScalarType, b: ScalarType)
    ensures Wrapped(a) == Wrapped(b) <==> SameKeptBits(a, b)
  {
  }

  /** The type whose fields are the bits that are kept. */
  ghost function Wrapped(t: ScalarType): (r: ScalarType)
    ensures InRange(r)
  {
    var bias := t.bias % 0x1_0000_0000;
    t.(exponent := t.exponent % 256, mantissa := t.mantissa % 256,
       bias := if bias < 0x8000_0000 then bias else bias - 0x1_0000_0000)
  }

  lemma {:induction false} PackFits(t: ScalarType)
    ensures Pack(t) < Pow2(58)
  {
    Pow2Values();
  }

  lemma {:induction false} Level(low: nat, width: nat, high: nat, rest: nat)
    requires low < Pow2(width) && high < Pow2(rest)
    ensures low + Pow2(width) * high < Pow2(width + rest)
  {
    Pow2Add(width, rest);
    MulMono(Pow2(width), high + 1, Pow2(rest));
    assert Pow2(width) * (high + 1) == Pow2(width) * high + Pow2(width);
  }

  /** `_SCALAR_TYPES_ID_MAP` and the operations on it. */
  class Registry {
    var types: map<nat, ScalarType>

    ghost predicate Valid()
      reads this
    {
      forall id | id in types :: Pack(types[id]) == id
    }

    constructor ()
      ensures Valid() && types == map[]
    {
      types := map[];
    }

    /** `id`, on first access: or-s the fields in one after another and registers the type. */
    method Id(t: ScalarType) returns (val: nat)
      requires Valid()
      modifies this
      ensures Valid()
      ensures val == Pack(t) && types == old(types)[val := t]
      ensures val < 0x1_0000_0000_0000_0000
      // the fields from the lowest bit up: 8, 8, 1, 32, 1 and 8 bits
      ensures val == t.exponent % 256 + 0x100 * (t.mantissa % 256) + 0x1_0000 * (if t.signed then 1 else 0)
                     + 0x2_0000 * (t.bias % 0x1_0000_0000) + 0x2_0000_0000_0000 * (if t.finiteValuesOnly then 1 else 0)
                     + 0x4_0000_0000_0000 * (match t.nanRepr case NONE => 0 case IEEE_754 => 1 case EXTD_RANGE_MAX_MIN => 2)
    {
      var offset;
      Pow2Values();
      hide Pow2;
      val, offset := OrAndAdvance(0, 0, t.exponent, 8);
      val, offset := OrAndAdvance(val, offset, t.mantissa, 8);
      val, offset := OrAndAdvance(val, offset, AsInt(t.signed), 1);
      val, offset := OrAndAdvance(val, offset, t.bias, 32);
      val, offset := OrAndAdvance(val, offset, AsInt(t.finiteValuesOnly), 1);
      val, offset := OrAndAdvance(val, offset, NanValue(t.nanRepr), 8);
      assert val == Pack(t);
      assert offset <= 64;  // the assertion on line 160
      types := types[val := t];
    }

    method FromId(id: nat) returns (r: Result<ScalarType>)
      ensures r == if id in types then Ok(types[id]) else Raise("ValueError")
    {
      if id !in types {
        return Raise("ValueError");
      }
      r := Ok(types[id]);
    }
  }

  method OrAndAdvance(val: nat, offset: nat, member: int, width: nat) returns (val': nat, offset': nat)
    requires val < Pow2(offset)
    ensures val' == val + LowBits(member, width) * Pow2(offset) && offset' == offset + width && val' < Pow2(offset')
  {
    var bits := LowBits(member, width);
    OrAbove(val, bits, offset);
    Level(val, offset, bits, width);
    val' := BitOr(val, Shl(bits, offset));
    offset' := offset + width;
  }

  /** A run of first accesses to `id`. */
  ghost function Registered(ts: seq<ScalarType>): map<nat, ScalarType> {
    if ts == [] then map[] else Registered(ts[..|ts| - 1])[Pack(ts[|ts| - 1]) := ts[|ts| - 1]]
  }

  /** The last type of the run that agrees with t in the bits kept. */
  ghost function LastAgreeing(ts: seq<ScalarType>, t: ScalarType): Option<ScalarType> {
    if ts == [] then None
    else if SameKeptBits(ts[|ts| - 1], t) then Some(ts[|ts| - 1])
    else LastAgreeing(ts[..|ts| - 1], t)
  }

  /** Whatever was registered, in whatever order: `from_id` of a type's id is the last that agrees with it. */
  lemma {:induction false} FromIdIsLastAgreeing(ts: seq<ScalarType>, t: ScalarType)
    ensures LastAgreeing(ts, t) == if Pack(t) in Registered(ts) then Some(Registered(ts)[Pack(t)]) else None
  {
    hide Pack, SameKeptBits;
    if ts != [] {
      PackCollides(ts[|ts| - 1], t);
      FromIdIsLastAgreeing(ts[..|ts| - 1], t);
    }
  }

  /** So it is that type itself exactly when no later type that agrees with it differs from it. */
  lemma {:induction false} FromIdOfId(ts: seq<ScalarType>, t: ScalarType)
    requires t in ts
    ensures Pack(t) in Registered(ts)
    ensures Registered(ts)[Pack(t)] == t <==> LastAgreeing(ts, t) == Some(t)
    ensures (forall x | x in ts :: InRange(x)) ==> Registered(ts)[Pack(t)] == t
  {
    hide Pack, SameKeptBits;
    FromIdIsLastAgreeing(ts, t);
    AgreeingFound(ts, t);
  }

  lemma {:induction false} AgreeingFound(ts: seq<ScalarType>, t: ScalarType)
    requires t in ts
    ensures LastAgreeing(ts, t).Some?
    ensures (forall x | x in ts :: InRange(x)) ==> LastAgreeing(ts, t) == Some(t)
  {
    var last := ts[|ts| - 1];
    if SameKeptBits(last, t) {
      InRangeKept(last, t);
    } else {
      AgreeingFound(ts[..|ts| - 1], t);
    }
  }

  /** Fields that fit are their kept bits. */
  lemma {:induction false} InRangeKept(a: ScalarType, b: ScalarType)
    requires SameKeptBits(a, b)
    ensures InRange(a) && InRange(b) ==> a == b
  {
    if InRange(a) && InRange(b) {
      PackCollides(a, b);
      UnpackPack(a);
      UnpackPack(b);
    }
  }

  /** A type with an exponent field too wide by one bit takes over the id of another. */
  lemma {:induction false} WideTypeTakesOver(t: ScalarType)
    requires InRange(t)
    ensures Registered([t, t.(exponent := t.exponent + 256)])[Pack(t)] != t
  {
  }
}
