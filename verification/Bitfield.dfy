/** Integers of 1 to 63 bits at any bit offset of a string, and arithmetic on them. */
module Bitfield {
  import opened Common
  import opened Bitpos

  // --------------------------------------------------------------------------
  // Numbers and their bits
  // --------------------------------------------------------------------------

  /** Bit k of a number, from the right. */
  predicate NumBit(v: nat, k: nat) {
    v / Pow2(k) % 2 == 1
  }

  function BitValue(b: bool): nat {
    if b then 1 else 0
  }

  /** The number held by `bits` bits from an offset on, first bit most significant. */
  function Field(s: seq<bv8>, offset: nat, bits: nat): nat {
    if bits == 0 then 0 else 2 * Field(s, offset, bits - 1) + BitValue(BitOf(s, offset + bits - 1))
  }

  /** The string holds these bits of v there. */
  ghost predicate HoldsBits(s: seq<bv8>, offset: nat, bits: nat, v: nat, n: nat)
    requires n <= bits
  {
    forall p: nat | offset <= p < offset + n :: BitOf(s, p) == NumBit(v, offset + bits - 1 - p)
  }

  lemma Multiples(d: int, m: int)
    requires m > 0
    ensures d >= 1 ==> d * m >= m
    ensures d <= -1 ==> d * m <= -m
  {
    assert d * m - m == (d - 1) * m && d * m + m == (d + 1) * m;
  }

  lemma Quotient(x: int, q: int, r: int, m: int)
    requires m > 0 && x == q * m + r && 0 <= r < m
    ensures x / m == q && x % m == r
  {
    var d := x / m - q;
    assert x == x / m * m + x % m;
    assert d * m == r - x % m;
    Multiples(d, m);
  }

  lemma DoubleMod(y: nat, r: nat, m: nat)
    requires r < 2 && m > 0
    ensures (2 * y + r) % (2 * m) == 2 * (y % m) + r
  {
    var q, t := y / m, y % m;
    assert y == q * m + t;
    assert 2 * y + r == q * (2 * m) + (2 * t + r);
    Quotient(2 * y + r, q, 2 * t + r, 2 * m);
  }

  lemma HalfDiv(v: nat, p: nat)
    requires p > 0
    ensures v / (2 * p) == v / p / 2
  {
    var x := v / p;
    var t := v % p;
    assert v == x * p + t;
    var y, r := x / 2, x % 2;
    assert x == 2 * y + r;
    assert v == y * (2 * p) + (r * p + t);
    Quotient(v, y, r * p + t, 2 * p);
  }

  /** The n bits of v that stand above its k lowest. */
  function Slice(v: nat, k: nat, n: nat): nat {
    v / Pow2(k) % Pow2(n)
  }

  lemma SliceNext(v: nat, k: nat, n: nat)
    ensures Slice(v, k, n + 1) == 2 * Slice(v, k + 1, n) + BitValue(NumBit(v, k))
  {
    hide Pow2;
    var x := v / Pow2(k);
    Pow2Next(k);
    Pow2Next(n);
    HalfDiv(v, Pow2(k));
    DoubleMod(x / 2, x % 2, Pow2(n));
    assert x == 2 * (x / 2) + x % 2;
  }

  lemma Pow2Next(n: nat)
    ensures Pow2(n + 1) == 2 * Pow2(n)
  {
  }

  lemma {:induction false} SliceNone(v: nat, k: nat)
    ensures Slice(v, k, 0) == 0 && Slice(v, 0, k) == v % Pow2(k)
  {
  }

  /** Bits read one after the other make the slice. */
  lemma {:induction false} FieldOfBits(s: seq<bv8>, offset: nat, bits: nat, v: nat, n: nat)
    requires n <= bits && HoldsBits(s, offset, bits, v, n)
    ensures Field(s, offset, n) == Slice(v, bits - n, n)
    decreases n
  {
    hide BitOf, NumBit, Slice;
    if n == 0 {
      SliceNone(v, bits);
    } else {
      FieldOfBits(s, offset, bits, v, n - 1);
      SliceNext(v, bits - n, n - 1);
      assert BitOf(s, offset + n - 1) == NumBit(v, bits - n);
    }
  }

  lemma {:induction false} FieldBound(s: seq<bv8>, offset: nat, bits: nat)
    ensures Field(s, offset, bits) < Pow2(bits)
  {
    if bits == 0 {
    } else {
      FieldBound(s, offset, bits - 1);
    }
  }

  /** A field whose bits are the low bits of v holds v modulo 2 to the width. */
  lemma {:induction false} FieldHolds(s: seq<bv8>, offset: nat, bits: nat, v: nat)
    requires HoldsBits(s, offset, bits, v, bits)
    ensures Field(s, offset, bits) == v % Pow2(bits)
  {
    hide HoldsBits, Slice;
    FieldOfBits(s, offset, bits, v, bits);
    SliceNone(v, bits);
  }

  lemma {:induction false} SameField(s: seq<bv8>, t: seq<bv8>, offset: nat, bits: nat)
    requires forall p: nat | offset <= p < offset + bits :: BitOf(s, p) == BitOf(t, p)
    ensures Field(s, offset, bits) == Field(t, offset, bits)
  {
    hide BitOf;
    if bits == 0 {
    } else {
      SameField(s, t, offset, bits - 1);
    }
  }

  // --------------------------------------------------------------------------
  // Writing and reading
  // --------------------------------------------------------------------------

  function WithBit(b: bv8, r: nat, v: bool): bv8 {
    (b & !ByteMask(r)) | (if v then ByteMask(r) else 0)
  }

  lemma BitWritten(b: bv8, r: nat, v: bool, r': nat)
    requires r < 8 && r' < 8
    ensures Hits(WithBit(b, r, v), r') == if r' == r then v else Hits(b, r')
  {
  }

  lemma OneBitWritten(s: seq<bv8>, o: nat, v: bool, p: nat)
    requires o / 8 < |s|
    ensures var t := s[o / 8 := WithBit(s[o / 8], o % 8, v)];
            BitOf(t, p) == if p == o then v else BitOf(s, p)
  {
    hide Hits, WithBit;
    if p / 8 == o / 8 {
      BitWritten(s[o / 8], o % 8, v, p % 8);
    }
  }

  /** Only the field's bits change, and they become the low bits of the value. */
  ghost predicate Written(was: seq<bv8>, now: seq<bv8>, offset: nat, bits: nat, v: nat, n: nat)
    requires n <= bits
  {
    && |now| == |was| && HoldsBits(now, offset, bits, v, n)
    && forall p: nat | p < offset || offset + n <= p :: BitOf(now, p) == BitOf(was, p)
  }

  method SetUnsignedBitfield(p: array<bv8>, offset: nat, bits: nat, value: nat)
    requires offset + bits <= 8 * p.Length
    modifies p
    ensures Written(old(p[..]), p[..], offset, bits, value, bits)
    ensures Field(p[..], offset, bits) == value % Pow2(bits)
  {
    hide BitOf, NumBit, WithBit, Field;
    ghost var was := p[..];
    for j := 0 to bits
      invariant Written(was, p[..], offset, bits, value, j)
    {
      hide BitOf, NumBit, WithBit, Field;
      ghost var before := p[..];
      var bitval := NumBit(value, bits - 1 - j);
      var o := offset + j;
      p[o / 8] := WithBit(p[o / 8], o % 8, bitval);
      assert p[..] == before[o / 8 := WithBit(before[o / 8], o % 8, bitval)];
      forall q: nat ensures BitOf(p[..], q) == if q == o then bitval else BitOf(before, q) {
        OneBitWritten(before, o, bitval, q);
      }
    }
    hide BitOf, NumBit, WithBit, Field;
    FieldHolds(p[..], offset, bits, value);
  }

  method GetUnsignedBitfield(p: seq<bv8>, offset: nat, bits: nat) returns (value: nat)
    requires offset + bits <= 8 * |p|
    ensures value == Field(p, offset, bits) && value < Pow2(bits)
  {
    hide BitOf, ByteMask;
    value := 0;
    for j := 0 to bits
      invariant value == Field(p, offset, j)
    {
      hide BitOf, ByteMask;
      var o := offset + j;
      var bitval := p[o / 8] & ByteMask(o % 8) != 0;
      BitRead(p, o);
      value := 2 * value + BitValue(bitval);
    }
    hide BitOf, ByteMask, Field;
    FieldBound(p, offset, bits);
  }

  lemma BitRead(s: seq<bv8>, o: nat)
    requires o / 8 < |s|
    ensures BitOf(s, o) == (s[o / 8] & ByteMask(o % 8) != 0)
  {
  }

  // --------------------------------------------------------------------------
  // Signed fields
  // --------------------------------------------------------------------------

  const TWO_TO_THE_63: int := 0x8000_0000_0000_0000
  const TWO_TO_THE_64: int := 0x1_0000_0000_0000_0000

  /** A 64-bit pattern read as signed. */
  function AsSigned(u: int): int {
    if u % TWO_TO_THE_64 >= TWO_TO_THE_63 then u % TWO_TO_THE_64 - TWO_TO_THE_64 else u % TWO_TO_THE_64
  }

  predicate IsInt64(v: int) {
    -TWO_TO_THE_63 <= v < TWO_TO_THE_63
  }

  /** The number modulo 2 to the width, read as signed: two's complement at that width. */
  function Wrapped(v: int, bits: nat): int
    requires bits >= 1
  {
    var u := v % Pow2(bits);
    if u >= Pow2(bits - 1) then u - Pow2(bits) else u
  }

  predicate FitsSigned(v: int, bits: nat)
    requires bits >= 1
  {
    0 - Pow2(bits - 1) <= v < Pow2(bits - 1)
  }

  predicate FitsUnsigned(v: int, bits: nat) {
    0 <= v < Pow2(bits)
  }

  /** A value that fits is its own two's complement. */
  lemma WrappedFits(v: int, bits: nat)
    requires bits >= 1 && FitsSigned(v, bits)
    ensures Wrapped(v, bits) == v
  {
    Pow2Next(bits - 1);
    if v >= 0 {
      Quotient(v, 0, v, Pow2(bits));
    } else {
      Quotient(v, -1, v + Pow2(bits), Pow2(bits));
    }
  }

  lemma {:induction false} WrappedInRange(v: int, bits: nat)
    requires bits >= 1
    ensures FitsSigned(Wrapped(v, bits), bits) && Wrapped(v, bits) % Pow2(bits) == v % Pow2(bits)
  {
    hide Pow2;
    Pow2Next(bits - 1);
    var u, p := v % Pow2(bits), Pow2(bits);
    Quotient(u, 0, u, p);
    if u >= Pow2(bits - 1) {
      Quotient(u - p, -1, u, p);
    }
  }

  lemma {:induction false} Pow2Add(a: nat, b: nat)
    ensures Pow2(a + b) == Pow2(a) * Pow2(b)
    decreases a
  {
    if a == 0 {
    } else {
      Pow2Add(a - 1, b);
      assert Pow2(a + b) == 2 * Pow2(a + b - 1);
    }
  }

  lemma Pow2Values()
    ensures Pow2(63) == TWO_TO_THE_63 && Pow2(64) == TWO_TO_THE_64
  {
    assert Pow2(8) == 256;
    Pow2Add(8, 8);
    Pow2Add(16, 16);
    Pow2Add(32, 32);
    assert Pow2(64) == 2 * Pow2(63);
  }

  lemma ModMod(v: int, a: int, m: int)
    requires a > 0 && m > 0
    ensures v % (a * m) % m == v % m
  {
    var q, r := v / (a * m), v % (a * m);
    assert a * m > 0;
    assert v == q * (a * m) + r;
    var q', r' := r / m, r % m;
    assert r == q' * m + r';
    assert q * (a * m) == (q * a) * m;
    assert v == (q * a + q') * m + r' by {
      assert (q * a + q') * m == (q * a) * m + q' * m;
    }
    Quotient(v, q * a + q', r', m);
  }

  /** 64-bit wrap-around does not disturb a narrower modulus. */
  lemma {:induction false} Mod64(v: int, bits: nat)
    requires bits <= 64
    ensures v % TWO_TO_THE_64 % Pow2(bits) == v % Pow2(bits)
  {
    hide Pow2;
    Pow2Values();
    Pow2Add(64 - bits, bits);
    ModMod(v, Pow2(64 - bits), Pow2(bits));
  }

  method SetSignedBitfield(p: array<bv8>, offset: nat, bits: nat, value: int)
    requires offset + bits <= 8 * p.Length && 1 <= bits <= 63 && IsInt64(value)
    modifies p
    ensures Written(old(p[..]), p[..], offset, bits, value % TWO_TO_THE_64, bits)
    ensures Field(p[..], offset, bits) == value % Pow2(bits)
  {
    hide Written, Field;
    SetUnsignedBitfield(p, offset, bits, value % TWO_TO_THE_64);
    Mod64(value, bits);
  }

  function SignedField(s: seq<bv8>, offset: nat, bits: nat): int
    requires bits >= 1
  {
    Wrapped(Field(s, offset, bits), bits)
  }

  /** Setting the bits above the field of a 64-bit pattern and reading it as signed. */
  lemma Extended(u: nat, bits: nat)
    requires 1 <= bits <= 63 && u < Pow2(bits)
    ensures NumBit(u, bits - 1) <==> u >= Pow2(bits - 1)
    ensures u >= Pow2(bits - 1) ==> AsSigned(u + (TWO_TO_THE_64 - Pow2(bits))) == u - Pow2(bits)
    ensures u < Pow2(bits - 1) ==> AsSigned(u) == u
    ensures Pow2(bits) <= TWO_TO_THE_63
  {
    hide Pow2;
    Pow2Next(bits - 1);
    var h := Pow2(bits - 1);
    if u >= h {
      Quotient(u, 1, u - h, h);
    } else {
      Quotient(u, 0, u, h);
    }
    Pow2Values();
    Pow2Add(63 - bits, bits);
    Multiples(Pow2(63 - bits), Pow2(bits));
  }

  method GetSignedBitfield(p: seq<bv8>, offset: nat, bits: nat) returns (value: int)
    requires offset + bits <= 8 * |p| && 1 <= bits <= 63
    ensures value == SignedField(p, offset, bits) && FitsSigned(value, bits) && IsInt64(value)
  {
    hide Field, Pow2;
    var u := GetUnsignedBitfield(p, offset, bits);
    Extended(u, bits);
    Pow2Next(bits - 1);
    Quotient(u, 0, u, Pow2(bits));
    if NumBit(u, bits - 1) {
      value := AsSigned(u + (TWO_TO_THE_64 - Pow2(bits)));
    } else {
      value := AsSigned(u);
    }
  }

  // --------------------------------------------------------------------------
  // Overflow
  // --------------------------------------------------------------------------

  datatype Policy = Wrap | Sat | Fail

  /** The code returned, and the value to store instead if the check sets one. */
  datatype Check = Check(code: int, limit: Option<int>)

  function CheckUnsigned(value: nat, incr: int, bits: nat, policy: Policy): Check {
    var max := Pow2(bits) - 1;
    var maxincr, minincr := AsSigned(max - value), AsSigned(-(value as int));
    var wrapped := Check(1, Some((value + incr) % TWO_TO_THE_64 % Pow2(bits)));
    if value > max || (incr > 0 && incr > maxincr) then
      match policy
      case Wrap => wrapped
      case Sat => Check(1, Some(max))
      case Fail => Check(1, None)
    else if incr < 0 && incr < minincr then
      match policy
      case Wrap => wrapped
      case Sat => Check(-1, Some(0))
      case Fail => Check(-1, None)
    else Check(0, None)
  }

  /** The sign bit of the 64-bit sum decides whether the bits above the field are set or cleared. */
  function WrapSigned(value: int, incr: int, bits: nat): int
    requires 1 <= bits <= 63
  {
    var c := (value + incr) % TWO_TO_THE_64;
    var low := c % Pow2(bits);
    if NumBit(c, bits - 1) then AsSigned(low + (TWO_TO_THE_64 - Pow2(bits))) else AsSigned(low)
  }

  /** For widths below 64.  Differences are taken in 64 bits, wrapping around. */
  function CheckSigned(value: int, incr: int, bits: nat, policy: Policy): Check
    requires 1 <= bits <= 63
  {
    var max := Pow2(bits - 1) - 1;
    var min := -max - 1;
    var maxincr, minincr := AsSigned(max - value), AsSigned(min - value);
    var wrapped := Check(1, Some(WrapSigned(value, incr, bits)));
    if value > max || incr > maxincr then
      match policy
      case Wrap => wrapped
      case Sat => Check(1, Some(max))
      case Fail => Check(1, None)
    else if value < min || incr < minincr then
      match policy
      case Wrap => wrapped
      case Sat => Check(-1, Some(min))
      case Fail => Check(-1, None)
    else Check(0, None)
  }

  lemma WidthBound(bits: nat)
    requires 1 <= bits <= 63
    ensures Pow2(bits) <= TWO_TO_THE_63 && Pow2(bits) == 2 * Pow2(bits - 1)
  {
    hide Pow2;
    Pow2Next(bits - 1);
    Pow2Values();
    Pow2Add(63 - bits, bits);
    Multiples(Pow2(63 - bits), Pow2(bits));
  }

  lemma AsSignedSame(v: int)
    requires IsInt64(v)
    ensures AsSigned(v) == v
  {
    if v >= 0 {
      Quotient(v, 0, v, TWO_TO_THE_64);
    } else {
      Quotient(v, -1, v + TWO_TO_THE_64, TWO_TO_THE_64);
    }
  }

  /** What a sum becomes under each policy when it does not fit: the source's promise. */
  function Limited(v: int, low: int, high: int, wrapped: int, policy: Policy): Option<int> {
    match policy
    case Wrap => Some(wrapped)
    case Sat => Some(if v > high then high else low)
    case Fail => None
  }

  /** An unsigned value in range: overflow is reported exactly when the sum does not fit, with the right limit. */
  lemma {:induction false} UnsignedCheckIsRight(value: nat, incr: int, bits: nat, policy: Policy)
    requires 1 <= bits <= 63 && FitsUnsigned(value, bits) && IsInt64(incr)
    ensures var c, sum := CheckUnsigned(value, incr, bits, policy), value + incr;
            && (c.code == 0 <==> FitsUnsigned(sum, bits))
            && (c.code == -1 <==> sum < 0 && policy != Wrap) && c.code in {-1, 0, 1}
            && c.limit == if c.code == 0 then None else Limited(sum, 0, Pow2(bits) - 1, sum % Pow2(bits), policy)
  {
    hide Pow2;
    WidthBound(bits);
    AsSignedSame(Pow2(bits) - 1 - value);
    AsSignedSame(-(value as int));
    Mod64(value + incr, bits);
  }

  lemma HalfOfModulus(c: nat, h: nat)
    requires h > 0
    ensures c / h % 2 == c % (2 * h) / h % 2
  {
    var q, low := c / (2 * h), c % (2 * h);
    Halved(c, q, low, low / h, low % h, h);
  }

  lemma Halved(c: int, q: int, low: int, a: int, b: int, h: int)
    requires h > 0 && c == q * (2 * h) + low && low == a * h + b && 0 <= b < h
    ensures c / h == 2 * q + a
  {
    Quotient(c, 2 * q + a, b, h);
  }

  lemma {:induction false} LowBit(v: int, bits: nat)
    requires 1 <= bits <= 63
    ensures NumBit(v % TWO_TO_THE_64, bits - 1) <==> NumBit(v % Pow2(bits), bits - 1)
  {
    hide Pow2;
    WidthBound(bits);
    Mod64(v, bits);
    HalfOfModulus(v % TWO_TO_THE_64, Pow2(bits - 1));
  }

  /** Wrapping by the sign bit is two's complement at the field's width. */
  lemma WrapSignedIs(value: int, incr: int, bits: nat)
    requires 1 <= bits <= 63
    ensures WrapSigned(value, incr, bits) == Wrapped(value + incr, bits)
  {
    hide Pow2, NumBit, AsSigned;
    var u := (value + incr) % Pow2(bits);
    Mod64(value + incr, bits);
    LowBit(value + incr, bits);
    Extended(u, bits);
  }

  /** A signed value in range: likewise. */
  lemma {:induction false} SignedCheckIsRight(value: int, incr: int, bits: nat, policy: Policy)
    requires 1 <= bits <= 63 && FitsSigned(value, bits) && IsInt64(incr)
    ensures var c, sum := CheckSigned(value, incr, bits, policy), value + incr;
            var h := Pow2(bits - 1);
            && (c.code == 0 <==> FitsSigned(sum, bits))
            && (c.code == -1 <==> sum < 0 - h && policy != Wrap) && c.code in {-1, 0, 1}
            && c.limit == if c.code == 0 then None else Limited(sum, 0 - h, h - 1, Wrapped(sum, bits), policy)
  {
    hide Pow2, WrapSigned, Wrapped, AsSigned;
    WidthBound(bits);
    var h := Pow2(bits - 1);
    AsSignedSame(h - 1 - value);
    AsSignedSame(0 - h - value);
    WrapSignedIs(value, incr, bits);
  }

  // --------------------------------------------------------------------------
  // SET and INCRBY
  // --------------------------------------------------------------------------

  /** What the operation should leave in the field, from the exact sum; None leaves memory alone. */
  function SignedTarget(sum: int, bits: nat, policy: Policy): Option<int>
    requires bits >= 1
  {
    var h := Pow2(bits - 1);
    if FitsSigned(sum, bits) then Some(sum) else Limited(sum, 0 - h, h - 1, Wrapped(sum, bits), policy)
  }

  function UnsignedTarget(sum: int, bits: nat, policy: Policy): Option<int> {
    if FitsUnsigned(sum, bits) then Some(sum) else Limited(sum, 0, Pow2(bits) - 1, sum % Pow2(bits), policy)
  }

  lemma SignedTargetFits(sum: int, bits: nat, policy: Policy)
    requires 1 <= bits <= 63
    ensures var t := SignedTarget(sum, bits, policy); t.Some? ==> FitsSigned(t.value, bits) && IsInt64(t.value)
  {
    hide Pow2, Wrapped;
    WidthBound(bits);
    WrappedInRange(sum, bits);
  }

  /** INCRBY on a signed field: the reply and the field agree, and nothing else in the string changes. */
  method IncrBySigned(p: array<bv8>, offset: nat, bits: nat, incr: int, policy: Policy) returns (reply: Option<int>)
    requires offset + bits <= 8 * p.Length && 1 <= bits <= 63 && IsInt64(incr)
    modifies p
    ensures reply == SignedTarget(SignedField(old(p[..]), offset, bits) + incr, bits, policy)
    ensures reply.None? ==> p[..] == old(p[..])
    ensures reply.Some? ==> SignedField(p[..], offset, bits) == reply.value
    ensures forall q: nat | q < offset || offset + bits <= q :: BitOf(p[..], q) == BitOf(old(p[..]), q)
  {
    hide Pow2, Field, BitOf, Wrapped, CheckSigned;
    var oldval := GetSignedBitfield(p[..], offset, bits);
    var check := CheckSigned(oldval, incr, bits, policy);
    SignedCheckIsRight(oldval, incr, bits, policy);
    SignedTargetFits(oldval + incr, bits, policy);
    if check.code != 0 && check.limit.None? {
      return None;
    }
    var newval := if check.code != 0 then check.limit.value else oldval + incr;
    SetSignedBitfield(p, offset, bits, newval);
    WrappedOfField(p[..], offset, bits, newval);
    reply := Some(newval);
  }

  lemma {:induction false} WrappedOfField(s: seq<bv8>, offset: nat, bits: nat, v: int)
    requires bits >= 1 && Field(s, offset, bits) == v % Pow2(bits) && FitsSigned(v, bits)
    ensures SignedField(s, offset, bits) == v
  {
    hide Pow2, Field;
    var u := v % Pow2(bits);
    Quotient(u, 0, u, Pow2(bits));
    assert Wrapped(u, bits) == Wrapped(v, bits);
    WrappedFits(v, bits);
  }

  /** INCRBY on an unsigned field: likewise. */
  method IncrByUnsigned(p: array<bv8>, offset: nat, bits: nat, incr: int, policy: Policy) returns (reply: Option<int>)
    requires offset + bits <= 8 * p.Length && 1 <= bits <= 63 && IsInt64(incr)
    modifies p
    ensures reply == UnsignedTarget(Field(old(p[..]), offset, bits) + incr, bits, policy)
    ensures reply.None? ==> p[..] == old(p[..])
    ensures reply.Some? ==> Field(p[..], offset, bits) == reply.value
    ensures forall q: nat | q < offset || offset + bits <= q :: BitOf(p[..], q) == BitOf(old(p[..]), q)
  {
    hide Pow2, Field, BitOf, CheckUnsigned;
    var oldval := GetUnsignedBitfield(p[..], offset, bits);
    var check := CheckUnsigned(oldval, incr, bits, policy);
    UnsignedCheckIsRight(oldval, incr, bits, policy);
    if check.code != 0 && check.limit.None? {
      return None;
    }
    var newval := if check.code != 0 then check.limit.value else oldval + incr;
    SetUnsignedBitfield(p, offset, bits, newval);
    Quotient(newval, 0, newval, Pow2(bits));
    reply := Some(newval);
  }

  // --------------------------------------------------------------------------
  // SET checks the new value itself, in range or not
  // --------------------------------------------------------------------------

  /** What SET is to store after the check of the given value; None if it stores nothing. */
  function Stored(c: Check, value: int): Option<int> {
    if c.code == 0 then Some(value) else c.limit
  }

  /** So low that the difference to the field's maximum leaves 64 bits. */
  predicate TooLow(value: int, bits: nat)
    requires bits >= 1
  {
    Pow2(bits - 1) - 1 - value >= TWO_TO_THE_63
  }

  /** A signed SET stores the value or what the policy makes of it, except that SAT takes one too low to the maximum. */
  lemma {:induction false} SignedSetStores(value: int, bits: nat, policy: Policy)
    requires 1 <= bits <= 63 && IsInt64(value)
    ensures Stored(CheckSigned(value, 0, bits, policy), value) ==
              if policy == Sat && TooLow(value, bits) then Some(Pow2(bits - 1) - 1)
              else SignedTarget(value, bits, policy)
  {
    hide Pow2, WrapSigned, Wrapped, AsSigned;
    WidthBound(bits);
    WrapSignedIs(value, 0, bits);
    assert value + 0 == value;
    MaxIncrement(value, bits);
    var h := Pow2(bits - 1);
    if FitsSigned(value, bits) {
      AsSignedSame(0 - h - value);
    }
  }

  /** The difference to the maximum, taken in 64 bits, is negative exactly for values above it or too low. */
  lemma {:induction false} MaxIncrement(value: int, bits: nat)
    requires 1 <= bits <= 63 && IsInt64(value)
    ensures AsSigned(Pow2(bits - 1) - 1 - value) < 0 <==> value >= Pow2(bits - 1) || TooLow(value, bits)
  {
    hide Pow2;
    WidthBound(bits);
    var d := Pow2(bits - 1) - 1 - value;
    if d < TWO_TO_THE_63 {
      AsSignedSame(d);
    } else {
      Quotient(d, 0, d, TWO_TO_THE_64);
    }
  }

  /** Saturation ends at the right limit exactly for values not too low. */
  lemma SetSaturatesIff(value: int, bits: nat)
    requires 1 <= bits <= 63 && IsInt64(value)
    ensures Stored(CheckSigned(value, 0, bits, Sat), value) == SignedTarget(value, bits, Sat) <==> !TooLow(value, bits)
  {
    hide Pow2, CheckSigned;
    WidthBound(bits);
    SignedSetStores(value, bits, Sat);
  }

  /** SET i8 of the least 64-bit value stores 127 instead of -128. */
  lemma LeastValueSaturatesHigh()
    ensures Stored(CheckSigned(-TWO_TO_THE_63, 0, 8, Sat), -TWO_TO_THE_63) == Some(127)
    ensures SignedTarget(-TWO_TO_THE_63, 8, Sat) == Some(-128)
  {
    assert Pow2(7) == 128;
    SignedSetStores(-TWO_TO_THE_63, 8, Sat);
  }

  /** An unsigned SET casts its argument to 64 bits without a sign, and checks that. */
  function CheckUnsignedSet(value: int, bits: nat, policy: Policy): Check {
    CheckUnsigned(value % TWO_TO_THE_64, 0, bits, policy)
  }

  /** An unsigned SET likewise, except that SAT takes a negative value to the maximum. */
  lemma {:induction false} UnsignedSetStores(value: int, bits: nat, policy: Policy)
    requires 1 <= bits <= 63 && IsInt64(value)
    ensures Stored(CheckUnsignedSet(value, bits, policy), value) ==
              if policy == Sat && value < 0 then Some(Pow2(bits) - 1) else UnsignedTarget(value, bits, policy)
  {
    hide Pow2, AsSigned;
    WidthBound(bits);
    Mod64(value, bits);
    var u := value % TWO_TO_THE_64;
    if value >= 0 {
      Quotient(value, 0, value, TWO_TO_THE_64);
    } else {
      Quotient(value, -1, value + TWO_TO_THE_64, TWO_TO_THE_64);
    }
    Quotient(u, 0, u, TWO_TO_THE_64);
    assert u + 0 == u;
  }

  /** Saturation ends at the right limit exactly for arguments that are not negative. */
  lemma UnsignedSetSaturatesIff(value: int, bits: nat)
    requires 1 <= bits <= 63 && IsInt64(value)
    ensures Stored(CheckUnsignedSet(value, bits, Sat), value) == UnsignedTarget(value, bits, Sat) <==> value >= 0
  {
    hide CheckUnsignedSet;
    WidthBound(bits);
    UnsignedSetStores(value, bits, Sat);
  }

  /** SET u8 of -1 stores 255 instead of 0. */
  lemma NegativeSaturatesHigh()
    ensures Stored(CheckUnsignedSet(-1, 8, Sat), -1) == Some(255) && UnsignedTarget(-1, 8, Sat) == Some(0)
  {
    assert Pow2(8) == 256;
    UnsignedSetStores(-1, 8, Sat);
  }

  /** SET replies with the field's old value, and stores what the check leaves of the new one. */
  method SetSigned(p: array<bv8>, offset: nat, bits: nat, value: int, policy: Policy) returns (reply: Option<int>)
    requires offset + bits <= 8 * p.Length && 1 <= bits <= 63 && IsInt64(value)
    modifies p
    ensures var stored := if policy == Sat && TooLow(value, bits) then Some(Pow2(bits - 1) - 1)
                          else SignedTarget(value, bits, policy);
            && reply == (if stored.Some? then Some(SignedField(old(p[..]), offset, bits)) else None)
            && (stored.None? ==> p[..] == old(p[..]))
            && (stored.Some? ==> SignedField(p[..], offset, bits) == stored.value)
    ensures forall q: nat | q < offset || offset + bits <= q :: BitOf(p[..], q) == BitOf(old(p[..]), q)
  {
    hide Pow2, Field, BitOf, Wrapped, CheckSigned;
    var oldval := GetSignedBitfield(p[..], offset, bits);
    var check := CheckSigned(value, 0, bits, policy);
    SignedSetStores(value, bits, policy);
    SignedTargetFits(value, bits, policy);
    WidthBound(bits);
    if check.code != 0 && check.limit.None? {
      return None;
    }
    var newval := if check.code != 0 then check.limit.value else value;
    SetSignedBitfield(p, offset, bits, newval);
    WrappedOfField(p[..], offset, bits, newval);
    reply := Some(oldval);
  }

  method SetUnsigned(p: array<bv8>, offset: nat, bits: nat, value: int, policy: Policy) returns (reply: Option<int>)
    requires offset + bits <= 8 * p.Length && 1 <= bits <= 63 && IsInt64(value)
    modifies p
    ensures var stored := if policy == Sat && value < 0 then Some(Pow2(bits) - 1)
                          else UnsignedTarget(value, bits, policy);
            && reply == (if stored.Some? then Some(Field(old(p[..]), offset, bits)) else None)
            && (stored.None? ==> p[..] == old(p[..]))
            && (stored.Some? ==> Field(p[..], offset, bits) == stored.value)
    ensures forall q: nat | q < offset || offset + bits <= q :: BitOf(p[..], q) == BitOf(old(p[..]), q)
  {
    hide Pow2, Field, BitOf, CheckUnsigned;
    var oldval := GetUnsignedBitfield(p[..], offset, bits);
    var u := value % TWO_TO_THE_64;
    var check := CheckUnsigned(u, 0, bits, policy);
    UnsignedSetStores(value, bits, policy);
    WidthBound(bits);
    if check.code != 0 && check.limit.None? {
      return None;
    }
    if check.code == 0 {
      Quotient(value, 0, value, TWO_TO_THE_64);
    }
    var newval := if check.code != 0 then check.limit.value else u;
    Quotient(newval, 0, newval, Pow2(bits));
    SetUnsignedBitfield(p, offset, bits, newval);
    reply := Some(oldval);
  }

  // --------------------------------------------------------------------------
  // GET past the end of the string
  // --------------------------------------------------------------------------

  /** The nine bytes from `byte` on, as far as the string goes, zeros after that. */
  method CopyNine(src: seq<bv8>, byte: nat) returns (buf: seq<bv8>)
    ensures |buf| == 9 && forall k: nat | k < 9 :: buf[k] == PadAt(src, byte + k)
  {
    buf := [0, 0, 0, 0, 0, 0, 0, 0, 0];
    var i := 0;
    while i < 9 && i + byte < |src|
      invariant 0 <= i <= 9 && |buf| == 9
      invariant forall k: nat | k < 9 :: buf[k] == if k < i then PadAt(src, byte + k) else 0
    {
      buf := buf[i := src[i + byte]];
      i := i + 1;
    }
  }

  /** GET copies nine bytes, so that a field may lie past the end: it reads zeros there. */
  method GetPadded(src: seq<bv8>, offset: nat, bits: nat) returns (value: nat)
    requires 1 <= bits <= 63
    ensures value == Field(src, offset, bits)
  {
    hide Field, BitOf, PadAt;
    var byte := offset / 8;
    var buf := CopyNine(src, byte);
    value := GetUnsignedBitfield(buf, offset - byte * 8, bits);
    Shifted(src, buf, byte, offset - byte * 8, bits);
  }

  method GetPaddedSigned(src: seq<bv8>, offset: nat, bits: nat) returns (value: int)
    requires 1 <= bits <= 63
    ensures value == SignedField(src, offset, bits) && FitsSigned(value, bits)
  {
    hide Field, BitOf, PadAt, Pow2;
    var byte := offset / 8;
    var buf := CopyNine(src, byte);
    value := GetSignedBitfield(buf, offset - byte * 8, bits);
    Shifted(src, buf, byte, offset - byte * 8, bits);
  }

  lemma {:induction false} Shifted(src: seq<bv8>, buf: seq<bv8>, byte: nat, offset: nat, bits: nat)
    requires |buf| == 9 && offset + bits <= 72 && forall k: nat | k < 9 :: buf[k] == PadAt(src, byte + k)
    ensures Field(buf, offset, bits) == Field(src, offset + 8 * byte, bits)
  {
    hide Hits, PadAt;
    if bits == 0 {
    } else {
      Shifted(src, buf, byte, offset, bits - 1);
      var o := offset + bits - 1;
      assert (o + 8 * byte) / 8 == byte + o / 8 && (o + 8 * byte) % 8 == o % 8;
      BufferByte(buf, o / 8);
    }
  }

  lemma BufferByte(buf: seq<bv8>, k: nat)
    requires k < |buf|
    ensures PadAt(buf, k) == buf[k]
  {
  }
}
