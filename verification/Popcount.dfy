/** redisPopcount: counting the one bits of a string, seven words at a time where it can. */
module Popcount {

  // --------------------------------------------------------------------------
  // The specification
  // --------------------------------------------------------------------------

  function Bit(b: bv8, mask: bv8): nat {
    if b & mask != 0 then 1 else 0
  }

  function OnesIn(b: bv8): nat {
    Bit(b, 0x80) + Bit(b, 0x40) + Bit(b, 0x20) + Bit(b, 0x10) + Bit(b, 8) + Bit(b, 4) + Bit(b, 2) + Bit(b, 1)
  }

  /** The number of one bits in a string. */
  function Ones(s: seq<bv8>): nat {
    if s == [] then 0 else OnesIn(s[0]) + Ones(s[1..])
  }

  lemma {:induction false} OnesConcat(a: seq<bv8>, b: seq<bv8>)
    ensures Ones(a + b) == Ones(a) + Ones(b)
    decreases |a|
  {
    hide OnesIn;
    if a == [] {
      assert a + b == b;
    } else {
      assert (a + b)[1..] == a[1..] + b;
      OnesConcat(a[1..], b);
    }
  }

  // --------------------------------------------------------------------------
  // The table
  // --------------------------------------------------------------------------

  /** A row of sixteen entries; rows of the table repeat. */
  function Row0(n: bv8): nat {
    match n
    case 0 => 0 case 1 => 1 case 2 => 1 case 3 => 2 case 4 => 1 case 5 => 2 case 6 => 2 case 7 => 3
    case 8 => 1 case 9 => 2 case 10 => 2 case 11 => 3 case 12 => 2 case 13 => 3 case 14 => 3 case _ => 4
  }

  function Row1(n: bv8): nat {
    match n
    case 0 => 1 case 1 => 2 case 2 => 2 case 3 => 3 case 4 => 2 case 5 => 3 case 6 => 3 case 7 => 4
    case 8 => 2 case 9 => 3 case 10 => 3 case 11 => 4 case 12 => 3 case 13 => 4 case 14 => 4 case _ => 5
  }

  function Row2(n: bv8): nat {
    match n
    case 0 => 2 case 1 => 3 case 2 => 3 case 3 => 4 case 4 => 3 case 5 => 4 case 6 => 4 case 7 => 5
    case 8 => 3 case 9 => 4 case 10 => 4 case 11 => 5 case 12 => 4 case 13 => 5 case 14 => 5 case _ => 6
  }

  function Row3(n: bv8): nat {
    match n
    case 0 => 3 case 1 => 4 case 2 => 4 case 3 => 5 case 4 => 4 case 5 => 5 case 6 => 5 case 7 => 6
    case 8 => 4 case 9 => 5 case 10 => 5 case 11 => 6 case 12 => 5 case 13 => 6 case 14 => 6 case _ => 7
  }

  function Row4(n: bv8): nat {
    match n
    case 0 => 4 case 1 => 5 case 2 => 5 case 3 => 6 case 4 => 5 case 5 => 6 case 6 => 6 case 7 => 7
    case 8 => 5 case 9 => 6 case 10 => 6 case 11 => 7 case 12 => 6 case 13 => 7 case 14 => 7 case _ => 8
  }

  function BitsInByte(b: bv8): nat {
    var row, n := b >> 4, b & 15;
    match row
    case 0 => Row0(n) case 1 => Row1(n) case 2 => Row1(n) case 3 => Row2(n)
    case 4 => Row1(n) case 5 => Row2(n) case 6 => Row2(n) case 7 => Row3(n)
    case 8 => Row1(n) case 9 => Row2(n) case 10 => Row2(n) case 11 => Row3(n)
    case 12 => Row2(n) case 13 => Row3(n) case 14 => Row3(n) case _ => Row4(n)
  }

  lemma RowIsOnes(n: bv8)
    requires n < 16
    ensures Row0(n) == OnesIn(n) && Row1(n) == 1 + OnesIn(n) && Row2(n) == 2 + OnesIn(n)
    ensures Row3(n) == 3 + OnesIn(n) && Row4(n) == 4 + OnesIn(n)
  {
  }

  lemma TableIsOnes(b: bv8)
    ensures BitsInByte(b) == OnesIn(b)
  {
    hide Row0, Row1, Row2, Row3, Row4;
    RowIsOnes(b & 15);
  }

  // --------------------------------------------------------------------------
  // Words
  // --------------------------------------------------------------------------

  /** The three folding steps on one word: each byte becomes the count of its own bits. */
  function Fold(x: bv32): bv32 {
    var a := x - ((x >> 1) & 0x5555_5555);
    var b := (a & 0x3333_3333) + ((a >> 2) & 0x3333_3333);
    (b + (b >> 4)) & 0x0F0F_0F0F
  }

  // The four bytes of a word.

  function Byte0(x: bv32): bv8 {
    (x & 0xff) as bv8
  }

  function Byte1(x: bv32): bv8 {
    ((x >> 8) & 0xff) as bv8
  }

  function Byte2(x: bv32): bv8 {
    ((x >> 16) & 0xff) as bv8
  }

  function Byte3(x: bv32): bv8 {
    (x >> 24) as bv8
  }

  /** The number a word stands for, from its bytes. */
  function Number(x: bv32): nat {
    (Byte0(x) as nat) + 0x100 * (Byte1(x) as nat) + 0x1_0000 * (Byte2(x) as nat) + 0x100_0000 * (Byte3(x) as nat)
  }

  /** The one bits of a byte, added up in a byte. */
  function Sum8(x: bv8): bv8 {
    (x & 1) + ((x >> 1) & 1) + ((x >> 2) & 1) + ((x >> 3) & 1)
    + ((x >> 4) & 1) + ((x >> 5) & 1) + ((x >> 6) & 1) + ((x >> 7) & 1)
  }

  lemma FoldByte0(x: bv32)
    ensures Byte0(Fold(x)) == Sum8(Byte0(x))
  {
  }

  lemma FoldByte1(x: bv32)
    ensures Byte1(Fold(x)) == Sum8(Byte1(x))
  {
  }

  lemma FoldByte2(x: bv32)
    ensures Byte2(Fold(x)) == Sum8(Byte2(x))
  {
  }

  lemma FoldByte3(x: bv32)
    ensures Byte3(Fold(x)) == Sum8(Byte3(x))
  {
  }

  lemma Sum8Nat(b: bv8)
    ensures Sum8(b) as nat == OnesIn(b)
  {
  }

  /** Four bytes read as a little-endian word. */
  function Load(a: bv8, b: bv8, c: bv8, d: bv8): bv32 {
    (a as bv32) | ((b as bv32) << 8) | ((c as bv32) << 16) | ((d as bv32) << 24)
  }

  lemma LoadedBytes(a: bv8, b: bv8, c: bv8, d: bv8)
    ensures var x := Load(a, b, c, d); Byte0(x) == a && Byte1(x) == b && Byte2(x) == c && Byte3(x) == d
  {
  }

  function LoadAt(s: seq<bv8>, i: nat): bv32
    requires i + 4 <= |s|
  {
    Load(s[i], s[i + 1], s[i + 2], s[i + 3])
  }

  function OnesAt(s: seq<bv8>, i: nat): (n: nat)
    requires i < |s|
    ensures n <= 8
  {
    OnesIn(s[i])
  }

  /** Four numbers, one for each byte of a word. */
  datatype Quad = Quad(a: nat, b: nat, c: nat, d: nat)

  function Plus(x: Quad, y: Quad): Quad {
    Quad(x.a + y.a, x.b + y.b, x.c + y.c, x.d + y.d)
  }

  /** The four side by side in a word. */
  function Beside(x: Quad): nat {
    x.a + 0x100 * x.b + 0x1_0000 * x.c + 0x100_0000 * x.d
  }

  function Total(x: Quad): nat {
    x.a + x.b + x.c + x.d
  }

  predicate AtMost(x: Quad, n: nat) {
    x.a <= n && x.b <= n && x.c <= n && x.d <= n
  }

  lemma PlusAdds(x: Quad, y: Quad)
    ensures Beside(Plus(x, y)) == Beside(x) + Beside(y) && Total(Plus(x, y)) == Total(x) + Total(y)
  {
  }

  function CountsAt(s: seq<bv8>, i: nat): (q: Quad)
    requires i + 4 <= |s|
    ensures AtMost(q, 8)
  {
    Quad(OnesAt(s, i), OnesAt(s, i + 1), OnesAt(s, i + 2), OnesAt(s, i + 3))
  }

  lemma FoldedNumber(s: seq<bv8>, i: nat)
    requires i + 4 <= |s|
    ensures Number(Fold(LoadAt(s, i))) == Beside(CountsAt(s, i))
  {
    hide Load, Fold, Byte0, Byte1, Byte2, Byte3, Sum8, OnesIn;
    LoadedBytes(s[i], s[i + 1], s[i + 2], s[i + 3]);
    FoldByte0(LoadAt(s, i));
    FoldByte1(LoadAt(s, i));
    FoldByte2(LoadAt(s, i));
    FoldByte3(LoadAt(s, i));
    Sum8Nat(s[i]);
    Sum8Nat(s[i + 1]);
    Sum8Nat(s[i + 2]);
    Sum8Nat(s[i + 3]);
  }

  // --------------------------------------------------------------------------
  // Seven words at a time
  // --------------------------------------------------------------------------

  const TWO_TO_THE_32: nat := 0x1_0000_0000

  /** The sum of the folded words times 0x01010101, in 32 bits; its highest byte. */
  function Gather(sum: nat): nat {
    sum % TWO_TO_THE_32 * 0x0101_0101 % TWO_TO_THE_32 / 0x100_0000
  }

  lemma Remainder(r: nat, k: nat)
    requires r < TWO_TO_THE_32
    ensures (r + k * TWO_TO_THE_32) % TWO_TO_THE_32 == r
  {
  }

  /** Four sums of at most 56 gather to at most 224, so nothing carries into the highest byte or out of it. */
  lemma Gathers(x: Quad)
    requires AtMost(x, 56)
    ensures Gather(Beside(x)) == Total(x)
  {
    var low := x.a + 0x100 * (x.a + x.b) + 0x1_0000 * (x.a + x.b + x.c);
    var k := (x.b + x.c + x.d) + 0x100 * (x.c + x.d) + 0x1_0000 * x.d;
    Remainder(Beside(x), 0);
    assert Beside(x) * 0x0101_0101 == low + Total(x) * 0x100_0000 + k * TWO_TO_THE_32;
    Remainder(low + Total(x) * 0x100_0000, k);
  }

  /** One bits in each byte position of the first n words. */
  function Columns(b: seq<bv8>, n: nat): (q: Quad)
    requires 4 * n <= |b|
    ensures AtMost(q, 8 * n)
  {
    if n == 0 then Quad(0, 0, 0, 0) else Plus(Columns(b, n - 1), CountsAt(b, 4 * (n - 1)))
  }

  function FoldedSum(b: seq<bv8>): nat
    requires |b| == 28
  {
    Number(Fold(LoadAt(b, 0))) + Number(Fold(LoadAt(b, 4))) + Number(Fold(LoadAt(b, 8))) + Number(Fold(LoadAt(b, 12)))
    + Number(Fold(LoadAt(b, 16))) + Number(Fold(LoadAt(b, 20))) + Number(Fold(LoadAt(b, 24)))
  }

  lemma OneMoreWord(b: seq<bv8>, n: nat)
    requires 4 * n + 4 <= |b|
    ensures Beside(Columns(b, n + 1)) == Beside(Columns(b, n)) + Number(Fold(LoadAt(b, 4 * n)))
    ensures Total(Columns(b, n + 1)) == Total(Columns(b, n)) + Total(CountsAt(b, 4 * n))
  {
    hide Number, Fold, LoadAt, CountsAt, Beside, Total, Plus;
    FoldedNumber(b, 4 * n);
    PlusAdds(Columns(b, n), CountsAt(b, 4 * n));
  }

  lemma {:induction false} FoldedColumns(b: seq<bv8>)
    requires |b| == 28
    ensures FoldedSum(b) == Beside(Columns(b, 7))
  {
    hide Number, Fold, LoadAt, Columns, Beside;
    NoColumns(b);
    OneMoreWord(b, 0);
    OneMoreWord(b, 1);
    OneMoreWord(b, 2);
    OneMoreWord(b, 3);
    OneMoreWord(b, 4);
    OneMoreWord(b, 5);
    OneMoreWord(b, 6);
  }

  lemma {:induction false} NoColumns(b: seq<bv8>)
    ensures Beside(Columns(b, 0)) == 0 && Total(Columns(b, 0)) == 0
  {
  }

  lemma FourMore(s: seq<bv8>, i: nat, j: nat)
    requires i <= j && j + 4 <= |s|
    ensures Ones(s[i..j + 4]) == Ones(s[i..j]) + Total(CountsAt(s, j))
  {
    hide OnesIn, Ones;
    OneMore(s, i, j);
    OneMore(s, i, j + 1);
    OneMore(s, i, j + 2);
    OneMore(s, i, j + 3);
  }

  lemma OneMore(s: seq<bv8>, i: nat, j: nat)
    requires i <= j < |s|
    ensures Ones(s[i..j + 1]) == Ones(s[i..j]) + OnesIn(s[j])
  {
    hide OnesIn;
    assert s[i..j + 1] == s[i..j] + [s[j]];
    OnesConcat(s[i..j], [s[j]]);
  }

  lemma {:induction false} OnesInColumns(b: seq<bv8>, n: nat)
    requires 4 * n <= |b|
    ensures Ones(b[0..4 * n]) == Total(Columns(b, n))
  {
    hide Ones, CountsAt, Total;
    if n == 0 {
      NoOnes();
      NoColumns(b);
    } else {
      OnesInColumns(b, n - 1);
      FourMore(b, 0, 4 * (n - 1));
      OneMoreWord(b, n - 1);
    }
  }

  /** The 28 bytes of one turn of the middle loop. */
  lemma {:induction false} BlockOnes(b: seq<bv8>)
    requires |b| == 28
    ensures Gather(FoldedSum(b)) == Ones(b)
  {
    hide FoldedSum, Gather, Ones, Columns, Beside, Total, AtMost;
    FoldedColumns(b);
    Gathers(Columns(b, 7));
    OnesInColumns(b, 7);
    assert b[0..28] == b;
  }

  lemma NoOnes()
    ensures Ones([]) == 0
  {
  }

  lemma Counted(s: seq<bv8>, i: nat, j: nat)
    requires i <= j <= |s|
    ensures Ones(s[..j]) == Ones(s[..i]) + Ones(s[i..j])
  {
    hide Ones;
    assert s[..j] == s[..i] + s[i..j];
    OnesConcat(s[..i], s[i..j]);
  }

  lemma TableOne(s: seq<bv8>, i: nat)
    requires i < |s|
    ensures Ones(s[..i + 1]) == Ones(s[..i]) + BitsInByte(s[i])
  {
    hide OnesIn, BitsInByte, Ones;
    TableIsOnes(s[i]);
    OneMore(s, 0, i);
    assert s[0..i] == s[..i] && s[0..i + 1] == s[..i + 1];
  }

  /** The string starts at address `addr`, any alignment. */
  method RedisPopcount(s: seq<bv8>, addr: nat) returns (bits: nat)
    ensures bits == Ones(s)
  {
    hide Ones, BitsInByte, Gather, LoadAt, Number, Fold;
    bits := 0;
    var i: nat := 0;
    NoOnes();
    assert s[..0] == [];
    while (addr + i) % 4 != 0 && i < |s|
      invariant i <= |s| && bits == Ones(s[..i])
      decreases |s| - i
    {
      hide Ones, BitsInByte;
      TableOne(s, i);
      bits := bits + BitsInByte(s[i]);
      i := i + 1;
    }
    while |s| - i >= 28
      invariant i <= |s| && bits == Ones(s[..i])
    {
      hide Ones, Gather, LoadAt, Number, Fold;
      var p4 := s[i..i + 28];
      var aux1, aux2, aux3, aux4 := Fold(LoadAt(p4, 0)), Fold(LoadAt(p4, 4)), Fold(LoadAt(p4, 8)), Fold(LoadAt(p4, 12));
      var aux5, aux6, aux7 := Fold(LoadAt(p4, 16)), Fold(LoadAt(p4, 20)), Fold(LoadAt(p4, 24));
      BlockOnes(p4);
      Counted(s, i, i + 28);
      bits := bits + Gather(Number(aux1) + Number(aux2) + Number(aux3) + Number(aux4)
                            + Number(aux5) + Number(aux6) + Number(aux7));
      i := i + 28;
    }
    while i < |s|
      invariant i <= |s| && bits == Ones(s[..i])
    {
      hide Ones, BitsInByte;
      TableOne(s, i);
      bits := bits + BitsInByte(s[i]);
      i := i + 1;
    }
    assert s[..|s|] == s;
  }
}
