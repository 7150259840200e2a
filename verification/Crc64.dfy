/** crc64.c: the checksum by table is the checksum by single bits, and it tells bursts apart. */
module Crc64 {
  import opened CrcTable

  type Byte = bv8

  // --------------------------------------------------------------------------
  // The operations on words, by name
  // --------------------------------------------------------------------------

  function Xor(x: bv64, y: bv64): bv64 {
    x ^ y
  }

  function Low(x: bv64): bv64 {
    x & 0xff
  }

  function High(x: bv64): bv64 {
    x >> 8
  }

  function Up(y: bv64): bv64 {
    y << 8
  }

  function Wide(b: Byte): bv64 {
    b as bv64
  }

  function Twice(z: bv64): bv64 {
    z << 1
  }

  predicate Doubles(z: bv64) {
    z < 0x8000_0000_0000_0000
  }

  /** The number fits in n bytes. */
  predicate Fits(w: bv64, n: nat) {
    match n
    case 0 => w == 0
    case 1 => w < 0x100
    case 2 => w < 0x1_0000
    case 3 => w < 0x100_0000
    case 4 => w < 0x1_0000_0000
    case 5 => w < 0x100_0000_0000
    case 6 => w < 0x1_0000_0000_0000
    case 7 => w < 0x100_0000_0000_0000
    case _ => true
  }

  lemma Unxor(x: bv64, a: bv64, b: bv64)
    requires Xor(x, a) == Xor(x, b)
    ensures a == b
  {
  }

  lemma XorFlips(x: bv64, y: bv64)
    ensures Xor(x, y) == Xor(y, x) && Xor(x, 0) == x && Xor(x, x) == 0
  {
  }

  lemma XorGroups(x: bv64, y: bv64, z: bv64)
    ensures Xor(x, Xor(y, z)) == Xor(Xor(x, y), z)
  {
  }

  /** A word is its low byte and the rest moved up. */
  lemma Parts(x: bv64)
    ensures Fits(Low(x), 1) && Fits(High(x), 7) && Xor(Low(x), Up(High(x))) == x
  {
  }

  lemma Mixed(crc: bv64, b: Byte)
    ensures Xor(Low(crc), Wide(b)) == Low(Xor(crc, Wide(b))) && High(crc) == High(Xor(crc, Wide(b)))
  {
  }

  lemma Widens(b: Byte, w: bv64, n: nat)
    requires n <= 7 && Fits(w, n)
    ensures Fits(Xor(Wide(b), Up(w)), n + 1) && Fits(w, 7)
  {
    if n == 0 {
    } else if n == 1 {
    } else if n == 2 {
    } else if n == 3 {
    } else if n == 4 {
    } else if n == 5 {
    } else if n == 6 {
    } else {
    }
  }

  lemma Unpack(a: Byte, v: bv64, b: Byte, w: bv64)
    requires Fits(v, 7) && Fits(w, 7) && Xor(Wide(a), Up(v)) == Xor(Wide(b), Up(w))
    ensures a == b && v == w
  {
  }

  // --------------------------------------------------------------------------
  // One bit, one byte
  // --------------------------------------------------------------------------

  /** The generator polynomial with its bits reflected. */
  const POLYNOMIAL: bv64 := 0x95ac_9329_ac4b_c9b5

  function Half(x: bv64): bv64 {
    if x & 1 == 1 then (x >> 1) ^ POLYNOMIAL else x >> 1
  }

  function Octet(x: bv64): bv64 {
    Half(Half(Half(Half(Half(Half(Half(Half(x))))))))
  }

  lemma HalfInjective(x: bv64, y: bv64)
    requires Half(x) == Half(y)
    ensures x == y
  {
  }

  lemma OctetInjective(x: bv64, y: bv64)
    requires Octet(x) == Octet(y)
    ensures x == y
  {
    hide Half;
    HalfInjective(Half(Half(Half(Half(Half(Half(Half(x))))))), Half(Half(Half(Half(Half(Half(Half(y))))))));
    HalfInjective(Half(Half(Half(Half(Half(Half(x)))))), Half(Half(Half(Half(Half(Half(y)))))));
    HalfInjective(Half(Half(Half(Half(Half(x))))), Half(Half(Half(Half(Half(y))))));
    HalfInjective(Half(Half(Half(Half(x)))), Half(Half(Half(Half(y)))));
    HalfInjective(Half(Half(Half(x))), Half(Half(Half(y))));
    HalfInjective(Half(Half(x)), Half(Half(y)));
    HalfInjective(Half(x), Half(y));
    HalfInjective(x, y);
  }

  function Odd(x: bv64): bool {
    x & 1 == 1
  }

  function Down(x: bv64): bv64 {
    x >> 1
  }

  lemma HalfIs(x: bv64)
    ensures Half(x) == if Odd(x) then Xor(Down(x), POLYNOMIAL) else Down(x)
  {
  }

  lemma ShiftedXor(x: bv64, z: bv64)
    requires Doubles(z)
    ensures Odd(Xor(x, Twice(z))) == Odd(x) && Down(Xor(x, Twice(z))) == Xor(Down(x), z)
  {
  }

  lemma HalfSplit(x: bv64, z: bv64)
    requires Doubles(z)
    ensures Half(Xor(x, Twice(z))) == Xor(Half(x), z)
  {
    hide Half, Xor, Twice, Doubles, Odd, Down;
    ShiftedXor(x, z);
    HalfIs(x);
    HalfIs(Xor(x, Twice(z)));
    XorFlips(z, POLYNOMIAL);
    XorGroups(Down(x), z, POLYNOMIAL);
    XorGroups(Down(x), POLYNOMIAL, z);
  }

  lemma OctetMoves(x: bv64, y7: bv64, y6: bv64, y5: bv64, y4: bv64, y3: bv64, y2: bv64, y1: bv64, y: bv64)
    requires y7 == Twice(y6) && y6 == Twice(y5) && y5 == Twice(y4) && y4 == Twice(y3)
    requires y3 == Twice(y2) && y2 == Twice(y1) && y1 == Twice(y)
    requires Doubles(y7) && Doubles(y6) && Doubles(y5) && Doubles(y4)
    requires Doubles(y3) && Doubles(y2) && Doubles(y1) && Doubles(y)
    ensures Octet(Xor(x, Twice(y7))) == Xor(Octet(x), y)
  {
    hide Half, Xor, Twice, Doubles;
    var x1 := Half(x);
    var x2 := Half(x1);
    var x3 := Half(x2);
    var x4 := Half(x3);
    var x5 := Half(x4);
    var x6 := Half(x5);
    var x7 := Half(x6);
    HalfSplit(x, y7);
    HalfSplit(x1, y6);
    HalfSplit(x2, y5);
    HalfSplit(x3, y4);
    HalfSplit(x4, y3);
    HalfSplit(x5, y2);
    HalfSplit(x6, y1);
    HalfSplit(x7, y);
  }

  lemma Doublings(y: bv64)
    requires y < 0x100_0000_0000_0000
    ensures Twice(y << 7) == Up(y) && Twice(y << 6) == y << 7 && Twice(y << 5) == y << 6 && Twice(y << 4) == y << 5
    ensures Twice(y << 3) == y << 4 && Twice(y << 2) == y << 3 && Twice(y << 1) == y << 2 && Twice(y) == y << 1
    ensures Doubles(y << 7) && Doubles(y << 6) && Doubles(y << 5) && Doubles(y << 4)
    ensures Doubles(y << 3) && Doubles(y << 2) && Doubles(y << 1) && Doubles(y)
  {
  }

  /** What stands above the low byte only moves down. */
  lemma OctetSplit(x: bv64, y: bv64)
    requires Fits(y, 7)
    ensures Octet(Xor(x, Up(y))) == Xor(Octet(x), y)
  {
    hide Octet, Twice, Doubles, Xor, Up;
    Doublings(y);
    OctetMoves(x, y << 7, y << 6, y << 5, y << 4, y << 3, y << 2, y << 1, y);
  }

  lemma HalfXor(x: bv64, y: bv64)
    ensures Half(Xor(x, y)) == Xor(Half(x), Half(y))
  {
    hide Half, Xor, Odd, Down;
    XorDown(x, y);
    HalfIs(x);
    HalfIs(y);
    HalfIs(Xor(x, y));
    XorGroups(Down(x), Down(y), POLYNOMIAL);
    XorGroups(Down(x), POLYNOMIAL, Down(y));
    XorFlips(Down(y), POLYNOMIAL);
    XorCancels(Down(x), Down(y), POLYNOMIAL);
  }

  lemma XorDown(x: bv64, y: bv64)
    ensures Odd(Xor(x, y)) == (Odd(x) != Odd(y)) && Down(Xor(x, y)) == Xor(Down(x), Down(y))
  {
  }

  lemma XorCancels(x: bv64, y: bv64, z: bv64)
    ensures Xor(Xor(x, z), Xor(y, z)) == Xor(x, y)
  {
    hide Xor;
    XorFlips(y, z);
    XorGroups(Xor(x, z), z, y);
    XorGroups(x, z, z);
    XorFlips(z, z);
    XorFlips(x, 0);
  }

  /** Eight single-bit steps are linear. */
  lemma OctetXor(x: bv64, y: bv64)
    ensures Octet(Xor(x, y)) == Xor(Octet(x), Octet(y))
  {
    hide Half, Xor;
    var x1, y1 := Half(x), Half(y);
    var x2, y2 := Half(x1), Half(y1);
    var x3, y3 := Half(x2), Half(y2);
    var x4, y4 := Half(x3), Half(y3);
    var x5, y5 := Half(x4), Half(y4);
    var x6, y6 := Half(x5), Half(y5);
    var x7, y7 := Half(x6), Half(y6);
    HalfXor(x, y);
    HalfXor(x1, y1);
    HalfXor(x2, y2);
    HalfXor(x3, y3);
    HalfXor(x4, y4);
    HalfXor(x5, y5);
    HalfXor(x6, y6);
    HalfXor(x7, y7);
  }

  lemma FirstRow(n: bv64)
    requires n < 16
    ensures Row0(n) == Octet(n)
  {
    if n == 0 {
    } else if n == 1 {
    } else if n == 2 {
    } else if n == 3 {
    } else if n == 4 {
    } else if n == 5 {
    } else if n == 6 {
    } else if n == 7 {
    } else if n == 8 {
    } else if n == 9 {
    } else if n == 10 {
    } else if n == 11 {
    } else if n == 12 {
    } else if n == 13 {
    } else if n == 14 {
    }
  }

  lemma RowsTo3(n: bv64)
    requires n < 16
    ensures Row1(n) == Xor(Row1(0), Row0(n))
    ensures Row2(n) == Xor(Row2(0), Row0(n))
    ensures Row3(n) == Xor(Row3(0), Row0(n))
  {
  }

  lemma RowsTo7(n: bv64)
    requires n < 16
    ensures Row4(n) == Xor(Row4(0), Row0(n))
    ensures Row5(n) == Xor(Row5(0), Row0(n))
    ensures Row6(n) == Xor(Row6(0), Row0(n))
    ensures Row7(n) == Xor(Row7(0), Row0(n))
  {
  }

  lemma RowsTo11(n: bv64)
    requires n < 16
    ensures Row8(n) == Xor(Row8(0), Row0(n))
    ensures Row9(n) == Xor(Row9(0), Row0(n))
    ensures Row10(n) == Xor(Row10(0), Row0(n))
    ensures Row11(n) == Xor(Row11(0), Row0(n))
  {
  }

  lemma RowsTo15(n: bv64)
    requires n < 16
    ensures Row12(n) == Xor(Row12(0), Row0(n))
    ensures Row13(n) == Xor(Row13(0), Row0(n))
    ensures Row14(n) == Xor(Row14(0), Row0(n))
    ensures Row15(n) == Xor(Row15(0), Row0(n))
  {
  }

  /** Where a row of sixteen entries starts. */
  function Start(row: bv64): bv64 {
    row << 4
  }

  lemma RowStarts0()
    ensures Octet(Start(0)) == 0
    ensures Octet(Start(1)) == Row1(0)
    ensures Octet(Start(2)) == Row2(0)
    ensures Octet(Start(3)) == Row3(0)
  {
  }

  lemma RowStarts1()
    ensures Octet(Start(4)) == Row4(0)
    ensures Octet(Start(5)) == Row5(0)
    ensures Octet(Start(6)) == Row6(0)
    ensures Octet(Start(7)) == Row7(0)
  {
  }

  lemma RowStarts2()
    ensures Octet(Start(8)) == Row8(0)
    ensures Octet(Start(9)) == Row9(0)
    ensures Octet(Start(10)) == Row10(0)
    ensures Octet(Start(11)) == Row11(0)
  {
  }

  lemma RowStarts3()
    ensures Octet(Start(12)) == Row12(0)
    ensures Octet(Start(13)) == Row13(0)
    ensures Octet(Start(14)) == Row14(0)
    ensures Octet(Start(15)) == Row15(0)
  {
  }

  lemma Nibbles(i: bv64)
    requires i < 256
    ensures i >> 4 < 16 && i & 15 < 16 && Xor(Start(i >> 4), i & 15) == i
  {
  }

  lemma OctetZero()
    ensures Octet(0) == 0
  {
  }

  lemma RowsTo3Are(row: bv64, n: bv64)
    requires 0 <= row < 4 && n < 16
    ensures Row(row, n) == Xor(Octet(Start(row)), Octet(n))
  {
    hide Octet, Xor, Start, Row0, Row1, Row2, Row3, Row4, Row5, Row6, Row7,
         Row8, Row9, Row10, Row11, Row12, Row13, Row14, Row15;
    FirstRow(n);
    RowStarts0();
    RowsTo3(n);
    XorFlips(Row0(n), 0);
    if row == 0 {
    } else if row == 1 {
    } else if row == 2 {
    } else {
    }
  }

  lemma RowsTo7Are(row: bv64, n: bv64)
    requires 4 <= row < 8 && n < 16
    ensures Row(row, n) == Xor(Octet(Start(row)), Octet(n))
  {
    hide Octet, Xor, Start, Row0, Row1, Row2, Row3, Row4, Row5, Row6, Row7,
         Row8, Row9, Row10, Row11, Row12, Row13, Row14, Row15;
    FirstRow(n);
    RowStarts1();
    RowsTo7(n);
    if row == 4 {
    } else if row == 5 {
    } else if row == 6 {
    } else {
    }
  }

  lemma RowsTo11Are(row: bv64, n: bv64)
    requires 8 <= row < 12 && n < 16
    ensures Row(row, n) == Xor(Octet(Start(row)), Octet(n))
  {
    hide Octet, Xor, Start, Row0, Row1, Row2, Row3, Row4, Row5, Row6, Row7,
         Row8, Row9, Row10, Row11, Row12, Row13, Row14, Row15;
    FirstRow(n);
    RowStarts2();
    RowsTo11(n);
    if row == 8 {
    } else if row == 9 {
    } else if row == 10 {
    } else {
    }
  }

  lemma RowsTo15Are(row: bv64, n: bv64)
    requires 12 <= row < 16 && n < 16
    ensures Row(row, n) == Xor(Octet(Start(row)), Octet(n))
  {
    hide Octet, Xor, Start, Row0, Row1, Row2, Row3, Row4, Row5, Row6, Row7,
         Row8, Row9, Row10, Row11, Row12, Row13, Row14, Row15;
    FirstRow(n);
    RowStarts3();
    RowsTo15(n);
    if row == 12 {
    } else if row == 13 {
    } else if row == 14 {
    } else {
    }
  }

  lemma RowIs(row: bv64, n: bv64)
    requires row < 16 && n < 16
    ensures Row(row, n) == Xor(Octet(Start(row)), Octet(n))
  {
    hide Row, Octet, Xor, Start;
    if row < 4 {
      RowsTo3Are(row, n);
    } else if row < 8 {
      RowsTo7Are(row, n);
    } else if row < 12 {
      RowsTo11Are(row, n);
    } else {
      RowsTo15Are(row, n);
    }
  }

  /** Each table entry is its index put through eight single-bit steps. */
  lemma TableIsOctet(i: bv64)
    requires i < 256
    ensures Table(i) == Octet(i)
  {
    hide Octet, Xor, Row, Start;
    var row, n := i >> 4, i & 15;
    Nibbles(i);
    RowIs(row, n);
    OctetXor(Start(row), n);
  }

  /** One turn of the loop of crc64. */
  function Step(crc: bv64, b: Byte): bv64 {
    Xor(Table(Xor(Low(crc), Wide(b))), High(crc))
  }

  lemma TableFits(x: bv64)
    requires Fits(x, 1)
    ensures Table(x) == Octet(x)
  {
    hide Table, Octet;
    TableIsOctet(x);
  }

  /** The table step takes eight bits at once. */
  lemma StepIsOctet(crc: bv64, b: Byte)
    ensures Step(crc, b) == Octet(Xor(crc, Wide(b)))
  {
    hide Table, Octet, Xor, Low, High, Up, Wide, Fits;
    var x := Xor(crc, Wide(b));
    Mixed(crc, b);
    Parts(x);
    TableFits(Low(x));
    OctetSplit(Low(x), High(x));
  }

  // --------------------------------------------------------------------------
  // A string of bytes
  // --------------------------------------------------------------------------

  function Crc(crc: bv64, s: seq<Byte>): bv64
    decreases |s|
  {
    if s == [] then crc else Crc(Step(crc, s[0]), s[1..])
  }

  /** The same polynomial division, a bit at a time. */
  function CrcByBits(crc: bv64, s: seq<Byte>): bv64
    decreases |s|
  {
    if s == [] then crc else CrcByBits(Octet(Xor(crc, Wide(s[0]))), s[1..])
  }

  /** The table-driven checksum is the bit-by-bit one. */
  lemma {:induction false} TableIsBits(crc: bv64, s: seq<Byte>)
    ensures Crc(crc, s) == CrcByBits(crc, s)
    decreases |s|
  {
    hide Step, Octet, Xor, Wide;
    if s == [] {
    } else {
      StepIsOctet(crc, s[0]);
      TableIsBits(Step(crc, s[0]), s[1..]);
    }
  }

  lemma {:induction false} CrcConcat(crc: bv64, a: seq<Byte>, b: seq<Byte>)
    ensures Crc(crc, a + b) == Crc(Crc(crc, a), b)
    decreases |a|
  {
    hide Step;
    if a == [] {
      assert a + b == b;
    } else {
      assert (a + b)[1..] == a[1..] + b;
      CrcConcat(Step(crc, a[0]), a[1..], b);
    }
  }

  method Crc64(crc0: bv64, s: seq<Byte>) returns (crc: bv64)
    ensures crc == Crc(crc0, s)
  {
    hide Step;
    crc := crc0;
    assert s[0..] == s;
    for j := 0 to |s|
      invariant Crc(crc, s[j..]) == Crc(crc0, s)
    {
      hide Step;
      assert s[j..][1..] == s[j + 1..];
      crc := Step(crc, s[j]);
    }
  }

  lemma StepInjective(x: bv64, y: bv64, b: Byte)
    requires Step(x, b) == Step(y, b)
    ensures x == y
  {
    hide Step, Octet, Xor, Wide;
    StepIsOctet(x, b);
    StepIsOctet(y, b);
    OctetInjective(Xor(x, Wide(b)), Xor(y, Wide(b)));
    XorFlips(x, Wide(b));
    XorFlips(y, Wide(b));
    Unxor(Wide(b), x, y);
  }

  /** The same bytes keep different states different. */
  lemma {:induction false} CrcInjective(x: bv64, y: bv64, s: seq<Byte>)
    requires Crc(x, s) == Crc(y, s)
    ensures x == y
    decreases |s|
  {
    hide Step;
    if s == [] {
    } else {
      CrcInjective(Step(x, s[0]), Step(y, s[0]), s[1..]);
      StepInjective(x, y, s[0]);
    }
  }

  // --------------------------------------------------------------------------
  // Eight bytes fill the state
  // --------------------------------------------------------------------------

  /** The bytes as a little-endian number. */
  function Word(s: seq<Byte>): bv64 {
    if s == [] then 0 else Xor(Wide(s[0]), Up(Word(s[1..])))
  }

  lemma NoWord()
    ensures Fits(Word([]), 0)
  {
  }

  lemma {:induction false} WordFits(s: seq<Byte>)
    requires |s| <= 7
    ensures Fits(Word(s), |s|) && Fits(Word(s), 7)
    decreases |s|
  {
    hide Fits, Xor, Up, Wide;
    if s == [] {
      NoWord();
      Widens(0, Word([]), 0);
    } else {
      WordFits(s[1..]);
      Widens(s[0], Word(s[1..]), |s| - 1);
      Widens(0, Word(s), |s|);
    }
  }

  function Octets(x: bv64, n: nat): bv64
    decreases n
  {
    if n == 0 then x else Octets(Octet(x), n - 1)
  }

  /** Up to eight bytes enter the state side by side before anything mixes them. */
  lemma {:induction false} BytesFold(crc: bv64, s: seq<Byte>)
    requires |s| <= 8
    ensures Crc(crc, s) == Octets(Xor(crc, Word(s)), |s|)
    decreases |s|
  {
    hide Step, Octet, Fits, Xor, Up, Wide;
    if s == [] {
      XorFlips(crc, 0);
    } else {
      var b, w := Wide(s[0]), Word(s[1..]);
      WordFits(s[1..]);
      StepIsOctet(crc, s[0]);
      BytesFold(Step(crc, s[0]), s[1..]);
      XorGroups(crc, b, Up(w));
      OctetSplit(Xor(crc, b), w);
    }
  }

  lemma {:induction false} OctetsInjective(x: bv64, y: bv64, n: nat)
    requires Octets(x, n) == Octets(y, n)
    ensures x == y
    decreases n
  {
    hide Octet;
    if n == 0 {
    } else {
      OctetsInjective(Octet(x), Octet(y), n - 1);
      OctetInjective(x, y);
    }
  }

  lemma {:induction false} WordInjective(s: seq<Byte>, t: seq<Byte>)
    requires |s| == |t| <= 8 && Word(s) == Word(t)
    ensures s == t
    decreases |s|
  {
    hide Fits, Xor, Up, Wide;
    if s == [] {
    } else {
      WordFits(s[1..]);
      WordFits(t[1..]);
      Unpack(s[0], Word(s[1..]), t[0], Word(t[1..]));
      WordInjective(s[1..], t[1..]);
      assert s == [s[0]] + s[1..] && t == [t[0]] + t[1..];
    }
  }

  /** Two strings of one length that differ, and only inside at most eight consecutive bytes. */
  ghost predicate Burst(s: seq<Byte>, t: seq<Byte>, at: nat, n: nat) {
    n <= 8 && at + n <= |s| == |t| && s != t && s[..at] == t[..at] && s[at + n..] == t[at + n..]
  }

  /** Different words fold to different checksums. */
  lemma {:induction false} WordDetected(crc: bv64, a: seq<Byte>, b: seq<Byte>)
    requires |a| == |b| <= 8
    ensures Crc(crc, a) == Crc(crc, b) ==> a == b
  {
    hide Crc, Word, Octets, Xor;
    BytesFold(crc, a);
    BytesFold(crc, b);
    if Crc(crc, a) == Crc(crc, b) {
      OctetsInjective(Xor(crc, Word(a)), Xor(crc, Word(b)), |a|);
      Unxor(crc, Word(a), Word(b));
      WordInjective(a, b);
    }
  }

  /** A burst always changes the checksum. */
  lemma {:induction false} BurstDetected(crc: bv64, s: seq<Byte>, t: seq<Byte>, at: nat, n: nat)
    requires Burst(s, t, at, n)
    ensures Crc(crc, s) != Crc(crc, t)
  {
    hide Crc;
    var start, a, b, end := s[..at], s[at..at + n], t[at..at + n], s[at + n..];
    assert s == start + (a + end) && t == start + (b + end);
    CrcConcat(crc, start, a + end);
    CrcConcat(crc, start, b + end);
    var x := Crc(crc, start);
    CrcConcat(x, a, end);
    CrcConcat(x, b, end);
    if Crc(crc, s) == Crc(crc, t) {
      CrcInjective(Crc(x, a), Crc(x, b), end);
      WordDetected(x, a, b);
    }
  }
}
