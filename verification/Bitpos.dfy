/** redisBitpos: the first one or zero bit, skipping whole words where it can. */
module Bitpos {

  // --------------------------------------------------------------------------
  // The specification
  // --------------------------------------------------------------------------

  /** The r-th bit of a byte, from the left. */
  function ByteMask(r: nat): bv8 {
    match r
    case 0 => 0x80 case 1 => 0x40 case 2 => 0x20 case 3 => 0x10
    case 4 => 8 case 5 => 4 case 6 => 2 case _ => 1
  }

  /** The string with zero bytes to its right. */
  function PadAt(s: seq<bv8>, i: nat): bv8 {
    if i < |s| then s[i] else 0
  }

  predicate Hits(b: bv8, r: nat) {
    b & ByteMask(r) != 0
  }

  predicate BitOf(s: seq<bv8>, p: nat) {
    Hits(PadAt(s, p / 8), p % 8)
  }

  /** No bit before position n is the one wanted. */
  ghost predicate NoneBefore(s: seq<bv8>, n: nat, bit: bool) {
    forall p: nat | p < n :: BitOf(s, p) != bit
  }

  // --------------------------------------------------------------------------
  // Skipping
  // --------------------------------------------------------------------------

  lemma SkippedByte(b: bv8, r: nat, bit: bool)
    requires b == if bit then 0 else 0xff
    ensures Hits(b, r) != bit
  {
  }

  lemma SkipByte(s: seq<bv8>, i: nat, bit: bool)
    requires i < |s| && s[i] == (if bit then 0 else 0xff) && NoneBefore(s, 8 * i, bit)
    ensures NoneBefore(s, 8 * (i + 1), bit)
  {
    hide Hits;
    forall p: nat | p < 8 * (i + 1) ensures BitOf(s, p) != bit {
      if p >= 8 * i {
        assert p / 8 == i;
        SkippedByte(s[i], p % 8, bit);
      }
    }
  }

  /** Eight bytes read as a word, the first byte on top. */
  function Join(b0: bv8, b1: bv8, b2: bv8, b3: bv8, b4: bv8, b5: bv8, b6: bv8, b7: bv8): bv64 {
    ((b0 as bv64) << 56) | ((b1 as bv64) << 48) | ((b2 as bv64) << 40) | ((b3 as bv64) << 32)
    | ((b4 as bv64) << 24) | ((b5 as bv64) << 16) | ((b6 as bv64) << 8) | (b7 as bv64)
  }

  lemma AllZeros(b0: bv8, b1: bv8, b2: bv8, b3: bv8, b4: bv8, b5: bv8, b6: bv8, b7: bv8)
    ensures Join(b0, b1, b2, b3, b4, b5, b6, b7) == 0 <==>
            b0 == 0 && b1 == 0 && b2 == 0 && b3 == 0 && b4 == 0 && b5 == 0 && b6 == 0 && b7 == 0
  {
  }

  lemma AllOnes(b0: bv8, b1: bv8, b2: bv8, b3: bv8, b4: bv8, b5: bv8, b6: bv8, b7: bv8)
    ensures Join(b0, b1, b2, b3, b4, b5, b6, b7) == 0xffff_ffff_ffff_ffff <==>
            b0 == 0xff && b1 == 0xff && b2 == 0xff && b3 == 0xff && b4 == 0xff && b5 == 0xff && b6 == 0xff && b7 == 0xff
  {
  }

  /** The word at i, padded. */
  function WordAt(s: seq<bv8>, i: nat): bv64 {
    Join(PadAt(s, i), PadAt(s, i + 1), PadAt(s, i + 2), PadAt(s, i + 3),
         PadAt(s, i + 4), PadAt(s, i + 5), PadAt(s, i + 6), PadAt(s, i + 7))
  }

  /** A word of skipped bytes, whichever way round the machine reads it. */
  lemma SkippedWord(s: seq<bv8>, i: nat, q: nat, bit: bool)
    requires q < 8 && WordAt(s, i) == if bit then 0 else 0xffff_ffff_ffff_ffff
    ensures PadAt(s, i + q) == if bit then 0 else 0xff
  {
    hide Join, PadAt;
    AllZeros(PadAt(s, i), PadAt(s, i + 1), PadAt(s, i + 2), PadAt(s, i + 3),
             PadAt(s, i + 4), PadAt(s, i + 5), PadAt(s, i + 6), PadAt(s, i + 7));
    AllOnes(PadAt(s, i), PadAt(s, i + 1), PadAt(s, i + 2), PadAt(s, i + 3),
            PadAt(s, i + 4), PadAt(s, i + 5), PadAt(s, i + 6), PadAt(s, i + 7));
  }

  lemma SkipWord(s: seq<bv8>, i: nat, bit: bool)
    requires i + 8 <= |s| && NoneBefore(s, 8 * i, bit)
    requires WordAt(s, i) == if bit then 0 else 0xffff_ffff_ffff_ffff
    ensures NoneBefore(s, 8 * (i + 8), bit)
  {
    hide Hits, WordAt;
    forall p: nat | p < 8 * (i + 8) ensures BitOf(s, p) != bit {
      if p >= 8 * i {
        var q := p / 8 - i;
        SkippedWord(s, i, q, bit);
        assert i + q == p / 8;
        SkippedByte(PadAt(s, i + q), p % 8, bit);
      }
    }
  }

  // --------------------------------------------------------------------------
  // Scanning a word
  // --------------------------------------------------------------------------

  function Base(q: nat): bv64 {
    match q
    case 0 => 0x8000_0000_0000_0000 case 1 => 0x80_0000_0000_0000
    case 2 => 0x8000_0000_0000 case 3 => 0x80_0000_0000
    case 4 => 0x8000_0000 case 5 => 0x80_0000
    case 6 => 0x8000 case _ => 0x80
  }

  function Down1(x: bv64): bv64 {
    x >> 1
  }

  function Down2(x: bv64): bv64 {
    x >> 2
  }

  function Down3(x: bv64): bv64 {
    x >> 3
  }

  function Down4(x: bv64): bv64 {
    x >> 4
  }

  function Down5(x: bv64): bv64 {
    x >> 5
  }

  function Down6(x: bv64): bv64 {
    x >> 6
  }

  function Down7(x: bv64): bv64 {
    x >> 7
  }

  function Down(x: bv64, r: nat): bv64 {
    match r
    case 0 => x case 1 => Down1(x) case 2 => Down2(x) case 3 => Down3(x)
    case 4 => Down4(x) case 5 => Down5(x) case 6 => Down6(x) case _ => Down7(x)
  }

  /** A single one, k places from the top. */
  function One(k: nat): bv64 {
    Down(Base(k / 8), k % 8)
  }

  lemma Step1(x: bv64)
    ensures Down1(x) >> 1 == Down2(x)
  {
  }

  lemma Step2(x: bv64)
    ensures Down2(x) >> 1 == Down3(x)
  {
  }

  lemma Step3(x: bv64)
    ensures Down3(x) >> 1 == Down4(x)
  {
  }

  lemma Step4(x: bv64)
    ensures Down4(x) >> 1 == Down5(x)
  {
  }

  lemma Step5(x: bv64)
    ensures Down5(x) >> 1 == Down6(x)
  {
  }

  lemma Step6(x: bv64)
    ensures Down6(x) >> 1 == Down7(x)
  {
  }

  lemma Step0(x: bv64)
    ensures x >> 1 == Down1(x)
  {
  }

  lemma DownMore(x: bv64, r: nat)
    requires r < 7
    ensures Down(x, r) >> 1 == Down(x, r + 1)
  {
    hide Down1, Down2, Down3, Down4, Down5, Down6, Down7;
    match r {
      case 0 => Step0(x);
      case 1 => Step1(x);
      case 2 => Step2(x);
      case 3 => Step3(x);
      case 4 => Step4(x);
      case 5 => Step5(x);
      case _ => Step6(x);
    }
  }

  lemma BaseNext(q: nat)
    requires q < 8
    ensures Down(Base(q), 7) >> 1 == if q == 7 then 0 else Base(q + 1)
  {
  }

  lemma OneIsSet(q: nat, r: nat)
    requires q < 8 && r < 8
    ensures Down(Base(q), r) != 0
  {
  }

  /** One place further down, within a byte or into the next one. */
  lemma OneDown(q: nat, r: nat)
    requires q < 8 && r < 8
    ensures Down(Base(q), r) >> 1 ==
            if r < 7 then Down(Base(q), r + 1) else if q == 7 then 0 else Down(Base(q + 1), 0)
  {
    hide Base, Down;
    if r < 7 {
      DownMore(Base(q), r);
    } else {
      BaseNext(q);
      DownNone(Base(q + 1));
    }
  }

  lemma OneNext(k: nat)
    requires k < 64
    ensures One(k) != 0 && One(k) >> 1 == if k == 63 then 0 else One(k + 1)
  {
    hide Base, Down;
    var q, r := k / 8, k % 8;
    OneIsSet(q, r);
    OneDown(q, r);
    assert k == 8 * q + r;
    assert r < 7 ==> (k + 1) / 8 == q && (k + 1) % 8 == r + 1;
    assert r == 7 ==> (k + 1) / 8 == q + 1 && (k + 1) % 8 == 0;
  }

  lemma DownNone(x: bv64)
    ensures Down(x, 0) == x
  {
  }

  predicate Tests(one: bv64, word: bv64) {
    one & word != 0
  }

  // The bytes of a word, from the top.

  function Byte0(w: bv64): bv8 {
    (w >> 56) as bv8
  }

  function Byte1(w: bv64): bv8 {
    ((w >> 48) & 0xff) as bv8
  }

  function Byte2(w: bv64): bv8 {
    ((w >> 40) & 0xff) as bv8
  }

  function Byte3(w: bv64): bv8 {
    ((w >> 32) & 0xff) as bv8
  }

  function Byte4(w: bv64): bv8 {
    ((w >> 24) & 0xff) as bv8
  }

  function Byte5(w: bv64): bv8 {
    ((w >> 16) & 0xff) as bv8
  }

  function Byte6(w: bv64): bv8 {
    ((w >> 8) & 0xff) as bv8
  }

  function Byte7(w: bv64): bv8 {
    (w & 0xff) as bv8
  }

  function ByteAt(w: bv64, q: nat): bv8 {
    match q
    case 0 => Byte0(w) case 1 => Byte1(w) case 2 => Byte2(w) case 3 => Byte3(w)
    case 4 => Byte4(w) case 5 => Byte5(w) case 6 => Byte6(w) case _ => Byte7(w)
  }

  lemma In0(w: bv64, r: nat)
    requires r < 8
    ensures Tests(Down(Base(0), r), w) == Hits(Byte0(w), r)
  {
    if r < 2 {
    } else if r < 4 {
    } else if r < 6 {
    }
  }

  lemma In1(w: bv64, r: nat)
    requires r < 8
    ensures Tests(Down(Base(1), r), w) == Hits(Byte1(w), r)
  {
  }

  lemma In2(w: bv64, r: nat)
    requires r < 8
    ensures Tests(Down(Base(2), r), w) == Hits(Byte2(w), r)
  {
  }

  lemma In3(w: bv64, r: nat)
    requires r < 8
    ensures Tests(Down(Base(3), r), w) == Hits(Byte3(w), r)
  {
  }

  lemma In4(w: bv64, r: nat)
    requires r < 8
    ensures Tests(Down(Base(4), r), w) == Hits(Byte4(w), r)
  {
  }

  lemma In5(w: bv64, r: nat)
    requires r < 8
    ensures Tests(Down(Base(5), r), w) == Hits(Byte5(w), r)
  {
  }

  lemma In6(w: bv64, r: nat)
    requires r < 8
    ensures Tests(Down(Base(6), r), w) == Hits(Byte6(w), r)
  {
  }

  lemma In7(w: bv64, r: nat)
    requires r < 8
    ensures Tests(Down(Base(7), r), w) == Hits(Byte7(w), r)
  {
  }

  lemma InByte(w: bv64, q: nat, r: nat)
    requires q < 8 && r < 8
    ensures Tests(Down(Base(q), r), w) == Hits(ByteAt(w, q), r)
  {
    hide Tests, Down, Base, Hits, Byte0, Byte1, Byte2, Byte3, Byte4, Byte5, Byte6, Byte7;
    match q {
      case 0 => In0(w, r);
      case 1 => In1(w, r);
      case 2 => In2(w, r);
      case 3 => In3(w, r);
      case 4 => In4(w, r);
      case 5 => In5(w, r);
      case 6 => In6(w, r);
      case _ => In7(w, r);
    }
  }

  lemma JoinedBytes(b0: bv8, b1: bv8, b2: bv8, b3: bv8, b4: bv8, b5: bv8, b6: bv8, b7: bv8)
    ensures var w := Join(b0, b1, b2, b3, b4, b5, b6, b7);
            && Byte0(w) == b0 && Byte1(w) == b1 && Byte2(w) == b2 && Byte3(w) == b3
            && Byte4(w) == b4 && Byte5(w) == b5 && Byte6(w) == b6 && Byte7(w) == b7
  {
  }

  lemma ByteOfWord(s: seq<bv8>, i: nat, q: nat)
    requires q < 8
    ensures ByteAt(WordAt(s, i), q) == PadAt(s, i + q)
  {
    hide Join, PadAt, Byte0, Byte1, Byte2, Byte3, Byte4, Byte5, Byte6, Byte7;
    JoinedBytes(PadAt(s, i), PadAt(s, i + 1), PadAt(s, i + 2), PadAt(s, i + 3),
                PadAt(s, i + 4), PadAt(s, i + 5), PadAt(s, i + 6), PadAt(s, i + 7));
  }

  /** Testing the word with the moving one reads the string from left to right. */
  lemma TestIsBit(s: seq<bv8>, i: nat, k: nat)
    requires k < 64
    ensures Tests(One(k), WordAt(s, i)) == BitOf(s, 8 * i + k)
  {
    hide WordAt, Down, Base, Hits, Tests, PadAt, ByteAt;
    var q, r := k / 8, k % 8;
    InByte(WordAt(s, i), q, r);
    ByteOfWord(s, i, q);
    assert (8 * i + k) / 8 == i + q && (8 * i + k) % 8 == r;
  }

  // --------------------------------------------------------------------------
  // Loading a word byte by byte
  // --------------------------------------------------------------------------

  function Append(word: bv64, b: bv8): bv64 {
    (word << 8) | (b as bv64)
  }

  function Loaded(s: seq<bv8>, i: nat, j: nat): bv64 {
    if j == 0 then 0 else Append(Loaded(s, i, j - 1), PadAt(s, i + j - 1))
  }

  lemma EightAppends(b0: bv8, b1: bv8, b2: bv8, b3: bv8, b4: bv8, b5: bv8, b6: bv8, b7: bv8)
    ensures Append(Append(Append(Append(Append(Append(Append(Append(0, b0), b1), b2), b3), b4), b5), b6), b7) ==
            Join(b0, b1, b2, b3, b4, b5, b6, b7)
  {
  }

  lemma {:induction false} LoadedWord(s: seq<bv8>, i: nat)
    ensures Loaded(s, i, 8) == WordAt(s, i)
  {
    hide Join, Append, PadAt;
    EightAppends(PadAt(s, i), PadAt(s, i + 1), PadAt(s, i + 2), PadAt(s, i + 3),
                 PadAt(s, i + 4), PadAt(s, i + 5), PadAt(s, i + 6), PadAt(s, i + 7));
    assert Loaded(s, i, 1) == Append(0, PadAt(s, i));
    assert Loaded(s, i, 2) == Append(Loaded(s, i, 1), PadAt(s, i + 1));
    assert Loaded(s, i, 3) == Append(Loaded(s, i, 2), PadAt(s, i + 2));
    assert Loaded(s, i, 4) == Append(Loaded(s, i, 3), PadAt(s, i + 3));
    assert Loaded(s, i, 5) == Append(Loaded(s, i, 4), PadAt(s, i + 4));
    assert Loaded(s, i, 6) == Append(Loaded(s, i, 5), PadAt(s, i + 5));
    assert Loaded(s, i, 7) == Append(Loaded(s, i, 6), PadAt(s, i + 6));
  }

  // --------------------------------------------------------------------------
  // The search
  // --------------------------------------------------------------------------

  /** What the position returned means: the least one, or -1 when a one is sought and there is none. */
  ghost predicate IsFirst(s: seq<bv8>, bit: bool, pos: int) {
    if pos < 0 then pos == -1 && bit && forall p: nat :: !BitOf(s, p)
    else BitOf(s, pos) == bit && NoneBefore(s, pos, bit)
  }

  /** Where the byte and word loops stop: everything before is skipped, and the word there settles the search. */
  ghost predicate Stopped(s: seq<bv8>, i: nat, bit: bool) {
    && i <= |s| && NoneBefore(s, 8 * i, bit)
    && (i + 8 > |s| || WordAt(s, i) != if bit then 0 else 0xffff_ffff_ffff_ffff)
  }

  lemma FoundByte(s: seq<bv8>, i: nat, bit: bool)
    requires i < |s| && s[i] != if bit then 0 else 0xff
    ensures WordAt(s, i) != if bit then 0 else 0xffff_ffff_ffff_ffff
  {
    hide Join;
    AllZeros(PadAt(s, i), PadAt(s, i + 1), PadAt(s, i + 2), PadAt(s, i + 3),
             PadAt(s, i + 4), PadAt(s, i + 5), PadAt(s, i + 6), PadAt(s, i + 7));
    AllOnes(PadAt(s, i), PadAt(s, i + 1), PadAt(s, i + 2), PadAt(s, i + 3),
            PadAt(s, i + 4), PadAt(s, i + 5), PadAt(s, i + 6), PadAt(s, i + 7));
  }

  /** The first two loops: bytes up to an aligned address, then words. */
  method Skip(s: seq<bv8>, addr: nat, bit: bool) returns (i: nat)
    ensures Stopped(s, i, bit)
  {
    hide WordAt, BitOf;
    i := 0;
    var skipval: bv8 := if bit then 0 else 0xff;
    while (addr + i) % 8 != 0 && i < |s|
      invariant i <= |s| && NoneBefore(s, 8 * i, bit)
      decreases |s| - i
    {
      hide WordAt, BitOf;
      if s[i] != skipval {
        FoundByte(s, i, bit);
        return;
      }
      SkipByte(s, i, bit);
      i := i + 1;
    }
    var skipword: bv64 := if bit then 0 else 0xffff_ffff_ffff_ffff;
    while |s| - i >= 8
      invariant i <= |s| && NoneBefore(s, 8 * i, bit)
    {
      hide WordAt, BitOf;
      if WordAt(s, i) != skipword {
        return;
      }
      SkipWord(s, i, bit);
      i := i + 8;
    }
  }

  method LoadWord(s: seq<bv8>, i: nat) returns (word: bv64)
    requires i <= |s|
    ensures word == WordAt(s, i)
  {
    hide WordAt, Append;
    word := 0;
    var c, count := i, |s| - i;
    for j := 0 to 8
      invariant word == Loaded(s, i, j) && count == |s| - c
      invariant c == if i + j <= |s| then i + j else |s|
    {
      hide WordAt, Append;
      if count != 0 {
        word := Append(word, s[c]);
        c := c + 1;
        count := count - 1;
      } else {
        word := Append(word, 0);
      }
    }
    LoadedWord(s, i);
  }

  lemma BitInByte(s: seq<bv8>, j: nat, r: nat)
    requires r < 8
    ensures BitOf(s, 8 * j + r) == Hits(PadAt(s, j), r)
  {
    hide Hits, PadAt;
    assert (8 * j + r) / 8 == j && (8 * j + r) % 8 == r;
  }

  lemma NothingInByte(s: seq<bv8>, j: nat, n: nat, bit: bool)
    requires 8 * j + 8 <= n && NoneBefore(s, n, bit)
    ensures PadAt(s, j) == if bit then 0 else 0xff
  {
    hide BitOf, PadAt, Hits;
    BitInByte(s, j, 0);
    BitInByte(s, j, 1);
    BitInByte(s, j, 2);
    BitInByte(s, j, 3);
    BitInByte(s, j, 4);
    BitInByte(s, j, 5);
    BitInByte(s, j, 6);
    BitInByte(s, j, 7);
    UniformByte(PadAt(s, j), bit);
  }

  lemma UniformByte(b: bv8, bit: bool)
    requires Hits(b, 0) != bit && Hits(b, 1) != bit && Hits(b, 2) != bit && Hits(b, 3) != bit
    requires Hits(b, 4) != bit && Hits(b, 5) != bit && Hits(b, 6) != bit && Hits(b, 7) != bit
    ensures b == if bit then 0 else 0xff
  {
  }

  /** A word without the bit wanted would have been skipped. */
  lemma NothingInWord(s: seq<bv8>, i: nat, bit: bool)
    requires NoneBefore(s, 8 * i + 64, bit)
    ensures WordAt(s, i) == if bit then 0 else 0xffff_ffff_ffff_ffff
    ensures !bit ==> PadAt(s, i + 7) != 0
  {
    hide Join, PadAt, NoneBefore;
    var n := 8 * i + 64;
    NothingInByte(s, i, n, bit);
    NothingInByte(s, i + 1, n, bit);
    NothingInByte(s, i + 2, n, bit);
    NothingInByte(s, i + 3, n, bit);
    NothingInByte(s, i + 4, n, bit);
    NothingInByte(s, i + 5, n, bit);
    NothingInByte(s, i + 6, n, bit);
    NothingInByte(s, i + 7, n, bit);
    AllZeros(PadAt(s, i), PadAt(s, i + 1), PadAt(s, i + 2), PadAt(s, i + 3),
             PadAt(s, i + 4), PadAt(s, i + 5), PadAt(s, i + 6), PadAt(s, i + 7));
    AllOnes(PadAt(s, i), PadAt(s, i + 1), PadAt(s, i + 2), PadAt(s, i + 3),
            PadAt(s, i + 4), PadAt(s, i + 5), PadAt(s, i + 6), PadAt(s, i + 7));
  }

  /** The scan cannot run off the word: the panic after it is unreachable. */
  lemma ScanFinds(s: seq<bv8>, i: nat, bit: bool)
    requires Stopped(s, i, bit) && !(bit && WordAt(s, i) == 0)
    ensures !NoneBefore(s, 8 * i + 64, bit)
  {
    hide WordAt, NoneBefore;
    if NoneBefore(s, 8 * i + 64, bit) {
      NothingInWord(s, i, bit);
    }
  }

  /** A zero word where the skipping stopped means no one in the rest of the string. */
  lemma NoOneLeft(s: seq<bv8>, i: nat)
    requires Stopped(s, i, true) && WordAt(s, i) == 0
    ensures IsFirst(s, true, -1)
  {
    hide WordAt, Hits;
    forall p: nat ensures !BitOf(s, p) {
      if p >= 8 * i {
        if p / 8 < |s| {
          SkippedWord(s, i, p / 8 - i, true);
        }
        SkippedByte(PadAt(s, p / 8), p % 8, true);
      }
    }
  }

  lemma NextBit(s: seq<bv8>, n: nat, bit: bool)
    requires NoneBefore(s, n, bit) && BitOf(s, n) != bit
    ensures NoneBefore(s, n + 1, bit)
  {
    hide BitOf;
  }

  /** The string starts at address `addr`, any alignment. */
  method RedisBitpos(s: seq<bv8>, addr: nat, bit: bool) returns (pos: int)
    ensures IsFirst(s, bit, pos)
  {
    hide BitOf, WordAt, One, Tests, NoneBefore;
    var i := Skip(s, addr, bit);
    var word := LoadWord(s, i);
    if bit && word == 0 {
      NoOneLeft(s, i);
      return -1;
    }
    pos := 8 * i;
    var one: bv64 := 0x8000_0000_0000_0000;
    FirstOne();
    ghost var k := 0;
    while one != 0
      invariant 0 <= k <= 64 && pos == 8 * i + k && NoneBefore(s, pos, bit)
      invariant one == if k < 64 then One(k) else 0
      decreases 64 - k
    {
      hide BitOf, WordAt, One, Tests, NoneBefore;
      TestIsBit(s, i, k);
      if Tests(one, word) == bit {
        return;
      }
      OneNext(k);
      NextBit(s, pos, bit);
      pos := pos + 1;
      one := one >> 1;
      k := k + 1;
    }
    hide BitOf, WordAt, One, Tests, NoneBefore;
    OneStays(k);
    ScanFinds(s, i, bit);
    assert false;
  }

  lemma FirstOne()
    ensures One(0) == 0x8000_0000_0000_0000
  {
  }

  lemma OneStays(k: nat)
    ensures k < 64 ==> One(k) != 0
  {
    if k < 64 {
      OneNext(k);
    }
  }
}
