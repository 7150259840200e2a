/** The computation of BITOP: four words at a time while every source has them, then byte by byte. */
module Bitop {
  import opened Bitpos

  datatype Op = And | Or | Xor | Not

  /** A key given to BITOP. */
  datatype Source = Missing | Text(bytes: seq<bv8>) | WrongType

  datatype Outcome =
    | BadArity
    | TypeError
    | Deleted
    | Stored(bytes: seq<bv8>)

  // --------------------------------------------------------------------------
  // The specification
  // --------------------------------------------------------------------------

  /** A missing key counts as the empty string. */
  function BytesOf(x: Source): seq<bv8> {
    if x.Text? then x.bytes else []
  }

  function And8(a: bv8, b: bv8): bv8 {
    a & b
  }

  function Or8(a: bv8, b: bv8): bv8 {
    a | b
  }

  function Xor8(a: bv8, b: bv8): bv8 {
    a ^ b
  }

  function Combine(op: Op, a: bv8, b: bv8): bv8 {
    match op
    case And => And8(a, b)
    case Or => Or8(a, b)
    case Xor => Xor8(a, b)
    case Not => a
  }

  function First(op: Op, a: bv8): bv8 {
    if op.Not? then !a else a
  }

  /** Byte j of the first n sources combined, each zero-padded on the right. */
  function Folded(op: Op, sources: seq<Source>, n: nat, j: nat): bv8
    requires 1 <= n <= |sources|
  {
    if n == 1 then First(op, PadAt(BytesOf(sources[0]), j))
    else Combine(op, Folded(op, sources, n - 1, j), PadAt(BytesOf(sources[n - 1]), j))
  }

  function Longest(sources: seq<Source>): nat {
    if sources == [] then 0
    else
      var m := Longest(sources[..|sources| - 1]);
      var l := |BytesOf(sources[|sources| - 1])|;
      if l > m then l else m
  }

  /** Every byte of the result is the combination of that byte of every source. */
  ghost predicate IsCombined(op: Op, sources: seq<Source>, r: seq<bv8>) {
    |sources| >= 1 && |r| == Longest(sources) && forall j | 0 <= j < |r| :: r[j] == Folded(op, sources, |sources|, j)
  }

  // --------------------------------------------------------------------------
  // The same, bit by bit
  // --------------------------------------------------------------------------

  /** How many of the first n sources have bit p, none past their end. */
  function Having(sources: seq<Source>, n: nat, p: nat): (c: nat)
    requires n <= |sources|
    ensures c <= n
  {
    if n == 0 then 0 else Having(sources, n - 1, p) + if BitOf(BytesOf(sources[n - 1]), p) then 1 else 0
  }

  /** Whether the result has a bit that c of n sources have. */
  predicate Decides(op: Op, c: nat, n: nat) {
    match op
    case And => c == n
    case Or => c > 0
    case Xor => c % 2 == 1
    case Not => c == 0
  }

  ghost predicate BitByBit(op: Op, sources: seq<Source>, r: seq<bv8>) {
    forall p: nat | p < 8 * |r| :: BitOf(r, p) <==> Decides(op, Having(sources, |sources|, p), |sources|)
  }

  lemma CombinedHits(a: bv8, b: bv8, r: nat)
    ensures Hits(And8(a, b), r) <==> Hits(a, r) && Hits(b, r)
    ensures Hits(Or8(a, b), r) <==> Hits(a, r) || Hits(b, r)
    ensures Hits(Xor8(a, b), r) <==> Hits(a, r) != Hits(b, r)
    ensures Hits(!a, r) <==> !Hits(a, r)
  {
    hide ByteMask, OneBit;
    MaskIsOneBit(r);
    MaskedAnd(a, b, ByteMask(r));
    MaskedOr(a, b, ByteMask(r));
    MaskedXor(a, b, ByteMask(r));
    MaskedNot(a, ByteMask(r));
  }

  predicate OneBit(m: bv8) {
    m != 0 && m & (m - 1) == 0
  }

  lemma MaskIsOneBit(r: nat)
    ensures OneBit(ByteMask(r))
  {
  }

  lemma MaskedAnd(a: bv8, b: bv8, m: bv8)
    requires OneBit(m)
    ensures And8(a, b) & m != 0 <==> a & m != 0 && b & m != 0
  {
  }

  lemma MaskedOr(a: bv8, b: bv8, m: bv8)
    ensures Or8(a, b) & m != 0 <==> a & m != 0 || b & m != 0
  {
  }

  lemma MaskedXor(a: bv8, b: bv8, m: bv8)
    requires OneBit(m)
    ensures Xor8(a, b) & m != 0 <==> (a & m != 0) != (b & m != 0)
  {
  }

  lemma MaskedNot(a: bv8, m: bv8)
    requires OneBit(m)
    ensures !a & m != 0 <==> a & m == 0
  {
  }

  lemma {:induction false} FoldedHits(op: Op, sources: seq<Source>, n: nat, p: nat)
    requires 1 <= n <= |sources| && (op.Not? ==> n == 1)
    ensures Hits(Folded(op, sources, n, p / 8), p % 8) <==> Decides(op, Having(sources, n, p), n)
    decreases n
  {
    hide Hits, And8, Or8, Xor8, PadAt;
    var b := PadAt(BytesOf(sources[n - 1]), p / 8);
    if n == 1 {
      assert Having(sources, 0, p) == 0;
      CombinedHits(b, b, p % 8);
    } else {
      FoldedHits(op, sources, n - 1, p);
      CombinedHits(Folded(op, sources, n - 1, p / 8), b, p % 8);
    }
  }

  /** BITOP acts on the bits of the zero-padded sources: all, some, an odd number of them, or not the one. */
  lemma CombinedIsBitByBit(op: Op, sources: seq<Source>, r: seq<bv8>)
    requires IsCombined(op, sources, r) && (op.Not? ==> |sources| == 1)
    ensures BitByBit(op, sources, r)
  {
    hide Hits, Folded, Having, Decides;
    forall p: nat | p < 8 * |r| ensures BitOf(r, p) <==> Decides(op, Having(sources, |sources|, p), |sources|) {
      FoldedHits(op, sources, |sources|, p);
    }
  }

  /** The result is as long as the longest source. */
  lemma {:induction false} LongestIs(sources: seq<Source>)
    ensures forall x | x in sources :: |BytesOf(x)| <= Longest(sources)
    ensures Longest(sources) == 0 || exists x | x in sources :: |BytesOf(x)| == Longest(sources)
    decreases |sources|
  {
    if sources != [] {
      var early, last := sources[..|sources| - 1], sources[|sources| - 1];
      LongestIs(early);
      assert sources == early + [last];
      if Longest(sources) == Longest(early) && Longest(early) != 0 {
        var x :| x in early && |BytesOf(x)| == Longest(early);
        assert x in sources;
      } else {
        assert last in sources;
      }
    }
  }

  // --------------------------------------------------------------------------
  // Words
  // --------------------------------------------------------------------------

  function And64(v: bv64, w: bv64): bv64 {
    v & w
  }

  function Or64(v: bv64, w: bv64): bv64 {
    v | w
  }

  function Xor64(v: bv64, w: bv64): bv64 {
    v ^ w
  }

  function CombineWords(op: Op, v: bv64, w: bv64): bv64 {
    match op
    case And => And64(v, w)
    case Or => Or64(v, w)
    case Xor => Xor64(v, w)
    case Not => v
  }

  lemma AndBytes(v: bv64, w: bv64)
    ensures Byte0(And64(v, w)) == And8(Byte0(v), Byte0(w))
    ensures Byte1(And64(v, w)) == And8(Byte1(v), Byte1(w))
    ensures Byte2(And64(v, w)) == And8(Byte2(v), Byte2(w))
    ensures Byte3(And64(v, w)) == And8(Byte3(v), Byte3(w))
    ensures Byte4(And64(v, w)) == And8(Byte4(v), Byte4(w))
    ensures Byte5(And64(v, w)) == And8(Byte5(v), Byte5(w))
    ensures Byte6(And64(v, w)) == And8(Byte6(v), Byte6(w))
    ensures Byte7(And64(v, w)) == And8(Byte7(v), Byte7(w))
  {
  }

  lemma OrBits(v: bv64, w: bv64)
    ensures Byte0(v | w) == Byte0(v) | Byte0(w)
    ensures Byte1(v | w) == Byte1(v) | Byte1(w)
    ensures Byte2(v | w) == Byte2(v) | Byte2(w)
    ensures Byte3(v | w) == Byte3(v) | Byte3(w)
    ensures Byte4(v | w) == Byte4(v) | Byte4(w)
    ensures Byte5(v | w) == Byte5(v) | Byte5(w)
    ensures Byte6(v | w) == Byte6(v) | Byte6(w)
    ensures Byte7(v | w) == Byte7(v) | Byte7(w)
  {
  }

  lemma OrBytes(v: bv64, w: bv64)
    ensures Byte0(Or64(v, w)) == Or8(Byte0(v), Byte0(w))
    ensures Byte1(Or64(v, w)) == Or8(Byte1(v), Byte1(w))
    ensures Byte2(Or64(v, w)) == Or8(Byte2(v), Byte2(w))
    ensures Byte3(Or64(v, w)) == Or8(Byte3(v), Byte3(w))
    ensures Byte4(Or64(v, w)) == Or8(Byte4(v), Byte4(w))
    ensures Byte5(Or64(v, w)) == Or8(Byte5(v), Byte5(w))
    ensures Byte6(Or64(v, w)) == Or8(Byte6(v), Byte6(w))
    ensures Byte7(Or64(v, w)) == Or8(Byte7(v), Byte7(w))
  {
    hide Byte0, Byte1, Byte2, Byte3, Byte4, Byte5, Byte6, Byte7;
    OrBits(v, w);
  }

  lemma XorBits(v: bv64, w: bv64)
    ensures Byte0(v ^ w) == Byte0(v) ^ Byte0(w)
    ensures Byte1(v ^ w) == Byte1(v) ^ Byte1(w)
    ensures Byte2(v ^ w) == Byte2(v) ^ Byte2(w)
    ensures Byte3(v ^ w) == Byte3(v) ^ Byte3(w)
    ensures Byte4(v ^ w) == Byte4(v) ^ Byte4(w)
    ensures Byte5(v ^ w) == Byte5(v) ^ Byte5(w)
    ensures Byte6(v ^ w) == Byte6(v) ^ Byte6(w)
    ensures Byte7(v ^ w) == Byte7(v) ^ Byte7(w)
  {
  }

  lemma XorBytes(v: bv64, w: bv64)
    ensures Byte0(Xor64(v, w)) == Xor8(Byte0(v), Byte0(w))
    ensures Byte1(Xor64(v, w)) == Xor8(Byte1(v), Byte1(w))
    ensures Byte2(Xor64(v, w)) == Xor8(Byte2(v), Byte2(w))
    ensures Byte3(Xor64(v, w)) == Xor8(Byte3(v), Byte3(w))
    ensures Byte4(Xor64(v, w)) == Xor8(Byte4(v), Byte4(w))
    ensures Byte5(Xor64(v, w)) == Xor8(Byte5(v), Byte5(w))
    ensures Byte6(Xor64(v, w)) == Xor8(Byte6(v), Byte6(w))
    ensures Byte7(Xor64(v, w)) == Xor8(Byte7(v), Byte7(w))
  {
    hide Byte0, Byte1, Byte2, Byte3, Byte4, Byte5, Byte6, Byte7;
    XorBits(v, w);
  }

  lemma NotBytes(v: bv64)
    ensures Byte0(!v) == !Byte0(v) && Byte1(!v) == !Byte1(v) && Byte2(!v) == !Byte2(v) && Byte3(!v) == !Byte3(v)
    ensures Byte4(!v) == !Byte4(v) && Byte5(!v) == !Byte5(v) && Byte6(!v) == !Byte6(v) && Byte7(!v) == !Byte7(v)
  {
  }

  /** Combining two words combines their bytes. */
  lemma CombinedByte(op: Op, v: bv64, w: bv64, k: nat)
    requires k < 8
    ensures ByteAt(CombineWords(op, v, w), k) == Combine(op, ByteAt(v, k), ByteAt(w, k))
  {
    hide And8, Or8, Xor8, And64, Or64, Xor64, Byte0, Byte1, Byte2, Byte3, Byte4, Byte5, Byte6, Byte7;
    match op {
      case And => AndBytes(v, w);
      case Or => OrBytes(v, w);
      case Xor => XorBytes(v, w);
      case Not =>
    }
  }

  lemma ComplementByte(v: bv64, k: nat)
    requires k < 8
    ensures ByteAt(!v, k) == !ByteAt(v, k)
  {
    hide Byte0, Byte1, Byte2, Byte3, Byte4, Byte5, Byte6, Byte7;
    NotBytes(v);
  }

  method StoreWord(res: array<bv8>, j: nat, w: bv64)
    requires j + 8 <= res.Length
    modifies res
    ensures forall k | 0 <= k < res.Length :: res[k] == if j <= k < j + 8 then ByteAt(w, k - j) else old(res[k])
  {
    hide ByteAt;
    for i := 0 to 8
      invariant forall k | 0 <= k < res.Length :: res[k] == if j <= k < j + i then ByteAt(w, k - j) else old(res[k])
    {
      hide ByteAt;
      res[j + i] := ByteAt(w, i);
    }
  }

  /** lres[n] op= lp[i][n], for one word. */
  method CombineWord(op: Op, res: array<bv8>, src: seq<bv8>, j: nat)
    requires j + 8 <= res.Length && j + 8 <= |src|
    modifies res
    ensures forall k | 0 <= k < res.Length ::
              res[k] == if j <= k < j + 8 then Combine(op, old(res[k]), src[k]) else old(res[k])
  {
    hide ByteAt, WordAt, CombineWords, Combine;
    ghost var was := res[..];
    var v, w := WordAt(res[..], j), WordAt(src, j);
    StoreWord(res, j, CombineWords(op, v, w));
    forall k | j <= k < j + 8 ensures res[k] == Combine(op, was[k], src[k]) {
      CombinedByte(op, v, w, k - j);
      ByteOfWord(was, j, k - j);
      ByteOfWord(src, j, k - j);
    }
  }

  method CombineFour(op: Op, res: array<bv8>, src: seq<bv8>, j: nat)
    requires j + 32 <= res.Length && j + 32 <= |src|
    modifies res
    ensures forall k | 0 <= k < res.Length ::
              res[k] == if j <= k < j + 32 then Combine(op, old(res[k]), src[k]) else old(res[k])
  {
    hide Combine;
    CombineWord(op, res, src, j);
    CombineWord(op, res, src, j + 8);
    CombineWord(op, res, src, j + 16);
    CombineWord(op, res, src, j + 24);
  }

  method ComplementWord(res: array<bv8>, j: nat)
    requires j + 8 <= res.Length
    modifies res
    ensures forall k | 0 <= k < res.Length :: res[k] == if j <= k < j + 8 then !old(res[k]) else old(res[k])
  {
    hide ByteAt, WordAt;
    ghost var was := res[..];
    var v := WordAt(res[..], j);
    StoreWord(res, j, !v);
    forall k | j <= k < j + 8 ensures res[k] == !was[k] {
      ComplementByte(v, k - j);
      ByteOfWord(was, j, k - j);
    }
  }

  method ComplementFour(res: array<bv8>, j: nat)
    requires j + 32 <= res.Length
    modifies res
    ensures forall k | 0 <= k < res.Length :: res[k] == if j <= k < j + 32 then !old(res[k]) else old(res[k])
  {
    ComplementWord(res, j);
    ComplementWord(res, j + 8);
    ComplementWord(res, j + 16);
    ComplementWord(res, j + 24);
  }

  // --------------------------------------------------------------------------
  // The command
  // --------------------------------------------------------------------------

  /** The fast path only runs over bytes every source has. */
  ghost predicate AllReach(sources: seq<Source>, n: nat, minlen: nat) {
    forall i | 0 <= i < n <= |sources| :: minlen <= |BytesOf(sources[i])|
  }

  ghost predicate SomeEnds(sources: seq<Source>, n: nat, minlen: nat) {
    exists i | 0 <= i < n <= |sources| :: |BytesOf(sources[i])| == minlen
  }

  lemma NoneFallShort(sources: seq<Source>)
    ensures AllReach(sources, 0, 0)
  {
  }

  lemma ShorterYet(sources: seq<Source>, j: nat, minlen: nat)
    requires j < |sources| && AllReach(sources, j, minlen) && (j > 0 ==> SomeEnds(sources, j, minlen))
    ensures var n := |BytesOf(sources[j])|;
            var shortest := if j == 0 || n < minlen then n else minlen;
            AllReach(sources, j + 1, shortest) && SomeEnds(sources, j + 1, shortest)
  {
    assert j == 0 || |BytesOf(sources[j])| < minlen ==> SomeEnds(sources, j + 1, |BytesOf(sources[j])|);
  }

  /** Looks the keys up; stops at one that is not a string. */
  method Gather(sources: seq<Source>) returns (ok: bool, minlen: nat, maxlen: nat)
    ensures ok <==> forall i | 0 <= i < |sources| :: !sources[i].WrongType?
    ensures ok ==> maxlen == Longest(sources) && AllReach(sources, |sources|, minlen)
    ensures ok && sources != [] ==> SomeEnds(sources, |sources|, minlen)
  {
    hide AllReach, SomeEnds;
    minlen, maxlen := 0, 0;
    assert AllReach(sources, 0, 0) by { NoneFallShort(sources); }
    for j := 0 to |sources|
      invariant forall i | 0 <= i < j :: !sources[i].WrongType?
      invariant maxlen == Longest(sources[..j]) && AllReach(sources, j, minlen)
      invariant j > 0 ==> SomeEnds(sources, j, minlen)
    {
      hide AllReach, SomeEnds;
      ShorterYet(sources, j, minlen);
      assert sources[..j + 1][..j] == sources[..j];
      match sources[j] {
        case Missing => minlen := 0;
        case WrongType => return false, minlen, maxlen;
        case Text(s) =>
          if |s| > maxlen {
            maxlen := |s|;
          }
          if j == 0 || |s| < minlen {
            minlen := |s|;
          }
      }
    }
    assert sources[..|sources|] == sources;
    ok := true;
  }

  /** The bytes of the result computed so far, and the first source's still to be combined. */
  ghost predicate Progress(op: Op, sources: seq<Source>, res: seq<bv8>, j: nat, minlen: nat) {
    && |sources| >= 1 && j <= |res|
    && (forall k | 0 <= k < j :: res[k] == Folded(op, sources, |sources|, k))
    && (forall k | j <= k < minlen <= |res| :: res[k] == PadAt(BytesOf(sources[0]), k))
  }

  /** One turn of the fast loop: 32 bytes of every source. */
  method FourWords(op: Op, sources: seq<Source>, res: array<bv8>, j: nat, ghost minlen: nat)
    requires |sources| >= 1 && (op.Not? ==> |sources| == 1) && AllReach(sources, |sources|, minlen)
    requires j + 32 <= minlen <= res.Length && Progress(op, sources, res[..], j, minlen)
    modifies res
    ensures Progress(op, sources, res[..], j + 32, minlen)
  {
    hide Combine, PadAt;
    ghost var was := res[..];
    if op.Not? {
      ComplementFour(res, j);
    } else {
      for i := 1 to |sources|
        invariant forall k | 0 <= k < res.Length ::
                    res[k] == if j <= k < j + 32 then Folded(op, sources, i, k) else was[k]
      {
        hide Combine, PadAt, Folded;
        var src := BytesOf(sources[i]);
        ghost var before := res[..];
        CombineFour(op, res, src, j);
        CombinedFolds(op, sources, i, j, was, before, res[..]);
      }
    }
  }

  lemma CombinedFolds(op: Op, sources: seq<Source>, i: nat, j: nat, was: seq<bv8>, before: seq<bv8>, after: seq<bv8>)
    requires 1 <= i < |sources| && |was| == |before| == |after| && j + 32 <= |was| && j + 32 <= |BytesOf(sources[i])|
    requires forall k | 0 <= k < |was| :: before[k] == if j <= k < j + 32 then Folded(op, sources, i, k) else was[k]
    requires forall k | 0 <= k < |was| ::
               after[k] == if j <= k < j + 32 then Combine(op, before[k], BytesOf(sources[i])[k]) else before[k]
    ensures forall k | 0 <= k < |was| :: after[k] == if j <= k < j + 32 then Folded(op, sources, i + 1, k) else was[k]
  {
    hide Combine, Folded;
    forall k | j <= k < j + 32 ensures after[k] == Folded(op, sources, i + 1, k) {
      FoldedMore(op, sources, i, k);
    }
  }

  lemma FoldedMore(op: Op, sources: seq<Source>, i: nat, k: nat)
    requires 1 <= i < |sources| && k < |BytesOf(sources[i])|
    ensures Folded(op, sources, i + 1, k) == Combine(op, Folded(op, sources, i, k), BytesOf(sources[i])[k])
  {
    hide Combine;
  }

  /** The byte-by-byte loop, for one position. */
  method OneByte(op: Op, sources: seq<Source>, j: nat) returns (output: bv8)
    requires |sources| >= 1
    ensures output == Folded(op, sources, |sources|, j)
  {
    hide Combine;
    var s := BytesOf(sources[0]);
    output := if |s| <= j then 0 else s[j];
    if op.Not? {
      output := !output;
    }
    for i := 1 to |sources|
      invariant output == Folded(op, sources, i, j)
    {
      hide Combine;
      var t := BytesOf(sources[i]);
      output := Combine(op, output, if |t| <= j then 0 else t[j]);
    }
  }

  /** A zero-filled buffer, the fast path over what all sources share, and the rest byte by byte. */
  method Compute(op: Op, sources: seq<Source>, minlen: nat, maxlen: nat) returns (r: seq<bv8>)
    requires |sources| >= 1 && (op.Not? ==> |sources| == 1)
    requires AllReach(sources, |sources|, minlen) && maxlen == Longest(sources)
    ensures IsCombined(op, sources, r)
  {
    hide Folded;
    var res := new bv8[maxlen](_ => 0);
    var j: nat := 0;
    if minlen >= 32 && |sources| <= 16 {
      var s := BytesOf(sources[0]);
      forall k | 0 <= k < minlen {
        res[k] := s[k];
      }
      while minlen - j >= 32
        invariant j <= minlen && Progress(op, sources, res[..], j, minlen)
      {
        hide Folded;
        FourWords(op, sources, res, j, minlen);
        j := j + 32;
      }
    }
    while j < maxlen
      invariant j <= maxlen && forall k | 0 <= k < j :: res[k] == Folded(op, sources, |sources|, k)
    {
      hide Folded;
      var output := OneByte(op, sources, j);
      res[j] := output;
      j := j + 1;
    }
    r := res[..];
  }

  /** BITOP, up to storing the value: an error, a deletion of the target, or the combined string. */
  method BitopCommand(op: Op, sources: seq<Source>) returns (r: Outcome)
    requires |sources| >= 1
    ensures r.BadArity? <==> op.Not? && |sources| != 1
    ensures r.TypeError? <==> !(op.Not? && |sources| != 1) && exists i | 0 <= i < |sources| :: sources[i].WrongType?
    ensures r.Deleted? ==> Longest(sources) == 0
    ensures r.Stored? ==> Longest(sources) > 0 && IsCombined(op, sources, r.bytes) && BitByBit(op, sources, r.bytes)
  {
    hide BitByBit, Folded;
    if op.Not? && |sources| != 1 {
      return BadArity;
    }
    var ok, minlen, maxlen := Gather(sources);
    if !ok {
      return TypeError;
    }
    if maxlen == 0 {
      return Deleted;
    }
    var bytes := Compute(op, sources, minlen, maxlen);
    CombinedIsBitByBit(op, sources, bytes);
    return Stored(bytes);
  }
}
