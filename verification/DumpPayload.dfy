/** The trailer of DUMP payloads: two bytes of version and eight of checksum, both little-endian. */
module DumpPayload {
  import opened Crc64

  const RDB_VERSION: bv16 := 9

  function Narrow(x: bv64): Byte {
    (x & 0xff) as Byte
  }

  /** The low n bytes of a number, least significant first. */
  function Bytes(x: bv64, n: nat): (s: seq<Byte>)
    ensures |s| == n
    decreases n
  {
    if n == 0 then [] else [Narrow(x)] + Bytes(High(x), n - 1)
  }

  lemma Shrinks(x: bv64, n: nat)
    requires 0 < n <= 8 && Fits(x, n)
    ensures Fits(High(x), n - 1) && Wide(Narrow(x)) == Low(x)
  {
    if n == 1 {
    } else if n == 2 {
    } else if n == 3 {
    } else if n == 4 {
    } else if n == 5 {
    } else if n == 6 {
    } else if n == 7 {
    } else {
    }
  }

  lemma FitsNothing(x: bv64)
    requires Fits(x, 0)
    ensures x == 0
  {
  }

  lemma FitsEight(x: bv64)
    ensures Fits(x, 8)
  {
  }

  lemma {:induction false} WordOfBytes(x: bv64, n: nat)
    requires n <= 8 && Fits(x, n)
    ensures Word(Bytes(x, n)) == x
    decreases n
  {
    hide Fits, Narrow, Xor, Low, High, Up, Wide;
    if n == 0 {
      FitsNothing(x);
    } else {
      Shrinks(x, n);
      WordOfBytes(High(x), n - 1);
      Parts(x);
      assert Bytes(x, n)[1..] == Bytes(High(x), n - 1);
    }
  }

  // --------------------------------------------------------------------------
  // Making and checking a payload
  // --------------------------------------------------------------------------

  function Versioned(body: seq<Byte>): seq<Byte> {
    body + [9, 0]
  }

  function Payload(body: seq<Byte>): seq<Byte> {
    Versioned(body) + Bytes(Crc(0, Versioned(body)), 8)
  }

  function Version(p: seq<Byte>): bv16
    requires |p| >= 10
  {
    ((p[|p| - 9] as bv16) << 8) | (p[|p| - 10] as bv16)
  }

  predicate Accepts(p: seq<Byte>) {
    && |p| >= 10 && Version(p) <= RDB_VERSION
    && Bytes(Crc(0, p[..|p| - 8]), 8) == p[|p| - 8..]
  }

  method CreateDumpPayload(body: seq<Byte>) returns (p: seq<Byte>)
    ensures p == Payload(body) && Accepts(p)
    ensures |p| == |body| + 10 && p[..|body|] == body && p[|body|..|body| + 2] == [9, 0]
  {
    hide Crc, Bytes;
    var low, high := (RDB_VERSION & 0xff) as Byte, ((RDB_VERSION >> 8) & 0xff) as Byte;
    p := body + [low, high];
    assert [low, high] == [9, 0];
    var crc := Crc64.Crc64(0, p);
    p := p + Bytes(crc, 8);
  }

  method VerifyDumpPayload(p: seq<Byte>) returns (ok: bool)
    ensures ok == Accepts(p)
  {
    hide Crc, Bytes;
    if |p| < 10 {
      return false;
    }
    var footer := p[|p| - 10..];
    var version := ((footer[1] as bv16) << 8) | (footer[0] as bv16);
    if version > RDB_VERSION {
      return false;
    }
    var crc := Crc64.Crc64(0, p[..|p| - 8]);
    return Bytes(crc, 8) == footer[2..];
  }

  // --------------------------------------------------------------------------
  // What is rejected
  // --------------------------------------------------------------------------

  lemma {:induction false} OctetsZero(n: nat)
    ensures Octets(0, n) == 0
  {
    hide Octet;
    if n == 0 {
    } else {
      OctetZero();
      OctetsZero(n - 1);
    }
  }

  /** Feeding a state its own bytes empties it, and nothing else does. */
  lemma {:induction false} TrailerEmpties(crc: bv64, t: seq<Byte>)
    requires |t| == 8
    ensures Crc(crc, t) == 0 <==> Bytes(crc, 8) == t
  {
    hide Crc, Bytes;
    OwnBytesEmpty(crc);
    if Crc(crc, t) == 0 {
      WordDetected(crc, Bytes(crc, 8), t);
    }
  }

  /** A checksum fed its own eight bytes comes to zero. */
  lemma {:induction false} OwnBytesEmpty(crc: bv64)
    ensures |Bytes(crc, 8)| == 8 && Crc(crc, Bytes(crc, 8)) == 0
  {
    hide Crc, Octets, Word, Xor, Fits;
    FitsEight(crc);
    WordOfBytes(crc, 8);
    BytesFold(crc, Bytes(crc, 8));
    XorFlips(crc, crc);
    OctetsZero(8);
  }

  /** A payload is accepted exactly when its version is known and the checksum of all of it, trailer too, is zero. */
  lemma {:induction false} AcceptsIff(p: seq<Byte>)
    ensures Accepts(p) <==> |p| >= 10 && Version(p) <= RDB_VERSION && Crc(0, p) == 0
  {
    hide Crc, Bytes, Version;
    if |p| >= 10 {
      var data, trailer := p[..|p| - 8], p[|p| - 8..];
      assert p == data + trailer;
      CrcConcat(0, data, trailer);
      TrailerEmpties(Crc(0, data), trailer);
    }
  }

  /** A payload closed by its own checksum is turned away exactly when its version lies beyond ours. */
  lemma VersionRejected(body: seq<Byte>, low: Byte, high: Byte)
    ensures var data := body + [low, high];
            Accepts(data + Bytes(Crc(0, data), 8)) <==> high == 0 && low <= 9
  {
    hide Crc, Bytes;
    var data := body + [low, high];
    var p := data + Bytes(Crc(0, data), 8);
    assert p[..|p| - 8] == data && p[|p| - 8..] == Bytes(Crc(0, data), 8);
    assert Version(p) == ((high as bv16) << 8) | (low as bv16);
  }

  /** Damage confined to eight consecutive bytes, wherever they lie, is never accepted. */
  lemma BurstRejected(p: seq<Byte>, q: seq<Byte>, at: nat, n: nat)
    requires Accepts(p) && Burst(p, q, at, n)
    ensures !Accepts(q)
  {
    hide Crc, Accepts;
    AcceptsIff(p);
    AcceptsIff(q);
    BurstDetected(0, p, q, at, n);
  }
}
