/**
 The append-only file's format: commands as arrays of bulk strings, printed by
 catAppendOnlyGenericCommand and read back with fgets, atoi, strtol and fread.
 A byte is a `char`.
 */
module Resp {

  type Bytes = string

  type Command = seq<Bytes>

  // --------------------------------------------------------------------------
  // Printing
  // --------------------------------------------------------------------------

  function Digit(d: nat): char
    requires d < 10
  {
    '0' + d as char
  }

  /** ll2string of a number that is not negative. */
  function Decimal(n: nat): (r: Bytes)
    ensures r != []
  {
    if n < 10 then [Digit(n)] else Decimal(n / 10) + [Digit(n % 10)]
  }

  function Count(prefix: char, n: nat): Bytes {
    [prefix] + Decimal(n) + "\r\n"
  }

  function Bulk(s: Bytes): Bytes {
    Count('$', |s|) + (s + "\r\n")
  }

  function Bulks(args: seq<Bytes>): Bytes {
    if args == [] then [] else Bulk(args[0]) + Bulks(args[1..])
  }

  function Encode(c: Command): Bytes {
    Count('*', |c|) + Bulks(c)
  }

  function EncodeAll(cs: seq<Command>): Bytes {
    if cs == [] then [] else Encode(cs[0]) + EncodeAll(cs[1..])
  }

  lemma ShortBulk(x: char)
    ensures Bulk([x]) == "$1\r\n" + [x] + "\r\n"
  {
    assert Decimal(1) == "1";
  }

  lemma Two()
    ensures Count('*', 2) == "*2\r\n"
  {
    assert Decimal(2) == "2";
  }

  /** A command as it stands in the file. */
  lemma EncodedForm(x: char, y: char)
    ensures Encode([[x], [y]]) == "*2\r\n" + ("$1\r\n" + [x] + "\r\n") + ("$1\r\n" + [y] + "\r\n")
  {
    hide Decimal, Bulk;
    ShortBulk(x);
    ShortBulk(y);
    Two();
    assert [[x], [y]][1..] == [[y]] && [[y]][1..] == [];
    assert Bulks([[y]]) == Bulk([y]) + Bulks([]) == Bulk([y]);
    assert Count('*', 2) + (Bulk([x]) + Bulk([y])) == Count('*', 2) + Bulk([x]) + Bulk([y]);
  }

  /** argc is an int and a string length a 64-bit size. */
  predicate Encodable(c: Command) {
    1 <= |c| < 0x8000_0000 && forall a | a in c :: |a| < 0x8000_0000_0000_0000
  }

  // --------------------------------------------------------------------------
  // Reading
  // --------------------------------------------------------------------------

  /** How many bytes fgets takes with room for `room`: up to and including a newline. */
  function LineLength(r: Bytes, room: nat): (n: nat)
    ensures n <= |r|
    ensures r != [] && room != 0 ==> n != 0
  {
    if r == [] || room == 0 then 0
    else if r[0] == '\n' then 1
    else 1 + LineLength(r[1..], room - 1)
  }

  const FGETS_ROOM: nat := 127

  predicate IsSpace(c: char) {
    c == ' ' || '\t' <= c <= '\r'
  }

  predicate IsDigit(c: char) {
    '0' <= c <= '9'
  }

  function DigitsValue(s: Bytes, acc: nat): nat {
    if s == [] || !IsDigit(s[0]) then acc else DigitsValue(s[1..], 10 * acc + (s[0] - '0') as nat)
  }

  /** atoi and strtol in base 10: blanks, a sign, digits; whatever follows is ignored. */
  function Atoi(s: Bytes): int {
    if s == [] then 0
    else if IsSpace(s[0]) then Atoi(s[1..])
    else if s[0] == '-' then -(DigitsValue(s[1..], 0) as int)
    else if s[0] == '+' then DigitsValue(s[1..], 0)
    else DigitsValue(s, 0)
  }

  /**
   Short: the file ended inside a command.  Malformed: the loader gives up, with a format or
   read error, or for want of memory when a length is negative.
   */
  datatype Parse<+T> = Got(value: T, rest: Bytes) | Short | Malformed

  function ParseBulk(r: Bytes): (p: Parse<Bytes>)
    ensures p.Got? ==> |p.rest| < |r| && p.rest == r[|r| - |p.rest|..]
  {
    if r == [] then Short
    else
      var n := LineLength(r, FGETS_ROOM);
      if r[0] != '$' then Malformed
      else
        var len, body := Atoi(r[1..n]), r[n..];
        if len < 0 then Malformed
        else if |body| < len then Short
        else if |body| < len + 2 then Short
        else Got(body[..len], body[len + 2..])
  }

  function ParseBulks(count: nat, r: Bytes): (p: Parse<seq<Bytes>>)
    ensures p.Got? ==> |p.rest| <= |r| && |p.value| == count && p.rest == r[|r| - |p.rest|..]
  {
    if count == 0 then Got([], r)
    else
      match ParseBulk(r)
      case Short => Short
      case Malformed => Malformed
      case Got(a, r') =>
        match ParseBulks(count - 1, r')
        case Short => Short
        case Malformed => Malformed
        case Got(as_, r'') => Got([a] + as_, r'')
  }

  /** The next command of a file that is not at its end. */
  function ParseCommand(r: Bytes): (p: Parse<Command>)
    requires r != []
    ensures p.Got? ==> |p.rest| < |r| && |p.value| >= 1 && p.rest == r[|r| - |p.rest|..]
  {
    var n := LineLength(r, FGETS_ROOM);
    if r[0] != '*' then Malformed
    else if n == 1 then Short
    else if r[1] == '\0' then (if n == |r| && n < FGETS_ROOM && r[n - 1] != '\n' then Short else Malformed)
    else
      var argc := Atoi(r[1..n]);
      if argc < 1 then Malformed else ParseBulks(argc, r[n..])
  }

  // --------------------------------------------------------------------------
  // Numbers
  // --------------------------------------------------------------------------

  function Pow10(d: nat): nat {
    if d == 0 then 1 else 10 * Pow10(d - 1)
  }

  lemma {:induction false} DecimalLength(n: nat, d: nat)
    requires 1 <= d && n < Pow10(d)
    ensures |Decimal(n)| <= d
    decreases d
  {
    if n >= 10 {
      assert d > 1;
      DecimalLength(n / 10, d - 1);
    }
  }

  lemma {:induction false} DecimalDigits(n: nat)
    ensures forall i | 0 <= i < |Decimal(n)| :: IsDigit(Decimal(n)[i])
    ensures n >= 1 ==> Decimal(n)[0] != '0'
  {
    if n >= 10 {
      DecimalDigits(n / 10);
    }
  }

  /** Reading digits is reading a first run of digits and going on from its value. */
  lemma {:induction false} DigitsValueSplit(a: Bytes, b: Bytes, acc: nat)
    requires forall i | 0 <= i < |a| :: IsDigit(a[i])
    ensures DigitsValue(a + b, acc) == DigitsValue(b, DigitsValue(a, acc))
    decreases |a|
  {
    if a == [] {
      assert a + b == b;
    } else {
      assert (a + b)[1..] == a[1..] + b;
      DigitsValueSplit(a[1..], b, 10 * acc + (a[0] - '0') as nat);
    }
  }

  lemma {:induction false} DecimalValue(n: nat, b: Bytes)
    requires b == [] || !IsDigit(b[0])
    ensures DigitsValue(Decimal(n) + b, 0) == n
  {
    if n < 10 {
      assert ([Digit(n)] + b)[1..] == b;
    } else {
      DecimalDigits(n / 10);
      var low := [Digit(n % 10)] + b;
      assert Decimal(n) + b == Decimal(n / 10) + low;
      DigitsValueSplit(Decimal(n / 10), low, 0);
      DecimalValue(n / 10, []);
      assert Decimal(n / 10) + [] == Decimal(n / 10);
      assert low[1..] == b;
    }
  }

  /** What ll2string prints, atoi and strtol read back, whatever follows that is not a digit. */
  lemma {:induction false} AtoiDecimal(n: nat, b: Bytes)
    requires b == [] || !IsDigit(b[0])
    ensures Atoi(Decimal(n) + b) == n
  {
    DecimalDigits(n);
    DecimalValue(n, b);
    assert (Decimal(n) + b)[0] == Decimal(n)[0];
  }

  /** Blanks before a number do not matter: space, tab, newline, vertical tab, form feed and carriage return. */
  lemma {:induction false} BlanksSkipped(blanks: Bytes, s: Bytes)
    requires forall c | c in blanks :: c == ' ' || 9 <= c as int <= 13
    ensures Atoi(blanks + s) == Atoi(s)
    decreases |blanks|
  {
    if blanks == [] {
      assert blanks + s == s;
    } else {
      assert (blanks + s)[1..] == blanks[1..] + s;
      assert blanks[0] in blanks && forall c | c in blanks[1..] :: c in blanks;
      BlanksSkipped(blanks[1..], s);
    }
  }

  lemma {:induction false} DigitsValueGrows(s: Bytes, acc: nat)
    ensures DigitsValue(s, acc) >= acc
    decreases |s|
  {
    if s != [] && IsDigit(s[0]) {
      DigitsValueGrows(s[1..], 10 * acc + (s[0] - '0') as nat);
    }
  }

  // --------------------------------------------------------------------------
  // Lines
  // --------------------------------------------------------------------------

  /** A line that fits is read whole. */
  lemma {:induction false} LineWhole(h: Bytes, t: Bytes, room: nat)
    requires '\n' !in h && |h| < room
    ensures LineLength(h + ['\n'] + t, room) == |h| + 1
    decreases |h|
  {
    if h == [] {
      assert (h + ['\n'] + t)[0] == '\n';
    } else {
      assert (h + ['\n'] + t)[1..] == h[1..] + ['\n'] + t;
      LineWhole(h[1..], t, room - 1);
    }
  }

  /** A last line without a newline is read whole as well. */
  lemma {:induction false} LineCut(h: Bytes, room: nat)
    requires '\n' !in h && |h| <= room
    ensures LineLength(h, room) == |h|
    decreases |h|
  {
    if h != [] {
      LineCut(h[1..], room - 1);
    }
  }

  /** What is read ends with the first newline, the room or the file, whichever comes first. */
  lemma {:induction false} LineEnds(r: Bytes, room: nat)
    ensures var n := LineLength(r, room);
            && n <= room && (forall i | 0 <= i < n - 1 :: r[i] != '\n')
            && (n < |r| && n < room ==> n > 0 && r[n - 1] == '\n')
    decreases |r|
  {
    if r != [] && room != 0 && r[0] != '\n' {
      LineEnds(r[1..], room - 1);
      var n := LineLength(r[1..], room - 1);
      forall i | 0 <= i < n ensures r[i] != '\n' {
        assert i > 0 ==> r[i] == r[1..][i - 1];
      }
    }
  }

  /** A count that starts with a zero byte: the file ended only if it did so on that very line. */
  lemma ZeroByteCount(r: Bytes)
    requires |r| >= 2 && r[..2] == "*\0"
    ensures ParseCommand(r) == if '\n' !in r && |r| < FGETS_ROOM then Short else Malformed
  {
    hide Atoi, LineLength;
    assert r[0] == "*\0"[0] && r[1] == "*\0"[1];
    LineEnds(r, FGETS_ROOM);
    var n := LineLength(r, FGETS_ROOM);
    if '\n' !in r && |r| < FGETS_ROOM {
      LineCut(r, FGETS_ROOM);
    } else {
      assert n != 1;
    }
  }

  lemma {:induction false} CountLine(prefix: char, n: nat, t: Bytes)
    requires n < Pow10(19) && prefix != '\n'
    ensures LineLength(Count(prefix, n) + t, FGETS_ROOM) == |Count(prefix, n)|
    ensures |Count(prefix, n)| >= 4 && Count(prefix, n)[0] == prefix
    ensures Atoi((Count(prefix, n) + t)[1..|Count(prefix, n)|]) == n
  {
    hide Decimal, Pow10, LineLength, Atoi;
    DecimalLength(n, 19);
    DecimalDigits(n);
    var h := [prefix] + Decimal(n) + ['\r'];
    assert Count(prefix, n) + t == h + ['\n'] + t;
    LineWhole(h, t, FGETS_ROOM);
    assert (Count(prefix, n) + t)[1..|Count(prefix, n)|] == Decimal(n) + "\r\n";
    AtoiDecimal(n, "\r\n");
  }

  /** A count line cut short reads as some number, positive if any digit of a positive one is left. */
  lemma CountCut(prefix: char, n: nat, k: nat)
    requires n < Pow10(19) && prefix != '\n' && 1 <= k < |Count(prefix, n)|
    ensures var r := Count(prefix, n)[..k];
            && r[0] == prefix && LineLength(r, FGETS_ROOM) == k
            && Atoi(r[1..]) >= 0
            && (n >= 1 && k >= 2 ==> Atoi(r[1..]) >= 1 && IsDigit(r[1]))
  {
    hide Decimal, Pow10, LineLength;
    DecimalLength(n, 19);
    DecimalDigits(n);
    var r := Count(prefix, n)[..k];
    assert '\n' !in r by {
      assert r == ([prefix] + Decimal(n) + ['\r'])[..k];
    }
    LineCut(r, FGETS_ROOM);
    if k >= 2 {
      assert r[1] == Decimal(n)[0];
      DigitsValueGrows(r[2..], (r[1] - '0') as nat);
      assert r[1..][1..] == r[2..];
    }
  }

  // --------------------------------------------------------------------------
  // Whole commands round trip
  // --------------------------------------------------------------------------

  lemma Small(n: nat)
    requires n < 0x8000_0000_0000_0000
    ensures n < Pow10(19)
  {
    assert Pow10(4) == 10_000;
    assert Pow10(8) == 100_000_000;
    assert Pow10(12) == 1_000_000_000_000;
    assert Pow10(16) == 10_000_000_000_000_000;
    assert Pow10(19) == 10_000_000_000_000_000_000;
  }

  lemma BulkWhole(s: Bytes, t: Bytes)
    requires |s| < 0x8000_0000_0000_0000
    ensures ParseBulk(Bulk(s) + t) == Got(s, t)
  {
    hide LineLength, Atoi, Decimal;
    Small(|s|);
    var body := s + "\r\n" + t;
    CountLine('$', |s|, body);
    assert Bulk(s) + t == Count('$', |s|) + body;
    assert body[..|s|] == s && body[|s| + 2..] == t;
  }

  lemma {:induction false} BulksWhole(args: seq<Bytes>, t: Bytes)
    requires forall a | a in args :: |a| < 0x8000_0000_0000_0000
    ensures ParseBulks(|args|, Bulks(args) + t) == Got(args, t)
    decreases |args|
  {
    hide Bulk, ParseBulk;
    if args == [] {
      assert Bulks(args) + t == t;
    } else {
      assert Bulks(args) + t == Bulk(args[0]) + (Bulks(args[1..]) + t);
      BulkWhole(args[0], Bulks(args[1..]) + t);
      BulksWhole(args[1..], t);
      assert [args[0]] + args[1..] == args;
    }
  }

  /** The parser undoes the printer, whatever comes next. */
  lemma CommandWhole(c: Command, t: Bytes)
    requires Encodable(c)
    ensures ParseCommand(Encode(c) + t) == Got(c, t)
  {
    hide LineLength, Atoi, ParseBulks, Bulks, Decimal;
    Small(|c|);
    CountLine('*', |c|, Bulks(c) + t);
    DecimalDigits(|c|);
    var r := Encode(c) + t;
    assert r == Count('*', |c|) + (Bulks(c) + t);
    assert r[1] == Decimal(|c|)[0];
    BulksWhole(c, t);
  }

  // --------------------------------------------------------------------------
  // Cut commands are recognised as such
  // --------------------------------------------------------------------------

  lemma BulkCut(s: Bytes, k: nat)
    requires |s| < 0x8000_0000_0000_0000 && k < |Bulk(s)|
    ensures ParseBulk(Bulk(s)[..k]) == Short
  {
    hide LineLength, Atoi, Count;
    Small(|s|);
    var head := Count('$', |s|);
    if 0 < k < |head| {
      CountCut('$', |s|, k);
      var r := head[..k];
      assert Bulk(s)[..k] == r;
      assert r[1..k] == r[1..] && r[k..] == [];
    } else if k >= |head| {
      var body := (s + "\r\n")[..k - |head|];
      CountLine('$', |s|, body);
      assert Bulk(s)[..k] == head + body;
    }
  }

  lemma {:induction false} BulksCut(args: seq<Bytes>, k: nat)
    requires forall a | a in args :: |a| < 0x8000_0000_0000_0000
    requires k < |Bulks(args)|
    ensures ParseBulks(|args|, Bulks(args)[..k]) == Short
    decreases |args|
  {
    hide Bulk, ParseBulk;
    var first := Bulk(args[0]);
    if k < |first| {
      assert Bulks(args)[..k] == first[..k];
      BulkCut(args[0], k);
    } else {
      var rest := Bulks(args[1..])[..k - |first|];
      assert Bulks(args)[..k] == first + rest;
      BulkWhole(args[0], rest);
      BulksCut(args[1..], k - |first|);
    }
  }

  lemma {:induction false} NothingLeft(count: nat)
    requires count >= 1
    ensures ParseBulks(count, []) == Short
  {
  }

  /** Every cut inside a command, wherever it falls, is read as an unexpected end of file. */
  lemma CommandCut(c: Command, k: nat)
    requires Encodable(c) && 0 < k < |Encode(c)|
    ensures ParseCommand(Encode(c)[..k]) == Short
  {
    hide LineLength, Atoi, Decimal, ParseBulk, Bulks;
    Small(|c|);
    var head := Count('*', |c|);
    if k < |head| {
      CountCut('*', |c|, k);
      var r := head[..k];
      assert Encode(c)[..k] == r;
      assert r[1..k] == r[1..] && r[k..] == [];
      if k >= 2 {
        NothingLeft(Atoi(r[1..]));
      }
    } else {
      var rest := Bulks(c)[..k - |head|];
      CountLine('*', |c|, rest);
      DecimalDigits(|c|);
      assert Encode(c)[..k] == head + rest;
      assert (head + rest)[1] == Decimal(|c|)[0];
      BulksCut(c, k - |head|);
    }
  }
}
