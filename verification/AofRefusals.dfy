/** Logs the loader gives up on, whatever it may truncate; and logs with a transaction, closed or left open. */
module AofRefusals {
  import opened Common
  import opened Resp
  import opened AofLoad
  import opened AofRecovery

  // --------------------------------------------------------------------------
  // What does not parse
  // --------------------------------------------------------------------------

  /** A line that starts a command with the given text for its count. */
  function CountText(a: Bytes): Bytes {
    "*" + a + "\r\n"
  }

  /** A number below one as it would be printed. */
  function NotPositive(n: nat): Bytes {
    if n == 0 then "0" else "-" + Decimal(n)
  }

  lemma BadCount(a: Bytes, t: Bytes)
    requires '\n' !in a && |a| + 3 <= FGETS_ROOM && Atoi(a + "\r\n") < 1
    ensures ParseCommand(CountText(a) + t) == Malformed
  {
    hide LineLength, Atoi, ParseBulks;
    var h, r := "*" + a + "\r", CountText(a) + t;
    assert r == h + ['\n'] + t;
    LineWhole(h, t, FGETS_ROOM);
    assert r[1..|h| + 1] == a + "\r\n";
  }

  lemma ReadsNotPositive(n: nat)
    requires n < 0x8000_0000
    ensures var a := NotPositive(n); '\n' !in a && |a| + 3 <= FGETS_ROOM && Atoi(a + "\r\n") < 1
  {
    hide Decimal;
    Small(n);
    DecimalLength(n, 19);
    DecimalDigits(n);
    if n == 0 {
      assert "0\r\n"[1..] == "\r\n";
      assert DigitsValue("0\r\n", 0) == DigitsValue("\r\n", 0);
    }
  }

  /** The first argument that does not parse spoils the command. */
  lemma {:induction false} BadBulk(count: nat, args: seq<Bytes>, u: Bytes)
    requires |args| < count && forall a | a in args :: |a| < 0x8000_0000_0000_0000
    requires ParseBulk(u) == Malformed
    ensures ParseBulks(count, Bulks(args) + u) == Malformed
    decreases |args|
  {
    hide Bulk, ParseBulk;
    if args == [] {
      assert Bulks(args) + u == u;
    } else {
      assert Bulks(args) + u == Bulk(args[0]) + (Bulks(args[1..]) + u);
      BulkWhole(args[0], Bulks(args[1..]) + u);
      BadBulk(count - 1, args[1..], u);
    }
  }

  lemma BadArgument(count: nat, args: seq<Bytes>, u: Bytes)
    requires |args| < count < 0x8000_0000 && forall a | a in args :: |a| < 0x8000_0000_0000_0000
    requires ParseBulk(u) == Malformed
    ensures ParseCommand(Count('*', count) + Bulks(args) + u) == Malformed
  {
    hide LineLength, Atoi, ParseBulks, Bulks, Decimal, ParseBulk;
    Small(count);
    CountLine('*', count, Bulks(args) + u);
    DecimalDigits(count);
    var r := Count('*', count) + Bulks(args) + u;
    assert r == Count('*', count) + (Bulks(args) + u);
    assert r[1] == Decimal(count)[0];
    BadBulk(count, args, u);
  }

  lemma NegativeLength(n: nat, u: Bytes)
    requires 0 < n < 0x8000_0000_0000_0000
    ensures ParseBulk("$-" + Decimal(n) + "\r\n" + u) == Malformed
  {
    hide LineLength, Decimal, DigitsValue;
    Small(n);
    DecimalLength(n, 19);
    DecimalDigits(n);
    var h, r := "$-" + Decimal(n) + "\r", "$-" + Decimal(n) + "\r\n" + u;
    assert r == h + ['\n'] + u;
    LineWhole(h, u, FGETS_ROOM);
    var line := r[1..|h| + 1];
    assert line[1..] == Decimal(n) + "\r\n";
    DecimalValue(n, "\r\n");
  }

  // --------------------------------------------------------------------------
  // A log followed by such bytes
  // --------------------------------------------------------------------------

  /** The loader gives up at t: it is no command, or one the server does not have. */
  predicate Fails(o: Options, t: Bytes) {
    t != [] && match ParseCommand(t) case Malformed => true case Short => false case Got(c, _) => !Known(o.table, c)
  }

  lemma {:induction false} FailsAfter(
    f: Bytes, pos: nat, fc: Client, validUpTo: nat, beforeMulti: nat, cs: seq<Command>, t: Bytes, o: Options)
    requires Replayable(o, cs) && Fails(o, t)
    requires validUpTo <= pos <= |f| && beforeMulti <= pos && f[pos..] == EncodeAll(cs) + t
    ensures LoadFrom(f, pos, fc, validUpTo, beforeMulti, o) == Fatal
    decreases |cs|
  {
    hide ParseCommand, Encode, Run, IsMulti, Known, UnexpectedEnd;
    if cs == [] {
      assert f[pos..] == t;
    } else {
      var c, more := cs[0], EncodeAll(cs[1..]) + t;
      assert f[pos..] == Encode(c) + more;
      CommandWhole(c, more);
      EncodingIsNotEmpty(c);
      var pos' := pos + |Encode(c)|;
      assert f[pos'..] == f[pos..][|Encode(c)|..] == more;
      FailsAfter(f, pos', Run(fc, c), if o.loadTruncated then pos' else validUpTo,
                 if IsMulti(c) then validUpTo else beforeMulti, cs[1..], t, o);
    }
  }

  lemma {:induction false} RefusedAfter(cs: seq<Command>, t: Bytes, o: Options)
    requires Replayable(o, cs) && Fails(o, t) && !("REDIS" <= EncodeAll(cs) + t)
    ensures Load(EncodeAll(cs) + t, o) == Fatal
  {
    hide EncodeAll, LoadFrom, Fails;
    var f := EncodeAll(cs) + t;
    assert t != [] by { FailingIsNotEmpty(o, t); }
    assert f[0..] == f;
    FailsAfter(f, 0, FRESH, 0, 0, cs, t, o);
  }

  lemma FailingIsNotEmpty(o: Options, t: Bytes)
    requires Fails(o, t)
    ensures t != []
  {
  }

  lemma {:induction false} NoPreamble(cs: seq<Command>, t: Bytes)
    requires t != [] && (cs != [] || t[0] == '*')
    ensures !("REDIS" <= EncodeAll(cs) + t)
  {
    hide EncodeAll;
    var f := EncodeAll(cs) + t;
    if cs != [] {
      LogIsNotEmpty(cs);
      StartsWithStar(cs, |EncodeAll(cs)|);
      assert EncodeAll(cs)[..|EncodeAll(cs)|] == EncodeAll(cs);
    } else {
      NothingEncoded();
    }
    assert f[0] == '*' && "REDIS"[0] == 'R';
  }

  /** Whole commands followed by bytes that do not start one: a format error, never a truncation. */
  lemma {:induction false} StrayBytesRefused(cs: seq<Command>, t: Bytes, o: Options)
    requires Replayable(o, cs) && t != [] && t[0] != '*' && !("REDIS" <= EncodeAll(cs) + t)
    ensures Load(EncodeAll(cs) + t, o) == Fatal
  {
    hide EncodeAll, Load;
    RefusedAfter(cs, t, o);
  }

  /** Whatever stands in the first line of a command: its number, if it has one, is below one. */
  lemma {:induction false} BadLineRefused(cs: seq<Command>, t: Bytes, o: Options)
    requires Replayable(o, cs) && |t| >= 2 && t[0] == '*' && t[1] != '\0'
    requires Atoi(t[1..LineLength(t, FGETS_ROOM)]) < 1
    ensures Load(EncodeAll(cs) + t, o) == Fatal
  {
    hide EncodeAll, Load, Atoi;
    NoPreamble(cs, t);
    assert ParseCommand(t) == Malformed;
    RefusedAfter(cs, t, o);
  }

  /** A command that announces no arguments, or fewer than none. */
  lemma {:induction false} BadCountRefused(cs: seq<Command>, n: nat, u: Bytes, o: Options)
    requires Replayable(o, cs) && n < 0x8000_0000
    ensures Load(EncodeAll(cs) + (CountText(NotPositive(n)) + u), o) == Fatal
  {
    hide EncodeAll, Load, ParseCommand, NotPositive;
    var t := CountText(NotPositive(n)) + u;
    ReadsNotPositive(n);
    BadCount(NotPositive(n), u);
    assert t[0] == '*';
    NoPreamble(cs, t);
    RefusedAfter(cs, t, o);
  }

  /** A command with an argument that does not start with a dollar sign, after any number of good ones. */
  lemma {:induction false} BadArgumentRefused(
    cs: seq<Command>, count: nat, args: seq<Bytes>, u: Bytes, o: Options)
    requires Replayable(o, cs) && |args| < count < 0x8000_0000
    requires (forall a | a in args :: |a| < 0x8000_0000_0000_0000) && u != [] && u[0] != '$'
    ensures Load(EncodeAll(cs) + (Count('*', count) + Bulks(args) + u), o) == Fatal
  {
    hide EncodeAll, Load, ParseCommand, Bulks, Decimal;
    var t := Count('*', count) + Bulks(args) + u;
    BadArgument(count, args, u);
    assert t[0] == '*';
    NoPreamble(cs, t);
    RefusedAfter(cs, t, o);
  }

  /** A command with an argument of negative length. */
  lemma {:induction false} NegativeLengthRefused(
    cs: seq<Command>, count: nat, args: seq<Bytes>, n: nat, u: Bytes, o: Options)
    requires Replayable(o, cs) && |args| < count < 0x8000_0000 && 0 < n < 0x8000_0000_0000_0000
    requires forall a | a in args :: |a| < 0x8000_0000_0000_0000
    ensures Load(EncodeAll(cs) + (Count('*', count) + Bulks(args) + ("$-" + Decimal(n) + "\r\n" + u)), o) == Fatal
  {
    hide EncodeAll, Load, ParseCommand, ParseBulk, Bulks, Decimal;
    var u' := "$-" + Decimal(n) + "\r\n" + u;
    var t := Count('*', count) + Bulks(args) + u';
    NegativeLength(n, u);
    BadArgument(count, args, u');
    assert t[0] == '*';
    NoPreamble(cs, t);
    RefusedAfter(cs, t, o);
  }

  /** A command the server does not have. */
  lemma {:induction false} UnknownCommandRefused(cs: seq<Command>, c: Command, u: Bytes, o: Options)
    requires Replayable(o, cs) && Encodable(c) && Lower(c[0]) !in o.table
    ensures Load(EncodeAll(cs) + (Encode(c) + u), o) == Fatal
  {
    hide EncodeAll, Load, ParseCommand, Bulks, Decimal, Lower;
    var t := Encode(c) + u;
    CommandWhole(c, u);
    assert t[0] == '*';
    NoPreamble(cs, t);
    RefusedAfter(cs, t, o);
  }

  // --------------------------------------------------------------------------
  // Transactions
  // --------------------------------------------------------------------------

  lemma {:induction false} EndsInMulti(
    f: Bytes, pos: nat, fc: Client, validUpTo: nat, beforeMulti: nat, cs: seq<Command>, o: Options)
    requires Replayable(o, cs) && !(o.loadTruncated && o.truncateWorks) && RunAll(fc, cs).queue.Some?
    requires validUpTo <= pos <= |f| && beforeMulti <= pos && f[pos..] == EncodeAll(cs)
    ensures LoadFrom(f, pos, fc, validUpTo, beforeMulti, o) == Fatal
    decreases |cs|
  {
    hide ParseCommand, Encode, Run, IsMulti, Known;
    if cs == [] {
      assert pos == |f|;
    } else {
      var c := cs[0];
      CommandWhole(c, EncodeAll(cs[1..]));
      EncodingIsNotEmpty(c);
      var pos' := pos + |Encode(c)|;
      assert f[pos'..] == f[pos..][|Encode(c)|..] == EncodeAll(cs[1..]);
      EndsInMulti(f, pos', Run(fc, c), if o.loadTruncated then pos' else validUpTo,
                  if IsMulti(c) then validUpTo else beforeMulti, cs[1..], o);
    }
  }

  /** Without leave to truncate, or when truncating fails, a log that ends inside a transaction is refused. */
  lemma {:induction false} OpenLogIsRefused(cs: seq<Command>, o: Options)
    requires Replayable(o, cs) && InMulti(cs) && !(o.loadTruncated && o.truncateWorks)
    ensures Load(EncodeAll(cs), o) == Fatal
  {
    hide EncodeAll, LoadFrom, RunAll;
    var f := EncodeAll(cs);
    assert cs != [] by { NothingRuns(FRESH); }
    LogIsNotEmpty(cs);
    StartsWithStar(cs, |f|);
    assert f[..|f|] == f && f[0..] == f;
    EndsInMulti(f, 0, FRESH, 0, 0, cs, o);
  }

  lemma TransactionNames()
    ensures Lower("MULTI") == "multi" && Lower("EXEC") == "exec"
    ensures IsMulti(["MULTI"]) && !IsExec(["MULTI"]) && IsExec(["EXEC"])
  {
    assert Lower("MULTI") == "multi" && Lower("EXEC") == "exec";
    assert "multi"[0] != "exec"[0];
  }

  /** MULTI, any commands but MULTI and EXEC, and EXEC, after what leaves no transaction open. */
  lemma {:induction false} TransactionRuns(fc: Client, cs: seq<Command>)
    requires fc.queue.None? && forall c | c in cs :: Plain(c)
    ensures RunAll(fc, [["MULTI"]] + cs + [["EXEC"]]) == Client(fc.done + cs, None)
  {
    hide RunAll, Lower, Plain;
    TransactionNames();
    var open := fc.(queue := Some([]));
    RunAllConcat(fc, [["MULTI"]], cs);
    RunAllSnoc(fc, [], ["MULTI"]);
    NothingRuns(fc);
    assert [] + [["MULTI"]] == [["MULTI"]];
    PlainRun(open, cs);
    assert [] + cs == cs;
    RunAllSnoc(fc, [["MULTI"]] + cs, ["EXEC"]);
  }

  /** A log that ends with a literal transaction executes what it encloses, after the rest. */
  lemma {:induction false} TransactionLoads(pre: seq<Command>, cs: seq<Command>, o: Options)
    requires !InMulti(pre) && (forall c | c in cs :: Plain(c)) && Replayable(o, pre) && Replayable(o, cs)
    requires {"multi", "exec"} <= o.table
    ensures var log := EncodeAll(pre + ([["MULTI"]] + cs + [["EXEC"]]));
            Load(log, o) == Loaded(log, RunAll(FRESH, pre).done + cs)
  {
    hide EncodeAll, Load, RunAll, Lower, Plain;
    TransactionNames();
    var body := [["MULTI"]] + cs + [["EXEC"]];
    TransactionRuns(RunAll(FRESH, pre), cs);
    RunAllConcat(FRESH, pre, body);
    assert forall c | c in pre + body :: c in pre || c in cs || c == ["MULTI"] || c == ["EXEC"];
    WholeLogLoads(pre + body, o);
  }
}
