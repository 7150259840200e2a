/** What loading a log cut at any byte recovers, and when later appends survive the next load. */
module AofRecovery {
  import opened Common
  import opened Resp
  import opened AofLoad

  /** How many whole commands the first k bytes of the log hold. */
  function Whole(cs: seq<Command>, k: nat): (m: nat)
    ensures m <= |cs|
    decreases |cs|
  {
    if cs == [] || k < |Encode(cs[0])| then 0 else 1 + Whole(cs[1..], k - |Encode(cs[0])|)
  }

  predicate Replayable(o: Options, cs: seq<Command>) {
    forall c | c in cs :: Encodable(c) && Known(o.table, c)
  }

  predicate Plain(c: Command) {
    !IsMulti(c) && !IsExec(c)
  }

  // --------------------------------------------------------------------------
  // Encoded logs
  // --------------------------------------------------------------------------

  lemma {:induction false} EncodeAllConcat(a: seq<Command>, b: seq<Command>)
    ensures EncodeAll(a + b) == EncodeAll(a) + EncodeAll(b)
    decreases |a|
  {
    hide Encode;
    if a == [] {
      assert a + b == b;
    } else {
      assert (a + b)[1..] == a[1..] + b;
      EncodeAllConcat(a[1..], b);
    }
  }

  lemma {:induction false} PrefixOfLog(cs: seq<Command>, m: nat)
    requires m <= |cs|
    ensures EncodeAll(cs) == EncodeAll(cs[..m]) + EncodeAll(cs[m..])
  {
    hide EncodeAll;
    EncodeAllConcat(cs[..m], cs[m..]);
    assert cs == cs[..m] + cs[m..];
  }

  /** Whole finds the longest prefix of whole commands. */
  lemma {:induction false} WholeIsLongest(cs: seq<Command>, k: nat)
    requires k <= |EncodeAll(cs)|
    ensures var m := Whole(cs, k);
            && |EncodeAll(cs[..m])| <= k
            && forall i | m < i <= |cs| :: k < |EncodeAll(cs[..i])|
    decreases |cs|
  {
    hide Encode;
    if cs != [] && k >= |Encode(cs[0])| {
      var k' := k - |Encode(cs[0])|;
      WholeIsLongest(cs[1..], k');
      forall i | 1 <= i <= |cs| ensures EncodeAll(cs[..i]) == Encode(cs[0]) + EncodeAll(cs[1..][..i - 1]) {
        assert cs[..i][1..] == cs[1..][..i - 1];
      }
    } else {
      assert forall i | 0 < i <= |cs| :: cs[..i][0] == cs[0];
    }
  }

  // --------------------------------------------------------------------------
  // The loader's progress over whole commands
  // --------------------------------------------------------------------------

  datatype Progress = Progress(fc: Client, validUpTo: nat, beforeMulti: nat)

  function Pass(p: Progress, c: Command): Progress {
    Progress(Run(p.fc, c), p.validUpTo + |Encode(c)|, if IsMulti(c) then p.validUpTo else p.beforeMulti)
  }

  function PassAll(p: Progress, cs: seq<Command>): Progress
    decreases |cs|
  {
    if cs == [] then p else PassAll(Pass(p, cs[0]), cs[1..])
  }

  /** How the load ends when the whole commands are used up. */
  function Ending(f: Bytes, p: Progress, o: Options): Result
    requires p.validUpTo <= |f| && p.beforeMulti <= |f|
  {
    if p.validUpTo == |f| then
      if p.fc.queue.Some? then UnexpectedEnd(f, p.beforeMulti, p.fc, o) else Loaded(f, p.fc.done)
    else UnexpectedEnd(f, p.validUpTo, p.fc, o)
  }

  /** From anywhere in a cut log, the loader passes the whole commands and then ends. */
  lemma {:induction false} LoadsWholeCommands(f: Bytes, p: Progress, cs: seq<Command>, k: nat, o: Options)
    requires o.loadTruncated && Replayable(o, cs) && k <= |EncodeAll(cs)|
    requires p.beforeMulti <= p.validUpTo <= |f| && f[p.validUpTo..] == EncodeAll(cs)[..k]
    ensures var q := PassAll(p, cs[..Whole(cs, k)]);
            && q.beforeMulti <= q.validUpTo <= |f|
            && LoadFrom(f, p.validUpTo, p.fc, p.validUpTo, p.beforeMulti, o) == Ending(f, q, o)
    decreases |cs|
  {
    hide ParseCommand, Encode, Run, IsMulti, Known, UnexpectedEnd;
    if k == 0 {
      assert Whole(cs, k) == 0 by {
        if cs != [] { EncodingIsNotEmpty(cs[0]); }
      }
      assert p.validUpTo == |f|;
    } else {
      var c, rest := cs[0], f[p.validUpTo..];
      var len := |Encode(c)|;
      if k < len {
        assert EncodeAll(cs)[..k] == Encode(c)[..k];
        CommandCut(c, k);
      } else {
        assert EncodeAll(cs)[..k] == Encode(c) + EncodeAll(cs[1..])[..k - len];
        CommandWhole(c, EncodeAll(cs[1..])[..k - len]);
        EncodingIsNotEmpty(c);
        var p' := Pass(p, c);
        assert f[p'.validUpTo..] == rest[len..];
        LoadsWholeCommands(f, p', cs[1..], k - len, o);
        assert cs[..Whole(cs, k)][1..] == cs[1..][..Whole(cs[1..], k - len)];
      }
    }
  }

  lemma EncodingIsNotEmpty(c: Command)
    ensures |Encode(c)| > 1
  {
  }

  // --------------------------------------------------------------------------
  // What is recovered
  // --------------------------------------------------------------------------

  /** The position of the last MULTI. */
  function LastMulti(cs: seq<Command>): (i: nat)
    ensures i <= |cs|
  {
    if cs == [] then 0
    else if IsMulti(cs[|cs| - 1]) then |cs| - 1
    else LastMulti(cs[..|cs| - 1])
  }

  predicate InMulti(cs: seq<Command>) {
    RunAll(FRESH, cs).queue.Some?
  }

  /** The cut falls inside a command. */
  predicate CutsCommand(cs: seq<Command>, k: nat) {
    k > |EncodeAll(cs[..Whole(cs, k)])|
  }

  /** How many commands the file still holds after the load. */
  function Kept(cs: seq<Command>, k: nat): (n: nat)
    ensures n <= Whole(cs, k) <= |cs|
  {
    var whole := cs[..Whole(cs, k)];
    if InMulti(whole) && !CutsCommand(cs, k) then LastMulti(whole) else |whole|
  }

  lemma {:induction false} RunAllSnoc(fc: Client, cs: seq<Command>, c: Command)
    ensures RunAll(fc, cs + [c]) == Run(RunAll(fc, cs), c)
    decreases |cs|
  {
    hide Run;
    if cs == [] {
      assert cs + [c] == [c];
    } else {
      assert (cs + [c])[1..] == cs[1..] + [c];
      RunAllSnoc(Run(fc, cs[0]), cs[1..], c);
    }
  }

  lemma {:induction false} PassAllSnoc(p: Progress, cs: seq<Command>, c: Command)
    ensures PassAll(p, cs + [c]) == Pass(PassAll(p, cs), c)
    decreases |cs|
  {
    hide Pass;
    if cs == [] {
      assert cs + [c] == [c];
    } else {
      assert (cs + [c])[1..] == cs[1..] + [c];
      PassAllSnoc(Pass(p, cs[0]), cs[1..], c);
    }
  }

  /** Progress from the start, in terms of the log itself. */
  lemma {:induction false} PassedWhole(cs: seq<Command>)
    ensures PassAll(Progress(FRESH, 0, 0), cs) ==
              Progress(RunAll(FRESH, cs), |EncodeAll(cs)|, |EncodeAll(cs[..LastMulti(cs)])|)
    decreases |cs|
  {
    hide Encode, Run, IsMulti;
    if cs != [] {
      var init, c := cs[..|cs| - 1], cs[|cs| - 1];
      assert cs == init + [c];
      PassedWhole(init);
      PassAllSnoc(Progress(FRESH, 0, 0), init, c);
      RunAllSnoc(FRESH, init, c);
      EncodeAllConcat(init, [c]);
      assert EncodeAll([c]) == Encode(c) + EncodeAll([]) == Encode(c);
      assert LastMulti(cs) <= |init| && cs[..LastMulti(cs)] == init[..LastMulti(cs)];
      assert init[..|init|] == init;
    }
  }

  lemma {:induction false} PrefixInCutLog(cs: seq<Command>, k: nat, m: nat)
    requires k <= |EncodeAll(cs)| && m <= |cs| && |EncodeAll(cs[..m])| <= k
    ensures EncodeAll(cs)[..k][..|EncodeAll(cs[..m])|] == EncodeAll(cs[..m])
  {
    hide EncodeAll;
    PrefixOfLog(cs, m);
  }

  /**
   Loading the first k bytes of a log executes exactly its longest prefix of whole commands
   (those of a transaction left open excepted), and cuts the file back to whole commands.
   */
  lemma {:induction false} RecoversLongestPrefix(cs: seq<Command>, k: nat, o: Options)
    requires Replayable(o, cs) && 0 < k <= |EncodeAll(cs)| && o.loadTruncated && o.truncateWorks
    ensures Load(EncodeAll(cs)[..k], o) ==
              Loaded(EncodeAll(cs[..Kept(cs, k)]), RunAll(FRESH, cs[..Whole(cs, k)]).done)
  {
    hide EncodeAll, LoadFrom, RunAll, PassAll, Whole, LastMulti;
    var f, m := EncodeAll(cs)[..k], Whole(cs, k);
    var whole := cs[..m];
    assert !("REDIS" <= f) by { StartsWithStar(cs, k); }
    assert f[0..] == f;
    LoadsWholeCommands(f, Progress(FRESH, 0, 0), cs, k, o);
    PassedWhole(whole);
    WholeIsLongest(cs, k);
    PrefixInCutLog(cs, k, m);
    var t := LastMulti(whole);
    assert whole[..t] == cs[..t];
    PrefixOfLog(whole, t);
    PrefixInCutLog(cs, k, t);
    assert f[..|f|] == f;
  }

  lemma {:induction false} StartsWithStar(cs: seq<Command>, k: nat)
    requires 0 < k <= |EncodeAll(cs)|
    ensures EncodeAll(cs)[..k][0] == '*'
  {
  }

  lemma {:induction false} PlainRun(fc: Client, cs: seq<Command>)
    requires forall c | c in cs :: Plain(c)
    ensures RunAll(fc, cs) ==
              if fc.queue.None? then fc.(done := fc.done + cs) else fc.(queue := Some(fc.queue.value + cs))
    decreases |cs|
  {
    if cs == [] {
      assert fc.done + cs == fc.done;
      assert fc.queue.Some? ==> fc.queue.value + cs == fc.queue.value;
    } else {
      assert Plain(cs[0]);
      PlainRun(Run(fc, cs[0]), cs[1..]);
      assert fc.done + [cs[0]] + cs[1..] == fc.done + cs;
      assert fc.queue.Some? ==> fc.queue.value + [cs[0]] + cs[1..] == fc.queue.value + cs;
    }
  }

  /** The commands other than MULTI and EXEC. */
  function PlainPart(cs: seq<Command>): seq<Command> {
    if cs == [] then [] else (if Plain(cs[0]) then [cs[0]] else []) + PlainPart(cs[1..])
  }

  function Queued(fc: Client): seq<Command> {
    if fc.queue.Some? then fc.queue.value else []
  }

  /** No MULTI arrives inside a transaction. */
  predicate Flat(fc: Client, cs: seq<Command>)
    decreases |cs|
  {
    cs == [] || (!(IsMulti(cs[0]) && fc.queue.Some?) && Flat(Run(fc, cs[0]), cs[1..]))
  }

  /** Transactions that are not nested execute and queue just what they enclose, in order. */
  lemma {:induction false} RunIsPlain(fc: Client, cs: seq<Command>)
    requires Flat(fc, cs)
    ensures var r := RunAll(fc, cs); r.done + Queued(r) == fc.done + Queued(fc) + PlainPart(cs)
    decreases |cs|
  {
    hide IsMulti, IsExec;
    if cs == [] {
      assert fc.done + Queued(fc) + [] == fc.done + Queued(fc);
    } else {
      var c, fc' := cs[0], Run(fc, cs[0]);
      RunIsPlain(fc', cs[1..]);
      assert fc'.done + Queued(fc') == fc.done + Queued(fc) + if Plain(c) then [c] else [];
      assert fc.done + Queued(fc) + (if Plain(c) then [c] else []) + PlainPart(cs[1..]) ==
             fc.done + Queued(fc) + ((if Plain(c) then [c] else []) + PlainPart(cs[1..]));
    }
  }

  /** What is queued does not depend on what was executed before. */
  lemma {:induction false} QueueAlone(fc: Client, done: seq<Command>, cs: seq<Command>)
    ensures RunAll(fc.(done := done), cs).queue == RunAll(fc, cs).queue
    ensures Flat(fc.(done := done), cs) <==> Flat(fc, cs)
    decreases |cs|
  {
    if cs != [] {
      QueueAlone(Run(fc, cs[0]), Run(fc.(done := done), cs[0]).done, cs[1..]);
    }
  }

  /** Without transactions: exactly the longest prefix of whole commands, executed and kept. */
  lemma {:induction false} RecoversPlainPrefix(cs: seq<Command>, k: nat, o: Options)
    requires Replayable(o, cs) && 0 < k <= |EncodeAll(cs)| && o.loadTruncated && o.truncateWorks
    requires forall c | c in cs :: Plain(c)
    ensures var whole := cs[..Whole(cs, k)];
            Load(EncodeAll(cs)[..k], o) == Loaded(EncodeAll(whole), whole)
  {
    hide EncodeAll, Load, RunAll, Whole, LastMulti, Plain;
    var whole := cs[..Whole(cs, k)];
    RecoversLongestPrefix(cs, k, o);
    PlainRun(FRESH, whole);
    assert [] + whole == whole && cs[..|whole|] == whole;
  }

  // --------------------------------------------------------------------------
  // Whatever the options
  // --------------------------------------------------------------------------

  /** A log that is whole and outside any transaction loads entirely, truncation allowed or not. */
  lemma {:induction false} LoadsToEnd(
    f: Bytes, pos: nat, fc: Client, validUpTo: nat, beforeMulti: nat, cs: seq<Command>, o: Options)
    requires Replayable(o, cs) && validUpTo <= pos <= |f| && beforeMulti <= pos && f[pos..] == EncodeAll(cs)
    requires RunAll(fc, cs).queue.None?
    ensures LoadFrom(f, pos, fc, validUpTo, beforeMulti, o) == Loaded(f, RunAll(fc, cs).done)
    decreases |cs|
  {
    hide ParseCommand, Encode, Run, IsMulti, Known, UnexpectedEnd;
    if cs == [] {
      assert pos == |f|;
    } else {
      var c := cs[0];
      CommandWhole(c, EncodeAll(cs[1..]));
      EncodingIsNotEmpty(c);
      var pos' := pos + |Encode(c)|;
      assert f[pos'..] == f[pos..][|Encode(c)|..] == EncodeAll(cs[1..]);
      LoadsToEnd(f, pos', Run(fc, c), if o.loadTruncated then pos' else validUpTo,
                 if IsMulti(c) then validUpTo else beforeMulti, cs[1..], o);
    }
  }

  lemma {:induction false} WholeLogLoads(cs: seq<Command>, o: Options)
    requires Replayable(o, cs) && cs != [] && !InMulti(cs)
    ensures Load(EncodeAll(cs), o) == Loaded(EncodeAll(cs), RunAll(FRESH, cs).done)
  {
    hide EncodeAll, LoadFrom, RunAll;
    var f := EncodeAll(cs);
    LogIsNotEmpty(cs);
    StartsWithStar(cs, |f|);
    assert f[..|f|] == f && f[0..] == f;
    LoadsToEnd(f, 0, FRESH, 0, 0, cs, o);
  }

  lemma CutStays(cs: seq<Command>, k: nat)
    requires CutsCommand(cs, k) && cs != [] && k >= |Encode(cs[0])|
    ensures CutsCommand(cs[1..], k - |Encode(cs[0])|)
  {
    hide Encode;
    var len := |Encode(cs[0])|;
    var m := Whole(cs[1..], k - len);
    assert Whole(cs, k) == m + 1;
    assert cs[..m + 1][1..] == cs[1..][..m];
  }

  /** Without leave to truncate, or when truncating fails, a log cut inside a command is refused. */
  lemma {:induction false} CutIsRefused(
    f: Bytes, pos: nat, fc: Client, validUpTo: nat, beforeMulti: nat, cs: seq<Command>, k: nat, o: Options)
    requires !(o.loadTruncated && o.truncateWorks) && Replayable(o, cs) && k <= |EncodeAll(cs)| && CutsCommand(cs, k)
    requires validUpTo <= pos <= |f| && beforeMulti <= pos && f[pos..] == EncodeAll(cs)[..k]
    ensures LoadFrom(f, pos, fc, validUpTo, beforeMulti, o) == Fatal
    decreases |cs|
  {
    hide ParseCommand, Encode, Run, IsMulti, Known;
    if cs != [] {
      var c := cs[0];
      var len := |Encode(c)|;
      if k < len {
        assert EncodeAll(cs)[..k] == Encode(c)[..k];
        assert k > 0;
        CommandCut(c, k);
      } else {
        CutStays(cs, k);
        var rest := EncodeAll(cs[1..])[..k - len];
        assert EncodeAll(cs)[..k] == Encode(c) + rest;
        CommandWhole(c, rest);
        EncodingIsNotEmpty(c);
        var pos' := pos + len;
        assert f[pos'..] == f[pos..][len..] == rest;
        CutIsRefused(f, pos', Run(fc, c), if o.loadTruncated then pos' else validUpTo,
                     if IsMulti(c) then validUpTo else beforeMulti, cs[1..], k - len, o);
      }
    }
  }

  lemma {:induction false} CutLogIsRefused(cs: seq<Command>, k: nat, o: Options)
    requires Replayable(o, cs) && 0 < k <= |EncodeAll(cs)| && CutsCommand(cs, k)
    requires !(o.loadTruncated && o.truncateWorks)
    ensures Load(EncodeAll(cs)[..k], o) == Fatal
  {
    hide EncodeAll, LoadFrom, CutsCommand;
    var f := EncodeAll(cs)[..k];
    StartsWithStar(cs, k);
    assert f[0..] == f;
    CutIsRefused(f, 0, FRESH, 0, 0, cs, k, o);
  }

  // --------------------------------------------------------------------------
  // Appending after a recovery
  // --------------------------------------------------------------------------

  /** No MULTI is written inside a transaction. */
  predicate NotNested(cs: seq<Command>) {
    forall i | 0 <= i < |cs| && IsMulti(cs[i]) :: !InMulti(cs[..i])
  }

  lemma {:induction false} RunAllConcat(fc: Client, a: seq<Command>, b: seq<Command>)
    ensures RunAll(fc, a + b) == RunAll(RunAll(fc, a), b)
    decreases |a|
  {
    hide Run;
    if a == [] {
      assert a + b == b;
    } else {
      assert (a + b)[1..] == a[1..] + b;
      RunAllConcat(Run(fc, a[0]), a[1..], b);
    }
  }

  /** Before the last MULTI of an open transaction nothing is open. */
  lemma {:induction false} LastMultiOpens(cs: seq<Command>)
    requires NotNested(cs) && InMulti(cs)
    ensures !InMulti(cs[..LastMulti(cs)]) && RunAll(FRESH, cs[..LastMulti(cs)]).done == RunAll(FRESH, cs).done
    decreases |cs|
  {
    hide IsMulti, IsExec;
    if cs != [] {
      var init, c := cs[..|cs| - 1], cs[|cs| - 1];
      assert cs == init + [c];
      RunAllSnoc(FRESH, init, c);
      if IsMulti(c) {
        assert cs[..|cs| - 1] == init;
      } else {
        assert forall i | 0 <= i < |init| :: init[..i] == cs[..i];
        LastMultiOpens(init);
        assert init[..LastMulti(init)] == cs[..LastMulti(cs)];
      }
    }
  }

  /** The recovered file ends inside a transaction exactly when the cut fell inside a command inside one. */
  lemma {:induction false} OpenAfterRecovery(cs: seq<Command>, k: nat)
    requires NotNested(cs)
    ensures InMulti(cs[..Kept(cs, k)]) <==> InMulti(cs[..Whole(cs, k)]) && CutsCommand(cs, k)
    ensures RunAll(FRESH, cs[..Kept(cs, k)]).done == RunAll(FRESH, cs[..Whole(cs, k)]).done
  {
    hide RunAll, EncodeAll, Whole, LastMulti;
    var whole := cs[..Whole(cs, k)];
    assert cs[..|whole|] == whole;
    if InMulti(whole) && !CutsCommand(cs, k) {
      assert forall i | 0 <= i < |whole| :: whole[..i] == cs[..i];
      LastMultiOpens(whole);
      assert whole[..LastMulti(whole)] == cs[..LastMulti(whole)];
    }
  }

  /** Commands appended to a log are all executed by the next load exactly when it ends outside a transaction. */
  lemma {:induction false} AppendsSurviveIffClosed(kept: seq<Command>, more: seq<Command>, o: Options)
    requires Replayable(o, kept) && Replayable(o, more) && more != [] && o.loadTruncated && o.truncateWorks
    requires forall c | c in more :: Plain(c)
    ensures var log := EncodeAll(kept) + EncodeAll(more);
            Load(log, o) == Loaded(log, RunAll(FRESH, kept).done + more) <==> !InMulti(kept)
  {
    hide EncodeAll, Load, RunAll, Whole, LastMulti, Plain, Encode;
    var cs := kept + more;
    EncodeAllConcat(kept, more);
    LogIsNotEmpty(cs);
    var k := |EncodeAll(cs)|;
    assert EncodeAll(cs)[..k] == EncodeAll(cs);
    assert forall c | c in cs :: c in kept || c in more;
    RecoversLongestPrefix(cs, k, o);
    WholeIsLongest(cs, k);
    assert cs[..|cs|] == cs;
    assert Whole(cs, k) == |cs|;
    RunAllConcat(FRESH, kept, more);
    PlainRun(RunAll(FRESH, kept), more);
  }

  lemma {:induction false} LogIsNotEmpty(cs: seq<Command>)
    requires cs != []
    ensures |EncodeAll(cs)| > 0
  {
  }

  /**
   After recovering from a cut at byte k, the next load executes what was recovered and then
   whatever was appended since, exactly when the cut did not fall inside a command inside a
   transaction: in that case the loader
   keeps the open MULTI in the file and the appended commands end up queued behind it.
   */
  lemma {:induction false} RecoveryIsSafeIff(cs: seq<Command>, k: nat, more: seq<Command>, o: Options)
    requires Replayable(o, cs) && 0 < k <= |EncodeAll(cs)| && o.loadTruncated && o.truncateWorks && NotNested(cs)
    requires Replayable(o, more) && more != [] && forall c | c in more :: Plain(c)
    ensures var r := Load(EncodeAll(cs)[..k], o);
            && r.Loaded?
            && var log := r.file + EncodeAll(more);
               Load(log, o) == Loaded(log, r.done + more) <==>
               !(InMulti(cs[..Whole(cs, k)]) && CutsCommand(cs, k))
  {
    hide EncodeAll, Load, RunAll, Whole, LastMulti, Plain, InMulti, CutsCommand, Kept;
    RecoversLongestPrefix(cs, k, o);
    var kept := cs[..Kept(cs, k)];
    assert forall c | c in kept :: c in cs;
    AppendsSurviveIffClosed(kept, more, o);
    OpenAfterRecovery(cs, k);
  }

  lemma EncodeOne(c: Command)
    ensures EncodeAll([c]) == Encode(c)
  {
    hide Encode;
    assert [c][1..] == [];
    assert Encode(c) + [] == Encode(c);
  }

  lemma EncodeTwo(b: Command, c: Command)
    ensures EncodeAll([b, c]) == Encode(b) + Encode(c)
  {
    hide Encode, EncodeAll;
    EncodeOne(b);
    EncodeOne(c);
    EncodeAllConcat([b], [c]);
    assert [b] + [c] == [b, c];
  }

  /** Two commands cut one byte into the second, and not cut at all. */
  lemma WholeOfTwo(b: Command, c: Command)
    ensures var cs, k := [b, c], |Encode(b)| + 1; Whole(cs, k) == 1 && CutsCommand(cs, k) && k <= |EncodeAll(cs)|
    ensures var cs, k := [b, c], |EncodeAll([b, c])|; Whole(cs, k) == 2 && !CutsCommand(cs, k)
  {
    hide Encode, EncodeAll;
    EncodeTwo(b, c);
    EncodeOne(b);
    EncodingIsNotEmpty(b);
    EncodingIsNotEmpty(c);
    assert [b, c][1..] == [c] && [b, c][..1] == [b] && [b, c][..2] == [b, c];
    assert Whole([c], 1) == 0;
    assert Whole([c], |Encode(c)|) == 1;
  }

  /**
   The shortest such case: MULTI and a write, cut one byte into the write.  The load keeps the MULTI,
   and the next one discards it together with the write appended in between.
   */
  lemma AppendAfterOpenMultiIsLost(o: Options)
    requires {"multi", "set"} <= o.table && o.loadTruncated && o.truncateWorks
    ensures var cs, more := [["MULTI"], ["SET", "a", "b"]], [["SET", "c", "d"]];
            var r := Load(EncodeAll(cs)[..|Encode(["MULTI"])| + 1], o);
            && |Encode(["MULTI"])| + 1 <= |EncodeAll(cs)|
            && r == Loaded(Encode(["MULTI"]), [])
            && Load(r.file + EncodeAll(more), o) == Loaded([], [])
  {
    hide Encode, EncodeAll, Load, RunAll, LastMulti;
    MultiThenSet(["SET", "a", "b"]);
    TwoLoads(["SET", "a", "b"], ["SET", "c", "d"], o);
  }

  /** Loading MULTI and the first byte of c, appending d and loading again. */
  lemma TwoLoads(c: Command, d: Command, o: Options)
    requires var multi := ["MULTI"]; Replayable(o, [multi, c]) && Replayable(o, [multi, d])
    requires o.loadTruncated && o.truncateWorks && |c| == |d| == 3 && c[0] == d[0] == "SET"
    ensures var multi := ["MULTI"];
            && |Encode(multi)| + 1 <= |EncodeAll([multi, c])|
            && Load(EncodeAll([multi, c])[..|Encode(multi)| + 1], o) == Loaded(Encode(multi), [])
            && Load(Encode(multi) + EncodeAll([d]), o) == Loaded([], [])
  {
    hide Encode, EncodeAll, Load, RunAll, LastMulti, Whole, Replayable, CutsCommand;
    var multi := ["MULTI"];
    MultiThenSet(c);
    MultiThenSet(d);
    WholeOfTwo(multi, c);
    WholeOfTwo(multi, d);
    EncodeOne(multi);
    EncodeOne(d);
    EncodeTwo(multi, d);
    LogIsNotEmpty([multi, d]);
    assert [multi, c][..1] == [multi] && [multi, d][..2] == [multi, d] && [multi, d][..0] == [];
    RecoversLongestPrefix([multi, c], |Encode(multi)| + 1, o);
    var log := EncodeAll([multi, d]);
    assert log[..|log|] == log;
    RecoversLongestPrefix([multi, d], |log|, o);
    NothingEncoded();
  }

  lemma NothingEncoded()
    ensures EncodeAll([]) == []
  {
  }

  lemma MultiThenSet(c: Command)
    requires |c| == 3 && c[0] == "SET"
    ensures RunAll(FRESH, [["MULTI"], c]) == Client([], Some([c])) && RunAll(FRESH, [["MULTI"]]) == Client([], Some([]))
    ensures LastMulti([["MULTI"], c]) == 0
    ensures Lower("MULTI") == "multi" && Lower("SET") == "set"
  {
    hide RunAll, Lower, LastMulti;
    var multi := ["MULTI"];
    LowerNames();
    assert !IsMulti(c) && !IsExec(c) && IsMulti(multi) && !IsExec(multi);
    RunAllSnoc(FRESH, [], multi);
    NothingRuns(FRESH);
    assert [] + [multi] == [multi] && [multi] + [c] == [multi, c] && [] + [c] == [c];
    RunAllSnoc(FRESH, [multi], c);
    LastMultiFirst(multi, c);
  }

  lemma LowerNames()
    ensures Lower("MULTI") == "multi" && Lower("SET") == "set"
  {
  }

  lemma {:induction false} NothingRuns(fc: Client)
    ensures RunAll(fc, []) == fc
  {
  }

  lemma LastMultiFirst(multi: Command, c: Command)
    requires IsMulti(multi) && !IsMulti(c)
    ensures LastMulti([multi, c]) == 0
  {
    hide IsMulti;
    assert [multi, c][..1] == [multi];
    assert LastMulti([multi]) == 0;
  }
}
