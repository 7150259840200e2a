/**
 loadAppendOnlyFile: replaying a log, with aof-load-truncated deciding what happens to a
 log that ends in the middle.
 */
module AofLoad {
  import opened Common
  import opened Resp

  function Lower(s: Bytes): Bytes {
    seq(|s|, i requires 0 <= i < |s| => if 'A' <= s[i] <= 'Z' then s[i] - 'A' + 'a' else s[i])
  }

  /** Command names are looked up without regard to case. */
  predicate Known(table: set<Bytes>, c: Command) {
    c != [] && Lower(c[0]) in table
  }

  predicate IsMulti(c: Command) {
    c != [] && Lower(c[0]) == "multi"
  }

  predicate IsExec(c: Command) {
    c != [] && Lower(c[0]) == "exec"
  }

  /** The fake client: what it has executed, and what it has queued if it is inside a MULTI. */
  datatype Client = Client(done: seq<Command>, queue: Option<seq<Command>>)

  const FRESH := Client([], None)

  function Run(fc: Client, c: Command): Client {
    if fc.queue.Some? && !IsExec(c) then fc.(queue := Some(fc.queue.value + [c]))
    else if IsMulti(c) then fc.(queue := Some([]))
    else if IsExec(c) then
      if fc.queue.Some? then Client(fc.done + fc.queue.value, None) else fc
    else fc.(done := fc.done + [c])
  }

  function RunAll(fc: Client, cs: seq<Command>): Client
    decreases |cs|
  {
    if cs == [] then fc else RunAll(Run(fc, cs[0]), cs[1..])
  }

  datatype Options = Options(table: set<Bytes>, loadTruncated: bool, truncateWorks: bool)

  /** Loaded carries the file as it is afterwards and the commands executed. */
  datatype Result = EmptyFile | Preamble | Fatal | Loaded(file: Bytes, done: seq<Command>)

  function UnexpectedEnd(f: Bytes, validUpTo: nat, fc: Client, o: Options): Result
    requires validUpTo <= |f|
  {
    if o.loadTruncated && o.truncateWorks then Loaded(f[..validUpTo], fc.done) else Fatal
  }

  function LoadFrom(f: Bytes, pos: nat, fc: Client, validUpTo: nat, beforeMulti: nat, o: Options): Result
    requires validUpTo <= pos <= |f| && beforeMulti <= pos
    decreases |f| - pos
  {
    if pos == |f| then
      if fc.queue.Some? then UnexpectedEnd(f, beforeMulti, fc, o) else Loaded(f, fc.done)
    else
      match ParseCommand(f[pos..])
      case Malformed => Fatal
      case Short => UnexpectedEnd(f, validUpTo, fc, o)
      case Got(c, rest) =>
        if !Known(o.table, c) then Fatal
        else
          var pos' := |f| - |rest|;
          LoadFrom(f, pos', Run(fc, c), if o.loadTruncated then pos' else validUpTo,
                   if IsMulti(c) then validUpTo else beforeMulti, o)
  }

  function Load(f: Bytes, o: Options): Result {
    if f == [] then EmptyFile
    else if "REDIS" <= f then Preamble
    else LoadFrom(f, 0, FRESH, 0, 0, o)
  }

  // --------------------------------------------------------------------------
  // The loader itself
  // --------------------------------------------------------------------------

  /** Reads one command at `pos`, argument by argument. */
  method ReadCommand(f: Bytes, pos: nat) returns (p: Parse<Command>)
    requires pos < |f|
    ensures p == ParseCommand(f[pos..])
    ensures f[pos] != '*' ==> p == Malformed
  {
    hide LineLength, Atoi, ParseBulks;
    var r := f[pos..];
    var n := LineLength(r, FGETS_ROOM);
    if r[0] != '*' {
      return Malformed;
    }
    if n == 1 {
      return Short;
    }
    if r[1] == '\0' {
      return if n == |r| && n < FGETS_ROOM && r[n - 1] != '\n' then Short else Malformed;
    }
    var argc := Atoi(r[1..n]);
    if argc < 1 {
      return Malformed;
    }
    assert r[n..] == f[pos + n..];
    p := ReadArguments(f, pos + n, argc);
  }

  /** Reads `argc` arguments at `pos`. */
  method ReadArguments(f: Bytes, pos: nat, argc: nat) returns (p: Parse<Command>)
    requires pos <= |f|
    ensures p == ParseBulks(argc, f[pos..])
  {
    hide ParseBulk, ParseBulks, Resume;
    var argv: seq<Bytes>, at := [], pos;
    ResumeStart(ParseBulks(argc, f[pos..]));
    for j := 0 to argc
      invariant 0 <= at <= |f|
      invariant ParseBulks(argc, f[pos..]) == Resume(argv, ParseBulks(argc - j, f[at..]))
    {
      hide ParseBulk, ParseBulks, Resume;
      Resumed(argv, argc - j, f[at..]);
      var a := ParseBulk(f[at..]);
      if !a.Got? {
        return if a.Short? then Short else Malformed;
      }
      argv := argv + [a.value];
      at := |f| - |a.rest|;
      assert f[at..] == a.rest;
    }
    hide ParseBulk, ParseBulks, Resume;
    ResumeEnd(argv, f[at..]);
    p := Got(argv, f[at..]);
  }

  lemma ResumeStart(p: Parse<seq<Bytes>>)
    ensures Resume([], p) == p
  {
    if p.Got? {
      assert [] + p.value == p.value;
    }
  }

  lemma {:induction false} ResumeEnd(argv: seq<Bytes>, r: Bytes)
    ensures Resume(argv, ParseBulks(0, r)) == Got(argv, r)
  {
    assert argv + [] == argv;
  }

  /** The whole parse, given the arguments read so far and the parse of what follows. */
  function Resume(argv: seq<Bytes>, p: Parse<seq<Bytes>>): Parse<Command> {
    match p
    case Got(more, rest) => Got(argv + more, rest)
    case Short => Short
    case Malformed => Malformed
  }

  lemma Resumed(argv: seq<Bytes>, count: nat, r: Bytes)
    requires count > 0
    ensures var a := ParseBulk(r);
            Resume(argv, ParseBulks(count, r)) ==
              if a.Got? then Resume(argv + [a.value], ParseBulks(count - 1, a.rest))
              else if a.Short? then Short else Malformed
  {
    var a := ParseBulk(r);
    hide ParseBulk;
    if a.Got? {
      var p := ParseBulks(count - 1, a.rest);
      if p.Got? {
        assert argv + ([a.value] + p.value) == argv + [a.value] + p.value;
      }
    }
  }

  lemma LoadOne(f: Bytes, pos: nat, fc: Client, validUpTo: nat, beforeMulti: nat, o: Options)
    requires validUpTo <= pos < |f| && beforeMulti <= pos
    ensures var p := ParseCommand(f[pos..]);
            LoadFrom(f, pos, fc, validUpTo, beforeMulti, o) ==
              if p.Malformed? then Fatal
              else if p.Short? then UnexpectedEnd(f, validUpTo, fc, o)
              else if !Known(o.table, p.value) then Fatal
              else LoadFrom(f, |f| - |p.rest|, Run(fc, p.value), if o.loadTruncated then |f| - |p.rest| else validUpTo,
                            if IsMulti(p.value) then validUpTo else beforeMulti, o)
  {
    hide ParseCommand;
  }

  /** One round of the loop: either the load ends with r, or it goes on from the new state. */
  method LoadCommand(f: Bytes, pos: nat, fc: Client, validUpTo: nat, beforeMulti: nat, o: Options)
    returns (r: Option<Result>, pos': nat, fc': Client, validUpTo': nat, beforeMulti': nat)
    requires validUpTo <= pos < |f| && beforeMulti <= pos
    ensures validUpTo' <= pos' <= |f| && beforeMulti' <= pos' && (r.None? ==> pos < pos')
    ensures LoadFrom(f, pos, fc, validUpTo, beforeMulti, o) ==
              if r.Some? then r.value else LoadFrom(f, pos', fc', validUpTo', beforeMulti', o)
  {
    hide LoadFrom, ParseCommand, Run, Known, IsMulti;
    LoadOne(f, pos, fc, validUpTo, beforeMulti, o);
    pos', fc', validUpTo', beforeMulti' := pos, fc, validUpTo, beforeMulti;
    var p := ReadCommand(f, pos);
    if p.Malformed? {
      return Some(Fatal), pos', fc', validUpTo', beforeMulti';
    }
    if p.Short? {
      return Some(UnexpectedEnd(f, validUpTo, fc, o)), pos', fc', validUpTo', beforeMulti';
    }
    if !Known(o.table, p.value) {
      return Some(Fatal), pos', fc', validUpTo', beforeMulti';
    }
    if IsMulti(p.value) {
      beforeMulti' := validUpTo;
    }
    fc' := Run(fc, p.value);
    pos' := |f| - |p.rest|;
    if o.loadTruncated {
      validUpTo' := pos';
    }
    r := None;
  }

  /** loadAppendOnlyFile, command by command. */
  method LoadAppendOnlyFile(f: Bytes, o: Options) returns (r: Result)
    ensures r == Load(f, o)
    ensures |f| >= 5 && f[..5] == "REDIS" ==> r == Preamble
  {
    if f == [] {
      return EmptyFile;
    }
    if "REDIS" <= f {
      return Preamble;
    }
    var pos: nat, validUpTo: nat, beforeMulti: nat := 0, 0, 0;
    var fc, ended := FRESH, None;
    while pos < |f|
      invariant validUpTo <= pos <= |f| && beforeMulti <= pos
      invariant Load(f, o) == LoadFrom(f, pos, fc, validUpTo, beforeMulti, o)
    {
      hide LoadFrom, Load;
      ended, pos, fc, validUpTo, beforeMulti := LoadCommand(f, pos, fc, validUpTo, beforeMulti, o);
      if ended.Some? {
        return ended.value;
      }
    }
    hide ParseCommand;
    r := if fc.queue.Some? then UnexpectedEnd(f, beforeMulti, fc, o) else Loaded(f, fc.done);
  }
}
