/** The bytes of a rewritten log, and the commands fed to it while the rewrite runs. */
module DatasetFile {
  import opened Common
  import opened Resp
  import opened AofLoad
  import opened AofRecovery
  import opened Dataset
  import opened DatasetRewrite

  // --------------------------------------------------------------------------
  // Elements in chunks
  // --------------------------------------------------------------------------

  lemma {:induction false} BulksConcat(a: seq<Bytes>, b: seq<Bytes>)
    ensures Bulks(a + b) == Bulks(a) + Bulks(b)
    decreases |a|
  {
    hide Bulk;
    if a == [] {
      assert a + b == b;
    } else {
      assert (a + b)[1..] == a[1..] + b;
      BulksConcat(a[1..], b);
    }
  }

  /** What the chunk under way and those after it still need, with `left` groups to go in the chunk. */
  function ChunkTail(name: Bytes, key: Bytes, groups: seq<seq<Bytes>>, left: nat): Bytes
    requires left <= |groups|
  {
    Bulks(Flatten(groups[..left])) + EncodeAll(Chunks(name, key, groups[left..]))
  }

  /** The array length announced for n groups. */
  function ArgCount(a: Add, n: nat): nat {
    if Width(a) == 1 then 2 + n else 2 + n * 2
  }

  lemma {:induction false} ChunkLength(a: Add, name: Bytes, key: Bytes, groups: seq<seq<Bytes>>)
    requires Uniform(groups, Width(a))
    ensures |[name, key] + Flatten(groups)| == ArgCount(a, |groups|)
  {
    hide Flatten;
    FlattenLength(a, groups);
  }

  lemma {:induction false} BulksOfThree(a: Bytes, b: Bytes, args: seq<Bytes>)
    ensures Bulks([a, b] + args) == Bulk(a) + (Bulk(b) + Bulks(args))
  {
    hide Bulk;
    assert ([a, b] + args)[1..] == [b] + args;
    assert ([b] + args)[1..] == args;
  }

  lemma UniformPart(groups: seq<seq<Bytes>>, width: nat, n: nat)
    requires Uniform(groups, width) && n <= |groups|
    ensures Uniform(groups[..n], width) && Uniform(groups[n..], width)
  {
  }

  lemma {:induction false} OpenChunk(a: Add, key: Bytes, groups: seq<seq<Bytes>>)
    requires groups != [] && Uniform(groups, Width(a))
    ensures var n := ChunkSize(|groups|);
            EncodeAll(Chunks(Name(a), key, groups)) ==
            Count('*', ArgCount(a, n)) + Bulk(Name(a)) + Bulk(key) + ChunkTail(Name(a), key, groups, n)
  {
    hide Count, Bulk, Flatten, ArgCount, Bulks, Name, Uniform, EncodeAll, Chunks;
    var name, n := Name(a), ChunkSize(|groups|);
    var args, more := Flatten(groups[..n]), Chunks(name, key, groups[n..]);
    FirstChunk(name, key, groups);
    EncodeFirst([name, key] + args, more);
    UniformPart(groups, Width(a), n);
    ChunkLength(a, name, key, groups[..n]);
    BulksOfThree(name, key, args);
    Regroup(Count('*', ArgCount(a, n)), Bulk(name), Bulk(key), Bulks(args), EncodeAll(more));
  }

  lemma Regroup(a: Bytes, b: Bytes, c: Bytes, d: Bytes, e: Bytes)
    ensures a + (b + (c + d)) + e == a + b + c + (d + e)
  {
  }

  lemma {:induction false} FirstChunk(name: Bytes, key: Bytes, groups: seq<seq<Bytes>>)
    requires groups != []
    ensures var n := ChunkSize(|groups|);
            Chunks(name, key, groups) == [[name, key] + Flatten(groups[..n])] + Chunks(name, key, groups[n..])
  {
  }

  lemma {:induction false} EncodeFirst(c: Command, cs: seq<Command>)
    ensures EncodeAll([c] + cs) == Count('*', |c|) + Bulks(c) + EncodeAll(cs)
  {
    hide Count, Bulks;
    assert ([c] + cs)[1..] == cs;
  }

  lemma WriteGroup(name: Bytes, key: Bytes, groups: seq<seq<Bytes>>, left: nat)
    requires 0 < left <= |groups|
    ensures ChunkTail(name, key, groups, left) == Bulks(groups[0]) + ChunkTail(name, key, groups[1..], left - 1)
  {
    hide Bulks, EncodeAll, Chunks;
    assert groups[..left][1..] == groups[1..][..left - 1];
    assert groups[left..] == groups[1..][left - 1..];
    BulksConcat(groups[0], Flatten(groups[1..][..left - 1]));
  }

  lemma {:induction false} CloseChunk(name: Bytes, key: Bytes, groups: seq<seq<Bytes>>)
    ensures ChunkTail(name, key, groups, 0) == EncodeAll(Chunks(name, key, groups))
  {
    hide EncodeAll, Chunks;
    assert groups[0..] == groups && groups[..0] == [];
  }

  /** How many groups the command under way still owes. */
  function Owed(count: nat, items: nat): nat
    requires count <= ITEMS_PER_CMD
  {
    if count == 0 then 0 else if items < ITEMS_PER_CMD - count then items else ITEMS_PER_CMD - count
  }

  /** One more group is one less owed. */
  lemma OwedNext(count: nat, items: nat)
    requires count < ITEMS_PER_CMD && items > 0
    ensures var owed := if count == 0 then ChunkSize(items) else Owed(count, items);
            && 0 < owed <= items
            && Owed(if count + 1 == ITEMS_PER_CMD then 0 else count + 1, items - 1) == owed - 1
    ensures Owed(0, items) == 0
  {
  }

  function Next(count: nat): nat {
    if count + 1 == ITEMS_PER_CMD then 0 else count + 1
  }

  /** The command's name and key, which go first when a new command starts. */
  function Head(a: Add, key: Bytes, count: nat, items: nat): Bytes {
    if count == 0 then Count('*', ArgCount(a, ChunkSize(items))) + Bulk(Name(a)) + Bulk(key) else []
  }

  /** One turn of the loop below. */
  lemma OneGroup(a: Add, key: Bytes, groups: seq<seq<Bytes>>, count: nat)
    requires Uniform(groups, Width(a)) && groups != [] && count < ITEMS_PER_CMD
    ensures ChunkTail(Name(a), key, groups, Owed(count, |groups|)) ==
            Head(a, key, count, |groups|) + Bulks(groups[0])
            + ChunkTail(Name(a), key, groups[1..], Owed(Next(count), |groups| - 1))
  {
    hide EncodeAll, Chunks, ChunkTail, Bulks, Bulk, Count, ArgCount, Name, Uniform, Owed;
    var items := |groups|;
    OwedNext(count, items);
    if count == 0 {
      CloseChunk(Name(a), key, groups);
      OpenChunk(a, key, groups);
      WriteGroup(Name(a), key, groups, ChunkSize(items));
    } else {
      WriteGroup(Name(a), key, groups, Owed(count, items));
    }
  }

  /**
   The loop of rewriteListObject, rewriteSetObject, rewriteSortedSetObject and rewriteHashObject:
   each announced array length is the number of arguments that follow.
   */
  method RewriteAggregate(a: Add, key: Bytes, groups: seq<seq<Bytes>>) returns (out: Bytes)
    requires Uniform(groups, Width(a))
    ensures out == EncodeAll(Chunks(Name(a), key, groups))
  {
    hide EncodeAll, Chunks, ChunkTail, Bulks, Bulk, Count, ArgCount, Name, Uniform;
    out := [];
    var name := Name(a);
    var count: nat, items := 0, |groups|;
    CloseChunk(name, key, groups);
    assert groups[0..] == groups;
    for i := 0 to |groups|
      invariant count < ITEMS_PER_CMD && items == |groups| - i
      invariant EncodeAll(Chunks(name, key, groups)) == out + ChunkTail(name, key, groups[i..], Owed(count, items))
    {
      hide EncodeAll, Chunks, ChunkTail, Bulks, Bulk, Count, ArgCount, Name, Uniform, Owed;
      UniformPart(groups, Width(a), i);
      OneGroup(a, key, groups[i..], count);
      assert groups[i..][1..] == groups[i + 1..];
      Appended(out, Head(a, key, count, items), Bulks(groups[i]),
               ChunkTail(name, key, groups[i + 1..], Owed(Next(count), items - 1)));
      if count == 0 {
        var cmdItems := if items > ITEMS_PER_CMD then ITEMS_PER_CMD else items;
        out := out + (Count('*', ArgCount(a, cmdItems)) + Bulk(name) + Bulk(key));
      }
      out := out + Bulks(groups[i]);
      count := if count + 1 == ITEMS_PER_CMD then 0 else count + 1;
      items := items - 1;
    }
    hide EncodeAll, Chunks, ChunkTail, Bulks, Bulk, Count, ArgCount, Name, Uniform;
    assert groups[|groups|..] == [];
    CloseChunk(name, key, []);
    NoChunks(name, key);
  }

  lemma Appended(a: Bytes, b: Bytes, c: Bytes, d: Bytes)
    ensures a + (b + c + d) == a + b + c + d && (b == [] ==> a + b == a)
  {
  }

  lemma {:induction false} NoChunks(name: Bytes, key: Bytes)
    ensures EncodeAll(Chunks(name, key, [])) == []
  {
  }

  // --------------------------------------------------------------------------
  // Keys and databases
  // --------------------------------------------------------------------------

  // The literals the rewrite starts its fixed commands with.

  lemma SelectLiteral()
    ensures "*2\r\n$6\r\nSELECT\r\n" == Count('*', 2) + Bulk("SELECT")
  {
    hide Bulk;
    BulkLiteral("SELECT", "6");
    assert Decimal(2) == "2";
  }

  lemma SetLiteral()
    ensures "*3\r\n$3\r\nSET\r\n" == Count('*', 3) + Bulk("SET")
  {
    hide Bulk;
    BulkLiteral("SET", "3");
    assert Decimal(3) == "3";
  }

  lemma ExpireLiteral()
    ensures "*3\r\n$9\r\nPEXPIREAT\r\n" == Count('*', 3) + Bulk("PEXPIREAT")
  {
    hide Bulk;
    BulkLiteral("PEXPIREAT", "9");
    assert Decimal(3) == "3";
  }

  lemma BulkLiteral(s: Bytes, digit: Bytes)
    requires |s| < 10 && digit == [Digit(|s|)]
    ensures Bulk(s) == "$" + digit + "\r\n" + s + "\r\n"
  {
    assert Decimal(|s|) == digit;
  }

  lemma EncodeTwo(a: Bytes, b: Bytes)
    ensures EncodeAll([[a, b]]) == Count('*', 2) + Bulk(a) + Bulk(b)
  {
    hide Count, Bulk;
    assert [a, b][1..] == [b];
    assert Bulks([b]) == Bulk(b);
    assert Bulks([a, b]) == Bulk(a) + Bulk(b);
  }

  lemma EncodeThree(a: Bytes, b: Bytes, c: Bytes)
    ensures EncodeAll([[a, b, c]]) == Count('*', 3) + Bulk(a) + Bulk(b) + Bulk(c)
  {
    hide Count, Bulk;
    assert [a, b, c][1..] == [b, c] && [b, c][1..] == [c];
    assert Bulks([c]) == Bulk(c);
    assert Bulks([b, c]) == Bulk(b) + Bulk(c);
    assert Bulks([a, b, c]) == Bulk(a) + (Bulk(b) + Bulk(c));
  }

  method RewriteRecord(r: Record) returns (out: Bytes)
    requires r.listed.Items? ==> Uniform(r.listed.groups, Width(r.listed.add))
    ensures out == EncodeAll(ValueCommands(r.key, r.listed) + ExpireCommands(r.key, r.expire))
  {
    hide EncodeAll, Chunks, Bulk, Count;
    match r.listed {
      case Text(t) =>
        SetLiteral();
        EncodeThree("SET", r.key, t);
        out := "*3\r\n$3\r\nSET\r\n" + Bulk(r.key) + Bulk(t);
      case Items(a, groups) =>
        out := RewriteAggregate(a, r.key, groups);
    }
    EncodeAllConcat(ValueCommands(r.key, r.listed), ExpireCommands(r.key, r.expire));
    if r.expire.Some? {
      ExpireLiteral();
      EncodeThree("PEXPIREAT", r.key, LongLong(r.expire.value));
      out := out + ("*3\r\n$9\r\nPEXPIREAT\r\n" + Bulk(r.key) + Bulk(LongLong(r.expire.value)));
    } else {
      NoCommands();
    }
  }

  lemma NoCommands()
    ensures EncodeAll([]) == []
  {
  }

  predicate WellListed(rs: seq<Record>) {
    forall r | r in rs && r.listed.Items? :: Uniform(r.listed.groups, Width(r.listed.add))
  }

  method RewriteDb(rs: seq<Record>) returns (out: Bytes)
    requires WellListed(rs)
    ensures out == EncodeAll(DbCommands(rs))
  {
    hide EncodeAll, ValueCommands, ExpireCommands;
    out := [];
    assert rs[0..] == rs;
    for i := 0 to |rs|
      invariant EncodeAll(DbCommands(rs)) == out + EncodeAll(DbCommands(rs[i..]))
    {
      hide EncodeAll, ValueCommands, ExpireCommands;
      assert rs[i] in rs;
      var one := RewriteRecord(rs[i]);
      assert rs[i..][1..] == rs[i + 1..];
      EncodeAllConcat(ValueCommands(rs[i].key, rs[i].listed) + ExpireCommands(rs[i].key, rs[i].expire),
                      DbCommands(rs[i + 1..]));
      out := out + one;
    }
    hide EncodeAll, ValueCommands, ExpireCommands;
    NoCommands();
  }

  /** rewriteAppendOnlyFileRio, given the order in which each dictionary is iterated. */
  method RewriteAppendOnlyFileRio(ls: seq<seq<Record>>) returns (out: Bytes)
    requires forall rs | rs in ls :: WellListed(rs)
    ensures out == EncodeAll(Commands(ls, 0))
  {
    hide EncodeAll, DbCommands, WellListed;
    out := [];
    assert ls[0..] == ls;
    for j := 0 to |ls|
      invariant EncodeAll(Commands(ls, 0)) == out + EncodeAll(Commands(ls[j..], j))
    {
      hide EncodeAll, DbCommands, WellListed, Decimal;
      assert ls[j..][1..] == ls[j + 1..];
      assert ls[j] in ls;
      if ls[j] == [] {
        assert Commands(ls[j..], j) == [] + Commands(ls[j + 1..], j + 1) == Commands(ls[j + 1..], j + 1);
      } else {
        var records := RewriteDb(ls[j]);
        SelectedDb(ls[j], j, Commands(ls[j + 1..], j + 1));
        out := out + ("*2\r\n$6\r\nSELECT\r\n" + Bulk(LongLong(j))) + records;
      }
    }
    hide EncodeAll, DbCommands, WellListed;
    NoCommands();
  }

  lemma {:induction false} SelectedDb(rs: seq<Record>, j: nat, more: seq<Command>)
    ensures EncodeAll([Select(j)] + DbCommands(rs) + more) ==
            "*2\r\n$6\r\nSELECT\r\n" + Bulk(LongLong(j)) + EncodeAll(DbCommands(rs)) + EncodeAll(more)
  {
    hide EncodeAll, DbCommands, Decimal, Bulk, Count;
    SelectLiteral();
    EncodeTwo("SELECT", Decimal(j));
    EncodeAllConcat([Select(j)], DbCommands(rs));
    EncodeAllConcat([Select(j)] + DbCommands(rs), more);
  }

  // --------------------------------------------------------------------------
  // Every command of the rewrite loads
  // --------------------------------------------------------------------------

  const MAX_SIZE: int := 0x8000_0000_0000_0000

  predicate SizedRecord(r: Record) {
    && |r.key| < MAX_SIZE
    && (r.expire.Some? ==> -MAX_SIZE <= r.expire.value < MAX_SIZE)
    && match r.listed
       case Text(t) => |t| < MAX_SIZE
       case Items(a, groups) => Uniform(groups, Width(a)) && forall g | g in groups :: SizedArgs(g)
  }

  predicate SizedArgs(args: seq<Bytes>) {
    forall a | a in args :: |a| < MAX_SIZE
  }

  predicate Sized(ls: seq<seq<Record>>) {
    |ls| < 0x8000_0000 && forall rs | rs in ls :: SizedDb(rs)
  }

  predicate SizedDb(rs: seq<Record>) {
    forall r | r in rs :: SizedRecord(r)
  }

  predicate HasCommands(table: set<Bytes>) {
    {"select", "set", "pexpireat", "rpush", "sadd", "zadd", "hmset"} <= table
  }

  predicate Loads(o: Options, c: Command) {
    Encodable(c) && Known(o.table, c) && Plain(c)
  }

  predicate AllLoad(o: Options, cs: seq<Command>) {
    forall c | c in cs :: Loads(o, c)
  }

  lemma AllLoadConcat(o: Options, a: seq<Command>, b: seq<Command>)
    requires AllLoad(o, a) && AllLoad(o, b)
    ensures AllLoad(o, a + b)
  {
    hide Loads;
  }

  lemma FixedNames()
    ensures Lower("SELECT") == "select" && Lower("SET") == "set" && Lower("PEXPIREAT") == "pexpireat"
  {
  }

  lemma AddNames(a: Add)
    ensures Lower(Name(a)) ==
              match a case Rpush => "rpush" case Sadd => "sadd" case Zadd => "zadd" case Hmset => "hmset"
  {
  }

  lemma NamesLoad(o: Options, c: Command)
    requires HasCommands(o.table) && 1 <= |c| < 0x8000_0000 && SizedArgs(c[1..])
    requires c[0] == "SELECT" || c[0] == "SET" || c[0] == "PEXPIREAT" || exists a: Add :: c[0] == Name(a)
    ensures Loads(o, c)
  {
    hide Lower, Name;
    FixedNames();
    if a: Add :| c[0] == Name(a) {
      AddNames(a);
    }
    assert "multi"[0] == 'm' && "exec"[0] == 'e';
    assert |c[0]| < MAX_SIZE by { ShortNames(c[0]); }
    forall a | a in c ensures |a| < MAX_SIZE {
      assert a == c[0] || a in c[1..];
    }
  }

  lemma ShortNames(name: Bytes)
    requires name == "SELECT" || name == "SET" || name == "PEXPIREAT" || exists a: Add :: name == Name(a)
    ensures |name| < MAX_SIZE
  {
  }

  lemma LongLongSize(n: int)
    requires -MAX_SIZE <= n < MAX_SIZE
    ensures |LongLong(n)| <= 21
  {
    hide Decimal;
    Small(MAX_SIZE - 1);
    assert Pow10(20) == 10 * Pow10(19);
    DecimalLength(if n < 0 then -n else n, 20);
  }

  lemma {:induction false} FlattenSized(groups: seq<seq<Bytes>>)
    requires forall g | g in groups :: SizedArgs(g)
    ensures SizedArgs(Flatten(groups))
    decreases |groups|
  {
    if groups == [] {
    } else {
      assert SizedArgs(groups[0]);
      FlattenSized(groups[1..]);
    }
  }

  lemma {:induction false} ChunksLoad(o: Options, a: Add, key: Bytes, groups: seq<seq<Bytes>>)
    requires HasCommands(o.table) && |key| < MAX_SIZE
    requires Uniform(groups, Width(a)) && forall g | g in groups :: SizedArgs(g)
    ensures AllLoad(o, Chunks(Name(a), key, groups))
    decreases |groups|
  {
    hide Loads, HasCommands, SizedArgs, Flatten, Name;
    if groups == [] {
    } else {
      var n := ChunkSize(|groups|);
      ChunkLoads(o, a, key, groups[..n]);
      ChunksLoad(o, a, key, groups[n..]);
      AllLoadConcat(o, [[Name(a), key] + Flatten(groups[..n])], Chunks(Name(a), key, groups[n..]));
    }
  }

  lemma {:induction false} ChunkLoads(o: Options, a: Add, key: Bytes, groups: seq<seq<Bytes>>)
    requires HasCommands(o.table) && |key| < MAX_SIZE && |groups| <= ITEMS_PER_CMD
    requires Uniform(groups, Width(a)) && forall g | g in groups :: SizedArgs(g)
    ensures Loads(o, [Name(a), key] + Flatten(groups))
  {
    hide Loads, HasCommands, Name, Flatten, Uniform, SizedArgs;
    FlattenSized(groups);
    ChunkLength(a, Name(a), key, groups);
    AddLoads(o, a, key, Flatten(groups));
  }

  lemma AddLoads(o: Options, a: Add, key: Bytes, args: seq<Bytes>)
    requires HasCommands(o.table) && |key| < MAX_SIZE && SizedArgs(args) && |args| <= 2 * ITEMS_PER_CMD
    ensures Loads(o, [Name(a), key] + args)
  {
    hide Loads, HasCommands, Name;
    var c := [Name(a), key] + args;
    assert c[1..] == [key] + args && c[0] == Name(a);
    NamesLoad(o, c);
  }

  lemma RecordLoads(o: Options, r: Record)
    requires HasCommands(o.table) && SizedRecord(r)
    ensures AllLoad(o, ValueCommands(r.key, r.listed) + ExpireCommands(r.key, r.expire))
  {
    hide Loads, HasCommands, Chunks, LongLong;
    match r.listed {
      case Text(t) =>
        assert ["SET", r.key, t][1..] == [r.key, t];
        NamesLoad(o, ["SET", r.key, t]);
      case Items(a, groups) => ChunksLoad(o, a, r.key, groups);
    }
    if r.expire.Some? {
      LongLongSize(r.expire.value);
      var c := ["PEXPIREAT", r.key, LongLong(r.expire.value)];
      assert c[1..] == [r.key, LongLong(r.expire.value)];
      NamesLoad(o, c);
    }
    AllLoadConcat(o, ValueCommands(r.key, r.listed), ExpireCommands(r.key, r.expire));
  }

  lemma {:induction false} DbLoads(o: Options, rs: seq<Record>)
    requires HasCommands(o.table) && SizedDb(rs)
    ensures AllLoad(o, DbCommands(rs))
    decreases |rs|
  {
    hide Loads, HasCommands, ValueCommands, ExpireCommands, SizedRecord;
    if rs == [] {
    } else {
      RecordLoads(o, rs[0]);
      DbLoads(o, rs[1..]);
      AllLoadConcat(o, ValueCommands(rs[0].key, rs[0].listed) + ExpireCommands(rs[0].key, rs[0].expire),
                    DbCommands(rs[1..]));
    }
  }

  lemma SelectLoads(o: Options, j: nat)
    requires HasCommands(o.table) && j < 0x8000_0000
    ensures Loads(o, Select(j))
  {
    hide Loads, HasCommands, Decimal;
    Small(j);
    DecimalLength(j, 19);
    assert Select(j)[1..] == [Decimal(j)];
    NamesLoad(o, Select(j));
  }

  lemma {:induction false} CommandsLoad(o: Options, ls: seq<seq<Record>>, j: nat)
    requires HasCommands(o.table) && j + |ls| <= 0x8000_0000
    requires forall rs | rs in ls :: SizedDb(rs)
    ensures AllLoad(o, Commands(ls, j))
    decreases |ls|
  {
    hide Loads, HasCommands, DbCommands, SizedDb, Select;
    if ls == [] {
    } else {
      assert ls[0] in ls;
      DbLoads(o, ls[0]);
      SelectLoads(o, j);
      AllLoadConcat(o, [Select(j)], DbCommands(ls[0]));
      CommandsLoad(o, ls[1..], j + 1);
      AllLoadConcat(o, if ls[0] == [] then [] else [Select(j)] + DbCommands(ls[0]), Commands(ls[1..], j + 1));
    }
  }

  // --------------------------------------------------------------------------
  // The commands fed while the rewrite runs
  // --------------------------------------------------------------------------

  /** A write and the database it was issued in. */
  datatype Write = Write(db: nat, command: Command)

  predicate IsSelect(c: Command) {
    |c| == 2 && Lower(c[0]) == "select"
  }

  /** feedAppendOnlyFile: a SELECT goes first unless the database is the one last selected. */
  function Feed(selected: Option<nat>, writes: seq<Write>): seq<Command>
    decreases |writes|
  {
    if writes == [] then []
    else
      var w := writes[0];
      (if selected == Some(w.db) then [] else [Select(w.db)]) + [w.command] + Feed(Some(w.db), writes[1..])
  }

  /** The commands a loader runs, each with the database selected at the time. */
  function Executed(selected: nat, cs: seq<Command>): seq<Write>
    decreases |cs|
  {
    if cs == [] then []
    else if IsSelect(cs[0]) then Executed(if Atoi(cs[0][1]) >= 0 then Atoi(cs[0][1]) else selected, cs[1..])
    else [Write(selected, cs[0])] + Executed(selected, cs[1..])
  }

  lemma {:induction false} ExecutedSelect(at: nat, j: nat, cs: seq<Command>)
    ensures Executed(at, [Select(j)] + cs) == Executed(j, cs)
  {
    hide Decimal;
    AtoiDecimal(j, []);
    assert Decimal(j) + [] == Decimal(j);
    assert Lower("SELECT") == "select";
    assert ([Select(j)] + cs)[1..] == cs;
  }

  lemma {:induction false} ExecutedWrite(at: nat, c: Command, cs: seq<Command>)
    requires !IsSelect(c)
    ensures Executed(at, [c] + cs) == [Write(at, c)] + Executed(at, cs)
  {
    assert ([c] + cs)[1..] == cs;
  }

  predicate NoSelects(writes: seq<Write>) {
    forall w | w in writes :: !IsSelect(w.command)
  }

  /**
   Starting from database `at` with the feeder believing in `selected`, every fed write runs in its
   own database if and only if the belief is right or never relied on.
   */
  lemma {:induction false} FeedIsFaithfulIff(selected: Option<nat>, at: nat, writes: seq<Write>)
    requires NoSelects(writes)
    ensures Executed(at, Feed(selected, writes)) == writes <==>
            writes == [] || selected != Some(writes[0].db) || selected == Some(at)
    decreases |writes|
  {
    hide IsSelect, Select, Executed, Feed;
    FeedFirst(selected, writes);
    if writes == [] {
      NothingExecuted(at);
    } else {
      var w, rest := writes[0], writes[1..];
      var more := Feed(Some(w.db), rest);
      assert w in writes;
      FeedIsFaithfulIff(Some(w.db), w.db, rest);
      if selected == Some(w.db) {
        ExecutedWrite(at, w.command, more);
        assert ([Write(at, w.command)] + Executed(at, more))[0].db == at;
      } else {
        ExecutedSelect(at, w.db, [w.command] + more);
        ExecutedWrite(w.db, w.command, more);
      }
    }
  }

  lemma {:induction false} FeedFirst(selected: Option<nat>, writes: seq<Write>)
    ensures if writes == [] then Feed(selected, writes) == []
            else
              var more := [writes[0].command] + Feed(Some(writes[0].db), writes[1..]);
              Feed(selected, writes) == if selected == Some(writes[0].db) then more else [Select(writes[0].db)] + more
  {
  }

  lemma {:induction false} NothingExecuted(at: nat)
    ensures Executed(at, []) == []
  {
  }

  /** A command the loader accepts, MULTI and EXEC included. */
  predicate Accepted(o: Options, c: Command) {
    Encodable(c) && Known(o.table, c)
  }

  lemma {:induction false} FeedLoads(o: Options, selected: Option<nat>, writes: seq<Write>)
    requires HasCommands(o.table) && forall w | w in writes :: w.db < 0x8000_0000 && Accepted(o, w.command)
    ensures Replayable(o, Feed(selected, writes))
    decreases |writes|
  {
    hide Encodable, Known, Plain, HasCommands, Select;
    if writes == [] {
    } else {
      var w := writes[0];
      assert w in writes;
      SelectLoads(o, w.db);
      FeedLoads(o, Some(w.db), writes[1..]);
    }
  }

  /** The writes other than MULTI and EXEC. */
  function PlainWrites(writes: seq<Write>): seq<Write> {
    if writes == [] then [] else (if Plain(writes[0].command) then [writes[0]] else []) + PlainWrites(writes[1..])
  }

  /** MULTI and EXEC select no database. */
  lemma {:induction false} ExecutedPlain(at: nat, cs: seq<Command>)
    ensures Executed(at, PlainPart(cs)) == PlainWrites(Executed(at, cs))
    decreases |cs|
  {
    if cs == [] {
    } else if IsSelect(cs[0]) {
      assert PlainPart(cs) == [cs[0]] + PlainPart(cs[1..]);
      assert PlainPart(cs)[1..] == PlainPart(cs[1..]);
      ExecutedPlain(if Atoi(cs[0][1]) >= 0 then Atoi(cs[0][1]) else at, cs[1..]);
    } else {
      ExecutedPlain(at, cs[1..]);
      assert Executed(at, cs)[1..] == Executed(at, cs[1..]);
      if Plain(cs[0]) {
        assert PlainPart(cs)[1..] == PlainPart(cs[1..]);
      } else {
        assert PlainPart(cs) == PlainPart(cs[1..]);
        assert PlainWrites(Executed(at, cs)) == PlainWrites(Executed(at, cs[1..]));
      }
    }
  }

  // --------------------------------------------------------------------------
  // The whole file
  // --------------------------------------------------------------------------

  const NOTHING := Keyspace(map[], 0)

  /** What is fed from now on opens no transaction inside another and leaves none open. */
  predicate WellBracketed(cs: seq<Command>) {
    Flat(FRESH, cs) && !InMulti(cs)
  }

  /**
   The finished file, the snapshot's commands followed by the writes fed since the fork with the
   selected database forgotten: loading it executes all of it, the snapshot's part rebuilds every
   database with its expiries, and each later write runs in its own database.
   */
  lemma {:induction false} RewrittenLogRebuilds(ls: seq<seq<Record>>, dbs: seq<Db>, writes: seq<Write>, o: Options)
    requires ListsDataset(ls, dbs) && Sized(ls) && HasCommands(o.table)
    requires NoSelects(writes) && forall w | w in writes :: w.db < 0x8000_0000 && Accepted(o, w.command)
    requires Commands(ls, 0) + Feed(None, writes) != [] && WellBracketed(Feed(None, writes))
    ensures var base, diff := Commands(ls, 0), Feed(None, writes);
            var log := EncodeAll(base) + EncodeAll(diff);
            var rebuilt := ReplayAll(NOTHING, base);
            && Load(log, o) == Loaded(log, base + PlainPart(diff))
            && (forall j: nat :: DbOf(rebuilt, j) == if j < |dbs| then dbs[j] else map[])
            && Executed(rebuilt.selected, PlainPart(diff)) == PlainWrites(writes)
  {
    hide Commands, Feed, EncodeAll, Load, ReplayAll, DbOf, Executed, Accepted, HasCommands, ListsDataset, WellBracketed,
         Replayable;
    var base, diff := Commands(ls, 0), Feed(None, writes);
    CommandsLoad(o, ls, 0);
    FeedLoads(o, None, writes);
    LogLoads(base, diff, o);
    SnapshotRebuilds(ls, dbs);
    FeedIsFaithfulIff(None, ReplayAll(NOTHING, base).selected, writes);
    ExecutedPlain(ReplayAll(NOTHING, base).selected, diff);
  }

  lemma {:induction false} LogLoads(base: seq<Command>, diff: seq<Command>, o: Options)
    requires AllLoad(o, base) && Replayable(o, diff) && base + diff != [] && WellBracketed(diff)
    ensures var log := EncodeAll(base) + EncodeAll(diff); Load(log, o) == Loaded(log, base + PlainPart(diff))
  {
    hide EncodeAll, Load, RunAll, Encodable, Known, Plain, Flat, PlainPart;
    EncodeAllConcat(base, diff);
    RunAllConcat(FRESH, base, diff);
    PlainRun(FRESH, base);
    assert [] + base == base && FRESH.(done := base) == Client(base, None);
    QueueAlone(FRESH, base, diff);
    RunIsPlain(Client(base, None), diff);
    var r := RunAll(Client(base, None), diff);
    assert r.done + [] == r.done && base + [] == base;
    WholeLogLoads(base + diff, o);
  }

  lemma {:induction false} SnapshotRebuilds(ls: seq<seq<Record>>, dbs: seq<Db>)
    requires ListsDataset(ls, dbs)
    ensures forall j: nat :: DbOf(ReplayAll(NOTHING, Commands(ls, 0)), j) == if j < |dbs| then dbs[j] else map[]
  {
    hide ListsDataset, Commands, ReplayAll;
    DatasetReplay(NOTHING, ls, dbs, 0);
    forall j: nat ensures DbOf(ReplayAll(NOTHING, Commands(ls, 0)), j) == if j < |dbs| then dbs[j] else map[] {
      assert DbOf(ReplayAll(NOTHING, Commands(ls, 0)), j) == Filled(NOTHING, dbs, 0, j);
    }
  }
}
