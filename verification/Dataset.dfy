/** The keyspace, and what replaying the commands of a rewritten log does to it. */
module Dataset {
  import opened Common
  import opened Resp

  /** A score is kept as the text it is written as. */
  datatype Value =
    | Str(text: Bytes)
    | List(items: seq<Bytes>)
    | Set(members: set<Bytes>)
    | SortedSet(scores: map<Bytes, Bytes>)
    | Hash(fields: map<Bytes, Bytes>)

  datatype Entry = Entry(value: Value, expire: Option<int>)

  type Db = map<Bytes, Entry>

  /** Databases by number (an absent one is empty) and the one selected. */
  datatype Keyspace = Keyspace(dbs: map<nat, Db>, selected: nat)

  function DbOf(ks: Keyspace, j: nat): Db {
    if j in ks.dbs then ks.dbs[j] else map[]
  }

  function Current(ks: Keyspace): Db {
    DbOf(ks, ks.selected)
  }

  function WithCurrent(ks: Keyspace, db: Db): Keyspace {
    ks.(dbs := ks.dbs[ks.selected := db])
  }

  function Put(ks: Keyspace, key: Bytes, e: Entry): Keyspace {
    WithCurrent(ks, Current(ks)[key := e])
  }

  /** rioWriteBulkLongLong's text. */
  function LongLong(n: int): Bytes {
    if n < 0 then "-" + Decimal(-n) else Decimal(n)
  }

  lemma AtoiLongLong(n: int)
    ensures Atoi(LongLong(n)) == n
  {
    if n < 0 {
      assert LongLong(n)[1..] == Decimal(-n) + [];
      DecimalValue(-n, []);
    } else {
      assert LongLong(n) == Decimal(n) + [];
      AtoiDecimal(n, []);
    }
  }

  // --------------------------------------------------------------------------
  // Replaying
  // --------------------------------------------------------------------------

  datatype Add = Rpush | Sadd | Zadd | Hmset

  function Name(a: Add): Bytes {
    match a
    case Rpush => "RPUSH"
    case Sadd => "SADD"
    case Zadd => "ZADD"
    case Hmset => "HMSET"
  }

  /** How many arguments make one element. */
  function Width(a: Add): nat {
    if a.Rpush? || a.Sadd? then 1 else 2
  }

  function AddNamed(name: Bytes): Option<Add> {
    if name == "RPUSH" then Some(Rpush)
    else if name == "SADD" then Some(Sadd)
    else if name == "ZADD" then Some(Zadd)
    else if name == "HMSET" then Some(Hmset)
    else None
  }

  /** ZADD's pairs are score then member. */
  function AddScores(m: map<Bytes, Bytes>, args: seq<Bytes>): map<Bytes, Bytes>
    decreases |args|
  {
    if |args| < 2 then m else AddScores(m[args[1] := args[0]], args[2..])
  }

  /** HMSET's pairs are field then value. */
  function AddFields(m: map<Bytes, Bytes>, args: seq<Bytes>): map<Bytes, Bytes>
    decreases |args|
  {
    if |args| < 2 then m else AddFields(m[args[0] := args[1]], args[2..])
  }

  predicate Fits(a: Add, v: Value) {
    match a
    case Rpush => v.List?
    case Sadd => v.Set?
    case Zadd => v.SortedSet?
    case Hmset => v.Hash?
  }

  function Elements(args: seq<Bytes>): set<Bytes> {
    set x | x in args
  }

  function Grown(a: Add, v: Value, args: seq<Bytes>): Value
    requires Fits(a, v)
  {
    match a
    case Rpush => List(v.items + args)
    case Sadd => Set(v.members + Elements(args))
    case Zadd => SortedSet(AddScores(v.scores, args))
    case Hmset => Hash(AddFields(v.fields, args))
  }

  function EmptyValue(a: Add): (v: Value)
    ensures Fits(a, v)
  {
    match a
    case Rpush => List([])
    case Sadd => Set({})
    case Zadd => SortedSet(map[])
    case Hmset => Hash(map[])
  }

  /** A missing key starts empty and without expiry; a value of another type is an error. */
  function AddElements(ks: Keyspace, a: Add, key: Bytes, args: seq<Bytes>): Keyspace {
    var e := if key in Current(ks) then Current(ks)[key] else Entry(EmptyValue(a), None);
    if Fits(a, e.value) then Put(ks, key, e.(value := Grown(a, e.value, args))) else ks
  }

  /** The effect, while loading, of a command as the rewrite prints it.  Other commands are not modelled. */
  function Replay(ks: Keyspace, c: Command): Keyspace {
    if |c| == 2 && c[0] == "SELECT" && Atoi(c[1]) >= 0 then ks.(selected := Atoi(c[1]))
    else if |c| == 3 && c[0] == "SET" then Put(ks, c[1], Entry(Str(c[2]), None))
    else if |c| == 3 && c[0] == "PEXPIREAT" then
      if c[1] in Current(ks) then Put(ks, c[1], Current(ks)[c[1]].(expire := Some(Atoi(c[2])))) else ks
    else if |c| >= 3 && AddNamed(c[0]).Some? && |c| % Width(AddNamed(c[0]).value) == 0 then
      AddElements(ks, AddNamed(c[0]).value, c[1], c[2..])
    else ks
  }

  function ReplayAll(ks: Keyspace, cs: seq<Command>): Keyspace
    decreases |cs|
  {
    if cs == [] then ks else ReplayAll(Replay(ks, cs[0]), cs[1..])
  }

  lemma {:induction false} ReplayConcat(ks: Keyspace, a: seq<Command>, b: seq<Command>)
    ensures ReplayAll(ks, a + b) == ReplayAll(ReplayAll(ks, a), b)
    decreases |a|
  {
    hide Replay;
    if a == [] {
      assert a + b == b;
    } else {
      assert (a + b)[1..] == a[1..] + b;
      ReplayConcat(Replay(ks, a[0]), a[1..], b);
    }
  }
}
