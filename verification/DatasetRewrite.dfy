/** rewriteAppendOnlyFileRio: a short log that rebuilds the keyspace, 64 elements to a command. */
module DatasetRewrite {
  import opened Common
  import opened Resp
  import opened Dataset

  const ITEMS_PER_CMD: nat := 64

  // --------------------------------------------------------------------------
  // What is listed
  // --------------------------------------------------------------------------

  /** A value as its iterator lists it, in whatever order. */
  datatype Listed = Text(text: Bytes) | Items(add: Add, groups: seq<seq<Bytes>>)

  /** A key with its value and absolute expiry in milliseconds. */
  datatype Record = Record(key: Bytes, listed: Listed, expire: Option<int>)

  predicate Uniform(groups: seq<seq<Bytes>>, width: nat) {
    forall g | g in groups :: |g| == width
  }

  /** The pairs at positions `key` and `value` of the groups are the map's, none missing. */
  predicate Tabulates(groups: seq<seq<Bytes>>, key: nat, value: nat, m: map<Bytes, Bytes>)
    requires Uniform(groups, 2) && key < 2 && value < 2
  {
    && (forall g | g in groups :: g[key] in m && m[g[key]] == g[value])
    && (forall k | k in m :: exists g | g in groups :: g[key] == k)
  }

  /** The list holds exactly the value's elements.  No key holds an empty aggregate. */
  ghost predicate Lists(l: Listed, v: Value) {
    match l
    case Text(t) => v == Str(t)
    case Items(a, groups) =>
      && groups != [] && Uniform(groups, Width(a)) && Fits(a, v)
      && match a
         case Rpush => v.items == seq(|groups|, i requires 0 <= i < |groups| => groups[i][0])
         case Sadd => v.members == set g | g in groups :: g[0]
         case Zadd => Tabulates(groups, 1, 0, v.scores)
         case Hmset => Tabulates(groups, 0, 1, v.fields)
  }

  ghost predicate ListsEntry(r: Record, e: Entry) {
    Lists(r.listed, e.value) && r.expire == e.expire
  }

  predicate Distinct(rs: seq<Record>) {
    forall i, j | 0 <= i < j < |rs| :: rs[i].key != rs[j].key
  }

  function Keys(rs: seq<Record>): set<Bytes> {
    set r | r in rs :: r.key
  }

  ghost predicate ListsAll(rs: seq<Record>, db: Db) {
    forall r | r in rs :: r.key in db && ListsEntry(r, db[r.key])
  }

  /** The database's dictionary listed once over. */
  ghost predicate ListsDb(rs: seq<Record>, db: Db) {
    Distinct(rs) && Keys(rs) == db.Keys && ListsAll(rs, db)
  }

  // --------------------------------------------------------------------------
  // The commands
  // --------------------------------------------------------------------------

  function Flatten(groups: seq<seq<Bytes>>): seq<Bytes> {
    if groups == [] then [] else groups[0] + Flatten(groups[1..])
  }

  function ChunkSize(n: nat): nat {
    if n > ITEMS_PER_CMD then ITEMS_PER_CMD else n
  }

  /** The commands that add the groups to a key, 64 groups at most in each. */
  function Chunks(name: Bytes, key: Bytes, groups: seq<seq<Bytes>>): seq<Command>
    decreases |groups|
  {
    if groups == [] then []
    else
      var n := ChunkSize(|groups|);
      [[name, key] + Flatten(groups[..n])] + Chunks(name, key, groups[n..])
  }

  /** The i-th command carries the groups from 64 i on, up to 64 of them. */
  lemma {:induction false} ChunkAt(name: Bytes, key: Bytes, groups: seq<seq<Bytes>>, i: nat)
    requires 64 * i < |groups|
    ensures i < |Chunks(name, key, groups)|
    ensures var end := if 64 * i + 64 < |groups| then 64 * i + 64 else |groups|;
            Chunks(name, key, groups)[i] == [name, key] + Flatten(groups[64 * i..end])
    decreases |groups|
  {
    hide Flatten;
    var n := ChunkSize(|groups|);
    if i == 0 {
      assert groups[0..n] == groups[..n];
    } else {
      var rest := groups[64..];
      ChunkAt(name, key, rest, i - 1);
      var end := if 64 * i + 64 < |groups| then 64 * i + 64 else |groups|;
      assert rest[64 * (i - 1)..end - 64] == groups[64 * i..end];
    }
  }

  /** There are no more commands than that takes. */
  lemma {:induction false} ChunkCount(name: Bytes, key: Bytes, groups: seq<seq<Bytes>>)
    ensures |Chunks(name, key, groups)| == (|groups| + 63) / 64
    decreases |groups|
  {
    hide Flatten;
    if groups != [] {
      ChunkCount(name, key, groups[ChunkSize(|groups|)..]);
    }
  }

  function ValueCommands(key: Bytes, l: Listed): seq<Command> {
    match l
    case Text(t) => [["SET", key, t]]
    case Items(a, groups) => Chunks(Name(a), key, groups)
  }

  function ExpireCommands(key: Bytes, expire: Option<int>): seq<Command> {
    if expire.Some? then [["PEXPIREAT", key, LongLong(expire.value)]] else []
  }

  function DbCommands(rs: seq<Record>): seq<Command> {
    if rs == [] then []
    else ValueCommands(rs[0].key, rs[0].listed) + ExpireCommands(rs[0].key, rs[0].expire) + DbCommands(rs[1..])
  }

  function Select(j: nat): Command {
    ["SELECT", Decimal(j)]
  }

  /** The databases from number j on; an empty one is passed over. */
  function Commands(ls: seq<seq<Record>>, j: nat): seq<Command> {
    if ls == [] then []
    else (if ls[0] == [] then [] else [Select(j)] + DbCommands(ls[0])) + Commands(ls[1..], j + 1)
  }

  // --------------------------------------------------------------------------
  // Replaying a key
  // --------------------------------------------------------------------------

  lemma {:induction false} FlattenLength(a: Add, groups: seq<seq<Bytes>>)
    requires Uniform(groups, Width(a))
    ensures |Flatten(groups)| == if Width(a) == 1 then |groups| else 2 * |groups|
    decreases |groups|
  {
    if groups == [] {
    } else {
      assert groups[0] in groups;
      FlattenLength(a, groups[1..]);
    }
  }

  lemma {:induction false} FlattenConcat(a: seq<seq<Bytes>>, b: seq<seq<Bytes>>)
    ensures Flatten(a + b) == Flatten(a) + Flatten(b)
    decreases |a|
  {
    if a == [] {
      assert a + b == b;
    } else {
      assert (a + b)[1..] == a[1..] + b;
      FlattenConcat(a[1..], b);
    }
  }

  lemma {:induction false} ScoresConcat(m: map<Bytes, Bytes>, a: seq<Bytes>, b: seq<Bytes>)
    requires |a| % 2 == 0
    ensures AddScores(m, a + b) == AddScores(AddScores(m, a), b)
    decreases |a|
  {
    if a == [] {
      assert a + b == b;
    } else {
      assert (a + b)[2..] == a[2..] + b;
      ScoresConcat(m[a[1] := a[0]], a[2..], b);
    }
  }

  lemma {:induction false} FieldsConcat(m: map<Bytes, Bytes>, a: seq<Bytes>, b: seq<Bytes>)
    requires |a| % 2 == 0
    ensures AddFields(m, a + b) == AddFields(AddFields(m, a), b)
    decreases |a|
  {
    if a == [] {
      assert a + b == b;
    } else {
      assert (a + b)[2..] == a[2..] + b;
      FieldsConcat(m[a[0] := a[1]], a[2..], b);
    }
  }

  /** Adding in two commands is adding in one. */
  lemma GrownTwice(a: Add, v: Value, x: seq<Bytes>, y: seq<Bytes>)
    requires Fits(a, v) && |x| % Width(a) == 0
    ensures Grown(a, Grown(a, v, x), y) == Grown(a, v, x + y)
  {
    match a {
      case Rpush => assert v.items + x + y == v.items + (x + y);
      case Sadd => assert v.members + Elements(x) + Elements(y) == v.members + Elements(x + y);
      case Zadd => ScoresConcat(v.scores, x, y);
      case Hmset => FieldsConcat(v.fields, x, y);
    }
  }

  /** Where a key stands before its elements are added. */
  function Before(ks: Keyspace, a: Add, key: Bytes): Entry {
    if key in Current(ks) then Current(ks)[key] else Entry(EmptyValue(a), None)
  }

  lemma AddReplay(ks: Keyspace, a: Add, key: Bytes, args: seq<Bytes>)
    requires Fits(a, Before(ks, a, key).value) && args != [] && |args| % Width(a) == 0
    ensures var e := Before(ks, a, key);
            Replay(ks, [Name(a), key] + args) == Put(ks, key, e.(value := Grown(a, e.value, args)))
  {
    hide Grown, Put;
    var c := [Name(a), key] + args;
    assert c[2..] == args && c[0] == Name(a) && c[1] == key;
    assert AddNamed(Name(a)) == Some(a);
    assert |c| == 2 + |args|;
    assert |c| % Width(a) == 0;
    assert c[0] != "SELECT" && c[0] != "SET" && c[0] != "PEXPIREAT";
  }

  /** The chunks together add all the elements, whatever their number. */
  lemma {:induction false} ChunksReplay(ks: Keyspace, a: Add, key: Bytes, groups: seq<seq<Bytes>>)
    requires groups != [] && Uniform(groups, Width(a)) && Fits(a, Before(ks, a, key).value)
    ensures var e := Before(ks, a, key);
            ReplayAll(ks, Chunks(Name(a), key, groups)) == Put(ks, key, e.(value := Grown(a, e.value, Flatten(groups))))
    decreases |groups|
  {
    hide Replay, Grown, AddNamed, Name, Put, Flatten, Current;
    var n := ChunkSize(|groups|);
    var e, chunk, rest := Before(ks, a, key), groups[..n], groups[n..];
    FlattenLength(a, chunk);
    AddReplay(ks, a, key, Flatten(chunk));
    var c := [Name(a), key] + Flatten(chunk);
    var ks' := Put(ks, key, e.(value := Grown(a, e.value, Flatten(chunk))));
    assert Chunks(Name(a), key, groups) == [c] + Chunks(Name(a), key, rest);
    assert ReplayAll(ks, [c] + Chunks(Name(a), key, rest)) == ReplayAll(ks', Chunks(Name(a), key, rest)) by {
      assert ([c] + Chunks(Name(a), key, rest))[1..] == Chunks(Name(a), key, rest);
    }
    if rest == [] {
      assert chunk == groups;
    } else {
      PutTwice(ks, key, e.(value := Grown(a, e.value, Flatten(chunk))),
               e.(value := Grown(a, e.value, Flatten(groups))));
      GrownFits(a, e.value, Flatten(chunk));
      ChunksReplay(ks', a, key, rest);
      FlattenConcat(chunk, rest);
      assert chunk + rest == groups;
      GrownTwice(a, e.value, Flatten(chunk), Flatten(rest));
    }
  }

  lemma GrownFits(a: Add, v: Value, x: seq<Bytes>)
    requires Fits(a, v)
    ensures Fits(a, Grown(a, v, x))
  {
  }

  lemma PutTwice(ks: Keyspace, key: Bytes, e: Entry, f: Entry)
    ensures Put(Put(ks, key, e), key, f) == Put(ks, key, f)
    ensures key in Current(Put(ks, key, e)) && Current(Put(ks, key, e))[key] == e
  {
    assert Current(ks)[key := e][key := f] == Current(ks)[key := f];
  }

  // --------------------------------------------------------------------------
  // The elements listed are the value
  // --------------------------------------------------------------------------

  lemma {:induction false} FlattenSingles(groups: seq<seq<Bytes>>)
    requires Uniform(groups, 1)
    ensures |Flatten(groups)| == |groups| && forall i | 0 <= i < |groups| :: Flatten(groups)[i] == groups[i][0]
    ensures Flatten(groups) == seq(|groups|, i requires 0 <= i < |groups| => groups[i][0])
    decreases |groups|
  {
    if groups == [] {
    } else {
      var rest := groups[1..];
      assert groups[0] in groups;
      FlattenSingles(rest);
      assert Flatten(groups) == groups[0] + Flatten(rest);
      assert forall i | 1 <= i < |groups| :: groups[i] == rest[i - 1];
    }
  }

  lemma {:induction false} SingleElements(groups: seq<seq<Bytes>>)
    requires Uniform(groups, 1)
    ensures Elements(Flatten(groups)) == set g | g in groups :: g[0]
  {
    hide Flatten;
    FlattenSingles(groups);
    var all := Flatten(groups);
    forall g | g in groups ensures g[0] in all {
      var i :| 0 <= i < |groups| && groups[i] == g;
      assert all[i] == g[0];
    }
    forall x | x in all ensures exists g | g in groups :: g[0] == x {
      var i :| 0 <= i < |all| && all[i] == x;
      assert groups[i] in groups;
    }
  }

  /** Adding pairs that all agree with m: what is added is m at their members. */
  lemma {:induction false} ScoresTabulate(acc: map<Bytes, Bytes>, groups: seq<seq<Bytes>>, m: map<Bytes, Bytes>)
    requires Uniform(groups, 2)
    requires forall g | g in groups :: g[1] in m && m[g[1]] == g[0]
    requires forall k | k in acc :: k in m && m[k] == acc[k]
    ensures var r := AddScores(acc, Flatten(groups));
            && (forall k | k in r :: k in m && m[k] == r[k])
            && (forall k | k in acc :: k in r)
            && (forall g | g in groups :: g[1] in r)
    decreases |groups|
  {
    if groups == [] {
    } else {
      var g, rest := groups[0], groups[1..];
      assert g in groups;
      assert Uniform(rest, 2);
      var all := Flatten(groups);
      assert all[0] == g[0] && all[1] == g[1] && all[2..] == Flatten(rest);
      ScoresTabulate(acc[g[1] := g[0]], rest, m);
      assert forall h | h in groups :: h == g || h in rest;
    }
  }

  lemma {:induction false} FieldsTabulate(acc: map<Bytes, Bytes>, groups: seq<seq<Bytes>>, m: map<Bytes, Bytes>)
    requires Uniform(groups, 2)
    requires forall g | g in groups :: g[0] in m && m[g[0]] == g[1]
    requires forall k | k in acc :: k in m && m[k] == acc[k]
    ensures var r := AddFields(acc, Flatten(groups));
            && (forall k | k in r :: k in m && m[k] == r[k])
            && (forall k | k in acc :: k in r)
            && (forall g | g in groups :: g[0] in r)
    decreases |groups|
  {
    if groups == [] {
    } else {
      var g, rest := groups[0], groups[1..];
      assert g in groups;
      assert Uniform(rest, 2);
      var all := Flatten(groups);
      assert all[0] == g[0] && all[1] == g[1] && all[2..] == Flatten(rest);
      FieldsTabulate(acc[g[0] := g[1]], rest, m);
      assert forall h | h in groups :: h == g || h in rest;
    }
  }

  lemma {:induction false} ScoresRebuilt(groups: seq<seq<Bytes>>, m: map<Bytes, Bytes>)
    requires Uniform(groups, 2) && Tabulates(groups, 1, 0, m)
    ensures AddScores(map[], Flatten(groups)) == m
  {
    hide AddScores, Flatten;
    ScoresTabulate(map[], groups, m);
    var r := AddScores(map[], Flatten(groups));
    forall k | k in m ensures k in r {
      var g :| g in groups && g[1] == k;
    }
  }

  lemma {:induction false} FieldsRebuilt(groups: seq<seq<Bytes>>, m: map<Bytes, Bytes>)
    requires Uniform(groups, 2) && Tabulates(groups, 0, 1, m)
    ensures AddFields(map[], Flatten(groups)) == m
  {
    hide AddFields, Flatten;
    FieldsTabulate(map[], groups, m);
    var r := AddFields(map[], Flatten(groups));
    forall k | k in m ensures k in r {
      var g :| g in groups && g[0] == k;
    }
  }

  lemma ElementsRebuilt(l: Listed, v: Value)
    requires l.Items? && Lists(l, v)
    ensures Grown(l.add, EmptyValue(l.add), Flatten(l.groups)) == v
  {
    hide AddFields, AddScores, Flatten, Tabulates;
    match l.add {
      case Rpush => FlattenSingles(l.groups);
      case Sadd => SingleElements(l.groups);
      case Zadd => ScoresRebuilt(l.groups, v.scores);
      case Hmset => FieldsRebuilt(l.groups, v.fields);
    }
  }

  /** A key's commands put back its value and its expiry. */
  lemma {:induction false} RecordReplay(ks: Keyspace, r: Record, e: Entry)
    requires ListsEntry(r, e) && r.key !in Current(ks)
    ensures ReplayAll(ks, ValueCommands(r.key, r.listed) + ExpireCommands(r.key, r.expire)) == Put(ks, r.key, e)
  {
    hide Replay, Chunks, Flatten, Grown, Lists;
    var v := Entry(e.value, None);
    ReplayConcat(ks, ValueCommands(r.key, r.listed), ExpireCommands(r.key, r.expire));
    ValueReplay(ks, r.key, r.listed, e.value);
    PutTwice(ks, r.key, v, e);
    if r.expire.Some? {
      ExpireReplay(Put(ks, r.key, v), r.key, r.expire.value);
    }
  }

  lemma {:induction false} ValueReplay(ks: Keyspace, key: Bytes, l: Listed, v: Value)
    requires Lists(l, v) && key !in Current(ks)
    ensures ReplayAll(ks, ValueCommands(key, l)) == Put(ks, key, Entry(v, None))
  {
    hide Chunks, Flatten, Grown, Tabulates;
    match l {
      case Text(t) => assert Replay(ks, ["SET", key, t]) == Put(ks, key, Entry(Str(t), None));
      case Items(a, groups) =>
        ChunksReplay(ks, a, key, groups);
        ElementsRebuilt(l, v);
    }
  }

  lemma {:induction false} ExpireReplay(ks: Keyspace, key: Bytes, expire: int)
    requires key in Current(ks)
    ensures ReplayAll(ks, ExpireCommands(key, Some(expire))) == Put(ks, key, Current(ks)[key].(expire := Some(expire)))
  {
    hide LongLong, Put;
    AtoiLongLong(expire);
  }

  // --------------------------------------------------------------------------
  // Replaying a database, and all of them
  // --------------------------------------------------------------------------

  function Part(db: Db, keys: set<Bytes>): Db {
    map k | k in keys && k in db :: db[k]
  }

  lemma PartGrows(cur: Db, db: Db, k: Bytes, keys: set<Bytes>)
    requires k in db && k !in keys
    ensures cur[k := db[k]] + Part(db, keys) == cur + Part(db, {k} + keys)
  {
  }

  lemma {:induction false} DbReplay(ks: Keyspace, rs: seq<Record>, db: Db)
    requires Distinct(rs) && ListsAll(rs, db) && Keys(rs) !! Current(ks).Keys && rs != []
    ensures ReplayAll(ks, DbCommands(rs)) == WithCurrent(ks, Current(ks) + Part(db, Keys(rs)))
    decreases |rs|
  {
    hide ValueCommands, ExpireCommands, ListsEntry, Replay, Part, Keys, ReplayAll;
    var r, rest := rs[0], rs[1..];
    var own := ValueCommands(r.key, r.listed) + ExpireCommands(r.key, r.expire);
    assert r in rs;
    KeysSplit(rs);
    RecordReplay(ks, r, db[r.key]);
    ReplayConcat(ks, own, DbCommands(rest));
    PartGrows(Current(ks), db, r.key, Keys(rest));
    var ks' := Put(ks, r.key, db[r.key]);
    if rest == [] {
      NothingMore(ks', db);
    } else {
      DbReplay(ks', rest, db);
    }
  }

  lemma {:induction false} NothingMore(ks: Keyspace, db: Db)
    requires ks.selected in ks.dbs
    ensures ReplayAll(ks, DbCommands([])) == ks == WithCurrent(ks, Current(ks) + Part(db, Keys([])))
  {
    assert Current(ks) + Part(db, Keys([])) == Current(ks);
    assert ks.dbs[ks.selected := Current(ks)] == ks.dbs;
  }

  lemma KeysSplit(rs: seq<Record>)
    requires Distinct(rs) && rs != []
    ensures Keys(rs) == {rs[0].key} + Keys(rs[1..]) && rs[0].key !in Keys(rs[1..])
  {
    assert forall r | r in rs :: r == rs[0] || r in rs[1..];
    assert forall r | r in rs[1..] :: r in rs;
    assert rs[0] in rs;
    forall r | r in rs[1..] ensures r.key != rs[0].key {
      var i :| 0 <= i < |rs[1..]| && rs[1..][i] == r;
      assert rs[i + 1] == r;
    }
  }

  /** The listings of databases j, j + 1, ... */
  ghost predicate ListsDataset(ls: seq<seq<Record>>, dbs: seq<Db>) {
    |ls| == |dbs| && forall i | 0 <= i < |ls| :: ListsDb(ls[i], dbs[i])
  }

  lemma {:induction false} OneDb(ks: Keyspace, rs: seq<Record>, db: Db, j: nat)
    requires ListsDb(rs, db) && rs != [] && DbOf(ks, j) == map[]
    ensures ReplayAll(ks, [Select(j)] + DbCommands(rs)) == Keyspace(ks.dbs[j := db], j)
  {
    hide DbCommands, Keys, ListsAll, Decimal;
    AtoiDecimal(j, []);
    assert Decimal(j) + [] == Decimal(j);
    var ks' := ks.(selected := j);
    assert Replay(ks, Select(j)) == ks';
    assert ([Select(j)] + DbCommands(rs))[1..] == DbCommands(rs);
    DbReplay(ks', rs, db);
    assert map[] + Part(db, Keys(rs)) == db;
  }

  /** Database i once databases from j on have been put back. */
  function Filled(ks: Keyspace, dbs: seq<Db>, j: nat, i: nat): Db {
    if j <= i < j + |dbs| then dbs[i - j] else DbOf(ks, i)
  }

  /** Replaying the rewrite from databases that are empty fills each with what was listed. */
  lemma {:induction false} DatasetReplay(ks: Keyspace, ls: seq<seq<Record>>, dbs: seq<Db>, j: nat)
    requires ListsDataset(ls, dbs) && forall i | i >= j :: DbOf(ks, i) == map[]
    ensures var ks' := ReplayAll(ks, Commands(ls, j));
            forall i: nat :: DbOf(ks', i) == Filled(ks, dbs, j, i)
    decreases |ls|
  {
    hide ListsDb, ReplayAll, DbCommands, Select;
    if ls == [] {
      NothingReplayed(ks);
    } else {
      var own := if ls[0] == [] then [] else [Select(j)] + DbCommands(ls[0]);
      ReplayConcat(ks, own, Commands(ls[1..], j + 1));
      var ks' := ReplayAll(ks, own);
      assert ListsDb(ls[0], dbs[0]);
      if ls[0] == [] {
        EmptyDb(ks, ls[0], dbs[0]);
      } else {
        OneDb(ks, ls[0], dbs[0], j);
      }
      assert forall i: nat :: DbOf(ks', i) == if i == j then dbs[0] else DbOf(ks, i);
      DatasetReplay(ks', ls[1..], dbs[1..], j + 1);
      var final := ReplayAll(ks, Commands(ls, j));
      forall i: nat ensures DbOf(final, i) == Filled(ks, dbs, j, i) {
        assert DbOf(final, i) == Filled(ks', dbs[1..], j + 1, i);
      }
    }
  }

  lemma {:induction false} EmptyDb(ks: Keyspace, rs: seq<Record>, db: Db)
    requires ListsDb(rs, db) && rs == []
    ensures db == map[] && ReplayAll(ks, []) == ks
  {
  }

  lemma {:induction false} NothingReplayed(ks: Keyspace)
    ensures ReplayAll(ks, []) == ks
  {
  }
}
