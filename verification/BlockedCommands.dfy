/**
 The commands between two rounds of serving: which of them keep every list-type waiter marked
 ready beside a full list, and exactly when the others do not.
 */
module BlockedCommands {
  import opened Common
  import opened BlockedIndex
  import opened BlockedServe
  import opened BlockedRun

  // --------------------------------------------------------------------------
  // Storing values
  // --------------------------------------------------------------------------

  /** dbAdd: a new list or sorted set marks its key ready if somebody waits for it. */
  function DbAdd(w: World, k: Key, v: Value): World {
    w.(db := w.db[k := v], index := if v.ListValue? || v.ZsetValue? then Signal(w.index, k) else w.index)
  }

  /** dbOverwrite marks nothing. */
  function DbOverwrite(w: World, k: Key, v: Value): World {
    w.(db := w.db[k := v])
  }

  function SetKey(w: World, k: Key, v: Value): World {
    if k !in w.db then DbAdd(w, k, v) else DbOverwrite(w, k, v)
  }

  function DbDelete(w: World, k: Key): World {
    w.(db := w.db - {k})
  }

  function PushedAll(items: seq<Element>, elements: seq<Element>, head: bool): (r: seq<Element>)
    ensures |r| == |items| + |elements|
    decreases |elements|
  {
    if elements == [] then items else PushedAll(Pushed(items, elements[0], head), elements[1..], head)
  }

  /** pushGenericCommand: a missing key is created, empty, through dbAdd; a value of another type is an error. */
  function Push(w: World, k: Key, elements: seq<Element>, head: bool): World {
    if k in w.db && !w.db[k].ListValue? then w
    else if elements == [] then w
    else
      var w1 := if k in w.db then w else DbAdd(w, k, ListValue([]));
      DbOverwrite(w1, k, ListValue(PushedAll(w1.db[k].items, elements, head)))
  }

  function Reversed(s: seq<Element>): (r: seq<Element>)
    ensures |r| == |s| && forall i | 0 <= i < |s| :: r[i] == s[|s| - 1 - i]
  {
    if s == [] then [] else Reversed(s[1..]) + [s[0]]
  }

  /** RPUSH appends its elements in order; LPUSH puts them in front one after the other, so in reverse. */
  lemma {:induction false} PushedAllIs(items: seq<Element>, elements: seq<Element>, head: bool)
    ensures PushedAll(items, elements, head) == if head then Reversed(elements) + items else items + elements
    decreases |elements|
  {
    if elements == [] {
      assert [] + items == items && items + [] == items;
    } else {
      var e, rest := elements[0], elements[1..];
      PushedAllIs(Pushed(items, e, head), rest, head);
      assert Reversed(rest) + ([e] + items) == Reversed(rest) + [e] + items;
      assert items + [e] + rest == items + elements;
    }
  }

  /** What a push stores: nothing under another type, a new list under a missing key. */
  lemma PushStores(w: World, k: Key, elements: seq<Element>, head: bool)
    requires elements != []
    ensures var w' := Push(w, k, elements, head);
            var items := if k in w.db && w.db[k].ListValue? then w.db[k].items else [];
            if k in w.db && !w.db[k].ListValue? then w' == w
            else w'.db == w.db[k := ListValue(if head then Reversed(elements) + items else items + elements)]
  {
    hide PushedAll, Signal, Reversed;
    if !(k in w.db && !w.db[k].ListValue?) {
      PushedAllIs(if k in w.db then w.db[k].items else [], elements, head);
    }
  }

  // --------------------------------------------------------------------------
  // BLPOP and BRPOP
  // --------------------------------------------------------------------------

  datatype PopOutcome = Refused | Popped(key: Key) | Blocks

  /** The first key that exists decides: wrong type, or an element to pop; with none the client blocks. */
  function PopDecision(db: map<Key, Value>, keys: seq<Key>): PopOutcome {
    if keys == [] then Blocks
    else if keys[0] in db && !db[keys[0]].ListValue? then Refused
    else if keys[0] in db && db[keys[0]].items != [] then PopOutcome.Popped(keys[0])
    else PopDecision(db, keys[1..])
  }

  lemma {:induction false} BlocksOnNothing(db: map<Key, Value>, keys: seq<Key>, k: Key)
    requires PopDecision(db, keys).Blocks? && k in keys
    ensures !Full(db, k)
  {
    if k != keys[0] {
      BlocksOnNothing(db, keys[1..], k);
    }
  }

  lemma {:induction false} PopsFromFull(db: map<Key, Value>, keys: seq<Key>)
    requires PopDecision(db, keys).Popped?
    ensures Full(db, PopDecision(db, keys).key)
  {
    if !(keys[0] in db && db[keys[0]].items != []) {
      PopsFromFull(db, keys[1..]);
    }
  }

  /** There is nothing to pop, and no error, at a key. */
  predicate PassedOver(db: map<Key, Value>, k: Key) {
    k !in db || db[k] == ListValue([])
  }

  /** The keys are tried in the order given, and the first with something to say decides. */
  lemma {:induction false} FirstDecides(db: map<Key, Value>, keys: seq<Key>, i: nat)
    requires i <= |keys| && (forall j | 0 <= j < i :: PassedOver(db, keys[j]))
    requires i < |keys| ==> !PassedOver(db, keys[i])
    ensures PopDecision(db, keys) ==
              if i == |keys| then Blocks else if db[keys[i]].ListValue? then PopOutcome.Popped(keys[i]) else Refused
    decreases i
  {
    if i > 0 {
      assert PassedOver(db, keys[0]);
      assert forall j | 0 <= j < i - 1 :: PassedOver(db, keys[1..][j]) by {
        assert forall j | 0 <= j < i - 1 :: keys[1..][j] == keys[j + 1];
      }
      FirstDecides(db, keys[1..], i - 1);
    }
  }

  /** blockingPopGenericCommand outside MULTI. */
  function BlockingPop(w: World, c: ClientId, keys: seq<Key>, head: bool): World
    requires c in w.index.clients
  {
    match PopDecision(w.db, keys)
    case Refused => w
    case Popped(k) =>
      PopsFromFull(w.db, keys);
      var db := Taken(w.db, k, head);
      w.(db := if db[k].items == [] then db - {k} else db)
    case Blocks =>
      w.(index := BlockForKeys(Aiming(w.index, c, head), c, OnList, keys, None))
  }

  /** A pop takes the element at its end, and the key with the last one. */
  lemma BlockingPopTakes(w: World, c: ClientId, keys: seq<Key>, head: bool) returns (e: Element, rest: seq<Element>)
    requires c in w.index.clients && PopDecision(w.db, keys).Popped?
    ensures var k, w' := PopDecision(w.db, keys).key, BlockingPop(w, c, keys, head);
            && k in w.db && w.db[k].ListValue? && Pops(w.db[k].items, head, e, rest)
            && w'.index == w.index && w'.log == w.log
            && w'.db == if rest == [] then w.db - {k} else w.db[k := ListValue(rest)]
  {
    PopsFromFull(w.db, keys);
    var k := PopDecision(w.db, keys).key;
    var items := w.db[k].items;
    e := if head then items[0] else items[|items| - 1];
    rest := if head then items[1..] else items[..|items| - 1];
    assert w.db[k := ListValue([])] - {k} == w.db - {k};
  }

  // --------------------------------------------------------------------------
  // Storing values keeps the marks
  // --------------------------------------------------------------------------

  /** A change to one key's value, with marks only added, can forget nobody on another key. */
  lemma OneKeyChanges(w: World, w': World, k: Key)
    requires Alert(w, None) && w'.index.blocking == w.index.blocking && w'.index.clients == w.index.clients
    requires w.index.readySet <= w'.index.readySet && forall j | j != k :: Full(w'.db, j) ==> Full(w.db, j)
    ensures Alert(w', None) <==> !(HasListWaiter(w.index, k) && Full(w'.db, k) && k !in w'.index.readySet)
  {
    hide HasListWaiter, Full;
    forall j | HasListWaiter(w'.index, j) ensures HasListWaiter(w.index, j) {
      SameListWaiters(w'.index, w.index, j);
    }
    if HasListWaiter(w.index, k) {
      SameListWaiters(w.index, w'.index, k);
      WaitedIsListed(w.index, k);
    }
  }

  /** Creating a key never leaves a waiter unmarked. */
  lemma AddKeepsAlert(w: World, k: Key, v: Value)
    requires Alert(w, None) && k !in w.db
    ensures Alert(DbAdd(w, k, v), None)
  {
    hide HasListWaiter, Alert;
    OneKeyChanges(w, DbAdd(w, k, v), k);
    if HasListWaiter(w.index, k) {
      WaitedIsListed(w.index, k);
    }
  }

  /** Overwriting leaves one unmarked exactly when it puts elements under an unmarked list-type waiter. */
  lemma OverwriteKeepsAlertIff(w: World, k: Key, v: Value)
    requires Alert(w, None) && k in w.db
    ensures Alert(DbOverwrite(w, k, v), None) <==>
            !(v.ListValue? && v.items != [] && HasListWaiter(w.index, k) && k !in w.index.readySet)
  {
    hide HasListWaiter, Alert;
    OneKeyChanges(w, DbOverwrite(w, k, v), k);
  }

  lemma SetKeepsAlertIff(w: World, k: Key, v: Value)
    requires Alert(w, None)
    ensures Alert(SetKey(w, k, v), None) <==>
            !(k in w.db && v.ListValue? && v.items != [] && HasListWaiter(w.index, k) && k !in w.index.readySet)
  {
    hide HasListWaiter, Alert, DbAdd, DbOverwrite;
    if k in w.db {
      OverwriteKeepsAlertIff(w, k, v);
    } else {
      AddKeepsAlert(w, k, v);
    }
  }

  lemma DeleteKeepsAlert(w: World, k: Key)
    requires Alert(w, None)
    ensures Alert(DbDelete(w, k), None)
  {
    hide HasListWaiter, Alert;
    OneKeyChanges(w, DbDelete(w, k), k);
  }

  /** A push leaves a waiter unmarked exactly when the list was there already, empty. */
  lemma PushKeepsAlertIff(w: World, k: Key, elements: seq<Element>, head: bool)
    requires Alert(w, None) && elements != []
    ensures Alert(Push(w, k, elements, head), None) <==>
            !(k in w.db && w.db[k] == ListValue([]) && HasListWaiter(w.index, k) && k !in w.index.readySet)
  {
    hide HasListWaiter, PushedAll;
    var w' := Push(w, k, elements, head);
    if HasListWaiter(w.index, k) {
      WaitedIsListed(w.index, k);
    }
    if !(k in w.db && !w.db[k].ListValue?) {
      assert Full(w'.db, k);
      OneKeyChanges(w, w', k);
    }
  }

  // --------------------------------------------------------------------------
  // Blocking and unblocking keep the marks
  // --------------------------------------------------------------------------

  lemma NewWaiters(x: Index, c: ClientId, keys: seq<Key>, j: Key)
    requires Indexed(x) && c in x.clients && !x.clients[c].blocked && keys != []
    requires HasListWaiter(BlockForKeys(x, c, OnList, keys, None), j)
    ensures HasListWaiter(x, j) || j in keys
  {
    hide Core, Linked, BlockForKeys, StatusOk;
    var x' := BlockForKeys(x, c, OnList, keys, None);
    BlockKeepsIndex(x, c, OnList, keys, None);
    IndexedLinked(x);
    IndexedLinked(x');
    BlockLinked(x, c, OnList, keys, None);
    var n :| n in Waiters(x'.blocking, j) && OnListType(x', n);
    NodeWaits(x', j, n);
    if n.client != c {
      assert x'.clients[n.client] == x.clients[n.client];
      OnceIffWaiting(x, n.client, j);
      var m :| m in x.blocking[j] && m.client == n.client;
      assert m in Waiters(x.blocking, j) && OnListType(x, m);
    }
  }

  lemma IndexedLinked(x: Index)
    requires Indexed(x)
    ensures Linked(x)
  {
  }

  lemma NodeWaits(x: Index, j: Key, n: Node)
    requires Linked(x) && n in Waiters(x.blocking, j)
    ensures n.client in x.clients && j in x.clients[n.client].keys
  {
    assert ListOk(x.clients, x.nextNode, j, x.blocking[j]);
  }

  function Aiming(x: Index, c: ClientId, head: bool): Index
    requires c in x.clients
  {
    x.(clients := x.clients[c := x.clients[c].(popsHead := head)])
  }

  lemma AimingKeepsIndex(x: Index, c: ClientId, head: bool)
    requires Indexed(x) && c in x.clients
    ensures Indexed(Aiming(x, c, head))
  {
    hide Linked, Blocked, OfType;
    SameWaits(x, Aiming(x, c, head));
    AimingCounts(x.clients, c, head);
    assert StatusOk(x.clients[c]);
  }

  lemma AimingCounts(clients: map<ClientId, Client>, c: ClientId, head: bool)
    requires c in clients
    ensures var clients' := clients[c := clients[c].(popsHead := head)];
            Blocked(clients') == Blocked(clients) && forall t: BlockType :: OfType(clients', t) == OfType(clients, t)
  {
    forall t: BlockType ensures OfType(clients[c := clients[c].(popsHead := head)], t) == OfType(clients, t) {
    }
  }

  lemma AimingKeepsWaiters(x: Index, c: ClientId, head: bool, j: Key)
    requires c in x.clients && HasListWaiter(Aiming(x, c, head), j)
    ensures HasListWaiter(x, j)
  {
    var x' := Aiming(x, c, head);
    var n :| n in Waiters(x'.blocking, j) && OnListType(x', n);
    assert n in Waiters(x.blocking, j) && OnListType(x, n);
  }

  /** A client only ever blocks where there is nothing to pop. */
  lemma BlockingPopKeepsAlert(w: World, c: ClientId, keys: seq<Key>, head: bool)
    requires Indexed(w.index) && c in w.index.clients && !w.index.clients[c].blocked && keys != [] && Alert(w, None)
    ensures Indexed(BlockingPop(w, c, keys, head).index) && Alert(BlockingPop(w, c, keys, head), None)
  {
    hide Indexed, HasListWaiter, BlockForKeys, AfterPop;
    var w' := BlockingPop(w, c, keys, head);
    match PopDecision(w.db, keys) {
      case Refused =>
      case Popped(k) =>
        PopsFromFull(w.db, keys);
        OneKeyChanges(w, w', k);
      case Blocks =>
        var x := Aiming(w.index, c, head);
        AimingKeepsIndex(w.index, c, head);
        BlockKeepsIndex(x, c, OnList, keys, None);
        BlockFrame(x, c, keys);
        forall j | j in w'.index.blocking && HasListWaiter(w'.index, j) && Full(w'.db, j)
          ensures j in w'.index.readySet
        {
          NewWaiters(x, c, keys, j);
          if j in keys {
            BlocksOnNothing(w.db, keys, j);
          } else {
            AimingKeepsWaiters(w.index, c, head, j);
          }
          WaitedIsListed(w.index, j);
        }
    }
  }

  lemma BlockFrame(x: Index, c: ClientId, keys: seq<Key>)
    requires Indexed(x) && c in x.clients
    ensures BlockForKeys(x, c, OnList, keys, None).readySet == x.readySet
  {
    hide Linked, BlockForKeys, Core;
    IndexedLinked(x);
    BlockLinked(x, c, OnList, keys, None);
  }

  /** A timeout or a disconnection. */
  lemma UnblockKeepsAlert(w: World, c: ClientId)
    requires Indexed(w.index) && c in w.index.clients && w.index.clients[c].blocked && Alert(w, None)
    ensures w.index.blockedClients > 0
    ensures Indexed(Unblock(w.index, c)) && Alert(w.(index := Unblock(w.index, c)), None)
  {
    hide Core, ReadyWith, HasListWaiter, Unblock;
    UnblockKeepsIndex(w.index, c, []);
    UnblockFrame(w.index, c);
    forall j | HasListWaiter(Unblock(w.index, c), j) ensures HasListWaiter(w.index, j) && j in w.index.blocking {
      FewerListWaiters(w.index, c, j);
    }
  }

  // --------------------------------------------------------------------------
  // Any sequence of commands
  // --------------------------------------------------------------------------

  datatype Command =
    | Store(k: Key, v: Value)
    | Remove(k: Key)
    | PushTo(k: Key, elements: seq<Element>, head: bool)
    | PopFrom(c: ClientId, keys: seq<Key>, head: bool)
    | GiveUp(c: ClientId)

  predicate Possible(w: World, cmd: Command) {
    match cmd
    case Store(_, _) => true
    case Remove(_) => true
    case PushTo(_, elements, _) => elements != []
    case PopFrom(c, keys, _) => c in w.index.clients && !w.index.clients[c].blocked && keys != []
    case GiveUp(c) => c in w.index.clients && w.index.clients[c].blocked && w.index.blockedClients > 0
  }

  function Applied(w: World, cmd: Command): World
    requires Possible(w, cmd)
  {
    match cmd
    case Store(k, v) => SetKey(w, k, v)
    case Remove(k) => DbDelete(w, k)
    case PushTo(k, elements, head) => Push(w, k, elements, head)
    case PopFrom(c, keys, head) => BlockingPop(w, c, keys, head)
    case GiveUp(c) => w.(index := Unblock(w.index, c))
  }

  /** The client is blocked on lists, to pop from the given end, behind all who waited before; no one else changes. */
  ghost predicate Joined(x: Index, x': Index, c: ClientId, head: bool) {
    && c in x.clients && x'.clients.Keys == x.clients.Keys
    && (forall d | d in x.clients && d != c :: x'.clients[d] == x.clients[d])
    && var me := x'.clients[c];
       me.blocked && me.btype == OnList && me.target.None? && me.popsHead == head
       && StandsLast(x.blocking, c, me.keys, x'.blocking)
  }

  /** What the commands that store, remove, wait and give up leave behind. */
  lemma CommandMeans(w: World, cmd: Command)
    requires Indexed(w.index) && Possible(w, cmd)
    ensures var w' := Applied(w, cmd);
            && w'.log == w.log
            && (cmd.Store? ==> w'.db == w.db[cmd.k := cmd.v])
            && (cmd.Remove? ==> w'.db == w.db - {cmd.k} && w'.index == w.index)
            && (cmd.GiveUp? ==>
                  w'.db == w.db && cmd.c in w'.index.clients && !w'.index.clients[cmd.c].blocked
                  && w'.index.clients[cmd.c].keys == map[])
            && (cmd.PopFrom? && PopDecision(w.db, cmd.keys).Blocks? ==>
                  w'.db == w.db && Joined(w.index, w'.index, cmd.c, cmd.head))
  {
    hide Core, BlockForKeys, StandsLast, Signal, PushedAll;
    match cmd {
      case PopFrom(c, keys, head) =>
        if PopDecision(w.db, keys).Blocks? {
          AimingKeepsIndex(w.index, c, head);
          BlockedLast(Aiming(w.index, c, head), c, OnList, keys, None);
        }
      case GiveUp(c) => UnblockKeepsIndex(w.index, c, []);
      case _ =>
    }
  }

  /** Storing and removing is always possible, and whoever is blocked can give up. */
  lemma AlwaysPossible(w: World, k: Key, v: Value, c: ClientId)
    requires Indexed(w.index) && c in w.index.clients
    ensures Possible(w, Store(k, v)) && Possible(w, Remove(k))
    ensures w.index.clients[c].blocked ==> Possible(w, GiveUp(c))
  {
    AlwaysEnabled(w.index, c, k);
  }

  /** Elements come to an unmarked list-type waiter without its key being created. */
  predicate Overlooks(w: World, cmd: Command) {
    match cmd
    case Store(k, v) => k in w.db && v.ListValue? && v.items != [] && Unnoticed(w.index, k)
    case PushTo(k, _, _) => k in w.db && w.db[k] == ListValue([]) && Unnoticed(w.index, k)
    case _ => false
  }

  predicate Unnoticed(x: Index, k: Key) {
    HasListWaiter(x, k) && k !in x.readySet
  }

  lemma SignalKeeps(x: Index, k: Key)
    requires Indexed(x)
    ensures Indexed(Signal(x, k))
  {
    hide Core, ReadyWith, Signal;
    SignalKeepsIndex(x, k, []);
  }

  lemma CommandKeepsIndex(w: World, cmd: Command)
    requires Indexed(w.index) && Possible(w, cmd)
    ensures Indexed(Applied(w, cmd).index)
  {
    hide Indexed, Signal, BlockForKeys, Unblock, PushedAll, AfterPop;
    match cmd {
      case Store(k, v) => SignalKeeps(w.index, k);
      case Remove(k) =>
      case PushTo(k, elements, head) => SignalKeeps(w.index, k);
      case PopFrom(c, keys, head) =>
        AimingKeepsIndex(w.index, c, head);
        BlockKeepsIndex(Aiming(w.index, c, head), c, OnList, keys, None);
      case GiveUp(c) => GiveUpKeepsIndex(w.index, c);
    }
  }

  lemma GiveUpKeepsIndex(x: Index, c: ClientId)
    requires Indexed(x) && c in x.clients && x.clients[c].blocked && x.blockedClients > 0
    ensures Indexed(Unblock(x, c))
  {
    hide Core, ReadyWith, Unblock;
    UnblockKeepsIndex(x, c, []);
  }

  /** For every command: it keeps the marks if and only if it overlooks nobody. */
  lemma CommandKeepsAlertIff(w: World, cmd: Command)
    requires Indexed(w.index) && Possible(w, cmd) && Alert(w, None)
    ensures Alert(Applied(w, cmd), None) <==> !Overlooks(w, cmd)
  {
    hide Indexed, Alert, HasListWaiter, SetKey, DbDelete, Push, BlockingPop, Unblock;
    match cmd {
      case Store(k, v) => SetKeepsAlertIff(w, k, v);
      case Remove(k) => DeleteKeepsAlert(w, k);
      case PushTo(k, elements, head) => PushKeepsAlertIff(w, k, elements, head);
      case PopFrom(c, keys, head) => BlockingPopKeepsAlert(w, c, keys, head);
      case GiveUp(c) => UnblockKeepsAlert(w, c);
    }
  }

  ghost predicate IsHistory(run: seq<World>, cmds: seq<Command>) {
    && |run| == |cmds| + 1
    && forall i | 0 <= i < |cmds| :: Possible(run[i], cmds[i]) && run[i + 1] == Applied(run[i], cmds[i])
  }

  lemma {:induction false} IndexedThroughout(run: seq<World>, cmds: seq<Command>, i: nat)
    requires IsHistory(run, cmds) && Indexed(run[0].index) && i < |run|
    ensures Indexed(run[i].index)
    decreases i
  {
    hide Indexed, Possible, Applied;
    if i > 0 {
      IndexedThroughout(run, cmds, i - 1);
      assert run[i] == Applied(run[i - 1], cmds[i - 1]);
      CommandKeepsIndex(run[i - 1], cmds[i - 1]);
    }
  }

  /** A history in which no command overlooks a waiter leaves none unmarked for the next round of serving. */
  lemma {:induction false} AlertThroughout(run: seq<World>, cmds: seq<Command>, i: nat)
    requires IsHistory(run, cmds) && Indexed(run[0].index) && Alert(run[0], None) && i < |run|
    requires forall j | 0 <= j < i :: !Overlooks(run[j], cmds[j])
    ensures Alert(run[i], None)
    decreases i
  {
    hide Indexed, Possible, Applied, Alert, Overlooks;
    if i > 0 {
      AlertThroughout(run, cmds, i - 1);
      IndexedThroughout(run, cmds, i - 1);
      assert run[i] == Applied(run[i - 1], cmds[i - 1]);
      CommandKeepsAlertIff(run[i - 1], cmds[i - 1]);
    }
  }

  // --------------------------------------------------------------------------
  // Two waiters overlooked
  // --------------------------------------------------------------------------

  const ASLEEP := Client(NotBlocked, false, false, map[], None, true)

  /** Clients 1 and 2, nothing stored and nobody waiting. */
  const START := Index(map[], map[1 := ASLEEP, 2 := ASLEEP], 0,
                       map[NotBlocked := 0, OnList := 0, OnZset := 0, OnStream := 0], [], [], {}, 0)

  lemma StartIsIndexed()
    ensures Indexed(START)
  {
    hide Indexed;
    forall t: BlockType ensures t in START.byType && START.byType[t] == 0 {
      match t {
        case NotBlocked =>
        case OnList =>
        case OnZset =>
        case OnStream =>
      }
    }
    IdleIsIndexed(START);
  }

  lemma WaitsAfter(x: Index, c: ClientId, k: Key)
    requires Linked(x) && c in x.clients && k in x.clients[c].keys && x.clients[c].btype == OnList
    ensures HasListWaiter(x, k)
  {
    hide Linked;
    OnceIffWaiting(x, c, k);
    var n :| n in x.blocking[k] && n.client == c;
    assert n in Waiters(x.blocking, k) && OnListType(x, n);
  }

  /** BLPOP k with nothing stored. */
  lemma WaiterOnMissing(k: Key)
    ensures var w := BlockingPop(World(START, map[], []), 1, [k], true);
            Indexed(START) && HasListWaiter(w.index, k) && w.index.readySet == {} && w.db == map[]
  {
    hide Indexed, Linked, BlockForKeys, HasListWaiter;
    StartIsIndexed();
    assert PopDecision(map[], [k]).Blocks?;
    assert Aiming(START, 1, true) == START;
    IndexedLinked(START);
    BlockLinked(START, 1, OnList, [k], None);
    var x := BlockForKeys(START, 1, OnList, [k], None);
    assert k in x.clients[1].keys.Keys by { assert k in set j | j in [k]; }
    WaitsAfter(x, 1, k);
  }

  /**
   BLPOP k with k missing, SET k, SORT ... STORE k: the list arrives through dbOverwrite.  No list is
   empty, and the waiter is overlooked.
   */
  lemma OverwrittenWaiter() returns (run: seq<World>, cmds: seq<Command>)
    ensures IsHistory(run, cmds) && |cmds| == 3 && Indexed(run[0].index)
    ensures Alert(run[2], None) && forall i | 0 <= i < |run| :: NoEmptyLists(run[i].db, None)
    ensures !Alert(run[3], None)
  {
    hide Indexed, BlockingPop, HasListWaiter;
    var k: Key := (0, "k");
    WaiterOnMissing(k);
    var w0 := World(START, map[], []);
    var w1 := Applied(w0, PopFrom(1, [k], true));
    var w2 := Applied(w1, Store(k, OtherValue));
    var v := ListValue(["x"]);
    var w3 := Applied(w2, Store(k, v));
    OverwriteKeepsAlertIff(w2, k, v);
    run, cmds := [w0, w1, w2, w3], [PopFrom(1, [k], true), Store(k, OtherValue), Store(k, v)];
  }

  /** A BRPOPLPUSH into a list that is stored empty, with a client waiting there. */
  lemma EmptyTargetWaiter() returns (w: World, k: Key)
    ensures Indexed(w.index) && Serving(w, k) && w.db[k].items != [] && Waiters(w.index.blocking, k) != []
    ensures Alert(w, Some(k)) && First(w, k).client in w.index.clients && w.index.blockedClients > 0
    ensures Forgets(w, First(w, k).client, k) && !Alert(Deliver(w, First(w, k).client, k), Some(k))
  {
    hide Linked, Core, BlockForKeys, Deliver, HasListWaiter;
    k := (0, "k");
    var t: Key := (0, "t");
    StartIsIndexed();
    IndexedLinked(START);
    BlockKeepsIndex(START, 1, OnList, [k], Some(t));
    BlockLinked(START, 1, OnList, [k], Some(t));
    var x1 := BlockForKeys(START, 1, OnList, [k], Some(t));
    IndexedLinked(x1);
    BlockKeepsIndex(x1, 2, OnList, [t], None);
    BlockLinked(x1, 2, OnList, [t], None);
    var x2 := BlockForKeys(x1, 2, OnList, [t], None);
    IndexedLinked(x2);
    w := World(x2, map[k := ListValue(["x"]), t := ListValue([])], []);
    assert k in x1.clients[1].keys.Keys by { assert k in set j | j in [k]; }
    assert t in x2.clients[2].keys.Keys by { assert t in set j | j in [t]; }
    OnlyWaiter(x2, k, t);
    UnblockKeepsIndex(x2, 1, []);
    IndexedLinked(Unblock(x2, 1));
    WaitsAfter(Unblock(x2, 1), 2, t);
    DeliverKeepsAlertIff(w, k);
  }

  lemma OnlyWaiter(x: Index, k: Key, t: Key)
    requires Linked(x) && k != t && x.clients.Keys == {1, 2} && k in x.clients[1].keys && k !in x.clients[2].keys
    ensures Waiters(x.blocking, k) != [] && Waiters(x.blocking, k)[0].client == 1
  {
    hide DistinctIds;
    assert WaitsOk(x.blocking, 1, x.clients[1]);
    var n := x.blocking[k][0];
    NodeWaits(x, k, n);
  }
}
