/** Serving the clients blocked on a list key: the list branch of handleClientsBlockedOnKeys. */
module BlockedServe {
  import opened Common
  import opened BlockedIndex

  type Element = string

  datatype Value = ListValue(items: seq<Element>) | ZsetValue | OtherValue

  /** Where a popped element went: to the client, to the BRPOPLPUSH target, or back where it came from. */
  datatype Outcome = ToClient | ToTarget(target: Key) | Back

  datatype Served = Served(client: ClientId, key: Key, value: Element, outcome: Outcome)

  datatype World = World(index: Index, db: map<Key, Value>, log: seq<Served>)

  // --------------------------------------------------------------------------
  // One client
  // --------------------------------------------------------------------------

  function Popped(items: seq<Element>, head: bool): Element
    requires items != []
  {
    if head then items[0] else items[|items| - 1]
  }

  function AfterPop(items: seq<Element>, head: bool): seq<Element>
    requires items != []
  {
    if head then items[1..] else items[..|items| - 1]
  }

  function Pushed(items: seq<Element>, e: Element, head: bool): seq<Element> {
    if head then [e] + items else items + [e]
  }

  lemma PushUndoesPop(items: seq<Element>, head: bool)
    requires items != []
    ensures Pushed(AfterPop(items, head), Popped(items, head), head) == items
  {
  }

  /** serveClientBlockedOnList for a client already unblocked, with the pop undone when it fails. */
  function Handed(w: World, r: ClientId, k: Key, head: bool, e: Element, target: Option<Key>): World
    requires k in w.db && w.db[k].ListValue?
  {
    match target
    case None => w.(log := w.log + [Served(r, k, e, ToClient)])
    case Some(t) =>
      if t !in w.db then
        World(Signal(w.index, t), w.db[t := ListValue([e])], w.log + [Served(r, k, e, ToTarget(t))])
      else if w.db[t].ListValue? then
        w.(db := w.db[t := ListValue(Pushed(w.db[t].items, e, true))], log := w.log + [Served(r, k, e, ToTarget(t))])
      else
        w.(db := w.db[k := ListValue(Pushed(w.db[k].items, e, head))], log := w.log + [Served(r, k, e, Back)])
  }

  function Taken(db: map<Key, Value>, k: Key, head: bool): map<Key, Value>
    requires k in db && db[k].ListValue? && db[k].items != []
  {
    db[k := ListValue(AfterPop(db[k].items, head))]
  }

  /** Pop for a waiting client, unblock it, and hand the element over. */
  function Deliver(w: World, r: ClientId, k: Key): World
    requires k in w.db && w.db[k].ListValue? && w.db[k].items != []
    requires r in w.index.clients && w.index.blockedClients > 0
  {
    var cl := w.index.clients[r];
    Handed(w.(db := Taken(w.db, k, cl.popsHead), index := Unblock(w.index, r)),
           r, k, cl.popsHead, Popped(w.db[k].items, cl.popsHead), cl.target)
  }

  /** A BRPOPLPUSH whose target is not a list leaves every list exactly as it was, order included. */
  lemma FailedServeRestores(w: World, r: ClientId, k: Key)
    requires k in w.db && w.db[k].ListValue? && w.db[k].items != []
    requires r in w.index.clients && w.index.blockedClients > 0
    requires var t := w.index.clients[r].target; t.Some? && t.value in w.db && !w.db[t.value].ListValue?
    ensures Deliver(w, r, k).db == w.db
    ensures Deliver(w, r, k).log[|w.log|..] == [Served(r, k, Popped(w.db[k].items, w.index.clients[r].popsHead), Back)]
  {
    hide Unblock, Pushed, AfterPop, Popped;
    PushUndoesPop(w.db[k].items, w.index.clients[r].popsHead);
    assert w.db[k := ListValue(w.db[k].items)] == w.db;
  }

  /** Without an end of the list: the element a client gets, and the list without it. */
  predicate Pops(items: seq<Element>, head: bool, e: Element, rest: seq<Element>) {
    if head then items == [e] + rest else items == rest + [e]
  }

  /** What is stored once e, taken from k, was handed over: to the head of the target, or back to where it was. */
  predicate Stores(db: map<Key, Value>, k: Key, head: bool, e: Element, target: Option<Key>, r: map<Key, Value>)
    requires k in db && db[k].ListValue?
  {
    match target
    case None => r == db
    case Some(t) =>
      if t !in db then r == db[t := ListValue([e])]
      else if db[t].ListValue? then r == db[t := ListValue([e] + db[t].items)]
      else r == db[k := ListValue(if head then [e] + db[k].items else db[k].items + [e])]
  }

  function OutcomeOf(db: map<Key, Value>, target: Option<Key>): Outcome {
    if target.None? then ToClient
    else if target.value !in db || db[target.value].ListValue? then ToTarget(target.value)
    else Back
  }

  lemma HandedStores(w: World, r: ClientId, k: Key, head: bool, e: Element, target: Option<Key>)
    requires k in w.db && w.db[k].ListValue?
    ensures var w' := Handed(w, r, k, head, e, target);
            Stores(w.db, k, head, e, target, w'.db) && w'.log == w.log + [Served(r, k, e, OutcomeOf(w.db, target))]
  {
    hide Signal;
  }

  /** A client is served the element at its end of the list, and the rest stays in order. */
  lemma DeliverMeans(w: World, r: ClientId, k: Key) returns (e: Element, rest: seq<Element>)
    requires k in w.db && w.db[k].ListValue? && w.db[k].items != []
    requires r in w.index.clients && w.index.blockedClients > 0
    ensures var cl, w' := w.index.clients[r], Deliver(w, r, k);
            && Pops(w.db[k].items, cl.popsHead, e, rest)
            && Stores(w.db[k := ListValue(rest)], k, cl.popsHead, e, cl.target, w'.db)
            && w'.log == w.log + [Served(r, k, e, OutcomeOf(w.db, cl.target))]
  {
    hide Unblock, Stores;
    var items, cl := w.db[k].items, w.index.clients[r];
    e := if cl.popsHead then items[0] else items[|items| - 1];
    rest := if cl.popsHead then items[1..] else items[..|items| - 1];
    HandedStores(w.(db := w.db[k := ListValue(rest)], index := Unblock(w.index, r)), r, k, cl.popsHead, e, cl.target);
  }

  // --------------------------------------------------------------------------
  // The clients of one key
  // --------------------------------------------------------------------------

  predicate Serving(w: World, k: Key) {
    Core(w.index) && k in w.db && w.db[k].ListValue?
  }

  function First(w: World, k: Key): Node
    requires Waiters(w.index.blocking, k) != []
  {
    Waiters(w.index.blocking, k)[0]
  }

  predicate OnListType(x: Index, n: Node) {
    n.client in x.clients && x.clients[n.client].btype == OnList
  }

  lemma FirstIsKnown(x: Index, k: Key)
    requires Core(x) && Waiters(x.blocking, k) != []
    ensures var n := Waiters(x.blocking, k)[0];
            && n.client in x.clients && x.clients[n.client].blocked && x.blockedClients > 0
            && k in x.clients[n.client].keys && x.clients[n.client].keys[k] == n.id
  {
    hide DistinctIds, Counted, Flagged;
    var n := Waiters(x.blocking, k)[0];
    assert ListOk(x.clients, x.nextNode, k, x.blocking[k]) && n in x.blocking[k];
    assert StatusOk(x.clients[n.client]);
    AnyoneBlocked(x, n.client);
  }

  /** Serving the first waiter takes it, and nobody else, off the key's list. */
  lemma DeliverStep(w: World, k: Key)
    requires Serving(w, k) && w.db[k].items != [] && Waiters(w.index.blocking, k) != []
    ensures First(w, k).client in w.index.clients && w.index.blockedClients > 0
    ensures var r := First(w, k).client;
            var w' := Deliver(w, r, k);
            && Serving(w', k) && Waiters(w'.index.blocking, k) == Waiters(w.index.blocking, k)[1..]
            && w'.index.clients == Unblock(w.index, r).clients && w'.index.blocking == Unblock(w.index, r).blocking
            && w'.index.blockedClients == w.index.blockedClients - 1
            && w'.index.unblocked == Unblock(w.index, r).unblocked
            && |w'.log| == |w.log| + 1 && w'.log[..|w.log|] == w.log && w'.log[|w.log|].client == r
  {
    hide Core, Handed, Unblock, Signal;
    FirstIsKnown(w.index, k);
    var r := First(w, k).client;
    UnblockCore(w.index, r);
    FirstRemoved(w.index, k);
    OneBlockedLess(w.index, r);
    var x, cl := Unblock(w.index, r), w.index.clients[r];
    var w1 := w.(db := Taken(w.db, k, cl.popsHead), index := x);
    HandedFrame(w1, r, k, cl.popsHead, Popped(w.db[k].items, cl.popsHead), cl.target);
    if cl.target.Some? {
      SignalCore(x, cl.target.value);
      SignalFrame(x, cl.target.value);
    }
  }

  /** Handing over touches the index only to mark a new target. */
  lemma HandedFrame(w: World, r: ClientId, k: Key, head: bool, e: Element, target: Option<Key>)
    requires k in w.db && w.db[k].ListValue?
    ensures var w' := Handed(w, r, k, head, e, target);
            && (w'.index == w.index || (target.Some? && w'.index == Signal(w.index, target.value)))
            && k in w'.db && w'.db[k].ListValue?
            && |w'.log| == |w.log| + 1 && w'.log[..|w.log|] == w.log && w'.log[|w.log|].client == r
  {
    hide Signal, Pushed;
  }

  lemma SignalFrame(x: Index, k: Key)
    ensures var y := Signal(x, k);
            && y.blocking == x.blocking && y.clients == x.clients
            && y.blockedClients == x.blockedClients && y.unblocked == x.unblocked
  {
  }

  lemma OneBlockedLess(x: Index, c: ClientId)
    requires c in x.clients && x.blockedClients > 0
    ensures Unblock(x, c).blockedClients == x.blockedClients - 1
  {
    hide Removed;
  }

  lemma UnblockCore(x: Index, c: ClientId)
    requires Core(x) && c in x.clients && x.clients[c].blocked && x.blockedClients > 0
    ensures Core(Unblock(x, c))
  {
    hide Core;
    DetachedCore(x, c);
    QueueCore(Detached(x, c), c);
  }

  lemma SignalCore(x: Index, k: Key)
    requires Core(x)
    ensures Core(Signal(x, k))
  {
    hide ListOk, WaitsOk, StatusOk, OfType, Blocked;
  }

  lemma RotateCore(x: Index, k: Key)
    requires Core(x) && k in x.blocking
    ensures Core(Rotate(x, k))
  {
    hide ListOk, Rotated, StatusOk, OfType, Blocked;
    RotateLinked(x, k);
  }

  lemma FirstRemoved(x: Index, k: Key)
    requires Core(x) && Waiters(x.blocking, k) != []
    ensures var n := Waiters(x.blocking, k)[0];
            && n.client in x.clients && x.blockedClients > 0
            && Waiters(Unblock(x, n.client).blocking, k) == Waiters(x.blocking, k)[1..]
  {
    hide Core;
    FirstIsKnown(x, k);
    var n := x.blocking[k][0];
    assert Without(x.blocking[k], n.id) == x.blocking[k][1..];
  }

  /**
   The while loop of the list branch with `n` clients still to look at.  The list never runs out
   before the count does.
   */
  function ServeLoop(w: World, k: Key, n: nat): (w': World)
    requires Serving(w, k) && n <= |Waiters(w.index.blocking, k)|
    decreases n
  {
    if n == 0 then w
    else
      FirstIsKnown(w.index, k);
      if !OnListType(w.index, First(w, k)) then
        RotateCore(w.index, k);
        ServeLoop(w.(index := Rotate(w.index, k)), k, n - 1)
      else if w.db[k].items == [] then w
      else
        DeliverStep(w, k);
        ServeLoop(Deliver(w, First(w, k).client, k), k, n - 1)
  }

  /** How many waiters the loop gets to before it ends or the list is empty. */
  function Turns(w: World, k: Key, n: nat): (i: nat)
    requires Serving(w, k) && n <= |Waiters(w.index.blocking, k)|
    ensures i <= n
    decreases n
  {
    if n == 0 then 0
    else
      FirstIsKnown(w.index, k);
      if !OnListType(w.index, First(w, k)) then
        RotateCore(w.index, k);
        1 + Turns(w.(index := Rotate(w.index, k)), k, n - 1)
      else if w.db[k].items == [] then 0
      else
        DeliverStep(w, k);
        1 + Turns(Deliver(w, First(w, k).client, k), k, n - 1)
  }

  // --------------------------------------------------------------------------
  // First blocked, first served
  // --------------------------------------------------------------------------

  /** The waiters of a key that block on a list, or those that do not, in their order. */
  function Among(x: Index, nodes: seq<Node>, onList: bool): seq<Node> {
    if nodes == [] then []
    else (if OnListType(x, nodes[0]) == onList then [nodes[0]] else []) + Among(x, nodes[1..], onList)
  }

  function ServedClients(log: seq<Served>): seq<ClientId> {
    seq(|log|, i requires 0 <= i < |log| => log[i].client)
  }

  function ClientsOf(nodes: seq<Node>): seq<ClientId> {
    seq(|nodes|, i requires 0 <= i < |nodes| => nodes[i].client)
  }

  lemma {:induction false} AmongSame(x: Index, y: Index, nodes: seq<Node>, onList: bool)
    requires forall n | n in nodes :: OnListType(x, n) == OnListType(y, n)
    ensures Among(x, nodes, onList) == Among(y, nodes, onList)
    decreases |nodes|
  {
    hide OnListType;
    if nodes == [] {
    } else {
      assert nodes[0] in nodes;
      AmongSame(x, y, nodes[1..], onList);
    }
  }

  /** The client served is in nobody else's place. */
  lemma OthersKeepType(w: World, k: Key, n: Node)
    requires Serving(w, k) && w.db[k].items != [] && Waiters(w.index.blocking, k) != []
    requires n in Waiters(w.index.blocking, k)[1..]
    ensures First(w, k).client in w.index.clients && w.index.blockedClients > 0
    ensures OnListType(Deliver(w, First(w, k).client, k).index, n) == OnListType(w.index, n)
  {
    hide Core, Deliver;
    DeliverStep(w, k);
    var nodes := w.index.blocking[k];
    var i :| 0 <= i < |nodes[1..]| && nodes[1..][i] == n;
    OneEach(w.index, k, i + 1);
  }

  lemma OneEach(x: Index, k: Key, i: nat)
    requires Core(x) && k in x.blocking && 0 < i < |x.blocking[k]|
    ensures x.blocking[k][i].client != x.blocking[k][0].client
  {
    hide Counted, Flagged, Linked;
    FirstIsKnown(x, k);
    OnceIffWaiting(x, x.blocking[k][0].client, k);
  }

  /** What a pass over a key's waiters does to their order, told from where it began. */
  ghost predicate InOrder(w: World, k: Key, n: nat, i: nat, w': World) {
    var nodes := Waiters(w.index.blocking, k);
    && i <= n <= |nodes| && |w.log| <= |w'.log| && w'.log[..|w.log|] == w.log
    && ServedClients(w'.log[|w.log|..]) == ClientsOf(Among(w.index, nodes[..i], true))
    && Waiters(w'.index.blocking, k) == nodes[i..] + Among(w.index, nodes[..i], false)
    && k in w'.db && w'.db[k].ListValue? && (i == n || w'.db[k].items == [])
  }

  lemma RotatedInOrder(w: World, k: Key, n: nat, i: nat, w': World)
    requires k in w.index.blocking && 0 < n <= |w.index.blocking[k]| && !OnListType(w.index, w.index.blocking[k][0])
    requires InOrder(w.(index := Rotate(w.index, k)), k, n - 1, i, w')
    ensures InOrder(w, k, n, i + 1, w')
  {
    hide OnListType, Among, ServedClients, ClientsOf;
    var nodes := w.index.blocking[k];
    var x1 := Rotate(w.index, k);
    var early := nodes[1..i + 1];
    RotatedParts(nodes, i);
    SameTypes(w.index, x1, early);
    AmongFirst(w.index, nodes, i);
    var passed := Among(w.index, early, false);
    assert nodes[i + 1..] + [nodes[0]] + passed == nodes[i + 1..] + ([nodes[0]] + passed);
  }

  lemma RotatedParts(nodes: seq<Node>, i: nat)
    requires i < |nodes|
    ensures Rotated(nodes)[..i] == nodes[1..i + 1] && Rotated(nodes)[i..] == nodes[i + 1..] + [nodes[0]]
  {
    assert Rotated(nodes) == nodes[1..] + [nodes[0]];
  }

  lemma {:induction false} AmongFirst(x: Index, nodes: seq<Node>, i: nat)
    requires i < |nodes|
    ensures var early := nodes[1..i + 1];
            if OnListType(x, nodes[0])
            then Among(x, nodes[..i + 1], true) == [nodes[0]] + Among(x, early, true)
                 && Among(x, nodes[..i + 1], false) == Among(x, early, false)
            else Among(x, nodes[..i + 1], false) == [nodes[0]] + Among(x, early, false)
                 && Among(x, nodes[..i + 1], true) == Among(x, early, true)
  {
    hide OnListType;
    assert nodes[..i + 1][1..] == nodes[1..i + 1];
  }

  lemma {:induction false} SameTypes(x: Index, y: Index, nodes: seq<Node>)
    requires x.clients == y.clients
    ensures Among(x, nodes, true) == Among(y, nodes, true) && Among(x, nodes, false) == Among(y, nodes, false)
  {
    AmongSame(x, y, nodes, true);
    AmongSame(x, y, nodes, false);
  }

  lemma DeliveredInOrder(w: World, k: Key, n: nat, i: nat, w1: World, w': World)
    requires k in w.index.blocking && 0 < n <= |w.index.blocking[k]| && OnListType(w.index, w.index.blocking[k][0])
    requires Waiters(w1.index.blocking, k) == w.index.blocking[k][1..]
    requires |w1.log| == |w.log| + 1 && w1.log[..|w.log|] == w.log
    requires w1.log[|w.log|].client == w.index.blocking[k][0].client
    requires forall m | m in w.index.blocking[k][1..] :: OnListType(w1.index, m) == OnListType(w.index, m)
    requires InOrder(w1, k, n - 1, i, w')
    ensures InOrder(w, k, n, i + 1, w')
  {
    hide OnListType, Among;
    var nodes := w.index.blocking[k];
    var early := nodes[1..i + 1];
    assert nodes[1..][..i] == early && nodes[1..][i..] == nodes[i + 1..];
    assert forall m | m in early :: m in nodes[1..];
    AmongSame(w.index, w1.index, early, true);
    AmongSame(w.index, w1.index, early, false);
    AmongFirst(w.index, nodes, i);
    var more, rest := w'.log[|w1.log|..], Among(w.index, early, true);
    assert ClientsOf([nodes[0]] + rest) == [nodes[0].client] + ClientsOf(rest);
    assert ServedClients([w1.log[|w.log|]] + more) == [nodes[0].client] + ServedClients(more);
  }

  /**
   Fairness: the clients served are the list-type waiters among the first ones, in the order they
   blocked; those of another type end up behind the rest; and the pass stops early only on an
   empty list.
   */
  lemma {:induction false} ServesInOrder(w: World, k: Key, n: nat)
    requires Serving(w, k) && n <= |Waiters(w.index.blocking, k)|
    ensures InOrder(w, k, n, Turns(w, k, n), ServeLoop(w, k, n)) && Serving(ServeLoop(w, k, n), k)
    decreases n
  {
    hide Core, Deliver, InOrder, OnListType;
    if n == 0 {
      NothingDone(w, k, n);
    } else {
      FirstIsKnown(w.index, k);
      if !OnListType(w.index, First(w, k)) {
        RotateCore(w.index, k);
        var w1 := w.(index := Rotate(w.index, k));
        ServesInOrder(w1, k, n - 1);
        RotatedInOrder(w, k, n, Turns(w1, k, n - 1), ServeLoop(w1, k, n - 1));
      } else if w.db[k].items == [] {
        NothingDone(w, k, n);
      } else {
        DeliverStep(w, k);
        var w1 := Deliver(w, First(w, k).client, k);
        ServesInOrder(w1, k, n - 1);
        forall m | m in w.index.blocking[k][1..] ensures OnListType(w1.index, m) == OnListType(w.index, m) {
          OthersKeepType(w, k, m);
        }
        DeliveredInOrder(w, k, n, Turns(w1, k, n - 1), w1, ServeLoop(w1, k, n - 1));
      }
    }
  }

  lemma NothingDone(w: World, k: Key, n: nat)
    requires k in w.db && w.db[k].ListValue? && n <= |Waiters(w.index.blocking, k)| && (n == 0 || w.db[k].items == [])
    ensures InOrder(w, k, n, 0, w)
  {
    var nodes := Waiters(w.index.blocking, k);
    assert nodes[..0] == [] && nodes[0..] == nodes;
    assert w.log[|w.log|..] == [];
  }

  // --------------------------------------------------------------------------
  // Who gets what
  // --------------------------------------------------------------------------

  /** Every list-type waiter of the key pops the given end and has no target. */
  predicate PopAlike(w: World, k: Key, head: bool) {
    forall n | n in Waiters(w.index.blocking, k) && OnListType(w.index, n) ::
      w.index.clients[n.client].popsHead == head && w.index.clients[n.client].target.None?
  }

  /** The i-th element from an end. */
  function FromThere(items: seq<Element>, head: bool, i: nat): Element
    requires i < |items|
  {
    if head then items[i] else items[|items| - 1 - i]
  }

  /** The entries of a log: the elements of the list went to clients, one by one from the given end. */
  predicate FromEnd(items: seq<Element>, k: Key, head: bool, more: seq<Served>) {
    && |more| <= |items|
    && forall i | 0 <= i < |more| ::
         more[i].key == k && more[i].outcome == ToClient && more[i].value == FromThere(items, head, i)
  }

  /** From w to w' elements were handed out like that, what was not stays, and no other key changed. */
  predicate HandsOut(w: World, k: Key, head: bool, w': World)
    requires k in w.db && w.db[k].ListValue?
  {
    var items, m := w.db[k].items, |w'.log| - |w.log|;
    && 0 <= m <= |items| && w'.log[..|w.log|] == w.log
    && w'.db == w.db[k := ListValue(if head then items[m..] else items[..|items| - m])]
    && FromEnd(items, k, head, w'.log[|w.log|..])
  }

  lemma HandsOutNothing(w: World, k: Key, head: bool)
    requires k in w.db && w.db[k].ListValue?
    ensures HandsOut(w, k, head, w)
  {
    var items := w.db[k].items;
    assert items[0..] == items && items[..|items|] == items;
    assert w.db[k := ListValue(items)] == w.db;
  }

  lemma HandsOutOne(w: World, w1: World, w': World, k: Key, head: bool, s: Served, rest: seq<Element>)
    requires k in w.db && w.db[k].ListValue? && Pops(w.db[k].items, head, s.value, rest)
    requires w1.db == w.db[k := ListValue(rest)] && w1.log == w.log + [s] && s.key == k && s.outcome == ToClient
    requires HandsOut(w1, k, head, w')
    ensures HandsOut(w, k, head, w')
  {
    hide FromEnd, Pops;
    var items, m := w.db[k].items, |w'.log| - |w1.log|;
    RestOfRest(items, head, s.value, rest, m);
    LongerLog(w.log, s, w'.log);
    OneMoreFromEnd(items, rest, k, head, s, w'.log[|w1.log|..]);
  }

  lemma RestOfRest(items: seq<Element>, head: bool, e: Element, rest: seq<Element>, m: nat)
    requires Pops(items, head, e, rest) && m <= |rest|
    ensures |items| == |rest| + 1
    ensures (if head then rest[m..] else rest[..|rest| - m]) ==
            if head then items[m + 1..] else items[..|items| - (m + 1)]
  {
  }

  lemma LongerLog(log: seq<Served>, s: Served, log': seq<Served>)
    requires |log| < |log'| && log'[..|log| + 1] == log + [s]
    ensures log'[..|log|] == log && log'[|log|..] == [s] + log'[|log| + 1..]
  {
    assert log'[..|log|] == log'[..|log| + 1][..|log|];
    assert log'[|log|] == log'[..|log| + 1][|log|];
  }

  lemma PoppedFromThere(items: seq<Element>, head: bool, e: Element, rest: seq<Element>, i: nat)
    requires Pops(items, head, e, rest) && i < |items|
    ensures FromThere(items, head, i) == if i == 0 then e else FromThere(rest, head, i - 1)
  {
  }

  lemma OneMoreFromEnd(
    items: seq<Element>, rest: seq<Element>, k: Key, head: bool, s: Served, more: seq<Served>)
    requires Pops(items, head, s.value, rest) && s.key == k && s.outcome == ToClient && FromEnd(rest, k, head, more)
    ensures FromEnd(items, k, head, [s] + more)
  {
    hide FromThere;
    RestOfRest(items, head, s.value, rest, 0);
    var all := [s] + more;
    forall i | 0 <= i < |all|
      ensures all[i].key == k && all[i].outcome == ToClient && all[i].value == FromThere(items, head, i)
    {
      PoppedFromThere(items, head, s.value, rest, i);
      assert all[i] == if i == 0 then s else more[i - 1];
    }
  }

  lemma StillAlike(w: World, k: Key, head: bool)
    requires Serving(w, k) && w.db[k].items != [] && Waiters(w.index.blocking, k) != [] && PopAlike(w, k, head)
    ensures First(w, k).client in w.index.clients && w.index.blockedClients > 0
    ensures PopAlike(Deliver(w, First(w, k).client, k), k, head)
  {
    hide Core, Deliver;
    DeliverStep(w, k);
    var r, nodes := First(w, k).client, w.index.blocking[k];
    var w1 := Deliver(w, r, k);
    forall n | n in nodes[1..] && OnListType(w1.index, n)
      ensures w1.index.clients[n.client].popsHead == head && w1.index.clients[n.client].target.None?
    {
      var i :| 0 <= i < |nodes[1..]| && nodes[1..][i] == n;
      OneEach(w.index, k, i + 1);
      OthersUntouched(w.index, r, n.client);
      assert n in nodes;
    }
  }

  lemma OthersUntouched(x: Index, c: ClientId, d: ClientId)
    requires c in x.clients && x.blockedClients > 0 && c != d
    ensures d in Unblock(x, c).clients <==> d in x.clients
    ensures d in x.clients ==> Unblock(x, c).clients[d] == x.clients[d]
  {
    hide Removed;
  }

  lemma RotatedAlike(w: World, k: Key, head: bool)
    requires k in w.index.blocking && PopAlike(w, k, head)
    ensures PopAlike(w.(index := Rotate(w.index, k)), k, head)
  {
    hide OnListType;
    var nodes := w.index.blocking[k];
    assert forall n | n in Rotated(nodes) :: n in nodes;
    assert forall n :: OnListType(Rotate(w.index, k), n) == OnListType(w.index, n) by {
      SameTypeEach(w.index, Rotate(w.index, k));
    }
  }

  lemma SameTypeEach(x: Index, y: Index)
    requires x.clients == y.clients
    ensures forall n :: OnListType(y, n) == OnListType(x, n)
  {
  }

  /**
   The i-th client served of a key whose list-type waiters all pop one end and have no target gets
   the i-th element from that end, whoever else waits in between; what is not handed out stays.
   */
  lemma {:induction false} NthServedGetsNth(w: World, k: Key, n: nat, head: bool)
    requires Serving(w, k) && n <= |Waiters(w.index.blocking, k)| && PopAlike(w, k, head)
    ensures HandsOut(w, k, head, ServeLoop(w, k, n))
    ensures ServedClients(ServeLoop(w, k, n).log[|w.log|..]) ==
            ClientsOf(Among(w.index, Waiters(w.index.blocking, k)[..Turns(w, k, n)], true))
    decreases n
  {
    hide Core, Deliver, InOrder, OnListType, HandsOut, PopAlike, Pops, Stores, ServedClients, ClientsOf, Among;
    OrderOf(w, k, n);
    if n == 0 {
      HandsOutNothing(w, k, head);
    } else {
      FirstIsKnown(w.index, k);
      if !OnListType(w.index, First(w, k)) {
        RotateCore(w.index, k);
        RotatedAlike(w, k, head);
        var w1 := w.(index := Rotate(w.index, k));
        NthServedGetsNth(w1, k, n - 1, head);
        SameHandsOut(w, w1, k, head, ServeLoop(w1, k, n - 1));
      } else if w.db[k].items == [] {
        HandsOutNothing(w, k, head);
      } else {
        DeliverStep(w, k);
        StillAlike(w, k, head);
        FirstAlike(w, k, head);
        var r := First(w, k).client;
        var w1 := Deliver(w, r, k);
        var e, rest := DeliverMeans(w, r, k);
        NoTarget(w.db[k := ListValue(rest)], k, head, e, w1.db);
        NthServedGetsNth(w1, k, n - 1, head);
        HandsOutOne(w, w1, ServeLoop(w1, k, n - 1), k, head, Served(r, k, e, ToClient), rest);
      }
    }
  }

  lemma OrderOf(w: World, k: Key, n: nat)
    requires Serving(w, k) && n <= |Waiters(w.index.blocking, k)|
    ensures |w.log| <= |ServeLoop(w, k, n).log|
    ensures ServedClients(ServeLoop(w, k, n).log[|w.log|..]) ==
            ClientsOf(Among(w.index, Waiters(w.index.blocking, k)[..Turns(w, k, n)], true))
  {
    hide Core, ServeLoop, Turns, ServedClients, ClientsOf, Among;
    ServesInOrder(w, k, n);
  }

  lemma SameHandsOut(w: World, w1: World, k: Key, head: bool, w': World)
    requires k in w.db && w.db[k].ListValue? && w1.db == w.db && w1.log == w.log && HandsOut(w1, k, head, w')
    ensures HandsOut(w, k, head, w')
  {
  }

  lemma FirstAlike(w: World, k: Key, head: bool)
    requires PopAlike(w, k, head) && Waiters(w.index.blocking, k) != [] && OnListType(w.index, First(w, k))
    ensures var cl := w.index.clients[First(w, k).client]; cl.popsHead == head && cl.target.None?
  {
  }

  lemma NoTarget(db: map<Key, Value>, k: Key, head: bool, e: Element, r: map<Key, Value>)
    requires k in db && db[k].ListValue? && Stores(db, k, head, e, None, r)
    ensures r == db
  {
  }
}
