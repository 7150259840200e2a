/** What serving keeps over whole runs: every element accounted for, and nobody left waiting beside a full list. */
module BlockedRun {
  import opened Common
  import opened BlockedIndex
  import opened BlockedServe

  // --------------------------------------------------------------------------
  // Every element accounted for
  // --------------------------------------------------------------------------

  function Items(v: Value): seq<Element> {
    if v.ListValue? then v.items else []
  }

  function ItemsAt(db: map<Key, Value>, k: Key): seq<Element> {
    if k in db then Items(db[k]) else []
  }

  /** All the elements of all the lists. */
  ghost function Total(db: map<Key, Value>): multiset<Element>
    decreases |db.Keys|
  {
    if db == map[] then multiset{}
    else
      var k :| k in db;
      assert (db - {k}).Keys == db.Keys - {k};
      multiset(Items(db[k])) + Total(db - {k})
  }

  lemma {:induction false} TotalSplit(db: map<Key, Value>, k: Key)
    requires k in db
    ensures Total(db) == multiset(Items(db[k])) + Total(db - {k})
    decreases |db.Keys|
  {
    hide Items;
    assert db != map[];
    var j :| j in db && Total(db) == multiset(Items(db[j])) + Total(db - {j});
    if j != k {
      assert (db - {j}).Keys == db.Keys - {j} && (db - {k}).Keys == db.Keys - {k};
      TotalSplit(db - {j}, k);
      TotalSplit(db - {k}, j);
      assert db - {j} - {k} == db - {k} - {j};
    }
  }

  lemma TotalUpdate(db: map<Key, Value>, k: Key, v: Value)
    ensures Total(db[k := v]) + multiset(ItemsAt(db, k)) == Total(db) + multiset(Items(v))
  {
    hide Total;
    TotalSplit(db[k := v], k);
    if k in db {
      TotalSplit(db, k);
      assert db[k := v] - {k} == db - {k};
    } else {
      assert db[k := v] - {k} == db;
    }
  }

  /** The elements handed to clients that asked for no target. */
  function Given(log: seq<Served>): multiset<Element> {
    if log == [] then multiset{}
    else
      var last := log[|log| - 1];
      Given(log[..|log| - 1]) + if last.outcome.ToClient? then multiset{last.value} else multiset{}
  }

  ghost function Accounted(w: World): multiset<Element> {
    Total(w.db) + Given(w.log)
  }

  lemma {:induction false} GivenMore(log: seq<Served>, s: Served)
    ensures Given(log + [s]) == Given(log) + if s.outcome.ToClient? then multiset{s.value} else multiset{}
  {
    assert (log + [s])[..|log|] == log;
  }

  lemma PopSplits(items: seq<Element>, head: bool)
    requires items != []
    ensures multiset(items) == multiset(AfterPop(items, head)) + multiset{Popped(items, head)}
  {
    if head {
      assert items == [items[0]] + items[1..];
    } else {
      assert items == items[..|items| - 1] + [items[|items| - 1]];
    }
  }

  lemma PushAdds(items: seq<Element>, e: Element, head: bool)
    ensures multiset(Pushed(items, e, head)) == multiset(items) + multiset{e}
  {
  }

  /** Handing an element over loses and duplicates nothing. */
  lemma HandedConserves(w: World, r: ClientId, k: Key, head: bool, e: Element, target: Option<Key>)
    requires k in w.db && w.db[k].ListValue?
    ensures Accounted(Handed(w, r, k, head, e, target)) == Accounted(w) + multiset{e}
  {
    hide Total, Given, Pushed, Signal;
    match target {
      case None => GivenMore(w.log, Served(r, k, e, ToClient));
      case Some(t) =>
        GivenMore(w.log, Served(r, k, e, ToTarget(t)));
        GivenMore(w.log, Served(r, k, e, Back));
        if t !in w.db {
          TotalPush(w.db, t, e, true);
          assert Pushed([], e, true) == [e] by { PushedEmpty(e); }
        } else if w.db[t].ListValue? {
          TotalPush(w.db, t, e, true);
        } else {
          TotalPush(w.db, k, e, head);
        }
    }
  }

  lemma PushedEmpty(e: Element)
    ensures Pushed([], e, true) == [e]
  {
  }

  lemma TotalPush(db: map<Key, Value>, k: Key, e: Element, head: bool)
    ensures Total(db[k := ListValue(Pushed(ItemsAt(db, k), e, head))]) == Total(db) + multiset{e}
  {
    hide Total, Pushed;
    var was, now := ItemsAt(db, k), Pushed(ItemsAt(db, k), e, head);
    PushAdds(was, e, head);
    TotalUpdate(db, k, ListValue(now));
    Cancel(Total(db) + multiset{e}, multiset(was), multiset{}, Total(db[k := ListValue(now)]));
  }

  /** A popped element reaches exactly one place: a client, a target list, or its own list again. */
  lemma DeliverConserves(w: World, r: ClientId, k: Key)
    requires k in w.db && w.db[k].ListValue? && w.db[k].items != []
    requires r in w.index.clients && w.index.blockedClients > 0
    ensures Accounted(Deliver(w, r, k)) == Accounted(w)
  {
    hide Total, Given, Handed, Popped, AfterPop;
    var cl := w.index.clients[r];
    var e := Popped(w.db[k].items, cl.popsHead);
    var w1 := w.(db := Taken(w.db, k, cl.popsHead), index := Unblock(w.index, r));
    PopSplits(w.db[k].items, cl.popsHead);
    TotalUpdate(w.db, k, ListValue(AfterPop(w.db[k].items, cl.popsHead)));
    Cancel(Total(w1.db), multiset(AfterPop(w.db[k].items, cl.popsHead)), multiset{e}, Total(w.db));
    HandedConserves(w1, r, k, cl.popsHead, e, cl.target);
  }

  lemma Cancel(a: multiset<Element>, b: multiset<Element>, c: multiset<Element>, d: multiset<Element>)
    requires a + (b + c) == d + b
    ensures a + c == d
  {
    forall e ensures (a + c)[e] == d[e] {
      assert (a + (b + c))[e] == (d + b)[e];
    }
  }

  lemma {:induction false} LoopConserves(w: World, k: Key, n: nat)
    requires Serving(w, k) && n <= |Waiters(w.index.blocking, k)|
    ensures Accounted(ServeLoop(w, k, n)) == Accounted(w)
    decreases n
  {
    hide Core, Deliver, OnListType, Accounted;
    if n == 0 {
    } else {
      FirstIsKnown(w.index, k);
      if !OnListType(w.index, First(w, k)) {
        RotateCore(w.index, k);
        SameAccount(w, w.(index := Rotate(w.index, k)));
        LoopConserves(w.(index := Rotate(w.index, k)), k, n - 1);
      } else if w.db[k].items != [] {
        DeliverStep(w, k);
        DeliverConserves(w, First(w, k).client, k);
        LoopConserves(Deliver(w, First(w, k).client, k), k, n - 1);
      }
    }
  }

  // --------------------------------------------------------------------------
  // Nobody waits beside a full list
  // --------------------------------------------------------------------------

  predicate HasListWaiter(x: Index, k: Key) {
    exists n | n in Waiters(x.blocking, k) :: OnListType(x, n)
  }

  predicate Full(db: map<Key, Value>, k: Key) {
    k in db && db[k].ListValue? && db[k].items != []
  }

  /** Every key with a list-type waiter and something to pop is marked ready, but for the key being served. */
  predicate Alert(w: World, busy: Option<Key>) {
    forall k | k in w.index.blocking && busy != Some(k) ::
      HasListWaiter(w.index, k) && Full(w.db, k) ==> k in w.index.readySet
  }

  /** Empty lists are deleted, but for the one being served. */
  predicate NoEmptyLists(db: map<Key, Value>, busy: Option<Key>) {
    forall k | k in db && busy != Some(k) && db[k].ListValue? :: db[k].items != []
  }

  lemma {:induction false} WithoutSubset(nodes: seq<Node>, id: nat, n: Node)
    requires n in Without(nodes, id)
    ensures n in nodes
    decreases |nodes|
  {
    if nodes != [] && nodes[0].id != id && n != nodes[0] {
      WithoutSubset(nodes[1..], id, n);
    }
  }

  lemma FewerListWaiters(x: Index, c: ClientId, k: Key)
    requires c in x.clients && x.blockedClients > 0 && HasListWaiter(Unblock(x, c), k)
    ensures HasListWaiter(x, k) && k in x.blocking
  {
    hide Without;
    var n :| n in Waiters(Unblock(x, c).blocking, k) && OnListType(Unblock(x, c), n);
    if k in x.clients[c].keys {
      WithoutSubset(x.blocking[k], x.clients[c].keys[k], n);
    }
    assert n in Waiters(x.blocking, k) && OnListType(x, n);
  }

  /** Handing over leaves every other list as it was, apart from the target, which only grows. */
  lemma DeliveredElsewhere(w: World, r: ClientId, k: Key, j: Key)
    requires k in w.db && w.db[k].ListValue? && w.db[k].items != [] && j != k
    requires r in w.index.clients && w.index.blockedClients > 0
    ensures var w' := Deliver(w, r, k);
            && w'.index.blocking == Unblock(w.index, r).blocking && w'.index.clients == Unblock(w.index, r).clients
            && w.index.readySet <= w'.index.readySet
            && (j in w.db ==> j in w'.db && (w'.db[j] == w.db[j] || (w.db[j].ListValue? && Full(w'.db, j))))
            && (j in w.db && w'.db[j] != w.db[j] ==> w.index.clients[r].target == Some(j))
            && (j !in w.db && j in w'.db ==> Full(w'.db, j) && (j in w'.index.blocking ==> j in w'.index.readySet))
  {
    hide AfterPop, Popped, Unblock;
    UnblockFrame(w.index, r);
  }

  lemma UnblockFrame(x: Index, c: ClientId)
    requires c in x.clients && x.blockedClients > 0
    ensures Unblock(x, c).ready == x.ready && Unblock(x, c).readySet == x.readySet
  {
    hide Removed;
  }

  /** The new waiter's push makes no key ready: the target list exists, is empty, unmarked and waited for. */
  predicate Forgets(w: World, r: ClientId, k: Key)
    requires r in w.index.clients && w.index.blockedClients > 0
  {
    var target := w.index.clients[r].target;
    && target.Some? && target.value != k && target.value in w.db && w.db[target.value] == ListValue([])
    && target.value !in w.index.readySet && HasListWaiter(Unblock(w.index, r), target.value)
  }

  /** Serving a client leaves a waiter unmarked beside a full list exactly when it pushes to such a list. */
  lemma DeliverKeepsAlertIff(w: World, k: Key)
    requires Serving(w, k) && w.db[k].items != [] && Waiters(w.index.blocking, k) != [] && Alert(w, Some(k))
    ensures First(w, k).client in w.index.clients && w.index.blockedClients > 0
    ensures var r := First(w, k).client;
            Alert(Deliver(w, r, k), Some(k)) <==> !Forgets(w, r, k)
  {
    hide Core, Deliver, HasListWaiter, Unblock;
    DeliverStep(w, k);
    var r := First(w, k).client;
    if Forgets(w, r, k) {
      EmptyTargetForgets(w, r, k);
    } else {
      DeliverAlert(w, k);
    }
  }

  lemma DeliverAlert(w: World, k: Key)
    requires Serving(w, k) && w.db[k].items != [] && Waiters(w.index.blocking, k) != [] && Alert(w, Some(k))
    requires First(w, k).client in w.index.clients && w.index.blockedClients > 0 && !Forgets(w, First(w, k).client, k)
    ensures Alert(Deliver(w, First(w, k).client, k), Some(k))
  {
    hide Core, Deliver, HasListWaiter, Unblock;
    var r := First(w, k).client;
    var w' := Deliver(w, r, k);
    DeliverStep(w, k);
    forall j | j in w'.index.blocking && j != k && HasListWaiter(w'.index, j) && Full(w'.db, j)
      ensures j in w'.index.readySet
    {
      DeliveredElsewhere(w, r, k, j);
      SameListWaiters(w'.index, Unblock(w.index, r), j);
      FewerListWaiters(w.index, r, j);
    }
  }

  lemma EmptyTargetForgets(w: World, r: ClientId, k: Key)
    requires k in w.db && w.db[k].ListValue? && w.db[k].items != []
    requires r in w.index.clients && w.index.blockedClients > 0 && Forgets(w, r, k)
    ensures !Alert(Deliver(w, r, k), Some(k))
  {
    hide HasListWaiter, Unblock;
    var t, w' := w.index.clients[r].target.value, Deliver(w, r, k);
    UnblockFrame(w.index, r);
    SameListWaiters(Unblock(w.index, r), w'.index, t);
    assert Full(w'.db, t) && t !in w'.index.readySet;
    WaitedIsListed(w'.index, t);
  }

  lemma WaitedIsListed(x: Index, k: Key)
    requires HasListWaiter(x, k)
    ensures k in x.blocking
  {
  }

  lemma DeliverFills(w: World, k: Key)
    requires Serving(w, k) && w.db[k].items != [] && Waiters(w.index.blocking, k) != [] && NoEmptyLists(w.db, Some(k))
    ensures First(w, k).client in w.index.clients && w.index.blockedClients > 0
    ensures NoEmptyLists(Deliver(w, First(w, k).client, k).db, Some(k)) && !Forgets(w, First(w, k).client, k)
  {
    hide Core, Deliver, HasListWaiter, Unblock;
    DeliverStep(w, k);
    var r := First(w, k).client;
    var w' := Deliver(w, r, k);
    forall j | j in w'.db && j != k && w'.db[j].ListValue? ensures w'.db[j].items != [] {
      DeliveredElsewhere(w, r, k, j);
    }
  }

  lemma SameListWaiters(x: Index, y: Index, k: Key)
    requires x.blocking == y.blocking && x.clients == y.clients && HasListWaiter(x, k)
    ensures HasListWaiter(y, k)
  {
    var n :| n in Waiters(x.blocking, k) && OnListType(x, n);
    assert n in Waiters(y.blocking, k) && OnListType(y, n);
  }

  lemma RotateAlert(w: World, k: Key)
    requires Alert(w, Some(k)) && k in w.index.blocking
    ensures Alert(w.(index := Rotate(w.index, k)), Some(k))
  {
    var x' := Rotate(w.index, k);
    forall j | j in x'.blocking && j != k && HasListWaiter(x', j) ensures HasListWaiter(w.index, j) {
      var n :| n in Waiters(x'.blocking, j) && OnListType(x', n);
      assert n in Waiters(w.index.blocking, j) && OnListType(w.index, n);
    }
  }

  /** No element lost, and new ready keys only in exchange for a client served. */
  ghost predicate Advances(w: World, w': World) {
    && Accounted(w') == Accounted(w)
    && w'.index.blockedClients <= w.index.blockedClients
    && (w'.index.blockedClients == w.index.blockedClients ==> w'.index.ready == w.index.ready)
  }

  /** What a pass over a key keeps, in every state. */
  ghost predicate PassKeeps(w: World, working: seq<Key>, w': World) {
    && Core(w'.index) && ReadyWith(w'.index, working) && Advances(w, w')
    && (forall n :: OnListType(w'.index, n) ==> OnListType(w.index, n))
  }

  lemma RotatePass(w: World, k: Key, working: seq<Key>)
    requires Core(w.index) && ReadyWith(w.index, working) && k in w.index.blocking
    ensures PassKeeps(w, working, w.(index := Rotate(w.index, k)))
  {
    hide Core, ReadyWith, Accounted;
    RotateKeepsIndex(w.index, k, working);
    SameAccount(w, w.(index := Rotate(w.index, k)));
  }

  lemma SameAccount(w: World, w': World)
    requires w.db == w'.db && w.log == w'.log
    ensures Accounted(w) == Accounted(w')
  {
  }

  lemma DeliverPass(w: World, k: Key, working: seq<Key>)
    requires Serving(w, k) && ReadyWith(w.index, working) && Waiters(w.index.blocking, k) != [] && w.db[k].items != []
    ensures First(w, k).client in w.index.clients && w.index.blockedClients > 0
    ensures PassKeeps(w, working, Deliver(w, First(w, k).client, k))
  {
    hide Core, Accounted, Deliver, ReadyWith;
    FirstIsKnown(w.index, k);
    DeliverStep(w, k);
    var r := First(w, k).client;
    DeliverConserves(w, r, k);
    DeliverReady(w, r, k, working);
  }

  lemma DeliverReady(w: World, r: ClientId, k: Key, working: seq<Key>)
    requires Serving(w, k) && ReadyWith(w.index, working) && w.db[k].items != []
    requires r in w.index.clients && w.index.clients[r].blocked && w.index.blockedClients > 0
    ensures ReadyWith(Deliver(w, r, k).index, working)
  {
    hide Core, ReadyWith, Pushed, AfterPop, Popped;
    UnblockKeepsIndex(w.index, r, working);
    if w.index.clients[r].target.Some? {
      SignalKeepsIndex(Unblock(w.index, r), w.index.clients[r].target.value, working);
    }
  }

  lemma {:induction false} LoopPass(w: World, k: Key, n: nat, working: seq<Key>)
    requires Serving(w, k) && ReadyWith(w.index, working) && n <= |Waiters(w.index.blocking, k)|
    ensures PassKeeps(w, working, ServeLoop(w, k, n))
    decreases n
  {
    hide Core, Deliver, OnListType, Accounted, ReadyWith;
    if n == 0 {
    } else {
      FirstIsKnown(w.index, k);
      if !OnListType(w.index, First(w, k)) {
        RotateCore(w.index, k);
        var w1 := w.(index := Rotate(w.index, k));
        RotatePass(w, k, working);
        LoopPass(w1, k, n - 1, working);
      } else if w.db[k].items != [] {
        DeliverStep(w, k);
        var w1 := Deliver(w, First(w, k).client, k);
        DeliverPass(w, k, working);
        LoopPass(w1, k, n - 1, working);
      }
    }
  }

  lemma {:induction false} LoopAlert(w: World, k: Key, n: nat)
    requires Serving(w, k) && n <= |Waiters(w.index.blocking, k)|
    requires Alert(w, Some(k)) && NoEmptyLists(w.db, Some(k))
    ensures Alert(ServeLoop(w, k, n), Some(k)) && NoEmptyLists(ServeLoop(w, k, n).db, Some(k))
    decreases n
  {
    hide Core, Deliver, OnListType, Alert, NoEmptyLists, Forgets;
    if n == 0 {
    } else {
      FirstIsKnown(w.index, k);
      if !OnListType(w.index, First(w, k)) {
        RotateCore(w.index, k);
        RotateAlert(w, k);
        LoopAlert(w.(index := Rotate(w.index, k)), k, n - 1);
      } else if w.db[k].items != [] {
        DeliverStep(w, k);
        DeliverFills(w, k);
        DeliverKeepsAlertIff(w, k);
        LoopAlert(Deliver(w, First(w, k).client, k), k, n - 1);
      }
    }
  }

  // --------------------------------------------------------------------------
  // One ready key
  // --------------------------------------------------------------------------

  function Unmarked(w: World, k: Key): World {
    w.(index := w.index.(readySet := w.index.readySet - {k}))
  }

  /** A list that has been emptied is deleted. */
  function Finished(w: World, k: Key): World
    requires k in w.db && w.db[k].ListValue?
  {
    if w.db[k].items == [] then w.(db := w.db - {k}) else w
  }

  function ServeKey(w: World, k: Key): World
    requires Core(w.index)
  {
    var w0 := Unmarked(w, k);
    UnmarkedCore(w, k);
    if k in w0.db && w0.db[k].ListValue? then
      var n := |Waiters(w0.index.blocking, k)|;
      ServesInOrder(w0, k, n);
      Finished(ServeLoop(w0, k, n), k)
    else w0
  }

  lemma UnmarkedCore(w: World, k: Key)
    requires Core(w.index)
    ensures Core(Unmarked(w, k).index)
  {
    hide ListOk, WaitsOk, StatusOk, OfType, Blocked;
  }

  lemma UnmarkedReady(w: World, k: Key, rest: seq<Key>)
    requires ReadyWith(w.index, [k] + rest)
    ensures ReadyWith(Unmarked(w, k).index, rest)
  {
    var all := rest + w.index.ready;
    assert [k] + rest + w.index.ready == [k] + all;
    forall i, j | 0 <= i < j < |all| ensures all[i] != all[j] {
      assert ([k] + all)[i + 1] != ([k] + all)[j + 1];
    }
    forall i | 0 <= i < |all| ensures all[i] != k {
      assert ([k] + all)[0] != ([k] + all)[i + 1];
    }
  }

  lemma {:induction false} AmongOther(x: Index, nodes: seq<Node>, n: Node)
    requires n in Among(x, nodes, false)
    ensures !OnListType(x, n)
    decreases |nodes|
  {
    hide OnListType;
    if nodes != [] && n in Among(x, nodes[1..], false) {
      AmongOther(x, nodes[1..], n);
    }
  }

  /** When the pass has not emptied the list, no list-type waiter is left. */
  lemma {:induction false} NobodyLeft(w: World, k: Key, working: seq<Key>)
    requires Serving(w, k) && ReadyWith(w.index, working)
    ensures var w' := ServeLoop(w, k, |Waiters(w.index.blocking, k)|);
            HasListWaiter(w'.index, k) ==> !Full(w'.db, k)
  {
    hide Core, Accounted, ReadyWith, OnListType, ServeLoop;
    var nodes := Waiters(w.index.blocking, k);
    var n := |nodes|;
    var w' := ServeLoop(w, k, n);
    ServesInOrder(w, k, n);
    LoopPass(w, k, n, working);
    if HasListWaiter(w'.index, k) && Turns(w, k, n) == n {
      var m :| m in Waiters(w'.index.blocking, k) && OnListType(w'.index, m);
      assert nodes[n..] == [] && nodes[..n] == nodes;
      assert m in Among(w.index, nodes, false);
      AmongOther(w.index, nodes, m);
    }
  }

  lemma FinishedTotal(w: World, k: Key)
    requires k in w.db && w.db[k].ListValue?
    ensures Accounted(Finished(w, k)) == Accounted(w)
  {
    hide Given, Total;
    TotalSplit(w.db, k);
    assert multiset(Items(w.db[k])) == multiset(w.db[k].items);
    if w.db[k].items == [] {
      assert multiset(w.db[k].items) == multiset{};
      assert Total(w.db) == Total(w.db - {k});
    }
  }

  lemma FinishedSettles(w: World, k: Key)
    requires k in w.db && w.db[k].ListValue? && Alert(w, Some(k)) && NoEmptyLists(w.db, Some(k))
    requires HasListWaiter(w.index, k) ==> !Full(w.db, k)
    ensures Alert(Finished(w, k), None) && NoEmptyLists(Finished(w, k).db, None)
  {
    hide HasListWaiter;
  }

  lemma UnmarkedAlert(w: World, k: Key)
    requires Alert(w, None)
    ensures Alert(Unmarked(w, k), Some(k)) && (!Full(w.db, k) ==> Alert(Unmarked(w, k), None))
  {
    hide OnListType;
    var w' := Unmarked(w, k);
    forall j | HasListWaiter(w'.index, j) ensures HasListWaiter(w.index, j) {
      SameTypesWaiting(w, k, j);
    }
  }

  lemma SameTypesWaiting(w: World, k: Key, j: Key)
    requires HasListWaiter(Unmarked(w, k).index, j)
    ensures HasListWaiter(w.index, j)
  {
    SameListWaiters(Unmarked(w, k).index, w.index, j);
  }

  /** Working off one ready key keeps the index, loses no element, and makes keys ready only by serving a client. */
  lemma ServeKeyAdvances(w: World, k: Key, rest: seq<Key>)
    requires Core(w.index) && ReadyWith(w.index, [k] + rest)
    ensures var w' := ServeKey(w, k); Core(w'.index) && ReadyWith(w'.index, rest) && Advances(w, w')
  {
    hide Core, Accounted, ReadyWith, ServeLoop, OnListType;
    var w0 := Unmarked(w, k);
    UnmarkedCore(w, k);
    UnmarkedReady(w, k, rest);
    SameAccount(w, w0);
    if k in w0.db && w0.db[k].ListValue? {
      var n := |Waiters(w0.index.blocking, k)|;
      ServesInOrder(w0, k, n);
      LoopPass(w0, k, n, rest);
      FinishedTotal(ServeLoop(w0, k, n), k);
    }
  }

  /** Nobody is forgotten, on this key or on the ones pushed to. */
  lemma ServeKeySettles(w: World, k: Key, rest: seq<Key>)
    requires Core(w.index) && ReadyWith(w.index, [k] + rest) && Alert(w, None) && NoEmptyLists(w.db, None)
    ensures Alert(ServeKey(w, k), None) && NoEmptyLists(ServeKey(w, k).db, None)
  {
    hide Core, Alert, NoEmptyLists, ReadyWith, ServeLoop, HasListWaiter, OnListType;
    var w0 := Unmarked(w, k);
    UnmarkedCore(w, k);
    UnmarkedReady(w, k, rest);
    UnmarkedAlert(w, k);
    if k in w0.db && w0.db[k].ListValue? {
      var n := |Waiters(w0.index.blocking, k)|;
      LessEmpty(w.db, k);
      ServesInOrder(w0, k, n);
      LoopAlert(w0, k, n);
      NobodyLeft(w0, k, rest);
      FinishedSettles(ServeLoop(w0, k, n), k);
    } else {
      assert !Full(w.db, k);
    }
  }

  lemma LessEmpty(db: map<Key, Value>, k: Key)
    requires NoEmptyLists(db, None)
    ensures NoEmptyLists(db, Some(k))
  {
  }
}
