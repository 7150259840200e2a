/** The server's fields for blocked clients, and the functions of blocked.c that change them. */
module BlockedServer {
  import opened Common
  import opened BlockedIndex
  import opened BlockedServe
  import opened BlockedRun

  class Server {
    var blocking: map<Key, seq<Node>>
    var clients: map<ClientId, Client>
    var blockedClients: nat
    var byType: map<BlockType, nat>
    var unblocked: seq<ClientId>
    var ready: seq<Key>
    var readySet: set<Key>
    var nextNode: nat
    var db: map<Key, Value>
    var log: seq<Served>

    function State(): Index
      reads this
    {
      Index(blocking, clients, blockedClients, byType, unblocked, ready, readySet, nextNode)
    }

    function All(): World
      reads this
    {
      World(State(), db, log)
    }

    method BlockClient(c: ClientId, t: BlockType)
      requires c in clients
      modifies this
      ensures State() == MarkBlocked(old(State()), c, t) && db == old(db) && log == old(log)
    {
      clients := clients[c := clients[c].(blocked := true, btype := t)];
      blockedClients := blockedClients + 1;
      byType := byType[t := (if t in byType then byType[t] else 0) + 1];
    }

    method AddWaiter(c: ClientId, k: Key)
      requires c in clients
      modifies this`clients, this`blocking, this`nextNode
      ensures State() == AddWait(old(State()), c, k)
    {
      if k !in clients[c].keys {
        clients := clients[c := clients[c].(keys := clients[c].keys[k := nextNode])];
        if k !in blocking {
          blocking := blocking[k := []];
        }
        blocking := blocking[k := blocking[k] + [Node(nextNode, c)]];
        nextNode := nextNode + 1;
      }
    }

    /** Leaves the client waiting for each key once, and the index in order. */
    method BlockForKeys(c: ClientId, t: BlockType, keys: seq<Key>, target: Option<Key>)
      requires Indexed(State()) && c in clients && !clients[c].blocked && keys != [] && t != NotBlocked
      modifies this
      ensures State() == BlockedIndex.BlockForKeys(old(State()), c, t, keys, target) && db == old(db) && log == old(log)
      ensures Indexed(State()) && clients[c].keys.Keys == set k | k in keys
      ensures clients[c].blocked && clients[c].btype == t && clients[c].target == target
      ensures forall d | d in old(clients) && d != c :: d in clients && clients[d] == old(clients)[d]
      ensures StandsLast(old(blocking), c, clients[c].keys, blocking)
    {
      hide Indexed, AddWait, MarkBlocked, StandsLast;
      BlockedLast(State(), c, t, keys, target);
      BlockKeepsIndex(State(), c, t, keys, target);
      clients := clients[c := clients[c].(target := target)];
      ghost var start := State();
      assert keys[0..] == keys;
      for j := 0 to |keys|
        invariant c in clients && db == old(db) && log == old(log)
        invariant AddWaits(start, c, keys) == AddWaits(State(), c, keys[j..])
      {
        hide Indexed, AddWait;
        assert keys[j..][0] == keys[j] && keys[j..][1..] == keys[j + 1..];
        AddWaitKnows(State(), c, keys[j]);
        AddWaiter(c, keys[j]);
      }
      BlockClient(c, t);
    }

    /** The client leaves every list it stands in; a list left empty goes too. */
    method UnblockClientWaitingData(c: ClientId)
      requires Linked(State()) && c in clients
      modifies this`blocking, this`clients
      ensures blocking == Removed(old(blocking), old(clients[c].keys))
      ensures clients == old(clients)[c := old(clients[c]).(keys := map[], target := None)]
    {
      hide Linked, Removed;
      ghost var start := State();
      var keys := clients[c].keys;
      var todo := keys.Keys;
      RemovedNothing(blocking);
      while todo != {}
        invariant todo <= keys.Keys && clients == old(clients)
        invariant blocking == Removed(start.blocking, keys - todo)
        decreases todo
      {
        hide Linked, Removed;
        var k :| k in todo;
        StillListed(start, c, todo, k);
        RemovedMore(start.blocking, keys, todo, k);
        var left := Without(blocking[k], keys[k]);
        blocking := blocking[k := left];
        if left == [] {
          blocking := blocking - {k};
        }
        todo := todo - {k};
      }
      hide Linked, Removed;
      assert keys - {} == keys;
      clients := clients[c := clients[c].(keys := map[], target := None)];
    }

    method QueueClientForReprocessing(c: ClientId)
      requires c in clients
      modifies this`clients, this`unblocked
      ensures State() == Queue(old(State()), c)
      ensures clients[c].unblockedFlag
      ensures unblocked == if old(clients)[c].unblockedFlag then old(unblocked) else old(unblocked) + [c]
    {
      if !clients[c].unblockedFlag {
        clients := clients[c := clients[c].(unblockedFlag := true)];
        unblocked := unblocked + [c];
      }
    }

    method UnblockClient(c: ClientId, ghost working: seq<Key>)
      requires Core(State()) && ReadyWith(State(), working) && c in clients && clients[c].blocked
      modifies this
      ensures old(State()).blockedClients > 0 && State() == Unblock(old(State()), c) && db == old(db) && log == old(log)
      ensures Core(State()) && ReadyWith(State(), working) && clients[c].keys == map[] && c in unblocked
    {
      hide Core, ReadyWith, Removed;
      UnblockKeepsIndex(State(), c, working);
      CoreIsLinked(State());
      AnyoneBlocked(State(), c);
      var t := clients[c].btype;
      UnblockClientWaitingData(c);
      blockedClients := blockedClients - 1;
      byType := byType[t := byType[t] - 1];
      clients := clients[c := clients[c].(blocked := false, btype := NotBlocked)];
      assert State() == Detached(old(State()), c);
      QueueClientForReprocessing(c);
    }

    /** The clients whose input may be read again, in the order they were unblocked. */
    method ProcessUnblockedClients() returns (process: seq<ClientId>)
      requires Core(State())
      modifies this`clients, this`unblocked
      ensures unblocked == [] && clients == Cleared(old(clients), old(unblocked))
      ensures forall c | c in clients :: !clients[c].unblockedFlag
      ensures process == Runnable(old(clients), old(unblocked))
      ensures forall c :: c in process <==> c in old(unblocked) && c in old(clients) && !old(clients)[c].blocked
    {
      RunnableMembers(clients, unblocked);
      hide Core, Runnable, Cleared;
      FlagsTell(State());
      NothingCleared(clients);
      process := [];
      ghost var queue, start, done := unblocked, clients, [];
      while |unblocked| != 0
        invariant queue == done + unblocked && clients == Cleared(start, done) && process == Runnable(start, done)
      {
        hide Core, Runnable, Cleared;
        var c := unblocked[0];
        assert c in queue && queue == done + [c] + unblocked[1..];
        unblocked := unblocked[1..];
        RunnableMore(start, done, c);
        ClearedMore(start, done, c);
        clients := clients[c := clients[c].(unblockedFlag := false)];
        if !clients[c].blocked {
          process := process + [c];
        }
        done := done + [c];
      }
      hide Core, Runnable, Cleared;
      assert done + [] == done;
    }

    method SignalKeyAsReady(k: Key, ghost working: seq<Key>)
      requires Core(State()) && ReadyWith(State(), working)
      modifies this`ready, this`readySet
      ensures State() == Signal(old(State()), k)
      ensures Core(State()) && ReadyWith(State(), working)
      ensures if k in blocking && k !in old(readySet) then ready == old(ready) + [k] && readySet == old(readySet) + {k}
              else ready == old(ready) && readySet == old(readySet)
    {
      hide Core, ReadyWith;
      SignalKeepsIndex(State(), k, working);
      if k in blocking && k !in readySet {
        ready := ready + [k];
        readySet := readySet + {k};
      }
    }

    /** serveClientBlockedOnList, and undoing the pop when it fails. */
    method HandOver(r: ClientId, k: Key, head: bool, e: Element, target: Option<Key>, ghost working: seq<Key>)
      requires Core(State()) && ReadyWith(State(), working) && k in db && db[k].ListValue?
      modifies this`db, this`log, this`ready, this`readySet
      ensures All() == Handed(old(All()), r, k, head, e, target)
      ensures Stores(old(db), k, head, e, target, db) && log == old(log) + [Served(r, k, e, OutcomeOf(old(db), target))]
      ensures target.Some? && target.value !in old(db) && target.value in blocking ==> target.value in readySet
      ensures Core(State()) && ReadyWith(State(), working)
    {
      hide Core, ReadyWith, Stores;
      HandedStores(All(), r, k, head, e, target);
      match target {
        case None => log := log + [Served(r, k, e, ToClient)];
        case Some(t) =>
          if !(t in db && !db[t].ListValue?) {
            if t !in db {
              db := db[t := ListValue([])];
              SignalKeyAsReady(t, working);
            }
            db := db[t := ListValue(Pushed(db[t].items, e, true))];
            log := log + [Served(r, k, e, ToTarget(t))];
            PushedEmpty(e);
            assert t !in old(db) ==> db == old(db)[t := ListValue([e])];
          } else {
            db := db[k := ListValue(Pushed(db[k].items, e, head))];
            log := log + [Served(r, k, e, Back)];
          }
      }
    }

    /** Pops for the first waiter, unblocks it and serves it; a failed BRPOPLPUSH leaves all lists as they were. */
    method ServeReceiver(k: Key, receiver: ClientId, ghost working: seq<Key>)
      requires Serving(All(), k) && ReadyWith(State(), working) && db[k].items != []
      requires Waiters(blocking, k) != [] && Waiters(blocking, k)[0].client == receiver
      modifies this
      ensures receiver in old(clients) && old(blockedClients) > 0 && All() == Deliver(old(All()), receiver, k)
      ensures Core(State()) && ReadyWith(State(), working)
      ensures var target := old(clients)[receiver].target;
              target.Some? && target.value in old(db) && !old(db)[target.value].ListValue? ==> db == old(db)
      ensures var cl := old(clients)[receiver];
              exists e, rest ::
                && Pops(old(db)[k].items, cl.popsHead, e, rest)
                && Stores(old(db)[k := ListValue(rest)], k, cl.popsHead, e, cl.target, db)
                && log == old(log) + [Served(receiver, k, e, OutcomeOf(old(db), cl.target))]
      ensures unblocked == old(unblocked) || unblocked == old(unblocked) + [receiver]
    {
      hide Core, ReadyWith, Deliver, Handed, Pops, Stores;
      ghost var before := All();
      FirstIsKnown(State(), k);
      DeliverStep(before, k);
      var cl := clients[receiver];
      var e := Popped(db[k].items, cl.popsHead);
      db := db[k := ListValue(AfterPop(db[k].items, cl.popsHead))];
      UnblockClient(receiver, working);
      HandOver(receiver, k, cl.popsHead, e, cl.target, working);
      DeliverIs(before, receiver, k);
      ghost var elem, rest := DeliverMeans(before, receiver, k);
      if cl.target.Some? && cl.target.value in before.db && !before.db[cl.target.value].ListValue? {
        FailedServeRestores(before, receiver, k);
      }
    }

    /** The loop over the clients of one key: its list is never found empty before the count runs out. */
    method ServeClients(k: Key, ghost working: seq<Key>)
      requires Serving(All(), k) && ReadyWith(State(), working)
      modifies this
      ensures All() == ServeLoop(old(All()), k, |Waiters(old(blocking), k)|)
      ensures Serving(All(), k)
      ensures old(PopAlike(All(), k, true)) ==> HandsOut(old(All()), k, true, All())
      ensures old(PopAlike(All(), k, false)) ==> HandsOut(old(All()), k, false, All())
    {
      hide Core, ReadyWith, Deliver, PopAlike, HandsOut;
      AllServed(All(), k);
      var numclients: nat := if k in blocking then |blocking[k]| else 0;
      ghost var goal := ServeLoop(All(), k, numclients);
      while numclients > 0
        invariant Serving(All(), k) && ReadyWith(State(), working) && numclients <= |Waiters(blocking, k)|
        invariant ServeLoop(All(), k, numclients) == goal
      {
        hide Core, ReadyWith, Deliver;
        ghost var before := All();
        var receiver := blocking[k][0].client;
        FirstIsKnown(State(), k);
        if clients[receiver].btype != OnList {
          RotateKeepsIndex(State(), k, working);
          blocking := blocking[k := Rotated(blocking[k])];
        } else {
          if db[k].items == [] {
            break;
          }
          DeliverStep(before, k);
          ServeReceiver(k, receiver, working);
        }
        numclients := numclients - 1;
      }
    }

    method ServeReadyKey(k: Key, ghost rest: seq<Key>)
      requires Core(State()) && ReadyWith(State(), [k] + rest)
      modifies this
      ensures All() == ServeKey(old(All()), k)
      ensures Core(State()) && ReadyWith(State(), rest) && Advances(old(All()), All())
    {
      hide Core, Accounted, ReadyWith, ServeLoop;
      ServeKeyAdvances(All(), k, rest);
      UnmarkedCore(All(), k);
      UnmarkedReady(All(), k, rest);
      readySet := readySet - {k};
      if k in db && db[k].ListValue? {
        ServeClients(k, rest);
        if db[k].items == [] {
          db := db - {k};
        }
      }
    }

    /** Nobody with something to pop is unmarked, and no empty list is stored. */
    ghost predicate Watchful()
      reads this
    {
      Alert(All(), None) && NoEmptyLists(db, None)
    }

    /**
     The list branch of handleClientsBlockedOnKeys.  It ends, though serving BRPOPLPUSH makes new
     keys ready: each round either serves a client or leaves no ready key.  No element is lost or
     duplicated.  If nobody waited unmarked beside a full list before, nobody does afterwards.
     */
    method HandleClientsBlockedOnKeys()
      requires Core(State()) && ReadyWith(State(), [])
      modifies this
      ensures Core(State()) && ReadyWith(State(), []) && ready == [] && readySet == {}
      ensures Accounted(All()) == old(Accounted(All())) && blockedClients <= old(blockedClients)
      ensures old(Watchful()) ==> Watchful() && forall k | k in blocking :: HasListWaiter(State(), k) ==> !Full(db, k)
    {
      hide Core, Alert, NoEmptyLists, Accounted, ReadyWith, ServeKey, HasListWaiter;
      while |ready| != 0
        invariant Core(State()) && ReadyWith(State(), [])
        invariant Accounted(All()) == old(Accounted(All())) && blockedClients <= old(blockedClients)
        invariant old(Watchful()) ==> Watchful()
        decreases blockedClients, |ready|
      {
        hide Core, Alert, NoEmptyLists, Accounted, ReadyWith, ServeKey, HasListWaiter;
        ghost var blockedBefore := blockedClients;
        var l := ready;
        ReadyTaken(All());
        ready := [];
        while |l| != 0
          invariant Core(State()) && ReadyWith(State(), l) && Accounted(All()) == old(Accounted(All()))
          invariant old(Watchful()) ==> Watchful()
          invariant blockedClients <= blockedBefore && (blockedClients == blockedBefore ==> ready == [])
          decreases |l|
        {
          hide Core, Alert, NoEmptyLists, Accounted, ReadyWith, ServeKey, HasListWaiter;
          var k := l[0];
          assert l == [k] + l[1..];
          if old(Watchful()) {
            ServeKeySettles(All(), k, l[1..]);
          }
          ServeReadyKey(k, l[1..]);
          l := l[1..];
        }
      }
      hide Core, Alert, NoEmptyLists, Accounted, ReadyWith, ServeKey;
      NothingReady(All());
    }
  }

  // --------------------------------------------------------------------------
  // Facts the methods use
  // --------------------------------------------------------------------------

  lemma AllServed(w: World, k: Key)
    requires Serving(w, k)
    ensures var w' := ServeLoop(w, k, |Waiters(w.index.blocking, k)|);
            && (PopAlike(w, k, true) ==> HandsOut(w, k, true, w'))
            && (PopAlike(w, k, false) ==> HandsOut(w, k, false, w'))
  {
    hide Core, PopAlike, HandsOut, ServeLoop;
    if PopAlike(w, k, true) {
      NthServedGetsNth(w, k, |Waiters(w.index.blocking, k)|, true);
    }
    if PopAlike(w, k, false) {
      NthServedGetsNth(w, k, |Waiters(w.index.blocking, k)|, false);
    }
  }

  function Runnable(clients: map<ClientId, Client>, queue: seq<ClientId>): seq<ClientId> {
    if queue == [] then []
    else
      var c := queue[|queue| - 1];
      Runnable(clients, queue[..|queue| - 1]) + if c in clients && !clients[c].blocked then [c] else []
  }

  lemma {:induction false} RunnableMore(clients: map<ClientId, Client>, queue: seq<ClientId>, c: ClientId)
    ensures Runnable(clients, queue + [c]) ==
              Runnable(clients, queue) + if c in clients && !clients[c].blocked then [c] else []
  {
    assert (queue + [c])[..|queue|] == queue;
  }

  lemma {:induction false} RunnableMembers(clients: map<ClientId, Client>, queue: seq<ClientId>)
    ensures forall c :: c in Runnable(clients, queue) <==> c in queue && c in clients && !clients[c].blocked
    decreases |queue|
  {
    if queue != [] {
      var early, last := queue[..|queue| - 1], queue[|queue| - 1];
      RunnableMembers(clients, early);
      assert queue == early + [last];
    }
  }

  /** The order of the queue is kept. */
  lemma {:induction false} RunnableConcat(clients: map<ClientId, Client>, a: seq<ClientId>, b: seq<ClientId>)
    ensures Runnable(clients, a + b) == Runnable(clients, a) + Runnable(clients, b)
    decreases |b|
  {
    if b == [] {
      assert a + b == a;
    } else {
      var early, last := b[..|b| - 1], b[|b| - 1];
      RunnableConcat(clients, a, early);
      assert a + b == (a + early) + [last];
      RunnableMore(clients, a + early, last);
    }
  }

  function Cleared(clients: map<ClientId, Client>, queue: seq<ClientId>): map<ClientId, Client> {
    map c | c in clients :: if c in queue then clients[c].(unblockedFlag := false) else clients[c]
  }

  lemma {:induction false} NothingCleared(clients: map<ClientId, Client>)
    ensures Cleared(clients, []) == clients && Runnable(clients, []) == []
  {
  }

  lemma ClearedMore(clients: map<ClientId, Client>, done: seq<ClientId>, c: ClientId)
    requires c in clients
    ensures var now := Cleared(clients, done);
            && c in now && now[c].blocked == clients[c].blocked
            && Cleared(clients, done + [c]) == now[c := now[c].(unblockedFlag := false)]
  {
  }

  lemma FlagsTell(x: Index)
    requires Core(x)
    ensures forall c | c in x.unblocked :: c in x.clients
    ensures forall c | c in Cleared(x.clients, x.unblocked) :: !Cleared(x.clients, x.unblocked)[c].unblockedFlag
  {
    hide Linked, Counted, AllStatusOk;
  }

  lemma AddWaitKnows(x: Index, c: ClientId, k: Key)
    requires c in x.clients
    ensures c in AddWait(x, c, k).clients
  {
  }

  lemma CoreIsLinked(x: Index)
    requires Core(x)
    ensures Linked(x)
  {
  }

  lemma RemovedNothing(blocking: map<Key, seq<Node>>)
    ensures Removed(blocking, map[]) == blocking
    ensures forall keys: map<Key, nat> :: keys - keys.Keys == map[]
  {
  }

  lemma StillListed(x: Index, c: ClientId, todo: set<Key>, k: Key)
    requires Linked(x) && c in x.clients && todo <= x.clients[c].keys.Keys && k in todo
    ensures var b := Removed(x.blocking, x.clients[c].keys - todo);
            k in x.blocking && k in b && b[k] == x.blocking[k]
  {
    hide Without, ListOk;
    assert WaitsOk(x.blocking, c, x.clients[c]);
  }

  lemma RemovedMore(blocking: map<Key, seq<Node>>, keys: map<Key, nat>, todo: set<Key>, k: Key)
    requires todo <= keys.Keys && k in todo && k in blocking
    ensures var b := Removed(blocking, keys - todo);
            var left := Without(blocking[k], keys[k]);
            Removed(blocking, keys - (todo - {k})) == if left == [] then b - {k} else b[k := left]
  {
    hide Without;
  }

  lemma DeliverIs(w: World, r: ClientId, k: Key)
    requires k in w.db && w.db[k].ListValue? && w.db[k].items != []
    requires r in w.index.clients && w.index.blockedClients > 0
    ensures var cl := w.index.clients[r];
            Deliver(w, r, k) ==
            Handed(w.(db := Taken(w.db, k, cl.popsHead), index := Unblock(w.index, r)),
                   r, k, cl.popsHead, Popped(w.db[k].items, cl.popsHead), cl.target)
  {
  }

  /** Moving the ready list aside leaves the marks as they are. */
  lemma ReadyTaken(w: World)
    requires Core(w.index) && ReadyWith(w.index, [])
    ensures var w' := w.(index := w.index.(ready := []));
            && Core(w'.index) && ReadyWith(w'.index, w.index.ready) && Accounted(w') == Accounted(w)
            && (Alert(w, None) ==> Alert(w', None))
  {
    hide ListOk, WaitsOk, StatusOk, OfType, Blocked, OnListType;
    var w' := w.(index := w.index.(ready := []));
    assert [] + w.index.ready == w.index.ready + [];
    forall k | HasListWaiter(w'.index, k) ensures HasListWaiter(w.index, k) {
      SameListWaiters(w'.index, w.index, k);
    }
  }

  lemma NothingReady(w: World)
    requires ReadyWith(w.index, []) && w.index.ready == []
    ensures w.index.readySet == {}
    ensures Alert(w, None) ==> forall k | k in w.index.blocking :: HasListWaiter(w.index, k) ==> !Full(w.db, k)
  {
    hide HasListWaiter;
  }
}
