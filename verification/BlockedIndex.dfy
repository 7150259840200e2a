/**
 Clients blocked on keys: which clients wait for a key, which keys a client waits for, and
 which keys have become ready.  A key is a database number and a name; a list node is an
 address with the client stored in it.
 */
module BlockedIndex {
  import opened Common

  type Key = (nat, string)

  type ClientId = nat

  datatype BlockType = NotBlocked | OnList | OnZset | OnStream

  datatype Client = Client(
    btype: BlockType,
    blocked: bool,
    unblockedFlag: bool,
    keys: map<Key, nat>,
    target: Option<Key>,
    popsHead: bool)

  datatype Node = Node(id: nat, client: ClientId)

  datatype Index = Index(
    blocking: map<Key, seq<Node>>,
    clients: map<ClientId, Client>,
    blockedClients: nat,
    byType: map<BlockType, nat>,
    unblocked: seq<ClientId>,
    ready: seq<Key>,
    readySet: set<Key>,
    nextNode: nat)

  // --------------------------------------------------------------------------
  // What every operation keeps
  // --------------------------------------------------------------------------

  predicate DistinctIds(nodes: seq<Node>) {
    forall i, j | 0 <= i < j < |nodes| :: nodes[i].id != nodes[j].id
  }

  predicate NoDuplicates<T(==)>(s: seq<T>) {
    forall i, j | 0 <= i < j < |s| :: s[i] != s[j]
  }

  /** The node's client waits for the key, and this is the node it remembers. */
  predicate NodeOk(clients: map<ClientId, Client>, next: nat, k: Key, n: Node) {
    && n.id < next && n.client in clients
    && k in clients[n.client].keys && clients[n.client].keys[k] == n.id
  }

  predicate ListOk(clients: map<ClientId, Client>, next: nat, k: Key, nodes: seq<Node>) {
    nodes != [] && DistinctIds(nodes) && forall n | n in nodes :: NodeOk(clients, next, k, n)
  }

  /** The client stands in the list of every key it waits for, at the node it remembers. */
  predicate WaitsOk(blocking: map<Key, seq<Node>>, c: ClientId, cl: Client) {
    forall k | k in cl.keys :: k in blocking && Node(cl.keys[k], c) in blocking[k]
  }

  predicate StatusOk(cl: Client) {
    && (cl.blocked <==> cl.keys != map[])
    && (cl.blocked <==> cl.btype != NotBlocked)
    && (cl.target.Some? ==> cl.blocked)
  }

  function OfType(clients: map<ClientId, Client>, t: BlockType): set<ClientId> {
    set c | c in clients && clients[c].btype == t
  }

  function Blocked(clients: map<ClientId, Client>): set<ClientId> {
    set c | c in clients && clients[c].blocked
  }

  predicate ListsOk(x: Index) {
    forall k | k in x.blocking :: ListOk(x.clients, x.nextNode, k, x.blocking[k])
  }

  predicate ClientsOk(x: Index) {
    forall c | c in x.clients :: WaitsOk(x.blocking, c, x.clients[c])
  }

  /** The two directions of the index agree, and no stored list is empty. */
  predicate Linked(x: Index) {
    ListsOk(x) && ClientsOk(x)
  }

  predicate AllStatusOk(clients: map<ClientId, Client>) {
    forall c | c in clients :: StatusOk(clients[c])
  }

  predicate Counted(x: Index) {
    && x.blockedClients == |Blocked(x.clients)|
    && (forall t: BlockType | t != NotBlocked :: t in x.byType && x.byType[t] == |OfType(x.clients, t)|)
  }

  predicate Flagged(x: Index) {
    && NoDuplicates(x.unblocked)
    && (forall c | c in x.unblocked :: c in x.clients)
    && (forall c | c in x.clients :: c in x.unblocked <==> x.clients[c].unblockedFlag)
  }

  /** The per-database dictionaries hold the keys of the ready list, and of a list being worked off. */
  predicate ReadyWith(x: Index, working: seq<Key>) {
    NoDuplicates(working + x.ready) && x.readySet == set k | k in working + x.ready
  }

  predicate Core(x: Index) {
    Linked(x) && AllStatusOk(x.clients) && Counted(x) && Flagged(x)
  }

  predicate Indexed(x: Index) {
    Core(x) && ReadyWith(x, [])
  }

  /** A client stands in a key's list exactly once when it waits for the key, else not at all. */
  lemma OnceIffWaiting(x: Index, c: ClientId, k: Key)
    requires Linked(x) && c in x.clients
    ensures k in x.clients[c].keys <==> k in x.blocking && exists n | n in x.blocking[k] :: n.client == c
    ensures k in x.blocking ==>
              forall i, j | 0 <= i < j < |x.blocking[k]| :: x.blocking[k][i].client != x.blocking[k][j].client
  {
    hide DistinctIds;
    var cl := x.clients[c];
    assert WaitsOk(x.blocking, c, cl);
    if k in cl.keys {
      assert Node(cl.keys[k], c).client == c;
    }
    if k in x.blocking {
      var nodes := x.blocking[k];
      assert ListOk(x.clients, x.nextNode, k, nodes);
      forall i, j | 0 <= i < j < |nodes| ensures nodes[i].client != nodes[j].client {
        assert nodes[i] in nodes && nodes[j] in nodes;
        Apart(nodes, i, j);
      }
    }
  }

  lemma Apart(nodes: seq<Node>, i: nat, j: nat)
    requires DistinctIds(nodes) && i < j < |nodes|
    ensures nodes[i].id != nodes[j].id
  {
  }

  // --------------------------------------------------------------------------
  // Blocking
  // --------------------------------------------------------------------------

  function Waiters(blocking: map<Key, seq<Node>>, k: Key): seq<Node> {
    if k in blocking then blocking[k] else []
  }

  /** One turn of the loop of blockForKeys: a key given twice is waited for once. */
  function AddWait(x: Index, c: ClientId, k: Key): Index
    requires c in x.clients
  {
    var cl := x.clients[c];
    if k in cl.keys then x
    else x.(clients := x.clients[c := cl.(keys := cl.keys[k := x.nextNode])],
            blocking := x.blocking[k := Waiters(x.blocking, k) + [Node(x.nextNode, c)]],
            nextNode := x.nextNode + 1)
  }

  function AddWaits(x: Index, c: ClientId, keys: seq<Key>): (x': Index)
    requires c in x.clients
    ensures c in x'.clients
    decreases |keys|
  {
    if keys == [] then x else AddWaits(AddWait(x, c, keys[0]), c, keys[1..])
  }

  function Bumped(byType: map<BlockType, nat>, t: BlockType): map<BlockType, nat> {
    byType[t := (if t in byType then byType[t] else 0) + 1]
  }

  /** blockClient. */
  function MarkBlocked(x: Index, c: ClientId, t: BlockType): Index
    requires c in x.clients
  {
    x.(clients := x.clients[c := x.clients[c].(blocked := true, btype := t)],
       blockedClients := x.blockedClients + 1,
       byType := Bumped(x.byType, t))
  }

  function Aimed(x: Index, c: ClientId, target: Option<Key>): Index
    requires c in x.clients
  {
    x.(clients := x.clients[c := x.clients[c].(target := target)])
  }

  function BlockForKeys(x: Index, c: ClientId, t: BlockType, keys: seq<Key>, target: Option<Key>): Index
    requires c in x.clients
  {
    MarkBlocked(AddWaits(Aimed(x, c, target), c, keys), c, t)
  }

  // --------------------------------------------------------------------------
  // Unblocking
  // --------------------------------------------------------------------------

  /** listDelNode, given the node. */
  function Without(nodes: seq<Node>, id: nat): seq<Node> {
    if nodes == [] then [] else if nodes[0].id == id then nodes[1..] else [nodes[0]] + Without(nodes[1..], id)
  }

  /** The lists with these nodes taken out; a list left empty is dropped. */
  function Removed(blocking: map<Key, seq<Node>>, keys: map<Key, nat>): map<Key, seq<Node>> {
    map k | k in blocking && !(k in keys && Without(blocking[k], keys[k]) == []) ::
      if k in keys then Without(blocking[k], keys[k]) else blocking[k]
  }

  function Dropped(byType: map<BlockType, nat>, t: BlockType): map<BlockType, nat> {
    if t in byType && byType[t] > 0 then byType[t := byType[t] - 1] else byType
  }

  /** queueClientForReprocessing. */
  function Queue(x: Index, c: ClientId): Index
    requires c in x.clients
  {
    if x.clients[c].unblockedFlag then x
    else x.(clients := x.clients[c := x.clients[c].(unblockedFlag := true)], unblocked := x.unblocked + [c])
  }

  /** The index just before the client is queued for reprocessing. */
  function Detached(x: Index, c: ClientId): Index
    requires c in x.clients && x.blockedClients > 0
  {
    var cl := x.clients[c];
    x.(blocking := Removed(x.blocking, cl.keys),
       clients := x.clients[c := cl.(keys := map[], target := None, blocked := false, btype := NotBlocked)],
       blockedClients := x.blockedClients - 1,
       byType := Dropped(x.byType, cl.btype))
  }

  /** unblockClient. */
  function Unblock(x: Index, c: ClientId): Index
    requires c in x.clients && x.blockedClients > 0
  {
    Queue(Detached(x, c), c)
  }

  // --------------------------------------------------------------------------
  // Ready keys and rotation
  // --------------------------------------------------------------------------

  function Signal(x: Index, k: Key): Index {
    if k !in x.blocking || k in x.readySet then x
    else x.(ready := x.ready + [k], readySet := x.readySet + {k})
  }

  /** listRotateHeadToTail on a key's waiters. */
  function Rotated(nodes: seq<Node>): seq<Node> {
    if |nodes| <= 1 then nodes else nodes[1..] + [nodes[0]]
  }

  function Rotate(x: Index, k: Key): Index
    requires k in x.blocking
  {
    x.(blocking := x.blocking[k := Rotated(x.blocking[k])])
  }

  // --------------------------------------------------------------------------
  // Blocking keeps the index
  // --------------------------------------------------------------------------

  lemma AddWaitLinked(x: Index, c: ClientId, k: Key)
    requires Linked(x) && c in x.clients
    ensures Linked(AddWait(x, c, k))
  {
    var x' := AddWait(x, c, k);
    var cl := x.clients[c];
    if k !in cl.keys {
      forall k' | k' in x'.blocking ensures ListOk(x'.clients, x'.nextNode, k', x'.blocking[k']) {
        if k' in x.blocking {
          assert ListOk(x.clients, x.nextNode, k', x.blocking[k']);
        }
        ListGrows(x, c, k, k');
      }
      forall d | d in x'.clients ensures WaitsOk(x'.blocking, d, x'.clients[d]) {
        assert WaitsOk(x.blocking, d, x.clients[d]);
      }
    }
  }

  lemma ListGrows(x: Index, c: ClientId, k: Key, k': Key)
    requires c in x.clients && k !in x.clients[c].keys && k' in AddWait(x, c, k).blocking
    requires k' in x.blocking ==> ListOk(x.clients, x.nextNode, k', x.blocking[k'])
    ensures var x' := AddWait(x, c, k); ListOk(x'.clients, x'.nextNode, k', x'.blocking[k'])
  {
    var x' := AddWait(x, c, k);
    var nodes := Waiters(x.blocking, k');
    assert forall n | n in nodes :: NodeOk(x.clients, x.nextNode, k', n);
    assert forall n | n in nodes :: NodeOk(x'.clients, x'.nextNode, k', n);
    if k' == k {
      assert x'.blocking[k] == nodes + [Node(x.nextNode, c)];
      assert forall i | 0 <= i < |nodes| :: nodes[i] in nodes;
    }
  }

  /** What waiting for more keys changes about the clients: only c's keys, which grow. */
  predicate OnlyWaits(x: Index, x': Index, c: ClientId) {
    && c in x.clients && x'.clients.Keys == x.clients.Keys
    && (forall d | d in x.clients && d != c :: x'.clients[d] == x.clients[d])
    && x'.clients[c] == x.clients[c].(keys := x'.clients[c].keys)
    && x' == x.(blocking := x'.blocking, clients := x'.clients, nextNode := x'.nextNode)
  }

  lemma OneMoreWait(x: Index, c: ClientId, k: Key)
    requires c in x.clients
    ensures OnlyWaits(x, AddWait(x, c, k), c) && AddWait(x, c, k).clients[c].keys.Keys == x.clients[c].keys.Keys + {k}
  {
  }

  lemma {:induction false} AddWaitsLinked(x: Index, c: ClientId, keys: seq<Key>)
    requires Linked(x) && c in x.clients
    ensures var x' := AddWaits(x, c, keys);
            && Linked(x') && OnlyWaits(x, x', c)
            && x'.clients[c].keys.Keys == x.clients[c].keys.Keys + set k | k in keys
    decreases |keys|
  {
    hide Linked, AddWait;
    if keys == [] {
    } else {
      var x1 := AddWait(x, c, keys[0]);
      AddWaitLinked(x, c, keys[0]);
      OneMoreWait(x, c, keys[0]);
      AddWaitsLinked(x1, c, keys[1..]);
      assert (set k | k in keys) == {keys[0]} + set k | k in keys[1..];
    }
  }

  /** c joined the waiters of exactly the given keys, behind everybody else. */
  ghost predicate StandsLast(was: map<Key, seq<Node>>, c: ClientId, keys: map<Key, nat>, now: map<Key, seq<Node>>) {
    forall k :: Waiters(now, k) == Waiters(was, k) + if k in keys then [Node(keys[k], c)] else []
  }

  ghost predicate AddedLast(x: Index, x': Index, c: ClientId)
    requires c in x.clients && c in x'.clients
  {
    var was, now := x.clients[c].keys, x'.clients[c].keys;
    && (forall k | k in was :: k in now && now[k] == was[k])
    && forall k :: Waiters(x'.blocking, k) ==
                   Waiters(x.blocking, k) + if k in now && k !in was then [Node(now[k], c)] else []
  }

  lemma {:induction false} AddedLastEach(x: Index, c: ClientId, keys: seq<Key>)
    requires c in x.clients
    ensures AddedLast(x, AddWaits(x, c, keys), c)
    decreases |keys|
  {
    if keys != [] {
      AddedLastEach(AddWait(x, c, keys[0]), c, keys[1..]);
    }
  }

  /** Blocking joins a client that waits for nothing to the end of every queue. */
  lemma BlockedLast(x: Index, c: ClientId, t: BlockType, keys: seq<Key>, target: Option<Key>)
    requires Indexed(x) && c in x.clients && !x.clients[c].blocked
    ensures var x' := BlockForKeys(x, c, t, keys, target);
            && x'.clients.Keys == x.clients.Keys && StandsLast(x.blocking, c, x'.clients[c].keys, x'.blocking)
            && x'.clients[c].blocked && x'.clients[c].btype == t && x'.clients[c].target == target
            && x'.clients[c].popsHead == x.clients[c].popsHead
            && forall d | d in x.clients && d != c :: d in x'.clients && x'.clients[d] == x.clients[d]
  {
    hide AddWaits, Linked, Counted, Flagged;
    assert x.clients[c].keys == map[] by { assert StatusOk(x.clients[c]); }
    AddedLastEach(Aimed(x, c, target), c, keys);
    WaitsOnly(Aimed(x, c, target), c, keys);
  }

  lemma {:induction false} WaitsOnly(x: Index, c: ClientId, keys: seq<Key>)
    requires c in x.clients
    ensures OnlyWaits(x, AddWaits(x, c, keys), c)
    decreases |keys|
  {
    if keys != [] {
      WaitsOnly(AddWait(x, c, keys[0]), c, keys[1..]);
    }
  }

  lemma BlockedGrows(clients: map<ClientId, Client>, clients': map<ClientId, Client>, c: ClientId)
    requires c in clients && clients'.Keys == clients.Keys && !clients[c].blocked && clients'[c].blocked
    requires clients[c].btype == NotBlocked && clients'[c].btype != NotBlocked
    requires forall d | d in clients && d != c ::
               clients'[d].blocked == clients[d].blocked && clients'[d].btype == clients[d].btype
    ensures |Blocked(clients')| == |Blocked(clients)| + 1
    ensures forall t: BlockType | t != NotBlocked ::
              |OfType(clients', t)| == |OfType(clients, t)| + if t == clients'[c].btype then 1 else 0
  {
    assert Blocked(clients') == Blocked(clients) + {c};
    forall t: BlockType | t != NotBlocked
      ensures |OfType(clients', t)| == |OfType(clients, t)| + if t == clients'[c].btype then 1 else 0
    {
      if t == clients'[c].btype {
        assert OfType(clients', t) == OfType(clients, t) + {c};
      } else {
        assert OfType(clients', t) == OfType(clients, t);
      }
    }
  }

  lemma BlockLinked(x: Index, c: ClientId, t: BlockType, keys: seq<Key>, target: Option<Key>)
    requires Linked(x) && c in x.clients
    ensures var x' := BlockForKeys(x, c, t, keys, target);
            var waits := x'.clients[c].keys;
            && Linked(x') && waits.Keys == x.clients[c].keys.Keys + (set k | k in keys)
            && x'.clients == x.clients[c := x.clients[c].(keys := waits, target := target, blocked := true, btype := t)]
            && x' == x.(blocking := x'.blocking, nextNode := x'.nextNode, clients := x'.clients,
                        blockedClients := x.blockedClients + 1, byType := Bumped(x.byType, t))
  {
    hide Linked, AddWaits;
    var x1 := Aimed(x, c, target);
    AimedLinked(x, c, target);
    AddWaitsLinked(x1, c, keys);
    MarkLinked(AddWaits(x1, c, keys), c, t);
  }

  /** blockForKeys keeps the index and leaves the client waiting for exactly the keys given. */
  lemma BlockKeepsIndex(x: Index, c: ClientId, t: BlockType, keys: seq<Key>, target: Option<Key>)
    requires Indexed(x) && c in x.clients && !x.clients[c].blocked && keys != [] && t != NotBlocked
    ensures var x' := BlockForKeys(x, c, t, keys, target);
            Indexed(x') && x'.clients[c].keys.Keys == set k | k in keys
  {
    hide Linked, BlockForKeys, OfType, Blocked;
    var x' := BlockForKeys(x, c, t, keys, target);
    BlockLinked(x, c, t, keys, target);
    assert StatusOk(x.clients[c]);
    assert keys[0] in x'.clients[c].keys.Keys;
    BlockedGrows(x.clients, x'.clients, c);
  }

  lemma AimedLinked(x: Index, c: ClientId, target: Option<Key>)
    requires Linked(x) && c in x.clients
    ensures Linked(Aimed(x, c, target))
  {
    var x' := Aimed(x, c, target);
    SameWaits(x, x');
  }

  lemma MarkLinked(x: Index, c: ClientId, t: BlockType)
    requires Linked(x) && c in x.clients
    ensures Linked(MarkBlocked(x, c, t))
  {
    var x' := MarkBlocked(x, c, t);
    SameWaits(x, x');
  }

  /** The links speak only of lists, addresses and the keys clients wait for. */
  lemma SameWaits(x: Index, x': Index)
    requires Linked(x) && x'.blocking == x.blocking && x'.nextNode == x.nextNode && x'.clients.Keys == x.clients.Keys
    requires forall c | c in x.clients :: x'.clients[c].keys == x.clients[c].keys
    ensures Linked(x')
  {
    hide DistinctIds;
    forall k | k in x'.blocking ensures ListOk(x'.clients, x'.nextNode, k, x'.blocking[k]) {
      assert ListOk(x.clients, x.nextNode, k, x.blocking[k]);
    }
    forall c | c in x'.clients ensures WaitsOk(x'.blocking, c, x'.clients[c]) {
      assert WaitsOk(x.blocking, c, x.clients[c]);
    }
  }

  // --------------------------------------------------------------------------
  // Unblocking keeps the index
  // --------------------------------------------------------------------------

  /** The node taken out stands at i, if there is one. */
  lemma {:induction false} WithoutSplit(nodes: seq<Node>, id: nat) returns (i: nat)
    ensures i <= |nodes| && (forall j | 0 <= j < i :: nodes[j].id != id) && (i < |nodes| ==> nodes[i].id == id)
    ensures Without(nodes, id) == if i < |nodes| then nodes[..i] + nodes[i + 1..] else nodes
    decreases |nodes|
  {
    if nodes == [] || nodes[0].id == id {
      i := 0;
    } else {
      var rest := nodes[1..];
      var k := WithoutSplit(rest, id);
      i := k + 1;
      assert forall j | 1 <= j < i :: nodes[j] == rest[j - 1];
      if k < |rest| {
        assert nodes[..i] == [nodes[0]] + rest[..k] && nodes[i + 1..] == rest[k + 1..];
      }
    }
  }

  lemma {:induction false} WithoutNode(nodes: seq<Node>, id: nat)
    requires DistinctIds(nodes)
    ensures var r := Without(nodes, id);
            DistinctIds(r) && forall n :: n in r <==> n in nodes && n.id != id
  {
    hide Without;
    var i := WithoutSplit(nodes, id);
    if i < |nodes| {
      assert nodes == nodes[..i] + [nodes[i]] + nodes[i + 1..];
    }
  }

  lemma RemovedList(x: Index, c: ClientId, k: Key)
    requires Linked(x) && c in x.clients && k in Removed(x.blocking, x.clients[c].keys)
    ensures ListOk(x.clients[c := x.clients[c].(keys := map[])], x.nextNode, k,
                   Removed(x.blocking, x.clients[c].keys)[k])
  {
    hide DistinctIds, Without;
    var keys, nodes := x.clients[c].keys, x.blocking[k];
    assert ListOk(x.clients, x.nextNode, k, nodes);
    if k in keys {
      WithoutNode(nodes, keys[k]);
    }
    var left := Removed(x.blocking, keys)[k];
    forall n | n in left ensures n in nodes && n.client != c {
      assert n in nodes;
      assert NodeOk(x.clients, x.nextNode, k, n);
    }
  }

  lemma RemovedWaits(x: Index, c: ClientId, d: ClientId)
    requires Linked(x) && c in x.clients && d in x.clients && d != c
    ensures WaitsOk(Removed(x.blocking, x.clients[c].keys), d, x.clients[d])
  {
    hide DistinctIds, Without;
    var keys, waits := x.clients[c].keys, x.clients[d].keys;
    assert WaitsOk(x.blocking, d, x.clients[d]) && WaitsOk(x.blocking, c, x.clients[c]);
    forall k | k in waits ensures k in Removed(x.blocking, keys) && Node(waits[k], d) in Removed(x.blocking, keys)[k] {
      var nodes := x.blocking[k];
      assert ListOk(x.clients, x.nextNode, k, nodes);
      if k in keys {
        SameNode(nodes, Node(waits[k], d), Node(keys[k], c));
        WithoutNode(nodes, keys[k]);
        assert Node(waits[k], d) in Without(nodes, keys[k]);
      }
    }
  }

  lemma SameNode(nodes: seq<Node>, m: Node, n: Node)
    requires DistinctIds(nodes) && m in nodes && n in nodes
    ensures m.id == n.id ==> m == n
  {
    var i :| 0 <= i < |nodes| && nodes[i] == m;
    var j :| 0 <= j < |nodes| && nodes[j] == n;
    if i < j {
      Apart(nodes, i, j);
    } else if j < i {
      Apart(nodes, j, i);
    }
  }

  lemma BlockedShrinks(clients: map<ClientId, Client>, clients': map<ClientId, Client>, c: ClientId)
    requires c in clients && clients'.Keys == clients.Keys && clients[c].blocked && !clients'[c].blocked
    requires clients[c].btype != NotBlocked && clients'[c].btype == NotBlocked
    requires forall d | d in clients && d != c ::
               clients'[d].blocked == clients[d].blocked && clients'[d].btype == clients[d].btype
    ensures |Blocked(clients)| == |Blocked(clients')| + 1
    ensures forall t: BlockType | t != NotBlocked ::
              |OfType(clients, t)| == |OfType(clients', t)| + if t == clients[c].btype then 1 else 0
  {
    hide Blocked, OfType;
    BlockedGrows(clients', clients, c);
  }

  lemma DetachedLinked(x: Index, c: ClientId)
    requires Linked(x) && c in x.clients && x.blockedClients > 0
    ensures Linked(Detached(x, c))
  {
    hide ListOk, WaitsOk, Removed;
    var keys := x.clients[c].keys;
    var x1 := x.(blocking := Removed(x.blocking, keys), clients := x.clients[c := x.clients[c].(keys := map[])]);
    forall k | k in x1.blocking ensures ListOk(x1.clients, x1.nextNode, k, x1.blocking[k]) {
      RemovedList(x, c, k);
    }
    forall d | d in x1.clients ensures WaitsOk(x1.blocking, d, x1.clients[d]) {
      if d == c {
        NoWaits(x1.blocking, c, x1.clients[c]);
      } else {
        RemovedWaits(x, c, d);
      }
    }
    SameWaits(x1, Detached(x, c));
  }

  lemma NoWaits(blocking: map<Key, seq<Node>>, c: ClientId, cl: Client)
    requires cl.keys == map[]
    ensures WaitsOk(blocking, c, cl)
  {
  }

  lemma AnyoneBlocked(x: Index, c: ClientId)
    requires Core(x) && c in x.clients && x.clients[c].blocked
    ensures x.blockedClients > 0 && x.clients[c].btype in x.byType && x.byType[x.clients[c].btype] > 0
  {
    hide Linked, Flagged;
    assert c in Blocked(x.clients) && StatusOk(x.clients[c]);
    assert c in OfType(x.clients, x.clients[c].btype);
  }

  lemma DetachedCore(x: Index, c: ClientId)
    requires Core(x) && c in x.clients && x.clients[c].blocked && x.blockedClients > 0
    ensures Core(Detached(x, c))
  {
    hide Linked, Removed, Blocked, OfType;
    AnyoneBlocked(x, c);
    DetachedLinked(x, c);
    assert StatusOk(x.clients[c]);
    BlockedShrinks(x.clients, Detached(x, c).clients, c);
  }

  lemma QueueCore(x: Index, c: ClientId)
    requires Core(x) && c in x.clients
    ensures Core(Queue(x, c)) && Queue(x, c).clients[c].unblockedFlag && c in Queue(x, c).unblocked
  {
    hide Linked, Blocked, OfType;
    FlagOnly(x, Queue(x, c), c, true);
  }

  /** Raising or lowering a client's flag leaves the rest of the index in order. */
  lemma FlagOnly(x: Index, x': Index, c: ClientId, flag: bool)
    requires Linked(x) && AllStatusOk(x.clients) && Counted(x) && c in x.clients
    requires x' == x.(clients := x.clients[c := x.clients[c].(unblockedFlag := flag)], unblocked := x'.unblocked)
    ensures Linked(x') && AllStatusOk(x'.clients) && Counted(x')
  {
    hide Linked;
    SameWaits(x, x');
    assert Blocked(x'.clients) == Blocked(x.clients);
    forall t: BlockType ensures OfType(x'.clients, t) == OfType(x.clients, t) {
    }
  }

  /** unblockClient keeps the index, with one blocked client fewer and none waiting in its place. */
  lemma UnblockKeepsIndex(x: Index, c: ClientId, working: seq<Key>)
    requires Core(x) && ReadyWith(x, working) && c in x.clients && x.clients[c].blocked
    ensures x.blockedClients > 0
    ensures var x' := Unblock(x, c);
            && Core(x') && ReadyWith(x', working) && x'.blockedClients == x.blockedClients - 1
            && x'.clients[c].keys == map[] && c in x'.unblocked
  {
    hide Core, Removed;
    AnyoneBlocked(x, c);
    DetachedCore(x, c);
    QueueCore(Detached(x, c), c);
  }

  // --------------------------------------------------------------------------
  // Signalling and rotating keep the index
  // --------------------------------------------------------------------------

  /** signalKeyAsReady never lists a key twice. */
  lemma SignalKeepsIndex(x: Index, k: Key, working: seq<Key>)
    requires Core(x) && ReadyWith(x, working)
    ensures var x' := Signal(x, k);
            && Core(x') && ReadyWith(x', working)
            && (k in x.blocking <==> k in x'.blocking) && (k in x.blocking ==> k in working + x'.ready)
  {
    hide ListOk, WaitsOk, StatusOk, OfType, Blocked;
    var x' := Signal(x, k);
    assert working + (x.ready + [k]) == working + x.ready + [k];
    if k in x.blocking && k !in x.readySet {
      assert k !in working + x.ready;
    }
  }

  lemma RotatedList(clients: map<ClientId, Client>, next: nat, k: Key, nodes: seq<Node>)
    requires ListOk(clients, next, k, nodes)
    ensures ListOk(clients, next, k, Rotated(nodes)) && forall n :: n in Rotated(nodes) <==> n in nodes
  {
    if |nodes| > 1 {
      var r := Rotated(nodes);
      assert nodes == [nodes[0]] + nodes[1..];
      forall i, j | 0 <= i < j < |r| ensures r[i].id != r[j].id {
        if j == |r| - 1 {
          Apart(nodes, 0, i + 1);
        } else {
          Apart(nodes, i + 1, j + 1);
        }
      }
    }
  }

  lemma RotateLinked(x: Index, k: Key)
    requires Linked(x) && k in x.blocking
    ensures Linked(Rotate(x, k))
  {
    hide ListOk, Rotated;
    var x' := Rotate(x, k);
    assert ListOk(x.clients, x.nextNode, k, x.blocking[k]);
    RotatedList(x.clients, x.nextNode, k, x.blocking[k]);
    forall k' | k' in x'.blocking ensures ListOk(x'.clients, x'.nextNode, k', x'.blocking[k']) {
      assert ListOk(x.clients, x.nextNode, k', x.blocking[k']);
    }
    forall c | c in x'.clients ensures WaitsOk(x'.blocking, c, x'.clients[c]) {
      assert WaitsOk(x.blocking, c, x.clients[c]);
    }
  }

  /** Moving the first waiter behind the others keeps the index. */
  lemma RotateKeepsIndex(x: Index, k: Key, working: seq<Key>)
    requires Core(x) && ReadyWith(x, working) && k in x.blocking
    ensures Core(Rotate(x, k)) && ReadyWith(Rotate(x, k), working)
  {
    hide Linked, Rotated, StatusOk, OfType, Blocked;
    RotateLinked(x, k);
  }

  // --------------------------------------------------------------------------
  // Whole runs
  // --------------------------------------------------------------------------

  /** One turn of the loop of processUnblockedClients. */
  function Dequeue(x: Index): Index
    requires x.unblocked != [] && x.unblocked[0] in x.clients
  {
    var c := x.unblocked[0];
    x.(clients := x.clients[c := x.clients[c].(unblockedFlag := false)], unblocked := x.unblocked[1..])
  }

  lemma DequeueKeepsIndex(x: Index)
    requires Indexed(x) && x.unblocked != []
    ensures x.unblocked[0] in x.clients && Indexed(Dequeue(x))
  {
    hide Linked, Blocked, OfType;
    var c, rest := x.unblocked[0], x.unblocked[1..];
    assert c in x.unblocked;
    FlagOnly(x, Dequeue(x), c, false);
    assert x.unblocked == [c] + rest;
    assert forall i | 0 <= i < |rest| :: rest[i] == x.unblocked[i + 1];
    assert c !in rest;
  }

  datatype Op =
    | Block(c: ClientId, t: BlockType, keys: seq<Key>, target: Option<Key>)
    | Free(c: ClientId)
    | Requeue(c: ClientId)
    | Process
    | MarkReady(k: Key)
    | Turn(k: Key)

  predicate Enabled(x: Index, op: Op) {
    match op
    case Block(c, t, keys, _) => c in x.clients && !x.clients[c].blocked && keys != [] && t != NotBlocked
    case Free(c) => c in x.clients && x.clients[c].blocked && x.blockedClients > 0
    case Requeue(c) => c in x.clients
    case Process => x.unblocked != [] && x.unblocked[0] in x.clients
    case MarkReady(k) => true
    case Turn(k) => k in x.blocking
  }

  function Step(x: Index, op: Op): Index
    requires Enabled(x, op)
  {
    match op
    case Block(c, t, keys, target) => BlockForKeys(x, c, t, keys, target)
    case Free(c) => Unblock(x, c)
    case Requeue(c) => Queue(x, c)
    case Process => Dequeue(x)
    case MarkReady(k) => Signal(x, k)
    case Turn(k) => Rotate(x, k)
  }

  /** Keys can always be marked, and whoever is blocked can always be freed. */
  lemma AlwaysEnabled(x: Index, c: ClientId, k: Key)
    requires Indexed(x) && c in x.clients
    ensures Enabled(x, MarkReady(k)) && (x.clients[c].blocked ==> Enabled(x, Free(c)))
  {
    hide Core;
    if x.clients[c].blocked {
      AnyoneBlocked(x, c);
    }
  }

  lemma StepKeepsIndex(x: Index, op: Op)
    requires Indexed(x) && Enabled(x, op)
    ensures Indexed(Step(x, op))
  {
    hide Core, BlockForKeys, Unblock, Dequeue, Signal, Rotate;
    match op {
      case Block(c, t, keys, target) => BlockKeepsIndex(x, c, t, keys, target);
      case Free(c) => UnblockKeepsIndex(x, c, []);
      case Requeue(c) => QueueCore(x, c);
      case Process => DequeueKeepsIndex(x);
      case MarkReady(k) => SignalKeepsIndex(x, k, []);
      case Turn(k) => RotateKeepsIndex(x, k, []);
    }
  }

  ghost predicate IsRun(run: seq<Index>, ops: seq<Op>) {
    && |run| == |ops| + 1
    && forall i | 0 <= i < |ops| :: Enabled(run[i], ops[i]) && run[i + 1] == Step(run[i], ops[i])
  }

  /** Before any client has blocked. */
  predicate Idle(x: Index) {
    && x.blocking == map[] && x.blockedClients == 0 && x.unblocked == [] && x.ready == [] && x.readySet == {}
    && (forall c | c in x.clients :: x.clients[c].keys == map[] && x.clients[c].target == None
          && !x.clients[c].blocked && x.clients[c].btype == NotBlocked && !x.clients[c].unblockedFlag)
    && forall t: BlockType :: t in x.byType && x.byType[t] == 0
  }

  /** After any sequence of operations, the two directions, the counters, the flags and the ready keys agree. */
  lemma {:induction false} AlwaysIndexed(run: seq<Index>, ops: seq<Op>, i: nat)
    requires IsRun(run, ops) && Idle(run[0]) && i < |run|
    ensures Indexed(run[i])
    decreases i
  {
    hide Indexed, Enabled, Step;
    if i == 0 {
      IdleIsIndexed(run[0]);
    } else {
      AlwaysIndexed(run, ops, i - 1);
      assert run[i] == Step(run[i - 1], ops[i - 1]);
      StepKeepsIndex(run[i - 1], ops[i - 1]);
    }
  }

  lemma IdleIsIndexed(x: Index)
    requires Idle(x)
    ensures Indexed(x)
  {
    assert Blocked(x.clients) == {};
    forall t: BlockType | t != NotBlocked ensures OfType(x.clients, t) == {} {
    }
  }
}
