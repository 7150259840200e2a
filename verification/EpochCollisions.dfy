/**
 Configuration epoch conflicts among masters: the resolution makes fewer than 2^n moves
 among n masters, never moves the greatest node, and stops exactly when all are distinct.
 */
module EpochCollisions {
  import opened Common
  import opened ClusterModel
  import opened Election
  import opened ElectionSafety

  /** s knows every master, and among `all` the nodes of the cluster takes exactly the masters for masters. */
  predicate KnowsRoles(s: State, masters: set<NodeId>, all: set<NodeId>) {
    masters <= s.nodes.Keys && forall k | k in all && k in s.nodes :: s.nodes[k].master <==> k in masters
  }

  /** Some nodes are masters, the others slaves, and everybody knows that. */
  predicate Roles(nodes: map<NodeId, State>, masters: set<NodeId>) {
    masters <= nodes.Keys && forall n | n in nodes :: KnowsRoles(nodes[n], masters, nodes.Keys)
  }

  /** The masters' own epochs. */
  type Epochs = map<NodeId, nat>

  function Now(nodes: map<NodeId, State>, masters: set<NodeId>): Epochs
    requires Roles(nodes, masters)
  {
    map n | n in masters :: nodes[n].nodes[n].configEpoch
  }

  /** s knows no master at a greater epoch than its own. */
  predicate Behind(s: State, now: Epochs) {
    now.Keys <= s.nodes.Keys && forall k | k in now :: s.nodes[k].configEpoch <= now[k]
  }

  predicate ViewsBehind(nodes: map<NodeId, State>, masters: set<NodeId>)
    requires Roles(nodes, masters)
  {
    forall n | n in nodes :: Behind(nodes[n], Now(nodes, masters))
  }

  /** Only headers are sent and delivered; other view changes leave the roles as they are. */
  predicate Settles(c: Cluster, masters: set<NodeId>, e: Event)
    requires Enabled(c, e)
  {
    match e
    case SendPing(_) => true
    case DeliverPing(n, h, view) => KnowsRoles(view, masters, c.nodes.Keys)
    case Reconfigure(n, view) => KnowsRoles(view, masters, c.nodes.Keys)
    case _ => false
  }

  predicate IsSettling(run: seq<Cluster>, events: seq<Event>, masters: set<NodeId>) {
    && IsRun(run, events)
    && Roles(run[0].nodes, masters) && ViewsBehind(run[0].nodes, masters)
    && forall i | 0 <= i < |events| :: Settles(run[i], masters, events[i])
  }

  // --------------------------------------------------------------------------
  // The epochs a node has held
  // --------------------------------------------------------------------------

  /** Every epoch of its own that a master has had so far. */
  type History = map<NodeId, set<nat>>

  predicate Records(held: History, now: Epochs) {
    held.Keys == now.Keys && forall n | n in held :: now[n] in held[n] && forall v | v in held[n] :: v <= now[n]
  }

  /** Every epoch a master left was held by some greater master. */
  predicate LeavesToGreater(held: History, now: Epochs) {
    && held.Keys == now.Keys
    && forall m, v {:trigger HeldAbove(held, m, v)} | m in held && v in held[m] && v != now[m] :: HeldAbove(held, m, v)
  }

  predicate HeldAbove(held: History, m: NodeId, v: nat) {
    exists k :: k in held && k > m && v in held[k]
  }

  /** Node n moves to epoch v, off an epoch a greater master has held. */
  predicate Bumps(held: History, now: Epochs, n: NodeId, v: nat) {
    n in held && n in now && now[n] < v && HeldAbove(held, n, now[n])
  }

  /** A header in flight from a master carries an epoch that master has held. */
  predicate HeadersRecorded(held: History, all: set<NodeId>, headers: set<Header>) {
    forall h | h in headers :: h.sender in all && (h.sender in held ==> h.configEpoch in held[h.sender])
  }

  lemma BumpRecorded(held: History, now: Epochs, n: NodeId, v: nat)
    requires Records(held, now) && LeavesToGreater(held, now) && Bumps(held, now, n, v)
    ensures v !in held[n]
    ensures var held', now' := held[n := held[n] + {v}], now[n := v];
            Records(held', now') && LeavesToGreater(held', now')
  {
    var held', now' := held[n := held[n] + {v}], now[n := v];
    forall m, w | m in held' && w in held'[m] && w != now'[m] ensures HeldAbove(held', m, w) {
      assert HeldAbove(held, m, w);
      var k :| k in held && k > m && w in held[k];
      assert k in held' && w in held'[k];
    }
  }

  // --------------------------------------------------------------------------
  // One step of a settling run
  // --------------------------------------------------------------------------

  /** What delivering a master's header does to one node's epochs. */
  lemma DeliveryAtNode(s: State, h: Header, view: State)
    requires s.myself in s.nodes && h.sender in s.nodes && EpochsDominated(s)
    requires SameEpochs(AdoptHeader(s, h), view)
    requires h.sender == s.myself ==> h.configEpoch <= s.nodes[s.myself].configEpoch
    ensures var r := CheckCollision(view, h);
            && r.nodes.Keys == view.nodes.Keys && r.myself == s.myself
            && (forall k | k in r.nodes :: r.nodes[k].master == view.nodes[k].master)
            && (forall k | k in r.nodes && k in s.nodes && k != s.myself ::
                  r.nodes[k].configEpoch ==
                  if k == h.sender then Max(s.nodes[k].configEpoch, h.configEpoch) else s.nodes[k].configEpoch)
            && s.nodes[s.myself].configEpoch <= r.nodes[s.myself].configEpoch
            && (r.nodes[s.myself].configEpoch != s.nodes[s.myself].configEpoch ==>
                  && view.nodes[s.myself].master
                  && h.sender > s.myself && h.configEpoch == s.nodes[s.myself].configEpoch)
  {
  }

  /** A slave's header moves nobody, whatever epoch of its master it carries. */
  lemma SlaveDelivery(s: State, h: Header, view: State, now: Epochs)
    requires SameEpochs(AdoptHeader(s, h), view) && Behind(s, now)
    requires h.sender !in now && (h.sender in view.nodes ==> !view.nodes[h.sender].master)
    requires forall k | k in now :: k in view.nodes
    ensures CheckCollision(view, h) == view
    ensures forall k | k in now :: view.nodes[k].configEpoch == s.nodes[k].configEpoch
  {
  }

  /** t can take n's place: it knows the roles, and no other master beyond its own epoch. */
  predicate Replaces(now: Epochs, all: set<NodeId>, n: NodeId, t: State) {
    && KnowsRoles(t, now.Keys, all)
    && (if n in now then now[n] <= t.nodes[n].configEpoch && Behind(t, now[n := t.nodes[n].configEpoch])
        else Behind(t, now))
  }

  function NowAt(now: Epochs, n: NodeId, t: State): Epochs
    requires n in now ==> n in t.nodes
  {
    if n in now then now[n := t.nodes[n].configEpoch] else now
  }

  lemma MastersKnowThemselves(nodes: map<NodeId, State>, masters: set<NodeId>)
    requires Roles(nodes, masters)
    ensures forall n | n in masters :: n in nodes && n in nodes[n].nodes
  {
    forall n | n in masters ensures n in nodes && n in nodes[n].nodes {
      assert KnowsRoles(nodes[n], masters, nodes.Keys);
    }
  }

  lemma RolesAreKnown(nodes: map<NodeId, State>, masters: set<NodeId>)
    requires Roles(nodes, masters)
    ensures Now(nodes, masters).Keys == masters
  {
  }

  lemma ReplacedRoles(nodes: map<NodeId, State>, masters: set<NodeId>, n: NodeId, t: State)
    requires Roles(nodes, masters) && n in nodes && KnowsRoles(t, masters, nodes.Keys)
    ensures Roles(nodes[n := t], masters)
  {
    hide KnowsRoles;
    assert nodes[n := t].Keys == nodes.Keys;
  }

  lemma ReplacedNow(nodes: map<NodeId, State>, masters: set<NodeId>, n: NodeId, t: State)
    requires Roles(nodes, masters) && Roles(nodes[n := t], masters) && n in nodes
    ensures n in masters ==> n in t.nodes
    ensures Now(nodes[n := t], masters) == NowAt(Now(nodes, masters), n, t)
  {
    hide KnowsRoles;
    MastersKnowThemselves(nodes, masters);
    MastersKnowThemselves(nodes[n := t], masters);
    assert nodes[n := t][n] == t;
    assert Now(nodes[n := t], masters).Keys == NowAt(Now(nodes, masters), n, t).Keys;
  }

  lemma StillBehind(s: State, now: Epochs, n: NodeId, t: State)
    requires Behind(s, now) && (n in now ==> n in t.nodes && now[n] <= t.nodes[n].configEpoch)
    ensures Behind(s, NowAt(now, n, t))
  {
  }

  lemma Replaced(nodes: map<NodeId, State>, masters: set<NodeId>, n: NodeId, t: State)
    requires Roles(nodes, masters) && ViewsBehind(nodes, masters) && n in nodes
    requires Replaces(Now(nodes, masters), nodes.Keys, n, t)
    ensures Roles(nodes[n := t], masters) && ViewsBehind(nodes[n := t], masters)
    ensures n in masters ==> n in t.nodes
    ensures Now(nodes[n := t], masters) == NowAt(Now(nodes, masters), n, t)
  {
    hide Roles, KnowsRoles, Behind, Now;
    var nodes' := nodes[n := t];
    RolesAreKnown(nodes, masters);
    ReplacedRoles(nodes, masters, n, t);
    ReplacedNow(nodes, masters, n, t);
    forall m | m in nodes' ensures Behind(nodes'[m], Now(nodes', masters)) {
      if m != n {
        StillBehind(nodes[m], Now(nodes, masters), n, t);
      }
    }
  }

  /** From one state to the next node n moves, and nobody else. */
  predicate Moved(held: History, now: Epochs, now': Epochs, n: NodeId) {
    n in now' && now' == now[n := now'[n]] && Bumps(held, now, n, now'[n])
  }

  lemma MasterDelivery(held: History, now: Epochs, all: set<NodeId>, s: State, h: Header, view: State)
    requires s.myself in s.nodes && Behind(s, now) && EpochsDominated(s)
    requires s.myself in now ==> s.nodes[s.myself].configEpoch == now[s.myself]
    requires SameEpochs(AdoptHeader(s, h), view) && KnowsRoles(view, now.Keys, all)
    requires s.myself in all && h.sender in now
    requires Records(held, now) && h.configEpoch in held[h.sender]
    ensures var r := CheckCollision(view, h);
            && Replaces(now, all, s.myself, r)
            && (s.myself in now && r.nodes[s.myself].configEpoch != now[s.myself] ==>
                  Bumps(held, now, s.myself, r.nodes[s.myself].configEpoch))
  {
    hide SameEpochs, CheckCollision, AdoptHeader, EpochsDominated, WellFormed;
    DeliveryAtNode(s, h, view);
  }

  lemma DeliveryStep(held: History, now: Epochs, all: set<NodeId>, s: State, h: Header, view: State)
    requires s.myself in s.nodes && Behind(s, now) && EpochsDominated(s)
    requires s.myself in now ==> s.nodes[s.myself].configEpoch == now[s.myself]
    requires SameEpochs(AdoptHeader(s, h), view) && KnowsRoles(view, now.Keys, all)
    requires s.myself in all && h.sender in all
    requires Records(held, now) && (h.sender in held ==> h.configEpoch in held[h.sender])
    ensures var r := CheckCollision(view, h);
            && Replaces(now, all, s.myself, r)
            && (s.myself in now && r.nodes[s.myself].configEpoch != now[s.myself] ==>
                  Bumps(held, now, s.myself, r.nodes[s.myself].configEpoch))
  {
    hide SameEpochs, CheckCollision, AdoptHeader, EpochsDominated, WellFormed;
    if h.sender in now {
      MasterDelivery(held, now, all, s, h, view);
    } else {
      SlaveDelivery(s, h, view, now);
    }
  }

  predicate Settled(held: History, masters: set<NodeId>, c: Cluster) {
    && Roles(c.nodes, masters) && ViewsBehind(c.nodes, masters)
    && HeadersRecorded(held, c.nodes.Keys, c.headers) && Records(held, Now(c.nodes, masters))
  }

  /** What the cluster facts say about one of its nodes. */
  lemma NodeInCluster(nodes: map<NodeId, State>, masters: set<NodeId>, n: NodeId)
    requires Roles(nodes, masters) && ViewsBehind(nodes, masters) && n in nodes
    ensures Now(nodes, masters).Keys == masters && KnowsRoles(nodes[n], masters, nodes.Keys)
    ensures Behind(nodes[n], Now(nodes, masters))
    ensures n in masters ==> n in nodes[n].nodes && Now(nodes, masters)[n] == nodes[n].nodes[n].configEpoch
  {
    hide KnowsRoles, Behind;
    MastersKnowThemselves(nodes, masters);
  }

  predicate Sound(s: State, n: NodeId) {
    s.myself == n && WellFormed(s) && EpochsDominated(s)
  }

  predicate MovedOrNot(held: History, masters: set<NodeId>, c: Cluster, c': Cluster, n: NodeId)
    requires Roles(c.nodes, masters) && Roles(c'.nodes, masters)
  {
    Now(c'.nodes, masters) == Now(c.nodes, masters) || Moved(held, Now(c.nodes, masters), Now(c'.nodes, masters), n)
  }

  lemma SettlingDelivery(held: History, masters: set<NodeId>, c: Cluster, n: NodeId, h: Header, view: State)
    requires Settled(held, masters, c) && n in c.nodes && Sound(c.nodes[n], n) && h in c.headers
    requires SameEpochs(AdoptHeader(c.nodes[n], h), view) && KnowsRoles(view, masters, c.nodes.Keys)
    ensures var c' := At(c, n, CheckCollision(view, h));
            Roles(c'.nodes, masters) && ViewsBehind(c'.nodes, masters) && MovedOrNot(held, masters, c, c', n)
  {
    hide SameEpochs, CheckCollision, AdoptHeader, EpochsDominated, Behind, ViewsBehind, Roles, KnowsRoles, Now, Records,
         Bumps;
    NodeInCluster(c.nodes, masters, n);
    ViewIsWellFormed(AdoptHeader(c.nodes[n], h), view);
    DeliveryStep(held, Now(c.nodes, masters), c.nodes.Keys, c.nodes[n], h, view);
    Replaced(c.nodes, masters, n, CheckCollision(view, h));
  }

  lemma ViewIsWellFormed(s: State, view: State)
    requires SameEpochs(s, view)
    ensures WellFormed(view) && view.myself in view.nodes
  {
  }

  lemma SettlingView(masters: set<NodeId>, c: Cluster, n: NodeId, view: State)
    requires Roles(c.nodes, masters) && ViewsBehind(c.nodes, masters) && n in c.nodes
    requires SameEpochs(c.nodes[n], view) && KnowsRoles(view, masters, c.nodes.Keys)
    ensures Roles(c.nodes[n := view], masters) && ViewsBehind(c.nodes[n := view], masters)
    ensures Now(c.nodes[n := view], masters) == Now(c.nodes, masters)
  {
    hide Roles, KnowsRoles, ViewsBehind, Now, SameEpochs, Behind, WellFormed, Replaces;
    NodeInCluster(c.nodes, masters, n);
    SameEpochsReplace(c.nodes[n], Now(c.nodes, masters), c.nodes.Keys, n, view);
    Replaced(c.nodes, masters, n, view);
  }

  lemma SameEpochsReplace(s: State, now: Epochs, all: set<NodeId>, n: NodeId, view: State)
    requires Behind(s, now) && SameEpochs(s, view) && KnowsRoles(view, now.Keys, all)
    requires n in now ==> n in s.nodes && now[n] == s.nodes[n].configEpoch
    ensures Replaces(now, all, n, view) && (n in now ==> n in view.nodes) && NowAt(now, n, view) == now
  {
  }

  lemma SettlingStep(held: History, masters: set<NodeId>, c: Cluster, e: Event)
    requires AllWellFormed(c) && Settled(held, masters, c)
    requires Enabled(c, e) && Settles(c, masters, e) && Sound(c.nodes[e.n], e.n)
    ensures var c' := Next(c, e);
            && Roles(c'.nodes, masters) && ViewsBehind(c'.nodes, masters)
            && HeadersRecorded(held, c'.nodes.Keys, c'.headers) && MovedOrNot(held, masters, c, c', e.n)
  {
    hide Roles, KnowsRoles, ViewsBehind, Now, SameEpochs, Records, Moved, BuildHeader, CheckCollision, AdoptHeader;
    match e
    case DeliverPing(n, h, view) =>
      SettlingDelivery(held, masters, c, n, h, view);
      assert Next(c, e).nodes.Keys == c.nodes.Keys;
    case Reconfigure(n, view) =>
      SettlingView(masters, c, n, view);
      assert Next(c, e).nodes.Keys == c.nodes.Keys;
    case SendPing(n) =>
      SettlingSend(held, masters, c, n);
  }

  lemma MasterSpeaksForItself(s: State)
    requires WellFormed(s) && s.nodes[s.myself].master
    ensures BuildHeader(s, Ping, false).configEpoch == s.nodes[s.myself].configEpoch
  {
  }

  lemma SettlingSend(held: History, masters: set<NodeId>, c: Cluster, n: NodeId)
    requires Settled(held, masters, c) && n in c.nodes && Sound(c.nodes[n], n)
    ensures HeadersRecorded(held, c.nodes.Keys, c.headers + {BuildHeader(c.nodes[n], Ping, false)})
  {
    hide Roles, ViewsBehind, Behind, WellFormed, Now, EpochsDominated;
    NodeInCluster(c.nodes, masters, n);
    if n in masters {
      MasterSpeaksForItself(c.nodes[n]);
    } else {
    }
  }

  // --------------------------------------------------------------------------
  // Counting
  // --------------------------------------------------------------------------

  predicate IsLeast(m: NodeId, ids: set<NodeId>) {
    m in ids && forall k | k in ids :: m <= k
  }

  function Least(ids: set<NodeId>): (m: NodeId)
    requires ids != {}
    ensures IsLeast(m, ids)
  {
    LeastExists(ids);
    var m :| IsLeast(m, ids);
    m
  }

  lemma {:induction false} LeastExists(ids: set<NodeId>)
    requires ids != {}
    ensures exists m :: IsLeast(m, ids)
    decreases |ids|
  {
    var x :| x in ids;
    var rest := ids - {x};
    assert ids == rest + {x};
    if rest == {} {
      assert IsLeast(x, ids);
    } else {
      LeastExists(rest);
      var m :| IsLeast(m, rest);
      assert IsLeast(if m < x then m else x, ids);
    }
  }

  /** How many epochs the given nodes have held between them. */
  function HeldBy(held: History, ids: set<NodeId>): nat
    requires ids <= held.Keys
    decreases |ids|
  {
    if ids == {} then 0
    else
      var m := Least(ids);
      |held[m]| + HeldBy(held, ids - {m})
  }

  function AllHeld(held: History, ids: set<NodeId>): set<nat>
    requires ids <= held.Keys
  {
    set k, v | k in ids && v in held[k] :: v
  }

  lemma {:induction false} UnionIsSmaller(held: History, ids: set<NodeId>)
    requires ids <= held.Keys
    ensures |AllHeld(held, ids)| <= HeldBy(held, ids)
    decreases |ids|
  {
    if ids == {} {
      assert AllHeld(held, ids) == {};
    } else {
      var m := Least(ids);
      UnionIsSmaller(held, ids - {m});
      assert AllHeld(held, ids) == held[m] + AllHeld(held, ids - {m});
    }
  }

  /** `ids` is what remains of the nodes once some of the least ones are taken away. */
  predicate Upper(held: History, ids: set<NodeId>) {
    ids <= held.Keys && forall m, k | m in ids && k in held && k > m :: k in ids
  }

  /** Each node has held at most one epoch more than all greater ones together, so the total doubles. */
  lemma {:induction false} HeldIsExponential(held: History, now: Epochs, ids: set<NodeId>)
    requires LeavesToGreater(held, now) && Upper(held, ids)
    ensures HeldBy(held, ids) < Pow2(|ids|)
    decreases |ids|
  {
    if ids != {} {
      var m := Least(ids);
      var rest := ids - {m};
      HeldIsExponential(held, now, rest);
      UnionIsSmaller(held, rest);
      forall v | v in held[m] && v != now[m] ensures v in AllHeld(held, rest) {
        assert HeldAbove(held, m, v);
      }
      SubsetCardinality(held[m], AllHeld(held, rest) + {now[m]});
    }
  }

  /** Adding one new epoch to one node's history raises the total by one. */
  lemma {:induction false} OneMoreHeld(held: History, held': History, ids: set<NodeId>, n: NodeId, v: nat)
    requires held.Keys == held'.Keys && ids <= held.Keys && n in held && v !in held[n]
    requires forall k | k in held :: held'[k] == if k == n then held[n] + {v} else held[k]
    ensures HeldBy(held', ids) == HeldBy(held, ids) + if n in ids then 1 else 0
    decreases |ids|
  {
    if ids != {} {
      OneMoreHeld(held, held', ids - {Least(ids)}, n, v);
    }
  }

  lemma {:induction false} HeldOnce(held: History, ids: set<NodeId>)
    requires ids <= held.Keys && forall k | k in held :: |held[k]| == 1
    ensures HeldBy(held, ids) == |ids|
    decreases |ids|
  {
    if ids != {} {
      HeldOnce(held, ids - {Least(ids)});
    }
  }

  // --------------------------------------------------------------------------
  // Whole runs
  // --------------------------------------------------------------------------

  /** How many of the first i steps changed a master's own epoch. */
  ghost function Moves(run: seq<Cluster>, masters: set<NodeId>, i: nat): nat
    requires i < |run| && forall j | 0 <= j <= i :: Roles(run[j].nodes, masters)
  {
    if i == 0 then 0
    else Moves(run, masters, i - 1) + if Now(run[i].nodes, masters) != Now(run[i - 1].nodes, masters) then 1 else 0
  }

  /** held is the history of c. */
  predicate Traced(held: History, masters: set<NodeId>, c: Cluster) {
    Settled(held, masters, c) && LeavesToGreater(held, Now(c.nodes, masters))
  }

  /** How many epochs have been left. */
  function Left(held: History): int {
    HeldBy(held, held.Keys) - |held|
  }

  predicate HoldsAll(held: History, now: Epochs) {
    held.Keys == now.Keys && forall n | n in now :: now[n] in held[n]
  }

  predicate Grows(held: History, held': History) {
    held'.Keys == held.Keys && forall n | n in held :: held[n] <= held'[n]
  }

  /** The history with one more epoch for n, and everything it accounts for. */
  lemma BumpAccounted(
    held: History, now: Epochs, all: set<NodeId>, headers: set<Header>, n: NodeId, v: nat)
    returns (held': History)
    requires Records(held, now) && LeavesToGreater(held, now) && Bumps(held, now, n, v)
    requires HeadersRecorded(held, all, headers)
    ensures Records(held', now[n := v]) && LeavesToGreater(held', now[n := v]) && HeadersRecorded(held', all, headers)
    ensures Grows(held, held') && Left(held') == Left(held) + 1
  {
    hide Records, LeavesToGreater, HeldBy, HeldAbove;
    BumpRecorded(held, now, n, v);
    held' := held[n := held[n] + {v}];
    assert held'.Keys == held.Keys;
    OneMoreHeld(held, held', held.Keys, n, v);
  }

  lemma AccountStep(held: History, masters: set<NodeId>, c: Cluster, e: Event) returns (held': History)
    requires AllWellFormed(c) && Traced(held, masters, c)
    requires Enabled(c, e) && Settles(c, masters, e) && Sound(c.nodes[e.n], e.n)
    ensures Grows(held, held') && Traced(held', masters, Next(c, e))
    ensures Left(held') == Left(held) + if Now(Next(c, e).nodes, masters) != Now(c.nodes, masters) then 1 else 0
  {
    hide Next, Enabled, Settles, AllWellFormed, ViewsBehind, Roles, Now, Records, LeavesToGreater, HeadersRecorded,
         Bumps,
         Left, Sound;
    SettlingStep(held, masters, c, e);
    var c' := Next(c, e);
    var now, now' := Now(c.nodes, masters), Now(c'.nodes, masters);
    if now' == now {
      held' := held;
    } else {
      held' := BumpAccounted(held, now, c'.nodes.Keys, c'.headers, e.n, now'[e.n]);
    }
  }

  lemma ActorIsSound(c: Cluster, e: Event)
    requires Dominance(c) && Enabled(c, e)
    ensures AllWellFormed(c) && e.n in c.nodes && Sound(c.nodes[e.n], e.n)
  {
    hide EpochsDominated, WellFormed;
  }

  lemma FirstHistory(now: Epochs) returns (held: History)
    ensures Records(held, now) && LeavesToGreater(held, now) && Left(held) == 0
    ensures forall n | n in now :: now[n] in held[n]
  {
    held := map n | n in now :: {now[n]};
    HeldOnce(held, held.Keys);
    hide HeldBy;
  }

  lemma FirstAccount(masters: set<NodeId>, c: Cluster) returns (held: History)
    requires Roles(c.nodes, masters) && ViewsBehind(c.nodes, masters) && c.headers == {}
    ensures Traced(held, masters, c) && Left(held) == 0 && held.Keys == masters && HoldsAll(held, Now(c.nodes, masters))
  {
    hide Roles, ViewsBehind, LeavesToGreater, HeldBy, Now;
    held := FirstHistory(Now(c.nodes, masters));
    RolesAreKnown(c.nodes, masters);
  }

  lemma NothingSent(c: Cluster)
    requires Initial(c)
    ensures c.headers == {}
  {
  }

  lemma TracedRoles(held: History, masters: set<NodeId>, c: Cluster)
    requires Traced(held, masters, c)
    ensures Roles(c.nodes, masters)
  {
  }

  lemma StillHeld(held: History, held': History, first: Epochs)
    requires Grows(held, held') && HoldsAll(held, first)
    ensures held'.Keys == held.Keys && HoldsAll(held', first)
  {
  }

  lemma {:induction false} Accounted(run: seq<Cluster>, events: seq<Event>, masters: set<NodeId>, i: nat)
    returns (held: History)
    requires IsSettling(run, events, masters) && i < |run|
    ensures forall j | 0 <= j <= i :: Roles(run[j].nodes, masters)
    ensures Traced(held, masters, run[i]) && Left(held) == Moves(run, masters, i)
    ensures held.Keys == masters && HoldsAll(held, Now(run[0].nodes, masters))
  {
    hide Next, Enabled, Settles, Dominance, Traced, Left, Roles, ViewsBehind, Now, AllWellFormed, Sound, HoldsAll,
         Grows,
         Initial;
    if i == 0 {
      NothingSent(run[0]);
      held := FirstAccount(masters, run[0]);
    } else {
      var before := Accounted(run, events, masters, i - 1);
      EpochDominance(run, events, i - 1);
      ActorIsSound(run[i - 1], events[i - 1]);
      held := AccountStep(before, masters, run[i - 1], events[i - 1]);
      TracedRoles(held, masters, run[i]);
      StillHeld(before, held, Now(run[0].nodes, masters));
    }
  }

  /** Among n masters fewer than 2^n - n moves ever happen. */
  lemma {:induction false} FewMoves(run: seq<Cluster>, events: seq<Event>, masters: set<NodeId>, i: nat)
    requires IsSettling(run, events, masters) && i < |run|
    ensures forall j | 0 <= j <= i :: Roles(run[j].nodes, masters)
    ensures Moves(run, masters, i) + |masters| < Pow2(|masters|)
  {
    hide IsSettling, ViewsBehind, Roles, HeldBy, LeavesToGreater;
    var held := Accounted(run, events, masters, i);
    HeldIsExponential(held, Now(run[i].nodes, masters), held.Keys);
    assert |held| == |held.Keys|;
  }

  /** The greatest master never moves. */
  lemma GreatestNeverMoves(run: seq<Cluster>, events: seq<Event>, masters: set<NodeId>, i: nat, top: NodeId)
    requires IsSettling(run, events, masters) && i < |run|
    requires top in masters && forall k | k in masters :: k <= top
    ensures Roles(run[i].nodes, masters) && top in Now(run[i].nodes, masters)
    ensures Now(run[i].nodes, masters)[top] == Now(run[0].nodes, masters)[top]
  {
    hide IsSettling, ViewsBehind, Roles, HeldBy, HeadersRecorded, Now, Records, LeavesToGreater, HoldsAll;
    var held := Accounted(run, events, masters, i);
    NothingAbove(held, Now(run[0].nodes, masters), Now(run[i].nodes, masters), top);
  }

  lemma NothingAbove(held: History, first: Epochs, now: Epochs, top: NodeId)
    requires HoldsAll(held, first) && LeavesToGreater(held, now)
    requires top in held && forall k | k in held :: k <= top
    ensures top in first && top in now && now[top] == first[top]
  {
    assert !HeldAbove(held, top, first[top]);
  }

  /** Delivering t's current header to s would move s. */
  predicate WouldMove(s: State, t: State)
    requires WellFormed(s) && WellFormed(t)
  {
    var h := BuildHeader(t, Ping, false);
    CheckCollision(AdoptHeader(s, h), h).nodes[s.myself].configEpoch != s.nodes[s.myself].configEpoch
  }

  lemma MovesOnCollision(now: Epochs, all: set<NodeId>, s: State, t: State)
    requires WellFormed(s) && EpochsDominated(s) && Behind(s, now) && KnowsRoles(s, now.Keys, all) && s.myself in now
    requires WellFormed(t) && KnowsRoles(t, now.Keys, all) && s.myself in all && t.myself in all
    requires now[s.myself] == s.nodes[s.myself].configEpoch
    requires t.myself in now ==> now[t.myself] == t.nodes[t.myself].configEpoch
    ensures WouldMove(s, t) <==> t.myself in now && s.myself < t.myself && now[s.myself] == now[t.myself]
  {
    hide BuildHeader, EpochsDominated;
    SenderOfHeader(t);
    KnownIsDominated(s, s.myself);
    if t.myself in now {
      MasterSpeaksForItself(t);
    }
  }

  lemma SenderOfHeader(s: State)
    requires WellFormed(s)
    ensures BuildHeader(s, Ping, false).sender == s.myself
  {
  }

  lemma MovesInCluster(nodes: map<NodeId, State>, masters: set<NodeId>, n: NodeId, k: NodeId)
    requires Roles(nodes, masters) && ViewsBehind(nodes, masters)
    requires n in masters && Sound(nodes[n], n) && k in nodes && Sound(nodes[k], k)
    ensures var now := Now(nodes, masters);
            WouldMove(nodes[n], nodes[k]) <==> k in masters && n < k && now[n] == now[k]
  {
    hide ViewsBehind, Roles, KnowsRoles, WellFormed, Now, EpochsDominated, WouldMove;
    MastersKnowThemselves(nodes, masters);
    NodeInCluster(nodes, masters, n);
    NodeInCluster(nodes, masters, k);
    MovesOnCollision(Now(nodes, masters), nodes.Keys, nodes[n], nodes[k]);
  }

  /** No current header would move any master exactly when all masters' epochs are distinct. */
  lemma QuietIffDistinct(run: seq<Cluster>, events: seq<Event>, masters: set<NodeId>, i: nat)
    requires IsSettling(run, events, masters) && i < |run|
    ensures AllWellFormed(run[i]) && Roles(run[i].nodes, masters)
    ensures var nodes, now := run[i].nodes, Now(run[i].nodes, masters);
            (forall n, k | n in masters && k in nodes :: !WouldMove(nodes[n], nodes[k])) <==>
            (forall n, k | n in masters && k in masters && now[n] == now[k] :: n == k)
  {
    hide Next, Enabled, Settles, Dominance, Roles, ViewsBehind, Now, AllWellFormed, WouldMove, Initial, HeldBy,
         HoldsAll,
         LeavesToGreater, HeadersRecorded, Records;
    var _ := Accounted(run, events, masters, i);
    EpochDominance(run, events, i);
    InFlightIsDominated(run[i]);
    QuietCluster(run[i], masters);
  }

  lemma QuietCluster(c: Cluster, masters: set<NodeId>)
    requires Dominance(c) && Roles(c.nodes, masters) && ViewsBehind(c.nodes, masters)
    ensures var nodes, now := c.nodes, Now(c.nodes, masters);
            (forall n, k | n in masters && k in nodes :: !WouldMove(nodes[n], nodes[k])) <==>
            (forall n, k | n in masters && k in masters && now[n] == now[k] :: n == k)
  {
    hide WouldMove, Dominance, Roles, ViewsBehind, Now, WellFormed, EpochsDominated;
    var nodes, now := c.nodes, Now(c.nodes, masters);
    RolesAreKnown(nodes, masters);
    MastersKnowThemselves(nodes, masters);
    forall n | n in nodes ensures Sound(nodes[n], n) {
      NodeIsDominated(c, n);
    }
    forall n, k | n in masters && k in nodes
      ensures WouldMove(nodes[n], nodes[k]) <==> k in masters && n < k && now[n] == now[k]
    {
      MovesInCluster(nodes, masters, n, k);
    }
    if forall n, k | n in masters && k in nodes :: !WouldMove(nodes[n], nodes[k]) {
      forall n, k | n in masters && k in masters && now[n] == now[k] ensures n == k {
        assert !WouldMove(nodes[n], nodes[k]) && !WouldMove(nodes[k], nodes[n]);
      }
    }
  }
}
