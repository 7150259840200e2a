/**
 Failover elections, as runs of a whole cluster.

 Every node holds its own `State`.  Headers, once sent, may be delivered to anybody,
 any number of times, in any order, or never.  ACKs travel over a link that does not
 duplicate: each is delivered at most once.  Between two epoch steps a node's view of
 roles, failures, slots and cluster size may change arbitrarily (`Reconfigure`).
 */
module Election {
  import opened ClusterModel

  datatype Grant = Grant(voter: NodeId, epoch: nat, slave: NodeId)
  datatype Ack = Ack(dst: NodeId, header: Header)
  datatype Win = Win(slave: NodeId, epoch: nat)

  /** The last three fields are history: no step reads them. */
  datatype Cluster = Cluster(
    nodes: map<NodeId, State>,
    headers: set<Header>,
    acks: multiset<Ack>,
    grants: set<Grant>,
    counted: set<Grant>,
    wins: set<Win>)

  datatype Event =
    | Reconfigure(n: NodeId, view: State)
    | SendPing(n: NodeId)
    | SendUpdate(n: NodeId, about: NodeId)
    | DeliverPing(n: NodeId, h: Header, view: State)
    | DeliverUpdate(n: NodeId, h: Header)
    | DeliverRequest(n: NodeId, h: Header, votedRecently: bool, linkUp: bool)
    | DeliverAck(n: NodeId, ack: Ack)
    | FailoverTick(n: NodeId, t: Timing, force: bool)
    | BumpEpoch(n: NodeId)
    | SetEpoch(n: NodeId, epoch: nat)

  // --------------------------------------------------------------------------
  // Steps
  // --------------------------------------------------------------------------

  /** t differs from s at most in roles, failure flags, slots, cluster size and membership. */
  predicate SameEpochs(s: State, t: State) {
    && WellFormed(t)
    && t == s.(nodes := t.nodes, slots := t.slots, importing := t.importing, migrating := t.migrating, size := t.size)
    && forall k | k in t.nodes ::
         t.nodes[k].configEpoch == if k in s.nodes then s.nodes[k].configEpoch else 0
  }

  predicate Enabled(c: Cluster, e: Event) {
    && e.n in c.nodes
    && match e
       case Reconfigure(n, view) => SameEpochs(c.nodes[n], view)
       case SendUpdate(n, about) => about in c.nodes[n].nodes
       case DeliverPing(n, h, view) => h in c.headers && h.kind.Ping? && SameEpochs(AdoptHeader(c.nodes[n], h), view)
       case DeliverUpdate(n, h) => h in c.headers && h.kind.Update?
       case DeliverRequest(n, h, _, _) => h in c.headers && h.kind.AuthRequest?
       case DeliverAck(n, ack) => ack in c.acks && ack.dst == n
       case _ => true
  }

  predicate Votes(c: Cluster, n: NodeId, h: Header, votedRecently: bool)
    requires n in c.nodes && WellFormed(c.nodes[n])
  {
    GrantsVote(AdoptHeader(c.nodes[n], h), h, votedRecently)
  }

  function At(c: Cluster, n: NodeId, s: State): Cluster {
    c.(nodes := c.nodes[n := s])
  }

  predicate AllWellFormed(c: Cluster) {
    forall n | n in c.nodes :: WellFormed(c.nodes[n])
  }

  function GrantOf(a: Ack): Grant {
    Grant(a.header.sender, a.header.currentEpoch, a.dst)
  }

  function Next(c: Cluster, e: Event): Cluster
    requires AllWellFormed(c) && Enabled(c, e)
  {
    var s := c.nodes[e.n];
    match e
    case Reconfigure(n, view) => At(c, n, view)
    case SendPing(n) => c.(headers := c.headers + {BuildHeader(s, Ping, false)})
    case SendUpdate(n, about) =>
      var p := s.nodes[about];
      c.(headers := c.headers + {BuildHeader(s, Update(about, p.configEpoch, p.slots), false)})
    case DeliverPing(n, h, view) => At(c, n, CheckCollision(view, h))
    case DeliverUpdate(n, h) => At(c, n, ReceiveUpdate(s, h))
    case DeliverRequest(n, h, votedRecently, linkUp) => AfterRequest(c, n, h, votedRecently, linkUp)
    case DeliverAck(n, ack) => AfterAck(c, n, ack)
    case FailoverTick(n, t, force) => AfterTick(c, n, t, force)
    case BumpEpoch(n) => At(c, n, BumpConfigEpochWithoutConsensus(s))
    case SetEpoch(n, epoch) => At(c, n, SetOwnConfigEpoch(s, epoch))
  }

  function AfterRequest(c: Cluster, n: NodeId, h: Header, votedRecently: bool, linkUp: bool): Cluster
    requires n in c.nodes && WellFormed(c.nodes[n])
  {
    var a := AdoptHeader(c.nodes[n], h);
    if !GrantsVote(a, h, votedRecently) then At(c, n, a)
    else
      var v := CastVote(a);
      var ack := Ack(h.sender, BuildHeader(v, AuthAck, false));
      At(c, n, v).(
        acks := if linkUp then c.acks + multiset{ack} else c.acks,
        grants := c.grants + {GrantOf(ack)})
  }

  function AfterAck(c: Cluster, n: NodeId, ack: Ack): Cluster
    requires n in c.nodes
  {
    var s := c.nodes[n];
    At(c, n, ReceiveAck(s, ack.header)).(
      acks := c.acks - multiset{ack},
      counted := if CountsAck(AdoptHeader(s, ack.header), ack.header) then c.counted + {GrantOf(ack)} else c.counted)
  }

  function AfterTick(c: Cluster, n: NodeId, t: Timing, force: bool): Cluster
    requires n in c.nodes && WellFormed(c.nodes[n])
  {
    var s := c.nodes[n];
    var action := FailoverDecision(s, t);
    var s' := ApplyFailover(s, action);
    At(c, n, s').(
      headers := if action.RequestVotes? then c.headers + {BuildHeader(s', AuthRequest, force)} else c.headers,
      wins := if action.TakeOver? then c.wins + {Win(n, s.authEpoch)} else c.wins)
  }

  // --------------------------------------------------------------------------
  // Hypotheses about a run
  // --------------------------------------------------------------------------

  /** Only nodes of the electorate vote, and quorums are computed from its size. */
  predicate FixedElectorate(voters: set<NodeId>, c: Cluster, e: Event)
    requires AllWellFormed(c) && Enabled(c, e)
  {
    match e
    case DeliverRequest(n, h, votedRecently, _) => Votes(c, n, h, votedRecently) ==> n in voters
    case FailoverTick(n, t, _) => FailoverDecision(c.nodes[n], t).TakeOver? ==> c.nodes[n].size == |voters|
    case _ => true
  }

  /** An ACK that would be counted after the election was re-armed and before votes are asked for again. */
  predicate StaleAck(c: Cluster, e: Event)
    requires Enabled(c, e)
  {
    && e.DeliverAck?
    && !c.nodes[e.n].authSent
    && CountsAck(AdoptHeader(c.nodes[e.n], e.ack.header), e.ack.header)
  }

  /** Any stored epochs and any views, but nothing in flight and no votes counted. */
  predicate Initial(c: Cluster) {
    && AllWellFormed(c)
    && (forall n | n in c.nodes :: c.nodes[n].myself == n && EpochsDominated(c.nodes[n]) && c.nodes[n].authCount == 0)
    && c.headers == {} && c.acks == multiset{} && c.grants == {} && c.counted == {} && c.wins == {}
  }

  // --------------------------------------------------------------------------
  // Epoch dominance
  // --------------------------------------------------------------------------

  predicate EpochsDominated(s: State) {
    && s.lastVoteEpoch <= s.currentEpoch
    && s.authEpoch <= s.currentEpoch
    && forall k | k in s.nodes :: s.nodes[k].configEpoch <= s.currentEpoch
  }

  predicate HeaderDominated(h: Header) {
    && h.configEpoch <= h.currentEpoch
    && (h.kind.Update? ==> h.kind.aboutEpoch <= h.currentEpoch)
  }

  predicate Dominance(c: Cluster) {
    && AllWellFormed(c)
    && (forall n | n in c.nodes :: c.nodes[n].myself == n && EpochsDominated(c.nodes[n]))
    && (forall h | h in c.headers :: HeaderDominated(h))
    && (forall a | a in c.acks :: HeaderDominated(a.header))
  }

  /** The node's own four epochs are no lower in t than in s. */
  predicate NoLowerEpoch(s: State, t: State) {
    && s.currentEpoch <= t.currentEpoch && s.lastVoteEpoch <= t.lastVoteEpoch && s.authEpoch <= t.authEpoch
    && t.myself == s.myself && s.myself in s.nodes && s.myself in t.nodes
    && s.nodes[s.myself].configEpoch <= t.nodes[s.myself].configEpoch
  }

  /** Neither is the epoch of any node still known; one forgotten and met again starts from zero. */
  predicate NoLowerView(s: State, t: State) {
    forall k | k in s.nodes && k in t.nodes :: s.nodes[k].configEpoch <= t.nodes[k].configEpoch
  }

  predicate EpochsGrow(c: Cluster, c': Cluster) {
    c'.nodes.Keys == c.nodes.Keys && forall n | n in c.nodes :: NoLowerEpoch(c.nodes[n], c'.nodes[n])
  }

  predicate ViewsGrow(c: Cluster, c': Cluster) {
    forall n | n in c.nodes && n in c'.nodes :: NoLowerView(c.nodes[n], c'.nodes[n])
  }

  /** What one node's step keeps, whatever the step. */
  predicate NodeStep(s: State, t: State) {
    WellFormed(t) && t.myself == s.myself && EpochsDominated(t) && NoLowerEpoch(s, t) && NoLowerView(s, t)
  }

  lemma AdoptingKeepsDominance(s: State, h: Header)
    requires WellFormed(s) && EpochsDominated(s) && HeaderDominated(h)
    ensures NodeStep(s, AdoptHeader(s, h)) && AdoptHeader(s, h).nodes.Keys == s.nodes.Keys
    ensures h.sender in s.nodes ==> h.currentEpoch <= AdoptHeader(s, h).currentEpoch
  {
  }

  lemma CollidingKeepsDominance(s: State, h: Header)
    requires WellFormed(s) && EpochsDominated(s)
    ensures NodeStep(s, CheckCollision(s, h))
  {
  }

  lemma UpdatingKeepsDominance(s: State, h: Header)
    requires WellFormed(s) && EpochsDominated(s) && HeaderDominated(h) && h.kind.Update?
    ensures NodeStep(s, ReceiveUpdate(s, h))
  {
    hide AdoptHeader;
    AdoptingKeepsDominance(s, h);
  }

  /** Whatever a node receives, it keeps its epochs dominated and lowers none. */
  lemma ReceivingKeepsDominance(s: State, h: Header)
    requires WellFormed(s) && EpochsDominated(s) && HeaderDominated(h)
    ensures NodeStep(s, AdoptHeader(s, h))
    ensures NodeStep(s, CheckCollision(s, h))
    ensures NodeStep(s, ReceiveAck(s, h))
    ensures h.kind.Update? ==> NodeStep(s, ReceiveUpdate(s, h))
  {
    hide AdoptHeader, CheckCollision, ReceiveUpdate;
    AdoptingKeepsDominance(s, h);
    CollidingKeepsDominance(s, h);
    if h.kind.Update? {
      UpdatingKeepsDominance(s, h);
    }
  }

  /** A node that raises its own epoch, up to its current one. */
  lemma RaisingKeepsDominance(s: State, current: nat, epoch: nat)
    requires WellFormed(s) && EpochsDominated(s)
    requires s.currentEpoch <= current && s.nodes[s.myself].configEpoch <= epoch <= current
    ensures NodeStep(s, SetConfigEpoch(s.(currentEpoch := current), s.myself, epoch))
  {
  }

  /** Whatever a node does on its own, likewise. */
  lemma LocalStepsKeepDominance(s: State, a: FailoverAction)
    requires WellFormed(s) && EpochsDominated(s)
    ensures NodeStep(s, ApplyFailover(s, a))
    ensures NodeStep(s, BumpConfigEpochWithoutConsensus(s))
    ensures NodeStep(s, CastVote(s))
  {
    hide ShouldBump, SetConfigEpoch;
    var mine := s.nodes[s.myself].configEpoch;
    RaisingKeepsDominance(s, s.currentEpoch + 1, s.currentEpoch + 1);
    RaisingKeepsDominance(s, s.currentEpoch, Max(mine, s.authEpoch));
    assert s.(currentEpoch := s.currentEpoch) == s;
  }

  lemma SettingKeepsDominance(s: State, epoch: nat)
    requires WellFormed(s) && EpochsDominated(s)
    ensures NodeStep(s, SetOwnConfigEpoch(s, epoch))
  {
  }

  /** A change of view between two epoch steps. */
  lemma ReviewingKeepsDominance(s: State, view: State)
    requires WellFormed(s) && EpochsDominated(s) && SameEpochs(s, view)
    ensures NodeStep(s, view)
  {
  }

  lemma PingingKeepsDominance(s: State, h: Header, view: State)
    requires WellFormed(s) && EpochsDominated(s) && HeaderDominated(h) && SameEpochs(AdoptHeader(s, h), view)
    ensures view.myself in view.nodes && NodeStep(s, CheckCollision(view, h))
  {
    hide SameEpochs, EpochsDominated, HeaderDominated;
    var a := AdoptHeader(s, h);
    AdoptingKeepsDominance(s, h);
    StepIsDominated(s, a);
    ReviewingKeepsDominance(a, view);
    StepIsDominated(a, view);
    CollidingKeepsDominance(view, h);
    hide NodeStep;
  }

  lemma BuiltHeaderIsDominated(s: State, kind: Kind, force: bool)
    requires WellFormed(s) && EpochsDominated(s)
    requires kind.Update? ==> kind.aboutEpoch <= s.currentEpoch
    ensures HeaderDominated(BuildHeader(s, kind, force))
  {
  }

  lemma StepIsDominated(s: State, t: State)
    requires NodeStep(s, t)
    ensures WellFormed(t) && EpochsDominated(t)
  {
  }

  /** What `Dominance` says of one node. */
  lemma NodeIsDominated(c: Cluster, n: NodeId)
    requires Dominance(c) && n in c.nodes
    ensures c.nodes[n].myself == n && WellFormed(c.nodes[n]) && EpochsDominated(c.nodes[n])
    ensures NodeStep(c.nodes[n], c.nodes[n])
  {
  }

  predicate Kept(c: Cluster, c': Cluster) {
    Dominance(c') && EpochsGrow(c, c') && ViewsGrow(c, c')
  }

  /** One node moves on; what is newly in flight is dominated. */
  lemma PlacingKeepsDominance(c: Cluster, n: NodeId, t: State, c': Cluster)
    requires Dominance(c) && n in c.nodes && NodeStep(c.nodes[n], t) && c'.nodes == c.nodes[n := t]
    requires forall h | h in c'.headers :: h in c.headers || HeaderDominated(h)
    requires forall a | a in c'.acks :: a in c.acks || HeaderDominated(a.header)
    ensures Kept(c, c')
  {
    hide WellFormed, EpochsDominated, HeaderDominated, NoLowerEpoch, NoLowerView;
    forall k | k in c.nodes ensures NodeStep(c.nodes[k], c'.nodes[k]) && c'.nodes[k].myself == k {
      NodeIsDominated(c, k);
    }
  }

  lemma RequestKeepsDominance(c: Cluster, n: NodeId, h: Header, votedRecently: bool, linkUp: bool)
    requires Dominance(c) && n in c.nodes && HeaderDominated(h)
    ensures Kept(c, AfterRequest(c, n, h, votedRecently, linkUp))
  {
    hide Dominance, Kept, EpochsDominated, HeaderDominated, AdoptHeader, GrantsVote, BuildHeader;
    NodeIsDominated(c, n);
    var s, a := c.nodes[n], AdoptHeader(c.nodes[n], h);
    var c' := AfterRequest(c, n, h, votedRecently, linkUp);
    AdoptingKeepsDominance(s, h);
    StepIsDominated(s, a);
    LocalStepsKeepDominance(a, Idle);
    StepIsDominated(a, CastVote(a));
    BuiltHeaderIsDominated(CastVote(a), AuthAck, false);
    PlacingKeepsDominance(c, n, c'.nodes[n], c');
  }

  lemma TickKeepsDominance(c: Cluster, n: NodeId, t: Timing, force: bool)
    requires Dominance(c) && n in c.nodes
    ensures Kept(c, AfterTick(c, n, t, force))
  {
    hide Dominance, Kept, EpochsDominated, HeaderDominated, FailoverDecision, ApplyFailover, BuildHeader, NodeStep;
    NodeIsDominated(c, n);
    var s := c.nodes[n];
    var s' := ApplyFailover(s, FailoverDecision(s, t));
    LocalStepsKeepDominance(s, FailoverDecision(s, t));
    StepIsDominated(s, s');
    BuiltHeaderIsDominated(s', AuthRequest, force);
    PlacingKeepsDominance(c, n, s', AfterTick(c, n, t, force));
  }

  lemma SendKeepsDominance(c: Cluster, n: NodeId, kind: Kind)
    requires Dominance(c) && n in c.nodes && (kind.Update? ==> kind.aboutEpoch <= c.nodes[n].currentEpoch)
    ensures WellFormed(c.nodes[n]) && Kept(c, c.(headers := c.headers + {BuildHeader(c.nodes[n], kind, false)}))
  {
    hide Dominance, Kept, EpochsDominated, HeaderDominated, BuildHeader, NodeStep;
    NodeIsDominated(c, n);
    BuiltHeaderIsDominated(c.nodes[n], kind, false);
    assert c.nodes == c.nodes[n := c.nodes[n]];
    PlacingKeepsDominance(c, n, c.nodes[n], c.(headers := c.headers + {BuildHeader(c.nodes[n], kind, false)}));
  }

  lemma InFlightIsDominated(c: Cluster)
    requires Dominance(c)
    ensures AllWellFormed(c)
    ensures forall h | h in c.headers :: HeaderDominated(h)
    ensures forall a | a in c.acks :: HeaderDominated(a.header)
  {
  }

  lemma KnownIsDominated(s: State, k: NodeId)
    requires EpochsDominated(s) && k in s.nodes
    ensures s.nodes[k].configEpoch <= s.currentEpoch
  {
  }

  /** Every step keeps the epochs dominated, and lowers none. */
  lemma DominanceStep(c: Cluster, e: Event)
    requires Dominance(c) && Enabled(c, e)
    ensures Dominance(Next(c, e)) && EpochsGrow(c, Next(c, e)) && ViewsGrow(c, Next(c, e))
  {
    hide Dominance, EpochsGrow, ViewsGrow, NodeStep, EpochsDominated, HeaderDominated, SameEpochs, WellFormed,
         BuildHeader, AdoptHeader, CheckCollision, ReceiveUpdate, ReceiveAck, CountsAck,
         BumpConfigEpochWithoutConsensus, SetOwnConfigEpoch, AfterRequest, AfterTick;
    NodeIsDominated(c, e.n);
    InFlightIsDominated(c);
    var s, c' := c.nodes[e.n], Next(c, e);
    match e
    case Reconfigure(n, view) =>
      ReviewingKeepsDominance(s, view);
      PlacingKeepsDominance(c, n, view, c');
    case SendPing(n) => SendKeepsDominance(c, n, Ping);
    case SendUpdate(n, about) =>
      KnownIsDominated(s, about);
      SendKeepsDominance(c, n, Update(about, s.nodes[about].configEpoch, s.nodes[about].slots));
    case DeliverPing(n, h, view) =>
      PingingKeepsDominance(s, h, view);
      PlacingKeepsDominance(c, n, CheckCollision(view, h), c');
    case DeliverUpdate(n, h) =>
      UpdatingKeepsDominance(s, h);
      PlacingKeepsDominance(c, n, ReceiveUpdate(s, h), c');
    case DeliverRequest(n, h, votedRecently, linkUp) => RequestKeepsDominance(c, n, h, votedRecently, linkUp);
    case DeliverAck(n, ack) =>
      ReceivingKeepsDominance(s, ack.header);
      PlacingKeepsDominance(c, n, ReceiveAck(s, ack.header), c');
    case FailoverTick(n, t, force) => TickKeepsDominance(c, n, t, force);
    case BumpEpoch(n) =>
      LocalStepsKeepDominance(s, Idle);
      PlacingKeepsDominance(c, n, BumpConfigEpochWithoutConsensus(s), c');
    case SetEpoch(n, epoch) =>
      SettingKeepsDominance(s, epoch);
      PlacingKeepsDominance(c, n, SetOwnConfigEpoch(s, epoch), c');
  }
}
