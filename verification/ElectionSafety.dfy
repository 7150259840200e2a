/**
 At most one slave wins an election for a given epoch, in every run whose electorate
 is fixed and in which no stale ACK is counted; and a run that shows why the second
 hypothesis is needed.
 */
module ElectionSafety {
  import opened Common
  import opened ClusterModel
  import opened Election

  function VotesFor(gs: set<Grant>, slave: NodeId, epoch: nat): set<NodeId> {
    set g | g in gs && g.slave == slave && g.epoch == epoch :: g.voter
  }

  // --------------------------------------------------------------------------
  // What the ballots of a run satisfy
  // --------------------------------------------------------------------------

  /** A request never carries an epoch beyond the one its sender is standing for. */
  predicate RequestsDated(c: Cluster) {
    forall h | h in c.headers && h.kind.AuthRequest? ::
      h.sender in c.nodes && h.currentEpoch <= c.nodes[h.sender].authEpoch
  }

  /** A voter of the electorate grants at most once per epoch, and only epochs already stood for. */
  predicate GrantsHonest(voters: set<NodeId>, c: Cluster) {
    && (forall g | g in c.grants ::
          && g.voter in voters && g.voter in c.nodes && g.epoch <= c.nodes[g.voter].lastVoteEpoch
          && g.slave in c.nodes && g.epoch <= c.nodes[g.slave].authEpoch)
    && (forall g, g' | g in c.grants && g' in c.grants && g.voter == g'.voter && g.epoch == g'.epoch :: g == g')
  }

  /** Every ACK in flight stands for its own grant, not counted so far. */
  predicate AcksHonest(c: Cluster) {
    && c.counted <= c.grants
    && (forall a | a in c.acks :: c.acks[a] == 1 && GrantOf(a) in c.grants && GrantOf(a) !in c.counted)
    && (forall a, b | a in c.acks && b in c.acks && GrantOf(a) == GrantOf(b) :: a == b)
  }

  /** The vote counter is the number of votes for the election in progress. */
  predicate TallyHonest(c: Cluster, n: NodeId)
    requires n in c.nodes
  {
    var s := c.nodes[n];
    s.authCount == if s.authSent then |VotesFor(c.counted, n, s.authEpoch)| else 0
  }

  predicate TalliesHonest(c: Cluster) {
    forall n | n in c.nodes :: TallyHonest(c, n)
  }

  predicate WinsBacked(voters: set<NodeId>, c: Cluster) {
    forall w | w in c.wins :: |VotesFor(c.grants, w.slave, w.epoch)| >= |voters| / 2 + 1
  }

  predicate Ballots(voters: set<NodeId>, c: Cluster) {
    && RequestsDated(c) && GrantsHonest(voters, c) && AcksHonest(c) && TalliesHonest(c) && WinsBacked(voters, c)
  }

  // --------------------------------------------------------------------------
  // Steps keep the ballots
  // --------------------------------------------------------------------------

  predicate SameBallot(s: State, t: State) {
    && s.lastVoteEpoch == t.lastVoteEpoch && s.authEpoch == t.authEpoch
    && s.authCount == t.authCount && s.authSent == t.authSent
  }

  lemma QuietStep(voters: set<NodeId>, c: Cluster, n: NodeId, t: State)
    requires Ballots(voters, c) && n in c.nodes && SameBallot(c.nodes[n], t)
    ensures Ballots(voters, At(c, n, t))
  {
    assert forall m | m in c.nodes :: TallyHonest(c, m) ==> TallyHonest(At(c, n, t), m);
  }

  lemma SendStep(voters: set<NodeId>, c: Cluster, h: Header)
    requires Ballots(voters, c) && !h.kind.AuthRequest?
    ensures Ballots(voters, c.(headers := c.headers + {h}))
  {
    assert forall m | m in c.nodes :: TallyHonest(c, m) ==> TallyHonest(c.(headers := c.headers + {h}), m);
  }

  lemma VotesGrow(gs: set<Grant>, hs: set<Grant>, slave: NodeId, epoch: nat)
    requires gs <= hs
    ensures VotesFor(gs, slave, epoch) <= VotesFor(hs, slave, epoch)
    ensures |VotesFor(gs, slave, epoch)| <= |VotesFor(hs, slave, epoch)|
  {
    SubsetCardinality(VotesFor(gs, slave, epoch), VotesFor(hs, slave, epoch));
  }

  lemma NewAck(c: Cluster, ack: Ack, linkUp: bool)
    requires AcksHonest(c) && GrantOf(ack) !in c.grants
    ensures AcksHonest(c.(acks := if linkUp then c.acks + multiset{ack} else c.acks,
                          grants := c.grants + {GrantOf(ack)}))
  {
  }

  /** Node n grants one more vote, for an epoch beyond its last one, and may send the ACK. */
  lemma GrantStep(voters: set<NodeId>, c: Cluster, n: NodeId, t: State, ack: Ack, linkUp: bool)
    requires Ballots(voters, c) && n in c.nodes && n in voters
    requires SameBallot(c.nodes[n].(lastVoteEpoch := t.lastVoteEpoch), t)
    requires c.nodes[n].lastVoteEpoch < t.lastVoteEpoch == ack.header.currentEpoch
    requires ack.header.sender == n && ack.dst in c.nodes && ack.header.currentEpoch <= c.nodes[ack.dst].authEpoch
    ensures Ballots(voters, At(c, n, t).(
              acks := if linkUp then c.acks + multiset{ack} else c.acks,
              grants := c.grants + {GrantOf(ack)}))
  {
    hide AcksHonest, GrantsHonest, WinsBacked, TalliesHonest;
    var g := GrantOf(ack);
    NewGrant(voters, c, n, t, g);
    NewAck(c, ack, linkUp);
    var c' := At(c, n, t).(acks := if linkUp then c.acks + multiset{ack} else c.acks, grants := c.grants + {g});
    SameGrants(voters, At(c, n, t).(grants := c.grants + {g}), c');
    SameAcks(c.(acks := c'.acks, grants := c'.grants), c');
    MoreGrants(voters, c, c');
    SameTallies(c, n, t, c');
  }

  lemma NewGrant(voters: set<NodeId>, c: Cluster, n: NodeId, t: State, g: Grant)
    requires GrantsHonest(voters, c) && n in c.nodes && n in voters
    requires SameBallot(c.nodes[n].(lastVoteEpoch := t.lastVoteEpoch), t)
    requires g.voter == n && c.nodes[n].lastVoteEpoch < t.lastVoteEpoch == g.epoch
    requires g.slave in c.nodes && g.epoch <= c.nodes[g.slave].authEpoch
    ensures g !in c.grants && GrantsHonest(voters, At(c, n, t).(grants := c.grants + {g}))
  {
  }

  lemma SameGrants(voters: set<NodeId>, c: Cluster, c': Cluster)
    requires GrantsHonest(voters, c) && c'.grants == c.grants && c'.nodes == c.nodes
    ensures GrantsHonest(voters, c')
  {
  }

  lemma SameAcks(c: Cluster, c': Cluster)
    requires AcksHonest(c) && c'.acks == c.acks && c'.grants == c.grants && c'.counted == c.counted
    ensures AcksHonest(c')
  {
  }

  lemma MoreGrants(voters: set<NodeId>, c: Cluster, c': Cluster)
    requires WinsBacked(voters, c) && c'.wins == c.wins && c.grants <= c'.grants
    ensures WinsBacked(voters, c')
  {
    hide VotesFor;
    forall w | w in c'.wins ensures |VotesFor(c'.grants, w.slave, w.epoch)| >= |voters| / 2 + 1 {
      VotesGrow(c.grants, c'.grants, w.slave, w.epoch);
    }
  }

  lemma SameTallies(c: Cluster, n: NodeId, t: State, c': Cluster)
    requires TalliesHonest(c) && n in c.nodes && c'.nodes == c.nodes[n := t] && c'.counted == c.counted
    requires SameBallot(c.nodes[n].(lastVoteEpoch := t.lastVoteEpoch), t)
    ensures TalliesHonest(c')
  {
    hide VotesFor;
    assert forall m | m in c.nodes :: TallyHonest(c, m) ==> TallyHonest(c', m);
  }

  lemma VoteStep(voters: set<NodeId>, c: Cluster, n: NodeId, h: Header, votedRecently: bool, linkUp: bool)
    requires Dominance(c) && Ballots(voters, c)
    requires n in c.nodes && h in c.headers && h.kind.AuthRequest?
    requires Votes(c, n, h, votedRecently) ==> n in voters
    ensures Ballots(voters, AfterRequest(c, n, h, votedRecently, linkUp))
  {
    var a := AdoptHeader(c.nodes[n], h);
    if GrantsVote(a, h, votedRecently) {
      var v := CastVote(a);
      GrantStep(voters, c, n, v, Ack(h.sender, BuildHeader(v, AuthAck, false)), linkUp);
    } else {
      QuietStep(voters, c, n, a);
    }
  }

  /** The ACK leaves the network; its grant is counted, or dropped. */
  lemma AckConsumed(c: Cluster, ack: Ack, counts: bool)
    requires AcksHonest(c) && ack in c.acks
    ensures AcksHonest(c.(acks := c.acks - multiset{ack},
                          counted := if counts then c.counted + {GrantOf(ack)} else c.counted))
  {
    assert forall a | a in c.acks - multiset{ack} :: a in c.acks && a != ack;
  }

  /** Counting an ACK adds exactly one voter to the election it answers. */
  lemma OneMoreVote(c: Cluster, ack: Ack, slave: NodeId, epoch: nat)
    requires AcksHonest(c) && ack in c.acks
    ensures var before, after := VotesFor(c.counted, slave, epoch), VotesFor(c.counted + {GrantOf(ack)}, slave, epoch);
            if slave == ack.dst && epoch == ack.header.currentEpoch then |after| == |before| + 1 else after == before
  {
    var before, after := VotesFor(c.counted, slave, epoch), VotesFor(c.counted + {GrantOf(ack)}, slave, epoch);
    if slave == ack.dst && epoch == ack.header.currentEpoch {
      assert after == before + {ack.header.sender};
      assert forall g | g in c.counted && g.slave == slave && g.epoch == epoch :: g != GrantOf(ack);
    }
  }

  /** Requests, grants and wins do not depend on what is in flight or counted. */
  lemma OtherBallots(voters: set<NodeId>, c: Cluster, c': Cluster, n: NodeId)
    requires RequestsDated(c) && GrantsHonest(voters, c) && WinsBacked(voters, c)
    requires c.headers == c'.headers && c.grants == c'.grants && c.wins == c'.wins
    requires n in c.nodes && n in c'.nodes && c'.nodes == c.nodes[n := c'.nodes[n]]
    requires c.nodes[n].lastVoteEpoch == c'.nodes[n].lastVoteEpoch && c.nodes[n].authEpoch == c'.nodes[n].authEpoch
    ensures RequestsDated(c') && GrantsHonest(voters, c') && WinsBacked(voters, c')
  {
  }

  /** c' is c after node n took an ACK off the network and counted it, or not. */
  predicate AckTaken(c: Cluster, c': Cluster, n: NodeId, ack: Ack, counts: bool) {
    && n in c.nodes && ack in c.acks && ack.dst == n
    && n in c'.nodes && c'.nodes == c.nodes[n := c'.nodes[n]]
    && SameBallot(c.nodes[n].(authCount := c.nodes[n].authCount + if counts then 1 else 0), c'.nodes[n])
    && (counts ==> c.nodes[n].authSent && ack.header.currentEpoch == c.nodes[n].authEpoch)
    && c'.acks == c.acks - multiset{ack}
    && c'.counted == (if counts then c.counted + {GrantOf(ack)} else c.counted)
    && c.headers == c'.headers && c.grants == c'.grants && c.wins == c'.wins
  }

  lemma TallyAfterAck(c: Cluster, c': Cluster, n: NodeId, ack: Ack, counts: bool, m: NodeId)
    requires AcksHonest(c) && TalliesHonest(c) && AckTaken(c, c', n, ack, counts) && m in c.nodes
    ensures TallyHonest(c', m)
  {
    OneMoreVote(c, ack, m, c.nodes[m].authEpoch);
    hide AcksHonest, VotesFor;
    assert TallyHonest(c, m);
  }

  lemma TallyStep(voters: set<NodeId>, c: Cluster, c': Cluster, n: NodeId, ack: Ack, counts: bool)
    requires Ballots(voters, c) && AckTaken(c, c', n, ack, counts)
    ensures Ballots(voters, c')
  {
    AckConsumed(c, ack, counts);
    assert AcksHonest(c');
    OtherBallots(voters, c, c', n);
    hide RequestsDated, GrantsHonest, AcksHonest, WinsBacked, TallyHonest;
    forall m | m in c'.nodes ensures TallyHonest(c', m) {
      TallyAfterAck(c, c', n, ack, counts, m);
    }
  }

  lemma CountStep(voters: set<NodeId>, c: Cluster, n: NodeId, ack: Ack)
    requires Ballots(voters, c) && n in c.nodes && ack in c.acks && ack.dst == n
    requires CountsAck(AdoptHeader(c.nodes[n], ack.header), ack.header) ==> c.nodes[n].authSent
    ensures Ballots(voters, AfterAck(c, n, ack))
  {
    assert GrantOf(ack) in c.grants;
    hide Ballots;
    TallyStep(voters, c, AfterAck(c, n, ack), n, ack,
              CountsAck(AdoptHeader(c.nodes[n], ack.header), ack.header));
  }

  lemma NewElection(voters: set<NodeId>, c: Cluster, n: NodeId, t: State, h: Header)
    requires Ballots(voters, c) && n in c.nodes && !c.nodes[n].authSent
    requires c.nodes[n].authEpoch < t.authEpoch == h.currentEpoch && h.sender == n
    requires SameBallot(c.nodes[n].(authEpoch := t.authEpoch, authSent := true), t)
    ensures Ballots(voters, At(c, n, t).(headers := c.headers + {h}))
  {
    var c' := At(c, n, t).(headers := c.headers + {h});
    forall m | m in c'.nodes ensures TallyHonest(c', m) {
      assert TallyHonest(c, m);
      assert VotesFor(c.counted, n, t.authEpoch) == {};
    }
  }

  lemma RearmStep(voters: set<NodeId>, c: Cluster, n: NodeId)
    requires Ballots(voters, c) && n in c.nodes
    ensures Ballots(voters, At(c, n, c.nodes[n].(authCount := 0, authSent := false)))
  {
    var c' := At(c, n, c.nodes[n].(authCount := 0, authSent := false));
    assert forall m | m in c.nodes :: TallyHonest(c, m) ==> TallyHonest(c', m);
  }

  lemma WinStep(voters: set<NodeId>, c: Cluster, n: NodeId)
    requires Ballots(voters, c) && n in c.nodes
    requires c.nodes[n].authSent && c.nodes[n].authCount >= |voters| / 2 + 1
    ensures Ballots(voters, c.(wins := c.wins + {Win(n, c.nodes[n].authEpoch)}))
  {
    var c' := c.(wins := c.wins + {Win(n, c.nodes[n].authEpoch)});
    assert forall m | m in c.nodes :: TallyHonest(c, m) ==> TallyHonest(c', m);
    assert TallyHonest(c, n);
    VotesGrow(c.counted, c.grants, n, c.nodes[n].authEpoch);
  }

  lemma TickStep(voters: set<NodeId>, c: Cluster, n: NodeId, t: Timing, force: bool)
    requires Dominance(c) && Ballots(voters, c) && n in c.nodes
    requires FailoverDecision(c.nodes[n], t).TakeOver? ==> c.nodes[n].size == |voters|
    ensures Ballots(voters, AfterTick(c, n, t, force))
  {
    hide RequestsDated, GrantsHonest, TallyHonest, VotesFor;
    var s := c.nodes[n];
    var action := FailoverDecision(s, t);
    var s' := ApplyFailover(s, action);
    match action
    case Rearm => RearmStep(voters, c, n);
    case RequestVotes => NewElection(voters, c, n, s', BuildHeader(s', AuthRequest, force));
    case TakeOver =>
      QuietStep(voters, c, n, s');
      WinStep(voters, At(c, n, s'), n);
    case _ => QuietStep(voters, c, n, s');
  }

  lemma BallotStep(voters: set<NodeId>, c: Cluster, e: Event)
    requires Dominance(c) && Ballots(voters, c) && Enabled(c, e)
    requires FixedElectorate(voters, c, e) && !StaleAck(c, e)
    ensures Ballots(voters, Next(c, e))
  {
    hide GrantsHonest, AcksHonest, TallyHonest, VotesFor, WinsBacked, AfterRequest, AfterAck, AfterTick;
    var s := c.nodes[e.n];
    match e
    case DeliverRequest(n, h, votedRecently, linkUp) => VoteStep(voters, c, n, h, votedRecently, linkUp);
    case DeliverAck(n, ack) => CountStep(voters, c, n, ack);
    case FailoverTick(n, t, force) => TickStep(voters, c, n, t, force);
    case SendPing(_) => SendStep(voters, c, BuildHeader(s, Ping, false));
    case SendUpdate(_, about) =>
      SendStep(voters, c, BuildHeader(s, Update(about, s.nodes[about].configEpoch, s.nodes[about].slots), false));
    case _ =>
      var t := Next(c, e).nodes[e.n];
      assert Next(c, e) == At(c, e.n, t) && SameBallot(s, t);
      QuietStep(voters, c, e.n, t);
  }

  // --------------------------------------------------------------------------
  // Runs
  // --------------------------------------------------------------------------

  /** `run` is a sequence of states, each the result of the next event on the one before. */
  predicate IsRun(run: seq<Cluster>, events: seq<Event>) {
    && |run| == |events| + 1
    && Initial(run[0])
    && forall i | 0 <= i < |events| ::
         AllWellFormed(run[i]) && Enabled(run[i], events[i]) && run[i + 1] == Next(run[i], events[i])
  }

  predicate Lawful(voters: set<NodeId>, run: seq<Cluster>, events: seq<Event>)
    requires IsRun(run, events)
  {
    forall i | 0 <= i < |events| ::
      FixedElectorate(voters, run[i], events[i]) && !StaleAck(run[i], events[i])
  }

  lemma InitialIsDominated(c: Cluster)
    requires Initial(c)
    ensures Dominance(c) && EpochsGrow(c, c)
  {
  }

  lemma GrowthChains(a: Cluster, b: Cluster, c: Cluster)
    requires EpochsGrow(a, b) && EpochsGrow(b, c)
    ensures EpochsGrow(a, c) && EpochsGrow(c, c)
  {
  }

  lemma NoBallotsYet(voters: set<NodeId>, c: Cluster)
    requires Initial(c)
    ensures Ballots(voters, c)
  {
    assert forall n | n in c.nodes :: VotesFor(c.counted, n, c.nodes[n].authEpoch) == {};
  }

  /** Epoch dominance, in every state of every run. */
  lemma {:induction false} EpochDominance(run: seq<Cluster>, events: seq<Event>, i: nat)
    requires IsRun(run, events) && i < |run|
    ensures Dominance(run[i])
    ensures forall j | 0 <= j <= i :: EpochsGrow(run[j], run[i])
  {
    hide Next, Enabled, Dominance, Initial, EpochsGrow;
    if i == 0 {
      InitialIsDominated(run[0]);
    } else {
      EpochDominance(run, events, i - 1);
      DominanceStep(run[i - 1], events[i - 1]);
      forall j | 0 <= j <= i ensures EpochsGrow(run[j], run[i]) {
        GrowthChains(run[if j < i then j else i - 1], run[i - 1], run[i]);
      }
    }
  }

  lemma {:induction false} BallotsThroughout(voters: set<NodeId>, run: seq<Cluster>, events: seq<Event>, i: nat)
    requires IsRun(run, events) && Lawful(voters, run, events) && i < |run|
    ensures Ballots(voters, run[i])
  {
    hide Next, Enabled, Dominance, Ballots, FixedElectorate, StaleAck;
    if i == 0 {
      NoBallotsYet(voters, run[0]);
    } else {
      BallotsThroughout(voters, run, events, i - 1);
      EpochDominance(run, events, i - 1);
      BallotStep(voters, run[i - 1], events[i - 1]);
    }
  }

  /** Two majorities of the electorate share a voter, and a voter grants an epoch once. */
  lemma OneWinnerPerEpoch(voters: set<NodeId>, c: Cluster, w: Win, w': Win)
    requires Ballots(voters, c) && w in c.wins && w' in c.wins && w.epoch == w'.epoch
    ensures w == w'
  {
    if w.slave != w'.slave {
      var a, b := VotesFor(c.grants, w.slave, w.epoch), VotesFor(c.grants, w'.slave, w.epoch);
      assert a <= voters && b <= voters;
      assert a !! b;
      assert |a + b| == |a| + |b|;
      SubsetCardinality(a + b, voters);
      assert false;
    }
  }

  /** Election safety: in a lawful run two different slaves never win the same epoch. */
  lemma ElectionSafety(voters: set<NodeId>, run: seq<Cluster>, events: seq<Event>, i: nat, w: Win, w': Win)
    requires IsRun(run, events) && Lawful(voters, run, events)
    requires i < |run| && w in run[i].wins && w' in run[i].wins
    ensures w.epoch == w'.epoch ==> w.slave == w'.slave
  {
    BallotsThroughout(voters, run, events, i);
    if w.epoch == w'.epoch {
      OneWinnerPerEpoch(voters, run[i], w, w');
    }
  }

  // --------------------------------------------------------------------------
  // Objections count
  // --------------------------------------------------------------------------

  /** e hands node n a request of the given slave for the given epoch. */
  predicate AskedFor(e: Event, n: NodeId, slave: NodeId, epoch: nat) {
    e.DeliverRequest? && e.n == n && e.h.sender == slave && e.h.currentEpoch == epoch
  }

  /** Whenever n received a request of the slave for the epoch, it objected. */
  ghost predicate Objected(run: seq<Cluster>, events: seq<Event>, n: NodeId, slave: NodeId, epoch: nat)
    requires IsRun(run, events)
  {
    forall i | 0 <= i < |events| && AskedFor(events[i], n, slave, epoch) :: ObjectsAt(run[i], events[i])
  }

  predicate ObjectsAt(c: Cluster, e: Event)
    requires AllWellFormed(c) && Enabled(c, e) && e.DeliverRequest?
  {
    Objects(AdoptHeader(c.nodes[e.n], e.h), e.h)
  }

  /** A step grants only in answer to a request the voter did not object to. */
  lemma GrantedNow(c: Cluster, e: Event, g: Grant)
    requires Dominance(c) && Enabled(c, e) && g in Next(c, e).grants && g !in c.grants
    ensures AskedFor(e, g.voter, g.slave, g.epoch) && !ObjectsAt(c, e)
  {
    hide Dominance, AdoptHeader, GrantsVote, WellFormed, CheckCollision, ReceiveUpdate, ReceiveAck, FailoverDecision,
         ApplyFailover, BumpConfigEpochWithoutConsensus, SetOwnConfigEpoch, SameEpochs, Objects, HasVote, Eligible;
    NodeIsDominated(c, e.n);
    InFlightIsDominated(c);
    var a := AdoptHeader(c.nodes[e.n], e.h);
    AdoptedFrame(c.nodes[e.n], e.h);
    VotesIff(a, e.h, e.votedRecently);
    EligibleEpoch(c.nodes[e.n], e.h);
    CastHeader(a);
  }

  lemma AdoptedFrame(s: State, h: Header)
    requires WellFormed(s)
    ensures WellFormed(AdoptHeader(s, h)) && AdoptHeader(s, h).myself == s.myself
  {
  }

  lemma EligibleEpoch(s: State, h: Header)
    requires Eligible(AdoptHeader(s, h), h)
    ensures AdoptHeader(s, h).currentEpoch == h.currentEpoch
  {
  }

  lemma CastHeader(a: State)
    requires WellFormed(a)
    ensures WellFormed(CastVote(a))
    ensures var h := BuildHeader(CastVote(a), AuthAck, false); h.sender == a.myself && h.currentEpoch == a.currentEpoch
  {
  }

  /** Every grant of a run answers some request that its voter did not object to. */
  lemma {:induction false} GrantsTraced(run: seq<Cluster>, events: seq<Event>, i: nat, g: Grant) returns (j: nat)
    requires IsRun(run, events) && i < |run| && g in run[i].grants
    ensures j < i <= |events| && AskedFor(events[j], g.voter, g.slave, g.epoch) && !ObjectsAt(run[j], events[j])
  {
    hide Next, Enabled, Dominance, AllWellFormed, AskedFor, ObjectsAt;
    if i == 0 {
      assert false;
    } else if g in run[i - 1].grants {
      j := GrantsTraced(run, events, i - 1, g);
    } else {
      j := i - 1;
      EpochDominance(run, events, j);
      GrantedNow(run[j], events[j], g);
    }
  }

  /**
   In a lawful run no slave wins an epoch when at least half of the voters, each time they received its
   request, knew a newer owner of a slot it claimed, or its master as not failed.
   */
  lemma ObjectorsPrevent(
    voters: set<NodeId>, run: seq<Cluster>, events: seq<Event>, i: nat, slave: NodeId, epoch: nat,
    objectors: set<NodeId>)
    requires IsRun(run, events) && Lawful(voters, run, events) && i < |run|
    requires objectors <= voters && 2 * |objectors| >= |voters|
    requires forall n | n in objectors :: Objected(run, events, n, slave, epoch)
    ensures Win(slave, epoch) !in run[i].wins
  {
    hide IsRun, Lawful, RequestsDated, AcksHonest, TalliesHonest, AskedFor, ObjectsAt;
    BallotsThroughout(voters, run, events, i);
    var votes := VotesFor(run[i].grants, slave, epoch);
    forall n | n in votes ensures n in voters && n !in objectors {
      var g :| g in run[i].grants && g.slave == slave && g.epoch == epoch && g.voter == n;
      var j := GrantsTraced(run, events, i, g);
    }
    assert votes <= voters - objectors;
    SubsetCardinality(votes, voters - objectors);
    assert |voters - objectors| == |voters| - |objectors|;
  }

  // --------------------------------------------------------------------------
  // Why stale ACKs must be excluded
  // --------------------------------------------------------------------------

  /** Delivering an ACK leaves the counters equal to the votes exactly when it is not a stale one. */
  lemma AckKeepsTalliesIffNotStale(voters: set<NodeId>, c: Cluster, e: Event)
    requires Dominance(c) && Ballots(voters, c) && Enabled(c, e) && e.DeliverAck?
    ensures TalliesHonest(Next(c, e)) <==> !StaleAck(c, e)
  {
    if StaleAck(c, e) {
      assert TallyHonest(c, e.n);
      assert !TallyHonest(Next(c, e), e.n);
    } else {
      CountStep(voters, c, e.n, e.ack);
    }
  }

  /** One master, node 1, owning slot 0; nodes 4 and 5 replicate it. */
  function SmallView(me: NodeId, epoch: nat): State {
    var replica := Peer(false, false, Some(1), 0, {}, 0);
    State(me, map[1 := Peer(true, false, None, 0, {0}, 1), 4 := replica, 5 := replica],
          seq(CLUSTER_SLOTS, j => if j == 0 then Some(1) else None),
          seq(CLUSTER_SLOTS, _ => None), seq(CLUSTER_SLOTS, _ => None),
          1, epoch, 0, 0, 0, false)
  }

  const MANUAL := Timing(true, false, false, false, false, false)

  function RequestFrom(n: NodeId, epoch: nat): Header { Header(AuthRequest, n, epoch, 0, {0}, true) }

  function AckTo(n: NodeId, epoch: nat): Ack { Ack(n, Header(AuthAck, 1, epoch, 0, {0}, false)) }

  function Replica(n: NodeId, epoch: nat, authEpoch: nat, count: nat, sent: bool): State {
    SmallView(n, epoch).(authEpoch := authEpoch, authCount := count, authSent := sent)
  }

  function Voter(epoch: nat): State { SmallView(1, epoch).(lastVoteEpoch := epoch) }

  predicate Step(c: Cluster, e: Event, c': Cluster) {
    AllWellFormed(c) && Enabled(c, e) && c' == Next(c, e) && FixedElectorate({1}, c, e)
  }

  lemma Asks(c: Cluster, n: NodeId, epoch: nat, authEpoch: nat, count: nat) returns (c': Cluster)
    requires n == 4 || n == 5
    requires AllWellFormed(c) && n in c.nodes && c.nodes[n] == Replica(n, epoch, authEpoch, count, false)
    ensures Step(c, FailoverTick(n, MANUAL, true), c') && AllWellFormed(c')
    ensures c' == At(c, n, Replica(n, epoch + 1, epoch + 1, count, true)).(
                    headers := c.headers + {RequestFrom(n, epoch + 1)})
  {
    var s' := Replica(n, epoch + 1, epoch + 1, count, true);
    assert WellFormed(s') && BuildHeader(s', AuthRequest, true) == RequestFrom(n, epoch + 1);
    assert FailoverDecision(c.nodes[n], MANUAL).RequestVotes? && ApplyFailover(c.nodes[n], RequestVotes) == s';
    hide FailoverDecision, ApplyFailover, BuildHeader, Replica, WellFormed;
    c' := AfterTick(c, n, MANUAL, true);
  }

  lemma Rearms(c: Cluster, n: NodeId, epoch: nat) returns (c': Cluster)
    requires n == 4 || n == 5
    requires AllWellFormed(c) && n in c.nodes && c.nodes[n] == Replica(n, epoch, epoch, 0, true)
    ensures Step(c, FailoverTick(n, MANUAL.(retryElapsed := true), true), c') && AllWellFormed(c')
    ensures c' == At(c, n, Replica(n, epoch, epoch, 0, false))
  {
    c' := AfterTick(c, n, MANUAL.(retryElapsed := true), true);
  }

  lemma Wins(c: Cluster, n: NodeId, epoch: nat) returns (c': Cluster)
    requires n == 4 || n == 5
    requires AllWellFormed(c) && n in c.nodes && c.nodes[n] == Replica(n, epoch, epoch, 1, true)
    ensures Step(c, FailoverTick(n, MANUAL, true), c') && AllWellFormed(c')
    ensures c' == At(c, n, c'.nodes[n]).(wins := c.wins + {Win(n, epoch)})
  {
    c' := AfterTick(c, n, MANUAL, true);
  }

  lemma Grants(c: Cluster, n: NodeId, epoch: nat) returns (c': Cluster)
    requires n == 4 || n == 5
    requires AllWellFormed(c) && 1 in c.nodes && c.nodes[1] == Voter(epoch) && RequestFrom(n, epoch + 1) in c.headers
    ensures Step(c, DeliverRequest(1, RequestFrom(n, epoch + 1), false, true), c') && AllWellFormed(c')
    ensures c' == At(c, 1, Voter(epoch + 1)).(acks := c.acks + multiset{AckTo(n, epoch + 1)}, grants := c'.grants)
  {
    var s := Voter(epoch);
    assert s.nodes[n := s.nodes[n].(configEpoch := 0)] == s.nodes;
    c' := AfterRequest(c, 1, RequestFrom(n, epoch + 1), false, true);
  }

  lemma Counts(c: Cluster, n: NodeId, epoch: nat, sent: bool) returns (c': Cluster)
    requires n == 4 || n == 5
    requires AllWellFormed(c) && n in c.nodes && c.nodes[n] == Replica(n, epoch, epoch, 0, sent)
    requires AckTo(n, epoch) in c.acks
    ensures Step(c, DeliverAck(n, AckTo(n, epoch)), c') && AllWellFormed(c')
    ensures c' == At(c, n, Replica(n, epoch, epoch, 1, sent)).(acks := c'.acks, counted := c'.counted)
  {
    var s := c.nodes[n];
    assert s.nodes[1 := s.nodes[1].(configEpoch := 0)] == s.nodes;
    c' := AfterAck(c, n, AckTo(n, epoch));
  }

  predicate Reaches(run: seq<Cluster>, events: seq<Event>, c: Cluster) {
    IsRun(run, events) && run[|events|] == c && forall i | 0 <= i < |events| :: FixedElectorate({1}, run[i], events[i])
  }

  lemma Extend(run: seq<Cluster>, events: seq<Event>, c: Cluster, e: Event, c': Cluster)
    requires Reaches(run, events, c) && Step(c, e, c')
    ensures Reaches(run + [c'], events + [e], c')
  {
    hide Next, Enabled, FixedElectorate, AllWellFormed, Initial;
  }

  /** Slave 4 stands for epoch 1, is granted it, re-arms, counts the late ACK, stands for epoch 2 and wins. */
  lemma Slave4Wins(c0: Cluster, run0: seq<Cluster>, events0: seq<Event>)
    returns (run: seq<Cluster>, events: seq<Event>, c: Cluster)
    requires Reaches(run0, events0, c0) && AllWellFormed(c0) && c0.nodes.Keys == {1, 4, 5}
    requires c0.nodes[1] == Voter(0) && c0.nodes[4] == Replica(4, 0, 0, 0, false)
    ensures Reaches(run, events, c) && AllWellFormed(c)
    ensures c.nodes.Keys == {1, 4, 5} && c.nodes[1] == Voter(1) && c.nodes[5] == c0.nodes[5] && Win(4, 2) in c.wins
  {
    hide WellFormed, Replica, Voter, Reaches, Step;
    var c1 := Asks(c0, 4, 0, 0, 0);
    Extend(run0, events0, c0, FailoverTick(4, MANUAL, true), c1);
    run, events := run0 + [c1], events0 + [FailoverTick(4, MANUAL, true)];
    var c2 := Grants(c1, 4, 0);
    Extend(run, events, c1, DeliverRequest(1, RequestFrom(4, 1), false, true), c2);
    run, events := run + [c2], events + [DeliverRequest(1, RequestFrom(4, 1), false, true)];
    var c3 := Rearms(c2, 4, 1);
    Extend(run, events, c2, FailoverTick(4, MANUAL.(retryElapsed := true), true), c3);
    run, events := run + [c3], events + [FailoverTick(4, MANUAL.(retryElapsed := true), true)];
    var c4 := Counts(c3, 4, 1, false);
    Extend(run, events, c3, DeliverAck(4, AckTo(4, 1)), c4);
    run, events := run + [c4], events + [DeliverAck(4, AckTo(4, 1))];
    var c5 := Asks(c4, 4, 1, 1, 1);
    Extend(run, events, c4, FailoverTick(4, MANUAL, true), c5);
    run, events := run + [c5], events + [FailoverTick(4, MANUAL, true)];
    c := Wins(c5, 4, 2);
    Extend(run, events, c5, FailoverTick(4, MANUAL, true), c);
    run, events := run + [c], events + [FailoverTick(4, MANUAL, true)];
  }

  /** Slave 5 stands for epoch 2, is granted it and wins. */
  lemma Slave5Wins(c0: Cluster, run0: seq<Cluster>, events0: seq<Event>)
    returns (run: seq<Cluster>, events: seq<Event>, c: Cluster)
    requires Reaches(run0, events0, c0) && AllWellFormed(c0) && c0.nodes.Keys == {1, 4, 5}
    requires c0.nodes[1] == Voter(1) && c0.nodes[5] == Replica(5, 1, 0, 0, false)
    ensures Reaches(run, events, c) && c0.wins + {Win(5, 2)} == c.wins
  {
    hide WellFormed, Replica, Voter, Reaches, Step;
    var c1 := Asks(c0, 5, 1, 0, 0);
    Extend(run0, events0, c0, FailoverTick(5, MANUAL, true), c1);
    run, events := run0 + [c1], events0 + [FailoverTick(5, MANUAL, true)];
    var c2 := Grants(c1, 5, 1);
    Extend(run, events, c1, DeliverRequest(1, RequestFrom(5, 2), false, true), c2);
    run, events := run + [c2], events + [DeliverRequest(1, RequestFrom(5, 2), false, true)];
    var c3 := Counts(c2, 5, 2, true);
    Extend(run, events, c2, DeliverAck(5, AckTo(5, 2)), c3);
    run, events := run + [c3], events + [DeliverAck(5, AckTo(5, 2))];
    c := Wins(c3, 5, 2);
    Extend(run, events, c3, FailoverTick(5, MANUAL, true), c);
    run, events := run + [c], events + [FailoverTick(5, MANUAL, true)];
  }

  /**
   Without the stale-ACK hypothesis two slaves can win the same epoch: slave 4 counts an ACK
   for epoch 1 towards its election for epoch 2, which node 1 grants to slave 5.
   */
  lemma StaleAckElectsTwo() returns (run: seq<Cluster>, events: seq<Event>)
    ensures IsRun(run, events)
    ensures forall i | 0 <= i < |events| :: FixedElectorate({1}, run[i], events[i])
    ensures {Win(4, 2), Win(5, 2)} <= run[|events|].wins
  {
    var c0 := Cluster(map[1 := Voter(0), 4 := Replica(4, 0, 0, 0, false), 5 := Replica(5, 1, 0, 0, false)],
                      {}, multiset{}, {}, {}, {});
    assert Initial(c0);
    hide WellFormed, Replica, Voter;
    var c4, c5;
    run, events, c4 := Slave4Wins(c0, [c0], []);
    run, events, c5 := Slave5Wins(c4, run, events);
  }
}
