/**
 The state one cluster node keeps about the cluster, and the epoch and voting
 rules it applies to that state, as functions of the state before.

 Node names are compared with memcmp, which is a total order on names; a `NodeId`
 is the name's position in that order.  Epochs are unbounded here.
 */
module ClusterModel {
  import opened Common

  const CLUSTER_SLOTS: nat := 16384

  type NodeId = nat

  /** What a node knows about a node of the cluster, itself included. */
  datatype Peer = Peer(
    master: bool,
    failed: bool,
    slaveof: Option<NodeId>,
    configEpoch: nat,
    slots: set<nat>,
    numslots: int)

  /** One node's copy of the cluster state, with the state of its own election. */
  datatype State = State(
    myself: NodeId,
    nodes: map<NodeId, Peer>,
    slots: seq<Option<NodeId>>,
    importing: seq<Option<NodeId>>,
    migrating: seq<Option<NodeId>>,
    size: nat,
    currentEpoch: nat,
    lastVoteEpoch: nat,
    authEpoch: nat,
    authCount: nat,
    authSent: bool)

  /** The parts of a message the epoch and slot rules read. */
  datatype Header = Header(
    kind: Kind,
    sender: NodeId,
    currentEpoch: nat,
    configEpoch: nat,
    myslots: set<nat>,
    forceAck: bool)

  datatype Kind =
    | Ping
    | AuthRequest
    | AuthAck
    | Update(about: NodeId, aboutEpoch: nat, aboutSlots: set<nat>)

  predicate WellFormed(s: State) {
    && s.myself in s.nodes
    && |s.slots| == |s.importing| == |s.migrating| == CLUSTER_SLOTS
    && (forall j | 0 <= j < CLUSTER_SLOTS :: s.slots[j].Some? ==> s.slots[j].value in s.nodes)
    && (forall k {:trigger s.nodes[k].slaveof} | k in s.nodes ::
          s.nodes[k].slaveof.Some? ==> s.nodes[k].slaveof.value in s.nodes)
  }

  function Max(a: nat, b: nat): nat {
    if a < b then b else a
  }

  function SetConfigEpoch(s: State, k: NodeId, epoch: nat): State
    requires k in s.nodes
  {
    s.(nodes := s.nodes[k := s.nodes[k].(configEpoch := epoch)])
  }

  // --------------------------------------------------------------------------
  // Sending
  // --------------------------------------------------------------------------

  /** A slave that knows its master speaks with its master's slots and epoch. */
  function Speaker(s: State): (k: NodeId)
    requires WellFormed(s)
    ensures k in s.nodes
  {
    var me := s.nodes[s.myself];
    if !me.master && me.slaveof.Some? then me.slaveof.value else s.myself
  }

  function BuildHeader(s: State, kind: Kind, forceAck: bool): Header
    requires WellFormed(s)
  {
    var m := s.nodes[Speaker(s)];
    Header(kind, s.myself, s.currentEpoch, m.configEpoch, m.slots, forceAck)
  }

  /** A slave's header carries its own name with its master's epoch and slots; a master's carries its own. */
  lemma SpeaksFor(s: State, kind: Kind, forceAck: bool)
    requires WellFormed(s)
    ensures var h, me := BuildHeader(s, kind, forceAck), s.nodes[s.myself];
            && h.sender == s.myself && h.currentEpoch == s.currentEpoch && h.kind == kind && h.forceAck == forceAck
            && var speaker := if !me.master && me.slaveof.Some? then s.nodes[me.slaveof.value] else me;
               h.configEpoch == speaker.configEpoch && h.myslots == speaker.slots
  {
  }

  // --------------------------------------------------------------------------
  // Receiving
  // --------------------------------------------------------------------------

  /** What every packet from a known sender does before its kind is looked at. */
  function AdoptHeader(s: State, h: Header): State {
    if h.sender !in s.nodes then s
    else
      var known := s.nodes[h.sender].configEpoch;
      SetConfigEpoch(s.(currentEpoch := Max(s.currentEpoch, h.currentEpoch)),
                     h.sender, Max(known, h.configEpoch))
  }

  predicate Collides(s: State, sender: NodeId)
    requires s.myself in s.nodes && sender in s.nodes
  {
    && s.nodes[sender].configEpoch == s.nodes[s.myself].configEpoch
    && s.nodes[sender].master && s.nodes[s.myself].master
    && sender > s.myself
  }

  function HandleConfigEpochCollision(s: State, sender: NodeId): State
    requires s.myself in s.nodes && sender in s.nodes
  {
    if !Collides(s, sender) then s
    else SetConfigEpoch(s.(currentEpoch := s.currentEpoch + 1), s.myself, s.currentEpoch + 1)
  }

  /**
   Two masters with one epoch: the one with the smaller name moves to the next free epoch, above
   all it knows, and nothing else happens; in every other case nothing happens at all.
   */
  lemma CollisionResolves(s: State, sender: NodeId)
    requires s.myself in s.nodes && sender in s.nodes
    ensures var r, me, other := HandleConfigEpochCollision(s, sender), s.nodes[s.myself], s.nodes[sender];
            if me.master && other.master && me.configEpoch == other.configEpoch && s.myself < sender
            then && s.myself in r.nodes && r.nodes[s.myself].configEpoch == s.currentEpoch + 1
                 && r == s.(currentEpoch := s.currentEpoch + 1, nodes := r.nodes)
                 && (forall k | k in s.nodes && k != s.myself :: k in r.nodes && r.nodes[k] == s.nodes[k])
                 && ((forall k | k in s.nodes :: s.nodes[k].configEpoch <= s.currentEpoch) ==>
                       forall k | k in s.nodes && k != s.myself ::
                         r.nodes[k].configEpoch < r.nodes[s.myself].configEpoch)
            else r == s
  {
  }

  /** The collision check at the end of PING, PONG and MEET processing. */
  function CheckCollision(s: State, h: Header): State
    requires s.myself in s.nodes
  {
    if h.sender !in s.nodes || h.configEpoch != s.nodes[s.myself].configEpoch then s
    else HandleConfigEpochCollision(s, h.sender)
  }

  /** The owner of every claimed slot is known at no greater epoch than the claim. */
  predicate ClaimIsRecent(s: State, h: Header)
    requires WellFormed(s)
  {
    forall j | 0 <= j < CLUSTER_SLOTS && j in h.myslots ::
      s.slots[j].Some? ==> s.nodes[s.slots[j].value].configEpoch <= h.configEpoch
  }

  /** Whether a vote request is granted, once its header has been adopted. */
  predicate GrantsVote(s: State, h: Header, votedRecently: bool)
    requires WellFormed(s)
  {
    && h.sender in s.nodes
    && s.nodes[s.myself].master && s.nodes[s.myself].numslots != 0
    && h.currentEpoch >= s.currentEpoch
    && s.lastVoteEpoch != s.currentEpoch
    && !s.nodes[h.sender].master
    && s.nodes[h.sender].slaveof.Some?
    && (s.nodes[s.nodes[h.sender].slaveof.value].failed || h.forceAck)
    && !votedRecently
    && ClaimIsRecent(s, h)
  }

  /** The owner of a claimed slot is known at a greater epoch than the claim. */
  predicate KnowsNewer(s: State, h: Header)
    requires WellFormed(s)
  {
    exists j: nat :: j < CLUSTER_SLOTS && j in h.myslots && NewerOwner(s, h.configEpoch, j)
  }

  predicate NewerOwner(s: State, epoch: nat, j: nat)
    requires WellFormed(s) && j < CLUSTER_SLOTS
  {
    s.slots[j].Some? && s.nodes[s.slots[j].value].configEpoch > epoch
  }

  /** The master the asking slave wants to replace is not known to have failed, and no force is asked for. */
  predicate KnowsMasterUp(s: State, h: Header)
    requires WellFormed(s)
  {
    && h.sender in s.nodes && s.nodes[h.sender].slaveof.Some?
    && !s.nodes[s.nodes[h.sender].slaveof.value].failed && !h.forceAck
  }

  predicate Objects(s: State, h: Header)
    requires WellFormed(s)
  {
    KnowsNewer(s, h) || KnowsMasterUp(s, h)
  }

  /** A master serving slots that has not voted in its current epoch. */
  predicate HasVote(s: State)
    requires WellFormed(s)
  {
    s.nodes[s.myself].master && s.nodes[s.myself].numslots != 0 && s.lastVoteEpoch != s.currentEpoch
  }

  /** The request is of the current epoch, and of a slave whose master is known. */
  predicate Eligible(s: State, h: Header) {
    && h.currentEpoch >= s.currentEpoch
    && h.sender in s.nodes && !s.nodes[h.sender].master && s.nodes[h.sender].slaveof.Some?
  }

  /** A vote is given for an eligible request, by a node that has one, if and only if the node does not object. */
  lemma VotesIff(s: State, h: Header, votedRecently: bool)
    requires WellFormed(s)
    ensures GrantsVote(s, h, votedRecently) <==> HasVote(s) && Eligible(s, h) && !votedRecently && !Objects(s, h)
  {
    assert ClaimIsRecent(s, h) <==> !KnowsNewer(s, h) by {
      if !ClaimIsRecent(s, h) {
        var j :| 0 <= j < CLUSTER_SLOTS && j in h.myslots && s.slots[j].Some?
                 && s.nodes[s.slots[j].value].configEpoch > h.configEpoch;
        assert NewerOwner(s, h.configEpoch, j);
      }
    }
    hide KnowsNewer, ClaimIsRecent;
  }

  function CastVote(s: State): State {
    s.(lastVoteEpoch := s.currentEpoch)
  }

  /** Whether an ACK is counted, once its header has been adopted. */
  predicate CountsAck(s: State, h: Header) {
    && h.sender in s.nodes
    && s.nodes[h.sender].master && s.nodes[h.sender].numslots > 0
    && h.currentEpoch >= s.authEpoch
  }

  function ReceiveAck(s: State, h: Header): State {
    var a := AdoptHeader(s, h);
    if CountsAck(a, h) then a.(authCount := a.authCount + 1) else a
  }

  /** UPDATE reports a newer epoch for a third node; the slots follow separately. */
  function ReceiveUpdate(s: State, h: Header): State
    requires h.kind.Update?
  {
    var a := AdoptHeader(s, h);
    if h.sender !in s.nodes || h.kind.about !in a.nodes
       || a.nodes[h.kind.about].configEpoch >= h.kind.aboutEpoch
    then a
    else
      var n := a.nodes[h.kind.about];
      a.(nodes := a.nodes[h.kind.about :=
        n.(configEpoch := h.kind.aboutEpoch, master := true, slaveof := if n.master then n.slaveof else None)])
  }

  /** After an UPDATE a known node is known at the reported epoch or a later one, and as a master if it was news. */
  lemma UpdateIsBelieved(s: State, h: Header)
    requires h.kind.Update? && h.sender in s.nodes && h.kind.about in s.nodes
    ensures var a, r := AdoptHeader(s, h), ReceiveUpdate(s, h);
            && h.kind.about in a.nodes && h.kind.about in r.nodes
            && r.nodes[h.kind.about].configEpoch == Max(a.nodes[h.kind.about].configEpoch, h.kind.aboutEpoch)
            && (if a.nodes[h.kind.about].configEpoch < h.kind.aboutEpoch
                then && r.nodes[h.kind.about].master
                     && (!a.nodes[h.kind.about].master ==> r.nodes[h.kind.about].slaveof.None?)
                else r == a)
            && forall k | k in a.nodes && k != h.kind.about :: k in r.nodes && r.nodes[k] == a.nodes[k]
  {
  }

  // --------------------------------------------------------------------------
  // Local steps
  // --------------------------------------------------------------------------

  /** m is clusterGetMaxEpoch's answer: the greatest of the epochs in sight. */
  predicate IsMaxEpoch(s: State, m: nat) {
    && s.currentEpoch <= m
    && (forall k | k in s.nodes :: s.nodes[k].configEpoch <= m)
    && (m == s.currentEpoch || exists k :: k in s.nodes && s.nodes[k].configEpoch == m)
  }

  /** The node's own epoch is zero or something in sight exceeds it. */
  predicate ShouldBump(s: State)
    requires s.myself in s.nodes
  {
    var mine := s.nodes[s.myself].configEpoch;
    mine == 0 || mine < s.currentEpoch || exists k :: k in s.nodes && mine < s.nodes[k].configEpoch
  }

  function BumpConfigEpochWithoutConsensus(s: State): State
    requires s.myself in s.nodes
  {
    if ShouldBump(s)
    then SetConfigEpoch(s.(currentEpoch := s.currentEpoch + 1), s.myself, s.currentEpoch + 1)
    else s
  }

  /** CLUSTER SET-CONFIG-EPOCH, accepted only by a node that knows nobody else. */
  function SetOwnConfigEpoch(s: State, epoch: nat): State
    requires s.myself in s.nodes
  {
    if |s.nodes| > 1 || s.nodes[s.myself].configEpoch != 0 then s
    else SetConfigEpoch(s.(currentEpoch := Max(s.currentEpoch, epoch)), s.myself, epoch)
  }

  /** Accepted, it is this node's epoch from then on, and its current epoch is no lower; refused, nothing happens. */
  lemma SetEpochTakes(s: State, epoch: nat)
    requires s.myself in s.nodes
    ensures var r := SetOwnConfigEpoch(s, epoch);
            if |s.nodes| == 1 && s.nodes[s.myself].configEpoch == 0
            then && s.myself in r.nodes && r.nodes[s.myself].configEpoch == epoch
                 && r.currentEpoch == Max(s.currentEpoch, epoch)
            else r == s
  {
    assert |s.nodes| >= 1;
  }

  /** The clock comparisons clusterHandleSlaveFailover makes. */
  datatype Timing = Timing(
    manual: bool,
    noFailover: bool,
    dataTooOld: bool,
    retryElapsed: bool,
    tooEarly: bool,
    expired: bool)

  datatype FailoverAction = Idle | Rearm | RequestVotes | WaitForVotes | TakeOver

  predicate MayFailover(s: State, t: Timing)
    requires WellFormed(s)
  {
    var me := s.nodes[s.myself];
    && !me.master && me.slaveof.Some?
    && (s.nodes[me.slaveof.value].failed || t.manual)
    && (!t.noFailover || t.manual)
    && s.nodes[me.slaveof.value].numslots != 0
    && (!t.dataTooOld || t.manual)
  }

  function FailoverDecision(s: State, t: Timing): FailoverAction
    requires WellFormed(s)
  {
    if !MayFailover(s, t) then Idle
    else if t.retryElapsed then Rearm
    else if t.tooEarly || t.expired then Idle
    else if !s.authSent then RequestVotes
    else if s.authCount >= s.size / 2 + 1 then TakeOver
    else WaitForVotes
  }

  /** The epoch and election part of clusterHandleSlaveFailover. */
  function ApplyFailover(s: State, a: FailoverAction): State
    requires s.myself in s.nodes
  {
    match a
    case Rearm => s.(authCount := 0, authSent := false)
    case RequestVotes =>
      s.(currentEpoch := s.currentEpoch + 1, authEpoch := s.currentEpoch + 1, authSent := true)
    case TakeOver =>
      SetConfigEpoch(s, s.myself, Max(s.nodes[s.myself].configEpoch, s.authEpoch))
    case _ => s
  }
}
