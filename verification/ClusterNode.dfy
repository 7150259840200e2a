/** server.cluster of one node, and the handlers that update it in place. */
module ClusterNode {
  import opened Common
  import opened ClusterModel
  import opened SlotModel
  import opened Election

  class ClusterState {
    const myself: NodeId
    var nodes: map<NodeId, Peer>
    var slots: seq<Option<NodeId>>
    var importing: seq<Option<NodeId>>
    var migrating: seq<Option<NodeId>>
    var size: nat
    var currentEpoch: nat
    var lastVoteEpoch: nat
    var authEpoch: nat
    var authCount: nat
    var authSent: bool

    function Snapshot(): State
      reads this
    {
      State(myself, nodes, slots, importing, migrating, size,
            currentEpoch, lastVoteEpoch, authEpoch, authCount, authSent)
    }

    /** The slot table agrees with the bitmaps: what every operation below keeps. */
    predicate Valid()
      reads this
    {
      Coherent(Snapshot())
    }

    // ------------------------------------------------------------------------
    // Slot table
    // ------------------------------------------------------------------------

    /** Returns the old value of the bit. */
    method NodeSetSlotBit(n: NodeId, slot: nat) returns (was: bool)
      requires n in nodes
      modifies this`nodes
      ensures was == (slot in old(nodes)[n].slots)
      ensures nodes == old(nodes)[n := SetBit(old(nodes)[n], slot)]
    {
      was := slot in nodes[n].slots;
      nodes := nodes[n := nodes[n].(slots := nodes[n].slots + {slot})];
      if !was {
        nodes := nodes[n := nodes[n].(numslots := nodes[n].numslots + 1)];
      }
    }

    method NodeClearSlotBit(n: NodeId, slot: nat) returns (was: bool)
      requires n in nodes
      modifies this`nodes
      ensures was == (slot in old(nodes)[n].slots)
      ensures nodes == old(nodes)[n := ClearBit(old(nodes)[n], slot)]
    {
      was := slot in nodes[n].slots;
      nodes := nodes[n := nodes[n].(slots := nodes[n].slots - {slot})];
      if was {
        nodes := nodes[n := nodes[n].(numslots := nodes[n].numslots - 1)];
      }
    }

    /** Fails, changing nothing, if the slot already has an owner. */
    method AddSlot(n: NodeId, slot: nat) returns (ok: bool)
      requires Valid() && n in nodes && slot < CLUSTER_SLOTS
      modifies this`nodes, this`slots
      ensures Valid()
      ensures ok <==> old(slots)[slot].None?
      ensures Snapshot() == if ok then Rebind(old(Snapshot()), old(slots)[slot := Some(n)]) else old(Snapshot())
    {
      if slots[slot].Some? {
        return false;
      }
      BindSlot(Snapshot(), n, slot);
      hide Coherent, Rebind;
      var _ := NodeSetSlotBit(n, slot);
      slots := slots[slot := Some(n)];
      ok := true;
    }

    /** Fails, changing nothing, if the slot has no owner.  The owner's bit is always found set. */
    method DelSlot(slot: nat) returns (ok: bool)
      requires Valid() && slot < CLUSTER_SLOTS
      modifies this`nodes, this`slots
      ensures Valid()
      ensures ok <==> old(slots)[slot].Some?
      ensures Snapshot() == if ok then Rebind(old(Snapshot()), old(slots)[slot := None]) else old(Snapshot())
    {
      if slots[slot].None? {
        return false;
      }
      UnbindSlot(Snapshot(), slot);
      hide Coherent, Rebind;
      var was := NodeClearSlotBit(slots[slot].value, slot);
      assert was;
      slots := slots[slot := None];
      ok := true;
    }

    /** Rebinds one slot, as the callers of clusterDelSlot and clusterAddSlot do. */
    method MoveSlot(slot: nat, n: NodeId)
      requires Valid() && n in nodes && slot < CLUSTER_SLOTS
      modifies this`nodes, this`slots
      ensures Valid()
      ensures Snapshot() == Rebind(old(Snapshot()), old(slots)[slot := Some(n)])
    {
      ghost var s := Snapshot();
      RebindTwice(s, s.slots[slot := None], s.slots[slot := Some(n)]);
      hide Coherent, OwnedBy;
      assert Coherent(s);
      var _ := DelSlot(slot);
      assert slots[slot := Some(n)] == s.slots[slot := Some(n)];
      var _ := AddSlot(n, slot);
    }

    /** Returns how many slots n had. */
    method DelNodeSlots(n: NodeId) returns (deleted: int)
      requires Valid() && n in nodes
      modifies this`nodes, this`slots
      ensures Valid()
      ensures Snapshot() == Rebind(old(Snapshot()), Without(old(slots), n)) && Cleared(old(slots), n, slots)
      ensures deleted == old(nodes)[n].numslots && nodes[n].numslots == 0
    {
      hide WithBitmaps, OwnedBy, Partly;
      ghost var s, target := Snapshot(), Without(slots, n);
      CoherentIsFixed(s);
      ScanStarts(s.slots, target);
      deleted := 0;
      for j := 0 to CLUSTER_SLOTS
        invariant Valid() && n in nodes && Snapshot() == Rebind(s, slots)
        invariant Partly(s.slots, target, j, slots)
        invariant deleted == s.nodes[n].numslots - nodes[n].numslots
      {
        hide WithBitmaps, OwnedBy, Partly;
        Advance(s, target, j, slots);
        BitIsOwner(Snapshot(), j, n);
        if j in nodes[n].slots {
          UnbindSlot(Snapshot(), j);
          var _ := DelSlot(j);
          deleted := deleted + 1;
        }
      }
      hide WithBitmaps, OwnedBy, Partly;
      ScanDone(s.slots, target, slots);
      HandedOver(s, n, None);
    }

    method UnassignSlot(n: NodeId, j: nat)
      requires Valid() && j < CLUSTER_SLOTS
      modifies this`nodes, this`slots, this`importing, this`migrating
      ensures Valid()
      ensures importing == if old(importing)[j] == Some(n) then old(importing)[j := None] else old(importing)
      ensures migrating == if old(migrating)[j] == Some(n) then old(migrating)[j := None] else old(migrating)
      ensures if old(slots)[j] == Some(n) then slots == old(slots)[j := None] && nodes == WithBitmaps(old(nodes), slots)
              else slots == old(slots) && nodes == old(nodes)
    {
      if importing[j] == Some(n) {
        importing := importing[j := None];
      }
      if migrating[j] == Some(n) {
        migrating := migrating[j := None];
      }
      hide OwnedBy, WithBitmaps;
      if slots[j] == Some(n) {
        var _ := DelSlot(j);
      }
    }

    /** The scan of clusterDelNode: nothing refers to n any more, except replicas. */
    method UnassignNode(n: NodeId)
      requires Valid()
      modifies this`nodes, this`slots, this`importing, this`migrating
      ensures Valid()
      ensures slots == Without(old(slots), n) && nodes == WithBitmaps(old(nodes), slots)
      ensures importing == Without(old(importing), n) && migrating == Without(old(migrating), n)
    {
      ghost var s := Snapshot();
      CoherentIsFixed(s);
      for j := 0 to CLUSTER_SLOTS
        invariant Valid() && nodes == WithBitmaps(s.nodes, slots)
        invariant Partly(s.slots, Without(s.slots, n), j, slots)
        invariant Partly(s.importing, Without(s.importing, n), j, importing)
        invariant Partly(s.migrating, Without(s.migrating, n), j, migrating)
      {
        Advance(s, Without(s.slots, n), j, slots);
        ScanOne(s.importing, Without(s.importing, n), j, importing);
        ScanOne(s.migrating, Without(s.migrating, n), j, migrating);
        hide WithBitmaps, OwnedBy, Partly;
        UnassignSlot(n, j);
      }
      ScanDone(s.slots, Without(s.slots, n), slots);
      ScanDone(s.importing, Without(s.importing, n), importing);
      ScanDone(s.migrating, Without(s.migrating, n), migrating);
    }

    /** Forgets node n altogether. */
    method DelNode(n: NodeId)
      requires Valid() && n in nodes && n != myself
      modifies this`nodes, this`slots, this`importing, this`migrating
      ensures Valid()
      ensures Snapshot() == RemoveNode(old(Snapshot()), n) && Forgot(old(Snapshot()), n, Snapshot())
    {
      RemovedNode(Snapshot(), n);
      RemovalKeepsCoherence(Snapshot(), n);
      hide Coherent, WithBitmaps, OwnedBy, Without, Freed;
      UnassignNode(n);
      FreeNode(n);
    }

    method FreeNode(n: NodeId)
      modifies this`nodes
      ensures nodes == Freed(old(nodes), n)
    {
      nodes := map k | k in nodes ::
                 nodes[k].(slaveof := if nodes[k].slaveof == Some(n) then None else nodes[k].slaveof);
      nodes := nodes - {n};
    }

    /**
     Rebinds the slots a node claims.  `hasKeys` are the slots this node holds keys in;
     `purge` are the slots whose keys must now be deleted, because this node lost them and
     did not become a replica of the new owner.  `dies` says that the null pointer is read.
     */
    method UpdateSlots(sender: NodeId, epoch: nat, claimed: set<nat>, redirect: bool, hasKeys: set<nat>)
      returns (purge: set<nat>, dies: bool)
      requires Valid() && RoleOk(Snapshot()) && sender in nodes
      modifies this`nodes, this`slots, this`importing, this`migrating
      ensures Valid() && RoleOk(Snapshot())
      ensures Snapshot() == UpdateSlotsConfigWith(old(Snapshot()), sender, epoch, claimed, redirect)
      ensures sender != myself ==> Claimed(old(Snapshot()), sender, epoch, claimed, Snapshot())
      ensures sender != myself ==> Follows(old(Snapshot()), sender, redirect, Snapshot())
      ensures sender == myself ==> unchanged(this) && purge == {} && !dies
      ensures dies <==> ReadsNull(old(Snapshot()), sender, claimed, redirect)
      ensures purge == if sender == myself || !redirect || dies || Stripped(old(Snapshot()), Snapshot()) then {}
                       else LostWithKeys(old(Snapshot()), sender, hasKeys, Snapshot())
    {
      hide Coherent, MergedSlots, LosesBefore, OwnedBy, Claimed, Follows, Stripped, LostWithKeys;
      if sender == myself {
        return {}, false;
      }
      ghost var s := Snapshot();
      MyselfIsKnown(s);
      var curmaster := if nodes[myself].master then Some(myself) else nodes[myself].slaveof;
      UpdateKeepsCoherence(s, sender, epoch, claimed, redirect);
      UpdateMeans(s, sender, epoch, claimed, redirect);
      DirtyMeans(s, sender, epoch, claimed, redirect, hasKeys);
      NullLosesIff(s, sender, epoch, claimed);
      var dirty, newmaster := RebindClaimed(sender, epoch, claimed, hasKeys, curmaster);
      if !redirect {
        return {}, false;
      }
      if newmaster && curmaster.None? {
        return {}, true;
      }
      dies := false;
      if newmaster && nodes[curmaster.value].numslots == 0 {
        BecomeReplicaOf(sender);
        purge := {};
      } else {
        purge := dirty;
      }
    }

    method RebindIfNewer(sender: NodeId, epoch: nat, claimed: set<nat>, j: nat) returns (taken: bool)
      requires Valid() && sender in nodes && j < CLUSTER_SLOTS
      modifies this`nodes, this`slots
      ensures Valid() && sender in nodes
      ensures taken == Takes(old(Snapshot()), sender, epoch, claimed, j)
      ensures if taken then slots == old(slots)[j := Some(sender)] && nodes == WithBitmaps(old(nodes), slots)
              else slots == old(slots) && nodes == old(nodes)
    {
      taken := false;
      if j in claimed && slots[j] != Some(sender) && importing[j].None?
         && (slots[j].None? || nodes[slots[j].value].configEpoch < epoch)
      {
        MoveSlot(j, sender);
        taken := true;
      }
    }

    /** The scan of clusterUpdateSlotsConfigWith. */
    method RebindClaimed(sender: NodeId, epoch: nat, claimed: set<nat>, hasKeys: set<nat>, curmaster: Option<NodeId>)
      returns (dirty: set<nat>, newmaster: bool)
      requires Valid() && sender in nodes
      modifies this`nodes, this`slots
      ensures Valid() && Snapshot() == Rebind(old(Snapshot()), MergedSlots(old(Snapshot()), sender, epoch, claimed))
      ensures dirty == DirtySlots(old(Snapshot()), sender, epoch, claimed, hasKeys)
      ensures newmaster <==> LosesBefore(old(Snapshot()), curmaster, sender, epoch, claimed, CLUSTER_SLOTS)
    {
      hide WithBitmaps, OwnedBy, Partly, Takes, LosesBefore, DirtyBefore, MergedSlots;
      ghost var s, target := Snapshot(), MergedSlots(Snapshot(), sender, epoch, claimed);
      CoherentIsFixed(s);
      ScanStarts(s.slots, target);
      NoLossesYet(s, sender, epoch, claimed, hasKeys, curmaster);
      dirty, newmaster := {}, false;
      for j := 0 to CLUSTER_SLOTS
        invariant Valid() && nodes == WithBitmaps(s.nodes, slots) && sender in nodes
        invariant Partly(s.slots, target, j, slots)
        invariant newmaster <==> LosesBefore(s, curmaster, sender, epoch, claimed, j)
        invariant dirty == DirtyBefore(s, sender, epoch, claimed, hasKeys, j)
      {
        hide WithBitmaps, OwnedBy, Partly, Takes, LosesBefore, DirtyBefore, MergedSlots;
        Advance(s, target, j, slots);
        if slots[j].Some? {
          BitmapsKeepEpoch(s.nodes, slots, slots[j].value);
        }
        TakesAtScan(s, Snapshot(), sender, epoch, claimed, j);
        LossesAtScan(s, sender, epoch, claimed, hasKeys, curmaster, j);
        var owner := slots[j];
        var taken := RebindIfNewer(sender, epoch, claimed, j);
        dirty := dirty + if taken && owner == Some(myself) && j in hasKeys then {j} else {};
        newmaster := newmaster || (taken && owner == curmaster);
      }
      hide WithBitmaps, OwnedBy, Partly, Takes, LosesBefore, DirtyBefore, MergedSlots;
      ScanDone(s.slots, target, slots);
    }

    /** clusterSetMaster. */
    method BecomeReplicaOf(n: NodeId)
      requires myself in nodes && n != myself && nodes[myself].numslots == 0
      modifies this`nodes, this`importing, this`migrating
      ensures Snapshot() == SetMaster(old(Snapshot()), n)
      ensures !nodes[myself].master && nodes[myself].slaveof == Some(n)
    {
      if nodes[myself].master {
        nodes := nodes[myself := nodes[myself].(master := false)];
        importing, migrating := NoSlots(), NoSlots();
      }
      nodes := nodes[myself := nodes[myself].(slaveof := Some(n))];
    }

    /** A slave takes over from its master. */
    method FailoverReplaceYourMaster()
      requires Valid()
      modifies this`nodes, this`slots
      ensures Valid()
      ensures Snapshot() == ReplaceMaster(old(Snapshot()))
      ensures var me := old(nodes)[myself];
              if me.master || me.slaveof.None? then Snapshot() == old(Snapshot())
              else if me.slaveof.value != myself then TookOver(old(Snapshot()), me.slaveof.value, Snapshot())
              else slots == old(slots) && nodes == old(nodes)[myself := me.(master := true, slaveof := None)]
    {
      if nodes[myself].slaveof.Some? && !nodes[myself].master {
        if nodes[myself].slaveof.value != myself {
          ReplacedMaster(Snapshot(), nodes[myself].slaveof.value);
        } else {
          ReplacedItself(Snapshot());
        }
      }
      hide TookOver;
      if nodes[myself].master || nodes[myself].slaveof.None? {
        return;
      }
      var oldmaster := nodes[myself].slaveof.value;
      var me := nodes[myself].(master := true, slaveof := None);
      PeerChangeKeepsCoherence(Snapshot(), myself, me, currentEpoch);
      nodes := nodes[myself := me];
      TakeSlotsOf(oldmaster);
    }

    /** The scan of clusterFailoverReplaceYourMaster. */
    method TakeSlotsOf(n: NodeId)
      requires Valid() && n in nodes
      modifies this`nodes, this`slots
      ensures Valid()
      ensures Snapshot() == Rebind(old(Snapshot()), Handed(old(slots), n, Some(myself)))
    {
      ghost var s, target := Snapshot(), Handed(slots, n, Some(myself));
      CoherentIsFixed(s);
      for j := 0 to CLUSTER_SLOTS
        invariant Valid() && n in nodes && nodes == WithBitmaps(s.nodes, slots)
        invariant Partly(s.slots, target, j, slots)
      {
        Advance(s, target, j, slots);
        BitIsOwner(Snapshot(), j, n);
        hide WithBitmaps, OwnedBy, Partly;
        if j in nodes[n].slots {
          MoveSlot(j, myself);
        }
      }
      ScanDone(s.slots, target, slots);
    }

    method CloseImport(slot: nat, n: NodeId, keys: nat)
      requires Valid() && slot < CLUSTER_SLOTS && n in nodes
      modifies this`nodes, this`importing, this`migrating, this`currentEpoch
      ensures Valid() && n in nodes
      ensures Snapshot() == ImportClosed(old(Snapshot()), slot, n, keys)
    {
      if keys == 0 {
        migrating := migrating[slot := None];
      }
      if n == myself && importing[slot].Some? {
        hide OwnedBy;
        var _ := BumpConfigEpochWithoutConsensus();
        importing := importing[slot := None];
      }
    }

    /**
     CLUSTER SETSLOT slot NODE n, on a master.  `keys` is the number of keys this node holds
     in the slot.
     */
    method SetSlotNode(slot: nat, n: NodeId, keys: nat) returns (ok: bool)
      requires Valid() && slot < CLUSTER_SLOTS
      modifies this`nodes, this`slots, this`importing, this`migrating, this`currentEpoch
      ensures Valid()
      ensures ok <==> n in old(nodes) && (old(slots)[slot] == Some(myself) && n != myself ==> keys == 0)
      ensures Snapshot() == if ok then AfterSetSlotNode(old(Snapshot()), slot, n, keys) else old(Snapshot())
      ensures ok ==> SlotMoved(old(Snapshot()), slot, n, keys, Snapshot())
    {
      if n !in nodes || (slots[slot] == Some(myself) && n != myself && keys != 0) {
        return false;
      }
      SlotMoves(Snapshot(), slot, n, keys);
      hide SlotMoved;
      CloseImport(slot, n, keys);
      hide Coherent, ImportClosed;
      MoveSlot(slot, n);
      ok := true;
    }

    // ------------------------------------------------------------------------
    // Epochs and elections
    // ------------------------------------------------------------------------

    method GetMaxEpoch() returns (max: nat)
      ensures IsMaxEpoch(Snapshot(), max)
    {
      max := 0;
      var todo := nodes.Keys;
      while todo != {}
        invariant todo <= nodes.Keys
        invariant forall k | k in nodes && k !in todo :: nodes[k].configEpoch <= max
        invariant max == 0 || exists k :: k in nodes && nodes[k].configEpoch == max
        decreases todo
      {
        var k :| k in todo;
        if nodes[k].configEpoch > max {
          max := nodes[k].configEpoch;
        }
        todo := todo - {k};
      }
      if max < currentEpoch {
        max := currentEpoch;
      }
    }

    method BumpConfigEpochWithoutConsensus() returns (ok: bool)
      requires Valid()
      modifies this`nodes, this`currentEpoch
      ensures Valid()
      ensures Snapshot() == ClusterModel.BumpConfigEpochWithoutConsensus(old(Snapshot()))
      ensures ok <==> ShouldBump(old(Snapshot()))
      ensures ok && EpochsDominated(old(Snapshot())) ==>
                forall k | k in nodes && k != myself :: nodes[k].configEpoch < nodes[myself].configEpoch
    {
      hide IsMaxEpoch, ShouldBump, Coherent;
      MyselfIsKnown(Snapshot());
      var max := GetMaxEpoch();
      BumpsBelowMax(Snapshot(), max);
      var me := nodes[myself];
      if me.configEpoch == 0 || me.configEpoch != max {
        PeerChangeKeepsCoherence(Snapshot(), myself, me.(configEpoch := currentEpoch + 1), currentEpoch + 1);
        currentEpoch := currentEpoch + 1;
        nodes := nodes[myself := me.(configEpoch := currentEpoch)];
        ok := true;
      } else {
        ok := false;
      }
    }

    method HandleConfigEpochCollision(sender: NodeId)
      requires Valid() && sender in nodes
      modifies this`nodes, this`currentEpoch
      ensures Valid()
      ensures Snapshot() == ClusterModel.HandleConfigEpochCollision(old(Snapshot()), sender)
      ensures old(&& nodes[myself].master && nodes[sender].master && myself < sender
                  && nodes[myself].configEpoch == nodes[sender].configEpoch)
              ==> myself in nodes && nodes[myself].configEpoch == currentEpoch == old(currentEpoch) + 1
      ensures old(|| !nodes[myself].master || !nodes[sender].master || sender <= myself
                  || nodes[myself].configEpoch != nodes[sender].configEpoch)
              ==> unchanged(this)
    {
      hide Coherent, WellFormed;
      MyselfIsKnown(Snapshot());
      var me := nodes[myself];
      if nodes[sender].configEpoch != me.configEpoch || !nodes[sender].master || !me.master {
        return;
      }
      if sender <= myself {
        return;
      }
      PeerChangeKeepsCoherence(Snapshot(), myself, me.(configEpoch := currentEpoch + 1), currentEpoch + 1);
      currentEpoch := currentEpoch + 1;
      nodes := nodes[myself := me.(configEpoch := currentEpoch)];
    }

    /** The epoch part of packet processing. */
    method Adopt(h: Header)
      requires Valid()
      modifies this`nodes, this`currentEpoch
      ensures Valid()
      ensures Snapshot() == AdoptHeader(old(Snapshot()), h)
    {
      if h.sender !in nodes {
        return;
      }
      var p := nodes[h.sender];
      PeerChangeKeepsCoherence(Snapshot(), h.sender, p.(configEpoch := Max(p.configEpoch, h.configEpoch)),
                               Max(currentEpoch, h.currentEpoch));
      if h.currentEpoch > currentEpoch {
        currentEpoch := h.currentEpoch;
      }
      if h.configEpoch > p.configEpoch {
        p := p.(configEpoch := h.configEpoch);
      }
      nodes := nodes[h.sender := p];
    }

    /** A FAILOVER_AUTH_REQUEST, after its header was adopted; answers whether an ACK is to be sent. */
    method SendFailoverAuthIfNeeded(h: Header, votedRecently: bool) returns (granted: bool)
      requires Valid() && h.sender in nodes
      modifies this`lastVoteEpoch
      ensures granted == GrantsVote(old(Snapshot()), h, votedRecently)
      ensures var s := old(Snapshot());
              granted <==> HasVote(s) && Eligible(s, h) && !votedRecently && !Objects(s, h)
      ensures Snapshot() == if granted then CastVote(old(Snapshot())) else old(Snapshot())
    {
      hide OwnedBy, HasVote, Eligible, Objects;
      VotesIff(Snapshot(), h, votedRecently);
      granted := false;
      if !nodes[myself].master || nodes[myself].numslots == 0 {
        return;
      }
      if h.currentEpoch < currentEpoch || lastVoteEpoch == currentEpoch {
        return;
      }
      var node := nodes[h.sender];
      if node.master || node.slaveof.None? || (!nodes[node.slaveof.value].failed && !h.forceAck) {
        return;
      }
      if votedRecently {
        return;
      }
      for j := 0 to CLUSTER_SLOTS
        invariant forall i | 0 <= i < j && i in h.myslots ::
                    slots[i].Some? ==> nodes[slots[i].value].configEpoch <= h.configEpoch
      {
        if j in h.myslots && slots[j].Some? && nodes[slots[j].value].configEpoch > h.configEpoch {
          return;
        }
      }
      lastVoteEpoch := currentEpoch;
      granted := true;
    }

    /** A FAILOVER_AUTH_ACK. */
    method ProcessAuthAck(h: Header)
      requires Valid()
      modifies this`nodes, this`currentEpoch, this`authCount
      ensures Valid()
      ensures Snapshot() == ReceiveAck(old(Snapshot()), h)
      ensures var counts := h.sender in nodes && nodes[h.sender].master && nodes[h.sender].numslots > 0
                            && h.currentEpoch >= authEpoch;
              authCount == old(authCount) + (if counts then 1 else 0)
    {
      hide Coherent, AdoptHeader;
      Adopt(h);
      AuthCountKeepsCoherence(Snapshot());
      if h.sender !in nodes {
        return;
      }
      if nodes[h.sender].master && nodes[h.sender].numslots > 0 && h.currentEpoch >= authEpoch {
        authCount := authCount + 1;
      }
    }

    /** The node's epoch becomes the epoch of the election, and it takes its master's place. */
    method WinElection()
      requires Valid()
      modifies this`nodes, this`slots
      ensures Valid()
      ensures Snapshot() == ReplaceMaster(ApplyFailover(old(Snapshot()), TakeOver))
      ensures Won(old(Snapshot()), Snapshot())
    {
      var me := nodes[myself];
      PeerChangeKeepsCoherence(Snapshot(), myself, me.(configEpoch := Max(me.configEpoch, authEpoch)), currentEpoch);
      hide Coherent, ReplaceMaster, TookOver;
      MyselfIsKnown(Snapshot());
      if me.configEpoch < authEpoch {
        me := me.(configEpoch := authEpoch);
      }
      nodes := nodes[myself := me];
      ghost var raised := Snapshot();
      ReplacedEpoch(raised);
      FailoverReplaceYourMaster();
      RaisedFirst(old(Snapshot()), me.configEpoch, Snapshot());
    }

    /** clusterHandleSlaveFailover; the caller sends the request when the answer is RequestVotes. */
    method HandleSlaveFailover(t: Timing) returns (action: FailoverAction)
      requires Valid()
      modifies this`nodes, this`slots, this`currentEpoch, this`authEpoch, this`authCount, this`authSent
      ensures Valid()
      ensures action == FailoverDecision(old(Snapshot()), t)
      ensures var s := ApplyFailover(old(Snapshot()), action);
              Snapshot() == if action.TakeOver? then ReplaceMaster(s) else s
      ensures action != Idle ==> MayReplace(old(Snapshot()), t)
      ensures action == Rearm <==> MayReplace(old(Snapshot()), t) && t.retryElapsed
      ensures action == RequestVotes <==>
                MayReplace(old(Snapshot()), t) && !t.retryElapsed && !t.tooEarly && !t.expired && !old(authSent)
      ensures action == TakeOver <==>
                && MayReplace(old(Snapshot()), t) && !t.retryElapsed && !t.tooEarly && !t.expired
                && old(authSent) && 2 * old(authCount) > size
      ensures action == Rearm ==> authCount == 0 && !authSent
      ensures action == RequestVotes ==> authSent && authEpoch == currentEpoch == old(currentEpoch) + 1
      ensures action == TakeOver ==> Won(old(Snapshot()), Snapshot())
    {
      hide OwnedBy, Won;
      var me := nodes[myself];
      if me.master || me.slaveof.None? || (!nodes[me.slaveof.value].failed && !t.manual) || (t.noFailover && !t.manual)
         || nodes[me.slaveof.value].numslots == 0
      {
        return Idle;
      }
      if t.dataTooOld && !t.manual {
        return Idle;
      }
      if t.retryElapsed {
        authCount := 0;
        authSent := false;
        return Rearm;
      }
      if t.tooEarly || t.expired {
        return Idle;
      }
      if !authSent {
        currentEpoch := currentEpoch + 1;
        authEpoch := currentEpoch;
        authSent := true;
        return RequestVotes;
      }
      if authCount >= size / 2 + 1 {
        WinElection();
        return TakeOver;
      }
      return WaitForVotes;
    }
  }

  /** A slave, of a master that serves slots and failed, or whose replacement was asked for by hand. */
  predicate MayReplace(s: State, t: Timing)
    requires WellFormed(s)
  {
    && !s.nodes[s.myself].master && s.nodes[s.myself].slaveof.Some?
    && var m := s.nodes[s.nodes[s.myself].slaveof.value];
       m.numslots != 0 && (t.manual || (m.failed && !t.noFailover && !t.dataTooOld))
  }

  /** A slave that won: it took its master's place, at an epoch no lower than the election's or its own before. */
  predicate Won(s: State, r: State)
    requires WellFormed(s)
  {
    && r.myself == s.myself && r.myself in r.nodes
    && r.nodes[r.myself].configEpoch == Max(s.nodes[s.myself].configEpoch, s.authEpoch)
    && (!s.nodes[s.myself].master && s.nodes[s.myself].slaveof.Some? && s.nodes[s.myself].slaveof.value != s.myself ==>
          TookOver(s, s.nodes[s.myself].slaveof.value, r))
  }

  /** Raising one's own epoch first makes no difference to what is taken over. */
  lemma RaisedFirst(s: State, epoch: nat, r: State)
    requires s.myself in s.nodes
    ensures forall m :: TookOver(SetConfigEpoch(s, s.myself, epoch), m, r) ==> TookOver(s, m, r)
  {
    forall m | TookOver(SetConfigEpoch(s, s.myself, epoch), m, r) ensures TookOver(s, m, r) {
    }
  }

  lemma ReplacedEpoch(s: State)
    requires s.myself in s.nodes
    ensures var r := ReplaceMaster(s);
            s.myself in r.nodes && r.nodes[s.myself].configEpoch == s.nodes[s.myself].configEpoch
  {
    hide OwnedBy;
  }

  lemma AuthCountKeepsCoherence(s: State)
    requires Coherent(s)
    ensures Coherent(s.(authCount := s.authCount + 1))
  {
  }

  lemma MyselfIsKnown(s: State)
    requires Coherent(s)
    ensures s.myself in s.nodes && WellFormed(s)
    ensures s.nodes[s.myself].slaveof.Some? ==> s.nodes[s.myself].slaveof.value in s.nodes
  {
  }

  /** Comparing with the greatest epoch is looking for a greater one. */
  lemma BumpsBelowMax(s: State, max: nat)
    requires s.myself in s.nodes && IsMaxEpoch(s, max)
    ensures ShouldBump(s) <==> s.nodes[s.myself].configEpoch == 0 || s.nodes[s.myself].configEpoch != max
  {
  }

  /** The table after SETSLOT NODE is accepted. */
  function AfterSetSlotNode(s: State, slot: nat, n: NodeId, keys: nat): State
    requires WellFormed(s) && slot < CLUSTER_SLOTS
  {
    Rebind(ImportClosed(s, slot, n, keys), s.slots[slot := Some(n)])
  }

  /** Importing and migrating marks of the slot closed; importing to oneself takes a new epoch. */
  function ImportClosed(s: State, slot: nat, n: NodeId, keys: nat): State
    requires WellFormed(s) && slot < CLUSTER_SLOTS
  {
    var m := if keys == 0 then s.(migrating := s.migrating[slot := None]) else s;
    if n == s.myself && s.importing[slot].Some?
    then ClusterModel.BumpConfigEpochWithoutConsensus(m).(importing := s.importing[slot := None])
    else m
  }

  /**
   The slot's marks are closed: migrating once no key is left, importing when the slot came to this
   node, which then holds an epoch no other node known exceeds, and a new one above them all if it had
   none or was behind.  Nobody else's epoch changes.
   */
  predicate MarksClosed(s: State, slot: nat, n: NodeId, keys: nat, r: State)
    requires WellFormed(s) && slot < CLUSTER_SLOTS
  {
    var arrives, mine := n == s.myself && s.importing[slot].Some?, s.nodes[s.myself].configEpoch;
    && r.nodes.Keys == s.nodes.Keys
    && r.migrating == (if keys == 0 then s.migrating[slot := None] else s.migrating)
    && r.importing == (if arrives then s.importing[slot := None] else s.importing)
    && (forall k | k in s.nodes && k != s.myself :: r.nodes[k].configEpoch == s.nodes[k].configEpoch)
    && (!arrives ==> r.nodes[s.myself].configEpoch == mine && r.currentEpoch == s.currentEpoch)
    && (arrives && EpochsDominated(s) ==>
          && (forall k | k in r.nodes :: r.nodes[k].configEpoch <= r.nodes[s.myself].configEpoch)
          && (mine == 0 || mine < s.currentEpoch ==>
                forall k | k in r.nodes && k != s.myself :: r.nodes[k].configEpoch < r.nodes[s.myself].configEpoch))
  }

  /** The slot went to n and no other moved. */
  predicate SlotMoved(s: State, slot: nat, n: NodeId, keys: nat, r: State)
    requires WellFormed(s) && slot < CLUSTER_SLOTS
  {
    r.slots == s.slots[slot := Some(n)] && MarksClosed(s, slot, n, keys, r)
  }

  lemma ImportCloses(s: State, slot: nat, n: NodeId, keys: nat)
    requires WellFormed(s) && slot < CLUSTER_SLOTS
    ensures MarksClosed(s, slot, n, keys, ImportClosed(s, slot, n, keys))
  {
  }

  lemma SlotMoves(s: State, slot: nat, n: NodeId, keys: nat)
    requires WellFormed(s) && slot < CLUSTER_SLOTS
    ensures SlotMoved(s, slot, n, keys, AfterSetSlotNode(s, slot, n, keys))
  {
    hide ImportClosed, WithBitmaps, EpochsDominated;
    ImportCloses(s, slot, n, keys);
    var c := ImportClosed(s, slot, n, keys);
    var r := AfterSetSlotNode(s, slot, n, keys);
    SameKeys(c.nodes, r.slots);
    forall k | k in s.nodes ensures r.nodes[k].configEpoch == c.nodes[k].configEpoch {
      BitmapsKeepEpoch(c.nodes, r.slots, k);
    }
  }

  lemma SameKeys(nodes: map<NodeId, Peer>, slots: seq<Option<NodeId>>)
    ensures WithBitmaps(nodes, slots).Keys == nodes.Keys
  {
  }

  /** Both views have the same owner for slot j, at the same epoch, and agree on importing it. */
  predicate SameOwner(s: State, now: State, j: nat)
    requires WellFormed(s) && WellFormed(now) && j < CLUSTER_SLOTS
  {
    && now.slots[j] == s.slots[j] && now.importing[j] == s.importing[j]
    && (s.slots[j].Some? ==> now.nodes[s.slots[j].value].configEpoch == s.nodes[s.slots[j].value].configEpoch)
  }

  lemma BitmapsKeepEpoch(nodes: map<NodeId, Peer>, slots: seq<Option<NodeId>>, k: NodeId)
    requires k in nodes
    ensures k in WithBitmaps(nodes, slots) && WithBitmaps(nodes, slots)[k].configEpoch == nodes[k].configEpoch
  {
  }

  /** Rebinding earlier slots does not change whether slot j is taken. */
  lemma TakesAtScan(s: State, now: State, sender: NodeId, epoch: nat, claimed: set<nat>, j: nat)
    requires WellFormed(s) && WellFormed(now) && j < CLUSTER_SLOTS
    requires SameOwner(s, now, j)
    ensures Takes(now, sender, epoch, claimed, j) <==> Takes(s, sender, epoch, claimed, j)
    ensures MergedSlots(s, sender, epoch, claimed)[j] ==
              if Takes(s, sender, epoch, claimed, j) then Some(sender) else s.slots[j]
  {
  }

  lemma NoLossesYet(
    s: State, sender: NodeId, epoch: nat, claimed: set<nat>, hasKeys: set<nat>, curmaster: Option<NodeId>)
    requires WellFormed(s)
    ensures !LosesBefore(s, curmaster, sender, epoch, claimed, 0)
    ensures DirtyBefore(s, sender, epoch, claimed, hasKeys, 0) == {}
  {
  }

  lemma LossesAtScan(
    s: State, sender: NodeId, epoch: nat, claimed: set<nat>, hasKeys: set<nat>, curmaster: Option<NodeId>, j: nat)
    requires WellFormed(s) && j < CLUSTER_SLOTS
    ensures LosesBefore(s, curmaster, sender, epoch, claimed, j + 1) <==>
              LosesBefore(s, curmaster, sender, epoch, claimed, j) || LosesTo(s, curmaster, sender, epoch, claimed, j)
    ensures DirtyBefore(s, sender, epoch, claimed, hasKeys, j + 1) ==
              DirtyBefore(s, sender, epoch, claimed, hasKeys, j) +
              if LosesTo(s, Some(s.myself), sender, epoch, claimed, j) && j in hasKeys then {j} else {}
  {
  }

  lemma RemovalKeepsCoherence(s: State, n: NodeId)
    requires Coherent(s) && n in s.nodes && n != s.myself
    ensures Coherent(RemoveNode(s, n)) && n !in RemoveNode(s, n).nodes
  {
    hide OwnedBy;
    RebindIsCoherent(s, Without(s.slots, n));
    FreeingKeepsCoherence(Rebind(s, Without(s.slots, n)), n, Without(s.importing, n), Without(s.migrating, n));
  }

  lemma FreeingKeepsCoherence(s: State, n: NodeId, importing: seq<Option<NodeId>>, migrating: seq<Option<NodeId>>)
    requires Coherent(s) && n != s.myself && |importing| == |migrating| == CLUSTER_SLOTS
    requires forall j | 0 <= j < CLUSTER_SLOTS :: s.slots[j] != Some(n)
    ensures Coherent(s.(importing := importing, migrating := migrating, nodes := Freed(s.nodes, n)))
  {
    hide OwnedBy;
  }
}
