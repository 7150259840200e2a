/**
 The slot table of one node: `slots[j]` names the owner of slot j, every known node
 carries a bitmap of the slots it serves and their number.  The bitmap is the set of
 its set bits.
 */
module SlotModel {
  import opened Common
  import opened ClusterModel

  function OwnedBy(slots: seq<Option<NodeId>>, k: NodeId): set<nat> {
    set j: nat | j < |slots| && slots[j] == Some(k)
  }

  /** The nodes, each with the bitmap and count that match the given owners. */
  function WithBitmaps(nodes: map<NodeId, Peer>, slots: seq<Option<NodeId>>): map<NodeId, Peer> {
    map k | k in nodes :: nodes[k].(slots := OwnedBy(slots, k), numslots := |OwnedBy(slots, k)|)
  }

  /** s with the given owners, and every node's bitmap and count to match. */
  function Rebind(s: State, slots: seq<Option<NodeId>>): State {
    s.(slots := slots, nodes := WithBitmaps(s.nodes, slots))
  }

  /** slots[j] is n exactly if bit j of n's bitmap is set, and numslots counts the bits. */
  predicate Coherent(s: State) {
    && WellFormed(s)
    && forall k | k in s.nodes ::
         s.nodes[k].slots == OwnedBy(s.slots, k) && s.nodes[k].numslots == |OwnedBy(s.slots, k)|
  }

  /** Only masters serve slots. */
  predicate RoleOk(s: State)
    requires s.myself in s.nodes
  {
    var me := s.nodes[s.myself];
    !me.master ==> me.numslots == 0
  }

  // --------------------------------------------------------------------------
  // Rebinding slots to a claimant
  // --------------------------------------------------------------------------

  /** The node whose loss of slots matters to this node: itself, or its master, which may be unknown. */
  function CurrentMaster(s: State): Option<NodeId>
    requires s.myself in s.nodes
  {
    var me := s.nodes[s.myself];
    if me.master then Some(s.myself) else me.slaveof
  }

  predicate Takes(s: State, sender: NodeId, epoch: nat, claimed: set<nat>, j: nat)
    requires WellFormed(s) && j < CLUSTER_SLOTS
  {
    && j in claimed
    && s.slots[j] != Some(sender)
    && s.importing[j].None?
    && (s.slots[j].None? || s.nodes[s.slots[j].value].configEpoch < epoch)
  }

  function MergedSlots(s: State, sender: NodeId, epoch: nat, claimed: set<nat>): (r: seq<Option<NodeId>>)
    requires WellFormed(s)
    ensures |r| == CLUSTER_SLOTS
  {
    seq(CLUSTER_SLOTS, j requires 0 <= j < CLUSTER_SLOTS =>
      if Takes(s, sender, epoch, claimed, j) then Some(sender) else s.slots[j])
  }

  predicate LosesTo(s: State, n: Option<NodeId>, sender: NodeId, epoch: nat, claimed: set<nat>, j: nat)
    requires WellFormed(s) && j < CLUSTER_SLOTS
  {
    Takes(s, sender, epoch, claimed, j) && s.slots[j] == n
  }

  /** n, or nobody, loses one of the first `limit` slots to the sender. */
  predicate LosesBefore(s: State, n: Option<NodeId>, sender: NodeId, epoch: nat, claimed: set<nat>, limit: nat)
    requires WellFormed(s) && limit <= CLUSTER_SLOTS
  {
    exists j: nat :: j < limit && LosesTo(s, n, sender, epoch, claimed, j)
  }

  /** This node's master (or itself) lost a slot to the sender and is left with none. */
  predicate Demotes(s: State, sender: NodeId, epoch: nat, claimed: set<nat>)
    requires WellFormed(s)
  {
    && CurrentMaster(s).Some? && LosesBefore(s, CurrentMaster(s), sender, epoch, claimed, CLUSTER_SLOTS)
    && OwnedBy(MergedSlots(s, sender, epoch, claimed), CurrentMaster(s).value) == {}
  }

  predicate Free(s: State, claimed: set<nat>, j: nat)
    requires WellFormed(s) && j < CLUSTER_SLOTS
  {
    j in claimed && s.slots[j].None? && s.importing[j].None?
  }

  /**
   The null pointer is read: a slave that does not know its master is told of a slot that is free,
   and takes it for one its master lost.
   */
  predicate ReadsNull(s: State, sender: NodeId, claimed: set<nat>, redirect: bool)
    requires WellFormed(s)
  {
    && sender != s.myself && redirect && !s.nodes[s.myself].master && s.nodes[s.myself].slaveof.None?
    && exists j: nat :: j < CLUSTER_SLOTS && Free(s, claimed, j)
  }

  function NoSlots(): (r: seq<Option<NodeId>>)
    ensures |r| == CLUSTER_SLOTS && forall j | 0 <= j < CLUSTER_SLOTS :: r[j].None?
  {
    seq(CLUSTER_SLOTS, _ => None)
  }

  /** clusterSetMaster: become (or stay) a slave, of n. */
  function SetMaster(s: State, n: NodeId): State
    requires s.myself in s.nodes
  {
    var me := s.nodes[s.myself];
    s.(nodes := s.nodes[s.myself := me.(master := false, slaveof := Some(n))],
       importing := if me.master then NoSlots() else s.importing,
       migrating := if me.master then NoSlots() else s.migrating)
  }

  /** clusterUpdateSlotsConfigWith; if it reads the null pointer, the state it dies in. */
  function UpdateSlotsConfigWith(s: State, sender: NodeId, epoch: nat, claimed: set<nat>, redirect: bool): State
    requires WellFormed(s)
  {
    if sender == s.myself then s
    else
      var m := Rebind(s, MergedSlots(s, sender, epoch, claimed));
      if redirect && Demotes(s, sender, epoch, claimed) then SetMaster(m, sender) else m
  }

  /** The first `limit` slots this node loses while it still holds keys in them. */
  function DirtyBefore(s: State, sender: NodeId, epoch: nat, claimed: set<nat>, hasKeys: set<nat>, limit: nat): set<nat>
    requires WellFormed(s) && limit <= CLUSTER_SLOTS
  {
    set j: nat | j < limit && LosesTo(s, Some(s.myself), sender, epoch, claimed, j) && j in hasKeys
  }

  function DirtySlots(s: State, sender: NodeId, epoch: nat, claimed: set<nat>, hasKeys: set<nat>): set<nat>
    requires WellFormed(s)
  {
    DirtyBefore(s, sender, epoch, claimed, hasKeys, CLUSTER_SLOTS)
  }

  // --------------------------------------------------------------------------
  // Other operations on the table
  // --------------------------------------------------------------------------

  /** The owners after every slot of n went to o. */
  function Handed(slots: seq<Option<NodeId>>, n: NodeId, o: Option<NodeId>): (r: seq<Option<NodeId>>)
    ensures |r| == |slots|
  {
    seq(|slots|, j requires 0 <= j < |slots| => if slots[j] == Some(n) then o else slots[j])
  }

  function Without(refs: seq<Option<NodeId>>, n: NodeId): (r: seq<Option<NodeId>>)
    ensures |r| == |refs|
  {
    Handed(refs, n, None)
  }

  /** clusterDelNode: no slot, import, migration or replica refers to n afterwards. */
  function RemoveNode(s: State, n: NodeId): State {
    s.(slots := Without(s.slots, n),
       importing := Without(s.importing, n),
       migrating := Without(s.migrating, n),
       nodes := Freed(WithBitmaps(s.nodes, Without(s.slots, n)), n))
  }

  /** freeClusterNode: the replicas of n lose their master, and n leaves the table of nodes. */
  function Freed(nodes: map<NodeId, Peer>, n: NodeId): map<NodeId, Peer> {
    map k | k in nodes && k != n ::
      nodes[k].(slaveof := if nodes[k].slaveof == Some(n) then None else nodes[k].slaveof)
  }

  /** clusterFailoverReplaceYourMaster: a slave becomes a master and takes its master's slots. */
  function ReplaceMaster(s: State): State
    requires s.myself in s.nodes
  {
    var me := s.nodes[s.myself];
    if me.master || me.slaveof.None? then s
    else
      Rebind(s.(nodes := s.nodes[s.myself := me.(master := true, slaveof := None)]),
             Handed(s.slots, me.slaveof.value, Some(s.myself)))
  }

  // --------------------------------------------------------------------------
  // Coherence of rebound tables
  // --------------------------------------------------------------------------

  lemma RebindIsCoherent(s: State, slots: seq<Option<NodeId>>)
    requires WellFormed(s) && |slots| == CLUSTER_SLOTS
    requires forall j | 0 <= j < CLUSTER_SLOTS :: slots[j].Some? ==> slots[j].value in s.nodes
    ensures Coherent(Rebind(s, slots))
  {
  }

  lemma CoherentIsFixed(s: State)
    requires Coherent(s)
    ensures Rebind(s, s.slots) == s
  {
    assert Rebind(s, s.slots).nodes == s.nodes;
  }

  /** Giving slot j another owner changes bitmaps by that one bit. */
  lemma OwnersAfterUpdate(slots: seq<Option<NodeId>>, j: nat, o: Option<NodeId>, k: NodeId)
    requires j < |slots|
    ensures OwnedBy(slots[j := o], k) == if o == Some(k) then OwnedBy(slots, k) + {j} else OwnedBy(slots, k) - {j}
    ensures j in OwnedBy(slots, k) <==> slots[j] == Some(k)
  {
  }

  /** n's bitmap and counter after its bit j was set or cleared. */
  function SetBit(p: Peer, j: nat): Peer {
    p.(slots := p.slots + {j}, numslots := p.numslots + if j in p.slots then 0 else 1)
  }

  function ClearBit(p: Peer, j: nat): Peer {
    p.(slots := p.slots - {j}, numslots := p.numslots - if j in p.slots then 1 else 0)
  }

  lemma BitmapAfter(slots: seq<Option<NodeId>>, j: nat, o: Option<NodeId>, k: NodeId, p: Peer)
    requires j < |slots| && p.slots == OwnedBy(slots, k) && p.numslots == |OwnedBy(slots, k)|
    ensures var r := p.(slots := OwnedBy(slots[j := o], k), numslots := |OwnedBy(slots[j := o], k)|);
            r == if o == Some(k) then SetBit(p, j) else ClearBit(p, j)
    ensures slots[j] != Some(k) ==> ClearBit(p, j) == p
    ensures j in p.slots <==> slots[j] == Some(k)
  {
    hide OwnedBy;
    OwnersAfterUpdate(slots, j, o, k);
  }

  lemma BitIsOwner(s: State, j: nat, k: NodeId)
    requires Coherent(s) && j < CLUSTER_SLOTS && k in s.nodes
    ensures j in s.nodes[k].slots <==> s.slots[j] == Some(k)
  {
  }

  /** The table after slot j went from nobody to n, or from n to nobody, one node at a time. */
  lemma OneBitmapChanges(s: State, n: NodeId, j: nat, o: Option<NodeId>)
    requires Coherent(s) && n in s.nodes && j < CLUSTER_SLOTS
    requires (s.slots[j].None? && o == Some(n)) || (s.slots[j] == Some(n) && o.None?)
    ensures var p := if o.Some? then SetBit(s.nodes[n], j) else ClearBit(s.nodes[n], j);
            WithBitmaps(s.nodes, s.slots[j := o]) == s.nodes[n := p]
  {
    hide OwnedBy, SetBit, ClearBit;
    var r := WithBitmaps(s.nodes, s.slots[j := o]);
    forall k | k in s.nodes && k != n ensures r[k] == s.nodes[k] {
      BitmapAfter(s.slots, j, o, k, s.nodes[k]);
    }
    BitmapAfter(s.slots, j, o, n, s.nodes[n]);
    assert r.Keys == s.nodes.Keys;
  }

  /** Setting a free slot's bit for n, counting it and recording the owner. */
  lemma BindSlot(s: State, n: NodeId, j: nat)
    requires Coherent(s) && n in s.nodes && j < CLUSTER_SLOTS && s.slots[j].None?
    ensures Rebind(s, s.slots[j := Some(n)]) ==
              s.(slots := s.slots[j := Some(n)], nodes := s.nodes[n := SetBit(s.nodes[n], j)])
    ensures Coherent(Rebind(s, s.slots[j := Some(n)]))
  {
    hide OwnedBy, SetBit, WithBitmaps;
    RebindIsCoherent(s, s.slots[j := Some(n)]);
    OneBitmapChanges(s, n, j, Some(n));
  }

  /** Clearing the owner's bit of slot j, which is always set, and forgetting the owner. */
  lemma UnbindSlot(s: State, j: nat)
    requires Coherent(s) && j < CLUSTER_SLOTS && s.slots[j].Some?
    ensures var n := s.slots[j].value;
            && j in s.nodes[n].slots
            && Rebind(s, s.slots[j := None]) ==
               s.(slots := s.slots[j := None], nodes := s.nodes[n := ClearBit(s.nodes[n], j)])
    ensures Coherent(Rebind(s, s.slots[j := None]))
  {
    hide OwnedBy, ClearBit, WithBitmaps;
    RebindIsCoherent(s, s.slots[j := None]);
    OneBitmapChanges(s, s.slots[j].value, j, None);
    BitIsOwner(s, j, s.slots[j].value);
  }

  lemma RebindTwice(s: State, slots: seq<Option<NodeId>>, slots': seq<Option<NodeId>>)
    ensures WithBitmaps(WithBitmaps(s.nodes, slots), slots') == WithBitmaps(s.nodes, slots')
    ensures Rebind(Rebind(s, slots), slots') == Rebind(s, slots')
  {
  }

  /** A scan over the slots has brought the first j owners from `slots` to `target`. */
  predicate Partly(slots: seq<Option<NodeId>>, target: seq<Option<NodeId>>, j: nat, now: seq<Option<NodeId>>) {
    && |slots| == |target| == |now| == CLUSTER_SLOTS
    && forall i | 0 <= i < CLUSTER_SLOTS :: now[i] == if i < j then target[i] else slots[i]
  }

  lemma ScanStarts(slots: seq<Option<NodeId>>, target: seq<Option<NodeId>>)
    requires |slots| == |target| == CLUSTER_SLOTS
    ensures Partly(slots, target, 0, slots)
  {
  }

  lemma ScanOne(slots: seq<Option<NodeId>>, target: seq<Option<NodeId>>, j: nat, now: seq<Option<NodeId>>)
    requires Partly(slots, target, j, now) && j < CLUSTER_SLOTS
    ensures Partly(slots, target, j + 1, now[j := target[j]])
    ensures now[j] == slots[j]
    ensures slots[j] == target[j] ==> Partly(slots, target, j + 1, now)
  {
  }

  lemma ScanDone(slots: seq<Option<NodeId>>, target: seq<Option<NodeId>>, now: seq<Option<NodeId>>)
    requires Partly(slots, target, CLUSTER_SLOTS, now)
    ensures now == target
  {
  }

  lemma Advance(s: State, target: seq<Option<NodeId>>, j: nat, now: seq<Option<NodeId>>)
    requires Partly(s.slots, target, j, now) && j < CLUSTER_SLOTS
    ensures Partly(s.slots, target, j + 1, now[j := target[j]])
    ensures now[j] == s.slots[j]
    ensures s.slots[j] == target[j] ==> Partly(s.slots, target, j + 1, now)
    ensures WithBitmaps(WithBitmaps(s.nodes, now), now[j := target[j]]) == WithBitmaps(s.nodes, now[j := target[j]])
  {
    ScanOne(s.slots, target, j, now);
    RebindTwice(s, now, now[j := target[j]]);
  }

  lemma HandedOver(s: State, n: NodeId, o: Option<NodeId>)
    requires n in s.nodes && o != Some(n)
    ensures Rebind(s, Handed(s.slots, n, o)).nodes[n].numslots == 0
  {
    assert OwnedBy(Handed(s.slots, n, o), n) == {};
  }

  /** Changing a node's epoch, role or flags leaves the table coherent. */
  lemma PeerChangeKeepsCoherence(s: State, k: NodeId, p: Peer, epoch: nat)
    requires Coherent(s) && k in s.nodes
    requires p.slots == s.nodes[k].slots && p.numslots == s.nodes[k].numslots
    requires p.slaveof.Some? ==> p.slaveof.value in s.nodes
    ensures Coherent(s.(nodes := s.nodes[k := p], currentEpoch := epoch))
  {
  }

  lemma UpdateKeepsCoherence(s: State, sender: NodeId, epoch: nat, claimed: set<nat>, redirect: bool)
    requires Coherent(s) && RoleOk(s) && sender in s.nodes
    ensures Coherent(UpdateSlotsConfigWith(s, sender, epoch, claimed, redirect))
    ensures RoleOk(UpdateSlotsConfigWith(s, sender, epoch, claimed, redirect))
  {
    hide OwnedBy, LosesBefore, Takes;
    if sender != s.myself {
      var slots := MergedSlots(s, sender, epoch, claimed);
      RebindIsCoherent(s, slots);
      NoSlotGained(s, sender, epoch, claimed);
    }
  }

  /** A claim of another node only takes slots away from this one. */
  lemma NoSlotGained(s: State, sender: NodeId, epoch: nat, claimed: set<nat>)
    requires WellFormed(s) && sender != s.myself
    ensures OwnedBy(MergedSlots(s, sender, epoch, claimed), s.myself) <= OwnedBy(s.slots, s.myself)
    ensures |OwnedBy(s.slots, s.myself)| == 0 ==> |OwnedBy(MergedSlots(s, sender, epoch, claimed), s.myself)| == 0
  {
    assert OwnedBy(MergedSlots(s, sender, epoch, claimed), s.myself) <= OwnedBy(s.slots, s.myself);
  }

  /** Rebinding changes who owns what, and possibly this node's role; nothing else. */
  predicate SameButSlots(s: State, r: State) {
    && r == s.(nodes := r.nodes, slots := r.slots, importing := r.importing, migrating := r.migrating)
    && r.nodes.Keys == s.nodes.Keys
    && (forall k | k in s.nodes :: r.nodes[k].configEpoch == s.nodes[k].configEpoch)
    && (r.importing == s.importing || r.importing == NoSlots())
  }

  lemma UpdateFrame(s: State, sender: NodeId, epoch: nat, claimed: set<nat>, redirect: bool)
    requires WellFormed(s) && sender != s.myself
    ensures var r := UpdateSlotsConfigWith(s, sender, epoch, claimed, redirect);
            SameButSlots(s, r) && r.slots == MergedSlots(s, sender, epoch, claimed)
  {
    hide Demotes, MergedSlots;
  }

  /**
   The bitmap-equality shortcut: a claim equal to the recorded bitmap of the sender rebinds
   nothing, so skipping it is safe.
   */
  lemma EqualBitmapChangesNothing(s: State, sender: NodeId, epoch: nat, redirect: bool)
    requires Coherent(s) && sender in s.nodes
    ensures UpdateSlotsConfigWith(s, sender, epoch, s.nodes[sender].slots, redirect) == s
    ensures !ReadsNull(s, sender, s.nodes[sender].slots, redirect)
  {
    var claimed := s.nodes[sender].slots;
    assert forall j: nat | j < CLUSTER_SLOTS :: !Takes(s, sender, epoch, claimed, j);
    assert MergedSlots(s, sender, epoch, claimed) == s.slots;
    CoherentIsFixed(s);
  }

  // --------------------------------------------------------------------------
  // What the operations mean, told from the states before and after
  // --------------------------------------------------------------------------

  /** The node of s took the place of its master m: m's slots are its own now, and it is a master. */
  predicate TookOver(s: State, m: NodeId, r: State) {
    && s.myself in s.nodes && m in s.nodes
    && r == s.(nodes := r.nodes, slots := r.slots) && r.nodes.Keys == s.nodes.Keys && |r.slots| == |s.slots|
    && (forall j | 0 <= j < |s.slots| ::
          r.slots[j] == Some(s.myself) <==> s.slots[j] == Some(m) || s.slots[j] == Some(s.myself))
    && (forall j | 0 <= j < |s.slots| :: s.slots[j] != Some(m) ==> r.slots[j] == s.slots[j])
    && r.nodes[m].slots == {} && r.nodes[m].numslots == 0
    && r.nodes[s.myself].master && r.nodes[s.myself].slaveof.None?
    && r.nodes[s.myself].slots == s.nodes[s.myself].slots + s.nodes[m].slots
    && r.nodes[s.myself].numslots == s.nodes[s.myself].numslots + s.nodes[m].numslots
    && forall k | k in s.nodes && k != s.myself && k != m :: r.nodes[k] == s.nodes[k]
  }

  /** The owners after all slots of m went to n, node by node. */
  lemma HandedOwners(slots: seq<Option<NodeId>>, m: NodeId, n: NodeId, k: NodeId)
    requires m != n
    ensures var r := Handed(slots, m, Some(n));
            OwnedBy(r, k) == if k == m then {}
                             else if k == n then OwnedBy(slots, n) + OwnedBy(slots, m) else OwnedBy(slots, k)
    ensures OwnedBy(slots, n) !! OwnedBy(slots, m)
  {
  }

  lemma ReplacedMaster(s: State, m: NodeId)
    requires Coherent(s) && !s.nodes[s.myself].master && s.nodes[s.myself].slaveof == Some(m) && m != s.myself
    ensures TookOver(s, m, ReplaceMaster(s))
  {
    hide OwnedBy;
    var r := ReplaceMaster(s);
    forall k | k in s.nodes
      ensures r.nodes[k].slots == OwnedBy(r.slots, k) && r.nodes[k].numslots == |OwnedBy(r.slots, k)|
    {
      HandedOwners(s.slots, m, s.myself, k);
    }
    HandedOwners(s.slots, m, s.myself, m);
    HandedOwners(s.slots, m, s.myself, s.myself);
    forall k | k in s.nodes && k != s.myself && k != m ensures r.nodes[k] == s.nodes[k] {
      HandedOwners(s.slots, m, s.myself, k);
    }
  }

  /** A slave recorded as its own master only changes its role. */
  lemma ReplacedItself(s: State)
    requires Coherent(s) && !s.nodes[s.myself].master && s.nodes[s.myself].slaveof == Some(s.myself)
    ensures ReplaceMaster(s) == s.(nodes := s.nodes[s.myself := s.nodes[s.myself].(master := true, slaveof := None)])
  {
    hide OwnedBy;
    var me := s.nodes[s.myself].(master := true, slaveof := None);
    PeerChangeKeepsCoherence(s, s.myself, me, s.currentEpoch);
    var t := s.(nodes := s.nodes[s.myself := me]);
    assert Handed(t.slots, s.myself, Some(s.myself)) == t.slots;
    CoherentIsFixed(t);
  }

  /** The node of s, or its master, owned a slot that it does not own in r, and owns none there. */
  predicate Stripped(s: State, r: State)
    requires s.myself in s.nodes && |r.slots| == |s.slots|
  {
    var c := CurrentMaster(s);
    && c.Some?
    && (exists j: nat :: j < |s.slots| && s.slots[j] == c && r.slots[j] != c)
    && forall j: nat | j < |r.slots| :: r.slots[j] != c
  }

  /** A node stripped of its last slot follows the claimant and imports nothing; any other keeps its role. */
  predicate Follows(s: State, sender: NodeId, redirect: bool, r: State)
    requires s.myself in s.nodes && |r.slots| == |s.slots|
  {
    && s.myself in r.nodes
    && var me, now := s.nodes[s.myself], r.nodes[s.myself];
       if redirect && Stripped(s, r) then
         && !now.master && now.slaveof == Some(sender)
         && (if me.master then r.importing == NoSlots() && r.migrating == NoSlots()
             else r.importing == s.importing && r.migrating == s.migrating)
       else
         && now.master == me.master && now.slaveof == me.slaveof
         && r.importing == s.importing && r.migrating == s.migrating
  }

  /** The claimant gets exactly the claimed slots not being imported that are free or known at an older epoch. */
  predicate Claimed(s: State, sender: NodeId, epoch: nat, claimed: set<nat>, r: State)
    requires WellFormed(s)
  {
    && |r.slots| == CLUSTER_SLOTS
    && forall j | 0 <= j < CLUSTER_SLOTS ::
         r.slots[j] ==
           if j !in claimed || s.importing[j].Some? then s.slots[j]
           else if s.slots[j].None? || s.nodes[s.slots[j].value].configEpoch < epoch then Some(sender)
           else s.slots[j]
  }

  /** Merging a claim does just that. */
  lemma UpdateMeans(s: State, sender: NodeId, epoch: nat, claimed: set<nat>, redirect: bool)
    requires WellFormed(s) && sender != s.myself
    ensures var r := UpdateSlotsConfigWith(s, sender, epoch, claimed, redirect);
            Claimed(s, sender, epoch, claimed, r) && Follows(s, sender, redirect, r)
    ensures Demotes(s, sender, epoch, claimed) <==>
            Stripped(s, UpdateSlotsConfigWith(s, sender, epoch, claimed, redirect))
  {
    var r, c := UpdateSlotsConfigWith(s, sender, epoch, claimed, redirect), CurrentMaster(s);
    var slots := MergedSlots(s, sender, epoch, claimed);
    assert r.slots == slots;
    assert c.Some? ==> (LosesBefore(s, c, sender, epoch, claimed, CLUSTER_SLOTS) <==>
                        exists j: nat :: j < CLUSTER_SLOTS && s.slots[j] == c && slots[j] != c) by {
      LosesMeans(s, c, sender, epoch, claimed);
    }
    assert c.Some? ==> (OwnedBy(slots, c.value) == {} <==> forall j: nat | j < CLUSTER_SLOTS :: slots[j] != c) by {
      if c.Some? {
        OwnsNone(slots, c.value);
      }
    }
    hide LosesBefore, OwnedBy, MergedSlots;
  }

  lemma LosesMeans(s: State, c: Option<NodeId>, sender: NodeId, epoch: nat, claimed: set<nat>)
    requires WellFormed(s)
    ensures LosesBefore(s, c, sender, epoch, claimed, CLUSTER_SLOTS) <==>
            exists j: nat :: j < CLUSTER_SLOTS && s.slots[j] == c && MergedSlots(s, sender, epoch, claimed)[j] != c
  {
    var slots := MergedSlots(s, sender, epoch, claimed);
    assert forall j: nat | j < CLUSTER_SLOTS ::
             LosesTo(s, c, sender, epoch, claimed, j) <==> s.slots[j] == c && slots[j] != c;
  }

  lemma OwnsNone(slots: seq<Option<NodeId>>, n: NodeId)
    ensures OwnedBy(slots, n) == {} <==> forall j: nat | j < |slots| :: slots[j] != Some(n)
  {
    if OwnedBy(slots, n) == {} {
      forall j: nat | j < |slots| ensures slots[j] != Some(n) {
        assert j !in OwnedBy(slots, n);
      }
    }
  }

  /** The node lost these slots and holds keys in them. */
  function LostWithKeys(s: State, sender: NodeId, hasKeys: set<nat>, r: State): set<nat> {
    set j: nat | && j < |s.slots| && j < |r.slots| && j in hasKeys
                 && s.slots[j] == Some(s.myself) && r.slots[j] == Some(sender)
  }

  lemma DirtyMeans(s: State, sender: NodeId, epoch: nat, claimed: set<nat>, redirect: bool, hasKeys: set<nat>)
    requires WellFormed(s) && sender != s.myself
    ensures DirtySlots(s, sender, epoch, claimed, hasKeys) ==
            LostWithKeys(s, sender, hasKeys, UpdateSlotsConfigWith(s, sender, epoch, claimed, redirect))
  {
    assert UpdateSlotsConfigWith(s, sender, epoch, claimed, redirect).slots == MergedSlots(s, sender, epoch, claimed);
  }

  /** Nothing in r refers to n, and all that does not concern n is as in s. */
  predicate Forgot(s: State, n: NodeId, r: State) {
    && r == s.(nodes := r.nodes, slots := r.slots, importing := r.importing, migrating := r.migrating)
    && r.nodes.Keys == s.nodes.Keys - {n}
    && Cleared(s.slots, n, r.slots) && Cleared(s.importing, n, r.importing) && Cleared(s.migrating, n, r.migrating)
    && forall k | k in s.nodes && k != n ::
         r.nodes[k] == s.nodes[k].(slaveof := if s.nodes[k].slaveof == Some(n) then None else s.nodes[k].slaveof)
  }

  predicate Cleared(refs: seq<Option<NodeId>>, n: NodeId, r: seq<Option<NodeId>>) {
    |r| == |refs| && forall j | 0 <= j < |refs| :: r[j] == if refs[j] == Some(n) then None else refs[j]
  }

  lemma RemovedNode(s: State, n: NodeId)
    requires Coherent(s) && n in s.nodes
    ensures Forgot(s, n, RemoveNode(s, n))
  {
    hide Coherent, WithBitmaps, Without, Freed;
    var r := RemoveNode(s, n);
    forall k | k in s.nodes && k != n
      ensures k in r.nodes
      ensures r.nodes[k] == s.nodes[k].(slaveof := if s.nodes[k].slaveof == Some(n) then None else s.nodes[k].slaveof)
    {
      FreedPeer(s, n, k);
    }
    OthersStay(WithBitmaps(s.nodes, Without(s.slots, n)), s.nodes, Without(s.slots, n), n);
    WithoutClears(s.slots, n);
    WithoutClears(s.importing, n);
    WithoutClears(s.migrating, n);
  }

  lemma FreedPeer(s: State, n: NodeId, k: NodeId)
    requires Coherent(s) && k in s.nodes && k != n
    ensures var r := Freed(WithBitmaps(s.nodes, Without(s.slots, n)), n);
            && k in r
            && r[k] == s.nodes[k].(slaveof := if s.nodes[k].slaveof == Some(n) then None else s.nodes[k].slaveof)
  {
    hide OwnedBy;
    FreedOwners(s.slots, n, k);
  }

  lemma OthersStay(b: map<NodeId, Peer>, nodes: map<NodeId, Peer>, slots: seq<Option<NodeId>>, n: NodeId)
    requires b == WithBitmaps(nodes, slots)
    ensures Freed(b, n).Keys == nodes.Keys - {n}
  {
    hide OwnedBy;
  }

  lemma WithoutClears(refs: seq<Option<NodeId>>, n: NodeId)
    ensures Cleared(refs, n, Without(refs, n))
  {
  }

  lemma FreedOwners(slots: seq<Option<NodeId>>, n: NodeId, k: NodeId)
    requires k != n
    ensures OwnedBy(Without(slots, n), k) == OwnedBy(slots, k)
  {
  }

  // --------------------------------------------------------------------------
  // A slave whose master is unknown
  // --------------------------------------------------------------------------

  /** What the loop compares with the null master are the free slots, whatever the epochs. */
  lemma NullLosesIff(s: State, sender: NodeId, epoch: nat, claimed: set<nat>)
    requires WellFormed(s)
    ensures LosesBefore(s, None, sender, epoch, claimed, CLUSTER_SLOTS) <==>
              exists j: nat :: j < CLUSTER_SLOTS && Free(s, claimed, j)
  {
    if j: nat :| j < CLUSTER_SLOTS && Free(s, claimed, j) {
      assert LosesTo(s, None, sender, epoch, claimed, j);
    }
    if LosesBefore(s, None, sender, epoch, claimed, CLUSTER_SLOTS) {
      var j: nat :| j < CLUSTER_SLOTS && LosesTo(s, None, sender, epoch, claimed, j);
      assert Free(s, claimed, j);
    }
  }

  /** Forgetting its own master leaves a slave in that position. */
  lemma ForgettingOwnMaster(s: State, n: NodeId)
    requires WellFormed(s) && RoleOk(s) && n in s.nodes && n != s.myself
    requires !s.nodes[s.myself].master && s.nodes[s.myself].slaveof == Some(n)
    ensures var r := RemoveNode(s, n); r.myself in r.nodes && CurrentMaster(r).None?
  {
  }

  /** Slave 1 has forgotten its master, no slot is assigned, and master 2 claims slot 0. */
  lemma UnknownMasterReadsNull() returns (s: State)
    ensures Coherent(s) && RoleOk(s) && s.nodes.Keys == {1, 2} && ReadsNull(s, 2, {0}, true)
  {
    s := State(1, map[1 := Peer(false, false, None, 0, {}, 0), 2 := Peer(true, false, None, 1, {}, 0)],
               NoSlots(), NoSlots(), NoSlots(), 0, 1, 0, 0, 0, false);
    assert OwnedBy(s.slots, 1) == {} && OwnedBy(s.slots, 2) == {};
    assert Free(s, {0}, 0);
  }
}
