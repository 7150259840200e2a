/**
 Hash slots configuration propagation: whatever the order and repetition in which an
 observer hears the masters' claims, every slot ends with the claimant of greatest epoch.
 */
module SlotMerge {
  import opened Common
  import opened ClusterModel
  import opened SlotModel

  datatype Claim = Claim(epoch: nat, slots: set<nat>)

  /** PING/PONG processing of a header from a master: adopt, note its role, rebind, check for a collision. */
  function ReceiveClaim(s: State, h: Header, redirect: bool): State
    requires WellFormed(s) && h.sender != s.myself
  {
    if h.sender !in s.nodes then s
    else
      CheckCollision(Rebound(Noted(s, h), h, redirect), h)
  }

  /** clusterSetNodeAsMaster, for another node. */
  function NoteMaster(s: State, k: NodeId): State
    requires k in s.nodes
  {
    if s.nodes[k].master then s else s.(nodes := s.nodes[k := s.nodes[k].(master := true, slaveof := None)])
  }

  predicate IsClaim(claims: map<NodeId, Claim>, h: Header) {
    h.sender in claims && h.configEpoch == claims[h.sender].epoch && h.myslots == claims[h.sender].slots
  }

  predicate DistinctEpochs(claims: map<NodeId, Claim>) {
    forall k, k' | k in claims && k' in claims && claims[k].epoch == claims[k'].epoch :: k == k'
  }

  /** A coherent view that knows no claimant beyond its claim. */
  predicate Observer(s: State, claims: map<NodeId, Claim>) {
    && Coherent(s) && RoleOk(s)
    && s.myself !in claims
    && (forall j | 0 <= j < CLUSTER_SLOTS :: s.importing[j].None?)
    && (forall k | k in claims ::
          k in s.nodes && s.nodes[k].configEpoch <= claims[k].epoch)
  }

  predicate Unassigned(s: State) {
    forall j | 0 <= j < |s.slots| :: s.slots[j].None?
  }

  /** o is the claimant of slot j with the greatest epoch among those heard, or nobody if none claims it. */
  predicate IsBest(claims: map<NodeId, Claim>, heard: set<NodeId>, j: nat, o: Option<NodeId>) {
    match o
    case None => forall k | k in heard && k in claims :: j !in claims[k].slots
    case Some(b) =>
      && b in heard && b in claims && j in claims[b].slots
      && forall k | k in heard && k in claims && j in claims[k].slots :: claims[k].epoch <= claims[b].epoch
  }

  /** Every slot is bound to the best claimant heard so far, and heard claimants are known at their epoch. */
  predicate Settled(s: State, claims: map<NodeId, Claim>, heard: set<NodeId>)
    requires Observer(s, claims)
  {
    && (forall k | k in heard && k in claims :: s.nodes[k].configEpoch == claims[k].epoch)
    && (forall j: nat | j < CLUSTER_SLOTS :: IsBest(claims, heard, j, s.slots[j]))
  }

  // --------------------------------------------------------------------------
  // One claim
  // --------------------------------------------------------------------------

  /** The view in which the slots are compared: header adopted, sender noted as a master. */
  function Noted(s: State, h: Header): State
    requires h.sender in s.nodes
  {
    NoteMaster(AdoptHeader(s, h), h.sender)
  }

  /** Both views know every claimant at the same epoch, except perhaps `k`. */
  predicate SameClaimants(s: State, t: State, claims: map<NodeId, Claim>, except: set<NodeId>) {
    forall k | k in claims && k !in except ::
      k in s.nodes && k in t.nodes && t.nodes[k].configEpoch == s.nodes[k].configEpoch
  }

  predicate KnownAtClaim(s: State, claims: map<NodeId, Claim>, k: NodeId) {
    k in claims && k in s.nodes && s.nodes[k].configEpoch == claims[k].epoch
  }

  lemma ObserverIsWellFormed(s: State, claims: map<NodeId, Claim>)
    requires Observer(s, claims)
    ensures WellFormed(s) && s.myself in s.nodes
  {
  }

  /** Adopting the header and noting a master changes the sender's epoch and role, nothing about slots. */
  lemma NotedPeer(s: State, h: Header)
    requires h.sender in s.nodes
    ensures var a := Noted(s, h);
            var p := s.nodes[h.sender];
            && h.sender in a.nodes
            && a == s.(nodes := s.nodes[h.sender := a.nodes[h.sender]], currentEpoch := a.currentEpoch)
            && a.nodes[h.sender].slots == p.slots && a.nodes[h.sender].numslots == p.numslots
            && a.nodes[h.sender].configEpoch == Max(p.configEpoch, h.configEpoch)
            && (a.nodes[h.sender].slaveof == p.slaveof || a.nodes[h.sender].slaveof.None?)
            && a.nodes[h.sender].master && a.currentEpoch == Max(s.currentEpoch, h.currentEpoch)
  {
  }

  lemma NotedIsObserver(s: State, claims: map<NodeId, Claim>, h: Header)
    requires Observer(s, claims) && IsClaim(claims, h)
    ensures var a := Noted(s, h);
            && Observer(a, claims) && a.slots == s.slots && a.myself == s.myself && CurrentMaster(a) == CurrentMaster(s)
            && SameClaimants(s, a, claims, {h.sender}) && KnownAtClaim(a, claims, h.sender)
  {
    hide Coherent, Noted, WellFormed;
    ObserverIsWellFormed(s, claims);
    SenderIsKnown(s, claims, h);
    NotedPeer(s, h);
    var a, p := Noted(s, h), Noted(s, h).nodes[h.sender];
    PeerChangeKeepsCoherence(s, h.sender, p, a.currentEpoch);
  }

  lemma SenderIsKnown(s: State, claims: map<NodeId, Claim>, h: Header)
    requires Observer(s, claims) && IsClaim(claims, h)
    ensures WellFormed(s) && h.sender in s.nodes && h.sender != s.myself
  {
  }

  function Rebound(a: State, h: Header, redirect: bool): State
    requires WellFormed(a) && h.sender in a.nodes
  {
    if a.nodes[h.sender].slots != h.myslots
    then UpdateSlotsConfigWith(a, h.sender, h.configEpoch, h.myslots, redirect)
    else a
  }

  /** With or without the shortcut, the owners after a claim are the merged ones. */
  lemma MergedEitherWay(a: State, h: Header, redirect: bool)
    requires Coherent(a) && RoleOk(a) && h.sender in a.nodes && h.sender != a.myself
    ensures var m := Rebound(a, h, redirect);
            && Coherent(m) && RoleOk(m) && SameButSlots(a, m)
            && m.slots == MergedSlots(a, h.sender, h.configEpoch, h.myslots)
            && (CurrentMaster(m).Some? <==> CurrentMaster(a).Some?)
  {
    hide UpdateSlotsConfigWith, MergedSlots, Coherent;
    CoherentIsWellFormed(a);
    UpdateKeepsCoherence(a, h.sender, h.configEpoch, h.myslots, redirect);
    UpdateFrame(a, h.sender, h.configEpoch, h.myslots, redirect);
    EqualBitmapChangesNothing(a, h.sender, h.configEpoch, redirect);
    MasterStaysKnown(a, h, redirect);
  }

  lemma CoherentIsWellFormed(s: State)
    requires Coherent(s)
    ensures WellFormed(s)
  {
  }

  lemma MasterStaysKnown(a: State, h: Header, redirect: bool)
    requires WellFormed(a) && h.sender in a.nodes && h.sender != a.myself
    ensures var m := UpdateSlotsConfigWith(a, h.sender, h.configEpoch, h.myslots, redirect);
            m.myself in m.nodes && (CurrentMaster(m).Some? <==> CurrentMaster(a).Some?)
  {
    hide MergedSlots, OwnedBy, LosesBefore;
  }

  lemma CollisionKeepsObserver(m: State, claims: map<NodeId, Claim>, h: Header)
    requires Observer(m, claims) && IsClaim(claims, h)
    ensures var r := CheckCollision(m, h);
            && Observer(r, claims) && r.slots == m.slots && r.myself == m.myself && CurrentMaster(r) == CurrentMaster(m)
            && SameClaimants(m, r, claims, {})
  {
    hide Coherent, CheckCollision, WellFormed;
    ObserverIsWellFormed(m, claims);
    SenderIsKnown(m, claims, h);
    OwnEpochOnly(m, h);
    var r, p := CheckCollision(m, h), CheckCollision(m, h).nodes[m.myself];
    PeerChangeKeepsCoherence(m, m.myself, p, r.currentEpoch);
  }

  /** Resolving a collision changes this node's own epoch and the current one. */
  lemma OwnEpochOnly(m: State, h: Header)
    requires WellFormed(m) && h.sender in m.nodes
    ensures var r := CheckCollision(m, h);
            && m.myself in r.nodes
            && r == m.(nodes := m.nodes[m.myself := r.nodes[m.myself]], currentEpoch := r.currentEpoch)
            && r.nodes[m.myself] == m.nodes[m.myself].(configEpoch := r.nodes[m.myself].configEpoch)
  {
    assert m.nodes == m.nodes[m.myself := m.nodes[m.myself]];
  }

  lemma ClaimKeepsObserver(s: State, claims: map<NodeId, Claim>, h: Header, redirect: bool)
    requires Observer(s, claims) && IsClaim(claims, h)
    ensures var r := ReceiveClaim(s, h, redirect);
            && Observer(r, claims) && r.myself == s.myself && (CurrentMaster(r).Some? <==> CurrentMaster(s).Some?)
            && SameClaimants(s, r, claims, {h.sender}) && KnownAtClaim(r, claims, h.sender)
    ensures WellFormed(Noted(s, h))
    ensures ReceiveClaim(s, h, redirect).slots == MergedSlots(Noted(s, h), h.sender, h.configEpoch, h.myslots)
  {
    hide Coherent, Noted, Rebound, MergedSlots, RoleOk, CheckCollision, WellFormed;
    SenderIsKnown(s, claims, h);
    ObserverIsWellFormed(s, claims);
    NotedIsObserver(s, claims, h);
    var a := Noted(s, h);
    ObserverIsWellFormed(a, claims);
    MergedEitherWay(a, h, redirect);
    CollisionKeepsObserver(Rebound(a, h, redirect), claims, h);
  }

  /** The comparison made for one slot, on the claims themselves. */
  lemma BestOfOneMore(claims: map<NodeId, Claim>, heard: set<NodeId>, k: NodeId, j: nat, o: Option<NodeId>)
    requires k in claims && IsBest(claims, heard, j, o)
    ensures var takes := j in claims[k].slots && o != Some(k) && (o.None? || claims[o.value].epoch < claims[k].epoch);
            IsBest(claims, heard + {k}, j, if takes then Some(k) else o)
  {
  }

  lemma SlotSettles(a: State, claims: map<NodeId, Claim>, heard: set<NodeId>, h: Header, j: nat)
    requires WellFormed(a) && IsClaim(claims, h) && j < CLUSTER_SLOTS && a.importing[j].None?
    requires forall k | k in heard && k in claims :: KnownAtClaim(a, claims, k)
    requires IsBest(claims, heard, j, a.slots[j])
    ensures IsBest(claims, heard + {h.sender}, j, MergedSlots(a, h.sender, h.configEpoch, h.myslots)[j])
  {
    BestOfOneMore(claims, heard, h.sender, j, a.slots[j]);
    if a.slots[j].Some? {
      assert KnownAtClaim(a, claims, a.slots[j].value);
    }
  }

  /** One more claim: the owners of every slot stay the best of those heard. */
  lemma ClaimSettles(s: State, claims: map<NodeId, Claim>, heard: set<NodeId>, h: Header, redirect: bool)
    requires Observer(s, claims) && IsClaim(claims, h) && Settled(s, claims, heard)
    ensures Observer(ReceiveClaim(s, h, redirect), claims)
    ensures Settled(ReceiveClaim(s, h, redirect), claims, heard + {h.sender})
  {
    hide Noted, ReceiveClaim, MergedSlots, IsBest, Coherent, RoleOk;
    ObserverIsWellFormed(s, claims);
    NotedIsObserver(s, claims, h);
    ClaimKeepsObserver(s, claims, h, redirect);
    var a, r := Noted(s, h), ReceiveClaim(s, h, redirect);
    ObserverIsWellFormed(a, claims);
    ObserverIsWellFormed(r, claims);
    assert forall k | k in heard && k in claims :: KnownAtClaim(a, claims, k) && KnownAtClaim(r, claims, k);
    forall j: nat | j < CLUSTER_SLOTS ensures IsBest(claims, heard + {h.sender}, j, r.slots[j]) {
      assert IsBest(claims, heard, j, s.slots[j]);
      SlotSettles(a, claims, heard, h, j);
    }
  }

  // --------------------------------------------------------------------------
  // Surviving the claims
  // --------------------------------------------------------------------------

  /** Processing the claim reads the null pointer. */
  predicate DiesOn(s: State, claims: map<NodeId, Claim>, h: Header, redirect: bool)
    requires Observer(s, claims) && IsClaim(claims, h)
  {
    var a := Noted(s, h);
    NotedIsObserver(s, claims, h);
    a.nodes[h.sender].slots != h.myslots && ReadsNull(a, h.sender, h.myslots, redirect)
  }

  predicate Survives(s: State, claims: map<NodeId, Claim>, hs: seq<Header>, redirect: bool)
    requires Observer(s, claims) && forall h | h in hs :: IsClaim(claims, h)
    decreases |hs|
  {
    hs == [] ||
    (!DiesOn(s, claims, hs[0], redirect) &&
     (ClaimKeepsObserver(s, claims, hs[0], redirect);
      Survives(ReceiveClaim(s, hs[0], redirect), claims, hs[1..], redirect)))
  }

  predicate ClaimsNothing(h: Header) {
    forall j | j in h.myslots :: j >= CLUSTER_SLOTS
  }

  lemma DiesOnFirst(s: State, claims: map<NodeId, Claim>, h: Header, redirect: bool)
    requires Observer(s, claims) && IsClaim(claims, h) && Unassigned(s)
    ensures DiesOn(s, claims, h, redirect) <==> CurrentMaster(s).None? && redirect && !ClaimsNothing(h)
  {
    hide Noted, RoleOk, OwnedBy;
    var a := Noted(s, h);
    NotedIsObserver(s, claims, h);
    if CurrentMaster(s).None? && redirect && !ClaimsNothing(h) {
      var j: nat :| j in h.myslots && j < CLUSTER_SLOTS;
      NothingOwned(a, h.sender);
      assert Free(a, h.myslots, j);
    }
    if DiesOn(s, claims, h, redirect) {
      var j: nat :| j < CLUSTER_SLOTS && Free(a, h.myslots, j);
      assert j in h.myslots;
    }
  }

  lemma NothingOwned(s: State, k: NodeId)
    requires Coherent(s) && Unassigned(s) && k in s.nodes
    ensures s.nodes[k].slots == {}
  {
  }

  lemma NothingTaken(s: State, claims: map<NodeId, Claim>, h: Header, redirect: bool)
    requires Observer(s, claims) && IsClaim(claims, h) && Unassigned(s) && ClaimsNothing(h)
    ensures Unassigned(ReceiveClaim(s, h, redirect))
  {
    hide Noted, RoleOk, ReceiveClaim;
    NotedIsObserver(s, claims, h);
    ClaimKeepsObserver(s, claims, h, redirect);
  }

  /**
   From an unassigned table an observer survives any sequence of claims unless it is a slave that does
   not know its master and somebody claims a slot.
   */
  lemma {:induction false} SurvivesIff(s: State, claims: map<NodeId, Claim>, hs: seq<Header>, redirect: bool)
    requires Observer(s, claims) && Unassigned(s) && forall h | h in hs :: IsClaim(claims, h)
    ensures Survives(s, claims, hs, redirect) <==>
            CurrentMaster(s).Some? || !redirect || forall h | h in hs :: ClaimsNothing(h)
    decreases |hs|
  {
    hide Observer, WellFormed, DiesOn, ReceiveClaim, ClaimsNothing, CurrentMaster, IsClaim;
    ObserverIsWellFormed(s, claims);
    if CurrentMaster(s).Some? || !redirect {
      KnownSurvives(s, claims, hs, redirect);
    } else if hs != [] {
      SenderIsKnown(s, claims, hs[0]);
      DiesOnFirst(s, claims, hs[0], redirect);
      if ClaimsNothing(hs[0]) {
        NothingTaken(s, claims, hs[0], redirect);
        ClaimKeepsObserver(s, claims, hs[0], redirect);
        SurvivesIff(ReceiveClaim(s, hs[0], redirect), claims, hs[1..], redirect);
        assert hs == [hs[0]] + hs[1..];
      } else {
        assert hs[0] in hs;
      }
    }
  }

  /** With a known master, or without redirections, no claim is dangerous, whatever the table. */
  lemma {:induction false} KnownSurvives(s: State, claims: map<NodeId, Claim>, hs: seq<Header>, redirect: bool)
    requires Observer(s, claims) && (CurrentMaster(s).Some? || !redirect) && forall h | h in hs :: IsClaim(claims, h)
    ensures Survives(s, claims, hs, redirect)
    decreases |hs|
  {
    hide Observer, WellFormed, ReceiveClaim, CurrentMaster, DiesOn, IsClaim;
    if hs != [] {
      SenderIsKnown(s, claims, hs[0]);
      KnownIsSafe(s, claims, hs[0], redirect);
      ClaimKeepsObserver(s, claims, hs[0], redirect);
      KnownSurvives(ReceiveClaim(s, hs[0], redirect), claims, hs[1..], redirect);
    }
  }

  lemma KnownIsSafe(s: State, claims: map<NodeId, Claim>, h: Header, redirect: bool)
    requires Observer(s, claims) && IsClaim(claims, h) && (CurrentMaster(s).Some? || !redirect)
    ensures !DiesOn(s, claims, h, redirect)
  {
    hide Observer, Noted, Coherent;
    NotedIsObserver(s, claims, h);
  }

  // --------------------------------------------------------------------------
  // Any sequence of claims
  // --------------------------------------------------------------------------

  /** The state after claims that are survived. */
  function Hear(s: State, claims: map<NodeId, Claim>, hs: seq<Header>, redirect: bool): (r: State)
    requires Observer(s, claims) && forall h | h in hs :: IsClaim(claims, h)
    requires Survives(s, claims, hs, redirect)
    ensures Observer(r, claims)
    decreases |hs|
  {
    if hs == [] then s
    else
      ClaimKeepsObserver(s, claims, hs[0], redirect);
      Hear(ReceiveClaim(s, hs[0], redirect), claims, hs[1..], redirect)
  }

  function Senders(hs: seq<Header>): set<NodeId> {
    set h | h in hs :: h.sender
  }

  lemma {:induction false} HearingSettles(
    s: State, claims: map<NodeId, Claim>, heard: set<NodeId>, hs: seq<Header>, redirect: bool)
    requires Observer(s, claims) && Settled(s, claims, heard) && forall h | h in hs :: IsClaim(claims, h)
    requires Survives(s, claims, hs, redirect)
    ensures Settled(Hear(s, claims, hs, redirect), claims, heard + Senders(hs))
    decreases |hs|
  {
    hide Settled, Observer, WellFormed, ReceiveClaim, DiesOn, Senders, IsClaim;
    if hs == [] {
      NoSenders();
      assert heard + {} == heard;
    } else {
      SenderIsKnown(s, claims, hs[0]);
      ClaimSettles(s, claims, heard, hs[0], redirect);
      HearingSettles(ReceiveClaim(s, hs[0], redirect), claims, heard + {hs[0].sender}, hs[1..], redirect);
      FirstSender(hs);
      assert heard + {hs[0].sender} + Senders(hs[1..]) == heard + Senders(hs);
    }
  }

  lemma NoSenders()
    ensures Senders([]) == {}
  {
  }

  lemma FirstSender(hs: seq<Header>)
    requires hs != []
    ensures Senders(hs) == {hs[0].sender} + Senders(hs[1..])
  {
    assert hs == [hs[0]] + hs[1..];
  }

  /** From an unassigned table, each slot ends with the greatest-epoch claimant among all senders. */
  lemma {:induction false} GreatestEpochWins(s: State, claims: map<NodeId, Claim>, hs: seq<Header>, redirect: bool)
    requires Observer(s, claims) && Unassigned(s) && forall h | h in hs :: IsClaim(claims, h)
    requires Survives(s, claims, hs, redirect)
    ensures forall j: nat | j < CLUSTER_SLOTS ::
              IsBest(claims, Senders(hs), j, Hear(s, claims, hs, redirect).slots[j])
  {
    HearingSettles(s, claims, {}, hs, redirect);
    assert {} + Senders(hs) == Senders(hs);
  }

  /** With distinct epochs the outcome depends on who was heard, not on order or repetition. */
  lemma {:induction false} OrderIndependence(
    s: State, claims: map<NodeId, Claim>, hs: seq<Header>, hs': seq<Header>, redirect: bool)
    requires Observer(s, claims) && Unassigned(s) && DistinctEpochs(claims)
    requires forall h | h in hs :: IsClaim(claims, h)
    requires forall h | h in hs' :: IsClaim(claims, h)
    requires Senders(hs) == Senders(hs') && Survives(s, claims, hs, redirect)
    ensures Survives(s, claims, hs', redirect)
    ensures Hear(s, claims, hs, redirect).slots == Hear(s, claims, hs', redirect).slots
  {
    hide Observer, Survives, Hear, IsBest, DistinctEpochs, Senders, CurrentMaster, ClaimsNothing, IsClaim;
    ObserverIsWellFormed(s, claims);
    SurvivesIff(s, claims, hs, redirect);
    SurvivesIff(s, claims, hs', redirect);
    if forall h | h in hs :: ClaimsNothing(h) {
      SameClaims(claims, hs, hs');
    }
    GreatestEpochWins(s, claims, hs, redirect);
    GreatestEpochWins(s, claims, hs', redirect);
    var r, r' := Hear(s, claims, hs, redirect).slots, Hear(s, claims, hs', redirect).slots;
    ObserverIsWellFormed(Hear(s, claims, hs, redirect), claims);
    ObserverIsWellFormed(Hear(s, claims, hs', redirect), claims);
    forall j: nat | j < CLUSTER_SLOTS ensures r[j] == r'[j] {
      BestIsUnique(claims, Senders(hs), j, r[j], r'[j]);
    }
  }

  lemma SameClaims(claims: map<NodeId, Claim>, hs: seq<Header>, hs': seq<Header>)
    requires forall h | h in hs :: IsClaim(claims, h)
    requires forall h | h in hs' :: IsClaim(claims, h)
    requires Senders(hs) == Senders(hs') && forall h | h in hs :: ClaimsNothing(h)
    ensures forall h | h in hs' :: ClaimsNothing(h)
  {
    forall h' | h' in hs' ensures ClaimsNothing(h') {
      assert h'.sender in Senders(hs');
      var h :| h in hs && h.sender == h'.sender;
    }
  }

  lemma BestIsUnique(claims: map<NodeId, Claim>, heard: set<NodeId>, j: nat, o: Option<NodeId>, o': Option<NodeId>)
    requires DistinctEpochs(claims) && IsBest(claims, heard, j, o) && IsBest(claims, heard, j, o')
    ensures o == o'
  {
  }
}
