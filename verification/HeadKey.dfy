/**
  * The sort key of the head walk: vote weight with the proposer boost, then the block
  * root, then the payload-status rank.
  */
module HeadKey {
  import opened Primitives
  import opened ForkChoiceTypes
  import opened Ancestry
  import opened Clock
  import opened Electorate
  import opened Expansion
  import opened Weight

  /** What every read of the head needs: ordered blocks, each with its timeliness. */
  ghost predicate Readable(s: StoreView) {
    Ordered(s.blocks) && s.blocks.Keys <= s.timeliness.Keys
  }

  function JustifiedState(s: StoreView): Option<BeaconState> {
    if s.justified in s.checkpointStates then Some(s.checkpointStates[s.justified]) else None
  }

  function BalanceUpTo(state: BeaconState, indices: seq<ValidatorIndex>, k: nat): Option<U64>
    requires k <= |indices| && InRegistry(state, indices)
  {
    if k == 0 then Some(0)
    else
      var total :- BalanceUpTo(state, indices, k - 1);
      CheckedAdd(total, state.validators[indices[k - 1]].effectiveBalance)
  }

  function TotalActiveBalance(preset: Preset, state: BeaconState): Option<U64> {
    var indices := ActiveUpTo(state, preset.Epoch(state.slot), |state.validators|);
    var total :- BalanceUpTo(state, indices, |indices|);
    Some(if total >= EFFECTIVE_BALANCE_INCREMENT then total else EFFECTIVE_BALANCE_INCREMENT)
  }

  /** A percentage of one slot's share of the active stake. */
  function CommitteeFraction(preset: Preset, state: BeaconState, percent: nat): Option<U64> {
    var total :- TotalActiveBalance(preset, state);
    var scaled :- CheckedMul(if preset.Mainnet? then total / 32 else total / 8, percent);
    Some(scaled / 100)
  }

  function ProposerScore(preset: Preset, s: StoreView): Option<U64> {
    var state :- JustifiedState(s);
    CommitteeFraction(preset, state, PROPOSER_SCORE_BOOST)
  }

  /** Balance of the equivocating members among the first `k` of a committee. */
  function EquivocatingUpTo(s: StoreView, state: BeaconState, committee: seq<ValidatorIndex>, k: nat): Option<U64>
    requires k <= |committee|
  {
    if k == 0 then Some(0)
    else
      var total :- EquivocatingUpTo(s, state, committee, k - 1);
      if committee[k - 1] !in s.equivocating then Some(total)
      else if committee[k - 1] >= |state.validators| then None
      else CheckedAdd(total, state.validators[committee[k - 1]].effectiveBalance)
  }

  /** `base` plus the equivocating balance of the first `k` committees. */
  function HeadWeightUpTo(s: StoreView, state: BeaconState, base: U64, committees: seq<seq<ValidatorIndex>>, k: nat)
    : Option<U64>
    requires k <= |committees|
  {
    if k == 0 then Some(base)
    else
      var total :- HeadWeightUpTo(s, state, base, committees, k - 1);
      var weight :- EquivocatingUpTo(s, state, committees[k - 1], |committees[k - 1]|);
      CheckedAdd(total, weight)
  }

  /** Whether the support of `root` falls short of the re-org threshold. */
  function HeadWeak(cfg: Config, s: StoreView, root: Root): Option<bool>
    requires Ordered(s.blocks)
  {
    var state :- JustifiedState(s);
    var threshold :- CommitteeFraction(cfg.preset, state, REORG_HEAD_WEIGHT_THRESHOLD);
    if root !in s.blockStates || root !in s.blocks then None
    else
      var base :- AttestationScore(cfg.preset, s, state, Node(root, Pending));
      var committees :- cfg.rules.committees(s.blockStates[root], s.blocks[root].slot);
      var weight :- HeadWeightUpTo(s, state, base, committees, |committees|);
      Some(weight < threshold)
  }

  method IsHeadWeak(cfg: Config, s: StoreView, root: Root) returns (weak: Option<bool>)
    requires Ordered(s.blocks)
    ensures weak == HeadWeak(cfg, s, root)
  {
    hide EquivocatingUpTo, AttestationScore, CommitteeFraction;
    var state := JustifiedState(s);
    if state.None? { return None; }
    var threshold := CommitteeFraction(cfg.preset, state.value, REORG_HEAD_WEIGHT_THRESHOLD);
    if threshold.None? { return None; }
    if root !in s.blockStates || root !in s.blocks { return None; }
    var base := GetAttestationScore(cfg.preset, s, state.value, Node(root, Pending));
    if base.None? { return None; }
    var committees := cfg.rules.committees(s.blockStates[root], s.blocks[root].slot);
    if committees.None? { return None; }
    var weight := SumCommittees(s, state.value, base.value, committees.value);
    if weight.None? { return None; }
    weak := Some(weight.value < threshold.value);
  }

  /** The committee loop of `is_head_weak`. */
  method SumCommittees(s: StoreView, state: BeaconState, base: U64, committees: seq<seq<ValidatorIndex>>)
    returns (total: Option<U64>)
    ensures total == HeadWeightUpTo(s, state, base, committees, |committees|)
  {
    hide EquivocatingUpTo;
    total := Some(base);
    for k := 0 to |committees|
      invariant total.Some? && total == HeadWeightUpTo(s, state, base, committees, k)
    {
      var weight := EquivocatingUpTo(s, state, committees[k], |committees[k]|);
      total := if weight.Some? then CheckedAdd(total.value, weight.value) else None;
      if total.None? {
        HeadWeightStaysNone(s, state, base, committees, k + 1, |committees|);
        return;
      }
    }
  }

  lemma HeadWeightStaysNone(
    s: StoreView, state: BeaconState, base: U64, committees: seq<seq<ValidatorIndex>>, k: nat, n: nat)
    requires k <= n <= |committees| && HeadWeightUpTo(s, state, base, committees, k).None?
    ensures HeadWeightUpTo(s, state, base, committees, n).None?
  {
    hide EquivocatingUpTo;
    if k < n {
      HeadWeightStaysNone(s, state, base, committees, k, n - 1);
    }
  }

  // ---------------------------------------------------------------------------
  // What the checked sums compute
  // ---------------------------------------------------------------------------

  /** The plain sum of the balances of a committee's equivocating members. */
  ghost function EquivocatingStake(s: StoreView, state: BeaconState, committee: seq<ValidatorIndex>): nat {
    if committee == [] then 0
    else
      var last := committee[|committee| - 1];
      EquivocatingStake(s, state, committee[..|committee| - 1])
      + if last in s.equivocating then Balance(state, last) else 0
  }

  ghost function CommitteesStake(s: StoreView, state: BeaconState, committees: seq<seq<ValidatorIndex>>): nat {
    if committees == [] then 0
    else
      CommitteesStake(s, state, committees[..|committees| - 1])
      + EquivocatingStake(s, state, committees[|committees| - 1])
  }

  /** Every equivocating member is in the registry. */
  ghost predicate OffendersKnown(s: StoreView, state: BeaconState, committee: seq<ValidatorIndex>) {
    forall k :: 0 <= k < |committee| && committee[k] in s.equivocating ==> committee[k] < |state.validators|
  }

  lemma {:induction false} EquivocatingIsSum(
    s: StoreView, state: BeaconState, committee: seq<ValidatorIndex>, k: nat)
    requires k <= |committee|
    ensures EquivocatingUpTo(s, state, committee, k).Some? <==>
      OffendersKnown(s, state, committee[..k]) && EquivocatingStake(s, state, committee[..k]) <= U64_MAX
    ensures EquivocatingUpTo(s, state, committee, k).Some? ==>
      EquivocatingUpTo(s, state, committee, k).value == EquivocatingStake(s, state, committee[..k])
  {
    if k > 0 {
      EquivocatingIsSum(s, state, committee, k - 1);
      var front, whole := committee[..k - 1], committee[..k];
      assert whole[..k - 1] == front && whole[k - 1] == committee[k - 1] && whole == front + [committee[k - 1]];
      assert OffendersKnown(s, state, whole) <==>
        && OffendersKnown(s, state, front)
        && (committee[k - 1] in s.equivocating ==> committee[k - 1] < |state.validators|);
    }
  }

  ghost predicate AllOffendersKnown(s: StoreView, state: BeaconState, committees: seq<seq<ValidatorIndex>>) {
    forall k :: 0 <= k < |committees| ==> OffendersKnown(s, state, committees[k])
  }

  lemma {:induction false} HeadWeightIsSum(
    s: StoreView, state: BeaconState, base: U64, committees: seq<seq<ValidatorIndex>>, k: nat)
    requires k <= |committees|
    ensures HeadWeightUpTo(s, state, base, committees, k).Some? <==>
      && AllOffendersKnown(s, state, committees[..k])
      && base + CommitteesStake(s, state, committees[..k]) <= U64_MAX
    ensures HeadWeightUpTo(s, state, base, committees, k).Some? ==>
      HeadWeightUpTo(s, state, base, committees, k).value == base + CommitteesStake(s, state, committees[..k])
  {
    hide EquivocatingUpTo, EquivocatingStake, OffendersKnown;
    if k > 0 {
      HeadWeightIsSum(s, state, base, committees, k - 1);
      var front, whole, last := committees[..k - 1], committees[..k], committees[k - 1];
      assert whole[..k - 1] == front && whole[k - 1] == last && whole == front + [last];
      assert AllOffendersKnown(s, state, whole) <==>
        AllOffendersKnown(s, state, front) && OffendersKnown(s, state, last);
      EquivocatingIsSum(s, state, last, |last|);
      assert last[..|last|] == last;
    }
  }

  lemma {:induction false} BalanceIsSum(state: BeaconState, indices: seq<ValidatorIndex>, k: nat)
    requires k <= |indices| && InRegistry(state, indices)
    ensures BalanceUpTo(state, indices, k).Some? <==> TotalStake(state, indices[..k]) <= U64_MAX
    ensures BalanceUpTo(state, indices, k).Some? ==>
      BalanceUpTo(state, indices, k).value == TotalStake(state, indices[..k])
  {
    if k > 0 {
      BalanceIsSum(state, indices, k - 1);
      assert indices[..k][..k - 1] == indices[..k - 1];
    }
  }

  /** The stake of all active validators, at least one increment. */
  ghost function ActiveStake(preset: Preset, state: BeaconState): nat {
    Max(BalanceOf(state, ActiveValidators(preset, state)), EFFECTIVE_BALANCE_INCREMENT)
  }

  /** One slot's share of the active stake, and a percentage of it. */
  ghost function SlotShare(preset: Preset, state: BeaconState): nat {
    if preset.Mainnet? then ActiveStake(preset, state) / 32 else ActiveStake(preset, state) / 8
  }

  ghost function CommitteeShare(preset: Preset, state: BeaconState, percent: nat): nat {
    SlotShare(preset, state) * percent / 100
  }

  lemma FractionIsShare(preset: Preset, state: BeaconState, percent: nat)
    ensures CommitteeFraction(preset, state, percent).Some? <==>
      ActiveStake(preset, state) <= U64_MAX && SlotShare(preset, state) * percent <= U64_MAX
    ensures CommitteeFraction(preset, state, percent).Some? ==>
      CommitteeFraction(preset, state, percent).value == CommitteeShare(preset, state, percent)
  {
    hide BalanceUpTo, TotalStake, ActiveUpTo, BalanceOf, ActiveValidators;
    var active := ActiveUpTo(state, preset.Epoch(state.slot), |state.validators|);
    BalanceIsSum(state, active, |active|);
    assert active[..|active|] == active;
    TotalIsActiveStake(preset, state);
  }

  /** The stake behind a block with that of its slot's known equivocators. */
  ghost function HeadStake(
    cfg: Config, s: StoreView, state: BeaconState, root: Root, committees: seq<seq<ValidatorIndex>>): nat
    requires Ordered(s.blocks)
  {
    Backing(cfg.preset, s, state, Node(root, Pending)) + CommitteesStake(s, state, committees)
  }

  /** The committees whose equivocators are counted for a block. */
  function CommitteesOf(cfg: Config, s: StoreView, root: Root): Option<seq<seq<ValidatorIndex>>> {
    if root in s.blocks && root in s.blockStates
    then cfg.rules.committees(s.blockStates[root], s.blocks[root].slot) else None
  }

  /**
    * What "weak" means. The question can be answered exactly when the block's committees
    * are known with all their offenders and no sum passes 64 bits; and then the block is
    * weak iff the stake behind it, with that of the equivocators of its slot, is below a
    * fifth of one slot's share of the active stake.
    */
  lemma HeadWeakMeaning(cfg: Config, s: StoreView, anchor: Root, state: BeaconState, root: Root)
    requires Readable(s) && Rooted(s.blocks, anchor) && MessagesKnown(s) && JustifiedState(s) == Some(state)
    ensures HeadWeak(cfg, s, root).Some? <==>
      && CommitteesOf(cfg, s, root).Some?
      && AllOffendersKnown(s, state, CommitteesOf(cfg, s, root).value)
      && ActiveStake(cfg.preset, state) <= U64_MAX
      && SlotShare(cfg.preset, state) * 20 <= U64_MAX
      && HeadStake(cfg, s, state, root, CommitteesOf(cfg, s, root).value) <= U64_MAX
    ensures HeadWeak(cfg, s, root).Some? ==>
      (HeadWeak(cfg, s, root).value <==>
       HeadStake(cfg, s, state, root, CommitteesOf(cfg, s, root).value)
       < CommitteeShare(cfg.preset, state, 20))
  {
    hide AttestationScore, HeadWeightUpTo, CommitteeFraction, Backing, CommitteesStake, ActiveStake, SlotShare;
    hide CommitteeShare, AllOffendersKnown, Rooted, MessagesKnown, Ordered;
    FractionIsShare(cfg.preset, state, REORG_HEAD_WEIGHT_THRESHOLD);
    if CommitteesOf(cfg, s, root).Some? {
      var committees := CommitteesOf(cfg, s, root).value;
      ScoreMeaning(cfg.preset, s, anchor, state, Node(root, Pending));
      var score := AttestationScore(cfg.preset, s, state, Node(root, Pending));
      if score.Some? {
        HeadWeightIsSum(s, state, score.value, committees, |committees|);
        assert committees[..|committees|] == committees;
      }
    }
  }

  // ---------------------------------------------------------------------------
  // The proposer boost
  // ---------------------------------------------------------------------------

  /** `r` is a timely second block by the proposer of `parent`, in `parent`'s slot. */
  predicate IsRival(s: StoreView, parent: Root, slot: Slot, r: Root)
    requires parent in s.blocks && s.blocks.Keys <= s.timeliness.Keys
  {
    && r in s.blocks && r != parent
    && s.blocks[r].proposerIndex == s.blocks[parent].proposerIndex
    && IsNextSlot(s.blocks[r].slot, slot)
    && s.timeliness[r].payloadAttestationTimely
  }

  /**
    * Whether the boost counts now. It is withheld only when the boosted block extends a
    * weak parent of the slot before whose proposer also published a timely rival.
    */
  ghost function BoostApplies(cfg: Config, s: StoreView): Option<bool>
    requires Readable(s)
  {
    if s.boostRoot == ZERO_ROOT then Some(false)
    else if s.boostRoot !in s.blocks || s.blocks[s.boostRoot].parentRoot !in s.blocks then None
    else
      var parent, slot := s.blocks[s.boostRoot].parentRoot, s.blocks[s.boostRoot].slot;
      if !IsNextSlot(s.blocks[parent].slot, slot) then Some(true)
      else
        var weak :- HeadWeak(cfg, s, parent);
        Some(!weak || forall r :: r in s.blocks ==> !IsRival(s, parent, slot, r))
  }

  /** The scan of the source: any order, stopping at the first rival. */
  method ShouldApplyProposerBoost(cfg: Config, s: StoreView) returns (applies: Option<bool>)
    requires Readable(s)
    ensures applies == BoostApplies(cfg, s)
  {
    hide HeadWeak;
    if s.boostRoot == ZERO_ROOT { return Some(false); }
    if s.boostRoot !in s.blocks { return None; }
    var parent, slot := s.blocks[s.boostRoot].parentRoot, s.blocks[s.boostRoot].slot;
    if parent !in s.blocks { return None; }
    if !IsNextSlot(s.blocks[parent].slot, slot) { return Some(true); }
    var weak := IsHeadWeak(cfg, s, parent);
    if weak.None? { return None; }
    if !weak.value { return Some(true); }
    hide Ordered;
    var todo := s.blocks.Keys;
    while todo != {}
      invariant todo <= s.blocks.Keys
      invariant forall r :: r in s.blocks.Keys - todo ==> !IsRival(s, parent, slot, r)
      decreases todo
    {
      var r :| r in todo;
      if IsRival(s, parent, slot, r) {
        return Some(false);
      }
      todo := todo - {r};
    }
    applies := Some(true);
  }

  /** The proposer of `parent` made another block of the slot before `slot`, in time for payload votes. */
  ghost predicate HasTimelyRival(s: StoreView, parent: Root, slot: Slot)
    requires parent in s.blocks && s.blocks.Keys <= s.timeliness.Keys
  {
    exists r :: r in s.blocks && r != parent && s.blocks[r].slot + 1 == slot
      && s.blocks[r].proposerIndex == s.blocks[parent].proposerIndex && s.timeliness[r].payloadAttestationTimely
  }

  lemma RivalMeaning(s: StoreView, parent: Root, slot: Slot)
    requires parent in s.blocks && s.blocks.Keys <= s.timeliness.Keys
    ensures (forall r :: r in s.blocks ==> !IsRival(s, parent, slot, r)) <==> !HasTimelyRival(s, parent, slot)
  {
    if HasTimelyRival(s, parent, slot) {
      var r :| r in s.blocks && r != parent && s.blocks[r].slot + 1 == slot
        && s.blocks[r].proposerIndex == s.blocks[parent].proposerIndex && s.timeliness[r].payloadAttestationTimely;
      assert IsRival(s, parent, slot, r);
    }
  }

  /**
    * The boost in plain sums: there is a boosted block, and its parent is not of the slot
    * before, or is not weak, or has no timely rival.
    */
  ghost predicate Boosted(cfg: Config, s: StoreView, state: BeaconState)
    requires Readable(s)
  {
    && s.boostRoot != ZERO_ROOT && s.boostRoot in s.blocks && s.blocks[s.boostRoot].parentRoot in s.blocks
    && var parent, slot := s.blocks[s.boostRoot].parentRoot, s.blocks[s.boostRoot].slot;
       || s.blocks[parent].slot + 1 != slot
       || (&& CommitteesOf(cfg, s, parent).Some?
           && HeadStake(cfg, s, state, parent, CommitteesOf(cfg, s, parent).value)
              >= CommitteeShare(cfg.preset, state, 20))
       || !HasTimelyRival(s, parent, slot)
  }

  lemma BoostMeaning(cfg: Config, s: StoreView, anchor: Root, state: BeaconState)
    requires Readable(s) && Rooted(s.blocks, anchor) && MessagesKnown(s) && JustifiedState(s) == Some(state)
    requires BoostApplies(cfg, s).Some?
    ensures BoostApplies(cfg, s).value <==> Boosted(cfg, s, state)
  {
    hide HeadWeak, HeadStake, CommitteeShare, CommitteesOf, Rooted, MessagesKnown, Ordered, IsRival;
    hide AllOffendersKnown, ActiveStake, SlotShare, HasTimelyRival;
    if s.boostRoot != ZERO_ROOT {
      RivalMeaning(s, s.blocks[s.boostRoot].parentRoot, s.blocks[s.boostRoot].slot);
      HeadWeakMeaning(cfg, s, anchor, state, s.blocks[s.boostRoot].parentRoot);
    }
  }

  // ---------------------------------------------------------------------------
  // Payload votes and the tie-break
  // ---------------------------------------------------------------------------

  function CountVotes(votes: VoteVector, expected: bool): nat {
    if votes == [] then 0
    else
      var last := |votes| - 1;
      CountVotes(votes[..last], expected) + if votes[last] == Some(expected) then 1 else 0
  }

  function VotesClear(votes: VoteVector, expected: bool, threshold: nat): bool {
    CountVotes(votes, expected) > threshold
  }

  function VoteThreshold(preset: Preset): nat {
    preset.PtcSize() / 2
  }

  function VoteVerdict(preset: Preset, s: StoreView, votes: map<Root, VoteVector>, root: Root, expected: bool)
    : Option<bool>
  {
    if root !in votes then None
    else if root !in s.payloads then Some(!expected)
    else Some(VotesClear(votes[root], expected, VoteThreshold(preset)))
  }

  function PayloadTimeliness(preset: Preset, s: StoreView, root: Root, timely: bool): Option<bool> {
    VoteVerdict(preset, s, s.timelinessVotes, root, timely)
  }

  function PayloadDataAvailability(preset: Preset, s: StoreView, root: Root, available: bool): Option<bool> {
    VoteVerdict(preset, s, s.availabilityVotes, root, available)
  }

  function IsPreviousSlotDecision(preset: Preset, s: StoreView, node: Node): Option<bool> {
    if node.root !in s.blocks then None
    else Some(IsNextSlot(s.blocks[node.root].slot, CurrentSlot(preset, s)) && node.status != Pending)
  }

  function ShouldExtendPayload(preset: Preset, s: StoreView, root: Root): Option<bool> {
    if root !in s.blocks || !IsNextSlot(s.blocks[root].slot, CurrentSlot(preset, s)) then None
    else if root !in s.payloads then Some(false)
    else
      var timely :- PayloadTimeliness(preset, s, root, true);
      var available :- PayloadDataAvailability(preset, s, root, true);
      if timely && available then Some(true)
      else if s.boostRoot == ZERO_ROOT then Some(true)
      else if s.boostRoot !in s.blocks then None
      else if s.blocks[s.boostRoot].parentRoot != root then Some(true)
      else
        var status :- ParentPayloadStatus(s.blocks, s.blocks[s.boostRoot]);
        Some(status == Full)
  }

  function StatusRank(preset: Preset, s: StoreView, node: Node): Option<nat> {
    var deciding :- IsPreviousSlotDecision(preset, s, node);
    if !deciding then Some(node.status.OrdinaryRank())
    else if node.status == Empty then Some(1)
    else
      var extend :- ShouldExtendPayload(preset, s, node.root);
      Some(if extend then 2 else 0)
  }

  // ---------------------------------------------------------------------------
  // Weight and key
  // ---------------------------------------------------------------------------

  /** Attestation score plus boost; a previous-slot decision has no weight of its own. */
  ghost function NodeWeight(cfg: Config, s: StoreView, node: Node): Option<U64>
    requires Readable(s)
  {
    var deciding :- IsPreviousSlotDecision(cfg.preset, s, node);
    if deciding then Some(0)
    else
      var state :- JustifiedState(s);
      var score :- AttestationScore(cfg.preset, s, state, node);
      var applies :- BoostApplies(cfg, s);
      if !applies then Some(score)
      else
        var below :- IsAncestor(s.blocks, Node(s.boostRoot, Pending), node);
        if !below then Some(score)
        else
          var boost :- ProposerScore(cfg.preset, s);
          CheckedAdd(score, boost)
  }

  method GetWeight(cfg: Config, s: StoreView, node: Node) returns (weight: Option<U64>)
    requires Readable(s)
    ensures weight == NodeWeight(cfg, s, node)
  {
    hide AttestationScore, BoostApplies, IsAncestor, ProposerScore;
    var deciding := IsPreviousSlotDecision(cfg.preset, s, node);
    if deciding.None? { return None; }
    if deciding.value { return Some(0); }
    var state := JustifiedState(s);
    if state.None? { return None; }
    var score := GetAttestationScore(cfg.preset, s, state.value, node);
    if score.None? { return None; }
    var applies := ShouldApplyProposerBoost(cfg, s);
    if applies.None? { return None; }
    if !applies.value { return score; }
    var below := IsAncestor(s.blocks, Node(s.boostRoot, Pending), node);
    if below.None? { return None; }
    if !below.value { return score; }
    var boost := ProposerScore(cfg.preset, s);
    if boost.None? { return None; }
    weight := CheckedAdd(score.value, boost.value);
  }

  /**
    * What a weight is, without walking or checked sums: nothing for a branch of the
    * previous slot, else the stake on the node, plus the boost where one applies and the
    * boosted block lies on the node's branch.
    */
  lemma WeightMeaning(cfg: Config, s: StoreView, anchor: Root, state: BeaconState, node: Node)
    requires Readable(s) && Rooted(s.blocks, anchor) && MessagesKnown(s) && node.root in s.blocks
    requires JustifiedState(s) == Some(state) && NodeWeight(cfg, s, node).Some?
    ensures NodeWeight(cfg, s, node).value ==
      if node.status != Pending && IsNextSlot(s.blocks[node.root].slot, CurrentSlot(cfg.preset, s)) then 0
      else
        Backing(cfg.preset, s, state, node)
        + if Boosted(cfg, s, state) && OnBranch(s.blocks, Node(s.boostRoot, Pending), node)
          then CommitteeShare(cfg.preset, state, 40) else 0
  {
    hide AttestationScore, BoostApplies, IsAncestor, CommitteeFraction, OnBranch, Backing, Boosted;
    hide CommitteeShare, ActiveStake, SlotShare, CurrentSlot, Rooted, MessagesKnown, Ordered;
    ScoreMeaning(cfg.preset, s, anchor, state, node);
    FractionIsShare(cfg.preset, state, PROPOSER_SCORE_BOOST);
    if BoostApplies(cfg, s).Some? {
      BoostMeaning(cfg, s, anchor, state);
      if BoostApplies(cfg, s).value {
        BoostedIsStored(cfg, s, state);
        IsAncestorMeaning(s.blocks, anchor, Node(s.boostRoot, Pending), node);
      }
    }
  }

  lemma BoostedIsStored(cfg: Config, s: StoreView, state: BeaconState)
    requires Readable(s) && Boosted(cfg, s, state)
    ensures s.boostRoot in s.blocks
  {
  }

  datatype Key = Key(weight: nat, root: Root, rank: nat) {
    predicate Less(other: Key) {
      || weight < other.weight
      || (weight == other.weight && root < other.root)
      || (weight == other.weight && root == other.root && rank < other.rank)
    }
  }

  ghost function SelectionKey(cfg: Config, s: StoreView, node: Node): Option<Key>
    requires Readable(s)
  {
    var weight :- NodeWeight(cfg, s, node);
    var rank :- StatusRank(cfg.preset, s, node);
    Some(Key(weight, node.root, rank))
  }

  method HeadSelectionKey(cfg: Config, s: StoreView, node: Node) returns (key: Option<Key>)
    requires Readable(s)
    ensures key == SelectionKey(cfg, s, node)
  {
    hide NodeWeight, StatusRank;
    var weight := GetWeight(cfg, s, node);
    if weight.None? { return None; }
    var rank := StatusRank(cfg.preset, s, node);
    if rank.None? { return None; }
    key := Some(Key(weight.value, node.root, rank.value));
  }

  /** The empty and the full branch of one block never rank alike. */
  lemma BranchRanksDiffer(preset: Preset, s: StoreView, root: Root)
    requires StatusRank(preset, s, Node(root, Empty)).Some? && StatusRank(preset, s, Node(root, Full)).Some?
    ensures StatusRank(preset, s, Node(root, Empty)) != StatusRank(preset, s, Node(root, Full))
  {
    hide ShouldExtendPayload;
  }

  /** Siblings of the expansion always have different keys. */
  lemma SiblingKeysDiffer(cfg: Config, s: StoreView, tree: Blocks, node: Node, c: Node, d: Node)
    requires Readable(s)
    requires c in Children(s, tree, node) && d in Children(s, tree, node) && c != d
    requires SelectionKey(cfg, s, c).Some? && SelectionKey(cfg, s, d).Some?
    ensures SelectionKey(cfg, s, c) != SelectionKey(cfg, s, d)
    ensures SelectionKey(cfg, s, c).value.Less(SelectionKey(cfg, s, d).value)
         || SelectionKey(cfg, s, d).value.Less(SelectionKey(cfg, s, c).value)
  {
    hide NodeWeight, StatusRank;
    if c.root == d.root {
      BranchRanksDiffer(cfg.preset, s, c.root);
    }
  }
}
