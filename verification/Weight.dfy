/**
  * Scoring a node. The loops add up balances with checked arithmetic; `Stake` is the
  * plain sum they compute, and the votes below a node never exceed the node's own.
  */
module Weight {
  import opened Primitives
  import opened ForkChoiceTypes
  import opened Ancestry
  import opened Electorate
  import opened Expansion

  const PROPOSER_SCORE_BOOST: nat := 40
  const REORG_HEAD_WEIGHT_THRESHOLD: nat := 20
  const EFFECTIVE_BALANCE_INCREMENT: U64 := 1_000_000_000

  predicate IsActive(v: Validator, epoch: Epoch) {
    v.activationEpoch <= epoch < v.exitEpoch
  }

  predicate InRegistry(state: BeaconState, indices: seq<ValidatorIndex>) {
    forall k :: 0 <= k < |indices| ==> indices[k] < |state.validators|
  }

  /** The active validators among the first `n`, in order. */
  function ActiveUpTo(state: BeaconState, epoch: Epoch, n: nat): (indices: seq<ValidatorIndex>)
    requires n <= |state.validators|
    ensures InRegistry(state, indices)
  {
    if n == 0 then []
    else ActiveUpTo(state, epoch, n - 1) + if IsActive(state.validators[n - 1], epoch) then [n - 1] else []
  }

  function Unslashed(state: BeaconState, indices: seq<ValidatorIndex>): (kept: seq<ValidatorIndex>)
    requires InRegistry(state, indices)
    ensures InRegistry(state, kept)
  {
    if indices == [] then []
    else
      var last := indices[|indices| - 1];
      Unslashed(state, indices[..|indices| - 1]) + if state.validators[last].slashed then [] else [last]
  }

  /** The validators whose votes are counted against `state`. */
  function Candidates(preset: Preset, state: BeaconState): (indices: seq<ValidatorIndex>)
    ensures InRegistry(state, indices)
  {
    Unslashed(state, ActiveUpTo(state, preset.Epoch(state.slot), |state.validators|))
  }

  function SupportedNode(blocks: Blocks, message: LatestMessage): Option<Node> {
    if message.root !in blocks then None
    else Some(Node(message.root, message.SupportedPayloadStatus(blocks[message.root].slot)))
  }

  /** Whether the vote of validator `v` counts toward `node`. */
  function VoteCounts(s: StoreView, v: ValidatorIndex, node: Node): Option<bool>
    requires Ordered(s.blocks)
  {
    if v !in s.latestMessages || v in s.equivocating then Some(false)
    else
      var supported :- SupportedNode(s.blocks, s.latestMessages[v]);
      IsAncestor(s.blocks, supported, node)
  }

  /** The running total after the first `k` candidates. */
  function ScoreUpTo(s: StoreView, state: BeaconState, node: Node, candidates: seq<ValidatorIndex>, k: nat)
    : Option<U64>
    requires Ordered(s.blocks) && k <= |candidates|
    requires InRegistry(state, candidates)
  {
    if k == 0 then Some(0)
    else
      var total :- ScoreUpTo(s, state, node, candidates, k - 1);
      var counts :- VoteCounts(s, candidates[k - 1], node);
      if counts then CheckedAdd(total, state.validators[candidates[k - 1]].effectiveBalance) else Some(total)
  }

  function AttestationScore(preset: Preset, s: StoreView, state: BeaconState, node: Node): Option<U64>
    requires Ordered(s.blocks)
  {
    var candidates := Candidates(preset, state);
    ScoreUpTo(s, state, node, candidates, |candidates|)
  }

  method GetAttestationScore(preset: Preset, s: StoreView, state: BeaconState, node: Node)
    returns (score: Option<U64>)
    requires Ordered(s.blocks)
    ensures score == AttestationScore(preset, s, state, node)
  {
    hide VoteCounts;
    var candidates := Candidates(preset, state);
    var total: U64 := 0;
    for k := 0 to |candidates|
      invariant ScoreUpTo(s, state, node, candidates, k) == Some(total)
    {
      var counts := VoteCounts(s, candidates[k], node);
      if counts.None? {
        ScoreStaysNone(s, state, node, candidates, k + 1, |candidates|);
        return None;
      }
      if !counts.value {
        continue;
      }
      var next := CheckedAdd(total, state.validators[candidates[k]].effectiveBalance);
      if next.None? {
        ScoreStaysNone(s, state, node, candidates, k + 1, |candidates|);
        return None;
      }
      total := next.value;
    }
    score := Some(total);
  }

  lemma ScoreStaysNone(
    s: StoreView, state: BeaconState, node: Node, candidates: seq<ValidatorIndex>, k: nat, n: nat)
    requires Ordered(s.blocks) && k <= n <= |candidates|
    requires InRegistry(state, candidates)
    requires ScoreUpTo(s, state, node, candidates, k).None?
    ensures ScoreUpTo(s, state, node, candidates, n).None?
  {
    hide VoteCounts;
    if k < n {
      ScoreStaysNone(s, state, node, candidates, k, n - 1);
    }
  }

  // ---------------------------------------------------------------------------
  // Vote conservation
  // ---------------------------------------------------------------------------

  ghost predicate MessagesKnown(s: StoreView) {
    forall v :: v in s.latestMessages ==> s.latestMessages[v].root in s.blocks
  }

  ghost predicate Supports(s: StoreView, v: ValidatorIndex, node: Node)
    requires Ordered(s.blocks)
  {
    VoteCounts(s, v, node) == Some(true)
  }

  /** The stake behind `node` among `candidates`, as a plain sum. */
  ghost function Stake(s: StoreView, state: BeaconState, node: Node, candidates: seq<ValidatorIndex>): nat
    requires Ordered(s.blocks)
  {
    if candidates == [] then 0
    else
      var last := candidates[|candidates| - 1];
      Stake(s, state, node, candidates[..|candidates| - 1])
      + if Supports(s, last, node) then Balance(state, last) else 0
  }

  ghost function TotalStake(state: BeaconState, candidates: seq<ValidatorIndex>): nat {
    if candidates == [] then 0
    else TotalStake(state, candidates[..|candidates| - 1]) + Balance(state, candidates[|candidates| - 1])
  }

  ghost function StakeOfAll(s: StoreView, state: BeaconState, nodes: seq<Node>, candidates: seq<ValidatorIndex>): nat
    requires Ordered(s.blocks)
  {
    if nodes == [] then 0
    else StakeOfAll(s, state, nodes[1..], candidates) + Stake(s, state, nodes[0], candidates)
  }

  /** What one vote adds to the total over `nodes`. */
  ghost function OneVote(s: StoreView, state: BeaconState, nodes: seq<Node>, v: ValidatorIndex): nat
    requires Ordered(s.blocks)
  {
    if nodes == [] then 0
    else OneVote(s, state, nodes[1..], v) + if Supports(s, v, nodes[0]) then Balance(state, v) else 0
  }

  lemma ChildBelowNode(s: StoreView, tree: Blocks, top: Root, node: Node, child: Node)
    requires Ordered(s.blocks) && TreeUnder(s, tree, top) && node.root in s.blocks
    requires child in Children(s, tree, node)
    ensures IsAncestor(s.blocks, child, node) == Some(true)
  {
    hide Descends;
    var blocks := s.blocks;
    if node.status != Pending {
      assert blocks[child.root].parentRoot == node.root;
      assert blocks[node.root].slot < blocks[child.root].slot;
      assert Ancestor(blocks, node, blocks[node.root].slot) == Some(node);
    }
  }

  /** A vote for a child is a vote for its parent node. */
  lemma SupportingChildSupportsNode(s: StoreView, tree: Blocks, top: Root, v: ValidatorIndex, node: Node, child: Node)
    requires Ordered(s.blocks) && TreeUnder(s, tree, top) && node.root in s.blocks
    requires child in Children(s, tree, node) && Supports(s, v, child)
    ensures Supports(s, v, node)
  {
    hide IsAncestor, TreeUnder, Children;
    ChildBelowNode(s, tree, top, node, child);
    IsAncestorTransitive(s.blocks, SupportedNode(s.blocks, s.latestMessages[v]).value, child, node);
  }

  /** A vote supports at most one child of any node. */
  lemma SupportsAtMostOneChild(
    s: StoreView, tree: Blocks, top: Root, v: ValidatorIndex, node: Node, c: Node, d: Node)
    requires Ordered(s.blocks) && TreeUnder(s, tree, top) && node.root in s.blocks
    requires c in Children(s, tree, node) && d in Children(s, tree, node)
    requires Supports(s, v, c) && Supports(s, v, d)
    ensures c == d
  {
    hide Descends;
    var low := SupportedNode(s.blocks, s.latestMessages[v]).value;
    AncestorDescends(s.blocks, low, s.blocks[c.root].slot);
    AncestorDescends(s.blocks, low, s.blocks[d.root].slot);
    if node.status != Pending {
      SiblingsDisjoint(s.blocks, low.root, c.root, d.root);
    }
  }

  lemma {:induction false} OneVoteBounded(
    s: StoreView, state: BeaconState, tree: Blocks, top: Root, node: Node, nodes: seq<Node>, v: ValidatorIndex)
    requires Ordered(s.blocks) && TreeUnder(s, tree, top) && node.root in s.blocks
    requires Distinct(nodes) && forall n :: n in nodes ==> n in Children(s, tree, node)
    ensures OneVote(s, state, nodes, v) <= if Supports(s, v, node) then Balance(state, v) else 0
    ensures (forall n :: n in nodes ==> !Supports(s, v, n)) ==> OneVote(s, state, nodes, v) == 0
  {
    hide TreeUnder, Children, Supports, Balance;
    if nodes != [] {
      OneVoteBounded(s, state, tree, top, node, nodes[1..], v);
      if Supports(s, v, nodes[0]) {
        SupportingChildSupportsNode(s, tree, top, v, node, nodes[0]);
        forall n | n in nodes[1..]
          ensures !Supports(s, v, n)
        {
          if Supports(s, v, n) {
            SupportsAtMostOneChild(s, tree, top, v, node, nodes[0], n);
          }
        }
      }
    }
  }

  lemma {:induction false} StakeOfAllAddsOneVote(
    s: StoreView, state: BeaconState, nodes: seq<Node>, candidates: seq<ValidatorIndex>)
    requires Ordered(s.blocks) && candidates != []
    ensures StakeOfAll(s, state, nodes, candidates) ==
      StakeOfAll(s, state, nodes, candidates[..|candidates| - 1])
      + OneVote(s, state, nodes, candidates[|candidates| - 1])
  {
    hide Supports, Balance;
    if nodes != [] {
      StakeOfAllAddsOneVote(s, state, nodes[1..], candidates);
    }
  }

  /** Vote conservation: the children of a node share out no more than its own stake. */
  lemma {:induction false} ChildrenShareStake(
    s: StoreView, state: BeaconState, tree: Blocks, top: Root, node: Node, nodes: seq<Node>,
    candidates: seq<ValidatorIndex>)
    requires Ordered(s.blocks) && TreeUnder(s, tree, top) && node.root in s.blocks
    requires Distinct(nodes) && forall n :: n in nodes ==> n in Children(s, tree, node)
    ensures StakeOfAll(s, state, nodes, candidates) <= Stake(s, state, node, candidates)
    decreases |candidates|
  {
    hide TreeUnder, Children, Supports, Balance, StakeOfAll;
    if candidates == [] {
      NoStakeWithoutCandidates(s, state, nodes);
    } else {
      ChildrenShareStake(s, state, tree, top, node, nodes, candidates[..|candidates| - 1]);
      StakeOfAllAddsOneVote(s, state, nodes, candidates);
      OneVoteBounded(s, state, tree, top, node, nodes, candidates[|candidates| - 1]);
    }
  }

  lemma {:induction false} NoStakeWithoutCandidates(s: StoreView, state: BeaconState, nodes: seq<Node>)
    requires Ordered(s.blocks)
    ensures StakeOfAll(s, state, nodes, []) == 0
  {
    if nodes != [] {
      NoStakeWithoutCandidates(s, state, nodes[1..]);
    }
  }

  /** On a rooted store the checked loop returns the plain sum whenever that fits. */
  lemma {:induction false} ScoreIsStake(
    s: StoreView, anchor: Root, state: BeaconState, node: Node, candidates: seq<ValidatorIndex>, k: nat)
    requires Ordered(s.blocks) && Rooted(s.blocks, anchor) && MessagesKnown(s)
    requires node.root in s.blocks && k <= |candidates|
    requires InRegistry(state, candidates)
    ensures Stake(s, state, node, candidates[..k]) <= U64_MAX ==>
      ScoreUpTo(s, state, node, candidates, k) == Some(Stake(s, state, node, candidates[..k]))
    ensures Stake(s, state, node, candidates[..k]) > U64_MAX ==>
      ScoreUpTo(s, state, node, candidates, k).None?
  {
    if k > 0 {
      ScoreIsStake(s, anchor, state, node, candidates, k - 1);
      VoteAlwaysDecided(s, anchor, candidates[k - 1], node);
      hide Rooted, MessagesKnown, VoteCounts;
      assert candidates[..k][..k - 1] == candidates[..k - 1];
    }
  }

  lemma VoteAlwaysDecided(s: StoreView, anchor: Root, v: ValidatorIndex, node: Node)
    requires Ordered(s.blocks) && Rooted(s.blocks, anchor) && MessagesKnown(s) && node.root in s.blocks
    ensures VoteCounts(s, v, node).Some?
  {
    if v in s.latestMessages {
      var m := s.latestMessages[v];
      IsAncestorTotal(s.blocks, anchor, SupportedNode(s.blocks, m).value, node);
    }
  }

  /** The sum of the scores the loop returns for `nodes`. */
  ghost function ScoreOfAll(preset: Preset, s: StoreView, state: BeaconState, nodes: seq<Node>): Option<nat>
    requires Ordered(s.blocks)
  {
    if nodes == [] then Some(0)
    else
      var rest :- ScoreOfAll(preset, s, state, nodes[1..]);
      var first :- AttestationScore(preset, s, state, nodes[0]);
      Some(rest + first)
  }

  // ---------------------------------------------------------------------------
  // The sums as sets
  // ---------------------------------------------------------------------------

  ghost predicate NoRepeats(indices: seq<ValidatorIndex>) {
    forall i, j :: 0 <= i < j < |indices| ==> indices[i] != indices[j]
  }

  ghost function Members(indices: seq<ValidatorIndex>): set<ValidatorIndex> {
    set v | v in indices
  }

  ghost function Supporters(s: StoreView, node: Node, indices: seq<ValidatorIndex>): set<ValidatorIndex>
    requires Ordered(s.blocks)
  {
    set v | v in indices && Supports(s, v, node)
  }

  lemma {:induction false} ActiveMembers(state: BeaconState, epoch: Epoch, n: nat)
    requires n <= |state.validators|
    ensures NoRepeats(ActiveUpTo(state, epoch, n))
    ensures forall v :: v in ActiveUpTo(state, epoch, n) <==>
      0 <= v < n && state.validators[v].activationEpoch <= epoch < state.validators[v].exitEpoch
  {
    if n > 0 {
      ActiveMembers(state, epoch, n - 1);
    }
  }

  lemma {:induction false} UnslashedMembers(state: BeaconState, indices: seq<ValidatorIndex>)
    requires InRegistry(state, indices)
    ensures forall v :: v in Unslashed(state, indices) <==> v in indices && !state.validators[v].slashed
    ensures NoRepeats(indices) ==> NoRepeats(Unslashed(state, indices))
  {
    if indices != [] {
      var front, last := indices[..|indices| - 1], indices[|indices| - 1];
      UnslashedMembers(state, front);
      assert indices == front + [last];
      assert NoRepeats(indices) ==> last !in front && NoRepeats(front);
    }
  }

  /** The candidates are exactly the active, unslashed validators, each once. */
  lemma CandidatesAreVoters(preset: Preset, state: BeaconState)
    ensures forall v :: v in Candidates(preset, state) <==>
      && 0 <= v < |state.validators| && !state.validators[v].slashed
      && state.validators[v].activationEpoch <= preset.Epoch(state.slot) < state.validators[v].exitEpoch
    ensures NoRepeats(Candidates(preset, state))
    ensures Members(Candidates(preset, state)) == Voters(preset, state)
  {
    hide ActiveUpTo, Unslashed;
    var active := ActiveUpTo(state, preset.Epoch(state.slot), |state.validators|);
    ActiveMembers(state, preset.Epoch(state.slot), |state.validators|);
    UnslashedMembers(state, active);
  }

  lemma {:induction false} TotalIsBalance(state: BeaconState, indices: seq<ValidatorIndex>)
    requires NoRepeats(indices)
    ensures TotalStake(state, indices) == BalanceOf(state, Members(indices))
  {
    hide BalanceOf, Balance;
    if indices == [] {
      assert Members(indices) == {};
      NobodyHolds(state);
    } else {
      var front, last := indices[..|indices| - 1], indices[|indices| - 1];
      TotalIsBalance(state, front);
      assert indices == front + [last];
      assert Members(indices) == Members(front) + {last};
      BalanceWith(state, Members(front), last);
    }
  }

  lemma NobodyHolds(state: BeaconState)
    ensures BalanceOf(state, {}) == 0
  {
  }

  lemma {:induction false} StakeIsBalance(
    s: StoreView, state: BeaconState, node: Node, indices: seq<ValidatorIndex>)
    requires Ordered(s.blocks) && NoRepeats(indices)
    ensures Stake(s, state, node, indices) == BalanceOf(state, Supporters(s, node, indices))
    decreases |indices|
  {
    hide BalanceOf, Balance, Supports;
    if indices == [] {
      assert Supporters(s, node, indices) == {};
      NobodyHolds(state);
    } else {
      var front, last := indices[..|indices| - 1], indices[|indices| - 1];
      StakeIsBalance(s, state, node, front);
      assert indices == front + [last];
      var before := Supporters(s, node, front);
      if Supports(s, last, node) {
        assert Supporters(s, node, indices) == before + {last};
        BalanceWith(state, before, last);
      } else {
        assert Supporters(s, node, indices) == before;
      }
    }
  }

  /** A vote counts exactly when it is on the node's branch. */
  lemma SupportsIsVotesFor(s: StoreView, anchor: Root, v: ValidatorIndex, node: Node)
    requires Ordered(s.blocks) && Rooted(s.blocks, anchor) && MessagesKnown(s) && node.root in s.blocks
    ensures Supports(s, v, node) <==> VotesFor(s, v, node)
  {
    hide Ordered, Rooted, IsAncestor, OnBranch;
    if v in s.latestMessages {
      IsAncestorMeaning(s.blocks, anchor, SupportedNode(s.blocks, s.latestMessages[v]).value, node);
    }
  }

  lemma StakeIsBacking(preset: Preset, s: StoreView, anchor: Root, state: BeaconState, node: Node)
    requires Ordered(s.blocks) && Rooted(s.blocks, anchor) && MessagesKnown(s) && node.root in s.blocks
    ensures Stake(s, state, node, Candidates(preset, state)) == Backing(preset, s, state, node)
  {
    hide Ordered, Rooted, MessagesKnown, Candidates, Stake, Supports, VotesFor, BalanceOf, Voters;
    var candidates := Candidates(preset, state);
    CandidatesAreVoters(preset, state);
    StakeIsBalance(s, state, node, candidates);
    forall v
      ensures Supports(s, v, node) <==> VotesFor(s, v, node)
    {
      SupportsIsVotesFor(s, anchor, v, node);
    }
    assert forall v :: v in Voters(preset, state) <==> v in candidates;
    assert Supporters(s, node, candidates) == Backers(preset, s, state, node);
  }

  lemma TotalIsActiveStake(preset: Preset, state: BeaconState)
    ensures TotalStake(state, ActiveUpTo(state, preset.Epoch(state.slot), |state.validators|))
      == BalanceOf(state, ActiveValidators(preset, state))
  {
    hide ActiveUpTo, TotalStake, BalanceOf;
    var active := ActiveUpTo(state, preset.Epoch(state.slot), |state.validators|);
    ActiveMembers(state, preset.Epoch(state.slot), |state.validators|);
    TotalIsBalance(state, active);
    assert Members(active) == ActiveValidators(preset, state);
  }

  /**
    * What a score is: the balance of the active, unslashed validators whose latest vote is
    * on the node's branch. It is refused exactly when that passes 64 bits.
    */
  lemma ScoreMeaning(preset: Preset, s: StoreView, anchor: Root, state: BeaconState, node: Node)
    requires Ordered(s.blocks) && Rooted(s.blocks, anchor) && MessagesKnown(s) && node.root in s.blocks
    ensures AttestationScore(preset, s, state, node).Some? <==> Backing(preset, s, state, node) <= U64_MAX
    ensures AttestationScore(preset, s, state, node).Some? ==>
      AttestationScore(preset, s, state, node).value == Backing(preset, s, state, node)
  {
    hide Ordered, Rooted, MessagesKnown, Stake, Candidates, ScoreUpTo, Backing;
    var candidates := Candidates(preset, state);
    ScoreIsStake(s, anchor, state, node, candidates, |candidates|);
    StakeIsBacking(preset, s, anchor, state, node);
    assert candidates[..|candidates|] == candidates;
  }

  /** The score of a node, with no failure left once all voting stake fits 64 bits. */
  lemma ScoreNeverFails(preset: Preset, s: StoreView, anchor: Root, state: BeaconState, node: Node)
    requires Ordered(s.blocks) && Rooted(s.blocks, anchor) && MessagesKnown(s) && node.root in s.blocks
    requires VotingStake(preset, state) <= U64_MAX
    ensures AttestationScore(preset, s, state, node) == Some(Backing(preset, s, state, node))
  {
    hide Ordered, Rooted, MessagesKnown, AttestationScore, Backing, VotingStake;
    ScoreMeaning(preset, s, anchor, state, node);
    BackingWithinVoting(preset, s, state, node);
  }

  /**
    * Vote conservation for the scores the source computes: whenever total stake fits 64
    * bits, no score fails and the children's scores sum to at most the node's own.
    */
  lemma ScoresConserved(
    preset: Preset, s: StoreView, anchor: Root, state: BeaconState, tree: Blocks, top: Root, node: Node,
    nodes: seq<Node>)
    requires Ordered(s.blocks) && Rooted(s.blocks, anchor) && MessagesKnown(s)
    requires TreeUnder(s, tree, top) && node.root in s.blocks
    requires Distinct(nodes) && forall n :: n in nodes ==> n in Children(s, tree, node)
    requires VotingStake(preset, state) <= U64_MAX
    ensures AttestationScore(preset, s, state, node).Some? && ScoreOfAll(preset, s, state, nodes).Some?
    ensures ScoreOfAll(preset, s, state, nodes).value <= AttestationScore(preset, s, state, node).value
  {
    hide Rooted, MessagesKnown, TreeUnder, Children, Candidates, AttestationScore, Stake, StakeOfAll, VotingStake;
    hide Backing;
    ScoreNeverFails(preset, s, anchor, state, node);
    StakeIsBacking(preset, s, anchor, state, node);
    ScoresAreStakes(preset, s, anchor, state, tree, top, node, nodes);
    ChildrenShareStake(s, state, tree, top, node, nodes, Candidates(preset, state));
  }

  lemma {:induction false} ScoresAreStakes(
    preset: Preset, s: StoreView, anchor: Root, state: BeaconState, tree: Blocks, top: Root, node: Node,
    nodes: seq<Node>)
    requires Ordered(s.blocks) && Rooted(s.blocks, anchor) && MessagesKnown(s)
    requires TreeUnder(s, tree, top) && node.root in s.blocks
    requires forall n :: n in nodes ==> n in Children(s, tree, node)
    requires VotingStake(preset, state) <= U64_MAX
    ensures ScoreOfAll(preset, s, state, nodes) == Some(StakeOfAll(s, state, nodes, Candidates(preset, state)))
  {
    hide Rooted, MessagesKnown, TreeUnder, Children, Candidates, AttestationScore, Stake, VotingStake, Backing;
    if nodes != [] {
      ScoresAreStakes(preset, s, anchor, state, tree, top, node, nodes[1..]);
      StepGoesDeeper(s, tree, top, node, nodes[0]);
      ScoreNeverFails(preset, s, anchor, state, nodes[0]);
      StakeIsBacking(preset, s, anchor, state, nodes[0]);
    }
  }
}
