/**
  * Who counts, and what their votes weigh, with no loop and no order: sets of validators
  * read off the registry and the vote table, and the balance such a set holds.
  */
module Electorate {
  import opened Primitives
  import opened ForkChoiceTypes
  import opened Ancestry

  ghost function Balance(state: BeaconState, v: ValidatorIndex): nat {
    if v < |state.validators| then state.validators[v].effectiveBalance else 0
  }

  /** The balance a set of validators holds together. */
  ghost function BalanceOf(state: BeaconState, vs: set<ValidatorIndex>): nat {
    if vs == {} then 0
    else
      var v :| v in vs;
      Balance(state, v) + BalanceOf(state, vs - {v})
  }

  lemma {:induction false} BalanceWithout(state: BeaconState, vs: set<ValidatorIndex>, v: ValidatorIndex)
    requires v in vs
    ensures BalanceOf(state, vs) == Balance(state, v) + BalanceOf(state, vs - {v})
    decreases |vs|
  {
    hide Balance;
    var w :| w in vs && BalanceOf(state, vs) == Balance(state, w) + BalanceOf(state, vs - {w});
    if w != v {
      BalanceWithout(state, vs - {w}, v);
      BalanceWithout(state, vs - {v}, w);
      assert vs - {w} - {v} == vs - {v} - {w};
    }
  }

  lemma BalanceWith(state: BeaconState, vs: set<ValidatorIndex>, v: ValidatorIndex)
    requires v !in vs
    ensures BalanceOf(state, vs + {v}) == BalanceOf(state, vs) + Balance(state, v)
  {
    BalanceWithout(state, vs + {v}, v);
    assert vs + {v} - {v} == vs;
  }

  lemma {:induction false} BalanceGrows(state: BeaconState, few: set<ValidatorIndex>, many: set<ValidatorIndex>)
    requires few <= many
    ensures BalanceOf(state, few) <= BalanceOf(state, many)
    decreases |many|
  {
    hide BalanceOf;
    if v :| v in many && v !in few {
      BalanceGrows(state, few, many - {v});
      BalanceWithout(state, many, v);
    } else {
      assert few == many;
    }
  }

  /** The validators active in the epoch of `state`. */
  ghost function ActiveValidators(preset: Preset, state: BeaconState): set<ValidatorIndex> {
    var epoch := preset.Epoch(state.slot);
    set v | 0 <= v < |state.validators|
         && state.validators[v].activationEpoch <= epoch < state.validators[v].exitEpoch
  }

  /** Those of them who are not slashed: their votes count. */
  ghost function Voters(preset: Preset, state: BeaconState): set<ValidatorIndex> {
    var epoch := preset.Epoch(state.slot);
    set v | 0 <= v < |state.validators|
         && state.validators[v].activationEpoch <= epoch < state.validators[v].exitEpoch
         && !state.validators[v].slashed
  }

  /**
    * The latest vote of `v` is on the branch of `node`. A vote for a slot after its block's
    * takes a side on that block's payload; one for the block's own slot does not.
    */
  ghost predicate VotesFor(s: StoreView, v: ValidatorIndex, node: Node)
    requires Ordered(s.blocks)
  {
    && v !in s.equivocating && v in s.latestMessages
    && var m := s.latestMessages[v];
       && m.root in s.blocks
       && var status := if m.slot <= s.blocks[m.root].slot then Pending else if m.payloadPresent then Full else Empty;
          OnBranch(s.blocks, Node(m.root, status), node)
  }

  ghost function Backers(preset: Preset, s: StoreView, state: BeaconState, node: Node): set<ValidatorIndex>
    requires Ordered(s.blocks)
  {
    set v | v in Voters(preset, state) && VotesFor(s, v, node)
  }

  /** The stake behind `node`. */
  ghost function Backing(preset: Preset, s: StoreView, state: BeaconState, node: Node): nat
    requires Ordered(s.blocks)
  {
    BalanceOf(state, Backers(preset, s, state, node))
  }

  /** The stake of all voters. */
  ghost function VotingStake(preset: Preset, state: BeaconState): nat {
    BalanceOf(state, Voters(preset, state))
  }

  lemma BackingWithinVoting(preset: Preset, s: StoreView, state: BeaconState, node: Node)
    requires Ordered(s.blocks)
    ensures Backing(preset, s, state, node) <= VotingStake(preset, state)
  {
    hide VotesFor, Voters, BalanceOf;
    BalanceGrows(state, Backers(preset, s, state, node), Voters(preset, state));
  }
}
