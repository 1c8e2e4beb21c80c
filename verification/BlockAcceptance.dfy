/**
  * Exactly when a block is accepted. Beyond the admission checks, the transition and the
  * head, an import can only fail on a payload vote the block carries, on the duty window
  * of its boost, or on its pulled-up tip.
  */
module BlockAcceptance {
  import opened Primitives
  import opened ForkChoiceTypes
  import opened Ancestry
  import opened Clock
  import opened Filter
  import opened Expansion
  import opened HeadKey
  import opened HeadWalk
  import opened Columns
  import opened Handlers
  import opened StoreInvariant
  import opened BlockInvariant
  import opened StoreRuns

  // ---------------------------------------------------------------------------
  // Carried payload votes
  // ---------------------------------------------------------------------------

  /** Every seat `v` holds in the committee of `slot` has a cell in `votes`. */
  ghost predicate SeatsIn(preset: Preset, state: BeaconState, slot: Slot, v: ValidatorIndex, votes: nat) {
    && PtcPositions(preset, state, slot, v).Some?
    && var positions := PtcPositions(preset, state, slot, v).value;
       forall i :: 0 <= i < |positions| ==> positions[i] < votes
  }

  /** The store knows the block voted on, and has cells for the vote unless it is ignored. */
  ghost predicate VoteFits(cfg: Config, s: StoreView, data: PayloadAttestationData, v: ValidatorIndex) {
    var root := data.beaconBlockRoot;
    && root in s.blockStates
    && (data.slot == s.blockStates[root].slot ==>
          && root in s.timelinessVotes && root in s.availabilityVotes
          && SeatsIn(cfg.preset, s.blockStates[root], data.slot, v, |s.timelinessVotes[root]|)
          && SeatsIn(cfg.preset, s.blockStates[root], data.slot, v, |s.availabilityVotes[root]|))
  }

  /** The aggregate expands, and each of its voters fits. */
  ghost predicate AggregateFits(cfg: Config, s: StoreView, state: BeaconState, a: PayloadAttestation) {
    && cfg.rules.payloadAttesters(state, a).Some?
    && var voters := cfg.rules.payloadAttesters(state, a).value;
       forall j :: 0 <= j < |voters| ==> VoteFits(cfg, s, a.data, voters[j])
  }

  ghost predicate AggregatesFit(
    cfg: Config, s: StoreView, state: BeaconState, aggregates: seq<PayloadAttestation>, k: nat)
    requires k <= |aggregates|
  {
    forall i :: 0 <= i < k ==> AggregateFits(cfg, s, state, aggregates[i])
  }

  /** Same states, and vote vectors for the same blocks and of the same lengths. */
  ghost predicate SameCells(s: StoreView, t: StoreView) {
    && t.blockStates == s.blockStates
    && t.timelinessVotes.Keys == s.timelinessVotes.Keys && t.availabilityVotes.Keys == s.availabilityVotes.Keys
    && (forall r :: r in s.timelinessVotes ==> |t.timelinessVotes[r]| == |s.timelinessVotes[r]|)
    && (forall r :: r in s.availabilityVotes ==> |t.availabilityVotes[r]| == |s.availabilityVotes[r]|)
  }

  lemma CellsDecide(cfg: Config, s: StoreView, t: StoreView, data: PayloadAttestationData, v: ValidatorIndex)
    requires SameCells(s, t)
    ensures VoteFits(cfg, t, data, v) <==> VoteFits(cfg, s, data, v)
  {
    hide SeatsIn;
  }

  lemma VotesInRange(votes: VoteVector, positions: seq<nat>, value: bool)
    ensures WithVotes(votes, positions, value).Some? <==>
      forall i :: 0 <= i < |positions| ==> positions[i] < |votes|
    ensures WithVotes(votes, positions, value).Some? ==> |WithVotes(votes, positions, value).value| == |votes|
  {
  }

  /** A carried vote is taken iff it fits, and moves no cell. */
  lemma VoteDecided(cfg: Config, s: StoreView, data: PayloadAttestationData, v: ValidatorIndex)
    ensures OnPtcMessage(cfg, s, PtcMessage(v, data, 0), true).Some? <==> VoteFits(cfg, s, data, v)
    ensures OnPtcMessage(cfg, s, PtcMessage(v, data, 0), true).Some? ==>
      SameCells(s, OnPtcMessage(cfg, s, PtcMessage(v, data, 0), true).value)
  {
    hide WithVotes, PtcPositions, CurrentSlot;
    var root := data.beaconBlockRoot;
    if root in s.blockStates && root in s.timelinessVotes && root in s.availabilityVotes {
      var positions := PtcPositions(cfg.preset, s.blockStates[root], data.slot, v);
      if positions.Some? {
        VotesInRange(s.timelinessVotes[root], positions.value, data.payloadPresent);
        VotesInRange(s.availabilityVotes[root], positions.value, data.blobDataAvailable);
      }
    }
  }

  lemma {:induction false} VotersDecided(
    cfg: Config, s: StoreView, data: PayloadAttestationData, voters: seq<ValidatorIndex>, k: nat)
    requires k <= |voters|
    ensures NotifyVoters(cfg, s, data, voters, k).Some? <==>
      forall j :: 0 <= j < k ==> VoteFits(cfg, s, data, voters[j])
    ensures NotifyVoters(cfg, s, data, voters, k).Some? ==> SameCells(s, NotifyVoters(cfg, s, data, voters, k).value)
  {
    hide OnPtcMessage, VoteFits;
    if k > 0 {
      VotersDecided(cfg, s, data, voters, k - 1);
      var before := NotifyVoters(cfg, s, data, voters, k - 1);
      if before.Some? {
        VoteDecided(cfg, before.value, data, voters[k - 1]);
        CellsDecide(cfg, s, before.value, data, voters[k - 1]);
      }
    }
  }

  lemma AggregateSame(cfg: Config, s: StoreView, t: StoreView, state: BeaconState, a: PayloadAttestation)
    requires SameCells(s, t)
    ensures AggregateFits(cfg, t, state, a) <==> AggregateFits(cfg, s, state, a)
  {
    hide VoteFits, SameCells;
    if cfg.rules.payloadAttesters(state, a).Some? {
      var voters := cfg.rules.payloadAttesters(state, a).value;
      forall j | 0 <= j < |voters|
        ensures VoteFits(cfg, t, a.data, voters[j]) <==> VoteFits(cfg, s, a.data, voters[j])
      {
        CellsDecide(cfg, s, t, a.data, voters[j]);
      }
    }
  }

  /** A block's payload votes are replayed iff every aggregate fits. */
  lemma {:induction false} VotesDecided(
    cfg: Config, s: StoreView, state: BeaconState, aggregates: seq<PayloadAttestation>, k: nat)
    requires k <= |aggregates|
    ensures NotifyPtc(cfg, s, state, aggregates, k).Some? <==> AggregatesFit(cfg, s, state, aggregates, k)
    ensures NotifyPtc(cfg, s, state, aggregates, k).Some? ==>
      SameCells(s, NotifyPtc(cfg, s, state, aggregates, k).value)
  {
    hide NotifyVoters, VoteFits;
    if k > 0 {
      VotesDecided(cfg, s, state, aggregates, k - 1);
      var before := NotifyPtc(cfg, s, state, aggregates, k - 1);
      var a := aggregates[k - 1];
      if before.Some? {
        AggregateSame(cfg, s, before.value, state, a);
        if cfg.rules.payloadAttesters(state, a).Some? {
          var voters := cfg.rules.payloadAttesters(state, a).value;
          VotersDecided(cfg, before.value, a.data, voters, |voters|);
        }
      }
    }
  }

  // ---------------------------------------------------------------------------
  // The duty window
  // ---------------------------------------------------------------------------

  /** The duty window of `epoch` reaches back no further than `slot`. */
  predicate WindowKnown(preset: Preset, slot: Slot, epoch: Epoch) {
    epoch <= MIN_SEED_LOOKAHEAD || slot <= SaturatingSub(preset.StartSlot(SaturatingSub(epoch, MIN_SEED_LOOKAHEAD)), 1)
  }

  /** It does so in the first two epochs, and again from two epochs after `slot` on. */
  lemma WindowMeaning(preset: Preset, slot: Slot, now: Slot)
    requires slot <= now
    ensures WindowKnown(preset, slot, preset.Epoch(now)) <==>
      preset.Epoch(now) <= 1 || preset.Epoch(now) >= preset.Epoch(slot) + 2
  {
    match preset
    case Mainnet =>
    case Minimal =>
  }

  /** Boosting can be decided iff the duty window reaches no further back than the anchor. */
  lemma BoostDecided(cfg: Config, s: StoreView, anchor: Root, head: Root, root: Root)
    requires Ordered(s.blocks) && Rooted(s.blocks, anchor)
    requires head in s.blocks && root in s.blocks && root in s.timeliness
    ensures anchor in s.blocks
    ensures WithBoost(cfg, s, head, root).Some? <==>
      WindowKnown(cfg.preset, s.blocks[anchor].slot, CurrentEpoch(cfg.preset, s))
  {
    hide Ancestor, Rooted, Ordered, CurrentEpoch;
    var epoch := CurrentEpoch(cfg.preset, s);
    var slot := SaturatingSub(cfg.preset.StartSlot(SaturatingSub(epoch, MIN_SEED_LOOKAHEAD)), 1);
    AnchorIn(s.blocks, anchor);
    AncestorTotal(s.blocks, anchor, Node(root, Pending), slot);
    AncestorTotal(s.blocks, anchor, Node(head, Pending), slot);
  }

  lemma AnchorIn(blocks: Blocks, anchor: Root)
    requires Rooted(blocks, anchor)
    ensures anchor in blocks
  {
  }

  // ---------------------------------------------------------------------------
  // Imports
  // ---------------------------------------------------------------------------

  /** The votes a block carries fit once the block is filed; at slot zero none are read. */
  ghost predicate CarriedVotesFit(cfg: Config, s: StoreView, root: Root, block: Block, post: BeaconState) {
    post.slot == 0 ||
    AggregatesFit(cfg, Filed(cfg, s, root, block, post), post, block.body.payloadAttestations,
                  |block.body.payloadAttestations|)
  }

  lemma PreparedDecided(cfg: Config, s: StoreView, root: Root, block: Block, post: BeaconState)
    ensures Prepared(cfg, s, root, block, post).Some? <==> CarriedVotesFit(cfg, s, root, block, post)
  {
    hide NotifyPtc, AggregatesFit, Filed, WithTimeliness;
    var aggregates := block.body.payloadAttestations;
    VotesDecided(cfg, Filed(cfg, s, root, block, post), post, aggregates, |aggregates|);
  }

  lemma PreparedTables(cfg: Config, s: StoreView, root: Root, block: Block, post: BeaconState)
    requires Prepared(cfg, s, root, block, post).Some?
    ensures var t := Prepared(cfg, s, root, block, post).value;
      && t.blocks == s.blocks[root := block] && t.blockStates == s.blockStates[root := post]
      && root in t.timeliness && t.time == s.time && t.genesisTime == s.genesisTime
  {
    hide Prepared, TimelinessOf;
    PreparedTouches(cfg, s, root, block, post);
  }

  lemma BoostKeepsTables(cfg: Config, s: StoreView, head: Root, root: Root)
    requires Ordered(s.blocks) && WithBoost(cfg, s, head, root).Some?
    ensures var t := WithBoost(cfg, s, head, root).value;
      t.blocks == s.blocks && t.blockStates == s.blockStates
  {
    hide DependentRoot, Ordered;
  }

  lemma SettledDecided(cfg: Config, s: StoreView, head: Root, root: Root, post: BeaconState)
    requires Ordered(s.blocks) && root in s.blocks && root in s.blockStates
    ensures Settled(cfg, s, head, root, post).Some? <==>
      WithBoost(cfg, s, head, root).Some? && cfg.rules.pullUp(s.blockStates[root]).Some?
  {
    hide WithBoost, Ordered, CurrentEpoch;
    if WithBoost(cfg, s, head, root).Some? {
      BoostKeepsTables(cfg, s, head, root);
    }
  }

  lemma ImportDecided(
    cfg: Config, s: StoreView, anchor: Root, head: Root, root: Root, block: Block, post: BeaconState)
    requires FitsOrder(s.blocks, root, block) && Rooted(s.blocks[root := block], anchor) && head in s.blocks
    ensures anchor in s.blocks[root := block]
    ensures Imported(cfg, s, head, root, block, post).Some? <==>
      && CarriedVotesFit(cfg, s, root, block, post)
      && WindowKnown(cfg.preset, s.blocks[root := block][anchor].slot, CurrentEpoch(cfg.preset, s))
      && cfg.rules.pullUp(post).Some?
  {
    hide Rooted, WindowKnown, CurrentSlot, WithBoost, Settled, Prepared, CarriedVotesFit, Ordered;
    AnchorIn(s.blocks[root := block], anchor);
    PreparedDecided(cfg, s, root, block, post);
    if Prepared(cfg, s, root, block, post).Some? {
      PreparedTables(cfg, s, root, block, post);
      var prepared := Prepared(cfg, s, root, block, post).value;
      SameClock(cfg, s, prepared);
      BoostDecided(cfg, prepared, anchor, head, root);
      SettledDecided(cfg, prepared, head, root, post);
    }
  }

  lemma HeadIsStored(cfg: Config, s: StoreView)
    requires Readable(s) && Head(cfg, s).Some?
    ensures Head(cfg, s).value.root in s.blocks
  {
    hide FilteredTree, HeadFrom, TreeUnder;
    var tree := FilteredTree(cfg.preset, s).value;
    HeadLocation(cfg, s, tree);
    FilteredIsTree(cfg.preset, s, tree);
    TopIsStored(s, tree, s.justified.root);
    TreeIsStored(s, tree, s.justified.root);
  }

  /**
    * In every store of a run a block is accepted if and only if it is admissible, its
    * transition succeeds, there is a head, the payload votes it carries fit, the duty
    * window reaches no further back than the anchor, and its tip can be pulled up.
    */
  lemma BlockAccepted(cfg: Config, anchor: Root, s: StoreView, signed: SignedBlock)
    requires Inv(cfg, anchor, s) && cfg.rules.Lawful() && Trusted(cfg, anchor, s, signed.message)
    ensures Readable(s) && Ordered(s.blocks) && OrderSafe(cfg, s, signed) && anchor in s.blocks
    ensures OnBlock(cfg, s, signed).Some? <==>
      && BlockAdmissible(cfg, s, signed.message)
      && Head(cfg, s).Some?
      && WindowKnown(cfg.preset, s.blocks[anchor].slot, CurrentEpoch(cfg.preset, s))
      && var post := cfg.rules.transition(s.blockStates[signed.message.parentRoot], signed);
         && post.Some? && cfg.rules.pullUp(post.value).Some?
         && CarriedVotesFit(cfg, s, cfg.rules.blockRoot(signed.message), signed.message, post.value)
  {
    hide Inv, Trusted, BlockAdmissible, Head, Imported, WindowKnown, CurrentSlot, Rooted, Ordered;
    hide Readable, FitsOrder, CarriedVotesFit;
    var root, block := cfg.rules.blockRoot(signed.message), signed.message;
    AdmissibleBlockFits(cfg, anchor, s, signed);
    InvIsReadable(cfg, anchor, s);
    AnchorIn(s.blocks, anchor);
    if BlockAdmissible(cfg, s, block) {
      AdmissibleHasParent(cfg, s, block);
      var post := cfg.rules.transition(s.blockStates[block.parentRoot], signed);
      if post.Some? && Head(cfg, s).Some? {
        HeadIsStored(cfg, s);
        TrustedGrows(cfg, anchor, s, signed);
        ImportDecided(cfg, s, anchor, Head(cfg, s).value.root, root, block, post.value);
      }
    }
  }

  lemma AdmissibleHasParent(cfg: Config, s: StoreView, block: Block)
    requires Ordered(s.blocks) && BlockAdmissible(cfg, s, block)
    ensures block.parentRoot in s.blockStates
  {
    hide CheckpointBlock, CurrentSlot, Ordered;
  }

  lemma TrustedGrows(cfg: Config, anchor: Root, s: StoreView, signed: SignedBlock)
    requires Trusted(cfg, anchor, s, signed.message) && Rooted(s.blocks, anchor) && Ordered(s.blocks)
    requires signed.message.parentRoot in s.blocks && s.blocks[signed.message.parentRoot].slot < signed.message.slot
    ensures var root := cfg.rules.blockRoot(signed.message);
      && root != anchor && Rooted(s.blocks[root := signed.message], anchor)
      && FitsOrder(s.blocks, root, signed.message)
  {
    hide Rooted, Ordered;
    AnchorIn(s.blocks, anchor);
    TreeGrows(s.blocks, anchor, cfg.rules.blockRoot(signed.message), signed.message);
  }

  lemma NowIsPastAnchor(cfg: Config, anchor: Root, s: StoreView)
    requires Inv(cfg, anchor, s)
    ensures anchor in s.blocks && s.blocks[anchor].slot <= CurrentSlot(cfg.preset, s)
  {
    hide VotesShaped, MessagesSound, BoostSound, FullSound, StatesDerived, ColumnsSound, EnvelopesSound, CurrentSlot;
  }

  /** So in any run a block is accepted only in the first two epochs or two after the anchor's. */
  lemma AcceptedInWindow(cfg: Config, anchor: Root, s: StoreView, signed: SignedBlock)
    requires Inv(cfg, anchor, s) && cfg.rules.Lawful() && Trusted(cfg, anchor, s, signed.message)
    requires Readable(s) && OrderSafe(cfg, s, signed) && OnBlock(cfg, s, signed).Some?
    ensures anchor in s.blocks
    ensures var epoch := CurrentEpoch(cfg.preset, s);
      epoch <= 1 || epoch >= cfg.preset.Epoch(s.blocks[anchor].slot) + 2
  {
    hide Inv, Trusted, BlockAdmissible, Head, OnBlock, WindowKnown, CurrentSlot, Ordered, Readable, OrderSafe;
    hide CarriedVotesFit;
    BlockAccepted(cfg, anchor, s, signed);
    NowIsPastAnchor(cfg, anchor, s);
    WindowMeaning(cfg.preset, s.blocks[anchor].slot, CurrentSlot(cfg.preset, s));
  }
}
