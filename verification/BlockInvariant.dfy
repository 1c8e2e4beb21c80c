/** Importing a block keeps the invariant: the tree grows by one sound block. */
module BlockInvariant {
  import opened Primitives
  import opened ForkChoiceTypes
  import opened Ancestry
  import opened Clock
  import opened HeadKey
  import opened HeadWalk
  import opened Columns
  import opened Handlers
  import opened StoreInvariant

  /**
    * What is assumed of hashing when `block` arrives: its root is not zero, is not the
    * anchor's parent root, and a root seen before names the same block.
    */
  ghost predicate Trusted(cfg: Config, anchor: Root, s: StoreView, block: Block) {
    var root := cfg.rules.blockRoot(block);
    && root != ZERO_ROOT
    && (anchor in s.blocks ==> root != s.blocks[anchor].parentRoot)
    && (root in s.blocks ==> s.blocks[root] == block)
  }

  /** A block above a stored parent can be added to a rooted map. */
  lemma TreeGrows(blocks: Blocks, anchor: Root, root: Root, block: Block)
    requires Ordered(blocks) && Rooted(blocks, anchor)
    requires block.parentRoot in blocks && blocks[block.parentRoot].slot < block.slot
    requires root != blocks[anchor].parentRoot && (root in blocks ==> blocks[root] == block)
    ensures root != anchor
    ensures Ordered(blocks[root := block]) && Rooted(blocks[root := block], anchor)
    ensures forall r :: r in blocks ==> r in blocks[root := block] && blocks[root := block][r] == blocks[r]
  {
    if root !in blocks {
      forall r | r in blocks
        ensures blocks[r].parentRoot != root
      {
      }
    } else {
      assert blocks[root := block] == blocks;
    }
  }

  /** An admissible block that transitions sits after its parent, so filing it is safe. */
  lemma AdmissibleBlockFits(cfg: Config, anchor: Root, s: StoreView, signed: SignedBlock)
    requires Inv(cfg, anchor, s) && cfg.rules.Lawful() && Trusted(cfg, anchor, s, signed.message)
    ensures Readable(s) && Ordered(s.blocks) && OrderSafe(cfg, s, signed)
    ensures (BlockAdmissible(cfg, s, signed.message)
             && cfg.rules.transition(s.blockStates[signed.message.parentRoot], signed).Some?) ==>
      && signed.message.parentRoot in s.blocks
      && s.blocks[signed.message.parentRoot].slot < signed.message.slot
  {
    hide VotesShaped, MessagesSound, BoostSound, FullSound, StatesDerived, ColumnsSound, EnvelopesSound;
    hide CurrentSlot, CheckpointBlock, Rooted, Ordered;
    KeysAgree(cfg, anchor, s);
    var block := signed.message;
    if BlockAdmissible(cfg, s, block) && cfg.rules.transition(s.blockStates[block.parentRoot], signed).Some? {
      TreeGrows(s.blocks, anchor, cfg.rules.blockRoot(block), block);
    }
  }

  /** The fields an import writes. */
  ghost predicate ImportOutcome(
    cfg: Config, s: StoreView, root: Root, block: Block, state: BeaconState, t: StoreView)
  {
    && t.time == s.time && t.genesisTime == s.genesisTime
    && t.blocks == s.blocks[root := block]
    && t.blockStates == s.blockStates[root := state]
    && t.timeliness == s.timeliness[root := TimelinessOf(cfg, s, block.slot)]
    && t.equivocating == s.equivocating && t.latestMessages == s.latestMessages
    && t.checkpointStates == s.checkpointStates
    && t.payloads == s.payloads && t.queued == s.queued && t.sidecars == s.sidecars
    && t.unrealizedJustifications.Keys == s.unrealizedJustifications.Keys + {root}
    && s.justified.epoch <= t.justified.epoch && s.finalized.epoch <= t.finalized.epoch
    && s.unrealizedJustified.epoch <= t.unrealizedJustified.epoch
    && s.unrealizedFinalized.epoch <= t.unrealizedFinalized.epoch
    && (|| t.boostRoot == s.boostRoot
        || (&& s.boostRoot == ZERO_ROOT && t.boostRoot == root
            && block.slot == CurrentSlot(cfg.preset, s)))
  }

  /** `t` differs from `s` in boost, checkpoints and justifications at most, never going back. */
  ghost predicate Adopts(s: StoreView, t: StoreView) {
    && t.time == s.time && t.genesisTime == s.genesisTime
    && t.equivocating == s.equivocating && t.latestMessages == s.latestMessages
    && t.checkpointStates == s.checkpointStates
    && t.blocks == s.blocks && t.blockStates == s.blockStates && t.timeliness == s.timeliness
    && t.payloads == s.payloads && t.queued == s.queued && t.sidecars == s.sidecars
    && t.timelinessVotes == s.timelinessVotes && t.availabilityVotes == s.availabilityVotes
    && s.justified.epoch <= t.justified.epoch && s.finalized.epoch <= t.finalized.epoch
    && s.unrealizedJustified.epoch <= t.unrealizedJustified.epoch
    && s.unrealizedFinalized.epoch <= t.unrealizedFinalized.epoch
  }

  lemma AdoptsTransitive(a: StoreView, b: StoreView, c: StoreView)
    requires Adopts(a, b) && Adopts(b, c)
    ensures Adopts(a, c)
  {
  }

  lemma AdoptingSteps(s: StoreView, root: Root, j: Checkpoint, f: Checkpoint)
    ensures Adopts(s, s) && Adopts(s, s.(boostRoot := root))
    ensures Adopts(s, UpdateCheckpoints(s, j, f)) && Adopts(s, UpdateUnrealized(s, j, f))
    ensures Adopts(s, s.(unrealizedJustifications := s.unrealizedJustifications[root := j]))
  {
  }

  /** Boosting a block changes the boost alone, and only for a timely first block. */
  lemma BoostTouches(cfg: Config, s: StoreView, head: Root, root: Root)
    requires Ordered(s.blocks) && WithBoost(cfg, s, head, root).Some?
    ensures var t := WithBoost(cfg, s, head, root).value;
      && Adopts(s, t) && t.unrealizedJustifications == s.unrealizedJustifications
      && (|| t.boostRoot == s.boostRoot
          || (s.boostRoot == ZERO_ROOT && t.boostRoot == root && root in s.timeliness
              && s.timeliness[root].attestationTimely))
  {
    hide DependentRoot, Adopts, Ordered;
    AdoptingSteps(s, root, s.justified, s.finalized);
    assert s.(boostRoot := root).unrealizedJustifications == s.unrealizedJustifications;
  }

  lemma PullUpTouches(cfg: Config, s: StoreView, root: Root)
    requires WithPulledUpTip(cfg, s, root).Some?
    ensures var t := WithPulledUpTip(cfg, s, root).value;
      && Adopts(s, t) && t.boostRoot == s.boostRoot
      && t.unrealizedJustifications.Keys == s.unrealizedJustifications.Keys + {root}
  {
    hide Adopts, CurrentEpoch;
    var (j, f) := cfg.rules.pullUp(s.blockStates[root]).value;
    var filed := s.(unrealizedJustifications := s.unrealizedJustifications[root := j]);
    var noted := UpdateUnrealized(filed, j, f);
    var adopted := UpdateCheckpoints(noted, j, f);
    AdoptingSteps(s, root, j, f);
    AdoptingSteps(filed, root, j, f);
    AdoptingSteps(noted, root, j, f);
    AdoptsTransitive(s, filed, noted);
    AdoptsTransitive(s, noted, adopted);
    assert filed.unrealizedJustifications.Keys == s.unrealizedJustifications.Keys + {root};
    assert noted.unrealizedJustifications == adopted.unrealizedJustifications == filed.unrealizedJustifications;
  }

  lemma SettledTouches(cfg: Config, s: StoreView, head: Root, root: Root, state: BeaconState)
    requires Ordered(s.blocks) && Settled(cfg, s, head, root, state).Some?
    ensures var t := Settled(cfg, s, head, root, state).value;
      && Adopts(s, t)
      && t.unrealizedJustifications.Keys == s.unrealizedJustifications.Keys + {root}
      && (|| t.boostRoot == s.boostRoot
          || (s.boostRoot == ZERO_ROOT && t.boostRoot == root && root in s.timeliness
              && s.timeliness[root].attestationTimely))
  {
    hide Adopts, WithBoost, WithPulledUpTip, Ordered;
    var boosted := WithBoost(cfg, s, head, root).value;
    var checked := UpdateCheckpoints(boosted, state.currentJustified, state.finalized);
    BoostTouches(cfg, s, head, root);
    AdoptingSteps(boosted, root, state.currentJustified, state.finalized);
    PullUpTouches(cfg, checked, root);
    AdoptsTransitive(s, boosted, checked);
    AdoptsTransitive(s, checked, WithPulledUpTip(cfg, checked, root).value);
  }

  lemma {:induction false} VotersKeepVotesShaped(
    cfg: Config, anchor: Root, s: StoreView, data: PayloadAttestationData, voters: seq<ValidatorIndex>, k: nat)
    requires VotesShaped(cfg, anchor, s) && k <= |voters|
    ensures var t := NotifyVoters(cfg, s, data, voters, k); t.Some? ==> VotesShaped(cfg, anchor, t.value)
  {
    hide VotesShaped, OnPtcMessage;
    if k > 0 {
      VotersKeepVotesShaped(cfg, anchor, s, data, voters, k - 1);
      var before := NotifyVoters(cfg, s, data, voters, k - 1);
      if before.Some? {
        var message := PtcMessage(voters[k - 1], data, 0);
        if OnPtcMessage(cfg, before.value, message, true).Some? {
          PtcKeepsVotesShaped(cfg, anchor, before.value, message, true);
        }
      }
    }
  }

  lemma {:induction false} NotifyKeepsVotesShaped(
    cfg: Config, anchor: Root, s: StoreView, state: BeaconState, aggregates: seq<PayloadAttestation>, k: nat)
    requires VotesShaped(cfg, anchor, s) && k <= |aggregates|
    ensures var t := NotifyPtc(cfg, s, state, aggregates, k); t.Some? ==> VotesShaped(cfg, anchor, t.value)
  {
    hide VotesShaped, NotifyVoters;
    if k > 0 {
      NotifyKeepsVotesShaped(cfg, anchor, s, state, aggregates, k - 1);
      var before := NotifyPtc(cfg, s, state, aggregates, k - 1);
      if before.Some? {
        var voters := cfg.rules.payloadAttesters(state, aggregates[k - 1]);
        if voters.Some? {
          VotersKeepVotesShaped(cfg, anchor, before.value, aggregates[k - 1].data, voters.value, |voters.value|);
        }
      }
    }
  }

  /** `t` is `s` with the block filed, voted on and timed. */
  ghost predicate PreparedOutcome(
    cfg: Config, s: StoreView, root: Root, block: Block, state: BeaconState, t: StoreView)
  {
    && t.time == s.time && t.genesisTime == s.genesisTime && t.boostRoot == s.boostRoot
    && t.blocks == s.blocks[root := block]
    && t.blockStates == s.blockStates[root := state]
    && t.timeliness == s.timeliness[root := TimelinessOf(cfg, s, block.slot)]
    && t.equivocating == s.equivocating && t.latestMessages == s.latestMessages
    && t.checkpointStates == s.checkpointStates
    && t.payloads == s.payloads && t.queued == s.queued && t.sidecars == s.sidecars
    && t.unrealizedJustifications == s.unrealizedJustifications
    && t.justified == s.justified && t.finalized == s.finalized
    && t.unrealizedJustified == s.unrealizedJustified && t.unrealizedFinalized == s.unrealizedFinalized
  }

  lemma PreparedTouches(cfg: Config, s: StoreView, root: Root, block: Block, state: BeaconState)
    requires Prepared(cfg, s, root, block, state).Some?
    ensures PreparedOutcome(cfg, s, root, block, state, Prepared(cfg, s, root, block, state).value)
  {
    hide PreparedOutcome, NotifyPtc, TimelinessOf;
    var filed := Filed(cfg, s, root, block, state);
    var aggregates := block.body.payloadAttestations;
    VotesTouchOnlyVotes(cfg, filed, state, aggregates, |aggregates|);
    var voted := if state.slot == 0 then filed else NotifyPtc(cfg, filed, state, aggregates, |aggregates|).value;
    TimedOutcome(cfg, s, root, block, state, voted);
  }

  lemma TimedOutcome(cfg: Config, s: StoreView, root: Root, block: Block, state: BeaconState, voted: StoreView)
    requires voted == Filed(cfg, s, root, block, state).(
      timelinessVotes := voted.timelinessVotes, availabilityVotes := voted.availabilityVotes)
    ensures PreparedOutcome(cfg, s, root, block, state, WithTimeliness(cfg, voted, root, block.slot))
  {
    hide TimelinessOf;
    SameTimeliness(cfg, s, voted, block.slot);
  }

  lemma SameTimeliness(cfg: Config, s: StoreView, t: StoreView, slot: Slot)
    requires s.time == t.time && s.genesisTime == t.genesisTime
    ensures TimelinessOf(cfg, s, slot) == TimelinessOf(cfg, t, slot)
  {
  }

  lemma PreparedVotesShaped(cfg: Config, anchor: Root, s: StoreView, root: Root, block: Block, state: BeaconState)
    requires VotesShaped(cfg, anchor, s) && root != anchor && Prepared(cfg, s, root, block, state).Some?
    ensures VotesShaped(cfg, anchor, Prepared(cfg, s, root, block, state).value)
  {
    hide VotesShaped, NotifyPtc, TimelinessOf, Filed;
    var filed := Filed(cfg, s, root, block, state);
    var aggregates := block.body.payloadAttestations;
    FiledVotesShaped(cfg, anchor, s, root, block, state);
    NotifyKeepsVotesShaped(cfg, anchor, filed, state, aggregates, |aggregates|);
    var voted := if state.slot == 0 then filed else NotifyPtc(cfg, filed, state, aggregates, |aggregates|).value;
    VotesFrame(cfg, anchor, voted, WithTimeliness(cfg, voted, root, block.slot));
  }

  lemma FiledVotesShaped(cfg: Config, anchor: Root, s: StoreView, root: Root, block: Block, state: BeaconState)
    requires VotesShaped(cfg, anchor, s) && root != anchor
    ensures VotesShaped(cfg, anchor, Filed(cfg, s, root, block, state))
  {
  }

  /** What an accepted block leaves behind. */
  lemma ImportTouches(cfg: Config, anchor: Root, s: StoreView, signed: SignedBlock) returns (state: BeaconState)
    requires Readable(s) && Ordered(s.blocks) && OrderSafe(cfg, s, signed) && OnBlock(cfg, s, signed).Some?
    requires VotesShaped(cfg, anchor, s) && cfg.rules.blockRoot(signed.message) != anchor
    ensures BlockAdmissible(cfg, s, signed.message)
    ensures cfg.rules.transition(s.blockStates[signed.message.parentRoot], signed) == Some(state)
    ensures var t := OnBlock(cfg, s, signed).value;
      && ImportOutcome(cfg, s, cfg.rules.blockRoot(signed.message), signed.message, state, t)
      && VotesShaped(cfg, anchor, t)
  {
    hide Head, Prepared, Settled, VotesShaped, PreparedOutcome, Adopts, ImportOutcome, Ordered;
    hide CheckpointBlock, CurrentSlot, ParentPayloadStatus;
    var block := signed.message;
    var root := cfg.rules.blockRoot(block);
    state := cfg.rules.transition(s.blockStates[block.parentRoot], signed).value;
    var head := Head(cfg, s).value.root;
    var prepared := Prepared(cfg, s, root, block, state).value;
    PreparedTouches(cfg, s, root, block, state);
    PreparedIsOrdered(cfg, s, root, block, state, prepared);
    var t := Settled(cfg, prepared, head, root, state).value;
    SettledTouches(cfg, prepared, head, root, state);
    ImportAssembled(cfg, s, root, block, state, prepared, t);
    PreparedVotesShaped(cfg, anchor, s, root, block, state);
    VotesAfterSettling(cfg, anchor, prepared, t);
  }

  lemma PreparedIsOrdered(
    cfg: Config, s: StoreView, root: Root, block: Block, state: BeaconState, prepared: StoreView)
    requires FitsOrder(s.blocks, root, block) && PreparedOutcome(cfg, s, root, block, state, prepared)
    ensures Ordered(prepared.blocks)
  {
    hide TimelinessOf, Ordered;
  }

  lemma VotesAfterSettling(cfg: Config, anchor: Root, prepared: StoreView, t: StoreView)
    requires VotesShaped(cfg, anchor, prepared) && Adopts(prepared, t)
    ensures VotesShaped(cfg, anchor, t)
  {
    hide VotesShaped;
    VotesFrame(cfg, anchor, prepared, t);
  }

  lemma ImportAssembled(
    cfg: Config, s: StoreView, root: Root, block: Block, state: BeaconState, prepared: StoreView, t: StoreView)
    requires PreparedOutcome(cfg, s, root, block, state, prepared) && Adopts(prepared, t)
    requires t.unrealizedJustifications.Keys == prepared.unrealizedJustifications.Keys + {root}
    requires || t.boostRoot == prepared.boostRoot
             || (prepared.boostRoot == ZERO_ROOT && t.boostRoot == root && root in prepared.timeliness
                 && prepared.timeliness[root].attestationTimely)
    ensures ImportOutcome(cfg, s, root, block, state, t)
  {
    hide CurrentSlot, TimeIntoSlotMs, SlotComponentMs;
  }

  /** Importing a block again derives the state already held. */
  lemma ReimportSameState(cfg: Config, anchor: Root, s: StoreView, signed: SignedBlock, state: BeaconState)
    requires s.blockStates.Keys == s.blocks.Keys && StatesDerived(cfg, anchor, s) && cfg.rules.Lawful()
    requires var root := cfg.rules.blockRoot(signed.message);
      root in s.blocks && root != anchor && s.blocks[root] == signed.message
    requires signed.message.parentRoot in s.blocks
    requires cfg.rules.transition(s.blockStates[signed.message.parentRoot], signed) == Some(state)
    ensures s.blockStates[cfg.rules.blockRoot(signed.message)] == state
  {
    var root := cfg.rules.blockRoot(signed.message);
    assert Derived(cfg, s, root);
  }

  /** The store grew by one block, keeping what it held. */
  ghost predicate Grew(s: StoreView, root: Root, block: Block, state: BeaconState, t: StoreView) {
    && t.blocks == s.blocks[root := block] && t.blockStates == s.blockStates[root := state]
    && (forall r :: r in s.blocks ==> r in t.blocks && t.blocks[r] == s.blocks[r])
    && (forall r :: r in s.blockStates ==> r in t.blockStates && t.blockStates[r] == s.blockStates[r])
  }

  lemma ShapeAfterImport(
    cfg: Config, anchor: Root, s: StoreView, root: Root, block: Block, state: BeaconState, t: StoreView)
    requires Shape(cfg, anchor, s) && ImportOutcome(cfg, s, root, block, state, t) && Grew(s, root, block, state, t)
    requires Ordered(t.blocks) && Rooted(t.blocks, anchor)
    requires state.slot == block.slot <= CurrentSlot(cfg.preset, s)
    ensures Shape(cfg, anchor, t)
  {
    hide CurrentSlot, Rooted, Ordered, TimelinessOf;
    SameClock(cfg, s, t);
  }

  lemma BoostAfterImport(
    cfg: Config, anchor: Root, s: StoreView, root: Root, block: Block, state: BeaconState, t: StoreView)
    requires BoostSound(cfg, anchor, s) && ImportOutcome(cfg, s, root, block, state, t)
    requires Grew(s, root, block, state, t) && root != anchor
    ensures BoostSound(cfg, anchor, t)
  {
    hide CurrentSlot, TimelinessOf;
    SameClock(cfg, s, t);
  }

  lemma FullAfterImport(
    anchor: Root, s: StoreView, root: Root, block: Block, state: BeaconState, t: StoreView)
    requires FullSound(s) && Rooted(s.blocks, anchor) && Rooted(t.blocks, anchor)
    requires Grew(s, root, block, state, t) && t.payloads == s.payloads && block.parentRoot in s.blocks
    requires ParentPayloadStatus(s.blocks, block) == Some(Full) ==> block.parentRoot in s.payloads
    ensures FullSound(t)
  {
    forall r | r in t.blocks && ParentPayloadStatus(t.blocks, t.blocks[r]) == Some(Full)
      ensures t.blocks[r].parentRoot in t.payloads
    {
      if r == root {
        assert t.blocks[block.parentRoot] == s.blocks[block.parentRoot];
      } else {
        assert r in s.blocks && t.blocks[r] == s.blocks[r];
        assert ParentPayloadStatus(s.blocks, s.blocks[r]) == ParentPayloadStatus(t.blocks, t.blocks[r]);
      }
    }
  }

  lemma DerivedAfterImport(
    cfg: Config, anchor: Root, s: StoreView, signed: SignedBlock, state: BeaconState, t: StoreView)
    requires s.blockStates.Keys == s.blocks.Keys && t.blockStates.Keys == t.blocks.Keys
    requires StatesDerived(cfg, anchor, s) && Rooted(s.blocks, anchor)
    requires Grew(s, cfg.rules.blockRoot(signed.message), signed.message, state, t)
    requires signed.message.parentRoot in s.blocks
    requires cfg.rules.transition(s.blockStates[signed.message.parentRoot], signed) == Some(state)
    ensures StatesDerived(cfg, anchor, t)
  {
    var root, block := cfg.rules.blockRoot(signed.message), signed.message;
    forall r | r in t.blocks && r != anchor && t.blocks[r].parentRoot in t.blocks
      ensures Derived(cfg, t, r)
    {
      if r == root {
        assert t.blockStates[block.parentRoot] == s.blockStates[block.parentRoot];
        assert SignedBlock(t.blocks[r], signed.signature) == signed;
      } else {
        assert r in s.blocks && s.blocks[r].parentRoot in s.blocks;
        assert Derived(cfg, s, r);
      }
    }
  }

  lemma AvailableAfterImport(
    cfg: Config, s: StoreView, root: Root, block: Block, state: BeaconState, t: StoreView)
    requires Grew(s, root, block, state, t) && t.sidecars == s.sidecars
    ensures forall r :: r in s.blocks ==> Available(cfg.rules, s, r) == Available(cfg.rules, t, r)
  {
    hide SidecarBelongs, Increasing, Complete;
  }

  lemma DeliveriesAfterImport(
    cfg: Config, s: StoreView, root: Root, block: Block, state: BeaconState, t: StoreView)
    requires ColumnsSound(cfg.rules, s) && EnvelopesSound(cfg, s) && Grew(s, root, block, state, t)
    requires t.sidecars == s.sidecars && t.queued == s.queued && t.payloads == s.payloads
    ensures ColumnsSound(cfg.rules, t) && EnvelopesSound(cfg, t)
  {
    hide SidecarBelongs, Increasing, Available, PayloadSound;
    AvailableAfterImport(cfg, s, root, block, state, t);
    forall r | r in t.payloads
      ensures PayloadSound(cfg, t, r, t.payloads[r])
    {
      PayloadParts(cfg, s, r, s.payloads[r]);
      PayloadFrame(cfg, s, t, r, s.payloads[r]);
    }
  }

  lemma ImportAdvances(
    cfg: Config, s: StoreView, root: Root, block: Block, state: BeaconState, t: StoreView)
    requires ImportOutcome(cfg, s, root, block, state, t) && Grew(s, root, block, state, t)
    ensures Advances(cfg, s, t)
  {
    hide CurrentSlot, HasIndex, TimelinessOf;
    assert forall r :: Stored(s, r) == Stored(t, r);
  }

  /** An accepted block keeps the invariant and moves the store only forward. */
  lemma BlockKeepsInv(cfg: Config, anchor: Root, s: StoreView, signed: SignedBlock)
    requires Inv(cfg, anchor, s) && cfg.rules.Lawful() && Trusted(cfg, anchor, s, signed.message)
    requires Readable(s) && OrderSafe(cfg, s, signed) && OnBlock(cfg, s, signed).Some?
    ensures var t := OnBlock(cfg, s, signed).value;
      Inv(cfg, anchor, t) && Advances(cfg, s, t)
  {
    hide Shape, VotesShaped, MessagesSound, BoostSound, FullSound, StatesDerived, ColumnsSound, EnvelopesSound;
    hide Advances, OnBlock, CurrentSlot, Ordered, Rooted, TimelinessOf, CheckpointBlock, Grew, ImportOutcome;
    hide ParentPayloadStatus;
    var block, root := signed.message, cfg.rules.blockRoot(signed.message);
    var t := OnBlock(cfg, s, signed).value;
    AcceptedBlockGrows(cfg, anchor, s, signed);
    var state := ImportTouches(cfg, anchor, s, signed);
    GrowthIsSound(cfg, anchor, s, signed, state, t);
    ImportKeeps(cfg, s, root, block, state, t);
    ShapeAfterImport(cfg, anchor, s, root, block, state, t);
    MessagesFrame(cfg, s, t);
    BoostAfterImport(cfg, anchor, s, root, block, state, t);
    FullAfterImport(anchor, s, root, block, state, t);
    KeysAgree(cfg, anchor, s);
    KeysAgree(cfg, anchor, t);
    DerivedAfterImport(cfg, anchor, s, signed, state, t);
    DeliveriesAfterImport(cfg, s, root, block, state, t);
    ImportAdvances(cfg, s, root, block, state, t);
  }

  /** The root of an accepted block is never the anchor's, and the tree stays one. */
  lemma AcceptedBlockGrows(cfg: Config, anchor: Root, s: StoreView, signed: SignedBlock)
    requires Inv(cfg, anchor, s) && cfg.rules.Lawful() && Trusted(cfg, anchor, s, signed.message)
    requires Readable(s) && OrderSafe(cfg, s, signed) && OnBlock(cfg, s, signed).Some?
    ensures Ordered(s.blocks) && Rooted(s.blocks, anchor) && signed.message.parentRoot in s.blocks
    ensures var root := cfg.rules.blockRoot(signed.message);
      root != anchor && Ordered(s.blocks[root := signed.message]) && Rooted(s.blocks[root := signed.message], anchor)
  {
    hide VotesShaped, MessagesSound, BoostSound, StatesDerived, ColumnsSound, EnvelopesSound;
    hide FullSound, Head, Imported, CurrentSlot, CheckpointBlock, Rooted, Ordered;
    AdmissibleBlockFits(cfg, anchor, s, signed);
    KeysAgree(cfg, anchor, s);
    TreeGrows(s.blocks, anchor, cfg.rules.blockRoot(signed.message), signed.message);
  }

  lemma GrowthIsSound(cfg: Config, anchor: Root, s: StoreView, signed: SignedBlock, state: BeaconState, t: StoreView)
    requires Inv(cfg, anchor, s) && cfg.rules.Lawful() && Trusted(cfg, anchor, s, signed.message)
    requires signed.message.parentRoot in s.blocks && cfg.rules.blockRoot(signed.message) != anchor
    requires signed.message.parentRoot in s.blockStates
    requires cfg.rules.transition(s.blockStates[signed.message.parentRoot], signed) == Some(state)
    requires ImportOutcome(cfg, s, cfg.rules.blockRoot(signed.message), signed.message, state, t)
    ensures Grew(s, cfg.rules.blockRoot(signed.message), signed.message, state, t)
    ensures state.slot == signed.message.slot
    ensures t.blockStates.Keys == t.blocks.Keys
  {
    hide Shape, VotesShaped, MessagesSound, BoostSound, FullSound, StatesDerived, ColumnsSound, EnvelopesSound;
    hide CurrentSlot, TimelinessOf;
    KeysAgree(cfg, anchor, s);
    if cfg.rules.blockRoot(signed.message) in s.blocks {
      ReimportSameState(cfg, anchor, s, signed, state);
    }
  }

  lemma ImportKeeps(cfg: Config, s: StoreView, root: Root, block: Block, state: BeaconState, t: StoreView)
    requires ImportOutcome(cfg, s, root, block, state, t) && Grew(s, root, block, state, t)
    ensures t.blocks == s.blocks[root := block]
    ensures t.latestMessages == s.latestMessages && t.payloads == s.payloads
    ensures t.sidecars == s.sidecars && t.queued == s.queued
    ensures CurrentSlot(cfg.preset, s) == CurrentSlot(cfg.preset, t)
    ensures forall r :: r in s.blocks ==> r in t.blocks && t.blocks[r] == s.blocks[r]
  {
    hide CurrentSlot, TimelinessOf;
    SameClock(cfg, s, t);
  }
}
