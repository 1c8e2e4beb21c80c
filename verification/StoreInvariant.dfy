/**
  * What every run of the store keeps. `Inv` is split by subject; each handler is shown
  * to keep all of it, and to move the store only forward (`Advances`).
  */
module StoreInvariant {
  import opened Primitives
  import opened ForkChoiceTypes
  import opened Ancestry
  import opened Clock
  import opened HeadKey
  import opened Columns
  import opened Handlers

  /** One tree of blocks above the anchor, each with a state, timeliness and justification. */
  ghost predicate Shape(cfg: Config, anchor: Root, s: StoreView) {
    && Ordered(s.blocks) && Rooted(s.blocks, anchor)
    && s.blockStates.Keys == s.blocks.Keys
    && s.timeliness.Keys == s.blocks.Keys
    && s.unrealizedJustifications.Keys == s.blocks.Keys
    && (forall r :: r in s.blocks ==> s.blockStates[r].slot == s.blocks[r].slot)
    && (forall r :: r in s.blocks ==> s.blocks[r].slot <= CurrentSlot(cfg.preset, s))
  }

  /** Every imported block has two vote vectors, one entry per committee seat. */
  ghost predicate VotesShaped(cfg: Config, anchor: Root, s: StoreView) {
    && s.timelinessVotes.Keys == s.blocks.Keys - {anchor}
    && s.availabilityVotes.Keys == s.blocks.Keys - {anchor}
    && (forall r :: r in s.timelinessVotes ==> |s.timelinessVotes[r]| == cfg.preset.PtcSize())
    && (forall r :: r in s.availabilityVotes ==> |s.availabilityVotes[r]| == cfg.preset.PtcSize())
  }

  /** A latest message is for a past slot and a known block no later than that slot. */
  ghost predicate MessageSound(cfg: Config, s: StoreView, m: LatestMessage) {
    && m.root in s.blocks
    && s.blocks[m.root].slot <= m.slot < CurrentSlot(cfg.preset, s)
    && (m.payloadPresent ==> m.root in s.payloads && s.blocks[m.root].slot < m.slot)
  }

  ghost predicate MessagesSound(cfg: Config, s: StoreView) {
    forall v :: v in s.latestMessages ==> MessageSound(cfg, s, s.latestMessages[v])
  }

  /** A boosted block is an imported block of the current slot. */
  ghost predicate BoostSound(cfg: Config, anchor: Root, s: StoreView) {
    s.boostRoot != ZERO_ROOT ==>
      && s.boostRoot in s.blocks && s.boostRoot != anchor
      && s.blocks[s.boostRoot].slot == CurrentSlot(cfg.preset, s)
  }

  /** A block that claims a full parent names one whose envelope is recorded. */
  ghost predicate FullSound(s: StoreView) {
    && s.payloads.Keys <= s.blocks.Keys
    && (forall r :: r in s.blocks && ParentPayloadStatus(s.blocks, s.blocks[r]) == Some(Full) ==>
          s.blocks[r].parentRoot in s.payloads)
  }

  /** A stored state is what the transition makes of the parent's state and the block. */
  ghost predicate Derived(cfg: Config, s: StoreView, r: Root)
    requires r in s.blocks && r in s.blockStates && s.blocks[r].parentRoot in s.blockStates
  {
    exists signature: nat ::
      cfg.rules.transition(s.blockStates[s.blocks[r].parentRoot], SignedBlock(s.blocks[r], signature))
      == Some(s.blockStates[r])
  }

  ghost predicate StatesDerived(cfg: Config, anchor: Root, s: StoreView)
    requires s.blockStates.Keys == s.blocks.Keys
  {
    forall r :: r in s.blocks && r != anchor && s.blocks[r].parentRoot in s.blocks ==> Derived(cfg, s, r)
  }

  /** An envelope held for `r` is valid for that block. */
  ghost predicate ValidFor(cfg: Config, s: StoreView, r: Root, envelope: SignedEnvelope) {
    && r in s.blocks && r in s.blockStates
    && envelope.message.beaconBlockRoot == r
    && cfg.rules.envelopeValid(s.blockStates[r], envelope)
  }

  /** A recorded payload was valid for its block under some signature, and its data is there. */
  ghost predicate PayloadSound(cfg: Config, s: StoreView, r: Root, payload: Envelope) {
    && (exists signature: nat :: ValidFor(cfg, s, r, SignedEnvelope(payload, signature)))
    && Available(cfg.rules, s, r)
  }

  /** Waiting envelopes are valid for their blocks; so are recorded ones, over available data. */
  ghost predicate EnvelopesSound(cfg: Config, s: StoreView) {
    && (forall r :: r in s.queued ==> ValidFor(cfg, s, r, s.queued[r]))
    && (forall r :: r in s.payloads ==> PayloadSound(cfg, s, r, s.payloads[r]))
  }

  ghost predicate Inv(cfg: Config, anchor: Root, s: StoreView) {
    && Shape(cfg, anchor, s)
    && VotesShaped(cfg, anchor, s)
    && MessagesSound(cfg, s)
    && BoostSound(cfg, anchor, s)
    && FullSound(s)
    && StatesDerived(cfg, anchor, s)
    && ColumnsSound(cfg.rules, s)
    && EnvelopesSound(cfg, s)
  }

  lemma InvIsReadable(cfg: Config, anchor: Root, s: StoreView)
    requires Inv(cfg, anchor, s)
    ensures Readable(s) && Ordered(s.blocks) && Rooted(s.blocks, anchor)
  {
  }

  // ---------------------------------------------------------------------------
  // Moving only forward
  // ---------------------------------------------------------------------------

  /** Nothing learned is unlearned from `s` to `t`. */
  ghost predicate Advances(cfg: Config, s: StoreView, t: StoreView) {
    && s.time <= t.time && s.genesisTime == t.genesisTime
    && s.justified.epoch <= t.justified.epoch && s.finalized.epoch <= t.finalized.epoch
    && s.unrealizedJustified.epoch <= t.unrealizedJustified.epoch
    && s.unrealizedFinalized.epoch <= t.unrealizedFinalized.epoch
    && s.equivocating <= t.equivocating
    && (forall r :: r in s.blocks ==> r in t.blocks && t.blocks[r] == s.blocks[r])
    && (forall r :: r in s.blockStates ==> r in t.blockStates && t.blockStates[r] == s.blockStates[r])
    && s.payloads.Keys <= t.payloads.Keys
    && s.queued.Keys <= t.queued.Keys + t.payloads.Keys
    && (forall v :: v in s.latestMessages ==>
          v in t.latestMessages && s.latestMessages[v].slot <= t.latestMessages[v].slot)
    && (forall r, c {:trigger HasIndex(Stored(t, r), c)} :: HasIndex(Stored(s, r), c) ==> HasIndex(Stored(t, r), c))
    && (s.boostRoot != ZERO_ROOT && CurrentSlot(cfg.preset, s) == CurrentSlot(cfg.preset, t) ==>
          t.boostRoot == s.boostRoot)
  }

  lemma AdvancesReflexive(cfg: Config, s: StoreView)
    ensures Advances(cfg, s, s)
  {
  }

  lemma AdvancesTransitive(cfg: Config, a: StoreView, b: StoreView, c: StoreView)
    requires Advances(cfg, a, b) && Advances(cfg, b, c)
    ensures Advances(cfg, a, c)
  {
    SlotMonotone(cfg.preset, a.genesisTime, a.time, b.time);
    SlotMonotone(cfg.preset, a.genesisTime, b.time, c.time);
    hide SlotAtTime, Stored, HasIndex;
    forall r, i | HasIndex(Stored(a, r), i)
      ensures HasIndex(Stored(c, r), i)
    {
      assert HasIndex(Stored(b, r), i);
    }
  }

  // ---------------------------------------------------------------------------
  // The anchor and the clock
  // ---------------------------------------------------------------------------

  /** The anchor block and state share a slot, and the anchor is not its own parent. */
  ghost predicate SoundAnchor(cfg: Config, state: BeaconState, block: Block) {
    && block.slot == state.slot
    && block.parentRoot != cfg.rules.blockRoot(block)
  }

  /** A time the given number of whole slots after genesis falls in that slot. */
  lemma SlotOfSpan(preset: Preset, genesisTime: U64, slot: Slot, time: U64)
    requires (if preset.Mainnet? then 12_000 else 6_000) * slot <= U64_MAX
    requires time == genesisTime + (if preset.Mainnet? then 12 else 6) * slot
    ensures SlotAtTime(preset, genesisTime, time) == slot
  {
  }

  lemma AnchorTime(cfg: Config, state: BeaconState, block: Block)
    requires AnchorStore(cfg, state, block).Some?
    ensures var s := AnchorStore(cfg, state, block).value;
      && s.genesisTime == state.genesisTime
      && (if cfg.preset.Mainnet? then 12_000 else 6_000) * state.slot <= U64_MAX
      && s.time == s.genesisTime + (if cfg.preset.Mainnet? then 12 else 6) * state.slot
  {
    assert 12_000 * state.slot / 1_000 == 12 * state.slot && 6_000 * state.slot / 1_000 == 6 * state.slot;
  }

  lemma AnchorClockIsExact(cfg: Config, state: BeaconState, block: Block)
    requires AnchorStore(cfg, state, block).Some?
    ensures CurrentSlot(cfg.preset, AnchorStore(cfg, state, block).value) == state.slot
  {
    hide AnchorStore, SlotAtTime;
    AnchorTime(cfg, state, block);
    var s := AnchorStore(cfg, state, block).value;
    SlotOfSpan(cfg.preset, s.genesisTime, state.slot, s.time);
  }

  /** A fresh store satisfies the invariant. */
  lemma AnchorKeepsInv(cfg: Config, state: BeaconState, block: Block)
    requires AnchorStore(cfg, state, block).Some? && SoundAnchor(cfg, state, block)
    ensures Inv(cfg, cfg.rules.blockRoot(block), AnchorStore(cfg, state, block).value)
  {
    AnchorClockIsExact(cfg, state, block);
    hide CurrentSlot;
  }

  // ---------------------------------------------------------------------------
  // Framing: each part reads only a few fields
  // ---------------------------------------------------------------------------

  lemma ShapeFrame(cfg: Config, anchor: Root, s: StoreView, t: StoreView)
    requires Shape(cfg, anchor, s)
    requires t.blocks == s.blocks && t.blockStates == s.blockStates && t.timeliness == s.timeliness
    requires t.unrealizedJustifications == s.unrealizedJustifications
    requires CurrentSlot(cfg.preset, s) <= CurrentSlot(cfg.preset, t)
    ensures Shape(cfg, anchor, t)
  {
    hide CurrentSlot, Rooted, Ordered;
  }

  lemma VotesFrame(cfg: Config, anchor: Root, s: StoreView, t: StoreView)
    requires VotesShaped(cfg, anchor, s)
    requires t.blocks == s.blocks && t.timelinessVotes == s.timelinessVotes
    requires t.availabilityVotes == s.availabilityVotes
    ensures VotesShaped(cfg, anchor, t)
  {
  }

  lemma MessagesFrame(cfg: Config, s: StoreView, t: StoreView)
    requires MessagesSound(cfg, s)
    requires forall r :: r in s.blocks ==> r in t.blocks && t.blocks[r] == s.blocks[r]
    requires t.latestMessages == s.latestMessages && s.payloads.Keys <= t.payloads.Keys
    requires CurrentSlot(cfg.preset, s) <= CurrentSlot(cfg.preset, t)
    ensures MessagesSound(cfg, t)
  {
    hide CurrentSlot;
  }

  lemma FullFrame(s: StoreView, t: StoreView)
    requires FullSound(s)
    requires t.blocks == s.blocks && s.payloads.Keys <= t.payloads.Keys <= s.blocks.Keys
    ensures FullSound(t)
  {
    hide ParentPayloadStatus;
  }

  lemma DerivedFrame(cfg: Config, anchor: Root, s: StoreView, t: StoreView)
    requires t.blocks == s.blocks && t.blockStates == s.blockStates && s.blockStates.Keys == s.blocks.Keys
    requires StatesDerived(cfg, anchor, s)
    ensures StatesDerived(cfg, anchor, t)
  {
    forall r | r in s.blocks && r != anchor && s.blocks[r].parentRoot in s.blocks
      ensures Derived(cfg, t, r)
    {
      assert Derived(cfg, s, r);
    }
  }

  lemma AvailableFrame(cfg: Config, s: StoreView, t: StoreView)
    requires s.blocks == t.blocks && s.sidecars == t.sidecars
    ensures forall r :: Available(cfg.rules, s, r) == Available(cfg.rules, t, r)
    ensures forall r :: Stored(s, r) == Stored(t, r)
    ensures ColumnsSound(cfg.rules, s) == ColumnsSound(cfg.rules, t)
  {
    hide SidecarBelongs, Increasing, Complete;
  }

  /** What is valid or available stays so when blocks, states and columns are only added to. */
  lemma PayloadFrame(cfg: Config, s: StoreView, t: StoreView, r: Root, payload: Envelope)
    requires PayloadSound(cfg, s, r, payload) && Available(cfg.rules, t, r)
    requires r in t.blocks && r in t.blockStates && t.blockStates[r] == s.blockStates[r]
    ensures PayloadSound(cfg, t, r, payload)
  {
    hide Available;
    var signature :| ValidFor(cfg, s, r, SignedEnvelope(payload, signature));
    assert ValidFor(cfg, t, r, SignedEnvelope(payload, signature));
  }

  lemma EnvelopesFrame(cfg: Config, s: StoreView, t: StoreView)
    requires EnvelopesSound(cfg, s)
    requires t.blocks == s.blocks && t.blockStates == s.blockStates && t.sidecars == s.sidecars
    requires t.queued == s.queued && t.payloads == s.payloads
    ensures EnvelopesSound(cfg, t)
  {
    hide Available, ColumnsSound, Stored, PayloadSound;
    AvailableFrame(cfg, s, t);
    forall r | r in t.payloads
      ensures PayloadSound(cfg, t, r, t.payloads[r])
    {
      PayloadParts(cfg, s, r, s.payloads[r]);
      PayloadFrame(cfg, s, t, r, s.payloads[r]);
    }
  }

  lemma PayloadParts(cfg: Config, s: StoreView, r: Root, payload: Envelope)
    requires PayloadSound(cfg, s, r, payload)
    ensures Available(cfg.rules, s, r) && r in s.blocks && r in s.blockStates && payload.beaconBlockRoot == r
  {
    hide Available;
  }

  /** A step that leaves blocks, states, envelopes and columns alone. */
  lemma QuietStepKeepsInv(cfg: Config, anchor: Root, s: StoreView, t: StoreView)
    requires Inv(cfg, anchor, s)
    requires t.blocks == s.blocks && t.blockStates == s.blockStates && t.timeliness == s.timeliness
    requires t.unrealizedJustifications == s.unrealizedJustifications
    requires t.payloads == s.payloads && t.queued == s.queued && t.sidecars == s.sidecars
    requires CurrentSlot(cfg.preset, s) <= CurrentSlot(cfg.preset, t)
    requires VotesShaped(cfg, anchor, t) && MessagesSound(cfg, t) && BoostSound(cfg, anchor, t)
    ensures Inv(cfg, anchor, t)
  {
    hide Shape, VotesShaped, MessagesSound, BoostSound, FullSound, StatesDerived, ColumnsSound, EnvelopesSound;
    hide CurrentSlot;
    ShapeFrame(cfg, anchor, s, t);
    assert s.blockStates.Keys == s.blocks.Keys && s.payloads.Keys <= s.blocks.Keys by {
      KeysAgree(cfg, anchor, s);
    }
    FullFrame(s, t);
    DerivedFrame(cfg, anchor, s, t);
    AvailableFrame(cfg, s, t);
    EnvelopesFrame(cfg, s, t);
  }

  lemma KeysAgree(cfg: Config, anchor: Root, s: StoreView)
    requires Shape(cfg, anchor, s) && FullSound(s)
    ensures Ordered(s.blocks) && s.blockStates.Keys == s.blocks.Keys && s.payloads.Keys <= s.blocks.Keys
    ensures s.timeliness.Keys == s.blocks.Keys && s.unrealizedJustifications.Keys == s.blocks.Keys
    ensures anchor in s.blocks
  {
  }

  /** Such a step only moves forward, if its checkpoints, votes and boost do. */
  lemma QuietStepAdvances(cfg: Config, s: StoreView, t: StoreView)
    requires t.blocks == s.blocks && t.blockStates == s.blockStates
    requires t.payloads == s.payloads && t.queued == s.queued && t.sidecars == s.sidecars
    requires s.time <= t.time && s.genesisTime == t.genesisTime
    requires s.justified.epoch <= t.justified.epoch && s.finalized.epoch <= t.finalized.epoch
    requires s.unrealizedJustified == t.unrealizedJustified && s.unrealizedFinalized == t.unrealizedFinalized
    requires s.equivocating <= t.equivocating
    requires forall v :: v in s.latestMessages ==>
      v in t.latestMessages && s.latestMessages[v].slot <= t.latestMessages[v].slot
    requires s.boostRoot != ZERO_ROOT && CurrentSlot(cfg.preset, s) == CurrentSlot(cfg.preset, t) ==>
      t.boostRoot == s.boostRoot
    ensures Advances(cfg, s, t)
  {
    hide CurrentSlot, HasIndex;
    assert forall r :: Stored(s, r) == Stored(t, r);
  }

  // ---------------------------------------------------------------------------
  // Quiet handlers: clock, attestations, slashings, payload votes
  // ---------------------------------------------------------------------------

  lemma TickKeepsInv(cfg: Config, anchor: Root, s: StoreView, time: U64)
    requires Inv(cfg, anchor, s) && s.time <= time
    ensures Inv(cfg, anchor, Ticked(cfg.preset, s, time)) && Advances(cfg, s, Ticked(cfg.preset, s, time))
  {
    hide Shape, VotesShaped, MessagesSound, FullSound, StatesDerived, ColumnsSound, EnvelopesSound, Advances;
    hide SlotAtTime;
    var t := Ticked(cfg.preset, s, time);
    SlotMonotone(cfg.preset, s.genesisTime, s.time, time);
    VotesFrame(cfg, anchor, s, t);
    MessagesFrame(cfg, s, t);
    QuietStepKeepsInv(cfg, anchor, s, t);
    QuietStepAdvances(cfg, s, t);
  }

  /** The message an admissible attestation carries is a sound one. */
  lemma AdmissibleMessageIsSound(cfg: Config, s: StoreView, data: AttestationData, isFromBlock: bool)
    requires Ordered(s.blocks) && AttestationAdmissible(cfg, s, data, isFromBlock)
    ensures MessageSound(cfg, s, MessageOf(data))
  {
    hide CurrentSlot, CheckpointBlock, CurrentEpoch;
  }

  lemma WithMessagesSound(cfg: Config, s: StoreView, voters: seq<ValidatorIndex>, data: AttestationData)
    requires MessagesSound(cfg, s) && MessageSound(cfg, s, MessageOf(data))
    ensures MessagesSound(cfg, WithMessages(s, voters, data))
    ensures forall v :: v in s.latestMessages ==>
      && v in WithMessages(s, voters, data).latestMessages
      && s.latestMessages[v].slot <= WithMessages(s, voters, data).latestMessages[v].slot
  {
    hide CurrentSlot;
    var t := WithMessages(s, voters, data);
    assert CurrentSlot(cfg.preset, s) == CurrentSlot(cfg.preset, t) by {
      SameClock(cfg, s, t);
    }
  }

  lemma SameClock(cfg: Config, s: StoreView, t: StoreView)
    requires s.time == t.time && s.genesisTime == t.genesisTime
    ensures CurrentSlot(cfg.preset, s) == CurrentSlot(cfg.preset, t)
  {
  }

  /** An accepted attestation caches a state and records its voters' messages. */
  lemma AttestationTouches(cfg: Config, s: StoreView, attestation: Attestation, isFromBlock: bool)
    returns (voters: seq<ValidatorIndex>)
    requires Ordered(s.blocks) && OnAttestation(cfg, s, attestation, isFromBlock).Some?
    ensures AttestationAdmissible(cfg, s, attestation.data, isFromBlock)
    ensures var t := OnAttestation(cfg, s, attestation, isFromBlock).value;
      t == s.(checkpointStates := t.checkpointStates,
              latestMessages := WithMessages(s, voters, attestation.data).latestMessages)
  {
    hide AttestationAdmissible, MessageOf;
    var cached := WithTargetState(cfg, s, attestation.data.target).value;
    voters := cfg.rules.attesters(cached.checkpointStates[attestation.data.target], attestation).value;
    SameMessages(s, cached, voters, attestation.data);
  }

  /** Recording votes does not look at the checkpoint cache. */
  lemma SameMessages(s: StoreView, cached: StoreView, voters: seq<ValidatorIndex>, data: AttestationData)
    requires cached == s.(checkpointStates := cached.checkpointStates)
    ensures WithMessages(cached, voters, data).latestMessages == WithMessages(s, voters, data).latestMessages
  {
  }

  lemma AttestationKeepsInv(cfg: Config, anchor: Root, s: StoreView, attestation: Attestation, isFromBlock: bool)
    requires Inv(cfg, anchor, s) && Ordered(s.blocks)
    requires OnAttestation(cfg, s, attestation, isFromBlock).Some?
    ensures var t := OnAttestation(cfg, s, attestation, isFromBlock).value;
      Inv(cfg, anchor, t) && Advances(cfg, s, t)
  {
    hide Shape, VotesShaped, MessagesSound, BoostSound, FullSound, StatesDerived, ColumnsSound, EnvelopesSound;
    hide Advances, OnAttestation, AttestationAdmissible, CurrentSlot, MessageSound, MessageOf, Supersedes;
    var t := OnAttestation(cfg, s, attestation, isFromBlock).value;
    var voters := AttestationTouches(cfg, s, attestation, isFromBlock);
    var voted := WithMessages(s, voters, attestation.data);
    SameClock(cfg, s, t);
    SameClock(cfg, voted, t);
    VotesFrame(cfg, anchor, s, t);
    AdmissibleMessageIsSound(cfg, s, attestation.data, isFromBlock);
    WithMessagesSound(cfg, s, voters, attestation.data);
    MessagesFrame(cfg, voted, t);
    BoostFrame(cfg, anchor, s, t);
    QuietStepKeepsInv(cfg, anchor, s, t);
    QuietStepAdvances(cfg, s, t);
  }

  lemma BoostFrame(cfg: Config, anchor: Root, s: StoreView, t: StoreView)
    requires BoostSound(cfg, anchor, s) && CurrentSlot(cfg.preset, s) == CurrentSlot(cfg.preset, t)
    requires forall r :: r in s.blocks ==> r in t.blocks && t.blocks[r] == s.blocks[r]
    requires t.boostRoot == s.boostRoot
    ensures BoostSound(cfg, anchor, t)
  {
    hide CurrentSlot;
  }

  lemma SlashingKeepsInv(cfg: Config, anchor: Root, s: StoreView, slashing: AttesterSlashing)
    requires Inv(cfg, anchor, s) && OnAttesterSlashing(cfg, s, slashing).Some?
    ensures var t := OnAttesterSlashing(cfg, s, slashing).value;
      Inv(cfg, anchor, t) && Advances(cfg, s, t)
  {
    hide Shape, VotesShaped, MessagesSound, BoostSound, FullSound, StatesDerived, ColumnsSound, EnvelopesSound;
    hide Advances, CurrentSlot;
    var t := OnAttesterSlashing(cfg, s, slashing).value;
    SameClock(cfg, s, t);
    VotesFrame(cfg, anchor, s, t);
    MessagesFrame(cfg, s, t);
    BoostFrame(cfg, anchor, s, t);
    QuietStepKeepsInv(cfg, anchor, s, t);
    QuietStepAdvances(cfg, s, t);
  }

  /** Writing votes keeps every vector its length. */
  lemma PtcKeepsVotesShaped(cfg: Config, anchor: Root, s: StoreView, message: PtcMessage, isFromBlock: bool)
    requires VotesShaped(cfg, anchor, s) && OnPtcMessage(cfg, s, message, isFromBlock).Some?
    ensures VotesShaped(cfg, anchor, OnPtcMessage(cfg, s, message, isFromBlock).value)
  {
    hide PtcPositions, CurrentSlot;
  }

  lemma PtcTouchesOnlyVotes(cfg: Config, s: StoreView, message: PtcMessage, isFromBlock: bool)
    requires OnPtcMessage(cfg, s, message, isFromBlock).Some?
    ensures var t := OnPtcMessage(cfg, s, message, isFromBlock).value;
      t == s.(timelinessVotes := t.timelinessVotes, availabilityVotes := t.availabilityVotes)
  {
    hide PtcPositions, CurrentSlot, WithVotes;
  }

  lemma PtcKeepsInv(cfg: Config, anchor: Root, s: StoreView, message: PtcMessage, isFromBlock: bool)
    requires Inv(cfg, anchor, s) && OnPtcMessage(cfg, s, message, isFromBlock).Some?
    ensures var t := OnPtcMessage(cfg, s, message, isFromBlock).value;
      Inv(cfg, anchor, t) && Advances(cfg, s, t)
  {
    hide Shape, VotesShaped, MessagesSound, BoostSound, FullSound, StatesDerived, ColumnsSound, EnvelopesSound;
    hide Advances, CurrentSlot, OnPtcMessage;
    var t := OnPtcMessage(cfg, s, message, isFromBlock).value;
    PtcKeepsVotesShaped(cfg, anchor, s, message, isFromBlock);
    PtcTouchesOnlyVotes(cfg, s, message, isFromBlock);
    SameClock(cfg, s, t);
    MessagesFrame(cfg, s, t);
    BoostFrame(cfg, anchor, s, t);
    QuietStepKeepsInv(cfg, anchor, s, t);
    QuietStepAdvances(cfg, s, t);
  }
}
