/**
  * The store's handlers as functions from one snapshot to the next. `None` is a refusal
  * that leaves the store as it was; the class `Store` carries them out in place.
  */
module Handlers {
  import opened Primitives
  import opened ForkChoiceTypes
  import opened Ancestry
  import opened Clock
  import opened HeadKey
  import opened HeadWalk
  import opened Columns

  const ATTESTATION_DUE_BPS: nat := 2_500
  const PAYLOAD_ATTESTATION_DUE_BPS: nat := 7_500
  const MIN_SEED_LOOKAHEAD: nat := 1

  // ---------------------------------------------------------------------------
  // Starting up
  // ---------------------------------------------------------------------------

  /** `get_forkchoice_store`: a store holding only the trusted anchor. */
  function AnchorStore(cfg: Config, state: BeaconState, block: Block): Option<StoreView> {
    if block.stateRoot != cfg.rules.stateRoot(state) then None
    else
      var root := cfg.rules.blockRoot(block);
      var checkpoint := Checkpoint(cfg.preset.Epoch(state.slot), root);
      var span :- if cfg.preset.Mainnet? then CheckedMul(12_000, state.slot) else CheckedMul(6_000, state.slot);
      var time :- CheckedAdd(state.genesisTime, span / 1_000);
      Some(StoreView(
        time := time,
        genesisTime := state.genesisTime,
        justified := checkpoint,
        finalized := checkpoint,
        unrealizedJustified := checkpoint,
        unrealizedFinalized := checkpoint,
        boostRoot := ZERO_ROOT,
        equivocating := {},
        blocks := map[root := block],
        blockStates := map[root := state],
        timeliness := map[root := Timeliness(true, true)],
        checkpointStates := map[checkpoint := state],
        latestMessages := map[],
        unrealizedJustifications := map[root := checkpoint],
        payloads := map[],
        queued := map[],
        sidecars := map[],
        timelinessVotes := map[],
        availabilityVotes := map[]))
  }

  // ---------------------------------------------------------------------------
  // Attestations and slashings
  // ---------------------------------------------------------------------------

  /** Every rule for admitting an attestation. */
  predicate AttestationAdmissible(cfg: Config, s: StoreView, data: AttestationData, isFromBlock: bool)
    requires Ordered(s.blocks)
  {
    var now := CurrentEpoch(cfg.preset, s);
    && (isFromBlock || data.target.epoch == now || data.target.epoch == SaturatingSub(now, 1))
    && data.target.epoch == cfg.preset.Epoch(data.slot)
    && data.target.root in s.blocks
    && data.beaconBlockRoot in s.blocks
    && s.blocks[data.beaconBlockRoot].slot <= data.slot
    && (data.index == 0 || data.index == 1)
    && (s.blocks[data.beaconBlockRoot].slot == data.slot ==> data.index == 0)
    && (data.index == 1 ==> data.beaconBlockRoot in s.payloads)
    && CheckpointBlock(cfg.preset, s.blocks, data.beaconBlockRoot, data.target.epoch) == Some(data.target.root)
    && IsAtOrAfterNextSlot(data.slot, CurrentSlot(cfg.preset, s))
  }

  /** Cache the state at a target checkpoint, fast-forwarding through empty slots. */
  function WithTargetState(cfg: Config, s: StoreView, target: Checkpoint): Option<StoreView> {
    if target in s.checkpointStates then Some(s)
    else if target.root !in s.blockStates then None
    else
      var held := s.blockStates[target.root];
      var slot := cfg.preset.StartSlot(target.epoch);
      var state :- if held.slot < slot then cfg.rules.processSlots(held, slot) else Some(held);
      Some(s.(checkpointStates := s.checkpointStates[target := state]))
  }

  /** A vote replaces what is held iff its signer is trusted and it is for a later slot. */
  predicate Supersedes(s: StoreView, v: ValidatorIndex, slot: Slot) {
    v !in s.equivocating && (v !in s.latestMessages || slot > s.latestMessages[v].slot)
  }

  function MessageOf(data: AttestationData): LatestMessage {
    LatestMessage(data.slot, data.beaconBlockRoot, data.index == 1)
  }

  /** The messages an attestation writes. */
  function FreshMessages(s: StoreView, voters: seq<ValidatorIndex>, data: AttestationData)
    : map<ValidatorIndex, LatestMessage>
  {
    map v | v in voters && Supersedes(s, v, data.slot) :: MessageOf(data)
  }

  /** `update_latest_messages`, all voters at once. */
  function WithMessages(s: StoreView, voters: seq<ValidatorIndex>, data: AttestationData): StoreView {
    s.(latestMessages := s.latestMessages + FreshMessages(s, voters, data))
  }

  function OnAttestation(cfg: Config, s: StoreView, attestation: Attestation, isFromBlock: bool): Option<StoreView>
    requires Ordered(s.blocks)
  {
    if !AttestationAdmissible(cfg, s, attestation.data, isFromBlock) then None
    else
      var cached :- WithTargetState(cfg, s, attestation.data.target);
      var voters :- cfg.rules.attesters(cached.checkpointStates[attestation.data.target], attestation);
      Some(WithMessages(cached, voters, attestation.data))
  }

  function OnAttesterSlashing(cfg: Config, s: StoreView, slashing: AttesterSlashing): Option<StoreView> {
    var a, b := slashing.attestation1, slashing.attestation2;
    if !cfg.rules.slashable(a.data, b.data) || s.justified.root !in s.blockStates then None
    else
      var state := s.blockStates[s.justified.root];
      if !cfg.rules.indexedAttestationValid(state, a) || !cfg.rules.indexedAttestationValid(state, b) then None
      else
        var both := set v | v in a.attestingIndices && v in b.attestingIndices;
        Some(s.(equivocating := s.equivocating + both))
  }

  // ---------------------------------------------------------------------------
  // Payload-timeliness votes
  // ---------------------------------------------------------------------------

  function PtcWindowIndex(preset: Preset, state: BeaconState, slot: Slot): Option<nat> {
    var epoch, stateEpoch := preset.Epoch(slot), preset.Epoch(state.slot);
    var offset := if preset.Mainnet? then slot % 32 else slot % 8;
    if epoch + 1 == stateEpoch then Some(offset)
    else if epoch == stateEpoch then Some(preset.SlotsPerEpoch() + offset)
    else if stateEpoch + 1 == epoch then Some(2 * preset.SlotsPerEpoch() + offset)
    else None
  }

  function PositionsIn(committee: seq<ValidatorIndex>, v: ValidatorIndex, k: nat): seq<nat>
    requires k <= |committee|
  {
    if k == 0 then [] else PositionsIn(committee, v, k - 1) + if committee[k - 1] == v then [k - 1] else []
  }

  /** Every committee position a validator holds; refused when it holds none. */
  function PtcPositions(preset: Preset, state: BeaconState, slot: Slot, v: ValidatorIndex): Option<seq<nat>> {
    var row :- PtcWindowIndex(preset, state, slot);
    if row >= |state.ptcWindow| then None
    else
      var committee := state.ptcWindow[row];
      var positions := PositionsIn(committee, v, |committee|);
      if positions == [] then None else Some(positions)
  }

  /** `value` at every position of `positions`; refused when one lies past the end. */
  function WithVotes(votes: VoteVector, positions: seq<nat>, value: bool): Option<VoteVector> {
    if exists i :: 0 <= i < |positions| && positions[i] >= |votes| then None
    else Some(seq(|votes|, i requires 0 <= i < |votes| => if i in positions then Some(value) else votes[i]))
  }

  function OnPtcMessage(cfg: Config, s: StoreView, message: PtcMessage, isFromBlock: bool): Option<StoreView> {
    var data := message.data;
    var root := data.beaconBlockRoot;
    if root !in s.blockStates then None
    else if data.slot != s.blockStates[root].slot then Some(s)
    else
      var positions :- PtcPositions(cfg.preset, s.blockStates[root], data.slot, message.validatorIndex);
      if !isFromBlock && (data.slot != CurrentSlot(cfg.preset, s)
                          || !cfg.rules.ptcMessageValid(s.blockStates[root], message)) then None
      else if root !in s.timelinessVotes || root !in s.availabilityVotes then None
      else
        var timely :- WithVotes(s.timelinessVotes[root], positions, data.payloadPresent);
        var available :- WithVotes(s.availabilityVotes[root], positions, data.blobDataAvailable);
        Some(s.(timelinessVotes := s.timelinessVotes[root := timely],
                availabilityVotes := s.availabilityVotes[root := available]))
  }

  /** The first `k` voters of one block-carried aggregate. */
  function NotifyVoters(cfg: Config, s: StoreView, data: PayloadAttestationData, voters: seq<ValidatorIndex>, k: nat)
    : Option<StoreView>
    requires k <= |voters|
  {
    if k == 0 then Some(s)
    else
      var before :- NotifyVoters(cfg, s, data, voters, k - 1);
      OnPtcMessage(cfg, before, PtcMessage(voters[k - 1], data, 0), true)
  }

  /** The first `k` aggregates carried by a block, expanded against its post-state. */
  function NotifyPtc(cfg: Config, s: StoreView, state: BeaconState, aggregates: seq<PayloadAttestation>, k: nat)
    : Option<StoreView>
    requires k <= |aggregates|
  {
    if k == 0 then Some(s)
    else
      var before :- NotifyPtc(cfg, s, state, aggregates, k - 1);
      var voters :- cfg.rules.payloadAttesters(state, aggregates[k - 1]);
      NotifyVoters(cfg, before, aggregates[k - 1].data, voters, |voters|)
  }

  // ---------------------------------------------------------------------------
  // Blocks
  // ---------------------------------------------------------------------------

  function DependentRoot(cfg: Config, s: StoreView, root: Root): Option<Root>
    requires Ordered(s.blocks)
  {
    var epoch := CurrentEpoch(cfg.preset, s);
    if epoch <= MIN_SEED_LOOKAHEAD then Some(ZERO_ROOT)
    else
      var start := cfg.preset.StartSlot(SaturatingSub(epoch, MIN_SEED_LOOKAHEAD));
      var reached :- Ancestor(s.blocks, Node(root, Pending), SaturatingSub(start, 1));
      Some(reached.root)
  }

  function TimelinessOf(cfg: Config, s: StoreView, slot: Slot): Timeliness {
    var current := CurrentSlot(cfg.preset, s) == slot;
    var into := TimeIntoSlotMs(cfg.preset, s);
    Timeliness(
      current && into < SlotComponentMs(cfg.preset, ATTESTATION_DUE_BPS),
      current && into < SlotComponentMs(cfg.preset, PAYLOAD_ATTESTATION_DUE_BPS))
  }

  /** The first timely block of a slot that shares the head's duty window is boosted. */
  function WithBoost(cfg: Config, s: StoreView, head: Root, root: Root): Option<StoreView>
    requires Ordered(s.blocks)
  {
    if root !in s.timeliness then None
    else
      var dependent :- DependentRoot(cfg, s, root);
      var headDependent :- DependentRoot(cfg, s, head);
      Some(if s.timeliness[root].attestationTimely && s.boostRoot == ZERO_ROOT && dependent == headDependent
           then s.(boostRoot := root) else s)
  }

  function UpdateUnrealized(s: StoreView, justified: Checkpoint, finalized: Checkpoint): StoreView {
    s.(unrealizedJustified := Newer(justified, s.unrealizedJustified),
       unrealizedFinalized := Newer(finalized, s.unrealizedFinalized))
  }

  /** Record what a block's state already justifies, adopting it if the epoch is past. */
  function WithPulledUpTip(cfg: Config, s: StoreView, root: Root): Option<StoreView> {
    if root !in s.blockStates || root !in s.blocks then None
    else
      var (justified, finalized) :- cfg.rules.pullUp(s.blockStates[root]);
      var noted := UpdateUnrealized(
        s.(unrealizedJustifications := s.unrealizedJustifications[root := justified]), justified, finalized);
      Some(if cfg.preset.Epoch(s.blocks[root].slot) < CurrentEpoch(cfg.preset, s)
           then UpdateCheckpoints(noted, justified, finalized) else noted)
  }

  /** The checks made before a block is looked into. */
  predicate BlockAdmissible(cfg: Config, s: StoreView, block: Block)
    requires Ordered(s.blocks)
  {
    && block.parentRoot in s.blockStates
    && ParentPayloadStatus(s.blocks, block).Some?
    && (ParentPayloadStatus(s.blocks, block) == Some(Full) ==> block.parentRoot in s.payloads)
    && block.slot <= CurrentSlot(cfg.preset, s)
    && cfg.preset.StartSlot(s.finalized.epoch) < block.slot
    && CheckpointBlock(cfg.preset, s.blocks, block.parentRoot, s.finalized.epoch) == Some(s.finalized.root)
  }

  /** The block, its post-state and empty vote vectors filed under its root. */
  function Filed(cfg: Config, s: StoreView, root: Root, block: Block, state: BeaconState): StoreView {
    var none: VoteVector := seq(cfg.preset.PtcSize(), _ => None);
    s.(blocks := s.blocks[root := block],
       blockStates := s.blockStates[root := state],
       timelinessVotes := s.timelinessVotes[root := none],
       availabilityVotes := s.availabilityVotes[root := none])
  }

  function WithTimeliness(cfg: Config, s: StoreView, root: Root, slot: Slot): StoreView {
    s.(timeliness := s.timeliness[root := TimelinessOf(cfg, s, slot)])
  }

  /** A block map stays ordered when a block is filed after its parent and before its children. */
  ghost predicate FitsOrder(blocks: Blocks, root: Root, block: Block) {
    Ordered(blocks[root := block])
  }

  /** The proposer boost, then the checkpoints of the new state and of its pulled-up tip. */
  function Settled(cfg: Config, s: StoreView, head: Root, root: Root, state: BeaconState): Option<StoreView>
    requires Ordered(s.blocks)
  {
    var boosted :- WithBoost(cfg, s, head, root);
    WithPulledUpTip(cfg, UpdateCheckpoints(boosted, state.currentJustified, state.finalized), root)
  }

  /** The block is filed, the payload votes it carries are replayed, timeliness is noted. */
  function Prepared(cfg: Config, s: StoreView, root: Root, block: Block, state: BeaconState): Option<StoreView> {
    var filed := Filed(cfg, s, root, block, state);
    var voted :- if state.slot == 0 then Some(filed)
                 else NotifyPtc(cfg, filed, state, block.body.payloadAttestations, |block.body.payloadAttestations|);
    Some(WithTimeliness(cfg, voted, root, block.slot))
  }

  /** Phases 3 to 5 of `on_block`, from the head seen before the import. */
  ghost function Imported(cfg: Config, s: StoreView, head: Root, root: Root, block: Block, state: BeaconState)
    : Option<StoreView>
    requires FitsOrder(s.blocks, root, block)
  {
    var prepared :- Prepared(cfg, s, root, block, state);
    VotesTouchOnlyVotes(cfg, Filed(cfg, s, root, block, state), state, block.body.payloadAttestations,
                        |block.body.payloadAttestations|);
    Settled(cfg, prepared, head, root, state)
  }

  /** Filing the block, if it gets that far, keeps the block map ordered. */
  ghost predicate OrderSafe(cfg: Config, s: StoreView, signed: SignedBlock)
    requires Ordered(s.blocks)
  {
    BlockAdmissible(cfg, s, signed.message)
    && cfg.rules.transition(s.blockStates[signed.message.parentRoot], signed).Some?
    ==> FitsOrder(s.blocks, cfg.rules.blockRoot(signed.message), signed.message)
  }

  ghost function OnBlock(cfg: Config, s: StoreView, signed: SignedBlock): Option<StoreView>
    requires Readable(s) && OrderSafe(cfg, s, signed)
  {
    var block := signed.message;
    var root := cfg.rules.blockRoot(block);
    if !BlockAdmissible(cfg, s, block) then None
    else
      var state :- cfg.rules.transition(s.blockStates[block.parentRoot], signed);
      var head :- Head(cfg, s);
      Imported(cfg, s, head.root, root, block, state)
  }

  lemma {:induction false} VotersTouchOnlyVotes(
    cfg: Config, s: StoreView, data: PayloadAttestationData, voters: seq<ValidatorIndex>, k: nat)
    requires k <= |voters| && NotifyVoters(cfg, s, data, voters, k).Some?
    ensures var t := NotifyVoters(cfg, s, data, voters, k).value;
      t == s.(timelinessVotes := t.timelinessVotes, availabilityVotes := t.availabilityVotes)
  {
    if k > 0 {
      VotersTouchOnlyVotes(cfg, s, data, voters, k - 1);
    }
  }

  /** Replaying a block's payload votes changes the two vote tables and nothing else. */
  lemma {:induction false} VotesTouchOnlyVotes(
    cfg: Config, s: StoreView, state: BeaconState, aggregates: seq<PayloadAttestation>, k: nat)
    requires k <= |aggregates|
    ensures NotifyPtc(cfg, s, state, aggregates, k).Some? ==>
      var t := NotifyPtc(cfg, s, state, aggregates, k).value;
      t == s.(timelinessVotes := t.timelinessVotes, availabilityVotes := t.availabilityVotes)
  {
    if k > 0 {
      VotesTouchOnlyVotes(cfg, s, state, aggregates, k - 1);
      var before := NotifyPtc(cfg, s, state, aggregates, k - 1);
      if before.Some? {
        var voters := cfg.rules.payloadAttesters(state, aggregates[k - 1]);
        if voters.Some? {
          var after := NotifyVoters(cfg, before.value, aggregates[k - 1].data, voters.value, |voters.value|);
          if after.Some? {
            VotersTouchOnlyVotes(cfg, before.value, aggregates[k - 1].data, voters.value, |voters.value|);
          }
        }
      }
    }
  }

  // ---------------------------------------------------------------------------
  // Envelopes and data columns
  // ---------------------------------------------------------------------------

  type Verifier = SignedEnvelope -> bool

  /** File a verified envelope and drop it from the queue. */
  function Recorded(s: StoreView, envelope: SignedEnvelope): StoreView {
    var root := envelope.message.beaconBlockRoot;
    s.(payloads := s.payloads[root := envelope.message], queued := s.queued - {root})
  }

  datatype Fate = Refused | Waits | Files

  /** What happens to a delivered envelope. */
  ghost function EnvelopeFate(cfg: Config, s: StoreView, envelope: SignedEnvelope, verifier: Verifier): Fate {
    var root := envelope.message.beaconBlockRoot;
    if root !in s.blockStates || !cfg.rules.envelopeValid(s.blockStates[root], envelope) then Refused
    else if !Available(cfg.rules, s, root) then Waits
    else if !verifier(envelope) then Refused
    else Files
  }

  ghost function OnEnvelope(cfg: Config, s: StoreView, envelope: SignedEnvelope, verifier: Verifier)
    : Option<StoreView>
  {
    match EnvelopeFate(cfg, s, envelope, verifier)
    case Refused => None
    case Waits => Some(s.(queued := s.queued[envelope.message.beaconBlockRoot := envelope]))
    case Files => Some(Recorded(s, envelope))
  }

  /** Release the envelope waiting for `root` if its data is available and it verifies. */
  ghost function Released(cfg: Config, s: StoreView, root: Root, verifier: Verifier): Option<StoreView> {
    if root !in s.queued || !Available(cfg.rules, s, root) then Some(s)
    else
      var envelope := s.queued[root];
      var named := envelope.message.beaconBlockRoot;
      if named !in s.blockStates || !cfg.rules.envelopeValid(s.blockStates[named], envelope) then None
      else if !verifier(envelope) then None
      else Some(Recorded(s, envelope))
  }

  predicate SidecarAdmissible(cfg: Config, s: StoreView, sidecar: Sidecar) {
    && sidecar.beaconBlockRoot in s.blocks
    && SidecarBelongs(cfg.rules, sidecar.beaconBlockRoot, s.blocks[sidecar.beaconBlockRoot], sidecar)
  }

  function WithSidecar(s: StoreView, sidecar: Sidecar): StoreView {
    var root := sidecar.beaconBlockRoot;
    s.(sidecars := s.sidecars[root := StoreSidecar(Stored(s, root), sidecar)])
  }

  /**
    * `record_data_column_sidecar`. This handler is not transactional: once the column is
    * admissible it stays stored even if releasing the waiting envelope then fails.
    */
  ghost function OnSidecar(cfg: Config, s: StoreView, sidecar: Sidecar, verifier: Verifier): (StoreView, bool) {
    if !SidecarAdmissible(cfg, s, sidecar) then (s, false)
    else
      var stored := WithSidecar(s, sidecar);
      match Released(cfg, stored, sidecar.beaconBlockRoot, verifier)
      case Some(t) => (t, true)
      case None => (stored, false)
  }
}
