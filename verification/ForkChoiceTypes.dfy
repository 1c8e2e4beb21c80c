/** The objects fork choice reads and writes, and the outside rules it calls. */
module ForkChoiceTypes {
  import opened Primitives

  /** A 32-byte root read as one big-endian number: byte-wise order is numeric order. */
  type Root = nat

  const ZERO_ROOT: Root := 0

  type Slot = U64
  type Epoch = U64
  type ValidatorIndex = nat

  const NUMBER_OF_COLUMNS: nat := 128

  datatype Checkpoint = Checkpoint(epoch: Epoch, root: Root)

  datatype Validator = Validator(
    effectiveBalance: U64, slashed: bool, activationEpoch: Epoch, exitEpoch: Epoch)

  /** The parts of a beacon state fork choice looks at; `rest` stands for all the rest. */
  datatype BeaconState = BeaconState(
    slot: Slot,
    genesisTime: U64,
    currentJustified: Checkpoint,
    finalized: Checkpoint,
    validators: seq<Validator>,
    ptcWindow: seq<seq<ValidatorIndex>>,
    rest: nat)

  /** A builder's promise: the payload it builds on, the one it makes, and its blobs. */
  datatype Bid = Bid(parentBlockHash: nat, blockHash: nat, commitments: seq<nat>)

  datatype PayloadAttestationData = PayloadAttestationData(
    beaconBlockRoot: Root, slot: Slot, payloadPresent: bool, blobDataAvailable: bool)

  datatype PayloadAttestation = PayloadAttestation(data: PayloadAttestationData, bits: nat)

  datatype PtcMessage = PtcMessage(
    validatorIndex: ValidatorIndex, data: PayloadAttestationData, signature: nat)

  datatype AttestationData = AttestationData(
    slot: Slot, index: U64, beaconBlockRoot: Root, target: Checkpoint, source: Checkpoint)

  datatype Attestation = Attestation(data: AttestationData, bits: nat)

  datatype IndexedAttestation = IndexedAttestation(
    attestingIndices: seq<ValidatorIndex>, data: AttestationData, signature: nat)

  datatype AttesterSlashing = AttesterSlashing(
    attestation1: IndexedAttestation, attestation2: IndexedAttestation)

  datatype BlockBody = BlockBody(
    bid: Bid,
    payloadAttestations: seq<PayloadAttestation>,
    attestations: seq<Attestation>,
    attesterSlashings: seq<AttesterSlashing>,
    rest: nat)

  datatype Block = Block(
    slot: Slot, proposerIndex: ValidatorIndex, parentRoot: Root, stateRoot: Root, body: BlockBody)

  datatype SignedBlock = SignedBlock(message: Block, signature: nat)

  datatype Envelope = Envelope(beaconBlockRoot: Root, payload: nat)

  datatype SignedEnvelope = SignedEnvelope(message: Envelope, signature: nat)

  datatype Sidecar = Sidecar(
    beaconBlockRoot: Root, slot: Slot, index: U64, column: seq<nat>, kzgProofs: seq<nat>)

  /** The latest vote accepted from one validator. */
  datatype LatestMessage = LatestMessage(slot: Slot, root: Root, payloadPresent: bool) {
    function SupportedPayloadStatus(blockSlot: Slot): PayloadStatus {
      if blockSlot < slot then (if payloadPresent then Full else Empty) else Pending
    }
  }

  datatype PayloadStatus = Empty | Full | Pending {
    function OrdinaryRank(): nat {
      match this
      case Empty => 0
      case Full => 1
      case Pending => 2
    }
  }

  /** One position of the fork-choice tree: a block together with its payload branch. */
  datatype Node = Node(root: Root, status: PayloadStatus)

  datatype Timeliness = Timeliness(attestationTimely: bool, payloadAttestationTimely: bool)

  type VoteVector = seq<Option<bool>>

  type Blocks = map<Root, Block>

  /** A snapshot of every field of the store. */
  datatype StoreView = StoreView(
    time: U64,
    genesisTime: U64,
    justified: Checkpoint,
    finalized: Checkpoint,
    unrealizedJustified: Checkpoint,
    unrealizedFinalized: Checkpoint,
    boostRoot: Root,
    equivocating: set<ValidatorIndex>,
    blocks: Blocks,
    blockStates: map<Root, BeaconState>,
    timeliness: map<Root, Timeliness>,
    checkpointStates: map<Checkpoint, BeaconState>,
    latestMessages: map<ValidatorIndex, LatestMessage>,
    unrealizedJustifications: map<Root, Checkpoint>,
    payloads: map<Root, Envelope>,
    queued: map<Root, SignedEnvelope>,
    sidecars: map<Root, seq<Sidecar>>,
    timelinessVotes: map<Root, VoteVector>,
    availabilityVotes: map<Root, VoteVector>)

  /**
    * Everything fork choice calls but does not define: hashing, the state transition,
    * signatures, KZG. Each is an arbitrary total function; `Lawful` is all that is
    * ever required of them.
    */
  datatype Rules = Rules(
    blockRoot: Block -> Root,
    stateRoot: BeaconState -> Root,
    transition: (BeaconState, SignedBlock) -> Option<BeaconState>,
    processSlots: (BeaconState, Slot) -> Option<BeaconState>,
    // The justified and finalized checkpoints after replaying justification on a copy.
    pullUp: BeaconState -> Option<(Checkpoint, Checkpoint)>,
    // The signers of an attestation whose aggregate signature verifies.
    attesters: (BeaconState, Attestation) -> Option<seq<ValidatorIndex>>,
    indexedAttestationValid: (BeaconState, IndexedAttestation) -> bool,
    slashable: (AttestationData, AttestationData) -> bool,
    payloadAttesters: (BeaconState, PayloadAttestation) -> Option<seq<ValidatorIndex>>,
    ptcMessageValid: (BeaconState, PtcMessage) -> bool,
    envelopeValid: (BeaconState, SignedEnvelope) -> bool,
    kzgProofsValid: (Sidecar, seq<nat>) -> bool,
    // Every beacon committee of a slot, by committee index.
    committees: (BeaconState, Slot) -> Option<seq<seq<ValidatorIndex>>>)
  {
    /**
      * The state transition moves strictly forward to the block's slot, and a
      * signature decides only acceptance, never the resulting state.
      */
    ghost predicate Lawful() {
      && (forall pre: BeaconState, signed: SignedBlock :: transition(pre, signed).Some? ==>
            pre.slot < signed.message.slot == transition(pre, signed).value.slot)
      && (forall pre, a: SignedBlock, b: SignedBlock ::
            (a.message == b.message && transition(pre, a).Some? && transition(pre, b).Some?) ==>
              transition(pre, a) == transition(pre, b))
    }
  }

  datatype Config = Config(preset: Preset, rules: Rules)

  predicate IsNextSlot(previous: Slot, next: Slot) {
    CheckedAdd(previous, 1) == Some(next)
  }

  predicate IsAtOrAfterNextSlot(previous: Slot, current: Slot) {
    var next := CheckedAdd(previous, 1);
    next.Some? && current >= next.value
  }
}
