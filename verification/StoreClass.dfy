/**
  * The fork-choice store as the mutable object it is. Each handler updates fields step by
  * step; its contract ties the new `View()` to the handler's function on snapshots.
  *
  * The handlers named `…Inner` may fail half-way and then leave a store nobody keeps: a
  * transactional handler calls them on a scratch copy and commits only on success.
  */
module StoreClass {
  import opened Primitives
  import opened ForkChoiceTypes
  import opened Ancestry
  import opened Clock
  import opened HeadKey
  import opened HeadWalk
  import opened Columns
  import opened Handlers
  import opened StoreInvariant
  import opened BlockInvariant
  import opened StoreRuns

  // ---------------------------------------------------------------------------
  // A failed prefix of votes fails the whole replay
  // ---------------------------------------------------------------------------

  lemma {:induction false} VotersStop(
    cfg: Config, s: StoreView, data: PayloadAttestationData, voters: seq<ValidatorIndex>, k: nat, n: nat)
    requires k <= n <= |voters| && NotifyVoters(cfg, s, data, voters, k).None?
    ensures NotifyVoters(cfg, s, data, voters, n).None?
  {
    hide OnPtcMessage;
    if k < n {
      VotersStop(cfg, s, data, voters, k, n - 1);
    }
  }

  lemma {:induction false} AggregatesStop(
    cfg: Config, s: StoreView, state: BeaconState, aggregates: seq<PayloadAttestation>, k: nat, n: nat)
    requires k <= n <= |aggregates| && NotifyPtc(cfg, s, state, aggregates, k).None?
    ensures NotifyPtc(cfg, s, state, aggregates, n).None?
  {
    hide NotifyVoters;
    if k < n {
      AggregatesStop(cfg, s, state, aggregates, k, n - 1);
    }
  }

  lemma {:induction false} AttestationsStop(
    cfg: Config, s: StoreView, attestations: seq<Attestation>, k: nat, n: nat)
    requires Ordered(s.blocks) && k <= n <= |attestations| && ReplayAttestations(cfg, s, attestations, k).None?
    ensures ReplayAttestations(cfg, s, attestations, n).None?
  {
    hide OnAttestation, Ordered;
    if k < n {
      AttestationsStop(cfg, s, attestations, k, n - 1);
    }
  }

  lemma {:induction false} SlashingsStop(
    cfg: Config, s: StoreView, slashings: seq<AttesterSlashing>, k: nat, n: nat)
    requires k <= n <= |slashings| && ReplaySlashings(cfg, s, slashings, k).None?
    ensures ReplaySlashings(cfg, s, slashings, n).None?
  {
    hide OnAttesterSlashing;
    if k < n {
      SlashingsStop(cfg, s, slashings, k, n - 1);
    }
  }

  /** How many positions come before the first one past the end. */
  function Writable(positions: seq<nat>, length: nat): (k: nat)
    ensures k <= |positions| && (forall i :: 0 <= i < k ==> positions[i] < length)
    ensures k < |positions| ==> positions[k] >= length
  {
    if positions == [] || positions[0] >= length then 0 else 1 + Writable(positions[1..], length)
  }

  /** The votes once `value` is set at each position before the first one past the end. */
  function Written(votes: VoteVector, positions: seq<nat>, value: bool): VoteVector {
    var reached := positions[..Writable(positions, |votes|)];
    seq(|votes|, i requires 0 <= i < |votes| => if i in reached then Some(value) else votes[i])
  }

  lemma WritableIs(positions: seq<nat>, length: nat, k: nat)
    requires k <= |positions| && (forall i :: 0 <= i < k ==> positions[i] < length)
    requires k < |positions| ==> positions[k] >= length
    ensures Writable(positions, length) == k
  {
    hide Writable;
  }

  /** Set `value` at each listed position, stopping at the first one past the end. */
  method WriteVotePositions(votes: array<Option<bool>>, positions: seq<nat>, value: bool) returns (ok: bool)
    modifies votes
    ensures votes[..] == Written(old(votes[..]), positions, value)
    ensures ok ==> WithVotes(old(votes[..]), positions, value) == Some(votes[..])
    ensures !ok ==> WithVotes(old(votes[..]), positions, value).None?
  {
    hide Writable;
    for k := 0 to |positions|
      invariant forall i :: 0 <= i < k ==> positions[i] < votes.Length
      invariant forall i :: 0 <= i < votes.Length ==>
        votes[i] == if i in positions[..k] then Some(value) else old(votes[i])
    {
      if positions[k] >= votes.Length {
        WritableIs(positions, votes.Length, k);
        return false;
      }
      votes[positions[k]] := Some(value);
      assert positions[..k + 1] == positions[..k] + [positions[k]];
    }
    assert positions[..|positions|] == positions;
    WritableIs(positions, votes.Length, |positions|);
    assert votes[..] == WithVotes(old(votes[..]), positions, value).value;
    ok := true;
  }

  class Store {
    const cfg: Config
    var time: U64
    var genesisTime: U64
    var justified: Checkpoint
    var finalized: Checkpoint
    var unrealizedJustified: Checkpoint
    var unrealizedFinalized: Checkpoint
    var boostRoot: Root
    var equivocating: set<ValidatorIndex>
    var blocks: Blocks
    var blockStates: map<Root, BeaconState>
    var timeliness: map<Root, Timeliness>
    var checkpointStates: map<Checkpoint, BeaconState>
    var latestMessages: map<ValidatorIndex, LatestMessage>
    var unrealizedJustifications: map<Root, Checkpoint>
    var payloads: map<Root, Envelope>
    var queued: map<Root, SignedEnvelope>
    var sidecars: map<Root, seq<Sidecar>>
    var timelinessVotes: map<Root, VoteVector>
    var availabilityVotes: map<Root, VoteVector>

    /** Every field as one value. */
    function View(): StoreView
      reads this
    {
      StoreView(time, genesisTime, justified, finalized, unrealizedJustified, unrealizedFinalized, boostRoot,
                equivocating, blocks, blockStates, timeliness, checkpointStates, latestMessages,
                unrealizedJustifications, payloads, queued, sidecars, timelinessVotes, availabilityVotes)
    }

    /** A store holding the fields of `view`. */
    constructor (cfg: Config, view: StoreView)
      ensures this.cfg == cfg && View() == view
    {
      this.cfg := cfg;
      time, genesisTime := view.time, view.genesisTime;
      justified, finalized := view.justified, view.finalized;
      unrealizedJustified, unrealizedFinalized := view.unrealizedJustified, view.unrealizedFinalized;
      boostRoot, equivocating := view.boostRoot, view.equivocating;
      blocks, blockStates, timeliness := view.blocks, view.blockStates, view.timeliness;
      checkpointStates, latestMessages := view.checkpointStates, view.latestMessages;
      unrealizedJustifications := view.unrealizedJustifications;
      payloads, queued, sidecars := view.payloads, view.queued, view.sidecars;
      timelinessVotes, availabilityVotes := view.timelinessVotes, view.availabilityVotes;
    }

    /** Take over every field of a scratch copy. */
    method Commit(scratch: StoreView)
      modifies this
      ensures View() == scratch
    {
      CommitClock(scratch);
      CommitBlocks(scratch);
      CommitPayloads(scratch);
    }

    method CommitClock(scratch: StoreView)
      modifies this`time, this`genesisTime, this`justified, this`finalized
      modifies this`unrealizedJustified, this`unrealizedFinalized, this`boostRoot, this`equivocating
      ensures time == scratch.time && genesisTime == scratch.genesisTime
      ensures justified == scratch.justified && finalized == scratch.finalized
      ensures unrealizedJustified == scratch.unrealizedJustified
      ensures unrealizedFinalized == scratch.unrealizedFinalized
      ensures boostRoot == scratch.boostRoot && equivocating == scratch.equivocating
    {
      time, genesisTime := scratch.time, scratch.genesisTime;
      justified, finalized := scratch.justified, scratch.finalized;
      unrealizedJustified, unrealizedFinalized := scratch.unrealizedJustified, scratch.unrealizedFinalized;
      boostRoot, equivocating := scratch.boostRoot, scratch.equivocating;
    }

    method CommitBlocks(scratch: StoreView)
      modifies this`blocks, this`blockStates, this`timeliness, this`checkpointStates
      modifies this`latestMessages, this`unrealizedJustifications
      ensures blocks == scratch.blocks && blockStates == scratch.blockStates && timeliness == scratch.timeliness
      ensures checkpointStates == scratch.checkpointStates && latestMessages == scratch.latestMessages
      ensures unrealizedJustifications == scratch.unrealizedJustifications
    {
      blocks, blockStates, timeliness := scratch.blocks, scratch.blockStates, scratch.timeliness;
      checkpointStates, latestMessages := scratch.checkpointStates, scratch.latestMessages;
      unrealizedJustifications := scratch.unrealizedJustifications;
    }

    method CommitPayloads(scratch: StoreView)
      modifies this`payloads, this`queued, this`sidecars, this`timelinessVotes, this`availabilityVotes
      ensures payloads == scratch.payloads && queued == scratch.queued && sidecars == scratch.sidecars
      ensures timelinessVotes == scratch.timelinessVotes && availabilityVotes == scratch.availabilityVotes
    {
      payloads, queued, sidecars := scratch.payloads, scratch.queued, scratch.sidecars;
      timelinessVotes, availabilityVotes := scratch.timelinessVotes, scratch.availabilityVotes;
    }

    // -------------------------------------------------------------------------
    // Clock and checkpoints
    // -------------------------------------------------------------------------

    method UpdateCheckpoints(justified: Checkpoint, finalized: Checkpoint)
      modifies this`justified, this`finalized
      ensures View() == Clock.UpdateCheckpoints(old(View()), justified, finalized)
    {
      if justified.epoch > this.justified.epoch {
        this.justified := justified;
      }
      if finalized.epoch > this.finalized.epoch {
        this.finalized := finalized;
      }
    }

    method OnTickPerSlot(time: U64)
      modifies this`time, this`boostRoot, this`justified, this`finalized
      ensures View() == TickPerSlot(cfg.preset, old(View()), time)
    {
      hide SlotAtTime, SlotsSinceEpochStart, Newer;
      var previous := CurrentSlot(cfg.preset, View());
      this.time := time;
      var current := CurrentSlot(cfg.preset, View());
      if current > previous {
        boostRoot := ZERO_ROOT;
      }
      if current > previous && SlotsSinceEpochStart(cfg.preset, current) == 0 {
        UpdateCheckpoints(unrealizedJustified, unrealizedFinalized);
      }
    }

    /** Step through every slot boundary up to `time`; the effect is one `Ticked`. */
    method OnTick(time: U64) returns (ok: bool)
      modifies this`time, this`boostRoot, this`justified, this`finalized
      ensures ok <==> time >= old(this.time)
      ensures View() == if ok then Ticked(cfg.preset, old(View()), time) else old(View())
    {
      hide SlotAtTime, SlotStartTime, TickPerSlot, Ticked;
      if time < this.time {
        return false;
      }
      ghost var start := View();
      var preset := cfg.preset;
      var tickSlot := SlotAtTime(preset, genesisTime, time);
      TickInPlace(preset, start);
      SlotMonotone(preset, start.genesisTime, start.time, time);
      while CurrentSlot(preset, View()) < tickSlot
        invariant start.time <= this.time <= time && genesisTime == start.genesisTime
        invariant tickSlot == SlotAtTime(preset, start.genesisTime, time)
        invariant CurrentSlot(preset, View()) <= tickSlot
        invariant View() == Ticked(preset, start, this.time)
        decreases tickSlot - CurrentSlot(preset, View())
      {
        var next := SaturatingAdd(CurrentSlot(preset, View()), 1);
        var boundary := SlotStartTime(preset, genesisTime, next);
        BoundaryStep(preset, start, View(), time);
        OnTickPerSlot(boundary);
      }
      LastStep(preset, start, View(), time);
      OnTickPerSlot(time);
      ok := true;
    }

    // -------------------------------------------------------------------------
    // Attestations and slashings
    // -------------------------------------------------------------------------

    method StoreTargetCheckpointState(target: Checkpoint) returns (ok: bool)
      modifies this`checkpointStates
      ensures ok <==> WithTargetState(cfg, old(View()), target).Some?
      ensures View() == if ok then WithTargetState(cfg, old(View()), target).value else old(View())
    {
      if target in checkpointStates {
        return true;
      }
      if target.root !in blockStates {
        return false;
      }
      var state := blockStates[target.root];
      var targetSlot := cfg.preset.StartSlot(target.epoch);
      if state.slot < targetSlot {
        var advanced := cfg.rules.processSlots(state, targetSlot);
        if advanced.None? {
          return false;
        }
        state := advanced.value;
      }
      checkpointStates := checkpointStates[target := state];
      ok := true;
    }

    method UpdateLatestMessages(voters: seq<ValidatorIndex>, data: AttestationData)
      modifies this`latestMessages
      ensures View() == WithMessages(old(View()), voters, data)
    {
      hide WithMessages, MessageOf;
      ghost var before := View();
      NoVoters(before, data);
      assert voters[..0] == [];
      for k := 0 to |voters|
        invariant View() == WithMessages(before, voters[..k], data)
      {
        var v := voters[k];
        OneMoreVoter(before, voters[..k], v, data);
        assert voters[..k + 1] == voters[..k] + [v];
        if v !in equivocating && (v !in latestMessages || data.slot > latestMessages[v].slot) {
          latestMessages := latestMessages[v := MessageOf(data)];
        }
      }
      assert voters[..|voters|] == voters;
    }

    method OnAttestationInner(attestation: Attestation, isFromBlock: bool) returns (ok: bool)
      requires Ordered(blocks)
      modifies this`checkpointStates, this`latestMessages
      ensures ok ==> Handlers.OnAttestation(cfg, old(View()), attestation, isFromBlock) == Some(View())
      ensures !ok ==> Handlers.OnAttestation(cfg, old(View()), attestation, isFromBlock).None?
    {
      hide AttestationAdmissible, WithTargetState, WithMessages, Ordered;
      if !AttestationAdmissible(cfg, View(), attestation.data, isFromBlock) {
        return false;
      }
      ok := StoreTargetCheckpointState(attestation.data.target);
      if !ok {
        return;
      }
      TargetIsCached(cfg, old(View()), attestation.data.target);
      var voters := cfg.rules.attesters(checkpointStates[attestation.data.target], attestation);
      if voters.None? {
        return false;
      }
      UpdateLatestMessages(voters.value, attestation.data);
    }

    method OnAttestation(attestation: Attestation, isFromBlock: bool) returns (ok: bool)
      requires Ordered(blocks)
      modifies this
      ensures ok <==> Handlers.OnAttestation(cfg, old(View()), attestation, isFromBlock).Some?
      ensures View() ==
        if ok then Handlers.OnAttestation(cfg, old(View()), attestation, isFromBlock).value else old(View())
    {
      hide Handlers.OnAttestation, Ordered;
      var scratch := new Store(cfg, View());
      ok := scratch.OnAttestationInner(attestation, isFromBlock);
      if ok {
        Commit(scratch.View());
      }
    }

    method OnAttesterSlashing(slashing: AttesterSlashing) returns (ok: bool)
      modifies this`equivocating
      ensures ok <==> Handlers.OnAttesterSlashing(cfg, old(View()), slashing).Some?
      ensures View() == if ok then Handlers.OnAttesterSlashing(cfg, old(View()), slashing).value else old(View())
    {
      var a, b := slashing.attestation1, slashing.attestation2;
      if !cfg.rules.slashable(a.data, b.data) || justified.root !in blockStates {
        return false;
      }
      var state := blockStates[justified.root];
      if !cfg.rules.indexedAttestationValid(state, a) || !cfg.rules.indexedAttestationValid(state, b) {
        return false;
      }
      equivocating := equivocating + set v | v in a.attestingIndices && v in b.attestingIndices;
      ok := true;
    }

    // -------------------------------------------------------------------------
    // Payload-timeliness votes
    // -------------------------------------------------------------------------

    /**
      * Both vectors are looked up before either is written. A position past the end stops
      * the writing where it is, in the second vector too.
      */
    method RecordPayloadVotePositions(root: Root, positions: seq<nat>, present: bool, available: bool)
      returns (ok: bool)
      modifies this`timelinessVotes, this`availabilityVotes
      ensures ok <==>
        && root in old(timelinessVotes) && root in old(availabilityVotes)
        && WithVotes(old(timelinessVotes)[root], positions, present).Some?
        && WithVotes(old(availabilityVotes)[root], positions, available).Some?
      ensures ok ==>
        && timelinessVotes ==
             old(timelinessVotes)[root := WithVotes(old(timelinessVotes)[root], positions, present).value]
        && availabilityVotes ==
             old(availabilityVotes)[root := WithVotes(old(availabilityVotes)[root], positions, available).value]
      ensures root !in old(timelinessVotes) || root !in old(availabilityVotes) ==> View() == old(View())
      ensures root in old(timelinessVotes) && root in old(availabilityVotes) ==>
        && timelinessVotes == old(timelinessVotes)[root := Written(old(timelinessVotes)[root], positions, present)]
        && availabilityVotes ==
             if WithVotes(old(timelinessVotes)[root], positions, present).None? then old(availabilityVotes)
             else old(availabilityVotes)[root := Written(old(availabilityVotes)[root], positions, available)]
    {
      hide WithVotes, Written;
      if root !in timelinessVotes || root !in availabilityVotes {
        return false;
      }
      var timely, data := timelinessVotes[root], availabilityVotes[root];
      var cells := new Option<bool>[|timely|](i requires 0 <= i < |timely| => timely[i]);
      assert cells[..] == timely;
      ok := WriteVotePositions(cells, positions, present);
      timelinessVotes := timelinessVotes[root := cells[..]];
      if !ok {
        return;
      }
      var dataCells := new Option<bool>[|data|](i requires 0 <= i < |data| => data[i]);
      assert dataCells[..] == data;
      ok := WriteVotePositions(dataCells, positions, available);
      availabilityVotes := availabilityVotes[root := dataCells[..]];
    }

    method OnPtcMessageInner(message: PtcMessage, isFromBlock: bool) returns (ok: bool)
      modifies this`timelinessVotes, this`availabilityVotes
      ensures ok ==> Handlers.OnPtcMessage(cfg, old(View()), message, isFromBlock) == Some(View())
      ensures !ok ==> Handlers.OnPtcMessage(cfg, old(View()), message, isFromBlock).None?
    {
      hide WithVotes, PtcPositions, CurrentSlot;
      var data := message.data;
      var root := data.beaconBlockRoot;
      if root !in blockStates {
        return false;
      }
      var state := blockStates[root];
      if data.slot != state.slot {
        return true;
      }
      var positions := PtcPositions(cfg.preset, state, data.slot, message.validatorIndex);
      if positions.None? {
        return false;
      }
      if !isFromBlock {
        if data.slot != CurrentSlot(cfg.preset, View()) || !cfg.rules.ptcMessageValid(state, message) {
          return false;
        }
      }
      ok := RecordPayloadVotePositions(root, positions.value, data.payloadPresent, data.blobDataAvailable);
    }

    method OnPtcMessage(message: PtcMessage, isFromBlock: bool) returns (ok: bool)
      modifies this
      ensures ok <==> Handlers.OnPtcMessage(cfg, old(View()), message, isFromBlock).Some?
      ensures View() ==
        if ok then Handlers.OnPtcMessage(cfg, old(View()), message, isFromBlock).value else old(View())
    {
      hide Handlers.OnPtcMessage;
      var scratch := new Store(cfg, View());
      ok := scratch.OnPtcMessageInner(message, isFromBlock);
      if ok {
        Commit(scratch.View());
      }
    }

    /** One aggregate's voters, each fed through the handler a gossip vote uses. */
    method NotifyVoters(data: PayloadAttestationData, voters: seq<ValidatorIndex>) returns (ok: bool)
      modifies this`timelinessVotes, this`availabilityVotes
      ensures ok ==> Handlers.NotifyVoters(cfg, old(View()), data, voters, |voters|) == Some(View())
      ensures !ok ==> Handlers.NotifyVoters(cfg, old(View()), data, voters, |voters|).None?
    {
      hide Handlers.OnPtcMessage;
      ghost var before := View();
      for k := 0 to |voters|
        invariant Handlers.NotifyVoters(cfg, before, data, voters, k) == Some(View())
      {
        ok := OnPtcMessageInner(PtcMessage(voters[k], data, 0), true);
        if !ok {
          VotersStop(cfg, before, data, voters, k + 1, |voters|);
          return;
        }
      }
      ok := true;
    }

    /** Fold a block's payload votes into the store; a block at slot zero has none. */
    method NotifyPtcMessages(state: BeaconState, aggregates: seq<PayloadAttestation>) returns (ok: bool)
      modifies this`timelinessVotes, this`availabilityVotes
      ensures ok <==> state.slot == 0 || NotifyPtc(cfg, old(View()), state, aggregates, |aggregates|).Some?
      ensures ok ==>
        (View() == if state.slot == 0 then old(View())
                   else NotifyPtc(cfg, old(View()), state, aggregates, |aggregates|).value)
    {
      hide Handlers.NotifyVoters;
      if state.slot == 0 {
        return true;
      }
      ghost var before := View();
      for k := 0 to |aggregates|
        invariant NotifyPtc(cfg, before, state, aggregates, k) == Some(View())
      {
        var voters := cfg.rules.payloadAttesters(state, aggregates[k]);
        ok := voters.Some?;
        if ok {
          ok := NotifyVoters(aggregates[k].data, voters.value);
        }
        if !ok {
          AggregatesStop(cfg, before, state, aggregates, k + 1, |aggregates|);
          return;
        }
      }
      ok := true;
    }

    // -------------------------------------------------------------------------
    // Blocks
    // -------------------------------------------------------------------------

    method RecordBlockTimeliness(root: Root) returns (ok: bool)
      modifies this`timeliness
      ensures ok <==> root in blocks
      ensures View() == if ok then WithTimeliness(cfg, old(View()), root, blocks[root].slot) else old(View())
    {
      hide TimelinessOf;
      if root !in blocks {
        return false;
      }
      timeliness := timeliness[root := TimelinessOf(cfg, View(), blocks[root].slot)];
      ok := true;
    }

    method UpdateProposerBoostRoot(head: Root, root: Root) returns (ok: bool)
      requires Ordered(blocks)
      modifies this`boostRoot
      ensures ok <==> WithBoost(cfg, old(View()), head, root).Some?
      ensures View() == if ok then WithBoost(cfg, old(View()), head, root).value else old(View())
    {
      hide DependentRoot, Ordered;
      if root !in timeliness {
        return false;
      }
      var dependent := DependentRoot(cfg, View(), root);
      var headDependent := DependentRoot(cfg, View(), head);
      if dependent.None? || headDependent.None? {
        return false;
      }
      if timeliness[root].attestationTimely && boostRoot == ZERO_ROOT && dependent == headDependent {
        boostRoot := root;
      }
      ok := true;
    }

    method UpdateUnrealizedCheckpoints(justified: Checkpoint, finalized: Checkpoint)
      modifies this`unrealizedJustified, this`unrealizedFinalized
      ensures View() == UpdateUnrealized(old(View()), justified, finalized)
    {
      if justified.epoch > unrealizedJustified.epoch {
        unrealizedJustified := justified;
      }
      if finalized.epoch > unrealizedFinalized.epoch {
        unrealizedFinalized := finalized;
      }
    }

    method ComputePulledUpTip(root: Root) returns (ok: bool)
      modifies this`unrealizedJustifications, this`unrealizedJustified, this`unrealizedFinalized
      modifies this`justified, this`finalized
      ensures ok <==> WithPulledUpTip(cfg, old(View()), root).Some?
      ensures View() == if ok then WithPulledUpTip(cfg, old(View()), root).value else old(View())
    {
      hide UpdateUnrealized, Clock.UpdateCheckpoints, SlotAtTime;
      if root !in blockStates || root !in blocks {
        return false;
      }
      var pulled := cfg.rules.pullUp(blockStates[root]);
      if pulled.None? {
        return false;
      }
      var (newJustified, newFinalized) := pulled.value;
      var isPast := cfg.preset.Epoch(blocks[root].slot) < CurrentEpoch(cfg.preset, View());
      ghost var filed := View().(unrealizedJustifications := unrealizedJustifications[root := newJustified]);
      NotingKeepsClock(cfg.preset, old(View()), filed, newJustified, newFinalized);
      unrealizedJustifications := unrealizedJustifications[root := newJustified];
      UpdateUnrealizedCheckpoints(newJustified, newFinalized);
      if isPast {
        UpdateCheckpoints(newJustified, newFinalized);
      }
      ok := true;
    }

    /** The block, its post-state and empty vote vectors. */
    method FileBlock(root: Root, block: Block, state: BeaconState)
      modifies this`blocks, this`blockStates, this`timelinessVotes, this`availabilityVotes
      ensures View() == Filed(cfg, old(View()), root, block, state)
    {
      var none: VoteVector := seq(cfg.preset.PtcSize(), _ => None);
      blocks := blocks[root := block];
      blockStates := blockStates[root := state];
      timelinessVotes := timelinessVotes[root := none];
      availabilityVotes := availabilityVotes[root := none];
      assert none == Filed(cfg, old(View()), root, block, state).timelinessVotes[root];
    }

    /** Phases 3 and 4 of an import, and the timeliness note that opens phase 5. */
    method PrepareBlock(root: Root, block: Block, state: BeaconState) returns (ok: bool)
      modifies this`blocks, this`blockStates, this`timelinessVotes, this`availabilityVotes, this`timeliness
      ensures ok <==> Prepared(cfg, old(View()), root, block, state).Some?
      ensures ok ==> View() == Prepared(cfg, old(View()), root, block, state).value
    {
      hide WithTimeliness, NotifyPtc, Filed;
      var aggregates := block.body.payloadAttestations;
      FileBlock(root, block, state);
      FiledBlocks(cfg, old(View()), root, block, state);
      VotesTouchOnlyVotes(cfg, View(), state, aggregates, |aggregates|);
      ok := NotifyPtcMessages(state, aggregates);
      if ok {
        ok := RecordBlockTimeliness(root);
      }
    }

    /** The proposer boost and the checkpoint updates that close phase 5. */
    method SettleBlock(head: Root, root: Root, state: BeaconState) returns (ok: bool)
      requires Ordered(blocks)
      modifies this`boostRoot, this`justified, this`finalized
      modifies this`unrealizedJustifications, this`unrealizedJustified, this`unrealizedFinalized
      ensures ok <==> Settled(cfg, old(View()), head, root, state).Some?
      ensures ok ==> View() == Settled(cfg, old(View()), head, root, state).value
    {
      hide WithBoost, WithPulledUpTip, Clock.UpdateCheckpoints, Ordered;
      ok := UpdateProposerBoostRoot(head, root);
      if !ok {
        return;
      }
      UpdateCheckpoints(state.currentJustified, state.finalized);
      ok := ComputePulledUpTip(root);
    }

    method OnBlockInner(signed: SignedBlock) returns (ok: bool)
      requires Readable(View()) && OrderSafe(cfg, View(), signed)
      modifies this
      ensures ok <==> Handlers.OnBlock(cfg, old(View()), signed).Some?
      ensures ok ==> View() == Handlers.OnBlock(cfg, old(View()), signed).value
    {
      hide BlockAdmissible, Head, Prepared, Settled, Ordered;
      var block := signed.message;
      if !BlockAdmissible(cfg, View(), block) {
        return false;
      }
      AdmissibleParent(cfg, View(), block);
      var root := cfg.rules.blockRoot(block);
      var state := cfg.rules.transition(blockStates[block.parentRoot], signed);
      if state.None? {
        return false;
      }
      var head := GetHead(cfg, View());
      if head.None? {
        return false;
      }
      ok := PrepareBlock(root, block, state.value);
      if !ok {
        return;
      }
      PreparedBlocks(cfg, old(View()), root, block, state.value);
      ok := SettleBlock(head.value.root, root, state.value);
    }

    method OnBlock(signed: SignedBlock) returns (ok: bool)
      requires Readable(View()) && OrderSafe(cfg, View(), signed)
      modifies this
      ensures ok <==> Handlers.OnBlock(cfg, old(View()), signed).Some?
      ensures View() == if ok then Handlers.OnBlock(cfg, old(View()), signed).value else old(View())
    {
      hide Handlers.OnBlock, Readable, OrderSafe;
      var scratch := new Store(cfg, View());
      ok := scratch.OnBlockInner(signed);
      if ok {
        Commit(scratch.View());
      }
    }

    method ReplayAttestations(attestations: seq<Attestation>) returns (ok: bool)
      requires Ordered(blocks)
      modifies this`checkpointStates, this`latestMessages
      ensures ok ==> StoreRuns.ReplayAttestations(cfg, old(View()), attestations, |attestations|) == Some(View())
      ensures !ok ==> StoreRuns.ReplayAttestations(cfg, old(View()), attestations, |attestations|).None?
    {
      hide Handlers.OnAttestation, Ordered;
      ghost var before := View();
      for k := 0 to |attestations|
        invariant StoreRuns.ReplayAttestations(cfg, before, attestations, k) == Some(View())
      {
        ok := OnAttestationInner(attestations[k], true);
        if !ok {
          AttestationsStop(cfg, before, attestations, k + 1, |attestations|);
          return;
        }
      }
      ok := true;
    }

    method ReplaySlashings(slashings: seq<AttesterSlashing>) returns (ok: bool)
      modifies this`equivocating
      ensures ok ==> StoreRuns.ReplaySlashings(cfg, old(View()), slashings, |slashings|) == Some(View())
      ensures !ok ==> StoreRuns.ReplaySlashings(cfg, old(View()), slashings, |slashings|).None?
    {
      hide Handlers.OnAttesterSlashing;
      ghost var before := View();
      for k := 0 to |slashings|
        invariant StoreRuns.ReplaySlashings(cfg, before, slashings, k) == Some(View())
      {
        ok := OnAttesterSlashing(slashings[k]);
        if !ok {
          SlashingsStop(cfg, before, slashings, k + 1, |slashings|);
          return;
        }
      }
      ok := true;
    }

    method ReplayMessages(block: Block) returns (ok: bool)
      requires Ordered(blocks)
      modifies this`checkpointStates, this`latestMessages, this`equivocating
      ensures ok ==> StoreRuns.ReplayMessages(cfg, old(View()), block) == Some(View())
      ensures !ok ==> StoreRuns.ReplayMessages(cfg, old(View()), block).None?
    {
      hide StoreRuns.ReplayAttestations, StoreRuns.ReplaySlashings, Ordered;
      ok := ReplayAttestations(block.body.attestations);
      if ok {
        ok := ReplaySlashings(block.body.attesterSlashings);
      }
    }

    method ImportWithMessages(signed: SignedBlock, ghost anchor: Root) returns (ok: bool)
      requires Inv(cfg, anchor, View()) && cfg.rules.Lawful() && Trusted(cfg, anchor, View(), signed.message)
      modifies this
      ensures ok <==> OnBlockWithMessages(cfg, anchor, old(View()), signed).Some?
      ensures ok ==> View() == OnBlockWithMessages(cfg, anchor, old(View()), signed).value
    {
      hide Handlers.OnBlock, Inv, Trusted, Readable, OrderSafe, Ordered, StoreRuns.ReplayMessages;
      AdmissibleBlockFits(cfg, anchor, View(), signed);
      ok := OnBlockInner(signed);
      if ok {
        BlockKeepsInv(cfg, anchor, old(View()), signed);
        InvIsReadable(cfg, anchor, View());
        ok := ReplayMessages(signed.message);
      }
    }

    /** The block and every message it carries: all of it or none of it. */
    method OnBlockWithEmbeddedMessages(signed: SignedBlock, ghost anchor: Root) returns (ok: bool)
      requires Inv(cfg, anchor, View()) && cfg.rules.Lawful() && Trusted(cfg, anchor, View(), signed.message)
      modifies this
      ensures ok <==> OnBlockWithMessages(cfg, anchor, old(View()), signed).Some?
      ensures View() == if ok then OnBlockWithMessages(cfg, anchor, old(View()), signed).value else old(View())
    {
      hide OnBlockWithMessages, Inv, Trusted;
      var updated := new Store(cfg, View());
      ok := updated.ImportWithMessages(signed, anchor);
      if ok {
        Commit(updated.View());
      }
    }

    // -------------------------------------------------------------------------
    // Envelopes and data columns
    // -------------------------------------------------------------------------

    method RecordEnvelope(envelope: SignedEnvelope)
      modifies this`payloads, this`queued
      ensures View() == Recorded(old(View()), envelope)
    {
      var root := envelope.message.beaconBlockRoot;
      payloads := payloads[root := envelope.message];
      queued := queued - {root};
    }

    method OnExecutionPayloadEnvelope(envelope: SignedEnvelope, verifier: Verifier) returns (ok: bool)
      modifies this`payloads, this`queued
      ensures ok <==> OnEnvelope(cfg, old(View()), envelope, verifier).Some?
      ensures View() == if ok then OnEnvelope(cfg, old(View()), envelope, verifier).value else old(View())
    {
      hide Available;
      var root := envelope.message.beaconBlockRoot;
      if root !in blockStates || !cfg.rules.envelopeValid(blockStates[root], envelope) {
        return false;
      }
      var available := IsDataAvailable(cfg.rules, View(), root);
      if !available {
        queued := queued[root := envelope];
        return true;
      }
      if !verifier(envelope) {
        return false;
      }
      RecordEnvelope(envelope);
      ok := true;
    }

    /** Release a waiting envelope; `released` reports whether one was filed. */
    method ProcessQueuedEnvelope(root: Root, verifier: Verifier) returns (ok: bool, released: bool)
      modifies this`payloads, this`queued
      ensures ok <==> Handlers.Released(cfg, old(View()), root, verifier).Some?
      ensures View() == if ok then Handlers.Released(cfg, old(View()), root, verifier).value else old(View())
      ensures released <==> ok && root in old(queued) && Available(cfg.rules, old(View()), root)
    {
      hide Available;
      if root !in queued {
        return true, false;
      }
      var available := IsDataAvailable(cfg.rules, View(), root);
      if !available {
        return true, false;
      }
      var envelope := queued[root];
      var named := envelope.message.beaconBlockRoot;
      if named !in blockStates || !cfg.rules.envelopeValid(blockStates[named], envelope) || !verifier(envelope) {
        return false, false;
      }
      RecordEnvelope(envelope);
      return true, true;
    }

    /** A refused release still leaves the admissible column stored. */
    method RecordDataColumnSidecar(sidecar: Sidecar, verifier: Verifier) returns (ok: bool)
      modifies this`sidecars, this`payloads, this`queued
      ensures (View(), ok) == OnSidecar(cfg, old(View()), sidecar, verifier)
    {
      hide SidecarBelongs, StoreSidecar, Handlers.Released;
      if !SidecarAdmissible(cfg, View(), sidecar) {
        return false;
      }
      var root := sidecar.beaconBlockRoot;
      sidecars := sidecars[root := StoreSidecar(Stored(View(), root), sidecar)];
      var released;
      ok, released := ProcessQueuedEnvelope(root, verifier);
    }

    // -------------------------------------------------------------------------
    // The structural check
    // -------------------------------------------------------------------------

    /** `check_invariants` reports a healthy store exactly when it is one. */
    method CheckInvariants() returns (ok: bool)
      ensures ok <==> Structured(cfg, View())
    {
      var left := blocks.Keys;
      while left != {}
        invariant left <= blocks.Keys
        invariant forall r :: r in blocks && r !in left ==> r in blockStates && r in timeliness
      {
        var r :| r in left;
        if r !in blockStates || r !in timeliness {
          return false;
        }
        left := left - {r};
      }
      left := timelinessVotes.Keys;
      while left != {}
        invariant left <= timelinessVotes.Keys
        invariant forall r :: r in timelinessVotes && r !in left ==> |timelinessVotes[r]| == cfg.preset.PtcSize()
      {
        var r :| r in left;
        if |timelinessVotes[r]| != cfg.preset.PtcSize() {
          return false;
        }
        left := left - {r};
      }
      left := availabilityVotes.Keys;
      while left != {}
        invariant left <= availabilityVotes.Keys
        invariant forall r :: r in availabilityVotes && r !in left ==> |availabilityVotes[r]| == cfg.preset.PtcSize()
      {
        var r :| r in left;
        if |availabilityVotes[r]| != cfg.preset.PtcSize() {
          return false;
        }
        left := left - {r};
      }
      left := blocks.Keys;
      while left != {}
        invariant left <= blocks.Keys
        invariant forall r :: r in blocks && r !in left && blocks[r].parentRoot in blocks ==>
          blocks[blocks[r].parentRoot].slot < blocks[r].slot
      {
        var r :| r in left;
        if blocks[r].parentRoot in blocks && blocks[blocks[r].parentRoot].slot >= blocks[r].slot {
          return false;
        }
        left := left - {r};
      }
      ok := true;
    }
  }

  /** What `check_invariants` looks for. */
  ghost predicate Structured(cfg: Config, s: StoreView) {
    && (forall r :: r in s.blocks ==> r in s.blockStates && r in s.timeliness)
    && (forall r :: r in s.timelinessVotes ==> |s.timelinessVotes[r]| == cfg.preset.PtcSize())
    && (forall r :: r in s.availabilityVotes ==> |s.availabilityVotes[r]| == cfg.preset.PtcSize())
    && (forall r :: r in s.blocks && s.blocks[r].parentRoot in s.blocks ==>
          s.blocks[s.blocks[r].parentRoot].slot < s.blocks[r].slot)
  }

  /** The structural check passes on every reachable store. */
  lemma ReachableIsStructured(cfg: Config, state: BeaconState, block: Block, events: seq<Event>, s: StoreView)
    requires ReachedBy(cfg, state, block, events, s)
    ensures Structured(cfg, s)
  {
    hide ReachedBy, MessagesSound, BoostSound, FullSound, StatesDerived, ColumnsSound, EnvelopesSound, Rooted;
    ReachableSatisfiesInv(cfg, state, block, events, s);
  }

  /** `get_forkchoice_store`: a fresh store, or a refusal. */
  method OpenStore(cfg: Config, state: BeaconState, block: Block) returns (store: Option<Store>)
    ensures store.Some? <==> AnchorStore(cfg, state, block).Some?
    ensures store.Some? ==>
      && fresh(store.value) && store.value.cfg == cfg
      && store.value.View() == AnchorStore(cfg, state, block).value
  {
    var view := AnchorStore(cfg, state, block);
    if view.None? {
      return None;
    }
    var created := new Store(cfg, view.value);
    store := Some(created);
  }

  lemma NotingKeepsClock(
    preset: Preset, s: StoreView, filed: StoreView, justified: Checkpoint, finalized: Checkpoint)
    requires filed.time == s.time && filed.genesisTime == s.genesisTime
    ensures CurrentEpoch(preset, UpdateUnrealized(filed, justified, finalized)) == CurrentEpoch(preset, s)
  {
  }

  lemma AdmissibleParent(cfg: Config, s: StoreView, block: Block)
    requires Ordered(s.blocks) && BlockAdmissible(cfg, s, block)
    ensures block.parentRoot in s.blockStates
  {
    hide CheckpointBlock, CurrentSlot, Ordered;
  }

  lemma FiledBlocks(cfg: Config, s: StoreView, root: Root, block: Block, state: BeaconState)
    ensures Filed(cfg, s, root, block, state).blocks == s.blocks[root := block]
  {
  }

  lemma PreparedBlocks(cfg: Config, s: StoreView, root: Root, block: Block, state: BeaconState)
    requires Prepared(cfg, s, root, block, state).Some?
    ensures Prepared(cfg, s, root, block, state).value.blocks == s.blocks[root := block]
  {
    hide NotifyPtc, TimelinessOf;
    VotesTouchOnlyVotes(cfg, Filed(cfg, s, root, block, state), state, block.body.payloadAttestations,
                        |block.body.payloadAttestations|);
  }

  // ---------------------------------------------------------------------------
  // Steps of the tick loop
  // ---------------------------------------------------------------------------

  lemma TickInPlace(preset: Preset, s: StoreView)
    ensures Ticked(preset, s, s.time) == s
  {
    hide SlotAtTime;
  }

  lemma TickSetsTime(preset: Preset, s: StoreView, time: U64)
    ensures Ticked(preset, s, time).time == time && Ticked(preset, s, time).genesisTime == s.genesisTime
  {
    hide SlotAtTime;
  }

  /** The next boundary is reached exactly, without passing `time`, by one slot's step. */
  lemma BoundaryStep(preset: Preset, start: StoreView, s: StoreView, time: U64)
    requires start.time <= s.time <= time && s.genesisTime == start.genesisTime
    requires s == Ticked(preset, start, s.time)
    requires CurrentSlot(preset, s) < SlotAtTime(preset, start.genesisTime, time)
    ensures var next := SaturatingAdd(CurrentSlot(preset, s), 1);
      var boundary := SlotStartTime(preset, start.genesisTime, next);
      && s.time <= boundary <= time
      && SlotAtTime(preset, start.genesisTime, boundary) == CurrentSlot(preset, s) + 1
      && TickPerSlot(preset, s, boundary) == Ticked(preset, start, boundary)
      && TickPerSlot(preset, s, boundary).time == boundary
      && TickPerSlot(preset, s, boundary).genesisTime == start.genesisTime
  {
    hide SlotAtTime, SlotStartTime, TickPerSlot, Ticked;
    var next := SaturatingAdd(CurrentSlot(preset, s), 1);
    var boundary := SlotStartTime(preset, start.genesisTime, next);
    SlotStartIsExact(preset, start.genesisTime, time, next);
    if boundary < s.time {
      SlotMonotone(preset, start.genesisTime, boundary, s.time);
    }
    StepIsTick(preset, s, boundary);
    TickSetsTime(preset, s, boundary);
    TicksCompose(preset, start, s.time, boundary);
  }

  lemma LastStep(preset: Preset, start: StoreView, s: StoreView, time: U64)
    requires start.time <= s.time <= time && s.genesisTime == start.genesisTime
    requires s == Ticked(preset, start, s.time)
    requires CurrentSlot(preset, s) == SlotAtTime(preset, start.genesisTime, time)
    ensures TickPerSlot(preset, s, time) == Ticked(preset, start, time)
  {
    hide SlotAtTime;
    TicksCompose(preset, start, s.time, time);
  }

  lemma NoVoters(s: StoreView, data: AttestationData)
    ensures WithMessages(s, [], data) == s
  {
    assert WithMessages(s, [], data).latestMessages == s.latestMessages;
  }

  lemma OverrideThenInsert<K, V>(m: map<K, V>, n: map<K, V>, k: K, v: V)
    ensures m + n[k := v] == (m + n)[k := v]
  {
  }

  lemma NewVoterIsNew(s: StoreView, voters: seq<ValidatorIndex>, v: ValidatorIndex, data: AttestationData)
    requires Supersedes(WithMessages(s, voters, data), v, data.slot)
    ensures v !in voters && Supersedes(s, v, data.slot)
  {
  }

  lemma NewVoterWrites(s: StoreView, voters: seq<ValidatorIndex>, v: ValidatorIndex, data: AttestationData)
    requires Supersedes(WithMessages(s, voters, data), v, data.slot)
    ensures WithMessages(s, voters + [v], data).latestMessages
         == WithMessages(s, voters, data).latestMessages[v := MessageOf(data)]
  {
    hide Supersedes, MessageOf;
    NewVoterIsNew(s, voters, v, data);
    assert FreshMessages(s, voters + [v], data) == FreshMessages(s, voters, data)[v := MessageOf(data)];
    OverrideThenInsert(s.latestMessages, FreshMessages(s, voters, data), v, MessageOf(data));
  }

  lemma OldVoterDoesNot(s: StoreView, voters: seq<ValidatorIndex>, v: ValidatorIndex, data: AttestationData)
    requires !Supersedes(WithMessages(s, voters, data), v, data.slot)
    ensures WithMessages(s, voters + [v], data).latestMessages == WithMessages(s, voters, data).latestMessages
  {
    var t := WithMessages(s, voters, data);
    assert v in voters || !Supersedes(s, v, data.slot);
  }

  /** A voter repeated in the list writes once: its own message is no later than itself. */
  lemma OneMoreVoter(s: StoreView, voters: seq<ValidatorIndex>, v: ValidatorIndex, data: AttestationData)
    ensures var t := WithMessages(s, voters, data);
      WithMessages(s, voters + [v], data) ==
      if Supersedes(t, v, data.slot) then t.(latestMessages := t.latestMessages[v := MessageOf(data)]) else t
  {
    hide Supersedes, MessageOf;
    var t := WithMessages(s, voters, data);
    if Supersedes(t, v, data.slot) {
      NewVoterWrites(s, voters, v, data);
    } else {
      OldVoterDoesNot(s, voters, v, data);
    }
  }

  lemma TargetIsCached(cfg: Config, s: StoreView, target: Checkpoint)
    ensures WithTargetState(cfg, s, target).Some? ==>
      target in WithTargetState(cfg, s, target).value.checkpointStates
  {
  }
}
