/**
  * Votes, field by field: which attestations and payload votes are taken, and what each
  * leaves in the tables of latest messages and committee seats.
  */
module VoteEffects {
  import opened Primitives
  import opened ForkChoiceTypes
  import opened Ancestry
  import opened Clock
  import opened Handlers

  // ---------------------------------------------------------------------------
  // Attestations
  // ---------------------------------------------------------------------------

  /**
    * An attestation may be counted: its target is of the epoch of its slot, and from gossip
    * of this epoch or the last; the block it votes for is no later than its slot and has the
    * target as its last block by the epoch's first slot; it takes a payload side only on a
    * block of an earlier slot, the full one only over a recorded payload; its slot is past.
    */
  ghost predicate MayCount(cfg: Config, s: StoreView, data: AttestationData, isFromBlock: bool)
    requires Ordered(s.blocks)
  {
    var now, epoch, n := CurrentEpoch(cfg.preset, s), data.target.epoch, cfg.preset.SlotsPerEpoch();
    && (isFromBlock || epoch <= now <= epoch + 1)
    && n * epoch <= data.slot < n * epoch + n
    && data.beaconBlockRoot in s.blocks
    && s.blocks[data.beaconBlockRoot].slot <= data.slot < CurrentSlot(cfg.preset, s)
    && LastBy(s.blocks, data.beaconBlockRoot, cfg.preset.StartSlot(epoch), data.target.root)
    && data.index <= (if s.blocks[data.beaconBlockRoot].slot == data.slot then 0 else 1)
    && (data.index == 1 ==> data.beaconBlockRoot in s.payloads)
  }

  lemma EpochOfSlot(preset: Preset, slot: Slot, epoch: Epoch)
    ensures preset.Epoch(slot) == epoch <==>
      preset.SlotsPerEpoch() * epoch <= slot < preset.SlotsPerEpoch() * epoch + preset.SlotsPerEpoch()
  {
    match preset
    case Mainnet =>
    case Minimal =>
  }

  /** The first slot of an epoch, unless that passes 64 bits. */
  lemma FirstSlot(preset: Preset, epoch: Epoch)
    ensures preset.SlotsPerEpoch() * epoch <= U64_MAX ==> preset.StartSlot(epoch) == preset.SlotsPerEpoch() * epoch
    ensures preset.SlotsPerEpoch() * epoch > U64_MAX ==> preset.StartSlot(epoch) == U64_MAX
  {
    match preset
    case Mainnet =>
    case Minimal =>
  }

  lemma AdmissibleMeansMayCount(cfg: Config, s: StoreView, data: AttestationData, isFromBlock: bool)
    requires Ordered(s.blocks)
    ensures AttestationAdmissible(cfg, s, data, isFromBlock) <==> MayCount(cfg, s, data, isFromBlock)
  {
    hide CheckpointBlock, LastBy, CurrentSlot, Ordered;
    EpochOfSlot(cfg.preset, data.slot, data.target.epoch);
    CheckpointBlockIsLast(cfg.preset, s.blocks, data.beaconBlockRoot, data.target.epoch, data.target.root);
    if MayCount(cfg, s, data, isFromBlock) {
      LastIsStored(s.blocks, data.beaconBlockRoot, cfg.preset.StartSlot(data.target.epoch), data.target.root);
    }
    hide Preset.Epoch, Preset.StartSlot;
  }

  lemma LastIsStored(blocks: Blocks, low: Root, slot: nat, d: Root)
    requires Ordered(blocks) && LastBy(blocks, low, slot, d)
    ensures d in blocks
  {
  }

  /** The state votes for a target are checked against: cached, held, or held and advanced. */
  ghost predicate TargetState(cfg: Config, s: StoreView, target: Checkpoint, state: BeaconState) {
    if target in s.checkpointStates then s.checkpointStates[target] == state
    else
      && target.root in s.blockStates
      && var held, slot := s.blockStates[target.root], cfg.preset.StartSlot(target.epoch);
         if slot <= held.slot then held == state else cfg.rules.processSlots(held, slot) == Some(state)
  }

  /**
    * An attestation is taken if and only if it may be counted and its signature verifies
    * against the target's state. Then each signer who is not known to equivocate and has no
    * message for as late a slot gets a new one; no other message and no other field changes.
    */
  lemma AttestationEffect(cfg: Config, s: StoreView, a: Attestation, isFromBlock: bool)
    requires Ordered(s.blocks)
    ensures OnAttestation(cfg, s, a, isFromBlock).Some? <==>
      && MayCount(cfg, s, a.data, isFromBlock)
      && exists state :: TargetState(cfg, s, a.data.target, state) && cfg.rules.attesters(state, a).Some?
    ensures OnAttestation(cfg, s, a, isFromBlock).Some? ==>
      exists state :: TargetState(cfg, s, a.data.target, state) && cfg.rules.attesters(state, a).Some?
        && Counted(s, a.data, state, cfg.rules.attesters(state, a).value, OnAttestation(cfg, s, a, isFromBlock).value)
  {
    hide AttestationAdmissible, MayCount, Ordered, Preset.StartSlot;
    AdmissibleMeansMayCount(cfg, s, a.data, isFromBlock);
    var target := a.data.target;
    var cached := WithTargetState(cfg, s, target);
    if cached.Some? {
      var state := cached.value.checkpointStates[target];
      assert TargetState(cfg, s, target, state);
      if AttestationAdmissible(cfg, s, a.data, isFromBlock) && cfg.rules.attesters(state, a).Some? {
        var voters := cfg.rules.attesters(state, a).value;
        MessagesCounted(s, cached.value, a.data, state, voters);
      }
    }
  }

  /** `t` is `s` with the target's state cached and the votes of `voters` entered. */
  ghost predicate Counted(
    s: StoreView, data: AttestationData, state: BeaconState, voters: seq<ValidatorIndex>, t: StoreView)
  {
    && t == s.(checkpointStates := s.checkpointStates[data.target := state], latestMessages := t.latestMessages)
    && forall v ::
         if v in voters && v !in s.equivocating && (v in s.latestMessages ==> s.latestMessages[v].slot < data.slot)
         then v in t.latestMessages
              && t.latestMessages[v].slot == data.slot && t.latestMessages[v].root == data.beaconBlockRoot
              && (t.latestMessages[v].payloadPresent <==> data.index == 1)
         else (v in t.latestMessages <==> v in s.latestMessages)
              && (v in s.latestMessages ==> t.latestMessages[v] == s.latestMessages[v])
  }

  lemma MessagesCounted(
    s: StoreView, cached: StoreView, data: AttestationData, state: BeaconState, voters: seq<ValidatorIndex>)
    requires cached == s.(checkpointStates := s.checkpointStates[data.target := state])
      || (cached == s && data.target in s.checkpointStates && s.checkpointStates[data.target] == state)
    ensures Counted(s, data, state, voters, WithMessages(cached, voters, data))
  {
    assert data.target in s.checkpointStates && s.checkpointStates[data.target] == state ==>
      s.checkpointStates[data.target := state] == s.checkpointStates;
  }

  // ---------------------------------------------------------------------------
  // Payload votes
  // ---------------------------------------------------------------------------

  /**
    * `v` sits in seat `i` of the committee of `slot`. The window of `state` holds three
    * epochs of committees, from the one before its own.
    */
  ghost predicate Sits(preset: Preset, state: BeaconState, slot: Slot, v: ValidatorIndex, i: nat) {
    var n := preset.SlotsPerEpoch();
    var row := slot + n - n * preset.Epoch(state.slot);
    && 0 <= row < 3 * n && row < |state.ptcWindow|
    && i < |state.ptcWindow[row]| && state.ptcWindow[row][i] == v
  }

  lemma SlotSplits(preset: Preset, slot: Slot)
    ensures slot == preset.SlotsPerEpoch() * preset.Epoch(slot) + if preset.Mainnet? then slot % 32 else slot % 8
  {
  }

  /** Epochs and offsets determine the row, for either epoch length. */
  lemma RowArithmetic(n: nat, epoch: nat, stateEpoch: nat, offset: nat)
    requires (n == 32 || n == 8) && offset < n
    ensures var row := n * epoch + offset + n - n * stateEpoch;
      if epoch + 1 == stateEpoch then row == offset
      else if epoch == stateEpoch then row == n + offset
      else if stateEpoch + 1 == epoch then row == 2 * n + offset
      else row < 0 || row >= 3 * n
  {
  }

  lemma RowOfSlot(preset: Preset, state: BeaconState, slot: Slot)
    ensures var n := preset.SlotsPerEpoch();
      var row := slot + n - n * preset.Epoch(state.slot);
      PtcWindowIndex(preset, state, slot) == if 0 <= row < 3 * n then Some(row) else None
  {
    hide Preset.Epoch;
    SlotSplits(preset, slot);
    var offset := if preset.Mainnet? then slot % 32 else slot % 8;
    RowArithmetic(preset.SlotsPerEpoch(), preset.Epoch(slot), preset.Epoch(state.slot), offset);
  }

  lemma {:induction false} PositionsAreSeats(committee: seq<ValidatorIndex>, v: ValidatorIndex, k: nat)
    requires k <= |committee|
    ensures forall i :: i in PositionsIn(committee, v, k) <==> 0 <= i < k && committee[i] == v
  {
    if k > 0 {
      PositionsAreSeats(committee, v, k - 1);
    }
  }

  /** The positions found for a validator are its seats. */
  lemma PositionsMeaning(preset: Preset, state: BeaconState, slot: Slot, v: ValidatorIndex)
    ensures PtcPositions(preset, state, slot, v).Some? <==> exists i :: Sits(preset, state, slot, v, i)
    ensures PtcPositions(preset, state, slot, v).Some? ==>
      forall i :: i in PtcPositions(preset, state, slot, v).value <==> 0 <= i && Sits(preset, state, slot, v, i)
  {
    hide PtcWindowIndex, PositionsIn, Preset.Epoch;
    RowOfSlot(preset, state, slot);
    var row := PtcWindowIndex(preset, state, slot);
    if row.Some? && row.value < |state.ptcWindow| {
      var committee := state.ptcWindow[row.value];
      PositionsAreSeats(committee, v, |committee|);
      var positions := PositionsIn(committee, v, |committee|);
      if positions != [] {
        assert positions[0] in positions;
        assert Sits(preset, state, slot, v, positions[0]);
      }
      forall i: nat | Sits(preset, state, slot, v, i)
        ensures i in positions
      {
      }
    }
  }

  /** Seat `i` of block `r` in the two tables of `t`: the given votes if `written`, else as in `s`. */
  ghost predicate SeatHolds(
    s: StoreView, t: StoreView, r: Root, i: nat, written: bool, present: bool, available: bool)
  {
    && (r in s.timelinessVotes && i < |s.timelinessVotes[r]| ==>
          && r in t.timelinessVotes && i < |t.timelinessVotes[r]|
          && t.timelinessVotes[r][i] == if written then Some(present) else s.timelinessVotes[r][i])
    && (r in s.availabilityVotes && i < |s.availabilityVotes[r]| ==>
          && r in t.availabilityVotes && i < |t.availabilityVotes[r]|
          && t.availabilityVotes[r][i] == if written then Some(available) else s.availabilityVotes[r][i])
  }

  /** The vote is about the block it names, in that block's slot, and `v` sits in seat `i`. */
  ghost predicate WritesSeat(
    cfg: Config, s: StoreView, data: PayloadAttestationData, v: ValidatorIndex, r: Root, i: nat)
  {
    && r == data.beaconBlockRoot && r in s.blockStates && data.slot == s.blockStates[r].slot
    && Sits(cfg.preset, s.blockStates[r], data.slot, v, i)
  }

  /**
    * A payload vote that is taken sets every seat of its signer in the two vectors of its
    * block, the one to whether the payload was seen and the other to whether its data was,
    * and nothing else.
    */
  lemma PtcVoteEffect(cfg: Config, s: StoreView, message: PtcMessage, isFromBlock: bool, r: Root, i: nat)
    requires OnPtcMessage(cfg, s, message, isFromBlock).Some?
    ensures var t, data := OnPtcMessage(cfg, s, message, isFromBlock).value, message.data;
      && t == s.(timelinessVotes := t.timelinessVotes, availabilityVotes := t.availabilityVotes)
      && SeatHolds(s, t, r, i, WritesSeat(cfg, s, data, message.validatorIndex, r, i),
                   data.payloadPresent, data.blobDataAvailable)
  {
    hide PtcPositions, Sits, CurrentSlot, WithVotes;
    var data := message.data;
    var root := data.beaconBlockRoot;
    PositionsMeaning(cfg.preset, s.blockStates[root], data.slot, message.validatorIndex);
    if data.slot == s.blockStates[root].slot {
      var positions := PtcPositions(cfg.preset, s.blockStates[root], data.slot, message.validatorIndex).value;
      CellAfter(s.timelinessVotes[root], positions, data.payloadPresent, i);
      CellAfter(s.availabilityVotes[root], positions, data.blobDataAvailable, i);
    }
  }

  lemma CellAfter(votes: VoteVector, positions: seq<nat>, value: bool, i: nat)
    requires WithVotes(votes, positions, value).Some?
    ensures var after := WithVotes(votes, positions, value).value;
      |after| == |votes| && (i < |votes| ==> after[i] == if i in positions then Some(value) else votes[i])
  {
  }

  /**
    * A payload vote is taken if and only if its block is known and, unless it is for another
    * slot and so ignored: its signer has a seat, from gossip the slot is the current one and
    * the signature verifies, and both vectors of the block have a cell for every seat.
    */
  lemma PtcVoteTaken(cfg: Config, s: StoreView, message: PtcMessage, isFromBlock: bool)
    ensures var data, v := message.data, message.validatorIndex;
      var r := data.beaconBlockRoot;
      OnPtcMessage(cfg, s, message, isFromBlock).Some? <==>
        && r in s.blockStates
        && var state := s.blockStates[r];
           data.slot == state.slot ==>
             && (exists i :: Sits(cfg.preset, state, data.slot, v, i))
             && (isFromBlock || (data.slot == CurrentSlot(cfg.preset, s) && cfg.rules.ptcMessageValid(state, message)))
             && r in s.timelinessVotes && r in s.availabilityVotes
             && (forall i: nat :: Sits(cfg.preset, state, data.slot, v, i) ==>
                   i < |s.timelinessVotes[r]| && i < |s.availabilityVotes[r]|)
  {
    hide PtcPositions, Sits, CurrentSlot;
    var data, v := message.data, message.validatorIndex;
    var r := data.beaconBlockRoot;
    if r in s.blockStates && data.slot == s.blockStates[r].slot {
      PositionsMeaning(cfg.preset, s.blockStates[r], data.slot, v);
      var positions := PtcPositions(cfg.preset, s.blockStates[r], data.slot, v);
      if positions.Some? && r in s.timelinessVotes && r in s.availabilityVotes {
        SeatsInRange(cfg.preset, s.blockStates[r], data.slot, v, positions.value, s.timelinessVotes[r],
                     data.payloadPresent);
        SeatsInRange(cfg.preset, s.blockStates[r], data.slot, v, positions.value, s.availabilityVotes[r],
                     data.blobDataAvailable);
        hide WithVotes;
      }
    }
  }

  lemma SeatsInRange(
    preset: Preset, state: BeaconState, slot: Slot, v: ValidatorIndex, positions: seq<nat>, votes: VoteVector,
    value: bool)
    requires forall i :: i in positions <==> 0 <= i && Sits(preset, state, slot, v, i)
    ensures WithVotes(votes, positions, value).Some? <==>
      forall i: nat :: Sits(preset, state, slot, v, i) ==> i < |votes|
  {
    hide Sits;
    if WithVotes(votes, positions, value).None? {
      var i :| 0 <= i < |positions| && positions[i] >= |votes|;
      assert Sits(preset, state, slot, v, positions[i]);
    } else {
      forall i: nat | Sits(preset, state, slot, v, i)
        ensures i < |votes|
      {
        assert i in positions;
      }
    }
  }

  /** Some signer of the aggregate writes seat `i` of block `r`. */
  ghost predicate AggregateWrites(
    cfg: Config, s: StoreView, voters: seq<ValidatorIndex>, data: PayloadAttestationData, k: nat, r: Root, i: nat)
    requires k <= |voters|
  {
    exists j :: 0 <= j < k && WritesSeat(cfg, s, data, voters[j], r, i)
  }

  lemma {:induction false} VotersEffect(
    cfg: Config, s: StoreView, data: PayloadAttestationData, voters: seq<ValidatorIndex>, k: nat, r: Root, i: nat)
    requires k <= |voters| && NotifyVoters(cfg, s, data, voters, k).Some?
    ensures var t := NotifyVoters(cfg, s, data, voters, k).value;
      && t.blockStates == s.blockStates
      && SeatHolds(s, t, r, i, AggregateWrites(cfg, s, voters, data, k, r, i),
                   data.payloadPresent, data.blobDataAvailable)
  {
    hide OnPtcMessage, WritesSeat;
    if k > 0 {
      VotersEffect(cfg, s, data, voters, k - 1, r, i);
      var before := NotifyVoters(cfg, s, data, voters, k - 1).value;
      PtcVoteEffect(cfg, before, PtcMessage(voters[k - 1], data, 0), true, r, i);
      SameWrites(cfg, s, before, data, voters[k - 1], r, i);
      assert AggregateWrites(cfg, s, voters, data, k, r, i) <==>
        AggregateWrites(cfg, s, voters, data, k - 1, r, i) || WritesSeat(cfg, s, data, voters[k - 1], r, i);
    }
  }

  lemma SameWrites(
    cfg: Config, s: StoreView, t: StoreView, data: PayloadAttestationData, v: ValidatorIndex, r: Root, i: nat)
    requires t.blockStates == s.blockStates
    ensures WritesSeat(cfg, t, data, v, r, i) <==> WritesSeat(cfg, s, data, v, r, i)
  {
  }

  /** Aggregate `j` of those a block carries writes seat `i` of block `r`. */
  ghost predicate CarriedWrites(
    cfg: Config, s: StoreView, state: BeaconState, aggregates: seq<PayloadAttestation>, j: nat, r: Root, i: nat)
    requires j < |aggregates|
  {
    && cfg.rules.payloadAttesters(state, aggregates[j]).Some?
    && var voters := cfg.rules.payloadAttesters(state, aggregates[j]).value;
       AggregateWrites(cfg, s, voters, aggregates[j].data, |voters|, r, i)
  }

  /** Aggregate `j` is the last of the first `k` to write the seat. */
  ghost predicate LastWriter(
    cfg: Config, s: StoreView, state: BeaconState, aggregates: seq<PayloadAttestation>, k: nat, r: Root, i: nat, j: nat)
    requires k <= |aggregates|
  {
    && j < k && CarriedWrites(cfg, s, state, aggregates, j, r, i)
    && forall m :: j < m < k ==> !CarriedWrites(cfg, s, state, aggregates, m, r, i)
  }

  lemma OneLastWriter(
    cfg: Config, s: StoreView, state: BeaconState, aggregates: seq<PayloadAttestation>, k: nat, r: Root, i: nat, j: nat)
    requires k <= |aggregates| && LastWriter(cfg, s, state, aggregates, k, r, i, j)
    ensures forall m :: 0 <= m < k && LastWriter(cfg, s, state, aggregates, k, r, i, m) ==> m == j
  {
    hide CarriedWrites;
  }

  lemma {:induction false} NoLastWriter(
    cfg: Config, s: StoreView, state: BeaconState, aggregates: seq<PayloadAttestation>, k: nat, r: Root, i: nat)
    requires k <= |aggregates|
    requires forall j :: 0 <= j < k ==> !LastWriter(cfg, s, state, aggregates, k, r, i, j)
    ensures forall j :: 0 <= j < k ==> !CarriedWrites(cfg, s, state, aggregates, j, r, i)
  {
    hide CarriedWrites;
    var j := k;
    while j > 0
      invariant 0 <= j <= k
      invariant forall m :: j <= m < k ==> !CarriedWrites(cfg, s, state, aggregates, m, r, i)
    {
      j := j - 1;
      assert !LastWriter(cfg, s, state, aggregates, k, r, i, j);
    }
  }

  lemma SeatKept(
    s: StoreView, b: StoreView, t: StoreView, r: Root, i: nat, written: bool, present: bool, available: bool)
    requires SeatHolds(s, b, r, i, written, present, available)
    ensures SeatHolds(b, t, r, i, false, false, false) ==> SeatHolds(s, t, r, i, written, present, available)
    ensures forall p, a :: SeatHolds(b, t, r, i, true, p, a) ==> SeatHolds(s, t, r, i, true, p, a)
  {
  }

  lemma UnwrittenSeat(s: StoreView, t: StoreView, r: Root, i: nat, present: bool, available: bool)
    requires SeatHolds(s, t, r, i, false, present, available)
    ensures SeatHolds(s, t, r, i, false, false, false)
  {
  }

  /** After the votes a block carries, each seat holds the vote of its last writer, or what it held. */
  lemma {:induction false} CarriedVotesEffect(
    cfg: Config, s: StoreView, state: BeaconState, aggregates: seq<PayloadAttestation>, k: nat, r: Root, i: nat)
    requires k <= |aggregates| && NotifyPtc(cfg, s, state, aggregates, k).Some?
    ensures NotifyPtc(cfg, s, state, aggregates, k).value.blockStates == s.blockStates
    ensures (forall j :: 0 <= j < k ==> !CarriedWrites(cfg, s, state, aggregates, j, r, i)) ==>
      SeatHolds(s, NotifyPtc(cfg, s, state, aggregates, k).value, r, i, false, false, false)
    ensures forall j :: 0 <= j < k && LastWriter(cfg, s, state, aggregates, k, r, i, j) ==>
      SeatHolds(s, NotifyPtc(cfg, s, state, aggregates, k).value, r, i, true,
                aggregates[j].data.payloadPresent, aggregates[j].data.blobDataAvailable)
  {
    hide NotifyVoters, WritesSeat;
    if k > 0 {
      CarriedVotesEffect(cfg, s, state, aggregates, k - 1, r, i);
      var before := NotifyPtc(cfg, s, state, aggregates, k - 1).value;
      var a := aggregates[k - 1];
      var voters := cfg.rules.payloadAttesters(state, a).value;
      VotersEffect(cfg, before, a.data, voters, |voters|, r, i);
      forall j | 0 <= j < |voters|
        ensures WritesSeat(cfg, before, a.data, voters[j], r, i) <==> WritesSeat(cfg, s, a.data, voters[j], r, i)
      {
        SameWrites(cfg, s, before, a.data, voters[j], r, i);
      }
      assert AggregateWrites(cfg, before, voters, a.data, |voters|, r, i) <==>
        CarriedWrites(cfg, s, state, aggregates, k - 1, r, i);
      hide AggregateWrites, CarriedWrites, SeatHolds;
      var t := NotifyPtc(cfg, s, state, aggregates, k).value;
      var writes := CarriedWrites(cfg, s, state, aggregates, k - 1, r, i);
      if !writes {
        UnwrittenSeat(before, t, r, i, a.data.payloadPresent, a.data.blobDataAvailable);
      }
      var front := k - 1;
      if j :| 0 <= j < front && LastWriter(cfg, s, state, aggregates, front, r, i, j) {
        SeatKept(s, before, t, r, i, true, aggregates[j].data.payloadPresent, aggregates[j].data.blobDataAvailable);
        OneLastWriter(cfg, s, state, aggregates, k - 1, r, i, j);
      } else {
        NoLastWriter(cfg, s, state, aggregates, k - 1, r, i);
        SeatKept(s, before, t, r, i, false, false, false);
      }
      forall j | 0 <= j < k && LastWriter(cfg, s, state, aggregates, k, r, i, j)
        ensures SeatHolds(s, t, r, i, true, aggregates[j].data.payloadPresent, aggregates[j].data.blobDataAvailable)
      {
        if j < k - 1 {
          assert LastWriter(cfg, s, state, aggregates, k - 1, r, i, j);
        }
      }
    }
  }
}
