/**
  * What the remaining messages leave behind, field by field: opening a store, slashings, the
  * messages a block carries, envelopes and data columns.
  */
module MessageEffects {
  import opened Primitives
  import opened ForkChoiceTypes
  import opened Ancestry
  import opened Clock
  import opened Columns
  import opened Handlers
  import opened StoreInvariant
  import opened StoreRuns
  import opened VoteEffects

  // ---------------------------------------------------------------------------
  // Opening
  // ---------------------------------------------------------------------------

  /**
    * A store opens on an anchor that commits to its state, unless its time passes 64 bits.
    * All four checkpoints name the anchor in the epoch of its state, the clock stands at the
    * start of the state's slot, and nothing else is known.
    */
  lemma AnchorEffect(cfg: Config, state: BeaconState, block: Block)
    ensures AnchorStore(cfg, state, block).Some? <==>
      && block.stateRoot == cfg.rules.stateRoot(state)
      && cfg.preset.SlotDurationMs() * state.slot <= U64_MAX
      && state.genesisTime + cfg.preset.SlotDurationMs() / 1_000 * state.slot <= U64_MAX
    ensures AnchorStore(cfg, state, block).Some? ==>
      var s, root := AnchorStore(cfg, state, block).value, cfg.rules.blockRoot(block);
      && s.time == state.genesisTime + cfg.preset.SlotDurationMs() / 1_000 * state.slot
      && s.genesisTime == state.genesisTime
      && s.justified == s.finalized == s.unrealizedJustified == s.unrealizedFinalized
      && s.justified.root == root && s.justified.epoch == cfg.preset.Epoch(state.slot)
      && s.blocks == map[root := block] && s.blockStates == map[root := state]
      && s.checkpointStates == map[s.justified := state] && s.unrealizedJustifications == map[root := s.justified]
      && s.timeliness == map[root := Timeliness(true, true)] && s.boostRoot == ZERO_ROOT && s.equivocating == {}
      && s.latestMessages == map[] && s.payloads == map[] && s.queued == map[] && s.sidecars == map[]
      && s.timelinessVotes == map[] && s.availabilityVotes == map[]
  {
    hide Preset.Epoch;
    assert 12_000 * state.slot / 1_000 == 12 * state.slot && 6_000 * state.slot / 1_000 == 6 * state.slot;
  }

  // ---------------------------------------------------------------------------
  // Slashings and carried messages
  // ---------------------------------------------------------------------------

  ghost predicate InBoth(slashing: AttesterSlashing, v: ValidatorIndex) {
    v in slashing.attestation1.attestingIndices && v in slashing.attestation2.attestingIndices
  }

  /** A slashing is taken when both its votes conflict and verify, and marks who signed both. */
  lemma SlashingEffect(cfg: Config, s: StoreView, slashing: AttesterSlashing)
    ensures var a, b := slashing.attestation1, slashing.attestation2;
      OnAttesterSlashing(cfg, s, slashing).Some? <==>
        && cfg.rules.slashable(a.data, b.data) && s.justified.root in s.blockStates
        && cfg.rules.indexedAttestationValid(s.blockStates[s.justified.root], a)
        && cfg.rules.indexedAttestationValid(s.blockStates[s.justified.root], b)
    ensures OnAttesterSlashing(cfg, s, slashing).Some? ==>
      var t := OnAttesterSlashing(cfg, s, slashing).value;
      && t == s.(equivocating := t.equivocating)
      && forall v :: v in t.equivocating <==> v in s.equivocating || InBoth(slashing, v)
  {
  }

  lemma {:induction false} SlashingsMark(cfg: Config, s: StoreView, slashings: seq<AttesterSlashing>, k: nat)
    requires k <= |slashings| && ReplaySlashings(cfg, s, slashings, k).Some?
    ensures var t := ReplaySlashings(cfg, s, slashings, k).value;
      && t == s.(equivocating := t.equivocating)
      && forall v :: v in t.equivocating <==>
           v in s.equivocating || exists j :: 0 <= j < k && InBoth(slashings[j], v)
  {
    hide OnAttesterSlashing, InBoth;
    if k > 0 {
      SlashingsMark(cfg, s, slashings, k - 1);
      SlashingEffect(cfg, ReplaySlashings(cfg, s, slashings, k - 1).value, slashings[k - 1]);
    }
  }

  /** The votes of `a` are in: every signer not known to equivocate has a message at least as late. */
  ghost predicate VotesIn(cfg: Config, s: StoreView, a: Attestation, t: StoreView) {
    exists state :: cfg.rules.attesters(state, a).Some?
      && forall v :: v in cfg.rules.attesters(state, a).value && v !in s.equivocating ==>
           v in t.latestMessages && t.latestMessages[v].slot >= a.data.slot
  }

  ghost predicate MessagesKept(s: StoreView, t: StoreView) {
    && t.equivocating == s.equivocating
    && forall v :: v in s.latestMessages ==>
         v in t.latestMessages && s.latestMessages[v].slot <= t.latestMessages[v].slot
  }

  lemma VotesStayIn(cfg: Config, s: StoreView, a: Attestation, t: StoreView, u: StoreView)
    requires VotesIn(cfg, s, a, t) && MessagesKept(t, u)
    ensures VotesIn(cfg, s, a, u)
  {
  }

  lemma OneAttestationIn(cfg: Config, s: StoreView, a: Attestation)
    requires Ordered(s.blocks) && OnAttestation(cfg, s, a, true).Some?
    ensures var t := OnAttestation(cfg, s, a, true).value;
      VotesIn(cfg, s, a, t) && MessagesKept(s, t) && t.blocks == s.blocks
  {
    hide OnAttestation, MayCount, TargetState, Ordered;
    AttestationEffect(cfg, s, a, true);
    var t := OnAttestation(cfg, s, a, true).value;
    var state :| TargetState(cfg, s, a.data.target, state) && cfg.rules.attesters(state, a).Some?
      && Counted(s, a.data, state, cfg.rules.attesters(state, a).value, t);
  }

  lemma {:induction false} AttestationsIn(cfg: Config, s: StoreView, attestations: seq<Attestation>, k: nat)
    requires Ordered(s.blocks) && k <= |attestations| && ReplayAttestations(cfg, s, attestations, k).Some?
    ensures var t := ReplayAttestations(cfg, s, attestations, k).value;
      && MessagesKept(s, t)
      && forall j :: 0 <= j < k ==> VotesIn(cfg, s, attestations[j], t)
  {
    hide OnAttestation, VotesIn, Ordered;
    if k > 0 {
      AttestationsIn(cfg, s, attestations, k - 1);
      var before := ReplayAttestations(cfg, s, attestations, k - 1).value;
      OneAttestationIn(cfg, before, attestations[k - 1]);
      var t := ReplayAttestations(cfg, s, attestations, k).value;
      SameOffenders(cfg, s, before, attestations[k - 1], t);
      forall j | 0 <= j < k - 1
        ensures VotesIn(cfg, s, attestations[j], t)
      {
        VotesStayIn(cfg, s, attestations[j], before, t);
      }
    }
  }

  lemma SameOffenders(cfg: Config, s: StoreView, b: StoreView, a: Attestation, t: StoreView)
    requires b.equivocating == s.equivocating && VotesIn(cfg, b, a, t)
    ensures VotesIn(cfg, s, a, t)
  {
  }

  /** A block taken with its messages has every vote it carries counted and every offender it names marked. */
  lemma CarriedMessagesIn(cfg: Config, s: StoreView, block: Block)
    requires Ordered(s.blocks) && ReplayMessages(cfg, s, block).Some?
    ensures var t, votes, slashings := ReplayMessages(cfg, s, block).value, block.body.attestations,
                                       block.body.attesterSlashings;
      && (forall j :: 0 <= j < |votes| ==> VotesIn(cfg, s, votes[j], t))
      && (forall v :: v in t.equivocating <==>
            v in s.equivocating || exists j :: 0 <= j < |slashings| && InBoth(slashings[j], v))
  {
    hide ReplayAttestations, ReplaySlashings, VotesIn, InBoth, Ordered;
    var votes, slashings := block.body.attestations, block.body.attesterSlashings;
    AttestationsIn(cfg, s, votes, |votes|);
    var voted := ReplayAttestations(cfg, s, votes, |votes|).value;
    SlashingsMark(cfg, voted, slashings, |slashings|);
    var t := ReplayMessages(cfg, s, block).value;
    forall j | 0 <= j < |votes|
      ensures VotesIn(cfg, s, votes[j], t)
    {
      SameMessages(cfg, s, votes[j], voted, t);
    }
  }

  lemma SameMessages(cfg: Config, s: StoreView, a: Attestation, t: StoreView, u: StoreView)
    requires VotesIn(cfg, s, a, t) && u.latestMessages == t.latestMessages
    ensures VotesIn(cfg, s, a, u)
  {
  }

  // ---------------------------------------------------------------------------
  // Envelopes and columns
  // ---------------------------------------------------------------------------

  /** No blobs were promised, or every one of the 128 columns is stored. */
  ghost predicate DataThere(s: StoreView, root: Root)
    requires root in s.blocks
  {
    || s.blocks[root].body.bid.commitments == []
    || (root in s.sidecars && forall c :: 0 <= c < 128 ==> HasIndex(s.sidecars[root], c))
  }

  lemma AvailableIsDataThere(cfg: Config, s: StoreView, root: Root)
    requires ColumnsSound(cfg.rules, s) && root in s.blocks
    ensures Available(cfg.rules, s, root) <==> DataThere(s, root)
  {
    hide Available, ColumnsSound;
    AvailableMeansAllStored(cfg.rules, s, root);
    if root in s.sidecars {
      assert Stored(s, root) == s.sidecars[root];
    } else {
      assert Stored(s, root) == [] && !HasIndex([], 0);
    }
    hide HasIndex;
  }

  lemma InvParts(cfg: Config, anchor: Root, s: StoreView)
    requires Inv(cfg, anchor, s)
    ensures s.blockStates.Keys == s.blocks.Keys && ColumnsSound(cfg.rules, s)
  {
    hide VotesShaped, MessagesSound, BoostSound, FullSound, StatesDerived, EnvelopesSound, ColumnsSound, CurrentSlot;
  }

  /** The envelope is filed under its block and waits no longer. */
  ghost predicate FilesPayload(s: StoreView, t: StoreView, root: Root, envelope: SignedEnvelope) {
    && t.payloads == s.payloads[root := envelope.message]
    && t.queued.Keys == s.queued.Keys - {root} && forall r :: r in t.queued ==> t.queued[r] == s.queued[r]
  }

  /**
    * An envelope is taken if and only if its block is stored, it is valid for that block and,
    * once the data is there, the verifier accepts it. With the data there it is filed; without,
    * it waits. No other field changes.
    */
  lemma EnvelopeEffect(cfg: Config, anchor: Root, s: StoreView, envelope: SignedEnvelope, verifier: Verifier)
    requires Inv(cfg, anchor, s)
    ensures s.blockStates.Keys == s.blocks.Keys
    ensures var root := envelope.message.beaconBlockRoot;
      OnEnvelope(cfg, s, envelope, verifier).Some? <==>
        && root in s.blocks && cfg.rules.envelopeValid(s.blockStates[root], envelope)
        && (DataThere(s, root) ==> verifier(envelope))
    ensures OnEnvelope(cfg, s, envelope, verifier).Some? ==>
      var t, root := OnEnvelope(cfg, s, envelope, verifier).value, envelope.message.beaconBlockRoot;
      && t == s.(payloads := t.payloads, queued := t.queued)
      && if DataThere(s, root) then FilesPayload(s, t, root, envelope)
         else t.payloads == s.payloads && t.queued == s.queued[root := envelope]
  {
    hide Inv, Available, DataThere, ColumnsSound;
    InvParts(cfg, anchor, s);
    var root := envelope.message.beaconBlockRoot;
    if root in s.blocks {
      AvailableIsDataThere(cfg, s, root);
    }
  }

  /** A column is for its block, of its slot and shape, and its proofs verify. */
  ghost predicate ColumnFits(cfg: Config, s: StoreView, sidecar: Sidecar) {
    && sidecar.beaconBlockRoot in s.blocks
    && var block := s.blocks[sidecar.beaconBlockRoot];
       && sidecar.slot == block.slot && sidecar.index < 128
       && |sidecar.column| == |sidecar.kzgProofs| == |block.body.bid.commitments| > 0
       && cfg.rules.kzgProofsValid(sidecar, block.body.bid.commitments)
  }

  lemma AdmissibleFits(cfg: Config, s: StoreView, sidecar: Sidecar)
    ensures SidecarAdmissible(cfg, s, sidecar) <==> ColumnFits(cfg, s, sidecar)
  {
  }

  /** `t` holds the column in place of any of the same index, in order, and all others as before. */
  ghost predicate ColumnStored(s: StoreView, t: StoreView, sidecar: Sidecar) {
    var root := sidecar.beaconBlockRoot;
    && t.sidecars.Keys == s.sidecars.Keys + {root}
    && (forall r :: r in s.sidecars && r != root ==> t.sidecars[r] == s.sidecars[r])
    && Increasing(t.sidecars[root])
    && forall x :: x in t.sidecars[root] <==>
         x == sidecar || (root in s.sidecars && x in s.sidecars[root] && x.index != sidecar.index)
  }

  /**
    * A column that does not fit is refused and changes nothing. One that fits is stored; if
    * that makes the data of its block's waiting envelope complete, the envelope is filed when
    * the verifier accepts it, and otherwise the handler fails and it waits on.
    */
  lemma ColumnEffect(cfg: Config, anchor: Root, s: StoreView, sidecar: Sidecar, verifier: Verifier)
    requires Inv(cfg, anchor, s)
    ensures !ColumnFits(cfg, s, sidecar) ==> OnSidecar(cfg, s, sidecar, verifier) == (s, false)
    ensures ColumnFits(cfg, s, sidecar) ==>
      var (t, ok) := OnSidecar(cfg, s, sidecar, verifier);
      var root := sidecar.beaconBlockRoot;
      && t == s.(sidecars := t.sidecars, payloads := t.payloads, queued := t.queued)
      && ColumnStored(s, t, sidecar)
      && var ready := root in s.queued && DataThere(t, root);
         && (ok <==> ready ==> verifier(s.queued[root]))
         && if ready && verifier(s.queued[root]) then FilesPayload(s, t, root, s.queued[root])
            else t.payloads == s.payloads && t.queued == s.queued
  {
    hide Inv, Available, DataThere, SidecarAdmissible, ColumnFits, StoreSidecar, ColumnStored, FilesPayload, ValidFor;
    AdmissibleFits(cfg, s, sidecar);
    if ColumnFits(cfg, s, sidecar) {
      var root, stored := sidecar.beaconBlockRoot, WithSidecar(s, sidecar);
      StoringColumn(cfg, anchor, s, sidecar);
      WaitingIsValid(cfg, anchor, s, root);
      var (t, ok) := OnSidecar(cfg, s, sidecar, verifier);
      DataThereReads(stored, t, root);
      if root in s.queued {
        RecordedFiles(stored, s, root, s.queued[root]);
      }
      ColumnsSame(s, stored, t, sidecar);
    }
  }

  lemma StoringColumn(cfg: Config, anchor: Root, s: StoreView, sidecar: Sidecar)
    requires Inv(cfg, anchor, s) && ColumnFits(cfg, s, sidecar)
    ensures var root, stored := sidecar.beaconBlockRoot, WithSidecar(s, sidecar);
      && ColumnStored(s, stored, sidecar) && root in s.blocks
      && (Available(cfg.rules, stored, root) <==> DataThere(stored, root))
  {
    hide Shape, VotesShaped, MessagesSound, BoostSound, FullSound, StatesDerived, EnvelopesSound, Available, DataThere;
    hide StoreSidecar;
    var root, stored := sidecar.beaconBlockRoot, WithSidecar(s, sidecar);
    StoreSidecarKeepsOrder(Stored(s, root), sidecar);
    AdmissibleFits(cfg, s, sidecar);
    hide ColumnFits;
    StoredSound(cfg, s, sidecar);
    AvailableIsDataThere(cfg, stored, root);
  }

  lemma StoredSound(cfg: Config, s: StoreView, sidecar: Sidecar)
    requires ColumnsSound(cfg.rules, s) && SidecarAdmissible(cfg, s, sidecar)
    ensures ColumnsSound(cfg.rules, WithSidecar(s, sidecar))
  {
    hide StoreSidecar, SidecarShapeOk;
    var root := sidecar.beaconBlockRoot;
    StoreSidecarKeepsOrder(Stored(s, root), sidecar);
    var list := StoreSidecar(Stored(s, root), sidecar);
    forall i | 0 <= i < |list|
      ensures SidecarBelongs(cfg.rules, root, s.blocks[root], list[i])
    {
      assert list[i] in list;
    }
  }

  lemma WaitingIsValid(cfg: Config, anchor: Root, s: StoreView, root: Root)
    requires Inv(cfg, anchor, s)
    ensures root in s.queued ==>
      && s.queued[root].message.beaconBlockRoot == root && root in s.blockStates
      && cfg.rules.envelopeValid(s.blockStates[root], s.queued[root])
  {
    hide Shape, VotesShaped, MessagesSound, BoostSound, FullSound, StatesDerived, ColumnsSound, PayloadSound;
  }

  lemma DataThereReads(s: StoreView, t: StoreView, root: Root)
    requires root in s.blocks && t.blocks == s.blocks && t.sidecars == s.sidecars
    ensures DataThere(t, root) <==> DataThere(s, root)
  {
  }

  lemma RecordedFiles(stored: StoreView, s: StoreView, root: Root, envelope: SignedEnvelope)
    requires stored.payloads == s.payloads && stored.queued == s.queued && envelope.message.beaconBlockRoot == root
    ensures FilesPayload(s, Recorded(stored, envelope), root, envelope)
  {
  }

  lemma ColumnsSame(s: StoreView, stored: StoreView, t: StoreView, sidecar: Sidecar)
    requires ColumnStored(s, stored, sidecar) && t.sidecars == stored.sidecars
    ensures ColumnStored(s, t, sidecar)
  {
  }
}
