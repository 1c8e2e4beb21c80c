/**
  * Envelopes over whole runs, under any payload verifier: none is lost, and one is stuck
  * only by a rejection.
  */
module DeliveryRuns {
  import opened Primitives
  import opened ForkChoiceTypes
  import opened Ancestry
  import opened Clock
  import opened HeadKey
  import opened Columns
  import opened Handlers
  import opened StoreInvariant
  import opened DeliveryInvariant
  import opened BlockInvariant
  import opened StoreRuns

  // ---------------------------------------------------------------------------
  // What the quiet handlers leave alone
  // ---------------------------------------------------------------------------

  /** Blocks, columns, queue and unrealized finality are untouched; finality may catch up. */
  ghost predicate Quiet(s: StoreView, t: StoreView) {
    && t.blocks == s.blocks && t.sidecars == s.sidecars && t.queued == s.queued
    && t.unrealizedFinalized == s.unrealizedFinalized
    && (t.finalized == s.finalized || t.finalized == s.unrealizedFinalized)
  }

  predicate IsQuiet(e: Event) {
    e.Tick? || e.AttestationArrives? || e.SlashingArrives? || e.PtcVoteArrives?
  }

  lemma TickIsQuiet(cfg: Config, s: StoreView, time: U64)
    ensures Quiet(s, Ticked(cfg.preset, s, time))
  {
    hide SlotAtTime;
  }

  lemma AttestationIsQuiet(cfg: Config, s: StoreView, attestation: Attestation, isFromBlock: bool)
    requires Ordered(s.blocks) && OnAttestation(cfg, s, attestation, isFromBlock).Some?
    ensures Quiet(s, OnAttestation(cfg, s, attestation, isFromBlock).value)
  {
    hide OnAttestation, AttestationAdmissible, WithMessages, Ordered;
    var _ := AttestationTouches(cfg, s, attestation, isFromBlock);
  }

  lemma SlashingIsQuiet(cfg: Config, s: StoreView, slashing: AttesterSlashing)
    requires OnAttesterSlashing(cfg, s, slashing).Some?
    ensures Quiet(s, OnAttesterSlashing(cfg, s, slashing).value)
  {
  }

  lemma PtcVoteIsQuiet(cfg: Config, s: StoreView, message: PtcMessage, isFromBlock: bool)
    requires OnPtcMessage(cfg, s, message, isFromBlock).Some?
    ensures Quiet(s, OnPtcMessage(cfg, s, message, isFromBlock).value)
  {
    hide OnPtcMessage;
    PtcTouchesOnlyVotes(cfg, s, message, isFromBlock);
  }

  lemma QuietStep(cfg: Config, anchor: Root, s: StoreView, e: Event)
    requires Inv(cfg, anchor, s) && cfg.rules.Lawful() && TrustedEvent(cfg, anchor, s, e) && IsQuiet(e)
    ensures Quiet(s, Step(cfg, anchor, s, e))
  {
    hide Inv, OnAttestation, OnAttesterSlashing, OnPtcMessage, Ticked, Quiet, Ordered, Rooted, Readable;
    InvIsReadable(cfg, anchor, s);
    NothingIsQuiet(s);
    if Handle(cfg, anchor, s, e).Some? {
      match e
      case Tick(time) => TickIsQuiet(cfg, s, time);
      case AttestationArrives(attestation, isFromBlock) => AttestationIsQuiet(cfg, s, attestation, isFromBlock);
      case SlashingArrives(slashing) => SlashingIsQuiet(cfg, s, slashing);
      case PtcVoteArrives(message, isFromBlock) => PtcVoteIsQuiet(cfg, s, message, isFromBlock);
    }
  }

  lemma NothingIsQuiet(s: StoreView)
    ensures Quiet(s, s)
  {
  }

  // ---------------------------------------------------------------------------
  // Nothing new is stuck
  // ---------------------------------------------------------------------------

  ghost predicate NoneStuck(cfg: Config, s: StoreView) {
    forall r :: !Stuck(cfg, s, r)
  }

  /** Whatever is stuck in `t` was stuck in `s`. */
  ghost predicate SticksNothing(cfg: Config, s: StoreView, t: StoreView) {
    forall r :: Stuck(cfg, t, r) ==> Stuck(cfg, s, r)
  }

  lemma QuietSticksNothing(cfg: Config, s: StoreView, t: StoreView)
    requires t.blocks == s.blocks && t.sidecars == s.sidecars && t.queued == s.queued
    ensures SticksNothing(cfg, s, t)
  {
    hide Available, ColumnsSound, Stored;
    AvailableFrame(cfg, s, t);
  }

  lemma BlockSticksNothing(cfg: Config, anchor: Root, s: StoreView, signed: SignedBlock)
    requires Inv(cfg, anchor, s) && cfg.rules.Lawful() && Trusted(cfg, anchor, s, signed.message)
    requires Readable(s) && OrderSafe(cfg, s, signed) && OnBlock(cfg, s, signed).Some?
    ensures SticksNothing(cfg, s, OnBlock(cfg, s, signed).value)
  {
    hide Shape, VotesShaped, MessagesSound, BoostSound, FullSound, StatesDerived, ColumnsSound, PayloadSound;
    hide Available, Trusted, OnBlock, Ordered, Rooted, CurrentSlot, BlockAdmissible, Grew, ImportOutcome;
    var root, t := cfg.rules.blockRoot(signed.message), OnBlock(cfg, s, signed).value;
    KeysAgree(cfg, anchor, s);
    AcceptedBlockGrows(cfg, anchor, s, signed);
    var state := ImportTouches(cfg, anchor, s, signed);
    GrowthIsSound(cfg, anchor, s, signed, state, t);
    ImportKeeps(cfg, s, root, signed.message, state, t);
    AvailableAfterImport(cfg, s, root, signed.message, state, t);
  }

  lemma {:induction false} AttestationsStickNothing(
    cfg: Config, s: StoreView, attestations: seq<Attestation>, k: nat)
    requires Ordered(s.blocks) && k <= |attestations| && ReplayAttestations(cfg, s, attestations, k).Some?
    ensures SticksNothing(cfg, s, ReplayAttestations(cfg, s, attestations, k).value)
  {
    hide OnAttestation, Ordered, Stuck;
    if k > 0 {
      AttestationsStickNothing(cfg, s, attestations, k - 1);
      var before := ReplayAttestations(cfg, s, attestations, k - 1).value;
      AttestationIsQuiet(cfg, before, attestations[k - 1], true);
      QuietSticksNothing(cfg, before, ReplayAttestations(cfg, s, attestations, k).value);
    }
  }

  lemma {:induction false} SlashingsStickNothing(
    cfg: Config, s: StoreView, slashings: seq<AttesterSlashing>, k: nat)
    requires k <= |slashings| && ReplaySlashings(cfg, s, slashings, k).Some?
    ensures SticksNothing(cfg, s, ReplaySlashings(cfg, s, slashings, k).value)
  {
    hide OnAttesterSlashing, Stuck;
    if k > 0 {
      SlashingsStickNothing(cfg, s, slashings, k - 1);
      var before := ReplaySlashings(cfg, s, slashings, k - 1).value;
      SlashingIsQuiet(cfg, before, slashings[k - 1]);
      QuietSticksNothing(cfg, before, ReplaySlashings(cfg, s, slashings, k).value);
    }
  }

  lemma MessagesStickNothing(cfg: Config, s: StoreView, block: Block)
    requires Ordered(s.blocks) && ReplayMessages(cfg, s, block).Some?
    ensures SticksNothing(cfg, s, ReplayMessages(cfg, s, block).value)
  {
    hide ReplayAttestations, ReplaySlashings, Ordered, Stuck;
    var attestations, slashings := block.body.attestations, block.body.attesterSlashings;
    AttestationsStickNothing(cfg, s, attestations, |attestations|);
    var voted := ReplayAttestations(cfg, s, attestations, |attestations|).value;
    SlashingsStickNothing(cfg, voted, slashings, |slashings|);
  }

  lemma BlockWithMessagesSticksNothing(cfg: Config, anchor: Root, s: StoreView, signed: SignedBlock)
    requires Inv(cfg, anchor, s) && cfg.rules.Lawful() && Trusted(cfg, anchor, s, signed.message)
    requires OnBlockWithMessages(cfg, anchor, s, signed).Some?
    ensures SticksNothing(cfg, s, OnBlockWithMessages(cfg, anchor, s, signed).value)
  {
    hide Inv, OnBlock, ReplayMessages, Readable, OrderSafe, Ordered, Rooted, Trusted, Stuck;
    AdmissibleBlockFits(cfg, anchor, s, signed);
    var imported := OnBlock(cfg, s, signed).value;
    BlockKeepsInv(cfg, anchor, s, signed);
    InvIsReadable(cfg, anchor, imported);
    BlockSticksNothing(cfg, anchor, s, signed);
    MessagesStickNothing(cfg, imported, signed.message);
  }

  /** The event is a column for `r` whose verifier rejects the envelope waiting for `r`. */
  ghost predicate Rejects(s: StoreView, e: Event, r: Root) {
    e.SidecarArrives? && e.sidecar.beaconBlockRoot == r && r in s.queued && !e.verifier(s.queued[r])
  }

  /** Whatever the verifiers say, an envelope becomes stuck only by a rejection. */
  lemma OnlyRejectionSticks(cfg: Config, anchor: Root, s: StoreView, e: Event, r: Root)
    requires Inv(cfg, anchor, s) && cfg.rules.Lawful() && TrustedEvent(cfg, anchor, s, e)
    ensures Stuck(cfg, Step(cfg, anchor, s, e), r) ==> Stuck(cfg, s, r) || Rejects(s, e, r)
  {
    hide Inv, Stuck, OnBlock, OnBlockWithMessages, OnEnvelope, Trusted, Ordered, Rooted, Readable, OrderSafe;
    hide OnAttestation, OnAttesterSlashing, OnPtcMessage, Ticked;
    InvIsReadable(cfg, anchor, s);
    if IsQuiet(e) {
      QuietStep(cfg, anchor, s, e);
      QuietSticksNothing(cfg, s, Step(cfg, anchor, s, e));
    } else if Handle(cfg, anchor, s, e).Some? {
      match e
      case BlockArrives(signed) =>
        AdmissibleBlockFits(cfg, anchor, s, signed);
        BlockSticksNothing(cfg, anchor, s, signed);
      case BlockWithMessages(signed) => BlockWithMessagesSticksNothing(cfg, anchor, s, signed);
      case EnvelopeArrives(envelope, verifier) => EnvelopeNeverSticks(cfg, s, envelope, verifier, r);
      case SidecarArrives(sidecar, verifier) => SidecarSticks(cfg, anchor, s, sidecar, verifier, r);
    }
  }

  lemma SidecarSticks(cfg: Config, anchor: Root, s: StoreView, sidecar: Sidecar, verifier: Verifier, r: Root)
    requires Inv(cfg, anchor, s)
    ensures Stuck(cfg, OnSidecar(cfg, s, sidecar, verifier).0, r) ==>
      Stuck(cfg, s, r) || (sidecar.beaconBlockRoot == r && r in s.queued && !verifier(s.queued[r]))
  {
    hide Inv, Stuck, SidecarAdmissible, Released, Available;
    if SidecarAdmissible(cfg, s, sidecar) {
      StuckIffRejected(cfg, anchor, s, sidecar, verifier, r);
    }
  }

  /** Every verifier of the run accepts everything, as the store's own handlers do. */
  ghost predicate Accepting(events: seq<Event>) {
    forall i, envelope ::
      0 <= i < |events| && events[i].SidecarArrives? ==> events[i].verifier(envelope)
  }

  /** Under accepting verifiers no envelope is ever stuck. */
  lemma {:induction false} RunSticksNothing(cfg: Config, anchor: Root, s: StoreView, events: seq<Event>)
    requires Inv(cfg, anchor, s) && cfg.rules.Lawful() && TrustedRun(cfg, anchor, s, events)
    requires NoneStuck(cfg, s) && Accepting(events)
    ensures NoneStuck(cfg, Run(cfg, anchor, s, events))
    decreases |events|
  {
    hide Inv, Step, TrustedEvent, Stuck;
    if events != [] {
      StepKeepsInv(cfg, anchor, s, events[0]);
      var next := Step(cfg, anchor, s, events[0]);
      forall r
        ensures !Stuck(cfg, next, r)
      {
        OnlyRejectionSticks(cfg, anchor, s, events[0], r);
      }
      assert forall i :: 0 <= i < |events[1..]| ==> events[1..][i] == events[i + 1];
      RunSticksNothing(cfg, anchor, next, events[1..]);
    }
  }

  // ---------------------------------------------------------------------------
  // Waiting envelopes
  // ---------------------------------------------------------------------------

  /** In every reachable store a waiting envelope is valid for its block. */
  lemma ReachableQueueIsValid(
    cfg: Config, state: BeaconState, block: Block, events: seq<Event>, s: StoreView, r: Root)
    requires ReachedBy(cfg, state, block, events, s) && r in s.queued
    ensures ValidFor(cfg, s, r, s.queued[r])
  {
    hide ReachedBy, Shape, VotesShaped, MessagesSound, BoostSound, FullSound, StatesDerived, ColumnsSound;
    hide PayloadSound;
    ReachableSatisfiesInv(cfg, state, block, events, s);
  }

  /** Under accepting verifiers it waits only for a column that really is missing. */
  lemma ReachableQueue(
    cfg: Config, state: BeaconState, block: Block, events: seq<Event>, s: StoreView, r: Root)
    requires ReachedBy(cfg, state, block, events, s) && Accepting(events) && r in s.queued
    ensures r in s.blocks && s.blocks[r].body.bid.commitments != []
    ensures exists c :: 0 <= c < NUMBER_OF_COLUMNS && !HasIndex(Stored(s, r), c)
  {
    hide Inv, Run, TrustedRun, Available, HasIndex, Stored, ColumnsSound, Accepting;
    var start, anchor := AnchorStore(cfg, state, block).value, cfg.rules.blockRoot(block);
    RunSticksNothing(cfg, anchor, start, events);
    assert !Stuck(cfg, s, r);
    ReachableQueueIsValid(cfg, state, block, events, s, r);
    ReachableSatisfiesInv(cfg, state, block, events, s);
    InvColumns(cfg, anchor, s);
    AvailableMeansAllStored(cfg.rules, s, r);
  }

  lemma InvColumns(cfg: Config, anchor: Root, s: StoreView)
    requires Inv(cfg, anchor, s)
    ensures ColumnsSound(cfg.rules, s)
    ensures forall r :: r in s.queued ==> r in s.blocks
  {
    hide Shape, VotesShaped, MessagesSound, BoostSound, FullSound, StatesDerived, ColumnsSound, PayloadSound;
  }

  /**
    * No envelope is lost, whatever the verifiers say: one that waits is, after any further
    * run, filed, or waiting for a missing column, or stuck.
    */
  lemma WaitingEnvelopeIsKept(cfg: Config, anchor: Root, s: StoreView, later: seq<Event>, r: Root)
    requires Inv(cfg, anchor, s) && cfg.rules.Lawful() && TrustedRun(cfg, anchor, s, later) && r in s.queued
    ensures var t := Run(cfg, anchor, s, later);
      || r in t.payloads
      || Stuck(cfg, t, r)
      || (r in t.queued && exists c :: 0 <= c < NUMBER_OF_COLUMNS && !HasIndex(Stored(t, r), c))
  {
    hide Run, TrustedRun, HasIndex, Stored, Inv, Available, ColumnsSound;
    RunKeepsInv(cfg, anchor, s, later);
    var t := Run(cfg, anchor, s, later);
    QueueIsKept(cfg, s, t);
    InvColumns(cfg, anchor, t);
    if r in t.queued {
      AvailableMeansAllStored(cfg.rules, t, r);
    }
  }

  lemma QueueIsKept(cfg: Config, s: StoreView, t: StoreView)
    requires Advances(cfg, s, t)
    ensures s.queued.Keys <= t.queued.Keys + t.payloads.Keys
  {
    hide CurrentSlot, HasIndex, Stored;
  }

  /** Under accepting verifiers it is filed as soon as every column is stored. */
  lemma WaitingEnvelopeIsFiled(cfg: Config, anchor: Root, s: StoreView, later: seq<Event>, r: Root)
    requires Inv(cfg, anchor, s) && cfg.rules.Lawful() && TrustedRun(cfg, anchor, s, later) && r in s.queued
    requires NoneStuck(cfg, s) && Accepting(later)
    ensures var t := Run(cfg, anchor, s, later);
      (forall c :: 0 <= c < NUMBER_OF_COLUMNS ==> HasIndex(Stored(t, r), c)) ==> r in t.payloads
  {
    hide Run, TrustedRun, HasIndex, Stored, Inv, Stuck, Accepting;
    WaitingEnvelopeIsKept(cfg, anchor, s, later, r);
    RunSticksNothing(cfg, anchor, s, later);
  }
}
