/**
  * Envelopes and data columns keep the invariant, whatever the payload verifier says. An
  * envelope is stuck when it waits although its data is there; a step can only make that
  * so by a rejection, and data once available stays available.
  */
module DeliveryInvariant {
  import opened Primitives
  import opened ForkChoiceTypes
  import opened Clock
  import opened Columns
  import opened Handlers
  import opened StoreInvariant

  /** `t` differs from `s` in payloads, queue and columns at most. */
  ghost predicate DeliversOnly(s: StoreView, t: StoreView) {
    && t.time == s.time && t.genesisTime == s.genesisTime
    && t.justified == s.justified && t.finalized == s.finalized
    && t.unrealizedJustified == s.unrealizedJustified && t.unrealizedFinalized == s.unrealizedFinalized
    && t.boostRoot == s.boostRoot && t.equivocating == s.equivocating
    && t.blocks == s.blocks && t.blockStates == s.blockStates && t.timeliness == s.timeliness
    && t.checkpointStates == s.checkpointStates && t.latestMessages == s.latestMessages
    && t.unrealizedJustifications == s.unrealizedJustifications
    && t.timelinessVotes == s.timelinessVotes && t.availabilityVotes == s.availabilityVotes
  }

  /** A step that only delivers: it may add payloads and change queue and columns. */
  lemma DeliveryKeepsInv(cfg: Config, anchor: Root, s: StoreView, t: StoreView)
    requires Inv(cfg, anchor, s)
    requires DeliversOnly(s, t)
    requires s.payloads.Keys <= t.payloads.Keys <= s.blocks.Keys
    requires ColumnsSound(cfg.rules, t) && EnvelopesSound(cfg, t)
    ensures Inv(cfg, anchor, t)
  {
    hide Shape, VotesShaped, MessagesSound, BoostSound, FullSound, StatesDerived, ColumnsSound, EnvelopesSound;
    hide CurrentSlot;
    SameClock(cfg, s, t);
    ShapeFrame(cfg, anchor, s, t);
    VotesFrame(cfg, anchor, s, t);
    MessagesFrame(cfg, s, t);
    BoostFrame(cfg, anchor, s, t);
    FullFrame(s, t);
    KeysAgree(cfg, anchor, s);
    DerivedFrame(cfg, anchor, s, t);
  }

  lemma DeliveryAdvances(cfg: Config, s: StoreView, t: StoreView)
    requires DeliversOnly(s, t)
    requires s.payloads.Keys <= t.payloads.Keys && s.queued.Keys <= t.queued.Keys + t.payloads.Keys
    requires forall r, c {:trigger HasIndex(Stored(t, r), c)} :: HasIndex(Stored(s, r), c) ==> HasIndex(Stored(t, r), c)
    ensures Advances(cfg, s, t)
  {
    hide CurrentSlot, HasIndex, Stored;
    SameClock(cfg, s, t);
  }

  lemma QueueingSound(cfg: Config, s: StoreView, envelope: SignedEnvelope)
    requires EnvelopesSound(cfg, s) && ValidFor(cfg, s, envelope.message.beaconBlockRoot, envelope)
    ensures EnvelopesSound(cfg, s.(queued := s.queued[envelope.message.beaconBlockRoot := envelope]))
  {
    hide Available, ColumnsSound, Stored, PayloadSound;
    var t := s.(queued := s.queued[envelope.message.beaconBlockRoot := envelope]);
    AvailableFrame(cfg, s, t);
    forall r | r in t.payloads
      ensures PayloadSound(cfg, t, r, t.payloads[r])
    {
      PayloadParts(cfg, s, r, s.payloads[r]);
      PayloadFrame(cfg, s, t, r, s.payloads[r]);
    }
  }

  lemma RecordingSound(cfg: Config, s: StoreView, envelope: SignedEnvelope)
    requires EnvelopesSound(cfg, s) && ValidFor(cfg, s, envelope.message.beaconBlockRoot, envelope)
    requires Available(cfg.rules, s, envelope.message.beaconBlockRoot)
    ensures EnvelopesSound(cfg, Recorded(s, envelope))
  {
    hide Available, ColumnsSound, Stored, PayloadSound;
    var t := Recorded(s, envelope);
    AvailableFrame(cfg, s, t);
    PayloadIsSound(cfg, t, envelope);
    forall r | r in t.payloads
      ensures PayloadSound(cfg, t, r, t.payloads[r])
    {
      if r != envelope.message.beaconBlockRoot {
        PayloadParts(cfg, s, r, s.payloads[r]);
        PayloadFrame(cfg, s, t, r, s.payloads[r]);
      }
    }
  }

  lemma PayloadIsSound(cfg: Config, s: StoreView, envelope: SignedEnvelope)
    requires ValidFor(cfg, s, envelope.message.beaconBlockRoot, envelope)
    requires Available(cfg.rules, s, envelope.message.beaconBlockRoot)
    ensures PayloadSound(cfg, s, envelope.message.beaconBlockRoot, envelope.message)
  {
    hide Available;
    assert envelope == SignedEnvelope(envelope.message, envelope.signature);
  }

  /** Queueing or recording an envelope keeps the invariant, whatever the verifier says. */
  lemma EnvelopeKeepsInv(cfg: Config, anchor: Root, s: StoreView, envelope: SignedEnvelope, verifier: Verifier)
    requires Inv(cfg, anchor, s) && OnEnvelope(cfg, s, envelope, verifier).Some?
    ensures var t := OnEnvelope(cfg, s, envelope, verifier).value;
      Inv(cfg, anchor, t) && Advances(cfg, s, t)
  {
    hide Shape, VotesShaped, MessagesSound, BoostSound, FullSound, StatesDerived, ColumnsSound, EnvelopesSound;
    hide Advances, CurrentSlot, Available, HasIndex, Stored, OnEnvelope;
    var t := OnEnvelope(cfg, s, envelope, verifier).value;
    KeysAgree(cfg, anchor, s);
    AcceptedEnvelopeIsKnown(cfg, s, envelope, verifier);
    EnvelopeTouches(cfg, s, envelope, verifier);
    AvailableFrame(cfg, s, t);
    EnvelopeLeavesQueueSound(cfg, s, envelope, verifier);
    DeliveryKeepsInv(cfg, anchor, s, t);
    DeliveryAdvances(cfg, s, t);
  }

  /** `t` differs from `s` in payloads and queue at most, and has gained at most payload `root`. */
  ghost predicate GainsPayload(s: StoreView, root: Root, t: StoreView) {
    && DeliversOnly(s, t) && t.sidecars == s.sidecars
    && s.payloads.Keys <= t.payloads.Keys <= s.payloads.Keys + {root}
    && s.queued.Keys <= t.queued.Keys + t.payloads.Keys
  }

  lemma OutcomesGainPayload(s: StoreView, envelope: SignedEnvelope)
    ensures var root := envelope.message.beaconBlockRoot;
      && GainsPayload(s, root, s)
      && GainsPayload(s, root, s.(queued := s.queued[root := envelope]))
      && GainsPayload(s, root, Recorded(s, envelope))
  {
  }

  lemma EnvelopeTouches(cfg: Config, s: StoreView, envelope: SignedEnvelope, verifier: Verifier)
    requires OnEnvelope(cfg, s, envelope, verifier).Some?
    ensures GainsPayload(s, envelope.message.beaconBlockRoot, OnEnvelope(cfg, s, envelope, verifier).value)
  {
    hide EnvelopeFate, GainsPayload;
    OutcomesGainPayload(s, envelope);
  }

  lemma AcceptedEnvelopeIsKnown(cfg: Config, s: StoreView, envelope: SignedEnvelope, verifier: Verifier)
    requires OnEnvelope(cfg, s, envelope, verifier).Some?
    ensures envelope.message.beaconBlockRoot in s.blockStates
  {
    hide Available;
  }

  lemma EnvelopeLeavesQueueSound(cfg: Config, s: StoreView, envelope: SignedEnvelope, verifier: Verifier)
    requires EnvelopesSound(cfg, s) && s.blockStates.Keys == s.blocks.Keys
    requires OnEnvelope(cfg, s, envelope, verifier).Some?
    ensures EnvelopesSound(cfg, OnEnvelope(cfg, s, envelope, verifier).value)
  {
    hide Available;
    if Available(cfg.rules, s, envelope.message.beaconBlockRoot) {
      RecordingSound(cfg, s, envelope);
    } else {
      QueueingSound(cfg, s, envelope);
    }
  }

  /** A new column leaves every other block's columns, and so availability, alone. */
  lemma OtherColumnsUntouched(cfg: Config, s: StoreView, sidecar: Sidecar, r: Root)
    requires r != sidecar.beaconBlockRoot
    ensures Available(cfg.rules, WithSidecar(s, sidecar), r) == Available(cfg.rules, s, r)
    ensures Stored(WithSidecar(s, sidecar), r) == Stored(s, r)
  {
    hide SidecarBelongs, Complete, StoreSidecar;
  }

  lemma StoredListSound(cfg: Config, root: Root, block: Block, list: seq<Sidecar>, sidecar: Sidecar)
    requires Increasing(list) && SidecarBelongs(cfg.rules, root, block, sidecar)
    requires forall i :: 0 <= i < |list| ==> SidecarBelongs(cfg.rules, root, block, list[i])
    ensures var after := StoreSidecar(list, sidecar);
      && Increasing(after)
      && (forall i :: 0 <= i < |after| ==> SidecarBelongs(cfg.rules, root, block, after[i]))
      && (forall c :: HasIndex(list, c) ==> HasIndex(after, c))
      && HasIndex(after, sidecar.index)
  {
    hide SidecarBelongs, StoreSidecar, Increasing;
    var after := StoreSidecar(list, sidecar);
    StoreSidecarKeepsOrder(list, sidecar);
    forall i | 0 <= i < |after|
      ensures SidecarBelongs(cfg.rules, root, block, after[i])
    {
      assert after[i] in after;
    }
    assert sidecar in after;
    forall c | HasIndex(list, c)
      ensures HasIndex(after, c)
    {
      var i :| 0 <= i < |list| && list[i].index == c;
      assert list[i] in list;
      assert c == sidecar.index || list[i] in after;
    }
  }

  /** Storing an admissible column keeps all columns sound and loses none. */
  lemma WithSidecarSound(cfg: Config, s: StoreView, sidecar: Sidecar)
    requires ColumnsSound(cfg.rules, s) && SidecarAdmissible(cfg, s, sidecar)
    ensures ColumnsSound(cfg.rules, WithSidecar(s, sidecar))
    ensures forall r, c {:trigger HasIndex(Stored(WithSidecar(s, sidecar), r), c)} ::
      HasIndex(Stored(s, r), c) ==> HasIndex(Stored(WithSidecar(s, sidecar), r), c)
    ensures HasIndex(Stored(WithSidecar(s, sidecar), sidecar.beaconBlockRoot), sidecar.index)
  {
    hide SidecarBelongs, StoreSidecar, HasIndex;
    var root := sidecar.beaconBlockRoot;
    StoredListSound(cfg, root, s.blocks[root], Stored(s, root), sidecar);
  }

  /** So it makes no valid or available envelope less so. */
  lemma SidecarKeepsEnvelopes(cfg: Config, s: StoreView, sidecar: Sidecar)
    requires ColumnsSound(cfg.rules, s) && SidecarAdmissible(cfg, s, sidecar) && EnvelopesSound(cfg, s)
    ensures EnvelopesSound(cfg, WithSidecar(s, sidecar))
  {
    hide Available, ColumnsSound, Stored, StoreSidecar, HasIndex, PayloadSound, SidecarAdmissible;
    var t := WithSidecar(s, sidecar);
    WithSidecarSound(cfg, s, sidecar);
    forall r | r in t.payloads
      ensures PayloadSound(cfg, t, r, t.payloads[r])
    {
      PayloadParts(cfg, s, r, s.payloads[r]);
      AvailabilityMonotone(cfg.rules, s, t, r);
      PayloadFrame(cfg, s, t, r, s.payloads[r]);
    }
  }

  /** A waiting envelope whose data is there is released unless the verifier rejects it. */
  lemma ReleasedSound(cfg: Config, s: StoreView, root: Root, verifier: Verifier)
    requires EnvelopesSound(cfg, s)
    ensures Released(cfg, s, root, verifier).None? <==>
      root in s.queued && Available(cfg.rules, s, root) && !verifier(s.queued[root])
    ensures Released(cfg, s, root, verifier).Some? ==> EnvelopesSound(cfg, Released(cfg, s, root, verifier).value)
  {
    hide Available, PayloadSound;
    if root in s.queued && Available(cfg.rules, s, root) {
      RecordingSound(cfg, s, s.queued[root]);
    }
  }

  /** A column keeps the whole invariant, whatever the verifier says. */
  lemma SidecarKeepsInv(cfg: Config, anchor: Root, s: StoreView, sidecar: Sidecar, verifier: Verifier)
    requires Inv(cfg, anchor, s)
    ensures var t := OnSidecar(cfg, s, sidecar, verifier).0;
      Inv(cfg, anchor, t) && Advances(cfg, s, t)
  {
    hide Shape, VotesShaped, MessagesSound, BoostSound, FullSound, StatesDerived, ColumnsSound, EnvelopesSound;
    hide Advances, CurrentSlot, Available, HasIndex, Stored, SidecarAdmissible, StoreSidecar, Released;
    if !SidecarAdmissible(cfg, s, sidecar) {
      AdvancesReflexive(cfg, s);
    } else {
      var stored, root := WithSidecar(s, sidecar), sidecar.beaconBlockRoot;
      var t := OnSidecar(cfg, s, sidecar, verifier).0;
      KeysAgree(cfg, anchor, s);
      WithSidecarSound(cfg, s, sidecar);
      SidecarKeepsEnvelopes(cfg, s, sidecar);
      ReleasedSound(cfg, stored, root, verifier);
      SidecarTouches(cfg, s, sidecar, verifier);
      AvailableFrame(cfg, stored, t);
      DeliveryKeepsInv(cfg, anchor, s, t);
      DeliveryAdvances(cfg, s, t);
    }
  }

  lemma SidecarTouches(cfg: Config, s: StoreView, sidecar: Sidecar, verifier: Verifier)
    requires SidecarAdmissible(cfg, s, sidecar) && EnvelopesSound(cfg, WithSidecar(s, sidecar))
    ensures var stored := WithSidecar(s, sidecar);
      GainsPayload(stored, sidecar.beaconBlockRoot, OnSidecar(cfg, s, sidecar, verifier).0)
    ensures sidecar.beaconBlockRoot in s.blocks && DeliversOnly(s, WithSidecar(s, sidecar))
    ensures WithSidecar(s, sidecar).payloads == s.payloads && WithSidecar(s, sidecar).queued == s.queued
  {
    hide Available, Stored, StoreSidecar, GainsPayload, Released, SidecarBelongs, PayloadSound;
    var stored, root := WithSidecar(s, sidecar), sidecar.beaconBlockRoot;
    if Released(cfg, stored, root, verifier).Some? {
      ReleaseTouches(cfg, stored, root, verifier);
    }
    OutcomesGainPayload(stored, SignedEnvelope(Envelope(root, 0), 0));
  }

  /** Releasing may file the waiting envelope, and touches nothing but payloads and queue. */
  lemma ReleaseTouches(cfg: Config, s: StoreView, root: Root, verifier: Verifier)
    requires Released(cfg, s, root, verifier).Some?
    requires root in s.queued ==> s.queued[root].message.beaconBlockRoot == root
    ensures GainsPayload(s, root, Released(cfg, s, root, verifier).value)
    ensures root !in s.queued ==> Released(cfg, s, root, verifier).value == s
  {
    hide Available, GainsPayload, Recorded;
    if root in s.queued {
      OutcomesGainPayload(s, s.queued[root]);
    } else {
      OutcomesGainPayload(s, SignedEnvelope(Envelope(root, 0), 0));
    }
  }

  // ---------------------------------------------------------------------------
  // Stuck envelopes
  // ---------------------------------------------------------------------------

  /** The envelope of `r` waits although all its data is there. */
  ghost predicate Stuck(cfg: Config, s: StoreView, r: Root) {
    r in s.queued && Available(cfg.rules, s, r)
  }

  /**
    * After an admissible column for a block, the block's envelope is stuck exactly when it
    * was waiting, its data is now complete, and the verifier rejects it; the handler then
    * reports failure. No other envelope becomes stuck or free.
    */
  lemma StuckIffRejected(
    cfg: Config, anchor: Root, s: StoreView, sidecar: Sidecar, verifier: Verifier, r: Root)
    requires Inv(cfg, anchor, s) && SidecarAdmissible(cfg, s, sidecar)
    ensures var (t, ok) := OnSidecar(cfg, s, sidecar, verifier);
      var root := sidecar.beaconBlockRoot;
      var rejected :=
        root in s.queued && Available(cfg.rules, WithSidecar(s, sidecar), root) && !verifier(s.queued[root]);
      && (Stuck(cfg, t, root) <==> rejected) && (ok <==> !rejected)
      && (r != root ==> (Stuck(cfg, t, r) <==> Stuck(cfg, s, r)))
  {
    hide Shape, VotesShaped, MessagesSound, BoostSound, FullSound, StatesDerived, ColumnsSound, EnvelopesSound;
    hide Available, HasIndex, Stored, SidecarAdmissible, StoreSidecar, Released, QueueMovesAt;
    var stored, root := WithSidecar(s, sidecar), sidecar.beaconBlockRoot;
    SidecarKeepsEnvelopes(cfg, s, sidecar);
    ReleasedSound(cfg, stored, root, verifier);
    if Released(cfg, stored, root, verifier).Some? {
      ReleaseFrees(cfg, stored, root, verifier);
      StuckElsewhere(cfg, stored, root, Released(cfg, stored, root, verifier).value, r);
    }
    if r != root {
      OtherColumnsUntouched(cfg, s, sidecar, r);
    }
  }

  /** `t` has the data of `s`, and its queue except possibly for the entry of `root`. */
  ghost predicate QueueMovesAt(cfg: Config, s: StoreView, root: Root, t: StoreView) {
    && (forall r :: Available(cfg.rules, t, r) == Available(cfg.rules, s, r))
    && (forall r :: r != root ==> (r in t.queued <==> r in s.queued))
  }

  lemma OutcomesMoveQueue(cfg: Config, s: StoreView, envelope: SignedEnvelope)
    ensures var root := envelope.message.beaconBlockRoot;
      && QueueMovesAt(cfg, s, root, s)
      && QueueMovesAt(cfg, s, root, s.(queued := s.queued[root := envelope]))
      && QueueMovesAt(cfg, s, root, Recorded(s, envelope)) && root !in Recorded(s, envelope).queued
  {
    hide Available, ColumnsSound, Stored;
    var root := envelope.message.beaconBlockRoot;
    AvailableFrame(cfg, s, s.(queued := s.queued[root := envelope]));
    AvailableFrame(cfg, s, Recorded(s, envelope));
  }

  lemma StuckElsewhere(cfg: Config, s: StoreView, root: Root, t: StoreView, r: Root)
    requires QueueMovesAt(cfg, s, root, t)
    ensures r != root ==> (Stuck(cfg, t, r) <==> Stuck(cfg, s, r))
    ensures Stuck(cfg, t, root) <==> root in t.queued && Available(cfg.rules, s, root)
  {
    hide Available;
  }

  /** A release removes at most the released entry from the queue and moves no data. */
  lemma ReleaseFrees(cfg: Config, s: StoreView, root: Root, verifier: Verifier)
    requires EnvelopesSound(cfg, s) && Released(cfg, s, root, verifier).Some?
    ensures var t := Released(cfg, s, root, verifier).value;
      QueueMovesAt(cfg, s, root, t) && !Stuck(cfg, t, root)
  {
    hide Available, PayloadSound, QueueMovesAt, Recorded;
    if root in s.queued {
      OutcomesMoveQueue(cfg, s, s.queued[root]);
    } else {
      OutcomesMoveQueue(cfg, s, SignedEnvelope(Envelope(root, 0), 0));
    }
  }

  /** A delivered envelope frees its own entry or waits for missing data. */
  lemma EnvelopeNeverSticks(cfg: Config, s: StoreView, envelope: SignedEnvelope, verifier: Verifier, r: Root)
    requires OnEnvelope(cfg, s, envelope, verifier).Some?
    ensures Stuck(cfg, OnEnvelope(cfg, s, envelope, verifier).value, r) <==>
      r != envelope.message.beaconBlockRoot && Stuck(cfg, s, r)
  {
    hide Available, QueueMovesAt, Recorded, Stuck;
    var root, t := envelope.message.beaconBlockRoot, OnEnvelope(cfg, s, envelope, verifier).value;
    OutcomesMoveQueue(cfg, s, envelope);
    assert QueueMovesAt(cfg, s, root, t);
    StuckElsewhere(cfg, s, root, t, r);
  }

  /** Data once available stays available. */
  lemma AvailabilityPersists(cfg: Config, anchor: Root, s: StoreView, t: StoreView, root: Root)
    requires Inv(cfg, anchor, s) && Inv(cfg, anchor, t) && Advances(cfg, s, t)
    requires Available(cfg.rules, s, root)
    ensures Available(cfg.rules, t, root)
  {
    hide Shape, VotesShaped, MessagesSound, BoostSound, FullSound, StatesDerived, ColumnsSound, EnvelopesSound;
    hide CurrentSlot, HasIndex, Stored;
    AvailabilityMonotone(cfg.rules, s, t, root);
  }
}
