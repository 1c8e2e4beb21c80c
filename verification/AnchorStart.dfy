/**
  * Starting from an anchor: exactly when a fresh store accepts its first block, and which
  * stores no run ever gets to accept one. The conditions name only the anchor, the clock
  * and the block, so a caller can check them.
  */
module AnchorStart {
  import opened Primitives
  import opened ForkChoiceTypes
  import opened Ancestry
  import opened Clock
  import opened Filter
  import opened Expansion
  import opened Weight
  import opened HeadKey
  import opened HeadWalk
  import opened Columns
  import opened Handlers
  import opened StoreInvariant
  import opened DeliveryInvariant
  import opened BlockInvariant
  import opened StoreRuns
  import opened DeliveryRuns
  import opened BlockAcceptance

  /** `s` is a fresh store whose clock has moved on and nothing else. */
  ghost predicate Fresh(cfg: Config, state: BeaconState, block: Block, s: StoreView) {
    && SoundAnchor(cfg, state, block) && AnchorStore(cfg, state, block).Some?
    && var start := AnchorStore(cfg, state, block).value;
       start.time <= s.time && s == start.(time := s.time)
  }

  /** However far a fresh store is ticked, it stays fresh. */
  lemma TickingKeepsFresh(cfg: Config, state: BeaconState, block: Block, time: U64)
    requires SoundAnchor(cfg, state, block) && AnchorStore(cfg, state, block).Some?
    requires AnchorStore(cfg, state, block).value.time <= time
    ensures Fresh(cfg, state, block, Ticked(cfg.preset, AnchorStore(cfg, state, block).value, time))
  {
    hide SlotAtTime;
  }

  /** What a fresh store holds. */
  lemma FreshFields(cfg: Config, state: BeaconState, block: Block, s: StoreView)
    requires Fresh(cfg, state, block, s)
    ensures var root := cfg.rules.blockRoot(block);
      var checkpoint := Checkpoint(cfg.preset.Epoch(state.slot), root);
      && s.justified == s.finalized == checkpoint && s.boostRoot == ZERO_ROOT
      && s.blocks == map[root := block] && s.blockStates == map[root := state]
      && s.checkpointStates == map[checkpoint := state] && s.latestMessages == map[] && s.payloads == map[]
      && s.unrealizedJustifications == map[root := checkpoint] && root in s.timeliness
      && s.timelinessVotes == map[] && s.availabilityVotes == map[]
      && s.timeliness.Keys == {root} && block.parentRoot != root && block.slot == state.slot
      && Readable(s) && Rooted(s.blocks, root)
  {
  }

  /** The anchor's slot opens its epoch. */
  predicate OpensEpoch(preset: Preset, slot: Slot) {
    slot <= preset.StartSlot(preset.Epoch(slot))
  }

  /** The finalized checkpoint can be found from the anchor iff the anchor opens its epoch. */
  lemma AnchorCheckpoint(cfg: Config, state: BeaconState, block: Block, s: StoreView)
    requires Fresh(cfg, state, block, s)
    ensures Readable(s) && Ordered(s.blocks)
    ensures var root := cfg.rules.blockRoot(block);
      CheckpointBlock(cfg.preset, s.blocks, root, s.finalized.epoch) ==
      if OpensEpoch(cfg.preset, block.slot) then Some(root) else None
  {
    hide Ancestor, Fresh, Rooted, Ordered;
    FreshFields(cfg, state, block, s);
    var root := cfg.rules.blockRoot(block);
    var slot := cfg.preset.StartSlot(s.finalized.epoch);
    AncestorTotal(s.blocks, root, Node(root, Pending), slot);
    if block.slot <= slot {
      StopsAtOnce(s.blocks, Node(root, Pending), slot);
    }
  }

  lemma StopsAtOnce(blocks: Blocks, node: Node, slot: Slot)
    requires Ordered(blocks) && node.root in blocks && blocks[node.root].slot <= slot
    ensures Ancestor(blocks, node, slot) == Some(node)
  {
  }

  lemma OnlyTip(blocks: Blocks, root: Root, tip: Root)
    requires Ordered(blocks) && blocks.Keys == {root} && blocks[root].parentRoot != root
    ensures Tip(blocks, tip, root) <==> tip == root
    ensures ChildRoots(blocks, root) == {}
  {
  }

  /** The filter runs through on a fresh store iff the anchor opens its epoch. */
  lemma FreshFilter(cfg: Config, state: BeaconState, block: Block, s: StoreView)
    requires Fresh(cfg, state, block, s)
    ensures Readable(s)
    ensures FilteredTree(cfg.preset, s).Some? <==> OpensEpoch(cfg.preset, block.slot)
  {
    hide CheckpointBlock, Fresh, OpensEpoch, CurrentEpoch, Rooted, Ordered, Tip, ChildRoots;
    FreshFields(cfg, state, block, s);
    AnchorCheckpoint(cfg, state, block, s);
    var root := cfg.rules.blockRoot(block);
    forall tip
      ensures Tip(s.blocks, tip, root) <==> tip == root
    {
      OnlyTip(s.blocks, root, tip);
    }
    assert TipPasses(cfg.preset, s, root).Some? <==> OpensEpoch(cfg.preset, block.slot);
  }

  lemma {:induction false} NobodyVoted(
    s: StoreView, state: BeaconState, node: Node, candidates: seq<ValidatorIndex>, k: nat)
    requires Ordered(s.blocks) && s.latestMessages == map[] && k <= |candidates| && InRegistry(state, candidates)
    ensures ScoreUpTo(s, state, node, candidates, k) == Some(0)
  {
    if k > 0 {
      NobodyVoted(s, state, node, candidates, k - 1);
    }
  }

  /** On a fresh store the empty branch of the anchor can be weighed. */
  lemma EmptyBranchHasKey(cfg: Config, state: BeaconState, block: Block, s: StoreView)
    requires Fresh(cfg, state, block, s)
    ensures Readable(s) && SelectionKey(cfg, s, Node(cfg.rules.blockRoot(block), Empty)).Some?
  {
    hide Fresh, Rooted, Ordered, CurrentSlot, ScoreUpTo, Candidates;
    FreshFields(cfg, state, block, s);
    var node := Node(cfg.rules.blockRoot(block), Empty);
    NobodyVoted(s, state, node, Candidates(cfg.preset, state), |Candidates(cfg.preset, state)|);
  }

  /** The head of a fresh store, if the anchor opens its epoch, is the anchor's empty branch. */
  lemma FreshHead(cfg: Config, state: BeaconState, block: Block, s: StoreView)
    requires Fresh(cfg, state, block, s)
    ensures Readable(s)
    ensures Head(cfg, s) ==
      if OpensEpoch(cfg.preset, block.slot) then Some(Node(cfg.rules.blockRoot(block), Empty)) else None
  {
    hide Fresh, FilteredTree, OpensEpoch, SelectionKey, HeadFrom, TreeUnder, Rooted;
    FreshFields(cfg, state, block, s);
    FreshFilter(cfg, state, block, s);
    EmptyBranchHasKey(cfg, state, block, s);
    if OpensEpoch(cfg.preset, block.slot) {
      var root := cfg.rules.blockRoot(block);
      var tree := FilteredTree(cfg.preset, s).value;
      FilteredIsTree(cfg.preset, s, tree);
      WalkOverAnchor(cfg, s, tree, root);
    }
  }

  lemma WalkOverAnchor(cfg: Config, s: StoreView, tree: Blocks, root: Root)
    requires Readable(s) && TreeUnder(s, tree, root) && s.blocks.Keys == {root} && s.payloads == map[]
    requires s.blocks[root].parentRoot != root && SelectionKey(cfg, s, Node(root, Empty)).Some?
    ensures HeadFrom(cfg, s, tree, root, Node(root, Pending)) == Some(Node(root, Empty))
  {
    hide SelectionKey;
    assert Children(s, tree, Node(root, Pending)) == {Node(root, Empty)};
    assert Heaviest(cfg, s, Children(s, tree, Node(root, Pending)), Node(root, Empty));
    HeadFromStep(cfg, s, tree, root, Node(root, Pending), Node(root, Empty));
    assert Children(s, tree, Node(root, Empty)) == {};
  }

  // ---------------------------------------------------------------------------
  // The first block
  // ---------------------------------------------------------------------------

  /**
    * A payload vote a first block may carry: on the anchor only if it is for another slot,
    * since the anchor has no vote vectors; on the block itself with seats in range or for
    * another slot; on nothing else.
    */
  ghost predicate VoteFitsAnchor(
    cfg: Config, root: Root, state: BeaconState, child: Root, post: BeaconState, data: PayloadAttestationData,
    v: ValidatorIndex)
  {
    || (data.beaconBlockRoot == root && data.slot != state.slot)
    || (&& data.beaconBlockRoot == child
        && (data.slot == post.slot ==> SeatsIn(cfg.preset, post, data.slot, v, cfg.preset.PtcSize())))
  }

  ghost predicate AggregateFitsAnchor(
    cfg: Config, root: Root, state: BeaconState, child: Root, post: BeaconState, a: PayloadAttestation)
  {
    && cfg.rules.payloadAttesters(post, a).Some?
    && var voters := cfg.rules.payloadAttesters(post, a).value;
       forall j :: 0 <= j < |voters| ==> VoteFitsAnchor(cfg, root, state, child, post, a.data, voters[j])
  }

  lemma FreshVoteFits(
    cfg: Config, state: BeaconState, block: Block, s: StoreView, child: Block, post: BeaconState,
    data: PayloadAttestationData, v: ValidatorIndex)
    requires Fresh(cfg, state, block, s) && cfg.rules.blockRoot(child) != cfg.rules.blockRoot(block)
    ensures var root, childRoot := cfg.rules.blockRoot(block), cfg.rules.blockRoot(child);
      VoteFits(cfg, Filed(cfg, s, childRoot, child, post), data, v) <==>
      VoteFitsAnchor(cfg, root, state, childRoot, post, data, v)
  {
    hide SeatsIn, Fresh, Rooted, Ordered;
    FreshFields(cfg, state, block, s);
  }

  lemma FreshVotesFit(
    cfg: Config, state: BeaconState, block: Block, s: StoreView, child: Block, post: BeaconState)
    requires Fresh(cfg, state, block, s) && cfg.rules.blockRoot(child) != cfg.rules.blockRoot(block)
    requires post.slot != 0
    ensures var root, childRoot := cfg.rules.blockRoot(block), cfg.rules.blockRoot(child);
      CarriedVotesFit(cfg, s, childRoot, child, post) <==>
      forall i :: 0 <= i < |child.body.payloadAttestations| ==>
        AggregateFitsAnchor(cfg, root, state, childRoot, post, child.body.payloadAttestations[i])
  {
    hide VoteFits, VoteFitsAnchor, Fresh, Filed;
    var root, childRoot := cfg.rules.blockRoot(block), cfg.rules.blockRoot(child);
    var filed, aggregates := Filed(cfg, s, childRoot, child, post), child.body.payloadAttestations;
    forall i | 0 <= i < |aggregates|
      ensures AggregateFits(cfg, filed, post, aggregates[i]) <==>
        AggregateFitsAnchor(cfg, root, state, childRoot, post, aggregates[i])
    {
      var a := aggregates[i];
      if cfg.rules.payloadAttesters(post, a).Some? {
        var voters := cfg.rules.payloadAttesters(post, a).value;
        forall j | 0 <= j < |voters|
          ensures VoteFits(cfg, filed, a.data, voters[j]) <==>
            VoteFitsAnchor(cfg, root, state, childRoot, post, a.data, voters[j])
        {
          FreshVoteFits(cfg, state, block, s, child, post, a.data, voters[j]);
        }
      }
    }
  }

  /** The conditions on a first block that do not look at the votes it carries. */
  ghost predicate ExtendsAnchor(cfg: Config, state: BeaconState, block: Block, s: StoreView, signed: SignedBlock) {
    var child := signed.message;
    && child.parentRoot == cfg.rules.blockRoot(block)
    && child.body.bid.parentBlockHash != block.body.bid.blockHash
    && child.slot <= CurrentSlot(cfg.preset, s)
    && cfg.preset.StartSlot(s.finalized.epoch) < child.slot
    && OpensEpoch(cfg.preset, block.slot)
    && WindowKnown(cfg.preset, block.slot, CurrentEpoch(cfg.preset, s))
    && cfg.rules.transition(state, signed).Some?
    && cfg.rules.pullUp(cfg.rules.transition(state, signed).value).Some?
  }

  /** Everything that has to hold for `signed` to be the first block of a fresh store. */
  ghost predicate FitsAnchor(cfg: Config, state: BeaconState, block: Block, s: StoreView, signed: SignedBlock) {
    && ExtendsAnchor(cfg, state, block, s, signed)
    && var aggregates := signed.message.body.payloadAttestations;
       forall i :: 0 <= i < |aggregates| ==>
         AggregateFitsAnchor(
           cfg, cfg.rules.blockRoot(block), state, cfg.rules.blockRoot(signed.message),
           cfg.rules.transition(state, signed).value, aggregates[i])
  }

  lemma FreshAdmits(cfg: Config, state: BeaconState, block: Block, s: StoreView, child: Block)
    requires Fresh(cfg, state, block, s)
    ensures Ordered(s.blocks)
    ensures BlockAdmissible(cfg, s, child) <==>
      && child.parentRoot == cfg.rules.blockRoot(block)
      && child.body.bid.parentBlockHash != block.body.bid.blockHash
      && child.slot <= CurrentSlot(cfg.preset, s)
      && cfg.preset.StartSlot(s.finalized.epoch) < child.slot
      && OpensEpoch(cfg.preset, block.slot)
  {
    hide CheckpointBlock, Fresh, OpensEpoch, CurrentSlot, Rooted, Ordered;
    FreshFields(cfg, state, block, s);
    AnchorCheckpoint(cfg, state, block, s);
  }

  /**
    * A fresh store accepts a block if and only if it builds on the anchor's empty branch in
    * a past or current slot after the anchor's epoch start, the anchor opens its epoch, the
    * duty window of the current epoch does not reach behind the anchor, its transition and
    * pulled-up tip succeed, and every payload vote it carries is one the store has cells
    * for, or is for another slot than that of the block it names.
    */
  lemma FirstBlockAccepted(cfg: Config, state: BeaconState, block: Block, s: StoreView, signed: SignedBlock)
    requires cfg.rules.Lawful() && Fresh(cfg, state, block, s)
    requires Inv(cfg, cfg.rules.blockRoot(block), s) && Trusted(cfg, cfg.rules.blockRoot(block), s, signed.message)
    ensures Readable(s) && OrderSafe(cfg, s, signed)
    ensures OnBlock(cfg, s, signed).Some? <==> FitsAnchor(cfg, state, block, s, signed)
  {
    hide Fresh, Inv, Trusted, BlockAdmissible, Head, OpensEpoch, WindowKnown, CurrentSlot, Rooted, Ordered, OnBlock;
    hide Readable, OrderSafe, CarriedVotesFit, AggregateFitsAnchor;
    var root, child := cfg.rules.blockRoot(block), signed.message;
    BlockAccepted(cfg, root, s, signed);
    FreshFields(cfg, state, block, s);
    FreshAdmits(cfg, state, block, s, child);
    FreshHead(cfg, state, block, s);
    if BlockAdmissible(cfg, s, child) && cfg.rules.transition(state, signed).Some? {
      AdmissibleBlockFits(cfg, root, s, signed);
      TrustedGrows(cfg, root, s, signed);
      FreshVotesFit(cfg, state, block, s, child, cfg.rules.transition(state, signed).value);
    }
  }

  // ---------------------------------------------------------------------------
  // Anchors no run gets away from
  // ---------------------------------------------------------------------------

  /** Only the anchor is stored, and finality, realized or not, is at the anchor. */
  ghost predicate Bare(cfg: Config, state: BeaconState, block: Block, s: StoreView) {
    var root := cfg.rules.blockRoot(block);
    && s.blocks == map[root := block] && block.slot == state.slot
    && s.finalized == s.unrealizedFinalized == Checkpoint(cfg.preset.Epoch(state.slot), root)
  }

  /** On such a store a block is refused if the anchor lies inside an epoch. */
  lemma InsideEpochRefused(cfg: Config, state: BeaconState, block: Block, s: StoreView, signed: SignedBlock)
    requires cfg.rules.Lawful() && Bare(cfg, state, block, s)
    requires Inv(cfg, cfg.rules.blockRoot(block), s) && Trusted(cfg, cfg.rules.blockRoot(block), s, signed.message)
    requires !OpensEpoch(cfg.preset, block.slot)
    ensures Readable(s) && OrderSafe(cfg, s, signed) && OnBlock(cfg, s, signed).None?
  {
    hide Inv, Trusted, Head, WindowKnown, CurrentSlot, Ancestor, Rooted, Ordered, OnBlock, Readable, OrderSafe;
    hide CarriedVotesFit, ParentPayloadStatus;
    var root := cfg.rules.blockRoot(block);
    BlockAccepted(cfg, root, s, signed);
    InvIsReadable(cfg, root, s);
    AncestorTotal(s.blocks, root, Node(root, Pending), cfg.preset.StartSlot(s.finalized.epoch));
    if BlockAdmissible(cfg, s, signed.message) {
      AdmissibleBlockFits(cfg, root, s, signed);
    }
  }

  /** No store of this clock accepts a block over this anchor. */
  predicate Shut(preset: Preset, slot: Slot, now: Slot) {
    || !OpensEpoch(preset, slot)
    || (2 <= preset.Epoch(now) < preset.Epoch(slot) + 2)
  }

  lemma ShutRefuses(cfg: Config, state: BeaconState, block: Block, s: StoreView, signed: SignedBlock)
    requires cfg.rules.Lawful() && Bare(cfg, state, block, s)
    requires Inv(cfg, cfg.rules.blockRoot(block), s) && Trusted(cfg, cfg.rules.blockRoot(block), s, signed.message)
    requires Shut(cfg.preset, block.slot, CurrentSlot(cfg.preset, s))
    ensures Readable(s) && OrderSafe(cfg, s, signed) && OnBlock(cfg, s, signed).None?
  {
    hide Inv, Trusted, OpensEpoch, CurrentSlot, Ordered, OnBlock, Readable, OrderSafe;
    AdmissibleBlockFits(cfg, cfg.rules.blockRoot(block), s, signed);
    if !OpensEpoch(cfg.preset, block.slot) {
      InsideEpochRefused(cfg, state, block, s, signed);
    } else if OnBlock(cfg, s, signed).Some? {
      AcceptedInWindow(cfg, cfg.rules.blockRoot(block), s, signed);
    }
  }

  lemma DeliveryKeepsBare(cfg: Config, state: BeaconState, block: Block, s: StoreView, t: StoreView)
    requires Bare(cfg, state, block, s) && DeliversOnly(s, t)
    ensures Bare(cfg, state, block, t)
  {
  }

  lemma EnvelopeDelivers(cfg: Config, s: StoreView, envelope: SignedEnvelope, verifier: Verifier)
    requires OnEnvelope(cfg, s, envelope, verifier).Some?
    ensures DeliversOnly(s, OnEnvelope(cfg, s, envelope, verifier).value)
  {
    hide OnEnvelope, DeliversOnly;
    EnvelopeTouches(cfg, s, envelope, verifier);
  }

  lemma SidecarDelivers(cfg: Config, anchor: Root, s: StoreView, sidecar: Sidecar, verifier: Verifier)
    requires Inv(cfg, anchor, s)
    ensures DeliversOnly(s, OnSidecar(cfg, s, sidecar, verifier).0)
  {
    hide Shape, VotesShaped, MessagesSound, BoostSound, FullSound, StatesDerived, ColumnsSound, EnvelopesSound;
    hide SidecarAdmissible, WithSidecar, Released, DeliversOnly, CurrentSlot;
    NothingDelivered(s);
    if SidecarAdmissible(cfg, s, sidecar) {
      SidecarKeepsEnvelopes(cfg, s, sidecar);
      SidecarTouches(cfg, s, sidecar, verifier);
      DeliveriesCompose(s, WithSidecar(s, sidecar), OnSidecar(cfg, s, sidecar, verifier).0);
    }
  }

  lemma NothingDelivered(s: StoreView)
    ensures DeliversOnly(s, s)
  {
  }

  lemma DeliveriesCompose(s: StoreView, t: StoreView, u: StoreView)
    requires DeliversOnly(s, t) && DeliversOnly(t, u)
    ensures DeliversOnly(s, u)
  {
  }

  lemma DeliveryDelivers(cfg: Config, anchor: Root, s: StoreView, e: Event)
    requires Inv(cfg, anchor, s) && cfg.rules.Lawful() && TrustedEvent(cfg, anchor, s, e)
    requires e.EnvelopeArrives? || e.SidecarArrives?
    ensures DeliversOnly(s, Step(cfg, anchor, s, e))
  {
    hide Inv, OnEnvelope, OnSidecar, DeliversOnly;
    NothingDelivered(s);
    match e
    case EnvelopeArrives(envelope, verifier) =>
      if OnEnvelope(cfg, s, envelope, verifier).Some? {
        EnvelopeDelivers(cfg, s, envelope, verifier);
      }
    case SidecarArrives(sidecar, verifier) => SidecarDelivers(cfg, anchor, s, sidecar, verifier);
  }

  lemma StepStaysBare(cfg: Config, state: BeaconState, block: Block, s: StoreView, e: Event)
    requires cfg.rules.Lawful() && Bare(cfg, state, block, s)
    requires Inv(cfg, cfg.rules.blockRoot(block), s) && TrustedEvent(cfg, cfg.rules.blockRoot(block), s, e)
    requires Shut(cfg.preset, block.slot, CurrentSlot(cfg.preset, s))
    ensures Bare(cfg, state, block, Step(cfg, cfg.rules.blockRoot(block), s, e))
  {
    hide Inv, Trusted, Shut, CurrentSlot, Ordered, OnBlock, Readable, OrderSafe, ReplayMessages;
    hide OnAttestation, OnAttesterSlashing, OnPtcMessage, OnEnvelope, OnSidecar, Ticked;
    var anchor := cfg.rules.blockRoot(block);
    match e
    case BlockArrives(signed) => ShutRefuses(cfg, state, block, s, signed);
    case BlockWithMessages(signed) => ShutRefuses(cfg, state, block, s, signed);
    case EnvelopeArrives(_, _) =>
      DeliveryDelivers(cfg, anchor, s, e);
      DeliveryKeepsBare(cfg, state, block, s, Step(cfg, anchor, s, e));
    case SidecarArrives(_, _) =>
      DeliveryDelivers(cfg, anchor, s, e);
      DeliveryKeepsBare(cfg, state, block, s, Step(cfg, anchor, s, e));
    case _ => QuietStep(cfg, anchor, s, e);
  }

  lemma SlotsAdvance(cfg: Config, s: StoreView, t: StoreView)
    requires Advances(cfg, s, t)
    ensures CurrentSlot(cfg.preset, s) <= CurrentSlot(cfg.preset, t)
  {
    hide HasIndex, Stored;
    SlotMonotone(cfg.preset, s.genesisTime, s.time, t.time);
  }

  lemma {:induction false} RunStaysBare(
    cfg: Config, state: BeaconState, block: Block, s: StoreView, events: seq<Event>)
    requires cfg.rules.Lawful() && Bare(cfg, state, block, s) && Inv(cfg, cfg.rules.blockRoot(block), s)
    requires TrustedRun(cfg, cfg.rules.blockRoot(block), s, events)
    requires !OpensEpoch(cfg.preset, block.slot) || 2 <= cfg.preset.Epoch(block.slot)
    requires Shut(cfg.preset, block.slot,
                  CurrentSlot(cfg.preset, Run(cfg, cfg.rules.blockRoot(block), s, events)))
    ensures Bare(cfg, state, block, Run(cfg, cfg.rules.blockRoot(block), s, events))
    decreases |events|
  {
    hide Inv, Step, TrustedEvent, Shut, OpensEpoch, CurrentSlot, Advances, Bare;
    if events != [] {
      var anchor := cfg.rules.blockRoot(block);
      RunKeepsInv(cfg, anchor, s, events);
      var t := Run(cfg, anchor, s, events);
      SlotsAdvance(cfg, s, t);
      BareAnchorIsPast(cfg, state, block, s);
      ShutEarlier(cfg.preset, block.slot, CurrentSlot(cfg.preset, s), CurrentSlot(cfg.preset, t));
      StepStaysBare(cfg, state, block, s, events[0]);
      StepKeepsInv(cfg, anchor, s, events[0]);
      RunStaysBare(cfg, state, block, Step(cfg, anchor, s, events[0]), events[1..]);
    }
  }

  lemma BareAnchorIsPast(cfg: Config, state: BeaconState, block: Block, s: StoreView)
    requires Bare(cfg, state, block, s) && Inv(cfg, cfg.rules.blockRoot(block), s)
    ensures block.slot <= CurrentSlot(cfg.preset, s)
  {
    hide Inv, CurrentSlot;
    NowIsPastAnchor(cfg, cfg.rules.blockRoot(block), s);
  }

  lemma ShutEarlier(preset: Preset, slot: Slot, now: Slot, later: Slot)
    requires slot <= now <= later && Shut(preset, slot, later)
    requires !OpensEpoch(preset, slot) || 2 <= preset.Epoch(slot)
    ensures Shut(preset, slot, now)
  {
    hide OpensEpoch;
    EpochMonotone(preset, slot, now);
    EpochMonotone(preset, now, later);
  }

  /** A store opened inside an epoch never accepts a block, in any run. */
  lemma InsideEpochStaysBare(cfg: Config, state: BeaconState, block: Block, events: seq<Event>, s: StoreView)
    requires ReachedBy(cfg, state, block, events, s) && !OpensEpoch(cfg.preset, block.slot)
    ensures s.blocks.Keys == {cfg.rules.blockRoot(block)}
  {
    hide Inv, Run, TrustedRun, CurrentSlot, OpensEpoch;
    RunStaysBare(cfg, state, block, AnchorStore(cfg, state, block).value, events);
  }

  /** A store opened at epoch two or later accepts none until two epochs after its anchor. */
  lemma LateAnchorWaits(cfg: Config, state: BeaconState, block: Block, events: seq<Event>, s: StoreView)
    requires ReachedBy(cfg, state, block, events, s) && 2 <= cfg.preset.Epoch(block.slot)
    requires CurrentEpoch(cfg.preset, s) < cfg.preset.Epoch(block.slot) + 2
    ensures s.blocks.Keys == {cfg.rules.blockRoot(block)}
  {
    hide Inv, Run, TrustedRun, CurrentSlot, OpensEpoch;
    var start, anchor := AnchorStore(cfg, state, block).value, cfg.rules.blockRoot(block);
    RunKeepsInv(cfg, anchor, start, events);
    SlotsAdvance(cfg, start, s);
    BareAnchorIsPast(cfg, state, block, start);
    EpochMonotone(cfg.preset, block.slot, CurrentSlot(cfg.preset, s));
    RunStaysBare(cfg, state, block, start, events);
  }

  /**
    * In any run, over any anchor, a block is accepted only while the current epoch is at
    * most one or at least two past the anchor's. So over an anchor at epoch one none is
    * accepted in epoch two.
    */
  lemma ReachableAcceptance(
    cfg: Config, state: BeaconState, block: Block, events: seq<Event>, s: StoreView, signed: SignedBlock)
    requires ReachedBy(cfg, state, block, events, s) && Trusted(cfg, cfg.rules.blockRoot(block), s, signed.message)
    requires Readable(s) && OrderSafe(cfg, s, signed) && OnBlock(cfg, s, signed).Some?
    ensures var epoch := CurrentEpoch(cfg.preset, s);
      epoch <= 1 || epoch >= cfg.preset.Epoch(block.slot) + 2
  {
    hide Inv, Run, TrustedRun, CurrentSlot, Trusted, Readable, OrderSafe, OnBlock;
    var start, anchor := AnchorStore(cfg, state, block).value, cfg.rules.blockRoot(block);
    RunKeepsInv(cfg, anchor, start, events);
    AcceptedInWindow(cfg, anchor, s, signed);
    AnchorStays(cfg, start, s, anchor);
  }

  lemma AnchorStays(cfg: Config, s: StoreView, t: StoreView, r: Root)
    requires Advances(cfg, s, t) && r in s.blocks
    ensures r in t.blocks && t.blocks[r] == s.blocks[r]
  {
    hide CurrentSlot, HasIndex, Stored;
  }

  // ---------------------------------------------------------------------------
  // A run that imports a block
  // ---------------------------------------------------------------------------

  /** Rules under which every payload aggregate expands to `voters`. */
  function SampleRules(voters: seq<ValidatorIndex>): Rules {
    Rules(
      blockRoot := (b: Block) => b.slot + 1,
      stateRoot := (_: BeaconState) => 0,
      transition := (pre: BeaconState, signed: SignedBlock) =>
        if pre.slot < signed.message.slot then Some(pre.(slot := signed.message.slot)) else None,
      processSlots := (_: BeaconState, _: Slot) => None,
      pullUp := (state: BeaconState) => Some((state.currentJustified, state.finalized)),
      attesters := (_: BeaconState, _: Attestation) => None,
      indexedAttestationValid := (_: BeaconState, _: IndexedAttestation) => false,
      slashable := (_: AttestationData, _: AttestationData) => false,
      payloadAttesters := (_: BeaconState, _: PayloadAttestation) => Some(voters),
      ptcMessageValid := (_: BeaconState, _: PtcMessage) => false,
      envelopeValid := (_: BeaconState, _: SignedEnvelope) => false,
      kzgProofsValid := (_: Sidecar, _: seq<nat>) => false,
      committees := (_: BeaconState, _: Slot) => None)
  }

  function SampleBlock(slot: Slot, parent: Root, hash: nat, aggregates: seq<PayloadAttestation>): Block {
    Block(slot, 0, parent, 0, BlockBody(Bid(0, hash, []), aggregates, [], [], 0))
  }

  /** A state at `slot` of a chain that started at time zero. */
  function SampleState(slot: Slot): BeaconState {
    BeaconState(slot, 0, Checkpoint(0, 1), Checkpoint(0, 1), [], [], 0)
  }

  lemma OneStep(cfg: Config, anchor: Root, s: StoreView, e: Event)
    requires Inv(cfg, anchor, s) && cfg.rules.Lawful() && TrustedEvent(cfg, anchor, s, e)
    ensures TrustedRun(cfg, anchor, s, [e]) && Run(cfg, anchor, s, [e]) == Step(cfg, anchor, s, e)
  {
    hide Inv, Step, TrustedEvent;
    StepKeepsInv(cfg, anchor, s, e);
    assert [e][1..] == [];
    assert TrustedRun(cfg, anchor, Step(cfg, anchor, s, e), []);
    assert Run(cfg, anchor, Step(cfg, anchor, s, e), []) == Step(cfg, anchor, s, e);
  }

  lemma TwoSteps(cfg: Config, anchor: Root, s: StoreView, a: Event, b: Event)
    requires Inv(cfg, anchor, s) && cfg.rules.Lawful() && TrustedEvent(cfg, anchor, s, a)
    requires Inv(cfg, anchor, Step(cfg, anchor, s, a)) && TrustedEvent(cfg, anchor, Step(cfg, anchor, s, a), b)
    ensures TrustedRun(cfg, anchor, s, [a, b])
    ensures Run(cfg, anchor, s, [a, b]) == Step(cfg, anchor, Step(cfg, anchor, s, a), b)
  {
    hide Inv, Step, TrustedEvent;
    StepKeepsInv(cfg, anchor, s, a);
    var next := Step(cfg, anchor, s, a);
    StepKeepsInv(cfg, anchor, next, b);
    OneStep(cfg, anchor, next, b);
    assert [a, b][1..] == [b];
  }

  /** Runs that import blocks exist: one slot after genesis, a first block is accepted. */
  lemma SomeRunImportsABlock() returns (cfg: Config, state: BeaconState, block: Block, events: seq<Event>, s: StoreView)
    ensures ReachedBy(cfg, state, block, events, s) && s.blocks.Keys == {1, 2}
  {
    hide Inv, Run, TrustedRun, OnBlock, Trusted, FitsAnchor;
    cfg, state, block := Config(Mainnet, SampleRules([])), SampleState(0), SampleBlock(0, 9, 6, []);
    var signed := SignedBlock(SampleBlock(1, 1, 7, []), 0);
    events := [Tick(12), BlockArrives(signed)];
    AnchorKeepsInv(cfg, state, block);
    var start := AnchorStore(cfg, state, block).value;
    StepKeepsInv(cfg, 1, start, Tick(12));
    TickingKeepsFresh(cfg, state, block, 12);
    var ticked := Ticked(cfg.preset, start, 12);
    assert Step(cfg, 1, start, Tick(12)) == ticked;
    SampleFits(cfg, state, block, ticked, signed);
    FirstBlockAccepted(cfg, state, block, ticked, signed);
    TwoSteps(cfg, 1, start, Tick(12), BlockArrives(signed));
    s := Run(cfg, 1, start, events);
    FreshFields(cfg, state, block, ticked);
    ImportedBlocks(cfg, 1, ticked, signed);
  }

  lemma SampleFits(cfg: Config, state: BeaconState, block: Block, s: StoreView, signed: SignedBlock)
    requires cfg == Config(Mainnet, SampleRules([])) && state == SampleState(0) && block == SampleBlock(0, 9, 6, [])
    requires signed == SignedBlock(SampleBlock(1, 1, 7, []), 0) && Fresh(cfg, state, block, s) && s.time == 12
    ensures cfg.rules.Lawful() && FitsAnchor(cfg, state, block, s, signed) && Trusted(cfg, 1, s, signed.message)
  {
    FreshFields(cfg, state, block, s);
  }

  lemma ImportedBlocks(cfg: Config, anchor: Root, s: StoreView, signed: SignedBlock)
    requires Inv(cfg, anchor, s) && cfg.rules.Lawful() && Trusted(cfg, anchor, s, signed.message)
    requires Readable(s) && OrderSafe(cfg, s, signed) && OnBlock(cfg, s, signed).Some?
    ensures OnBlock(cfg, s, signed).value.blocks == s.blocks[cfg.rules.blockRoot(signed.message) := signed.message]
  {
    hide Shape, VotesShaped, MessagesSound, BoostSound, FullSound, StatesDerived, ColumnsSound, EnvelopesSound;
    hide Trusted, OrderSafe, OnBlock, Ordered, Rooted, CurrentSlot, TimelinessOf, BlockAdmissible;
    AcceptedBlockGrows(cfg, anchor, s, signed);
    var _ := ImportTouches(cfg, anchor, s, signed);
  }

  // ---------------------------------------------------------------------------
  // Blocks that are refused
  // ---------------------------------------------------------------------------

  /** The sample anchor at `slot` with its clock moved on by `slots` slots. */
  lemma SampleStore(cfg: Config, slot: Slot, slots: nat) returns (s: StoreView)
    requires cfg.preset == Mainnet && (exists voters :: cfg.rules == SampleRules(voters)) && slot <= 100 && slots <= 100
    ensures Fresh(cfg, SampleState(slot), SampleBlock(slot, 999, 6, []), s) && cfg.rules.Lawful()
    ensures cfg.rules.blockRoot(SampleBlock(slot, 999, 6, [])) == slot + 1
    ensures Inv(cfg, slot + 1, s) && CurrentSlot(cfg.preset, s) == slot + slots
  {
    hide Inv, Advances;
    var state, block := SampleState(slot), SampleBlock(slot, 999, 6, []);
    var start := AnchorStore(cfg, state, block).value;
    AnchorKeepsInv(cfg, state, block);
    var time := 12 * (slot + slots);
    TickingKeepsFresh(cfg, state, block, time);
    TickKeepsInv(cfg, slot + 1, start, time);
    s := Ticked(cfg.preset, start, time);
  }

  /** A first block that carries a payload vote on the anchor, and meets every other condition. */
  lemma VoteOnAnchorIsRefused()
    returns (cfg: Config, state: BeaconState, block: Block, s: StoreView, signed: SignedBlock)
    ensures Fresh(cfg, state, block, s) && cfg.rules.Lawful() && ExtendsAnchor(cfg, state, block, s, signed)
    ensures Readable(s) && OrderSafe(cfg, s, signed) && OnBlock(cfg, s, signed).None?
  {
    hide Inv, Fresh, OnBlock, Readable, OrderSafe, Trusted;
    cfg, state, block := Config(Mainnet, SampleRules([0])), SampleState(0), SampleBlock(0, 999, 6, []);
    var onAnchor := PayloadAttestation(PayloadAttestationData(1, 0, true, true), 0);
    signed := SignedBlock(SampleBlock(1, 1, 7, [onAnchor]), 0);
    s := SampleStore(cfg, 0, 1);
    SampleTrusted(cfg, state, block, s, signed);
    FreshFields(cfg, state, block, s);
    FirstBlockAccepted(cfg, state, block, s, signed);
    var post := cfg.rules.transition(state, signed).value;
    var voters := cfg.rules.payloadAttesters(post, onAnchor).value;
    assert !VoteFitsAnchor(cfg, 1, state, 2, post, onAnchor.data, voters[0]);
    assert !AggregateFitsAnchor(cfg, 1, state, 2, post, signed.message.body.payloadAttestations[0]);
  }

  /** A first block over an anchor inside an epoch, one slot after it. */
  lemma BlockInsideEpochIsRefused()
    returns (cfg: Config, state: BeaconState, block: Block, s: StoreView, signed: SignedBlock)
    ensures Fresh(cfg, state, block, s) && cfg.rules.Lawful() && cfg.rules.transition(state, signed).Some?
    ensures signed.message.parentRoot == cfg.rules.blockRoot(block)
    ensures block.slot < signed.message.slot == CurrentSlot(cfg.preset, s)
    ensures Readable(s) && OrderSafe(cfg, s, signed) && OnBlock(cfg, s, signed).None?
  {
    hide Inv, Fresh, OnBlock, Readable, OrderSafe, Trusted;
    cfg, state, block := Config(Mainnet, SampleRules([])), SampleState(1), SampleBlock(1, 999, 6, []);
    signed := SignedBlock(SampleBlock(2, 2, 7, []), 0);
    s := SampleStore(cfg, 1, 1);
    SampleTrusted(cfg, state, block, s, signed);
    FirstBlockAccepted(cfg, state, block, s, signed);
  }

  /** A first block one slot after an anchor that opens epoch two. */
  lemma BlockBeforeWindowIsRefused()
    returns (cfg: Config, state: BeaconState, block: Block, s: StoreView, signed: SignedBlock)
    ensures Fresh(cfg, state, block, s) && cfg.rules.Lawful() && cfg.rules.transition(state, signed).Some?
    ensures signed.message.parentRoot == cfg.rules.blockRoot(block) && OpensEpoch(cfg.preset, block.slot)
    ensures block.slot < signed.message.slot == CurrentSlot(cfg.preset, s)
    ensures Readable(s) && OrderSafe(cfg, s, signed) && OnBlock(cfg, s, signed).None?
  {
    hide Inv, Fresh, OnBlock, Readable, OrderSafe, Trusted;
    cfg, state, block := Config(Mainnet, SampleRules([])), SampleState(64), SampleBlock(64, 999, 6, []);
    signed := SignedBlock(SampleBlock(65, 65, 7, []), 0);
    s := SampleStore(cfg, 64, 1);
    SampleTrusted(cfg, state, block, s, signed);
    FirstBlockAccepted(cfg, state, block, s, signed);
  }

  lemma SampleTrusted(cfg: Config, state: BeaconState, block: Block, s: StoreView, signed: SignedBlock)
    requires (exists voters :: cfg.rules == SampleRules(voters)) && Fresh(cfg, state, block, s)
    requires block.parentRoot == 999 && block.slot < signed.message.slot <= 200
    ensures Trusted(cfg, block.slot + 1, s, signed.message)
  {
    FreshFields(cfg, state, block, s);
  }
}
