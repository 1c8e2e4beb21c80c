/**
  * Whole runs of the store: any sequence of events from a trusted anchor. What follows
  * holds in every store such a run can reach.
  */
module StoreRuns {
  import opened Primitives
  import opened ForkChoiceTypes
  import opened Ancestry
  import opened Clock
  import opened Filter
  import opened Electorate
  import opened Expansion
  import opened Weight
  import opened HeadKey
  import opened HeadWalk
  import opened Columns
  import opened Handlers
  import opened StoreInvariant
  import opened DeliveryInvariant
  import opened BlockInvariant

  datatype Event =
    | Tick(time: U64)
    | BlockArrives(signed: SignedBlock)
    | BlockWithMessages(signed: SignedBlock)
    | AttestationArrives(attestation: Attestation, isFromBlock: bool)
    | SlashingArrives(slashing: AttesterSlashing)
    | PtcVoteArrives(message: PtcMessage, isFromBlock: bool)
    | EnvelopeArrives(envelope: SignedEnvelope, verifier: Verifier)
    | SidecarArrives(sidecar: Sidecar, verifier: Verifier)

  /** The attestations of a block, replayed in order; all must be accepted. */
  function ReplayAttestations(cfg: Config, s: StoreView, attestations: seq<Attestation>, k: nat)
    : (r: Option<StoreView>)
    requires Ordered(s.blocks) && k <= |attestations|
    ensures r.Some? ==> r.value.blocks == s.blocks
  {
    if k == 0 then Some(s)
    else
      var before :- ReplayAttestations(cfg, s, attestations, k - 1);
      OnAttestation(cfg, before, attestations[k - 1], true)
  }

  function ReplaySlashings(cfg: Config, s: StoreView, slashings: seq<AttesterSlashing>, k: nat)
    : (r: Option<StoreView>)
    requires k <= |slashings|
  {
    if k == 0 then Some(s)
    else
      var before :- ReplaySlashings(cfg, s, slashings, k - 1);
      OnAttesterSlashing(cfg, before, slashings[k - 1])
  }

  /** The votes and slashings a block carries, once the block itself is in. */
  function ReplayMessages(cfg: Config, s: StoreView, block: Block): Option<StoreView>
    requires Ordered(s.blocks)
  {
    var voted :- ReplayAttestations(cfg, s, block.body.attestations, |block.body.attestations|);
    ReplaySlashings(cfg, voted, block.body.attesterSlashings, |block.body.attesterSlashings|)
  }

  lemma {:induction false} ReplayAttestationsKeepsInv(
    cfg: Config, anchor: Root, s: StoreView, attestations: seq<Attestation>, k: nat)
    requires Inv(cfg, anchor, s) && Ordered(s.blocks) && k <= |attestations|
    ensures var t := ReplayAttestations(cfg, s, attestations, k);
      t.Some? ==> Inv(cfg, anchor, t.value) && Advances(cfg, s, t.value)
  {
    hide Inv, Advances, OnAttestation, Ordered;
    if k == 0 {
      AdvancesReflexive(cfg, s);
    } else {
      ReplayAttestationsKeepsInv(cfg, anchor, s, attestations, k - 1);
      var before := ReplayAttestations(cfg, s, attestations, k - 1);
      if before.Some? && OnAttestation(cfg, before.value, attestations[k - 1], true).Some? {
        AttestationKeepsInv(cfg, anchor, before.value, attestations[k - 1], true);
        AdvancesTransitive(cfg, s, before.value, OnAttestation(cfg, before.value, attestations[k - 1], true).value);
      }
    }
  }

  lemma {:induction false} ReplaySlashingsKeepsInv(
    cfg: Config, anchor: Root, s: StoreView, slashings: seq<AttesterSlashing>, k: nat)
    requires Inv(cfg, anchor, s) && k <= |slashings|
    ensures var t := ReplaySlashings(cfg, s, slashings, k);
      t.Some? ==> Inv(cfg, anchor, t.value) && Advances(cfg, s, t.value)
  {
    hide Inv, Advances, OnAttesterSlashing;
    if k == 0 {
      AdvancesReflexive(cfg, s);
    } else {
      ReplaySlashingsKeepsInv(cfg, anchor, s, slashings, k - 1);
      var before := ReplaySlashings(cfg, s, slashings, k - 1);
      if before.Some? && OnAttesterSlashing(cfg, before.value, slashings[k - 1]).Some? {
        SlashingKeepsInv(cfg, anchor, before.value, slashings[k - 1]);
        AdvancesTransitive(cfg, s, before.value, OnAttesterSlashing(cfg, before.value, slashings[k - 1]).value);
      }
    }
  }

  lemma ReplayMessagesKeepsInv(cfg: Config, anchor: Root, s: StoreView, block: Block)
    requires Inv(cfg, anchor, s) && Ordered(s.blocks)
    ensures var t := ReplayMessages(cfg, s, block);
      t.Some? ==> Inv(cfg, anchor, t.value) && Advances(cfg, s, t.value)
  {
    hide Inv, Advances, ReplayAttestations, ReplaySlashings, Ordered;
    var attestations, slashings := block.body.attestations, block.body.attesterSlashings;
    ReplayAttestationsKeepsInv(cfg, anchor, s, attestations, |attestations|);
    var voted := ReplayAttestations(cfg, s, attestations, |attestations|);
    if voted.Some? {
      ReplaySlashingsKeepsInv(cfg, anchor, voted.value, slashings, |slashings|);
      var done := ReplaySlashings(cfg, voted.value, slashings, |slashings|);
      if done.Some? {
        AdvancesTransitive(cfg, s, voted.value, done.value);
      }
    }
  }

  /** A block together with the messages it carries: all or nothing. */
  ghost function OnBlockWithMessages(cfg: Config, anchor: Root, s: StoreView, signed: SignedBlock): Option<StoreView>
    requires Inv(cfg, anchor, s) && cfg.rules.Lawful() && Trusted(cfg, anchor, s, signed.message)
  {
    AdmissibleBlockFits(cfg, anchor, s, signed);
    var imported :- OnBlock(cfg, s, signed);
    BlockKeepsInv(cfg, anchor, s, signed);
    InvIsReadable(cfg, anchor, imported);
    ReplayMessages(cfg, imported, signed.message)
  }

  ghost predicate TrustedEvent(cfg: Config, anchor: Root, s: StoreView, e: Event) {
    match e
    case BlockArrives(signed) => Trusted(cfg, anchor, s, signed.message)
    case BlockWithMessages(signed) => Trusted(cfg, anchor, s, signed.message)
    case _ => true
  }

  /** What a handler does with an event; `None` is a refusal. */
  ghost function Handle(cfg: Config, anchor: Root, s: StoreView, e: Event): Option<StoreView>
    requires Inv(cfg, anchor, s) && cfg.rules.Lawful() && TrustedEvent(cfg, anchor, s, e)
  {
    InvIsReadable(cfg, anchor, s);
    match e
    case Tick(time) => OnTick(cfg.preset, s, time)
    case BlockArrives(signed) => AdmissibleBlockFits(cfg, anchor, s, signed); OnBlock(cfg, s, signed)
    case BlockWithMessages(signed) => OnBlockWithMessages(cfg, anchor, s, signed)
    case AttestationArrives(attestation, isFromBlock) => OnAttestation(cfg, s, attestation, isFromBlock)
    case SlashingArrives(slashing) => OnAttesterSlashing(cfg, s, slashing)
    case PtcVoteArrives(message, isFromBlock) => OnPtcMessage(cfg, s, message, isFromBlock)
    case EnvelopeArrives(envelope, verifier) => OnEnvelope(cfg, s, envelope, verifier)
    case SidecarArrives(sidecar, verifier) => Some(OnSidecar(cfg, s, sidecar, verifier).0)
  }

  /** The store after an event: a refused event changes nothing. */
  ghost function Step(cfg: Config, anchor: Root, s: StoreView, e: Event): StoreView
    requires Inv(cfg, anchor, s) && cfg.rules.Lawful() && TrustedEvent(cfg, anchor, s, e)
  {
    match Handle(cfg, anchor, s, e) case Some(t) => t case None => s
  }

  lemma BlockWithMessagesKeepsInv(cfg: Config, anchor: Root, s: StoreView, signed: SignedBlock)
    requires Inv(cfg, anchor, s) && cfg.rules.Lawful() && Trusted(cfg, anchor, s, signed.message)
    ensures var t := OnBlockWithMessages(cfg, anchor, s, signed);
      t.Some? ==> Inv(cfg, anchor, t.value) && Advances(cfg, s, t.value)
  {
    hide Inv, Advances, OnBlock, ReplayMessages, Readable, OrderSafe, Ordered, Trusted;
    AdmissibleBlockFits(cfg, anchor, s, signed);
    var imported := OnBlock(cfg, s, signed);
    if imported.Some? {
      BlockKeepsInv(cfg, anchor, s, signed);
      InvIsReadable(cfg, anchor, imported.value);
      ReplayMessagesKeepsInv(cfg, anchor, imported.value, signed.message);
      var done := ReplayMessages(cfg, imported.value, signed.message);
      if done.Some? {
        AdvancesTransitive(cfg, s, imported.value, done.value);
      }
    }
  }

  /** Every handler keeps the invariant and moves the store only forward. */
  lemma StepKeepsInv(cfg: Config, anchor: Root, s: StoreView, e: Event)
    requires Inv(cfg, anchor, s) && cfg.rules.Lawful() && TrustedEvent(cfg, anchor, s, e)
    ensures Inv(cfg, anchor, Step(cfg, anchor, s, e)) && Advances(cfg, s, Step(cfg, anchor, s, e))
  {
    hide Inv, Advances, OnBlock, OnBlockWithMessages, OnAttestation, OnAttesterSlashing, OnPtcMessage, OnEnvelope;
    hide OnSidecar, Ticked, Readable, OrderSafe, Ordered, Trusted, Rooted;
    InvIsReadable(cfg, anchor, s);
    AdvancesReflexive(cfg, s);
    if Handle(cfg, anchor, s, e).Some? {
      match e
      case Tick(time) => TickKeepsInv(cfg, anchor, s, time);
      case BlockArrives(signed) =>
        AdmissibleBlockFits(cfg, anchor, s, signed);
        BlockKeepsInv(cfg, anchor, s, signed);
      case BlockWithMessages(signed) => BlockWithMessagesKeepsInv(cfg, anchor, s, signed);
      case AttestationArrives(attestation, isFromBlock) =>
        AttestationKeepsInv(cfg, anchor, s, attestation, isFromBlock);
      case SlashingArrives(slashing) => SlashingKeepsInv(cfg, anchor, s, slashing);
      case PtcVoteArrives(message, isFromBlock) => PtcKeepsInv(cfg, anchor, s, message, isFromBlock);
      case EnvelopeArrives(envelope, verifier) => EnvelopeKeepsInv(cfg, anchor, s, envelope, verifier);
      case SidecarArrives(sidecar, verifier) => SidecarKeepsInv(cfg, anchor, s, sidecar, verifier);
    }
  }

  /** Every block of the run satisfies the hashing assumptions when it arrives. */
  ghost predicate TrustedRun(cfg: Config, anchor: Root, s: StoreView, events: seq<Event>)
    requires Inv(cfg, anchor, s) && cfg.rules.Lawful()
    decreases |events|
  {
    events != [] ==>
      && TrustedEvent(cfg, anchor, s, events[0])
      && (StepKeepsInv(cfg, anchor, s, events[0]);
          TrustedRun(cfg, anchor, Step(cfg, anchor, s, events[0]), events[1..]))
  }

  ghost function Run(cfg: Config, anchor: Root, s: StoreView, events: seq<Event>): StoreView
    requires Inv(cfg, anchor, s) && cfg.rules.Lawful() && TrustedRun(cfg, anchor, s, events)
    decreases |events|
  {
    if events == [] then s
    else
      StepKeepsInv(cfg, anchor, s, events[0]);
      Run(cfg, anchor, Step(cfg, anchor, s, events[0]), events[1..])
  }

  /** The invariant holds after every run, and nothing learned along it is unlearned. */
  lemma {:induction false} RunKeepsInv(cfg: Config, anchor: Root, s: StoreView, events: seq<Event>)
    requires Inv(cfg, anchor, s) && cfg.rules.Lawful() && TrustedRun(cfg, anchor, s, events)
    ensures Inv(cfg, anchor, Run(cfg, anchor, s, events))
    ensures Advances(cfg, s, Run(cfg, anchor, s, events))
    decreases |events|
  {
    hide Inv, Advances, Step, TrustedEvent;
    if events == [] {
      AdvancesReflexive(cfg, s);
    } else {
      StepKeepsInv(cfg, anchor, s, events[0]);
      var next := Step(cfg, anchor, s, events[0]);
      RunKeepsInv(cfg, anchor, next, events[1..]);
      AdvancesTransitive(cfg, s, next, Run(cfg, anchor, next, events[1..]));
    }
  }

  /** `s` is reached from a fresh store by a trusted run. */
  ghost predicate ReachedBy(
    cfg: Config, state: BeaconState, block: Block, events: seq<Event>, s: StoreView)
  {
    && cfg.rules.Lawful() && SoundAnchor(cfg, state, block) && AnchorStore(cfg, state, block).Some?
    && var start, anchor := AnchorStore(cfg, state, block).value, cfg.rules.blockRoot(block);
       Inv(cfg, anchor, start) && TrustedRun(cfg, anchor, start, events) && s == Run(cfg, anchor, start, events)
  }

  lemma ReachableSatisfiesInv(cfg: Config, state: BeaconState, block: Block, events: seq<Event>, s: StoreView)
    requires ReachedBy(cfg, state, block, events, s)
    ensures Inv(cfg, cfg.rules.blockRoot(block), s)
  {
    hide Inv, Advances, Run, TrustedRun;
    RunKeepsInv(cfg, cfg.rules.blockRoot(block), AnchorStore(cfg, state, block).value, events);
  }

  // ---------------------------------------------------------------------------
  // What holds of every reachable store
  // ---------------------------------------------------------------------------

  lemma FilteredParentsRecorded(s: StoreView, tree: Blocks)
    requires FullSound(s) && forall r :: r in tree ==> r in s.blocks && tree[r] == s.blocks[r]
    ensures FullParentsRecorded(s, tree)
  {
  }

  /** Each block of the filtered tree is reached as a pending node by exactly one path. */
  lemma EveryBlockReachedOnce(
    cfg: Config, state: BeaconState, block: Block, events: seq<Event>, s: StoreView, tree: Blocks, r: Root)
    requires ReachedBy(cfg, state, block, events, s)
    requires Ordered(s.blocks) && FilteredTree(cfg.preset, s) == Some(tree) && r in tree
    ensures var start, end := Node(s.justified.root, Pending), Node(r, Pending);
      && (exists p :: IsPath(s, tree, p) && p[0] == start && p[|p| - 1] == end)
      && (forall p, q ::
            (IsPath(s, tree, p) && p[0] == start && p[|p| - 1] == end
             && IsPath(s, tree, q) && q[0] == start && q[|q| - 1] == end)
            ==> p == q)
  {
    hide ReachedBy, FilteredTree, Children, TreeUnder, Shape, VotesShaped, MessagesSound, BoostSound, FullSound;
    hide StatesDerived, ColumnsSound, EnvelopesSound, FullParentsRecorded, Ordered;
    var anchor := cfg.rules.blockRoot(block);
    ReachableSatisfiesInv(cfg, state, block, events, s);
    FilteredIsTree(cfg.preset, s, tree);
    TreeIsStored(s, tree, s.justified.root);
    FilteredParentsRecorded(s, tree);
    ReachedByExactlyOnePath(s, tree, s.justified.root, r);
  }

  lemma TreeIsStored(s: StoreView, tree: Blocks, top: Root)
    requires Ordered(s.blocks) && TreeUnder(s, tree, top)
    ensures forall r :: r in tree ==> r in s.blocks && tree[r] == s.blocks[r]
  {
    hide Descends;
  }

  lemma MessagesSoundAreKnown(cfg: Config, s: StoreView)
    requires MessagesSound(cfg, s)
    ensures MessagesKnown(s)
  {
    hide CurrentSlot;
  }

  /**
    * Vote conservation in every reachable store: with total stake within 64 bits, the
    * children of a node together score no more than the node.
    */
  lemma ReachableScoresConserved(
    cfg: Config, state: BeaconState, block: Block, events: seq<Event>, s: StoreView, tree: Blocks,
    against: BeaconState, node: Node, children: seq<Node>)
    requires ReachedBy(cfg, state, block, events, s)
    requires Ordered(s.blocks) && FilteredTree(cfg.preset, s) == Some(tree) && node.root in s.blocks
    requires Distinct(children) && forall n :: n in children ==> n in Children(s, tree, node)
    requires VotingStake(cfg.preset, against) <= U64_MAX
    ensures var own := AttestationScore(cfg.preset, s, against, node);
      var shared := ScoreOfAll(cfg.preset, s, against, children);
      own.Some? && shared.Some? && shared.value <= own.value
  {
    hide ReachedBy, FilteredTree, Children, TreeUnder, Shape, VotesShaped, MessagesSound, BoostSound, FullSound;
    hide StatesDerived, ColumnsSound, EnvelopesSound, Ordered, Rooted, VotingStake, AttestationScore;
    var anchor := cfg.rules.blockRoot(block);
    ReachableSatisfiesInv(cfg, state, block, events, s);
    InvIsReadable(cfg, anchor, s);
    MessagesSoundAreKnown(cfg, s);
    FilteredIsTree(cfg.preset, s, tree);
    ScoresConserved(cfg.preset, s, anchor, against, tree, s.justified.root, node, children);
  }

  /**
    * The head of a reachable store, whenever there is one: resolved, in the store, on one
    * chain with finality, and full only over a recorded envelope that was valid for the
    * block and has all its data.
    */
  lemma ReachableHead(cfg: Config, state: BeaconState, block: Block, events: seq<Event>, s: StoreView)
    requires ReachedBy(cfg, state, block, events, s) && Readable(s) && Head(cfg, s).Some?
    ensures var h := Head(cfg, s).value;
      && h.status != Pending
      && (h.status == Full ==> h.root in s.payloads && PayloadSound(cfg, s, h.root, s.payloads[h.root]))
      && h.root in s.blocks && Descends(s.blocks, h.root, s.justified.root)
      && (s.finalized.epoch != GENESIS_EPOCH && s.justified.root in FilteredTree(cfg.preset, s).value ==>
            Descends(s.blocks, h.root, s.finalized.root) || Descends(s.blocks, s.finalized.root, h.root))
  {
    hide ReachedBy, FilteredTree, HeadFrom, TreeUnder, Inv, PayloadSound;
    var tree := FilteredTree(cfg.preset, s).value;
    HeadLocation(cfg, s, tree);
    var h := Head(cfg, s).value;
    if h.status == Full {
      ReachableSatisfiesInv(cfg, state, block, events, s);
      RecordedIsSound(cfg, cfg.rules.blockRoot(block), s, h.root);
    }
    if h.root in tree {
      FilteredMeaning(cfg.preset, s, h.root);
    } else {
      FilteredIsTree(cfg.preset, s, tree);
      TopIsStored(s, tree, s.justified.root);
    }
    if s.finalized.epoch != GENESIS_EPOCH && s.justified.root in tree {
      HeadFollowsFinality(cfg, s, tree);
    }
  }

  lemma RecordedIsSound(cfg: Config, anchor: Root, s: StoreView, r: Root)
    requires Inv(cfg, anchor, s) && r in s.payloads
    ensures PayloadSound(cfg, s, r, s.payloads[r])
  {
    hide Shape, VotesShaped, MessagesSound, BoostSound, FullSound, StatesDerived, ColumnsSound, PayloadSound;
  }

  /** A validator once seen equivocating never again counts toward any node. */
  lemma SlashedVotesNeverCount(
    cfg: Config, anchor: Root, s: StoreView, later: seq<Event>, v: ValidatorIndex, node: Node)
    requires Inv(cfg, anchor, s) && cfg.rules.Lawful() && TrustedRun(cfg, anchor, s, later) && v in s.equivocating
    ensures var t := Run(cfg, anchor, s, later);
      Ordered(t.blocks) && VoteCounts(t, v, node) == Some(false)
  {
    hide Run, TrustedRun, Inv, IsAncestor, Ordered;
    RunKeepsInv(cfg, anchor, s, later);
    var t := Run(cfg, anchor, s, later);
    InvIsReadable(cfg, anchor, t);
    EquivocatorsStay(cfg, s, t);
  }

  lemma EquivocatorsStay(cfg: Config, s: StoreView, t: StoreView)
    requires Advances(cfg, s, t)
    ensures s.equivocating <= t.equivocating
  {
    hide CurrentSlot, HasIndex, Stored;
  }
}
