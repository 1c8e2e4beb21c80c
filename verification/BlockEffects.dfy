/**
  * Everything an accepted block changes, field by field: which checkpoints it moves and
  * when, which block is boosted, what is noted about its arrival, and the payload votes it
  * carries.
  */
module BlockEffects {
  import opened Primitives
  import opened ForkChoiceTypes
  import opened Ancestry
  import opened Clock
  import opened HeadKey
  import opened HeadWalk
  import opened Handlers
  import opened VoteEffects
  import opened BlockInvariant

  // ---------------------------------------------------------------------------
  // The clock and its deadlines
  // ---------------------------------------------------------------------------

  /** Whole slots and the rest make up the time since genesis, saturating like the code. */
  lemma TimeSplits(preset: Preset, s: StoreView)
    ensures CurrentSlot(preset, s) * preset.SlotDurationMs() + TimeIntoSlotMs(preset, s)
      == SaturatingMul(SaturatingSub(s.time, s.genesisTime), 1_000)
    ensures TimeIntoSlotMs(preset, s) < preset.SlotDurationMs()
  {
    hide SaturatingMul, SaturatingSub;
  }

  /** In the slot named, with less than the given number of its quarters gone. */
  ghost predicate Within(preset: Preset, s: StoreView, slot: Slot, quarters: nat) {
    CurrentSlot(preset, s) == slot && 4 * TimeIntoSlotMs(preset, s) < quarters * preset.SlotDurationMs()
  }

  /** A block is timely in the first quarter of its slot, its payload votes in the first three. */
  lemma TimelinessMeaning(cfg: Config, s: StoreView, slot: Slot)
    ensures TimelinessOf(cfg, s, slot) ==
      Timeliness(Within(cfg.preset, s, slot, 1), Within(cfg.preset, s, slot, 3))
  {
    hide CurrentSlot, TimeIntoSlotMs;
  }

  // ---------------------------------------------------------------------------
  // Checkpoints and boost
  // ---------------------------------------------------------------------------

  /** `c` is of the greatest epoch among `held`, and of those the earliest held. */
  ghost predicate IsLatest(held: seq<Checkpoint>, c: Checkpoint) {
    exists k :: 0 <= k < |held| && held[k] == c
      && (forall i :: 0 <= i < |held| ==> held[i].epoch <= c.epoch)
      && (forall i :: 0 <= i < k ==> held[i].epoch < c.epoch)
  }

  lemma NewerIsLatest(held: seq<Checkpoint>, c: Checkpoint, candidate: Checkpoint)
    requires IsLatest(held, c)
    ensures IsLatest(held + [candidate], Newer(candidate, c))
  {
    var k :| 0 <= k < |held| && held[k] == c
      && (forall i :: 0 <= i < |held| ==> held[i].epoch <= c.epoch)
      && (forall i :: 0 <= i < k ==> held[i].epoch < c.epoch);
    var more := held + [candidate];
    assert more[|held|] == candidate && more[k] == c;
  }

  lemma OneIsLatest(c: Checkpoint)
    ensures IsLatest([c], c)
  {
    assert [c][0] == c;
  }

  /** The lines of both blocks have the same last block by `slot`. */
  ghost predicate SameLast(blocks: Blocks, a: Root, b: Root, slot: nat)
    requires Ordered(blocks)
  {
    exists d :: LastBy(blocks, a, slot, d) && LastBy(blocks, b, slot, d)
  }

  /** Both blocks take their duties from the same block, the last before the epoch before. */
  ghost predicate SharesDuties(cfg: Config, s: StoreView, blocks: Blocks, a: Root, b: Root)
    requires Ordered(blocks)
  {
    var epoch := CurrentEpoch(cfg.preset, s);
    epoch <= 1 || SameLast(blocks, a, b, SaturatingSub(cfg.preset.StartSlot(epoch - 1), 1))
  }

  lemma DutiesMeaning(cfg: Config, s: StoreView, a: Root, b: Root)
    requires Ordered(s.blocks) && DependentRoot(cfg, s, a).Some? && DependentRoot(cfg, s, b).Some?
    ensures DependentRoot(cfg, s, a) == DependentRoot(cfg, s, b) <==> SharesDuties(cfg, s, s.blocks, a, b)
  {
    hide Ancestor, CurrentEpoch, LastBy, Ordered;
    var epoch := CurrentEpoch(cfg.preset, s);
    if epoch > 1 {
      var slot := SaturatingSub(cfg.preset.StartSlot(epoch - 1), 1);
      forall d: Root
        ensures LastBy(s.blocks, a, slot, d) <==> DependentRoot(cfg, s, a) == Some(d)
        ensures LastBy(s.blocks, b, slot, d) <==> DependentRoot(cfg, s, b) == Some(d)
      {
        AncestorIsLast(s.blocks, Node(a, Pending), slot, d);
        AncestorIsLast(s.blocks, Node(b, Pending), slot, d);
      }
      var d := DependentRoot(cfg, s, a).value;
      assert LastBy(s.blocks, a, slot, d);
    }
  }

  /** The checkpoints, justifications and boost of `t` after a block on `s`. */
  ghost predicate Settles(
    cfg: Config, s: StoreView, head: Root, root: Root, block: Block, post: BeaconState, t: StoreView)
    requires Ordered(t.blocks)
  {
    && cfg.rules.pullUp(post).Some?
    && var (j, f) := cfg.rules.pullUp(post).value;
       var past := cfg.preset.Epoch(block.slot) < CurrentEpoch(cfg.preset, s);
       && IsLatest([s.justified, post.currentJustified] + (if past then [j] else []), t.justified)
       && IsLatest([s.finalized, post.finalized] + (if past then [f] else []), t.finalized)
       && IsLatest([s.unrealizedJustified, j], t.unrealizedJustified)
       && IsLatest([s.unrealizedFinalized, f], t.unrealizedFinalized)
       && t.unrealizedJustifications == s.unrealizedJustifications[root := j]
       && t.boostRoot ==
            if s.boostRoot == ZERO_ROOT && Within(cfg.preset, s, block.slot, 1)
               && SharesDuties(cfg, s, t.blocks, root, head)
            then root else s.boostRoot
  }

  lemma CheckpointSteps(a: Checkpoint, b: Checkpoint, c: Checkpoint)
    ensures IsLatest([a, b], Newer(b, a)) && IsLatest([a, b] + [c], Newer(c, Newer(b, a)))
    ensures [a, b] + [] == [a, b]
  {
    hide IsLatest, Newer;
    OneIsLatest(a);
    NewerIsLatest([a], a, b);
    assert [a] + [b] == [a, b];
    NewerIsLatest([a, b], Newer(b, a), c);
  }

  lemma PulledUp(cfg: Config, s: StoreView, root: Root, block: Block, post: BeaconState)
    requires root in s.blocks && s.blocks[root] == block && root in s.blockStates && s.blockStates[root] == post
    requires WithPulledUpTip(cfg, s, root).Some?
    ensures cfg.rules.pullUp(post).Some?
    ensures var (j, f) := cfg.rules.pullUp(post).value;
      var t := WithPulledUpTip(cfg, s, root).value;
      var past := cfg.preset.Epoch(block.slot) < CurrentEpoch(cfg.preset, s);
      && t.justified == (if past then Newer(j, s.justified) else s.justified)
      && t.finalized == (if past then Newer(f, s.finalized) else s.finalized)
      && t.unrealizedJustified == Newer(j, s.unrealizedJustified)
      && t.unrealizedFinalized == Newer(f, s.unrealizedFinalized)
      && t.unrealizedJustifications == s.unrealizedJustifications[root := j]
      && t.boostRoot == s.boostRoot && t.blocks == s.blocks
  {
    hide Newer, CurrentEpoch;
    var (j, f) := cfg.rules.pullUp(post).value;
    var filed := s.(unrealizedJustifications := s.unrealizedJustifications[root := j]);
    var noted := UpdateUnrealized(filed, j, f);
    NotedFields(filed, j, f);
    AdoptedFields(noted, j, f);
    hide UpdateUnrealized, UpdateCheckpoints;
  }

  lemma NotedFields(s: StoreView, j: Checkpoint, f: Checkpoint)
    ensures var t := UpdateUnrealized(s, j, f);
      && t.justified == s.justified && t.finalized == s.finalized && t.boostRoot == s.boostRoot
      && t.unrealizedJustified == Newer(j, s.unrealizedJustified)
      && t.unrealizedFinalized == Newer(f, s.unrealizedFinalized)
      && t.unrealizedJustifications == s.unrealizedJustifications && t.blocks == s.blocks
  {
    hide Newer;
  }

  lemma AdoptedFields(s: StoreView, j: Checkpoint, f: Checkpoint)
    ensures var t := UpdateCheckpoints(s, j, f);
      && t.justified == Newer(j, s.justified) && t.finalized == Newer(f, s.finalized)
      && t.unrealizedJustified == s.unrealizedJustified && t.unrealizedFinalized == s.unrealizedFinalized
      && t.unrealizedJustifications == s.unrealizedJustifications
      && t.boostRoot == s.boostRoot && t.blocks == s.blocks
  {
    hide Newer;
  }

  /** The boost, from the store in which the block is filed and timed. */
  lemma BoostTaken(cfg: Config, s: StoreView, head: Root, root: Root, block: Block)
    requires Ordered(s.blocks) && WithBoost(cfg, s, head, root).Some?
    requires root in s.timeliness && s.timeliness[root] == TimelinessOf(cfg, s, block.slot)
    ensures WithBoost(cfg, s, head, root).value == s.(boostRoot :=
      if s.boostRoot == ZERO_ROOT && Within(cfg.preset, s, block.slot, 1)
         && SharesDuties(cfg, s, s.blocks, root, head)
      then root else s.boostRoot)
  {
    hide DependentRoot, SharesDuties, Within, TimelinessOf, Ordered;
    DutiesMeaning(cfg, s, root, head);
    TimelinessMeaning(cfg, s, block.slot);
  }

  /** The checkpoints, from the store in which the block is boosted or not. */
  lemma CheckpointsTaken(
    cfg: Config, s: StoreView, root: Root, block: Block, post: BeaconState, checked: StoreView, t: StoreView)
    requires root in s.blocks && s.blocks[root] == block && root in s.blockStates && s.blockStates[root] == post
    requires checked == UpdateCheckpoints(s, post.currentJustified, post.finalized)
    requires WithPulledUpTip(cfg, checked, root) == Some(t)
    ensures cfg.rules.pullUp(post).Some? && t.boostRoot == s.boostRoot && t.blocks == s.blocks
    ensures var (j, f) := cfg.rules.pullUp(post).value;
      var past := cfg.preset.Epoch(block.slot) < CurrentEpoch(cfg.preset, s);
      && IsLatest([s.justified, post.currentJustified] + (if past then [j] else []), t.justified)
      && IsLatest([s.finalized, post.finalized] + (if past then [f] else []), t.finalized)
      && IsLatest([s.unrealizedJustified, j], t.unrealizedJustified)
      && IsLatest([s.unrealizedFinalized, f], t.unrealizedFinalized)
      && t.unrealizedJustifications == s.unrealizedJustifications[root := j]
  {
    hide CurrentSlot, IsLatest, Newer, WithPulledUpTip;
    SameClock(cfg.preset, s, checked);
    PulledUp(cfg, checked, root, block, post);
    AdoptedFields(s, post.currentJustified, post.finalized);
    hide UpdateCheckpoints;
    var (j, f) := cfg.rules.pullUp(post).value;
    CheckpointSteps(s.justified, post.currentJustified, j);
    CheckpointSteps(s.finalized, post.finalized, f);
    CheckpointSteps(s.unrealizedJustified, j, j);
    CheckpointSteps(s.unrealizedFinalized, f, f);
  }

  lemma SettledMeaning(cfg: Config, s: StoreView, head: Root, root: Root, block: Block, post: BeaconState)
    requires Ordered(s.blocks) && Settled(cfg, s, head, root, post).Some?
    requires root in s.blocks && s.blocks[root] == block && root in s.blockStates && s.blockStates[root] == post
    requires root in s.timeliness && s.timeliness[root] == TimelinessOf(cfg, s, block.slot)
    ensures Settled(cfg, s, head, root, post).value.blocks == s.blocks
    ensures Settles(cfg, s, head, root, block, post, Settled(cfg, s, head, root, post).value)
  {
    hide WithBoost, SharesDuties, Within, TimelinessOf, CurrentSlot, IsLatest, WithPulledUpTip, Ordered;
    hide UpdateCheckpoints;
    BoostTaken(cfg, s, head, root, block);
    var boosted := WithBoost(cfg, s, head, root).value;
    var checked := UpdateCheckpoints(boosted, post.currentJustified, post.finalized);
    SameClock(cfg.preset, s, boosted);
    CheckpointsTaken(cfg, boosted, root, block, post, checked, Settled(cfg, s, head, root, post).value);
  }

  /** What an accepted block does to every field but the two vote tables. */
  lemma AcceptedBlockEffect(cfg: Config, s: StoreView, signed: SignedBlock) returns (head: Node, post: BeaconState)
    requires Readable(s) && OrderSafe(cfg, s, signed) && OnBlock(cfg, s, signed).Some?
    ensures Head(cfg, s) == Some(head) && signed.message.parentRoot in s.blockStates
    ensures cfg.rules.transition(s.blockStates[signed.message.parentRoot], signed) == Some(post)
    ensures var t, block, root := OnBlock(cfg, s, signed).value, signed.message, cfg.rules.blockRoot(signed.message);
      && t.blocks == s.blocks[root := block] && Ordered(t.blocks)
      && t.blockStates == s.blockStates[root := post]
      && t.timeliness == s.timeliness[root :=
           Timeliness(Within(cfg.preset, s, block.slot, 1), Within(cfg.preset, s, block.slot, 3))]
      && Settles(cfg, s, head.root, root, block, post, t)
      && t.time == s.time && t.genesisTime == s.genesisTime && t.equivocating == s.equivocating
      && t.latestMessages == s.latestMessages && t.checkpointStates == s.checkpointStates
      && t.payloads == s.payloads && t.queued == s.queued && t.sidecars == s.sidecars
  {
    hide Head, Prepared, Settled, Settles, Within, TimelinessOf, CurrentSlot, BlockAdmissible, Ordered;
    var block, root := signed.message, cfg.rules.blockRoot(signed.message);
    AdmissibleParent(cfg, s, block);
    head, post := Head(cfg, s).value, cfg.rules.transition(s.blockStates[block.parentRoot], signed).value;
    var prepared := Prepared(cfg, s, root, block, post).value;
    PreparedTouches(cfg, s, root, block, post);
    SameTimeliness(cfg, s, prepared, block.slot);
    TimelinessMeaning(cfg, s, block.slot);
    SettledMeaning(cfg, prepared, head.root, root, block, post);
    SettledTouches(cfg, prepared, head.root, root, post);
    SettlesFrame(cfg, s, prepared, head.root, root, block, post, OnBlock(cfg, s, signed).value);
  }

  /** The store in which a block's votes are replayed: its state known, its two vectors empty. */
  ghost predicate Opens(cfg: Config, s: StoreView, root: Root, post: BeaconState, start: StoreView) {
    && start.blockStates == s.blockStates[root := post]
    && start.timelinessVotes.Keys == s.timelinessVotes.Keys + {root}
    && start.availabilityVotes.Keys == s.availabilityVotes.Keys + {root}
    && |start.timelinessVotes[root]| == |start.availabilityVotes[root]| == cfg.preset.PtcSize()
    && (forall i :: 0 <= i < cfg.preset.PtcSize() ==>
          start.timelinessVotes[root][i] == None && start.availabilityVotes[root][i] == None)
    && (forall r :: r in s.timelinessVotes && r != root ==> start.timelinessVotes[r] == s.timelinessVotes[r])
    && (forall r :: r in s.availabilityVotes && r != root ==> start.availabilityVotes[r] == s.availabilityVotes[r])
  }

  /**
    * What an accepted block does to the two vote tables. The new block's vectors start
    * empty; then every seat a carried vote writes holds the vote of its last writer.
    */
  lemma AcceptedBlockVotes(cfg: Config, s: StoreView, signed: SignedBlock, post: BeaconState, r: Root, i: nat)
    returns (start: StoreView)
    requires Readable(s) && OrderSafe(cfg, s, signed) && OnBlock(cfg, s, signed).Some?
    requires signed.message.parentRoot in s.blockStates
    requires cfg.rules.transition(s.blockStates[signed.message.parentRoot], signed) == Some(post)
    ensures Opens(cfg, s, cfg.rules.blockRoot(signed.message), post, start)
    ensures var t, carried := OnBlock(cfg, s, signed).value, signed.message.body.payloadAttestations;
      var n := if post.slot == 0 then 0 else |carried|;
      && ((forall j :: 0 <= j < n ==> !CarriedWrites(cfg, start, post, carried, j, r, i)) ==>
            SeatHolds(start, t, r, i, false, false, false))
      && (forall j :: 0 <= j < n && LastWriter(cfg, start, post, carried, n, r, i, j) ==>
            SeatHolds(start, t, r, i, true, carried[j].data.payloadPresent, carried[j].data.blobDataAvailable))
  {
    hide Head, Settled, BlockAdmissible, Ordered, CarriedWrites, SeatHolds, Opens, NotifyPtc, TimelinessOf;
    hide LastWriter;
    var block, root := signed.message, cfg.rules.blockRoot(signed.message);
    start := Filed(cfg, s, root, block, post);
    FiledOpens(cfg, s, root, block, post);
    var carried, t := block.body.payloadAttestations, OnBlock(cfg, s, signed).value;
    var prepared := Prepared(cfg, s, root, block, post).value;
    PreparedTouches(cfg, s, root, block, post);
    SettledTouches(cfg, prepared, Head(cfg, s).value.root, root, post);
    var voted := if post.slot == 0 then start else NotifyPtc(cfg, start, post, carried, |carried|).value;
    SameSeats(voted, t, start, r, i);
    if post.slot == 0 {
      SeatsUnchanged(start, r, i);
    } else {
      CarriedVotesEffect(cfg, start, post, carried, |carried|, r, i);
    }
  }

  lemma FiledOpens(cfg: Config, s: StoreView, root: Root, block: Block, post: BeaconState)
    ensures Opens(cfg, s, root, post, Filed(cfg, s, root, block, post))
  {
  }

  lemma SeatsUnchanged(s: StoreView, r: Root, i: nat)
    ensures SeatHolds(s, s, r, i, false, false, false)
  {
  }

  lemma SameSeats(a: StoreView, b: StoreView, s: StoreView, r: Root, i: nat)
    requires a.timelinessVotes == b.timelinessVotes && a.availabilityVotes == b.availabilityVotes
    ensures forall w, p, v :: SeatHolds(s, a, r, i, w, p, v) <==> SeatHolds(s, b, r, i, w, p, v)
  {
  }

  /**
    * A block may be looked into: its parent is stored, with its payload if the block builds
    * on that; its slot is not in the future and after the finalized epoch began; and its
    * parent's last block by then is the finalized one.
    */
  lemma AdmissibleMeaning(cfg: Config, s: StoreView, block: Block)
    requires Ordered(s.blocks)
    ensures BlockAdmissible(cfg, s, block) <==>
      && block.parentRoot in s.blockStates && block.parentRoot in s.blocks
      && (block.body.bid.parentBlockHash == s.blocks[block.parentRoot].body.bid.blockHash ==>
            block.parentRoot in s.payloads)
      && cfg.preset.StartSlot(s.finalized.epoch) < block.slot <= CurrentSlot(cfg.preset, s)
      && LastBy(s.blocks, block.parentRoot, cfg.preset.StartSlot(s.finalized.epoch), s.finalized.root)
  {
    hide CheckpointBlock, LastBy, Ordered, CurrentSlot, Preset.StartSlot;
    CheckpointBlockIsLast(cfg.preset, s.blocks, block.parentRoot, s.finalized.epoch, s.finalized.root);
  }

  /**
    * What a tick does: in a new slot the boost is dropped, in a new epoch the unrealized
    * checkpoints are adopted where they are later, and nothing else moves but the clock.
    */
  lemma TickMeaning(preset: Preset, s: StoreView, time: U64)
    requires s.time <= time
    ensures OnTick(preset, s, time).Some?
    ensures var t := OnTick(preset, s, time).value;
      var newEpoch := CurrentEpoch(preset, s) < CurrentEpoch(preset, t);
      && t == s.(time := time, boostRoot := t.boostRoot, justified := t.justified, finalized := t.finalized)
      && t.boostRoot == (if CurrentSlot(preset, s) < CurrentSlot(preset, t) then ZERO_ROOT else s.boostRoot)
      && IsLatest([s.justified] + (if newEpoch then [s.unrealizedJustified] else []), t.justified)
      && IsLatest([s.finalized] + (if newEpoch then [s.unrealizedFinalized] else []), t.finalized)
  {
    hide SlotAtTime, IsLatest, Preset.Epoch, Newer;
    OneIsLatest(s.justified);
    OneIsLatest(s.finalized);
    NewerIsLatest([s.justified], s.justified, s.unrealizedJustified);
    NewerIsLatest([s.finalized], s.finalized, s.unrealizedFinalized);
    assert [s.justified] + [] == [s.justified] && [s.finalized] + [] == [s.finalized];
  }

  lemma AdmissibleParent(cfg: Config, s: StoreView, block: Block)
    requires Ordered(s.blocks) && BlockAdmissible(cfg, s, block)
    ensures block.parentRoot in s.blockStates
  {
    hide Ordered, CheckpointBlock, CurrentSlot;
  }

  lemma SameClock(preset: Preset, s: StoreView, t: StoreView)
    requires s.time == t.time && s.genesisTime == t.genesisTime
    ensures CurrentSlot(preset, s) == CurrentSlot(preset, t)
    ensures TimeIntoSlotMs(preset, s) == TimeIntoSlotMs(preset, t)
  {
  }

  lemma SettlesFrame(
    cfg: Config, s: StoreView, p: StoreView, head: Root, root: Root, block: Block, post: BeaconState, t: StoreView)
    requires Ordered(t.blocks) && Settles(cfg, p, head, root, block, post, t)
    requires p.time == s.time && p.genesisTime == s.genesisTime && p.boostRoot == s.boostRoot
    requires p.justified == s.justified && p.finalized == s.finalized
    requires p.unrealizedJustified == s.unrealizedJustified && p.unrealizedFinalized == s.unrealizedFinalized
    requires p.unrealizedJustifications == s.unrealizedJustifications
    ensures Settles(cfg, s, head, root, block, post, t)
  {
    hide IsLatest, SameLast, Ordered, CurrentSlot, TimeIntoSlotMs;
    SameClock(cfg.preset, s, p);
  }
}
