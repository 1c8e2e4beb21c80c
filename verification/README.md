# Verified model of the moonglass consensus core

This project models four parts of the moonglass consensus engine in Dafny and proves what
they are meant to guarantee. `dafny verify dfyconfig.toml` checks all of it.

- **Fork choice.** The store is a class whose handlers update its fields step by step
  (`StoreClass`). Each handler is proved against a function on snapshots (`Handlers`),
  every such function is proved to keep one invariant and to move only forward
  (`StoreInvariant`, `DeliveryInvariant`, `BlockInvariant`), and `StoreRuns` and
  `DeliveryRuns` lift this to every run of ticks, blocks, attestations, slashings, payload
  votes, envelopes and data columns. What each event leaves in each field is said apart
  from the handlers, in plain fields (`BlockEffects`, `VoteEffects`, `MessageEffects`).
  Head selection is read-only: `Ancestry`, `Filter`, `Expansion`, `Electorate`, `Weight`,
  `HeadKey`, `HeadWalk` and `ViableNodes` prove what the walk computes, in any iteration
  order of the block maps, `BranchChoice` which node that is, and `HeadExistence` when
  there is one. `BlockAcceptance` says exactly when a store takes a block and
  `AnchorStart` when a fresh store takes its first. Two consequences hold in every run: a
  store opened inside an epoch never takes a block, and one opened at epoch two or later
  takes none until two epochs have passed, because the duty window then reaches behind the
  anchor. Over an anchor at epoch one the window is shut in epoch two only.
- **SSZ.** One universe of types with an encoder and a strict decoder (`Ssz`), the two
  laws that tie them (`SszTheorems`), the buffers, offsets and bit operations that
  implement them (`SszBits`, `SszEncoder`, `SszDecoder`), merkleization (`Merkle`), and
  `hash_tree_root` over the same universe (`HashTreeRoot`), which binds a value up to a
  hash collision. `SszLayout` says where every byte sits, `MerkleBranch` where every part
  stands in a root.
- **Committees.** The swap-or-not shuffle and the slices cut from it (`Committees`,
  `CommitteeMeaning`).
- **Balance scheduling.** The withdrawal sweep (`Withdrawals`, `WithdrawalState`,
  `WithdrawalSafety`, `WithdrawalFairness`, `WithdrawalMeaning`, `SweepPayments`,
  `BuilderFairness`), the exit queue (`Churn`) and the integer square root (`SquareRoot`).
  The validator sweep passes nobody over; the builder sweep does not either, but it can
  wait for ever behind the payment queue.

Both the `mainnet` and the `minimal` constants are covered (`Primitives.Preset`).

## Assumptions

- Hashing, the state transition, signatures, KZG proofs and envelope verification are
  arbitrary total functions, fields of `ForkChoiceTypes.Rules`. Of the state transition it
  is assumed that it moves strictly forward to the block's slot
  (`moonglass-core/src/state_transition/slot.rs:32-51`,
  `moonglass-core/src/state_transition/block.rs:63-102`) and that a signature decides only
  acceptance, never the resulting state.
- A root that arrives again carries the same block, no block root is zero, and no imported
  block has the root the anchor names as its parent (`BlockInvariant.Trusted`).
- The handlers that walk ancestors require a block map in which every block comes after
  its parent, and filing a block must keep it so (`Handlers.OrderSafe`). The invariant and
  the hashing assumptions above give both in every reachable store.
- The anchor block and the anchor state share a slot and the anchor is not its own parent
  (`StoreInvariant.SoundAnchor`).
- Conservation of scores needs the balance of all voters to fit 64 bits.
- Claims about the head are claims about every store in which the head walk returns a
  node; `HeadExistence` says which those are. It fails on an uncached justified state, a
  finalized epoch that starts before the anchor, an undecidable boost, a sum past 64 bits,
  or the full branch of an anchor of the previous slot, which has no payload-vote vectors.
- Each envelope and column of a run brings its own verifier, and the invariant holds for
  any. A rejection can leave an envelope waiting over available data
  (`DeliveryInvariant.StuckIffRejected`); claims that need this not to happen assume
  verifiers that accept (`DeliveryRuns.Accepting`), which is the default one.
- Withdrawal claims assume as many balances as validators, registries of at most 2^40
  entries, and an epoch before the last 64-bit one.
- SSZ decoding claims exclude lists and vectors of zero-size elements, which the codec
  does not support (`moonglass-core/src/ssz/codec.rs:140-146`). Claims about
  `hash_tree_root` take lengths and limits to be 64-bit numbers (`HashTreeRoot.Hosted`).

Errors carry no detail: an error of any kind is `None`, or `false` for a method. 64-bit
arithmetic is written out, checked or saturating as in the code.

## Model

| member | source | states |
|---|---|---|
| Ancestry.GetAncestor | moonglass-core/src/fork_choice/helpers.rs:97-114 | The parent loop ends at the ancestor the recursive reference names, and fails exactly when that does. |
| Ancestry.AncestorDescends | moonglass-core/src/fork_choice/helpers.rs:97-114 | A walk ends at a block the start descends from, at or before the slot asked for. |
| Ancestry.AncestorComposes | moonglass-core/src/fork_choice/helpers.rs:97-114 | Stopping at a later slot on the way and going on from there reaches the same node as walking straight to the earlier slot. |
| Ancestry.AncestorTotal | moonglass-core/src/fork_choice/helpers.rs:97-114 | In a store rooted at its anchor the walk fails if and only if it would have to pass the anchor. |
| Ancestry.AncestorIsLast | moonglass-core/src/fork_choice/helpers.rs:97-114 | The ancestor found at a slot is the last block of the line at or before it, and only that one. |
| Ancestry.CheckpointBlockIsLast | moonglass-core/src/fork_choice/helpers.rs:148-152 | The block of a line at a checkpoint is its last one by the epoch’s first slot; there is one exactly when the lookup succeeds. |
| Ancestry.WalkCarriesBranch | moonglass-core/src/fork_choice/helpers.rs:97-114 | The branch reported with an ancestor is the one claimed by the child through which the chain passes. |
| Ancestry.IsAncestorMeaning | moonglass-core/src/fork_choice/helpers.rs:123-139 | A pending ancestor covers everything at or below its block; a resolved one covers itself and whatever descends through a child built on its branch. |
| Ancestry.IsAncestorTransitive | moonglass-core/src/fork_choice/helpers.rs:123-139 | The relation is transitive across all three payload branches. |
| Ancestry.SiblingsDisjoint | moonglass-core/src/fork_choice/helpers.rs:97-139 | No block descends from two different children of one block. |
| Filter.FilterBlockTree | moonglass-core/src/fork_choice/filter.rs:43-88 | The recursion ends, in any visiting order, and adds exactly the viable blocks below its root. |
| Filter.GetFilteredBlockTree | moonglass-core/src/fork_choice/filter.rs:28-33 | Returns the closed-form filtered tree, or fails exactly when some tip cannot be checked. |
| Filter.FilteredMeaning | moonglass-core/src/fork_choice/filter.rs:43-88 | A block is kept if and only if it descends from the justified root and some childless block below it passes both checks. |
| Filter.PassingTipMayLead | moonglass-core/src/fork_choice/filter.rs:54-77 | In plain fields: a tip passes when its justified epoch is the store’s or at most two old, past genesis, and the finalized block is the last of its line by the finalized epoch. |
| Filter.KeptMeaning | moonglass-core/src/fork_choice/filter.rs:28-88 | A block is kept if and only if it is at or below the justified one and some childless block at or below it may lead. |
| Filter.FilteredClosedUpward | moonglass-core/src/fork_choice/filter.rs:43-88 | With a kept block its parent is kept, up to the justified root. |
| Filter.KeptBlocksFollowFinality | moonglass-core/src/fork_choice/filter.rs:54-77 | Past the genesis epoch every kept block lies on one chain with the finalized block. |
| Expansion.GetNodeChildren | moonglass-core/src/fork_choice/head.rs:33-57 | Lists each child node once whatever the map order; refused only for an unknown parent. |
| Expansion.StepGoesDeeper | moonglass-core/src/fork_choice/head.rs:33-57 | Every step of the expansion strictly increases a slot and status measure, so no walk repeats a node. |
| Expansion.PathUnique | moonglass-core/src/fork_choice/head.rs:33-57 | At most one path of the expansion leads from a start to a node. |
| Expansion.ReachedByExactlyOnePath | moonglass-core/src/fork_choice/head.rs:33-57 | Every block of the tree is reached as a pending node, by exactly one path. |
| Weight.GetAttestationScore | moonglass-core/src/fork_choice/weight.rs:33-61 | The checked accumulation equals the reference score and fails when it does; what that is, ScoreMeaning says. |
| Weight.CandidatesAreVoters | moonglass-core/src/state_transition/committee.rs:72-77 | The validators counted are exactly those active in the state’s epoch and not slashed, each once. |
| Weight.SupportsIsVotesFor | moonglass-core/src/fork_choice/weight.rs:44-60 | A vote counts for a node exactly when its voter is not known to equivocate and its block and payload side are on the node’s branch. |
| Weight.ScoreMeaning | moonglass-core/src/fork_choice/weight.rs:33-61 | A score is the balance of the set of active unslashed validators whose latest vote is on the node’s branch, and is refused exactly when that passes 64 bits. |
| Weight.SupportsAtMostOneChild | moonglass-core/src/fork_choice/weight.rs:33-61 | A latest message supports at most one child of any node. |
| Weight.SupportingChildSupportsNode | moonglass-core/src/fork_choice/weight.rs:33-61 | Supporting a child implies supporting the node. |
| Weight.ScoreIsStake | moonglass-core/src/fork_choice/weight.rs:44-60 | A score that does not overflow is the plain sum of supporting balances. |
| Weight.ScoreNeverFails | moonglass-core/src/fork_choice/weight.rs:33-61 | With known messages and the balance of all voters within 64 bits scoring cannot fail and gives that set’s balance. |
| Weight.ScoresConserved | moonglass-core/src/fork_choice/weight.rs:33-61 | The scores of any distinct children add up to at most the node’s own score. |
| HeadKey.IsHeadWeak | moonglass-core/src/fork_choice/weight.rs:136-160 | The committee loops and checked sums agree with the reference head weight and fail when it does. |
| HeadKey.HeadWeakMeaning | moonglass-core/src/fork_choice/weight.rs:136-160 | Decidable exactly when the committees exist, every slashed member is registered and the sums fit 64 bits; then weak means that stake on the block plus stake of slashed members of its slot is below 20% of a slot’s share of active stake. |
| HeadKey.FractionIsShare | moonglass-core/src/fork_choice/helpers.rs:266-273 | A committee fraction is that percentage of the active stake per slot; it is refused exactly when the stake or the product passes 64 bits. |
| HeadKey.ShouldApplyProposerBoost | moonglass-core/src/fork_choice/weight.rs:82-126 | Whatever the scan order, boost is withheld exactly when the parent is a weak head of the previous slot and an early timely rival by its proposer exists. |
| HeadKey.GetWeight | moonglass-core/src/fork_choice/weight.rs:194-210 | Computes the reference weight through the scoring loop and the boost scan, and fails when it does. |
| HeadKey.BoostMeaning | moonglass-core/src/fork_choice/weight.rs:82-126 | When it can be decided, a boost counts exactly when a block is boosted and its parent is not one slot back, is not weak in plain sums, or has no early timely rival. |
| HeadKey.WeightMeaning | moonglass-core/src/fork_choice/weight.rs:194-210 | A weight is zero for a branch of the previous slot, else the balance of the validators backing the node, plus 40% of a slot’s share exactly when the boost counts and the boosted block lies on the node’s branch. |
| HeadKey.HeadSelectionKey | moonglass-core/src/fork_choice/head.rs:65-74 | Weight, then root, then branch rank, with any failure passed on; what the key decides, BranchTaken and BlockTaken say. |
| BranchChoice.RankOfFull | moonglass-core/src/fork_choice/payload_status.rs:288-313 | The full branch of a previous-slot block ranks 2 when the payload is kept and 0 otherwise; in any other slot it ranks 1. |
| BranchChoice.RankOfEmpty | moonglass-core/src/fork_choice/payload_status.rs:288-313 | The empty branch ranks 1 in the previous slot and 0 in any other. |
| BranchChoice.BranchTaken | moonglass-core/src/fork_choice/payload_status.rs:239-313 | Below a block with a recorded payload the walk takes the full branch if and only if, in the previous slot, a committee majority voted yes twice or no boosted child left the payload out, and in any other slot, the full branch weighs no less. |
| BranchChoice.BlocksBelow | moonglass-core/src/fork_choice/head.rs:33-57 | Below a branch stand the kept children whose bid builds on the payload’s hash, or does not. |
| BranchChoice.BlockTaken | moonglass-core/src/fork_choice/head.rs:78-92 | Below a branch the walk takes the block of greatest weight, and of equals that of greatest root. |
| BranchChoice.HeadStatus | moonglass-core/src/fork_choice/head.rs:105-115 | The head is full exactly when its payload is recorded and that rule favours it. |
| BranchChoice.HeadMeaning | moonglass-core/src/fork_choice/head.rs:105-115 | The head ends a walk from the justified block whose every step is the one those rules name. |
| HeadKey.SiblingKeysDiffer | moonglass-core/src/fork_choice/head.rs:65-74 | Two different children of one node never have equal selection keys. |
| HeadWalk.SelectHeaviestChild | moonglass-core/src/fork_choice/head.rs:78-92 | Returns a child no other child exceeds; fails exactly when some key cannot be read. |
| HeadWalk.MaximalIsHeaviest | moonglass-core/src/fork_choice/head.rs:78-92 | A child that no sibling exceeds is strictly above every sibling, hence the unique maximum. |
| HeadWalk.GetHead | moonglass-core/src/fork_choice/head.rs:105-115 | The walk terminates and its result is a function of the store alone, independent of every iteration order; which node that is, HeadMeaning says. |
| HeadWalk.HeadWalkUnique | moonglass-core/src/fork_choice/head.rs:105-115 | There is only one heaviest-child walk, and it ends at the head. |
| HeadWalk.HeadLocation | moonglass-core/src/fork_choice/head.rs:105-115 | A head is never pending, is full only over a recorded envelope, and is the justified block or a kept block. |
| HeadWalk.HeadFollowsFinality | moonglass-core/src/fork_choice/head.rs:105-115 | If the justified root survives the filter past genesis, head and finalized block lie on one chain. |
| HeadExistence.HeaviestExists | moonglass-core/src/fork_choice/head.rs:78-92 | Children whose keys can all be read have a heaviest one. |
| HeadExistence.HeadExistsIff | moonglass-core/src/fork_choice/head.rs:105-115 | There is a head if and only if the filter succeeds and every child met on the heaviest-child walk has a readable key. |
| HeadExistence.FilterSucceedsIff | moonglass-core/src/fork_choice/filter.rs:28-88 | In every reachable store the filter succeeds if and only if the justified block is stored and the finalized epoch starts no earlier than the anchor. |
| HeadExistence.KeyKnownIff | moonglass-core/src/fork_choice/head.rs:65-74 | In every reachable store the key of a branch of the previous slot can be read unless it is the anchor’s full branch; any other key exactly when the justified state is cached, the boost can be decided and the sums fit 64 bits. |
| HeadExistence.HeadExists | moonglass-core/src/fork_choice/head.rs:105-115 | Plain conditions on the anchor, the clock, the justified state and the stake under which a reachable store has a head. |
| ViableNodes.GetViableForHeadNodes | moonglass-core/src/fork_choice/head.rs:139-159 | The worklist terminates and lists exactly the reachable leaves, each once with its weight; it fails only when some reachable node has no readable weight. |
| ViableNodes.HeadIsViable | moonglass-core/src/fork_choice/head.rs:105-159 | The head is always among the listed leaves. |
| Columns.HasCompleteColumnSet | moonglass-core/src/fork_choice/on_execution_payload_envelope.rs:420-433 | The seen-table scan accepts exactly the lists that hold every column once. |
| Columns.StoreSidecarKeepsOrder | moonglass-core/src/fork_choice/on_execution_payload_envelope.rs:324-337 | Storing a column keeps indices strictly increasing, replaces its own index and loses no other column. |
| Columns.IsDataAvailable | moonglass-core/src/fork_choice/on_execution_payload_envelope.rs:356-385 | Agrees with the closed-form availability. |
| Columns.AvailableMeansAllStored | moonglass-core/src/fork_choice/on_execution_payload_envelope.rs:356-385 | Data is available exactly when there are no commitments or all columns are stored. |
| Clock.SlotStartIsExact | moonglass-core/src/fork_choice/helpers.rs:45-56 | The start of a slot already reached neither saturates nor passes the current time and falls in exactly that slot, for both slot durations. |
| Clock.TicksCompose | moonglass-core/src/fork_choice/on_tick.rs:24-41 | Ticking to one time and then another is ticking straight to the second. |
| BlockEffects.TimeSplits | moonglass-core/src/fork_choice/helpers.rs:45-76 | Whole slots and the milliseconds into the current one make up the time since genesis. |
| BlockEffects.TickMeaning | moonglass-core/src/fork_choice/on_tick.rs:24-65 | A new slot drops the boost, a new epoch adopts unrealized checkpoints that are later, nothing else moves but the clock. |
| StoreClass.Store.OnTick | moonglass-core/src/fork_choice/on_tick.rs:24-41 | The slot-by-slot loop terminates and equals the closed form: boost dropped iff the slot moved, unrealized checkpoints adopted iff the epoch moved; going back is refused. |
| StoreClass.Store.OnTickPerSlot | moonglass-core/src/fork_choice/on_tick.rs:49-65 | One clock step with the boundary effects it triggers, and no other field touched. |
| StoreClass.BoundaryStep | moonglass-core/src/fork_choice/on_tick.rs:32-38 | Each loop iteration advances exactly one slot without passing the target time. |
| StoreClass.OpenStore | moonglass-core/src/fork_choice/store.rs:252-323 | A fresh store holding only the anchor, or a refusal on a root mismatch or time overflow. |
| MessageEffects.AnchorEffect | moonglass-core/src/fork_choice/store.rs:252-323 | When a store opens, and every field it opens with. |
| StoreClass.Store.UpdateCheckpoints | moonglass-core/src/fork_choice/checkpoints.rs:29-36 | Each checkpoint is replaced only by one of a later epoch; nothing else changes. |
| StoreClass.Store.StoreTargetCheckpointState | moonglass-core/src/fork_choice/checkpoints.rs:45-63 | Caches the target’s state, advanced through empty slots; on a refusal nothing changes. |
| StoreClass.Store.UpdateUnrealizedCheckpoints | moonglass-core/src/fork_choice/checkpoints.rs:74-85 | Unrealized checkpoints move only to later epochs. |
| StoreClass.Store.ComputePulledUpTip | moonglass-core/src/fork_choice/checkpoints.rs:95-126 | Records the pulled-up justification and adopts it at once exactly for blocks of a past epoch; a failure changes nothing. |
| StoreClass.Store.UpdateLatestMessages | moonglass-core/src/fork_choice/on_attestation.rs:108-135 | The loop writes one message per trusted voter with an older or no message, repeated voters included. |
| StoreClass.OneMoreVoter | moonglass-core/src/fork_choice/on_attestation.rs:117-134 | A voter listed twice writes once. |
| StoreClass.Store.OnAttestationInner | moonglass-core/src/fork_choice/on_attestation.rs:160-181 | Succeeds exactly when the attestation is admissible and signed, with the specified new store. |
| StoreClass.Store.OnAttestation | moonglass-core/src/fork_choice/on_attestation.rs:147-156 | All or nothing: a refused attestation leaves every field as it was. |
| VoteEffects.AttestationEffect | moonglass-core/src/fork_choice/on_attestation.rs:50-181 | Taken if and only if plain conditions on slot, target, block and payload side hold and the signature verifies; then exactly the signers without as late a message get one with the vote’s slot, block and payload side. |
| StoreClass.Store.OnAttesterSlashing | moonglass-core/src/fork_choice/on_attester_slashing.rs:27-54 | Adds exactly the validators in both attestations; a refusal changes nothing. |
| MessageEffects.SlashingEffect | moonglass-core/src/fork_choice/on_attester_slashing.rs:27-54 | Taken exactly when the votes conflict and both verify; a validator is then marked if it was, or if it signed both. |
| StoreClass.WriteVotePositions | moonglass-core/src/fork_choice/on_payload_attestation_message.rs:167-179 | In-place writes set exactly the listed cells before the first position past the end, and fail exactly when there is one. |
| StoreClass.Store.RecordPayloadVotePositions | moonglass-core/src/fork_choice/on_payload_attestation_message.rs:103-126 | Both vote vectors of the block get the votes at the same positions. A missing vector changes nothing; a position past the end leaves the cells before it written and, in the first vector, the second untouched. |
| StoreClass.Store.OnPtcMessageInner | moonglass-core/src/fork_choice/on_payload_attestation_message.rs:47-92 | A vote for another slot is ignored, a gossip vote needs the current slot and a signature, an accepted one fills every seat held. |
| StoreClass.Store.OnPtcMessage | moonglass-core/src/fork_choice/on_payload_attestation_message.rs:34-43 | All or nothing, like the attestation handler. |
| VoteEffects.PtcVoteTaken | moonglass-core/src/fork_choice/on_payload_attestation_message.rs:47-126 | The exact condition under which a payload vote is taken, in seats and cells. |
| VoteEffects.PtcVoteEffect | moonglass-core/src/fork_choice/on_payload_attestation_message.rs:82-126 | A vote taken sets its signer’s seats, in the one vector to whether the payload was seen and in the other to whether its data was, and no other cell. |
| VoteEffects.PositionsMeaning | moonglass-core/src/fork_choice/on_payload_attestation_message.rs:128-160 | The positions found for a validator are exactly its seats in the row of the slot, counted from the epoch before the state’s. |
| StoreClass.Store.NotifyPtcMessages | moonglass-core/src/fork_choice/on_block.rs:152-178 | Replays every vote a block carries, or fails with the first that fails; slot zero carries none. |
| VoteEffects.CarriedVotesEffect | moonglass-core/src/fork_choice/on_block.rs:152-178 | After replay each seat holds the vote of its last writer, or what it held. |
| StoreClass.Store.RecordBlockTimeliness | moonglass-core/src/fork_choice/timeliness.rs:24-39 | Notes both deadlines, met only in the block’s own slot. |
| StoreClass.Store.UpdateProposerBoostRoot | moonglass-core/src/fork_choice/timeliness.rs:50-68 | Boosts only the first timely block of a slot that shares the head’s duty window. |
| StoreClass.Store.OnBlockInner | moonglass-core/src/fork_choice/on_block.rs:47-115 | The five phases in order, from the head seen before the import; what they leave, AcceptedBlockEffect says. |
| BlockEffects.AdmissibleMeaning | moonglass-core/src/fork_choice/on_block.rs:56-83 | The checks on a block in plain fields: parent stored, with its payload if built on, slot after the finalized epoch began and not in the future, parent on the finalized line. |
| BlockEffects.TimelinessMeaning | moonglass-core/src/fork_choice/timeliness.rs:24-39 | A block is timely in the first quarter of its own slot, and for payload votes in the first three. |
| BlockEffects.AcceptedBlockEffect | moonglass-core/src/fork_choice/on_block.rs:85-115 | Every field after an accepted block: each checkpoint is the one of greatest epoch among those held and offered, the earliest held on a tie, the pulled-up pair counting for the realized ones exactly when the epoch is past; the block is boosted exactly when none was, it came in the first quarter of the current slot and it shares the head’s duties. |
| BlockEffects.AcceptedBlockVotes | moonglass-core/src/fork_choice/on_block.rs:92-103 | The vote tables after an accepted block: its own vectors start empty, then each seat holds the vote of the last carried aggregate that writes it. |
| StoreClass.Store.OnBlock | moonglass-core/src/fork_choice/on_block.rs:38-43 | All or nothing: a rejected block leaves the store unchanged. |
| StoreClass.Store.OnBlockWithEmbeddedMessages | moonglass-core/src/fork_choice/on_block.rs:129-143 | The block and every attestation and slashing it carries are taken together or not at all. |
| MessageEffects.CarriedMessagesIn | moonglass-core/src/fork_choice/on_block.rs:129-143 | Every signer of a carried vote not known to equivocate then has a message at least as late, and exactly the offenders of carried slashings are added. |
| StoreClass.Store.OnExecutionPayloadEnvelope | moonglass-core/src/fork_choice/on_execution_payload_envelope.rs:81-105 | A valid envelope waits iff its data is missing, else is filed iff the verifier accepts; a refusal changes nothing. |
| MessageEffects.EnvelopeEffect | moonglass-core/src/fork_choice/on_execution_payload_envelope.rs:81-187 | Taken if and only if the block is stored, the envelope valid for it and, with all data there, the verifier accepts; then it is filed, or waits, and no other field changes. |
| StoreClass.Store.ProcessQueuedEnvelope | moonglass-core/src/fork_choice/on_execution_payload_envelope.rs:228-258 | Releases a waiting envelope exactly when its data is available and it verifies, and says whether it did. |
| StoreClass.Store.RecordDataColumnSidecar | moonglass-core/src/fork_choice/on_execution_payload_envelope.rs:296-347 | Not transactional: an admissible column stays stored even when the release it triggers fails. |
| MessageEffects.ColumnEffect | moonglass-core/src/fork_choice/on_execution_payload_envelope.rs:228-347 | A column that fits replaces any of its index and keeps the rest in order; a waiting envelope is filed exactly when its data is then complete and the verifier accepts. |
| StoreClass.Store.CheckInvariants | moonglass-core/src/fork_choice/store.rs:332-361 | Reports success exactly on stores with states and timeliness for every block, committee-size votes and increasing slots. |
| StoreClass.ReachableIsStructured | moonglass-core/src/fork_choice/store.rs:332-361 | The structural check succeeds on every reachable store. |
| StoreInvariant.AnchorKeepsInv | moonglass-core/src/fork_choice/store.rs:252-323 | A fresh store satisfies the whole invariant. |
| StoreInvariant.AdmissibleMessageIsSound | moonglass-core/src/fork_choice/on_attestation.rs:50-99 | An admitted vote is for a past slot and a known block no later than it, and votes full only over a recorded envelope. |
| StoreInvariant.TickKeepsInv | moonglass-core/src/fork_choice/on_tick.rs:24-65 | The clock keeps the invariant and moves only forward. |
| StoreInvariant.AttestationKeepsInv | moonglass-core/src/fork_choice/on_attestation.rs:147-181 | So do attestations; message slots never go back. |
| StoreInvariant.SlashingKeepsInv | moonglass-core/src/fork_choice/on_attester_slashing.rs:27-54 | So do slashings; the equivocating set only grows. |
| StoreInvariant.PtcKeepsInv | moonglass-core/src/fork_choice/on_payload_attestation_message.rs:34-126 | So do payload votes; vectors keep the committee’s size. |
| DeliveryInvariant.EnvelopeKeepsInv | moonglass-core/src/fork_choice/on_execution_payload_envelope.rs:81-105 | So do envelopes, under any verifier; no waiting envelope is lost. |
| DeliveryInvariant.SidecarKeepsInv | moonglass-core/src/fork_choice/on_execution_payload_envelope.rs:296-347 | So do data columns, under any verifier: every recorded payload was valid for its block and has its data. |
| DeliveryInvariant.StuckIffRejected | moonglass-core/src/fork_choice/on_execution_payload_envelope.rs:246-257 | After an admissible column its block’s envelope is stuck over available data exactly when it was waiting, the data is now complete and the verifier rejects it; the handler then reports failure, and no other envelope becomes stuck or free. |
| DeliveryInvariant.EnvelopeNeverSticks | moonglass-core/src/fork_choice/on_execution_payload_envelope.rs:81-105 | An accepted envelope leaves its own block unstuck and every other as it was, under any verifier. |
| DeliveryInvariant.AvailabilityPersists | moonglass-core/src/fork_choice/on_execution_payload_envelope.rs:356-385 | Data once available stays available. |
| BlockInvariant.AdmissibleBlockFits | moonglass-core/src/fork_choice/on_block.rs:56-83 | A block that passes the checks extends the tree: above its parent in slot, below no existing child. |
| BlockInvariant.BlockKeepsInv | moonglass-core/src/fork_choice/on_block.rs:47-115 | An accepted block keeps the invariant, including that a claimed full parent has a recorded envelope, and unlearns nothing. |
| StoreRuns.StepKeepsInv | moonglass-core/src/fork_choice/store.rs:332-361 | Every event, accepted or refused, keeps the invariant and moves only forward. |
| StoreRuns.RunKeepsInv | moonglass-core/src/fork_choice/store.rs:332-361 | So does every run: blocks, envelopes, messages and equivocators are never unlearned, epochs never go back, and a boost is fixed for its slot. |
| StoreRuns.EveryBlockReachedOnce | moonglass-core/src/fork_choice/head.rs:33-57 | In every reachable store each kept block is reached as a pending node by exactly one path. |
| StoreRuns.ReachableScoresConserved | moonglass-core/src/fork_choice/weight.rs:33-61 | In every reachable store children’s scores exist and add up to at most the node’s. |
| StoreRuns.ReachableHead | moonglass-core/src/fork_choice/head.rs:105-115 | In every reachable store a head is resolved, is full only over a recorded payload that was valid for its block and whose data is available, and lies on one chain with finality. |
| StoreRuns.SlashedVotesNeverCount | moonglass-core/src/fork_choice/weight.rs:44-60 | Once slashed, a validator counts toward no node in any later store. |
| DeliveryRuns.OnlyRejectionSticks | moonglass-core/src/fork_choice/on_execution_payload_envelope.rs:228-347 | Whatever the verifiers say, an envelope gets stuck over available data only when a column arrives for its block and its verifier rejects it. |
| DeliveryRuns.RunSticksNothing | moonglass-core/src/fork_choice/on_execution_payload_envelope.rs:228-347 | In a run whose verifiers accept, none ever is. |
| DeliveryRuns.ReachableQueueIsValid | moonglass-core/src/fork_choice/on_execution_payload_envelope.rs:96-101 | In every reachable store, under any verifiers, a waiting envelope is valid for its block. |
| DeliveryRuns.ReachableQueue | moonglass-core/src/fork_choice/on_execution_payload_envelope.rs:96-101 | Under accepting verifiers a waiting envelope’s block has commitments and misses a column. |
| DeliveryRuns.WaitingEnvelopeIsKept | moonglass-core/src/fork_choice/on_execution_payload_envelope.rs:228-347 | No envelope is lost in any run: one that waits is later filed, or waits for a missing column, or is stuck by a rejection. |
| DeliveryRuns.WaitingEnvelopeIsFiled | moonglass-core/src/fork_choice/on_execution_payload_envelope.rs:228-347 | Under accepting verifiers, any further run that stores all columns of the block has filed it. |
| BlockAcceptance.VotesDecided | moonglass-core/src/fork_choice/on_block.rs:152-178 | The payload votes a block carries are replayed if and only if every aggregate expands and each vote is for another slot than its block’s or has cells and seats in range. |
| BlockAcceptance.WindowMeaning | moonglass-core/src/fork_choice/helpers.rs:213-226 | The duty window reaches no further back than the anchor exactly in the first two epochs and from two epochs after the anchor on. |
| BlockAcceptance.BlockAccepted | moonglass-core/src/fork_choice/on_block.rs:47-115 | In every store that keeps the invariant a block is accepted if and only if it is admissible, its transition succeeds, there is a head, its votes fit, the window is known and its tip can be pulled up. |
| BlockAcceptance.AcceptedInWindow | moonglass-core/src/fork_choice/timeliness.rs:50-68 | So any block accepted in any such store is accepted in the first two epochs or from two epochs after the anchor on. |
| AnchorStart.FreshHead | moonglass-core/src/fork_choice/head.rs:105-115 | A fresh store has a head exactly when its anchor opens an epoch, and then it is the anchor’s empty branch, at any time. |
| AnchorStart.FirstBlockAccepted | moonglass-core/src/fork_choice/on_block.rs:47-115 | A block is accepted by a fresh store if and only if a condition on the anchor, the clock, the block, its transition and the payload votes it carries holds. |
| AnchorStart.VoteOnAnchorIsRefused | moonglass-core/src/fork_choice/on_block.rs:152-178 | A concrete first block that meets every other condition and is refused because it carries a payload vote on the anchor. |
| AnchorStart.BlockInsideEpochIsRefused | moonglass-core/src/fork_choice/on_block.rs:47-115 | A concrete first block over an anchor inside an epoch, refused. |
| AnchorStart.BlockBeforeWindowIsRefused | moonglass-core/src/fork_choice/timeliness.rs:50-68 | A concrete first block one slot after an anchor that opens epoch two, refused. |
| AnchorStart.InsideEpochStaysBare | moonglass-core/src/fork_choice/on_block.rs:47-115 | In every run from an anchor inside an epoch the store holds only its anchor. |
| AnchorStart.LateAnchorWaits | moonglass-core/src/fork_choice/helpers.rs:213-226 | In every run from an anchor at epoch two or later the store holds only its anchor until two epochs after it. |
| AnchorStart.ReachableAcceptance | moonglass-core/src/fork_choice/helpers.rs:213-226 | In every run, over any anchor, a block is accepted only in epochs zero and one or from two epochs after the anchor on. |
| AnchorStart.SomeRunImportsABlock | moonglass-core/src/fork_choice/on_block.rs:38-43 | The run theorems are not vacuous: a run from a genesis anchor that imports a block exists. |
| SszBits.PackBits | moonglass-core/src/ssz/bitfield.rs:421-429 | The bytes hold exactly the given bits, little-endian, with clear padding. |
| SszBits.BitvectorCodec | moonglass-core/src/ssz/bitfield.rs:157-179 | Bytes decode to bits if and only if they are the packing of those bits. |
| SszBits.BitlistCodec | moonglass-core/src/ssz/bitfield.rs:344-393 | Bytes decode to bits if and only if they pack those bits and one delimiter, within the limit. |
| SszEncoder.Serialize | moonglass-core/src/ssz/codec.rs:73-105 | Appends exactly the encoding and reports exactly the bytes appended, for every nested type; which bytes those are, Layout and ScalarEncoding say. |
| SszEncoder.WriteOffset | moonglass-core/src/ssz/codec.rs:8-12 | Four little-endian bytes (LeByteAt), refused from 2^32 on. |
| SszEncoder.SerializeSequence | moonglass-core/src/ssz/codec.rs:73-105 | Running offsets and two buffers produce the same bytes as the container layout with equal fields. |
| SszEncoder.SerializeBitlist | moonglass-core/src/ssz/bitfield.rs:344-363 | Setting the delimiter in place equals packing one more set bit. |
| SszEncoder.ContainerEncoder.WriteField | moonglass-core/src/ssz/container.rs:73-87 | A fixed field extends the fixed section, a variable one leaves its offset there and its bytes after. |
| SszEncoder.ContainerEncoder.Finish | moonglass-core/src/ssz/container.rs:90-105 | Joins the sections and counts them; refused when the fixed one missed its declared size. |
| SszDecoder.ValidateVariableOffsets | moonglass-core/src/ssz/codec.rs:31-70 | Accepts exactly offsets that start at the end of the fixed section, never decrease and stay inside the input. |
| SszDecoder.ContainerFieldRanges | moonglass-core/src/ssz/container.rs:144-192 | The two passes give every field its own range, variable ones between neighbouring bounds. |
| SszDecoder.ContainerDecoder.DeserializeNext | moonglass-core/src/ssz/container.rs:134-141 | Decodes each field from its range in turn; refused past the layout. |
| SszDecoder.DeserializeListItems | moonglass-core/src/ssz/codec.rs:108-165 | The element count comes from the first offset or the size, and the rest must fit it. |
| SszDecoder.DeserializeVectorItems | moonglass-core/src/ssz/codec.rs:168-206 | Exactly the declared number of elements, including none. |
| SszDecoder.DeserializeVariableItems | moonglass-core/src/ssz/codec.rs:209-233 | Offsets are read, validated and used as the parts’ bounds. |
| SszDecoder.DeserializeBitvector | moonglass-core/src/ssz/bitfield.rs:157-179 | Refuses wrong lengths and set padding, and reads every bit. |
| SszDecoder.DeserializeBitlist | moonglass-core/src/ssz/bitfield.rs:365-393 | Finds the delimiter, clears it and reads what is below. |
| SszDecoder.Deserialize | moonglass-core/src/ssz/codec.rs:108-233 | Agrees with the reference decoder for every supported nested type; numbers are read as FromLeIsDigits says. |
| SszTheorems.FixedLength | moonglass-core/src/ssz/container.rs:90-96 | A fixed-size type always encodes to its declared size, so a container’s fixed section never misses its own. |
| SszTheorems.Canonical | moonglass-core/src/ssz/codec.rs:108-233 | Bytes that decode are exactly the encoding of the value they decode to. |
| SszTheorems.DecodeInjective | moonglass-core/src/ssz/codec.rs:31-70 | No two byte strings decode to the same value. |
| SszTheorems.RoundTrip | moonglass-core/src/ssz/codec.rs:73-105 | Whatever encodes decodes to itself. |
| SszLayout.LeByteAt | moonglass-core/src/ssz/basic.rs:19-24 | Byte i of a number is its i-th digit to base 256. |
| SszLayout.FromLeIsDigits | moonglass-core/src/ssz/codec.rs:15-29 | Bytes read as a number are the sum of byte i times 256 to the i. |
| SszLayout.ScalarEncoding | moonglass-core/src/ssz/basic.rs:19-239 | The bytes of numbers, truth values, byte arrays and bitfields, digit by digit, with the delimiter of a bitlist. |
| SszLayout.Layout | moonglass-core/src/ssz/container.rs:72-105 | A fixed field sits at the sum of the slots before it; a variable one has there the start of its part, which ends where the next begins, the last with the bytes. |
| Merkle.DepthIsLeast | moonglass-core/src/ssz/merkle.rs:139-145 | The depth is the least one whose tree holds the limit. |
| Merkle.ZeroHashes | moonglass-core/src/ssz/merkle.rs:103-110 | Entry d of the table is the root of 2^d zero leaves. |
| Merkle.LevelUp | moonglass-core/src/ssz/merkle.rs:36-47 | Hashing the leaves pairwise first leaves the root of the full tree unchanged. |
| Merkle.MerkleizeRoots | moonglass-core/src/ssz/merkle.rs:29-55 | The level-by-level loop equals the root of the full tree over zero-padded leaves and never indexes past the table. |
| Merkle.TreeBinding | moonglass-core/src/ssz/merkle.rs:29-55 | Equal roots mean equal leaves or a hash collision between siblings of the two trees. |
| Merkle.ListBinding | moonglass-core/src/ssz/merkle.rs:15-87 | A length-mixed root binds the list, up to an explicit collision among its nodes. |
| Merkle.PackingInjective | moonglass-core/src/ssz/merkle.rs:113-125 | Among byte strings of one length the chunks determine the bytes. |
| Merkle.PackedBinding | moonglass-core/src/ssz/merkle.rs:58-80 | A root over packed bytes of one length binds the bytes, up to an explicit collision. |
| HashTreeRoot.MerkleizeBytes | moonglass-core/src/ssz/merkle.rs:63-80 | Packs and merkleizes bytes to the root of the tree padded to the byte limit. |
| HashTreeRoot.CollectionRoot | moonglass-core/src/ssz/collection.rs:9-38 | Merkleizes element roots, or packed encodings of basic elements, and is refused exactly when an element has no root or the byte limit overflows. |
| HashTreeRoot.PackedBitsRoot | moonglass-core/src/ssz/bitfield.rs:181-186 | The root over the packed bits of a bitfield. |
| HashTreeRoot.ContainerRoot | moonglass-core/src/containers/block.rs:210-222 | The root over the field roots, refused exactly when a field has none. |
| HashTreeRoot.ComputeRoot | moonglass-core/src/ssz/basic.rs:32-265 | Computes the root of a value of any nested type, and is refused exactly when a length misses its type, a basic value passes one chunk or a byte limit overflows. |
| HashTreeRoot.RootBinds | moonglass-core/src/ssz/list.rs:205-214 | Equal roots of two values of one type mean equal values, or two different pairs, each hashed for one of the values, with the same hash. |
| MerkleBranch.RootHasBranch | moonglass-core/src/ssz/merkle.rs:29-55 | Leaf i has a branch of the least sufficient length that folds to the root, the binary digits of i choosing the side. |
| MerkleBranch.PartStands | moonglass-core/src/ssz/collection.rs:9-38 | The root of part i of a container, vector or list stands at place i of its root, a list’s length beside the top. |
| MerkleBranch.ChunkStands | moonglass-core/src/ssz/collection.rs:26-37 | Chunk k of the packed bytes of any other value stands at place k of its root. |
| MerkleBranch.BasicRoot | moonglass-core/src/ssz/merkle.rs:170-181 | The root of a number is its digits, of a truth value one byte, then zeros. |
| MerkleBranch.LengthChunkBytes | moonglass-core/src/ssz/merkle.rs:83-87 | A length is mixed in as eight little-endian bytes and 24 zeros. |
| Committees.ComputeShuffledIndex | moonglass-core/src/state_transition/committee.rs:341-372 | The round loop equals the composed rounds; it fails out of range or past the 32-bit chunk limit. |
| Committees.RoundIsInvolution | moonglass-core/src/state_transition/committee.rs:359-369 | Every round undoes itself, for any pivot and any source bits. |
| CommitteeMeaning.RoundMeaning | moonglass-core/src/state_transition/committee.rs:359-402 | A round swaps an index with the one it sums up with to the pivot exactly when the source bit of the larger is set, bits counted from the least significant of each byte. |
| CommitteeMeaning.CommitteeSize | moonglass-core/src/state_transition/committee.rs:406-447 | Committees of an epoch differ in size by at most one. |
| Committees.ShuffleIsBijection | moonglass-core/src/state_transition/committee.rs:341-372 | The whole shuffle is inverted, both ways, by its rounds in reverse. |
| Committees.ShuffleSucceeds | moonglass-core/src/state_transition/committee.rs:387-390 | Up to 2^40 validators no round can fail. |
| Committees.ComputeCommittee | moonglass-core/src/state_transition/committee.rs:406-447 | Committee k is slice k of the shuffled set, with the error cases of the source. |
| Committees.CommitteesExist | moonglass-core/src/state_transition/committee.rs:123-151 | A committee exists exactly for indices below the committees per slot. |
| Committees.EveryValidatorSeated | moonglass-core/src/state_transition/committee.rs:123-151 | Every active validator sits in some committee of the epoch. |
| Committees.NoValidatorSeatedTwice | moonglass-core/src/state_transition/committee.rs:123-151 | Two seats of an epoch held by one validator are the same seat. |
| WithdrawalState.StateCell.GetBalanceAfterWithdrawals | moonglass-core/src/state_transition/withdrawal.rs:123-142 | The balance left after all selected withdrawals of one account, failing when their sum overflows. |
| WithdrawalState.StateCell.GetBuilderWithdrawals | moonglass-core/src/state_transition/withdrawal.rs:159-188 | From any prior selection and any starting number, phase one continues the selection exactly as the fold says. |
| WithdrawalState.StateCell.GetPendingPartialWithdrawals | moonglass-core/src/state_transition/withdrawal.rs:194-253 | Phase two likewise; ineligible due requests are consumed without a withdrawal. |
| WithdrawalState.StateCell.GetBuildersSweepWithdrawals | moonglass-core/src/state_transition/withdrawal.rs:259-307 | Phase three likewise, with the cursor wrapping round the registry. |
| WithdrawalState.StateCell.GetValidatorsSweepWithdrawals | moonglass-core/src/state_transition/withdrawal.rs:311-376 | Phase four likewise; only this phase may fill the payload. Who is paid what, TurnIsPaid says. |
| WithdrawalState.StateCell.GetExpectedWithdrawals | moonglass-core/src/state_transition/withdrawal.rs:380-410 | The four phases chained, with what each consumed; what they select, SelectionMeaning says. |
| WithdrawalMeaning.SelectionMeaning | moonglass-core/src/state_transition/withdrawal.rs:159-410 | Every payload, entry by entry: queued payments as they stand, due requests above the activation minimum, leaving builders with their balance, validators with all they have or their excess, in order, each under the next number, and each stage going as far as its entries, window and room allow. |
| SweepPayments.TurnIsPaid | moonglass-core/src/state_transition/withdrawal.rs:259-376 | A builder or validator whose turn came has exactly one sweep entry, of its index, address and due amount, if it is due anything, and none otherwise. |
| SweepPayments.VisitPaysOut | moonglass-core/src/state_transition/withdrawal.rs:353-360 | A call that visits a validator that may leave leaves it with nothing. |
| SweepPayments.LeavingValidatorPaidOut | moonglass-core/src/state_transition/withdrawal.rs:311-376 | Of any n effective calls over n validators one pays out a validator that may leave. |
| SweepPayments.CallLeaves | moonglass-core/src/state_transition/withdrawal.rs:445-500 | After a call both queues lack exactly the entries accounted for and the payload is on record. |
| SweepPayments.QueuedPaymentIsPaid | moonglass-core/src/state_transition/withdrawal.rs:159-188 | First come, first paid: the payment at position q is paid after as many full payloads as go before it. |
| WithdrawalState.StateCell.ApplyWithdrawals | moonglass-core/src/state_transition/withdrawal.rs:413-432 | Takes the withdrawals one by one in place, failing on the first unknown account. |
| WithdrawalState.StateCell.UpdateNextWithdrawalIndex | moonglass-core/src/state_transition/withdrawal.rs:435-443 | Continues after the last number used. |
| WithdrawalState.StateCell.UpdateNextBuilder | moonglass-core/src/state_transition/withdrawal.rs:503-520 | The builder cursor moves round the registry by the builders visited; without builders, or on a refusal, it stays. |
| WithdrawalState.StateCell.UpdateNextValidator | moonglass-core/src/state_transition/withdrawal.rs:523-555 | The validator cursor moves past the last withdrawal of a full payload, else past the window. |
| WithdrawalState.StateCell.ProcessWithdrawals | moonglass-core/src/state_transition/withdrawal.rs:565-581 | The whole step; an unsettled branch changes nothing. |
| WithdrawalSafety.BalanceIsExact | moonglass-core/src/state_transition/withdrawal.rs:123-142 | For a safe selection the saturating subtraction is exact. |
| WithdrawalSafety.SelectionIsSafe | moonglass-core/src/state_transition/withdrawal.rs:159-410 | At most a payload’s worth, numbered consecutively, no account overdrawn; a full payload ends in a validator-sweep entry. |
| WithdrawalSafety.AppliedTakes | moonglass-core/src/state_transition/withdrawal.rs:413-432 | Each account ends at its balance less all that is taken, or at zero; failure exactly for an unknown builder. |
| WithdrawalSafety.WithdrawalsAreSafe | moonglass-core/src/state_transition/withdrawal.rs:123-432 | Validators lose exactly what they are paid, builders at most what they hold, and a validator not yet withdrawable keeps its balance or the activation minimum. |
| WithdrawalFairness.NumberingContinues | moonglass-core/src/state_transition/withdrawal.rs:435-443 | Sequence numbers run on from payload to payload without a gap. |
| WithdrawalFairness.CursorNeverSkips | moonglass-core/src/state_transition/withdrawal.rs:523-555 | The sweep resumes right after the last validator visited, unless it visited all of them. |
| WithdrawalFairness.EveryValidatorVisited | moonglass-core/src/state_transition/withdrawal.rs:311-376 | With a fixed registry of n, any n effective calls in a row visit every validator. |
| WithdrawalFairness.BalancesAreConserved | moonglass-core/src/state_transition/withdrawal.rs:413-432 | Total validator balance drops by exactly what the payload pays to validators. |
| BuilderFairness.RoomFromQueues | moonglass-core/src/state_transition/withdrawal.rs:159-253 | Queues that are together short of a payload leave the builder sweep room; a payment queue of a payload’s length leaves none. |
| BuilderFairness.BuilderCursor | moonglass-core/src/state_transition/withdrawal.rs:259-307 | The builder cursor moves by exactly the builders visited, and moves at all exactly when the queues leave room. |
| BuilderFairness.EveryBuilderVisited | moonglass-core/src/state_transition/withdrawal.rs:259-307 | Any run of effective calls in which n have room visits each of n builders, however many calls without room come between. |
| BuilderFairness.LeavingBuilderPaidOut | moonglass-core/src/state_transition/withdrawal.rs:287-305 | Any run in which n calls have room pays out a builder that may leave. |
| BuilderFairness.FullQueuesStall | moonglass-core/src/state_transition/withdrawal.rs:159-188 | While the payment queue fills every payload, the cursor stands still and no builder is visited. |
| BuilderFairness.DueBuilderWaits | moonglass-core/src/state_transition/withdrawal.rs:259-307 | A concrete ledger whose call succeeds, leaves a due builder unvisited and unpaid, and with its payment queue refilled is such a ledger again. |
| Churn.AssignedEpochIsLeast | moonglass-core/src/state_transition/validator.rs:304-358 | The epoch given is the least whose accumulated budget covers the request, and the cursor keeps exactly the rest. |
| Churn.ExitEpochMeaning | moonglass-core/src/state_transition/validator.rs:177-358 | An exit gets the first epoch it fits by, from five epochs after the request or from the queue’s own on, and is refused exactly when there is none. |
| Churn.ExitQueue.ComputeExitEpochAndUpdateChurn | moonglass-core/src/state_transition/validator.rs:177-193 | Hands out that epoch and stores the new cursor; a refusal changes nothing. |
| Churn.EpochsNeverDecrease | moonglass-core/src/state_transition/validator.rs:304-358 | Exit epochs given by successive calls never go back. |
| Churn.ChurnIsBounded | moonglass-core/src/state_transition/validator.rs:177-193 | Over any run within a limit, stake exiting by epoch e is at most the limit times the epochs from the first assignable one through e. |
| SquareRoot.IntegerSquareRoot | moonglass-core/src/state_transition/balance.rs:461-472 | Terminates without overflow or division by zero and returns the largest x with x*x <= n, for every 64-bit n. |

## Left out

- The internals of BLS, KZG, SHA-256 and hash-to-curve: used only as arbitrary functions.
- Networking, discovery, HTTP, snappy framing, configuration files and the node binary: input and output plumbing.
- The field lists of the concrete containers: each is an instance of the container case of the SSZ universe.
- Epoch, operation, bid and payment processing: part of the abstract state transition.
- Proposer and committee sampling loops: they end only for suitable hash values.
- Fast confirmation, proposer re-org advice and `should_build_on_full`: further read-only queries of the same kind.
- The consolidation queue: the same budget function over two other fields. `initiate_validator_exit` only adds a delay to the epoch it is given.
- Host memory limits: a byte length or element count never overflows the host's index type here.
- OnAttestationInner: says nothing of the fields after a failure, because it is called on a scratch copy that is then dropped.
- OnPtcMessageInner: says nothing of the fields after a failure, because it is called on a scratch copy that is then dropped.
- OnBlockInner: says nothing of the fields after a failure, because it is called on a scratch copy that is then dropped.
- ImportWithMessages: says nothing of the fields after a failure, because it is called on a scratch copy that is then dropped.
- NotifyPtcMessages: says nothing of the fields after a failure, because it is called on a scratch copy that is then dropped.
- ReplayMessages: says nothing of the fields after a failure, because it is called on a scratch copy that is then dropped.
- ApplyWithdrawals: says nothing of the fields after a failure; the code leaves them partly updated and the caller abandons the state.
- ProcessWithdrawals: says nothing of the fields after a failure; the code leaves them partly updated and the caller abandons the state.
- Serialize: says nothing of the bytes appended when encoding fails.
- SerializeSequence: says nothing of the bytes appended when encoding fails.
- SerializeBitlist: says nothing of the bytes appended when encoding fails.
- WriteField: says nothing of the bytes appended when encoding fails.
- WithdrawalsAreSafe: for builders only the clamped form holds, since a queued payment and a sweep of the same builder can share a payload.
- CommitteeFraction: a product past 64 bits, which the code does not guard, is treated as a refusal.
- Votes for a payload do not survive a second import of the same block, which resets both vectors; nothing is claimed about their persistence.
