# Cobuild OTX planner: a verified model

This project models the planner of `cobuild-core`: the code that turns a CKB transaction and its witnesses into a
list of "this lock must sign this hash" requirements, together with the hash writers that produce those hashes, the
Molecule codec underneath, and the lock contract's `main` on top. It proves that the pieces fit: a transaction the
contract accepts has every input of the running lock under a verified signature over a hash that binds the input's
resolved cell. It also says exactly which transactions are accepted, and what equal signed hashes have in common.

## Reading order

| module | what it holds |
|---|---|
| `Base`, `Molecule`, `Entity` | bytes and little-endian numbers; one generic table, vector and fixvec codec; its instances and the witness union |
| `LazyReader`, `View`, `Mask`, `MachineBits` | the cursor reader the contract runs on, the views parsed from it, bit masks, and the machine tests they stand for |
| `LazyCodec`, `LazyExact`, `LazyVerify`, `EntityViews` | how that reader relates to the entity codec: what both accept, exactly when they differ, what the generated verifiers and the parsers ask for, and that the views hold the entities |
| `Layout`, `OtxRules`, `Collector`, `Partition` | the OTX layout in closed form, the rules of an accepted OTX bit by bit, the collector and range cursor that compute it step by step, and how its ranges tile the transaction |
| `Witness`, `Language`, `ScanExact`, `LazyFacts` | the scanner, the language of witness sequences it accepts, exactly when a context is built, and what it guarantees about the views |
| `Transaction`, `Preimage`, `HashWriter` | the transaction as a value, the preimages as stream transformers, and the writers that stream them |
| `Scope`, `Defaults`, `Faithful`, `Injective`, `Stability`, `Bound`, `Twins`, `SegmentTwin` | what a signature covers as plain data, the relation between that data and the bytes, what the bytes bind in any case, and what they do not tell apart |
| `Context`, `Plan`, `ActionHash`, `Engine`, `Actions` | the running script in the transaction, plan data, action references and hashes, the built context and its queries |
| `LockPlan`, `TypePlan`, `Entry` | the two builders against their recomputing specifications, and the contract's verdict |
| `BuiltFacts`, `ExactPlan`, `Coverage`, `Agreement`, `WriterErrors`, `FinalCheck`, `PlanSuccess`, `LockFaults`, `Binding`, `ExactVerdict`, `Signatures`, `Acceptance`, `TypeFacts`, `Related`, `TypeTargets`, `TypePlanSuccess` | theorems over every built context and every plan |

Each loop or field-updating method of the source is an imperative method here, proved equal to a specification
function, error results included. The theorems are about those functions.

## Findings

- **A base preimage does not always determine its outputs.** A covered type script is written without a length in
  front (`hash/mod.rs` lines 244-252), so an output with a type script and empty data reads like one without a type
  script whose data is the script's tail. `Twins.BasePreimageTwin` gives, for every such output of a placed OTX, a
  second valid transaction with the same base preimage, and `Twins.ContextTwin` a built context over it;
  `Stability.BasePreimageDetermines` shows that agreement on which covered outputs carry a type script is exactly
  what is missing. Message, permissions, inputs and the outputs in front of the doubtful one are bound even so
  (`Bound.BasePreimageBinds`).
- **A tx-level preimage does not contain the input count**; `Twins.TxPreimageTwin` and
  `Stability.TxPreimageDetermines` are the corresponding pair. Only the transaction hash in front separates the
  twins, and one that fixes the input count is enough (`Stability.TxPreimageDeterminesOutright`). Message, hash and
  the cells both transactions have are bound in any case (`Bound.TxPreimageBinds`).
- **A segment preimage does not say whether it covers the previous segments**, but below 2^24 inputs its bytes give
  it away: `Bound.AppendPreimageDeterminesOutright` binds everything with no further condition, and
  `SegmentTwin.BoundIsSharp` has two scopes with one encoding at 2^24 (over 700 MB
  of raw inputs).
- **The two readers differ**, so a witness the scanner accepts need not be one the entity codec accepts. The lazy
  reader does not compare a table's last offset with its total size, and of the fields it compares only 32-byte
  hashes with their expected size: an integer or byte field may be wider than its type (the first bytes are read), a
  byte vector may have slack behind its count (`LazyExact.SealSlackIsRead`), and an action's role and data are not
  looked at during the scan at all (`LazyExact.ActionRoleAndDataUnread`). An action table may even end before its
  script hash, which is then read from the bytes behind it (`LazyExact.ActionPastItsTable`); parsing its data fails.
  `LazyExact.ReadersAgreeWhenSnug` is the exact condition, for every witness. In the other direction there is none:
  `LazyCodec.EncodedWitnessIsClassified`.
- **The last planner check is redundant** (`FinalCheck.FinalCheckNeverFires`), and so is the fallback to the
  carrier's own message (`Agreement.SignedMessageIsUnique`). The unit test of that check (`engine.rs` lines
  1734-1758) reaches it only by filling the builder's fields by hand.

## Model

| member | source | states |
|---|---|---|
| Binding.AcceptedInputIsSigned | contracts/cobuild-otx-lock/src/entry.rs:22-32 | If the contract accepts, every input of its lock has a requirement in the plan that verified, that covers the input, and whose hash is the hash of an encoded scope containing the input's resolved cell |
| Coverage.EveryLockInputIsCovered | crates/cobuild-core/src/engine.rs:229-299 | If the contract accepts, every input of its lock is covered by a verified requirement: tx-level outside the OTX range or without a layout, else the base or segment of the OTX that owns it; no assumption on the witnesses |
| Coverage.OwnerDemands | crates/cobuild-core/src/engine.rs:410-518 | An input inside the OTX range has exactly one owning part, and the requirement of that part is called for |
| Coverage.OutsideDemands | crates/cobuild-core/src/engine.rs:334-350 | An input of the lock outside the OTX range calls for a tx-level requirement as soon as anything is called for |
| ExactPlan.PlanIsExact | crates/cobuild-core/src/engine.rs:229-239 | A finished plan names its lock and holds a requirement for precisely the (origin, carrier) pairs the transaction calls for, in one strict order and so none twice, each OTX one with the unique matching seal and its part's hash |
| ExactPlan.LockInputsMeaning | crates/cobuild-core/src/context.rs:104-140 | The collected input indices are those of the lock, the first is the smallest, and the range queries are questions about the transaction |
| ExactPlan.EntryRequirements | crates/cobuild-core/src/engine.rs:479-518 | One OTX adds a justified requirement for every part that holds an input of the lock, base first, then segments by index |
| PlanSuccess.PlanSucceedsExactly | crates/cobuild-core/src/engine.rs:229-549 | The planner succeeds on a built context if and only if: at most one SighashAll witness; every message parses, and has its targets if signed or concerning the lock; a called-for carrier has a readable seal and silent companions; every part that holds an input of the lock has its one readable seal; and lengths fit. The hash function does not matter |
| LockFaults.PlanFaultIsExact | crates/cobuild-core/src/engine.rs:229-549 | On a built context the planner's error is the first fault in the order of its checks, each named by what is wrong in the transaction: a speaking companion or no carrier, two messages, an unparsable message or a missing target, a length, an unreadable, missing or doubled seal, tx level first and then OTX after OTX; with no fault it succeeds |
| LockFaults.SealFaultMeaning | crates/cobuild-core/src/seal.rs:5-19 | Seal selection reports no seal, a first seal that cannot be read, or a second one, and nothing else |
| FinalCheck.FinalCheckNeverFires | crates/cobuild-core/src/engine.rs:520-549 | On every built context `plan_lock_validation` never returns MissingLockGroupCoverage, whichever other error or plan it returns |
| FinalCheck.NothingUncovered | crates/cobuild-core/src/engine.rs:241-247 | Whenever an input of the lock escapes a complete layout, a tx-level requirement is already in the plan |
| Agreement.LockGroupsAgree | crates/cobuild-core/src/engine.rs:249-296 | Tx-level requirements of two locks over one transaction carry the same hash whatever their carriers; each carrier is its group's first input and the group's other witnesses are empty or absent |
| Agreement.SignedMessageIsUnique | crates/cobuild-core/src/engine.rs:265-289 | A carrier with a message is the transaction's one SighashAll witness, so the fallback to the carrier's own message is never taken |
| Agreement.PlannedTxLevelHolds | crates/cobuild-core/src/engine.rs:260-296 | A planned tx-level requirement carries the carrier's seal and the tx-level hash over the unique message |
| LockPlan.PlanLockValidation | crates/cobuild-core/src/engine.rs:229-239 | The builder with its cache of parsed actions returns the plan, or the error, of recomputing everything at each step |
| LockPlan.LockPlanBuilder.TxLevelMessageActions | crates/cobuild-core/src/engine.rs:356-374 | A cached parse equals parsing the message of that witness; the cache invariant is kept |
| LockPlan.LockPlanBuilder.EnsureTargetsChecked | crates/cobuild-core/src/engine.rs:386-408 | With no cache, a cache of another witness or of this one, the answer is that of checking the targets now; the cache invariant is kept |
| LockPlan.LockPlanBuilder.CheckedTxLevelMessageActions | crates/cobuild-core/src/engine.rs:376-384 | Parse and check through the cache equal the uncached parse and check |
| LockPlan.LockPlanBuilder.AddTxLevelRequirement | crates/cobuild-core/src/engine.rs:241-299 | Appends exactly the recomputed tx-level requirement, or reports its error |
| LockPlan.LockPlanBuilder.AddTxLevelActions | crates/cobuild-core/src/engine.rs:301-332 | Appends exactly the tx-level actions aimed at this lock, or reports the recomputed error |
| LockPlan.LockPlanBuilder.RequiredAppendSegmentIndices | crates/cobuild-core/src/engine.rs:450-465 | Lists, in order, exactly the segments that hold an input of the lock |
| LockPlan.LockPlanBuilder.AddOtxSignatures | crates/cobuild-core/src/engine.rs:479-518 | Appends the base and segment requirements of one OTX, or reports the first error |
| LockPlan.LockPlanBuilder.AddSegmentSignatures | crates/cobuild-core/src/engine.rs:496-515 | The loop over the hit segments appends one requirement each and stops at the first error |
| LockPlan.LockPlanBuilder.AddOtxRequirement | crates/cobuild-core/src/engine.rs:422-448 | One OTX adds its actions and requirements, nothing when neither applies, and its error otherwise |
| LockPlan.LockPlanBuilder.AddOtxRequirements | crates/cobuild-core/src/engine.rs:410-420 | The loop over the OTXs appends their contributions in order and stops at the first error |
| LockPlan.LockPlanBuilder.EnsureOtxLockGroupCoverage | crates/cobuild-core/src/engine.rs:520-549 | Reports MissingLockGroupCoverage exactly when OTX requirements stand alone while an input escapes the range |
| Entry.Run | contracts/cobuild-otx-lock/src/entry.rs:22-34 | Accepts exactly when the plan exists, is not empty and every requirement verifies; otherwise the planner's error, the empty-plan error or the verification error |
| ExactVerdict.VerdictIsExact | contracts/cobuild-otx-lock/src/entry.rs:14-34 | Over every transaction, with OTXs or without: the contract accepts if and only if the witnesses scan, the planner's conditions hold, some signature is called for, and the verifier accepts, for every one called for, the seal in its place over the hash of the encoded scope |
| ExactVerdict.EveryVerdict | contracts/cobuild-otx-lock/src/entry.rs:14-34 | Each of the four verdicts with its condition, which exclude each other: accepted; nothing to sign; an answer the verifier refuses; and a core error, which is the build's or the planner's first fault |
| Acceptance.PlainVerdict | contracts/cobuild-otx-lock/src/entry.rs:14-34 | A transaction whose first input is the lock's and whose only non-empty witness is a seal-only one in front is accepted exactly when the verifier accepts that seal for the hash of the message-free tx-level scope; the only other verdict is a failed verification |
| Acceptance.SealOnlyClassified | crates/cobuild-core/src/witness.rs:50-73 | The bytes a SighashAllOnly builder prints are scanned as that carrier, and its seal is read back |
| Entry.VerifyPlan | contracts/cobuild-otx-lock/src/entry.rs:25-32 | The loop over the requirements stops at the first one that does not verify, and accepts only when all do |
| Related.LockPlanRelatesAll | crates/cobuild-core/src/engine.rs:301-332 | When both succeed, the lock plan's related actions are all actions filtered by input-lock role and hash, in order |
| Related.TypePlanRelatesAll | crates/cobuild-core/src/engine.rs:598-693 | When both succeed, the type plan's related actions, without their scopes, are the OTX part and then the tx part of all actions, filtered by either type role and hash; the scopes are those of `TypeTargets.RelatedScopesRight` |
| TypeTargets.RelatedScopesRight | crates/cobuild-core/src/engine.rs:619-693 | Each related action of a type plan carries its OTX's whole relation as scope when that relation mentions the type, and target-only otherwise; tx-level actions are always target-only |
| TypeTargets.TypeMessageTargeted | crates/cobuild-core/src/engine.rs:619-693 | Every action of a message that contributed a related action to a type plan targets a script that occurs in the transaction |
| TypeTargets.ScopedMessagesTargeted | crates/cobuild-core/src/engine.rs:619-693 | So does every action of an OTX message whose relation mentions the type, and of the unique message when the scope outside the OTXs does, contributing or not |
| TypePlanSuccess.TypePlanExactly | crates/cobuild-core/src/engine.rs:598-693 | On a built context a type plan exists if and only if there is one tx-level message at most, every message parses, and each one whose scope holds the type or that has an action for it targets scripts of the transaction; otherwise the error is the first fault, OTX after OTX and then at tx level; the plan names the type |
| TypePlanSuccess.WrongScriptRefused | crates/cobuild-core/src/context.rs:164-200 | Asked for a lock plan on a type context, or the reverse, the planner reports InvalidContextInput |
| Related.SignedMessageTargeted | crates/cobuild-core/src/engine.rs:422-447 | Every action of a message bound by a required signature targets a script that occurs in the transaction |
| Related.RelatedMessageTargeted | crates/cobuild-core/src/engine.rs:314-332 | Every action of a message that contributed a related action to a lock plan targets a script that occurs in the transaction |
| Related.TargetMeaning | crates/cobuild-core/src/context.rs:307-315 | The collected hash sets answer whether a script of that role and hash occurs in the transaction |
| Context.FromReader | crates/cobuild-core/src/context.rs:104-131 | The two passes collect the indices and hash sets that the whole-transaction specification says |
| Context.MatchingMeaning | crates/cobuild-core/src/context.rs:133-162 | The collected indices are exactly the matching ones, ascending |
| Context.ScriptContext.ValidateActionTargets | crates/cobuild-core/src/context.rs:264-274 | Succeeds exactly when every action has its target |
| Context.ScriptContext.CoveredCurrentTypeInBaseOutputs | crates/cobuild-core/src/context.rs:290-304 | The early-exit loop returns its recursive specification, errors included |
| Context.CurrentScriptContext.PushInputLockHash | crates/cobuild-core/src/context.rs:133-140 | Adds the hash, and the index exactly when the running script is that lock |
| Context.CurrentScriptContext.PushInputTypeHash | crates/cobuild-core/src/context.rs:142-149 | Adds the hash, and the index exactly when the running script is that type |
| Context.CurrentScriptContext.PushOutputTypeHash | crates/cobuild-core/src/context.rs:151-162 | Adds the hash, and the output index exactly when the running script is that type |
| TypeFacts.TypeCellIsAttributed | crates/cobuild-core/src/context.rs:209-239 | Every cell of the running type is either outside the OTX range, and the tx-level scope mentions it, or in exactly one part of exactly one OTX whose relation mentions it there |
| TypeFacts.TypePresentIffMentioned | crates/cobuild-core/src/engine.rs:619-719 | The type occurs in the transaction if and only if the tx-level scope or some OTX relation mentions it |
| TypeFacts.RelationMeaning | crates/cobuild-core/src/context.rs:209-220 | On an accepted OTX the relation never fails; `output_type_in_base_covered` holds exactly when some base output of the type is covered by the mask, and implies `output_type_in_base` |
| TypeFacts.PresenceFlagsMeaning | crates/cobuild-core/src/context.rs:209-220 | In a built context each of the four presence flags holds exactly when some input, or output, of that range of the OTX has the type in the transaction |
| TypeFacts.CoveredFromMeaning | crates/cobuild-core/src/context.rs:290-304 | The early-exit loop answers whether some base output of the type from here on is covered |
| TypePlan.PlanTypeValidation | crates/cobuild-core/src/engine.rs:598-605 | The type builder returns the recomputed plan, or its error |
| TypePlan.TypePlanBuilder.AddOtxAction | crates/cobuild-core/src/engine.rs:619-637 | One OTX adds its type actions with the relation as scope, nothing when unrelated, or the error |
| TypePlan.TypePlanBuilder.AddOtxActions | crates/cobuild-core/src/engine.rs:607-617 | The loop over the OTXs appends their type actions in order and stops at the first error |
| TypePlan.TypePlanBuilder.AddTxLevelActions | crates/cobuild-core/src/engine.rs:654-693 | Appends the tx-level type actions, all as target-only |
| Engine.BuildContext | crates/cobuild-core/src/engine.rs:30-52 | Building collects the script context and scans every witness, or reports the first scan error |
| Engine.CollectAllActions | crates/cobuild-core/src/engine.rs:119-130 | The loop returns tx-level actions and then each OTX's, or the first error |
| Engine.FindReturnsEachAction | crates/cobuild-core/src/engine.rs:87-117 | Every action of `all_actions` is returned by `find_action` on its own reference |
| Actions.FindExactly | crates/cobuild-core/src/engine.rs:87-117 | When all actions can be listed, `find_action` returns an action exactly if it is one of them and carries the reference asked for, and reports ActionNotFound otherwise |
| Actions.FoundCarriesRef | crates/cobuild-core/src/engine.rs:87-117 | Whatever `find_action` returns, on any context, carries the reference asked for |
| Actions.AllActionsExactly | crates/cobuild-core/src/engine.rs:119-130 | All actions can be listed if and only if there is one tx-level message at most and every message parses and targets scripts of the transaction |
| Actions.AllActionsFault | crates/cobuild-core/src/engine.rs:119-130 | Otherwise the error is the first fault, tx level first and then OTX after OTX |
| Actions.RoleBytes | crates/cobuild-core/src/protocol.rs:6-26 | Role bytes 0, 1 and 2 are read as the role whose byte they are written as; any other is InvalidMessageTarget |
| Actions.RawInputFields | crates/cobuild-core/src/hash/mod.rs:352-374 | The raw input of a segment is 44 bytes: since, then the previous output |
| BuiltFacts.BuiltRefsAscend | crates/cobuild-core/src/engine.rs:62-130 | In a built context all action references differ pairwise, and the OTX ones, like the tx-level ones, strictly ascend |
| Engine.FilterActions | crates/cobuild-core/src/engine.rs:175-202 | The filtering pass returns the matching actions in order |
| View.ActionLookup | crates/cobuild-core/src/view.rs:307-352 | Parsing one action by index agrees with parsing the whole message, and every view carries its index |
| Plan.RefsTotallyOrdered | crates/cobuild-core/src/plan.rs:166-192 | The order of references is irreflexive, transitive, and total, and agrees with equality |
| Plan.OrderSpelledOut | crates/cobuild-core/src/plan.rs:166-192 | References go by witness; at one witness a tx-level one comes first; two of a kind go by OTX and then by action |
| BuiltFacts.ClassificationIsOwnership | crates/cobuild-core/src/plan.rs:285-385 | Classifying an index in an action's layout names the owning part, and the merged range is exactly what the parts own |
| ActionHash.ComputeActionHash | crates/cobuild-core/src/plan.rs:100-115 | The hasher receives exactly the specified bytes, or the writers' first error is returned |
| ActionHash.ActionPreimageDetermines | crates/cobuild-core/src/plan.rs:100-151 | Two action preimages are equal if and only if reference and content are |
| Actions.ActionHashFault | crates/cobuild-core/src/plan.rs:100-151 | An action hash fails with HashInputTooLarge exactly for a number or length above four bytes, and else with MalformedCobuild exactly for unreadable data |
| Plan.FindUniqueLockSeal | crates/cobuild-core/src/seal.rs:5-19 | The selection loop returns its recursive specification, with the same first error |
| Plan.UniqueLockSealMeaning | crates/cobuild-core/src/seal.rs:5-19 | Selection returns bytes exactly when one seal alone names the lock and can be read, and they are its bytes |
| Language.ScanLanguage | crates/cobuild-core/src/layout.rs:126-219 | Over every witness sequence: no layout exactly when no OTX-kind witness occurs; a complete one exactly for one start directly followed by at least one OTX, all valid and fitting; every other shape is an error |
| Language.CollectLanguage | crates/cobuild-core/src/layout.rs:198-219 | The collector accepts exactly no OTX-kind witnesses, or one start at s with the OTXs at s+1..s+n and no others |
| Language.CollectedMirrors | crates/cobuild-core/src/layout.rs:198-219 | OTX k of the collected block is the witness at s+1+k |
| Language.FinishLanguage | crates/cobuild-core/src/layout.rs:138-180 | `finish` returns None exactly without OTX-kind witnesses, and a layout exactly for a non-empty block of valid OTXs that fits |
| ScanExact.LegacyExactly | crates/cobuild-core/src/witness.rs:192-243 | A non-empty witness is legacy exactly when it is shorter than four bytes or starts with none of the four variant ids; one that starts with one and does not verify is refused with InvalidOtxLayout |
| ScanExact.BuildSucceedsExactly | crates/cobuild-core/src/engine.rs:30-52 | A context is built if and only if every witness is empty, legacy, or readable as the variant it names, and those of the OTX kinds are none or one start directly followed by rule-abiding OTXs that fit the transaction, kind by kind |
| ScanExact.BuildError | crates/cobuild-core/src/engine.rs:30-52 | A failing build reports InvalidOtxLayout, or MalformedCobuild and then some verified witness has a field that cannot be read |
| ScanExact.FlagMeaning | crates/cobuild-core/src/witness.rs:103-108 | The has-Cobuild flag is set exactly when some witness starts with a variant id |
| ScanExact.StandsWhereStartSays | crates/cobuild-core/src/layout.rs:138-180 | OTX i is read from the i-th witness behind the start; the first stands at the start's four numbers, each other right behind the one before, kind by kind |
| Collector.OtxLayoutCollector.RecordCobuildLayout | crates/cobuild-core/src/layout.rs:126-136 | One witness moves the collector as the transition function says, or its error is reported |
| Collector.OtxLayoutCollector.PushOtxStart | crates/cobuild-core/src/layout.rs:198-206 | Accepts a start exactly when there was none |
| Collector.OtxLayoutCollector.PushOtx | crates/cobuild-core/src/layout.rs:208-219 | Accepts an OTX exactly when it directly follows the last layout witness |
| Collector.OtxLayoutCollector.Finish | crates/cobuild-core/src/layout.rs:138-180 | Returns the closed-form layout, or the specified error |
| Collector.OtxLayoutCollector.TakeEntries | crates/cobuild-core/src/layout.rs:152-162 | The fold over the OTXs yields the closed-form entries and counters, and fails exactly when some OTX is invalid |
| Collector.LayoutRangeCursor.TakeRanges | crates/cobuild-core/src/layout.rs:291-298 | Hands out the next ranges and advances the four counters by their counts |
| Collector.LayoutRangeCursor.TakeLayout | crates/cobuild-core/src/layout.rs:239-289 | Slices base and segments off the counters in closed form; fails exactly on a reserved flag bit |
| Collector.LayoutRangeCursor.EnsureWithin | crates/cobuild-core/src/layout.rs:300-321 | Succeeds exactly when all four counters are within the transaction |
| Collector.ValidateOtxView | crates/cobuild-core/src/layout.rs:323-355 | Accepts exactly: base inputs present, no reserved bit, only the last segment closes, appended kinds permitted, masks exact |
| OtxRules.AcceptedExactly | crates/cobuild-core/src/layout.rs:323-355 | An OTX is accepted exactly when it keeps the rules spelled out with the protocol's bits: base inputs, no reserved permission or flag bit, bit 0x01 on every segment but the last, 0x01, 0x02, 0x04 or 0x08 of the permissions for each appended kind, exact masks |
| OtxRules.BuiltOtxKeepsRules | crates/cobuild-core/src/layout.rs:138-162 | Every OTX of a built context keeps those rules |
| OtxRules.FlagBits | crates/cobuild-core/src/protocol.rs:56-81 | Bit 0x01 of a segment's flags allows more segments after it, bit 0x02 covers the previous ones |
| Partition.RangesPartition | crates/cobuild-core/src/layout.rs:138-180 | For each kind an index lies in the OTX range if and only if some part of some OTX owns it, and the owner is unique |
| Partition.AppendRangeIsItsSegments | crates/cobuild-core/src/layout.rs:250-288 | Base and segment ranges of an OTX stand end to end, and the append range is exactly its segments |
| Partition.PartsWithinTransaction | crates/cobuild-core/src/layout.rs:300-321 | No part of an accepted layout reaches past the transaction counts |
| Partition.ArithmeticStaysBelow64Bits | crates/cobuild-core/src/layout.rs:239-298 | With u32 fields and fewer than 2^32 ranges, every counter, range end and mask bit count stays below 2^64 |
| BuiltFacts.BuiltArithmetic | crates/cobuild-core/src/layout.rs:19-46 | The same for every layout a context is built with |
| Witness.CobuildWitnessScanner.PushWitness | crates/cobuild-core/src/witness.rs:50-73 | One witness moves the scanner as its classification says, or the error is reported |
| Witness.CobuildWitnessScanner.RecordWitnessSummary | crates/cobuild-core/src/witness.rs:103-108 | The flag is set exactly when some recorded witness is a Cobuild layout |
| Witness.CobuildWitnessScanner.Finish | crates/cobuild-core/src/witness.rs:75-92 | Returns the summaries, the flag and the collector's layout, or its error |
| Witness.ScanWitnesses | crates/cobuild-core/src/engine.rs:34-44 | The scanning loop returns the scan of the classified witnesses, or the first error |
| Witness.WitnessScan.FindUniqueMessage | crates/cobuild-core/src/witness.rs:131-147 | The search loop returns its recursive specification |
| Witness.UniqueMessageMeaning | crates/cobuild-core/src/witness.rs:131-147 | None exactly without SighashAll, the position and message of the only one, DuplicateSighashAll exactly for two or more |
| Witness.WitnessScan.EnsureNonCarrierWitnessesEmpty | crates/cobuild-core/src/witness.rs:172-190 | Succeeds exactly when every other listed witness is empty or absent |
| BuiltFacts.LayoutOrigin | crates/cobuild-core/src/engine.rs:30-52 | A built layout is that of a start witness and the valid OTX witnesses right behind it, within the transaction |
| BuiltFacts.CompleteLayoutSetsFlag | crates/cobuild-core/src/witness.rs:103-108 | A complete layout forces the has-Cobuild flag |
| BuiltFacts.EntrySound | crates/cobuild-core/src/engine.rs:30-52 | Every entry of a built layout is valid, has u32 fields, a readable self-delimiting message, and parts inside the transaction |
| HashWriter.ComputeOtxBaseHash | crates/cobuild-core/src/hash/mod.rs:73-88 | Hashes exactly the specified base preimage, or returns the first writer error |
| HashWriter.ComputeAppendSegmentHash | crates/cobuild-core/src/hash/mod.rs:90-132 | Hashes exactly the specified append preimage, or returns the first writer error |
| HashWriter.ComputeTxSigningHash | crates/cobuild-core/src/hash/mod.rs:34-66 | Hashes exactly the specified tx-level preimage under the personalisation of its message, or returns the first error |
| HashWriter.WriteCursor | crates/cobuild-core/src/reader.rs:57-83 | Streaming a window in 256-byte chunks appends all its bytes, or reports the caller's error |
| HashWriter.WriteCount | crates/cobuild-core/src/hash/writer.rs:6-9 | Appends the four-byte count, or HashInputTooLarge |
| HashWriter.WriteLenPrefixed | crates/cobuild-core/src/hash/writer.rs:28-35 | Appends length and bytes, or HashInputTooLarge |
| HashWriter.WriteOtxBaseInputCells | crates/cobuild-core/src/hash/mod.rs:164-210 | Loop: count, mask, then each input with its masked fields and resolved cell |
| HashWriter.WriteOtxBaseOutputCells | crates/cobuild-core/src/hash/mod.rs:212-265 | Loop: count, mask, then each output with its masked fields |
| HashWriter.WriteOtxBaseCellDeps | crates/cobuild-core/src/hash/mod.rs:267-286 | Loop: count, mask, then each cell dep or its default |
| HashWriter.WriteOtxBaseHeaderDeps | crates/cobuild-core/src/hash/mod.rs:288-306 | Loop: count, mask, then each header dep or its default |
| HashWriter.WriteOtxAppendSegmentEntities | crates/cobuild-core/src/hash/mod.rs:308-350 | The four entity lists of a segment in order, or InvalidOtxLayout |
| HashWriter.WriteOtxAppendSegmentInputCells | crates/cobuild-core/src/hash/mod.rs:352-374 | Loop: count, then each raw input with its resolved cell |
| HashWriter.WriteOtxAppendSegmentOutputCells | crates/cobuild-core/src/hash/mod.rs:376-396 | Loop: count, then each raw output with its data |
| HashWriter.WriteOtxAppendSegmentCellDeps | crates/cobuild-core/src/hash/mod.rs:398-412 | Loop: count, then each cell dep |
| HashWriter.WriteOtxAppendSegmentHeaderDeps | crates/cobuild-core/src/hash/mod.rs:414-427 | Loop: count, then each header dep |
| HashWriter.WritePreviousSegments | crates/cobuild-core/src/hash/mod.rs:108-127 | Loop: the number of previous segments, then each with its flags |
| Base.CheckedLenPrefix | crates/cobuild-core/src/hash/mod.rs:68-71 | Four bytes that decode to the length exactly when it is below 2^32, else HashInputTooLarge |
| Faithful.BasePreimageIsScope | crates/cobuild-core/src/hash/mod.rs:73-88 | On a placed OTX the base preimage is the encoding of its scope; the only error is a length above four bytes |
| Faithful.AppendPreimageIsScope | crates/cobuild-core/src/hash/mod.rs:90-132 | The same of an append segment |
| Faithful.TxPreimageIsScope | crates/cobuild-core/src/hash/mod.rs:34-66 | The same of the tx-level preimage |
| Binding.BuiltHashesNeverFault | crates/cobuild-core/src/hash/mod.rs:164-306 | On a built layout the OTX hashes never report InvalidOtxLayout or MissingHashInput and never ask past the transaction; they are the hashes of the encoded scopes |
| Defaults.DefaultIsPrinted | crates/cobuild-core/src/hash/mod.rs:148-154 | The bytes hashed for an uncovered lock are the offset table of a zero code hash, hash type zero and empty arguments |
| Defaults.DefaultIsBuilt | crates/cobuild-core/src/hash/mod.rs:148-154 | They are what the Script schema builds for its default value, and its exact reader accepts them and reads that value back |
| Binding.RelocatedOtxKeepsItsHash | crates/cobuild-core/src/hash/mod.rs:73-88 | Between two built contexts an OTX with the same covered content keeps its base hash, wherever the layouts put it |
| Stability.BaseRelocation | crates/cobuild-core/src/hash/mod.rs:164-306 | Start offsets, surrounding OTXs, masked-out fields, seals and segments do not reach the base preimage |
| Stability.BasePreimageDetermines | crates/cobuild-core/src/hash/mod.rs:73-88 | Equal base preimages mean the same covered content if and only if the covered outputs agree on which carry a type script |
| Bound.BasePreimageBinds | crates/cobuild-core/src/hash/mod.rs:73-88 | With or without that agreement, equal base preimages mean the same message, permissions, masks and counts of inputs and outputs, every covered input field and resolved cell, all outputs before the first that disagree on a type script, and that output's capacity and lock |
| Injective.BaseInjective | crates/cobuild-core/src/hash/mod.rs:244-262 | The same of scopes: equal encodings are equal scopes exactly under that agreement |
| Injective.TypeBoundaryAmbiguous | crates/cobuild-core/src/hash/mod.rs:244-252 | Without the agreement it fails: every covered type script with empty covered data gives a second valid scope with the same encoding, since the script has no length prefix |
| Twins.BasePreimageTwin | crates/cobuild-core/src/hash/mod.rs:244-262 | The same of transactions: a placed OTX over a valid transaction, with such an output, has the same base preimage over another valid transaction whose covered output differs |
| Twins.ContextTwin | crates/cobuild-core/src/hash/mod.rs:244-262 | The same of built contexts: over the twin transaction the context builds with the same OTXs at the same places, and the OTX has the same base hash over a different covered output |
| Stability.AppendPreimageDetermines | crates/cobuild-core/src/hash/mod.rs:105-129 | At any sites, accepted or not, equal append preimages mean the same base hash, flags and covered entities if and only if both segments cover the previous ones or neither does |
| Bound.AppendPreimageDeterminesOutright | crates/cobuild-core/src/hash/mod.rs:105-129 | For accepted OTXs whose two segments have fewer than 2^24 inputs of their own, equal append preimages mean the same base hash, flags and covered entities with no condition on coverage |
| Bound.AppendInjectiveOutright | crates/cobuild-core/src/hash/mod.rs:105-129 | The scope-level form: below 2^24 inputs a covering segment never reads as an own-only one |
| SegmentTwin.BoundIsSharp | crates/cobuild-core/src/hash/mod.rs:105-129 | The bound cannot be raised: an own-only scope with 2^24 inputs and a covering one, both valid and flagged as accepted views are, have one encoding |
| Stability.CoveringSegmentBindsPosition | crates/cobuild-core/src/hash/mod.rs:108-127 | A segment that covers the previous ones binds its index and every earlier segment |
| Stability.LaterSegmentsDoNotMatter | crates/cobuild-core/src/hash/mod.rs:108-129 | A segment's preimage is unchanged by adding, removing or editing later segments |
| Stability.OwnOnlySegmentMoves | crates/cobuild-core/src/hash/mod.rs:108-129 | An own-only segment's preimage depends neither on its position nor on other segments |
| Stability.ClosingSegmentIsLast | crates/cobuild-core/src/layout.rs:332-341 | In an accepted OTX a segment without the allow-more flag is the last |
| Stability.TxPreimageDetermines | crates/cobuild-core/src/hash/mod.rs:34-66 | Equal tx-level preimages of one personalisation mean the same message, hash, cells and trailing witnesses if and only if the input counts agree |
| Bound.TxPreimageBinds | crates/cobuild-core/src/hash/mod.rs:34-66 | Whatever the input counts, equal tx-level preimages of one personalisation mean the same message, the same transaction hash and the same resolved cell at every index both transactions have |
| Bound.TrailingWitnesses | crates/cobuild-core/src/hash/mod.rs:44-63 | The tx-level scope holds every witness behind the last input, in order, and no other |
| Injective.AppendInjective | crates/cobuild-core/src/hash/mod.rs:105-129 | The scope-level form of append injectivity |
| Injective.TxInjective | crates/cobuild-core/src/hash/mod.rs:41-63 | The scope-level form of tx-level injectivity |
| Injective.CellBoundaryAmbiguous | crates/cobuild-core/src/hash/mod.rs:44-63 | With different input counts it fails: a last cell without data reads as a trailing witness, since no input count is written |
| Twins.TxPreimageTwin | crates/cobuild-core/src/hash/mod.rs:44-63 | The same of transactions: one whose last input has no data has the tx-level preimage of another valid one with one input fewer, if both are given one transaction hash |
| Stability.TxPreimageDeterminesOutright | crates/cobuild-core/src/hash/mod.rs:34-66 | Where the transaction hash fixes the input count, equal tx-level preimages always mean the same message, hash, cells and trailing witnesses |
| Signatures.EqualHashesSignAlike | crates/cobuild-core/src/hash/mod.rs:34-132 | Where no two hashed inputs collide, planned requirements with equal hashes, in two transactions, are of one origin kind and bind what that kind always binds (message, permissions, inputs and the front of the outputs; or message, transaction hash and common cells; or the whole segment below 2^24 inputs), and the rest exactly under the condition of the kind; a segment hash binds its OTX's base content through the base hash |
| Injective.OutputRawInjective | crates/cobuild-core/src/hash/mod.rs:376-396 | The raw bytes of an output determine capacity, lock and type script |
| Mask.MaskCanonical | crates/cobuild-core/src/view.rs:205-243 | `validate` plus reading every bit back holds of exactly one byte string for each bit vector |
| Mask.ValidMasksArePackings | crates/cobuild-core/src/view.rs:225-243 | `validate(n)` accepts exactly the packings of the n-bit vectors |
| MachineBits.BitIsMachineTest | crates/cobuild-core/src/protocol.rs:36-42 | The k-th binary digit of a byte is set exactly when the byte and 1 << k have a bit in common |
| MachineBits.ReservedBits | crates/cobuild-core/src/protocol.rs:45-94 | Permissions and flags are valid exactly when the complement of the allowed mask finds no bit in them |
| MachineBits.ValidateIsMachineMask | crates/cobuild-core/src/view.rs:225-243 | `validate` accepts exactly masks of the right length whose last byte has no bit outside the shifted mask |
| MachineBits.GetIsMachineTest | crates/cobuild-core/src/view.rs:204-211 | `get` reports the shifted bit of the indexed byte, or InvalidOtxLayout past the end |
| Molecule.BuildThenParse | crates/cobuild-types/src/entity/core.rs:592-618 | What a builder prints below 2^32 bytes its reader accepts, exactly and compatibly, and the accessors return the fields |
| Molecule.ParseThenBuild | crates/cobuild-types/src/entity/core.rs:3222-3337 | Rebuilding what the exact reader accepted gives the same bytes |
| Molecule.VerifyIsImageOfBuild | crates/cobuild-types/src/entity/core.rs:510-552 | The exact reader accepts precisely the images of the builder |
| Molecule.SplitOffsetted | crates/cobuild-types/src/entity/core.rs:3222-3300 | An offset table splits back into exactly the parts it was printed from |
| Molecule.JoinItems | crates/cobuild-types/src/entity/core.rs:3499-3546 | An accepted offset table is canonical: printing its items gives its bytes |
| Molecule.ExactIsCompatible | crates/cobuild-types/src/entity/core.rs:3499-3546 | Whatever is accepted exactly is accepted in compatible mode |
| Entity.SchemasWellFormed | crates/cobuild-types/src/entity/core.rs:3563-3648 | Every modelled entity schema is one the round trips apply to |
| Entity.WriteTable | crates/cobuild-types/src/entity/core.rs:3668-3711 | The table writer's three passes print total size, offsets and fields |
| Entity.WriteDynVec | crates/cobuild-types/src/entity/core.rs:592-617 | The vector writer prints the bare size for the empty vector, else an offset table |
| Entity.ReadOffsets | crates/cobuild-types/src/entity/core.rs:3499-3525 | The reader's offset pass succeeds exactly when the header is sound and the offsets ascend |
| Entity.VerifyEntity | crates/cobuild-types/src/entity/core.rs:3499-3546 | The recursive reader returns the specified verdict for every schema, in both modes |
| Entity.WitnessBuildThenParse | crates/cobuild-types/src/entity/witness.rs:163-178 | A built witness is accepted, and variant and contents are read back |
| Entity.WitnessParseThenBuild | crates/cobuild-types/src/entity/witness.rs:133-149 | An exactly accepted witness is rebuilt byte for byte |
| LazyCodec.EncodedWitnessIsClassified | crates/cobuild-core/src/view.rs:254-263 | The scanner recognises every exactly encoded witness, and its summary and layout meaning exist |
| LazyCodec.BuiltWitnessIsClassified | crates/cobuild-types/src/lazy_reader/witness.rs:10-25 | Whatever a witness builder prints the planner classifies as that variant |
| LazyCodec.OtxAgrees | crates/cobuild-core/src/view.rs:379-430 | On an exactly encoded OTX the lazy view succeeds and holds the entity's own message, permissions, counts and masks |
| EntityViews.OtxViewIsEntity | crates/cobuild-core/src/view.rs:379-430 | And the rest of it: every append segment with its flags, counts and seals, and every base seal, in order, are the entity's |
| EntityViews.MessageActionsAreEntity | crates/cobuild-core/src/view.rs:307-352 | On an exactly encoded message, parsing the actions succeeds exactly when every role byte is known, yields the entity's actions, and fails with InvalidMessageTarget otherwise |
| LazyCodec.SliceInWindow | crates/cobuild-types/src/lazy_reader/support.rs:440-476 | Lazy slicing of an accepted table is a window onto the same item the entity accessor returns |
| LazyExact.ReadersAgreeWhenSnug | crates/cobuild-core/src/view.rs:254-263 | For every witness: the entity codec accepts it if and only if `from_cursor` does and every leaf is snug: each integer and byte field has its size, each byte vector four bytes and its count, down to actions, segments and seals |
| LazyExact.CompatibleAddsNothing | crates/cobuild-types/src/entity/witness.rs:133-149 | On a witness the scanner accepts, the entity codec's two modes agree |
| LazyExact.StartIsReadIffWide | crates/cobuild-types/src/lazy_reader/core.rs:462-492 | The scanner verifies and reads a start table exactly when it is an offset table of four fields of four bytes or more |
| LazyCodec.LazyReadsWiderIntegers | crates/cobuild-types/src/lazy_reader/core.rs:485-492 | Of such a table the lazy reader takes the first four bytes of each field; the entity codec accepts it exactly when every field has just four |
| LazyExact.SealSlackIsRead | crates/cobuild-types/src/lazy_reader/core.rs:190-203 | A seal field with bytes behind its count is read as that seal, while the entity codec accepts the witness, in either mode, exactly when there are none |
| LazyExact.ActionRoleAndDataUnread | crates/cobuild-types/src/lazy_reader/core.rs:38-48 | The scan accepts an action table whatever its role and data fields hold; the entity codec asks for one role byte and snug data |
| LazyExact.ActionPastItsTable | crates/cobuild-types/src/lazy_reader/support.rs:285-317 | The scan accepts an action table that ends behind its role, and takes the script hash from the 32 bytes behind the table; its data cannot be read, and the entity codec refuses it in both modes |
| LazyVerify.VerifiedExactly | crates/cobuild-types/src/lazy_reader/witness.rs:27-47 | Each generated lazy verifier is one generic check of its schema: sound headers all the way down, reachable vector items and inner tables, 32-byte fields of that size, and nothing else |
| LazyVerify.OtxReadExactly | crates/cobuild-core/src/view.rs:379-430 | The OTX view exists exactly when its message is there and every other field, down to segments and seals, is wide enough to read and the masks' bytes are there |
| LazyVerify.ActionsReadExactly | crates/cobuild-core/src/view.rs:307-352 | The actions of a message parse exactly when each can be reached, each field is wide enough, and each role byte is at most two |
| LazyFacts.SliceInside | crates/cobuild-types/src/lazy_reader/support.rs:285-317 | The lazy table check leaves the last offset open, but once the last field is read every field lies inside the table |
| LazyFacts.ClassifyGood | crates/cobuild-core/src/witness.rs:50-73 | A classified witness has u32 fields and a readable message that carries its own length, and an OTX-kind one counts as Cobuild |
| View.ParseActions | crates/cobuild-core/src/view.rs:307-319 | The parsing loop returns all action views or the first error |
| View.ParseLockSeals | crates/cobuild-core/src/view.rs:395-406 | The parsing loop returns all seals or the first error |
| View.ParseAppendSegments | crates/cobuild-core/src/view.rs:380-393 | The parsing loop returns all segments or the first error |

## Left out

- Machine integers: counters, indices and sizes are unbounded naturals; `Partition.ArithmeticStaysBelow64Bits` shows that the unchecked additions of the layout fold do not reach 2^64. Cursor offset overflow, reported by the lazy reader as an error, is not modelled.
- Verification error kinds: the entity readers' and lazy readers' `verify` are modelled as accept or refuse; which molecule error is reported is not, because every caller maps it to one error.
- Lazy compatible mode: the lazy `verify(true)` is not modelled; the planner calls it with false only.
- The cursor's read cache (`support.rs` lines 145-178): a read returns the bytes of the source; no cache state.
- Syscalls (`syscalls.rs`): the transaction is an immutable value whose reads below the counts succeed and whose cells, inputs and deps are plain bytes; how the syscalls produce them, and their error codes, are left out.
- `Binding.AcceptedInputIsSigned` and the other theorems that mention `Readable` assume that a witness cursor does not reach past its witness, which is how the syscall reader sizes it; `Coverage.EveryLockInputIsCovered`, `ExactPlan.PlanIsExact` and `FinalCheck.FinalCheckNeverFires` need no such assumption.
- Injectivity at transaction level assumes what consensus guarantees about encodings (`Transaction.Tx.Valid`): since and out-point of fixed size, cell deps of 37 bytes, resolved outputs and scripts that are Molecule tables.
- Blake2b is any function of personalisation and bytes, and signature verification any predicate of seal and hash; their cryptographic strength is not part of this model. `Signatures.EqualHashesSignAlike` assumes that the inputs hashed for its two contexts, a finite list, do not collide.
- Script arguments, exit codes and program start-up of the lock contract (`args.rs`, `error.rs`, `main.rs`).
- Entity accessors, setters, iterators and display code: one schema-driven accessor (`Parse`) stands for the generated ones; block and header types of `entity/blockchain.rs` are left out.
- Capacity hints of vectors and cloning of cached actions: values are shared, so cost is not modelled.
- `actions_for`, `unique_action_for` and `unique_related_action`: one-line filters over lists whose contents are proved here.
