# Tagged branch target buffer with two-bit predictors

This project models the branch predictor of a pipeline simulator (`bp.cpp`) and proves properties of the model. The predictor is a tagged branch target buffer (BTB). Each entry holds:
- a valid flag (`is_empty`);
- a tag;
- a 32-bit target;
- a link to a history register, from either a per-entry pool or a single global register;
- a link to a table of two-bit saturating counters, from either a per-entry pool or a single global table.

A counter table has 2^historySize counters, and the history register selects one of them. When the table is global, the index can be mixed with address bits by XOR ("gshare"). The mixing uses the address bits from bit 3 (sharing mode 1) or from bit 17 (any other non-zero mode). Throughout this README address bits are numbered from 1 for the least significant bit, as `bitExtracted`'s position argument counts them; bits 1 and 2 are the byte offset within an instruction word.

The predictor has four operations:
- `BP_init` configures and allocates it;
- `BP_predict` counts a branch and answers taken/target or fall-through;
- `BP_update` does four things in order: it counts a flush on a misprediction, resets the private table and history on a tag miss, trains one counter and shifts the history, and writes tag and target into the entry;
- `BP_GetStats` reports the storage cost in bits and the two counters.

Modules:
- `Bits` (bits.dfy) has unsigned 32-bit words, powers of two, floor log2, shifts, bitwise AND and XOR defined bit by bit, and `bitExtracted`. It also proves that the extracted field is `(n >> (p-1)) mod 2^k`.
- `Fsm` (fsm.dfy) has the four-state counter `enum prediction` and its transition.
- `History` (history.dfy) has the history shift register.
- `BtbSpec` (btb_spec.dfy) is the predictor as a state machine over values. It has:
  - the configuration and the state (entries, history pool, table pool, counters);
  - the invariant `WellFormed`;
  - the address decomposition and `getPredictionIndex`;
  - one function for each operation and each step of `BP_update`;
  - the lemmas about them.
- `Predictor` (predictor.dfy) is the class `Btb`, written imperatively like the source. Its pieces:
  - entries are a sequence of `Entry` values;
  - the history pool is an array;
  - each counter table is a separately allocated array;
  - entries refer to pool members by index, where the source uses a pointer;
  - the constructor is `BP_init`, and the methods are `Predict`, `Update` and `GetStats`.

  Each method is proved to take the object's abstract state exactly to the `BtbSpec` function of the old state. `Update` is split into its four steps, each proved against its own step function.
- `Scenarios` (scenarios.dfy) holds worked runs. They cover the first use of an entry, a streak of taken outcomes, gshare separation, and concrete address fields for 0x1000 and 0x1008 in an 8-entry BTB with 4-bit tags.

One might expect two taken updates of one branch to drive its counter from weakly-not-taken through weakly-taken to strongly-taken, so that the next prediction is "taken". The code does not do that when each entry has its own history. Every update shifts the history, so successive updates train different counters. With a 2-bit history that starts at 0, the slots trained are 0, then 1, then 3. Suppose slot 3 starts weakly not taken (WNT), as it does when WNT is the initial state. After two taken updates the prediction reads slot 3, which is still WNT, so it falls through. Only after the third update, which moves slot 3 to WT, is the branch predicted taken. If the initial state is SNT, the third update only reaches WNT and the branch still falls through. The model follows the code: `Scenarios.TakenStreak` proves this behaviour, `Scenarios.TakenStep` proves that each update is such a step, and `Scenarios.TakenStreakOfUpdates` chains three calls of the update to the same effect.

## Model

| member | source | states |
|---|---|---|
| Bits.BitExtracted | bp.cpp:17-19 | the mask `(1<<k)-1` applied to `number >> (p-1)` yields exactly the k low bits of the shifted number, a value below 2^k |
| Bits.BitExtractedIsField | bp.cpp:17-19 | the extracted field equals `(number / 2^(p-1)) mod 2^k` |
| Bits.AndLowMask | bp.cpp:18 | AND with `2^k - 1` keeps exactly the k low bits of the other operand |
| Bits.Log2 | bp.cpp:149-150 | the index width taken from `log2(entries.size())` is the floor log2: `2^r <= n < 2^(r+1)` |
| Bits.Log2OfPow2 | bp.cpp:149-150 | for a power-of-two table size the index width is exactly the exponent |
| Bits.Shr | bp.cpp:18 | `number >> (p-1)` on an unsigned operand, defined as repeated halving; the result is never larger than the operand |
| Bits.And | bp.cpp:18 | C's `&` on unsigned operands, defined bit by bit; the result is at most either operand |
| Bits.Xor | bp.cpp:84 | C's `^` on unsigned operands, defined bit by bit (its bound and injectivity are the two lemmas below) |
| Bits.XorBound | bp.cpp:84 | XOR of the address bits and a history, both below 2^historySize, stays below 2^historySize |
| Bits.XorInjective | bp.cpp:84 | XOR with a fixed history sends distinct address bits to distinct indices |
| Fsm.FromCode | bp.cpp:103-104 | the cast `prediction(fsmState)` of a code 0..3 is the enumerator with that numeric value |
| Fsm.FromCodeOfRank | bp.cpp:24 | the cast of an enumerator's numeric value gives back that enumerator, so each code 0..3 names exactly one counter state |
| Fsm.PredictsTaken | bp.cpp:159-163 | the direction test of `BP_predict`: a counter predicts taken unless it is WNT or SNT |
| Fsm.Next | bp.cpp:187-194 | a taken outcome moves the counter one step towards ST and saturates there; a not-taken outcome moves it one step towards SNT and saturates there |
| Fsm.PredictsTakenIsUpperHalf | bp.cpp:159-165 | a counter predicts taken exactly when it is WT or ST, the upper half of the order |
| Fsm.FlipOnlyFromWeak | bp.cpp:187-194 | one outcome changes the predicted direction only from a weak state, and then to the outcome's direction |
| Fsm.TwoOutcomesDecide | bp.cpp:187-194 | two equal outcomes in a row always make the counter predict that outcome |
| History.ShiftHistory | bp.cpp:196-197 | the new history is `2*h + outcome` truncated to historySize bits: below 2^historySize, the lowest bit is the outcome and the bits above it are the old history's low historySize-1 bits |
| History.ShiftHistoryIsModular | bp.cpp:196-197 | the new history is `(2*h + outcome) mod 2^historySize` |
| History.ShiftFromZero | bp.cpp:183-184 | shifting a cleared register leaves just the outcome |
| History.ShiftTwice | bp.cpp:196-197 | after two shifts, the lowest bit holds the newer outcome and the next bit the older one |
| BtbSpec.Fill | bp.cpp:125-128 | a freshly filled table has the requested size and every counter in the given state |
| BtbSpec.EntryIndex | bp.cpp:149 | the entry an address selects lies inside the table |
| BtbSpec.PcTag | bp.cpp:150 | the tag of an address fits in tagSize bits |
| BtbSpec.AddressDecomposition | bp.cpp:149-150 | index and tag together are the address bits from bit 3 up, with the index below and the tag above |
| BtbSpec.SameEntryAndTagIffSameBits | bp.cpp:149-153 | two addresses select the same entry with the same tag if and only if they agree on the index and tag bits |
| BtbSpec.ShareBits | bp.cpp:83-84 | the address bits mixed into a shared index fit in historySize bits |
| BtbSpec.PredictionIndex | bp.cpp:76-85 | the counter index is the history for a private table or no sharing, otherwise the history XOR the share bits; either way it is below 2^historySize |
| BtbSpec.SharedIndexSeparatesAddresses | bp.cpp:76-85 | with gshare mixing, two addresses with one history share a counter if and only if their share bits agree; without mixing the index is the history alone |
| BtbSpec.InitEntry | bp.cpp:37-38 | entry i as init pushes it: empty, tag and target 0, linked to pool member 0 when the pool is global and to member i otherwise (bp.cpp:133-135) |
| BtbSpec.InitState | bp.cpp:91-137 | the initial state satisfies the predictor invariant and has btbSize entries |
| BtbSpec.FallThrough | bp.cpp:154 | `pc + 4` in 32-bit unsigned arithmetic, wrapping past 2^32 |
| BtbSpec.PredictAnswer | bp.cpp:146-166 | the answer of a prediction: fall-through to `pc + 4` when the entry is empty or the tag differs, or when the selected counter is WNT or SNT; otherwise taken to the stored target |
| BtbSpec.PredictAnswerMeaning | bp.cpp:146-166 | the answer is "taken" if and only if the entry is written, the tag matches and the selected counter is WT or ST; the destination is then the stored target, otherwise `pc + 4` |
| BtbSpec.ColdPredictFallsThrough | bp.cpp:132-136 | right after init every address is predicted not taken with destination `pc + 4` |
| BtbSpec.Mispredicted | bp.cpp:172 | the flush condition: not taken with a predicted destination other than `pc + 4`, or taken with one other than the resolved target |
| BtbSpec.MispredictedIffWrongDestination | bp.cpp:172 | the flush condition holds exactly when the predicted destination differs from the resolved one |
| BtbSpec.CountFlush | bp.cpp:172 | the first step of an update: one more flush when the branch was mispredicted, otherwise the state is unchanged |
| BtbSpec.Miss | bp.cpp:179 | the miss test of an update: the stored tag differs from the address's tag, whether or not the entry is empty (the same test guards the history reset at bp.cpp:183) |
| BtbSpec.ResetOnMiss | bp.cpp:178-185 | the miss reset keeps the invariant and leaves the entries unchanged |
| BtbSpec.Learn | bp.cpp:186-197 | the counter step and history shift keep the invariant and leave the entries unchanged |
| BtbSpec.Record | bp.cpp:200-203 | writing tag and target into the entry keeps the invariant |
| BtbSpec.AfterUpdate | bp.cpp:171-206 | a whole update keeps the invariant, the table size and the branch count |
| BtbSpec.UpdatePoolsAreLearnedPools | bp.cpp:171-206 | the flush count and the entry write do not touch the pools: the pools after an update are the learning step applied to the reset state |
| BtbSpec.UpdateCountsFlushes | bp.cpp:172 | an update adds exactly one flush on a misprediction and none otherwise, and leaves the branch count alone |
| BtbSpec.UpdateRecordsBranch | bp.cpp:200-203 | the selected entry becomes written with the address's tag and the resolved target, keeps its pool links, and no other entry changes |
| BtbSpec.UpdateTouchesOnlyOwnPools | bp.cpp:178-197 | only the selected entry's history register and table can change |
| BtbSpec.UpdateSelectedPools | bp.cpp:178-197 | for every update, hit or miss, and every pool configuration: the history used is 0 after a miss with a private history and the old one otherwise, the table is all initial state after a miss with a private table and the old one otherwise; the counter this history selects (share bits mixed in for a shared table) steps towards the outcome, nothing else in the table changes, and the history takes the shift |
| BtbSpec.UpdateOnHitTrains | bp.cpp:187-197 | on a tag match exactly the selected counter steps towards the outcome, and the outcome is shifted into the history |
| BtbSpec.UpdateOnMissResets | bp.cpp:178-197 | on a tag miss a private table ends at the initial state except the one counter trained after the reset, and a private history holds just the outcome |
| BtbSpec.UpdateThenPredictHits | bp.cpp:153-165 | after an update the same address hits; it is predicted taken to the new target exactly when the counter it now selects is WT or ST |
| BtbSpec.InitIsPristine | bp.cpp:113 | right after init every empty entry's private history is 0 and its private table is all initial state |
| BtbSpec.UpdatePreservesPristine | bp.cpp:171-206 | updates keep the private pool members of never-written entries as init left them |
| BtbSpec.EmptyEntryResetIsNoOp | bp.cpp:179-185 | the miss reset on a never-written entry changes nothing, so the disabled `is_empty` test in the miss condition would not change behaviour |
| BtbSpec.StorageCost | bp.cpp:212-215 | the size in bits: per entry a valid bit, the tag and 30 target bits; two bits per counter of every table; historySize bits per history register |
| BtbSpec.StorageBits | bp.cpp:212-215 | the size in bits of a state, from its numbers of entries, tables and history registers |
| BtbSpec.StatsOf | bp.cpp:217-219 | the reported triple: the size in bits, the branch count and the flush count |
| BtbSpec.StatsAfterInit | bp.cpp:210-219 | after init the size is `btbSize*(1+tagSize+30) + 2*tables*2^historySize + histories*historySize` and both counters are 0 |
| BtbSpec.UpdateKeepsStorageBits | bp.cpp:212-215 | an update does not change the reported size |
| Predictor.FillTable | bp.cpp:125-128 | the table array afterwards holds the given state in every slot |
| Predictor.NewHistories | bp.cpp:108-113 | a new history pool of the requested size, every register 0 |
| Predictor.NewTables | bp.cpp:117-129 | the requested number of distinct, newly allocated tables, each holding the initial state in all slots |
| Predictor.InitialEntries | bp.cpp:131-137 | btbSize entries, entry i empty with tag and target 0 and linked to pool member 0 (global) or i (private) |
| Predictor.Btb.constructor | bp.cpp:91-141 | the new predictor's abstract state is `InitState` and the invariant holds |
| Predictor.Btb.Predict | bp.cpp:146-166 | the answer is `PredictAnswer` of the old state; the branch count goes up by one and nothing else changes |
| Predictor.Btb.Update | bp.cpp:171-206 | the new abstract state is `AfterUpdate` of the old one, and the invariant is kept |
| Predictor.Btb.CountFlush | bp.cpp:172 | the flush count goes up by one exactly on a misprediction |
| Predictor.Btb.ResetSelected | bp.cpp:178-185 | the in-place table refill and history clear produce `ResetOnMiss` of the old state |
| Predictor.Btb.TrainSelected | bp.cpp:186-197 | the in-place counter step and history shift produce `Learn` of the old state |
| Predictor.Btb.RecordSelected | bp.cpp:200-203 | the entry write produces `Record` of the old state |
| Predictor.Btb.GetStats | bp.cpp:210-220 | the reported triple is the storage cost and the two counters of the current state |
| Scenarios.AddressFields | bp.cpp:149-150 | in an 8-entry BTB with 4-bit tags, 0x1000 selects entry 0 with tag 0 and 0x1008 selects entry 2; with 2-bit low share bits their share bits are 0 and 2 |
| Scenarios.FirstUseOfEntry | bp.cpp:171-206 | the first update of a never-written entry leaves a private history holding just the outcome, and a private table at the initial state except one counter stepped towards the outcome |
| Scenarios.TakenStep | bp.cpp:187-203 | a taken update that hits, with a private 2-bit history h and private table, trains slot h only and moves the history to `(2h+1) mod 4` |
| Scenarios.TakenStreak | bp.cpp:146-166 | from a cleared 2-bit history with slot 3 weakly not taken (WNT), two taken updates still leave the prediction at fall-through because the next slot (3) is still WNT; the third moves it to WT and makes the prediction taken |
| Scenarios.FirstTwoTakenUpdates | bp.cpp:171-206 | from a cleared private 2-bit history and a matching tag, the first two taken updates move the history from 0 to 1 and from 1 to 3, training slots 0 and 1 |
| Scenarios.TakenStreakOfUpdates | bp.cpp:146-206 | three taken updates of one branch from a cleared private 2-bit history, with slot 3 weakly not taken (WNT): after two the prediction still falls through to `pc + 4`, after the third it is taken to the target |
| Scenarios.SharedTableKeepsBranchesApart | bp.cpp:76-85 | with a global history and a gshare table, training one branch leaves the counter of a branch with different share bits untouched |

## Left out

- Floating-point `pow` and `log2` (bp.cpp:123,125,149,180,213) are replaced by the integer `Pow2` and the floor `Log2`. For a power-of-two table size these agree with the source; double rounding is not modelled.
- Allocation failure is not modelled. The `try`/`catch` path of `BP_init` that returns -1 is not part of this model, and `BP_init`'s return value of 0 is not modelled either.
- Memory management is not modelled: the `Btb` destructor and the `delete[]` of the tables (bp.cpp:54-57) belong to C++ lifetime handling.
- Static state: the source keeps one static predictor, while the model makes a fresh object per constructor call. A second `BP_init` on the same static object, which would append a further btbSize entries, is not modelled.
- The entries' pointers into the pools are indices into the history array and the table sequence. Sharing through the global pointer is the shared index 0.
- Predictor.Btb.constructor: requires the initial state code to be 0..3, which is the source's `assert` (bp.cpp:104). It also requires the parameters that keep every shift in C's defined range: at least one entry, history 1..30 bits, tag at most 30 bits, `log2(btbSize)` at most 29. Outside these the source has undefined behaviour or a wrong result. A shift by 32 or more bits is undefined. With 0 entries, `log2(0)` at bp.cpp:149 is undefined. For historySize 0, `BTB.history_size-1` wraps, so `bitExtracted` at bp.cpp:196 gets a shift count of -1. For tagSize 31, `(1 << 31) - 1` at bp.cpp:18 overflows a signed `int`. For historySize 31, `pow(2,31)` is converted to `int` (bp.cpp:123). The other `assert`s (bp.cpp:82,137,163) are proved to hold rather than checked at run time.
- Predictor.Btb.Predict: the branch counter is an unbounded natural number, so the overflow of the source's `int` is not modelled.
- Predictor.Btb.Update: the flush counter is an unbounded natural number, so the overflow of the source's `int` is not modelled.
- Predictor.Btb.GetStats: the size and counters are unbounded natural numbers, so the overflow of the source's `int` is not modelled. The `SIM_stats` out-parameter becomes a returned `Stats` value.
- Tags and history registers are natural numbers proved to fit in their width rather than `uint32_t` fields. Since they always fit, this loses nothing.
- The older drafts of the predictor kept beside `bp.cpp` are not part of this model. Neither is the simulator driver.
