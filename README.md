# pylixir core in Dafny

A model of the deterministic core of pylixir, a simulator of an
"enchanting" minigame: a board of five numeric effect slots, three sages,
a turn counter and a ledger of timed mutations, changed turn by turn by
council-logic reducers. Each reducer takes a state, the target slot
indices and one random draw in [0, 10000), and returns a new state built
on a deep copy.

- `wrappers.dfy` (`Wrappers`): the `Result` datatype for the error paths.
- `seqs.dfy` (`Seqs`): facts about integer sequences: gathering values
  along index sequences, permutations (multisets) and sums.
- `base.dfy` (`Base`): the data model of `pylixir/core/base.py`.
  - `Mutation`, `MutationTarget`, `SageType`, `Sage`, `GamePhase`,
    `MaxEffectCount` are values.
  - `Effect` and `GameState` are classes whose fields are updated in place.
  - `Snapshot` is the value view of a `GameState`. Every in-place method is
    specified as `View() == old(View()).Op(...)`, and the properties are
    stated about the `Snapshot` operations.
  - `Rng` holds the seeded sample stream and the static `Ranged` and `Pick`
    helpers.
- `council_logic.dfy` (`CouncilLogic`): the reducers of
  `pylixir/council/logic.py`.
  - Each reducer is a method with no `modifies` clause, so the state it is
    given cannot change. It returns a `fresh` state whose `View()` is tied
    to a specification function of the input's `View()`.
  - `ShuffleAll` keeps the source's zip loop over `starting`/`ending`
    index lists (`ReassignAlongZip`). It is proved to keep locked slots and
    lock flags and to permute the unlocked values.

The model follows the code on these points:

- `ranged` truncates with `int()`, not `floor`. Both agree on the
  non-negative draws the engine produces; `Trunc` models `int()`.
- An effect has no `max_value`. The clamp uses the constant 13.
- `consume_turn` has no floor at zero, so `turn_left` can become negative.
- `pick` on an empty list fails. The model returns `Failure(EmptyInput)`
  where the code would raise on `shuffled[0]`.

## Model

| member | source | states |
|---|---|---|
| Base.Clamp | pylixir/core/base.py:99 | the result lies in [0, 13]; it is the input when that is in range, 0 below and 13 above |
| Base.Sage.Type | pylixir/core/base.py:40-48 | none iff power is 0, lawful iff power > 0, chaos iff power < 0; exactly one holds |
| Base.Snapshot.SetEffectCount | pylixir/core/base.py:102-103 | slot i holds amount verbatim, without clamping; its name and lock flag, the other slots and all other fields are unchanged |
| Base.Snapshot.ModifyEffectCount | pylixir/core/base.py:96-100 | the new value of slot i lies in [0, 13] for any amount; it is exactly v + amount when that is in range, else 0 below and 13 above; nothing else changes |
| Base.Snapshot.SetLock | pylixir/core/base.py:111-115 | slot i gets the given flag; its value, the other slots and all other fields are unchanged |
| Base.SetLockIdempotent | pylixir/core/base.py:62-66 | locking (or unlocking) twice is the same as doing it once |
| Base.Effect.Lock | pylixir/core/base.py:62-63 | the flag becomes true; name and value stay |
| Base.Effect.Unlock | pylixir/core/base.py:65-66 | the flag becomes false; name and value stay |
| Base.GameState.constructor | pylixir/core/base.py:79-85 | five distinct effect slots and three sages; fields as given |
| Base.GameState.AddMutation | pylixir/core/base.py:87-88 | the mutation is appended to the ledger; nothing else changes |
| Base.GameState.DeepCopy | pylixir/core/base.py:93-94 | the copy is made of new objects only (no aliasing with the original) and has the same contents |
| Base.GameState.ModifyEffectCount | pylixir/core/base.py:96-100 | the in-place update equals the saturating Snapshot update of slot i |
| Base.GameState.SetEffectCount | pylixir/core/base.py:102-103 | the in-place update equals the verbatim Snapshot update of slot i |
| Base.GameState.ConsumeTurn | pylixir/core/base.py:105-106 | turnLeft drops by exactly count, with no floor; nothing else changes |
| Base.GameState.GetEffectValues | pylixir/core/base.py:108-109 | five values, the k-th being the value of the k-th effect object, which is the snapshot's value list |
| Base.GameState.Lock | pylixir/core/base.py:111-112 | slot i's flag becomes true; values and other slots stay |
| Base.GameState.Unlock | pylixir/core/base.py:114-115 | slot i's flag becomes false; values and other slots stay |
| Base.Rng.constructor | pylixir/core/base.py:119-120 | the stored seed is the start seed |
| Base.Rng.Sample | pylixir/core/base.py:122-126 | the draw is the chained sample of the old seed, and the stored seed becomes that draw |
| Base.Rng.Pick | pylixir/core/base.py:143-146 | fails with EmptyInput exactly when the list is empty; otherwise returns an element of the list |
| Base.Rng.Ranged | pylixir/core/base.py:133-135 | for min <= max and a non-negative draw, the truncating `int()` agrees with floor: the value is floor(draw / 10000 * (max - min + 1)) + min |
| Base.RangedWithin | pylixir/core/base.py:133-135 | for min <= max and a draw in [0, 10000) the value lies in [min, max] |
| Base.RangedAtZero | pylixir/core/base.py:133-135 | the zero draw gives min |
| Base.RangedMonotone | pylixir/core/base.py:133-135 | a larger non-negative draw never gives a smaller value |
| Base.RangedAtTop | pylixir/core/base.py:133-135 | a draw in the last bin, such as 9999.99, gives max |
| Base.RangedTestTable | tests/council/logic/test_modify_effect.py:41-51 | the seven (range, draw) pairs of the test table map to the listed amounts |
| CouncilLogic.TimedMutations | pylixir/council/logic.py:17-25 | one mutation per target, in target order, each with the target slot, the first value and the remaining turns |
| CouncilLogic.MutateProb | pylixir/council/logic.py:9-28 | the new state is the old one with prob mutations appended for the targets; effects, counters and prior mutations are unchanged, and the input is not modified |
| CouncilLogic.MutateLuckyRatio | pylixir/council/logic.py:31-50 | as MutateProb, with lucky-ratio mutations |
| CouncilLogic.IncreaseTargetWithRatioSpec | pylixir/council/logic.py:53-68 | TargetSizeMismatch iff not exactly one target; the target must be a slot only when the draw passes; a draw <= ratio applies the saturating increment by value[0] (inclusive boundary); a larger draw leaves the state equal to the input |
| CouncilLogic.IncreaseTargetWithRatio | pylixir/council/logic.py:53-68 | the method's result, an error or a fresh state, is the one IncreaseTargetWithRatioSpec gives, and the input is not modified |
| CouncilLogic.IncreaseTargetRangedSpec | pylixir/council/logic.py:71-88 | TargetSizeMismatch iff not exactly one target; otherwise the target always moves by ranged(value[0], value[1], draw), with saturation |
| CouncilLogic.IncreaseTargetRanged | pylixir/council/logic.py:71-88 | the method's result, an error or a fresh state, is the one IncreaseTargetRangedSpec gives, and the input is not modified |
| CouncilLogic.IncreaseTargetRangedWithin | pylixir/council/logic.py:83-86 | for min <= max and a draw in [0, 10000) the target ends between clamp(v + min) and clamp(v + max) |
| CouncilLogic.DecreaseTurnLeft | pylixir/council/logic.py:91-100 | turnLeft drops by value[0] whatever the targets and the draw; effects and mutations stay |
| CouncilLogic.UnlockedIndices | pylixir/council/logic.py:113-115 | every listed index is a slot position |
| CouncilLogic.UnlockedIndicesSound | pylixir/council/logic.py:113-115 | every listed slot is unlocked |
| CouncilLogic.UnlockedIndicesComplete | pylixir/council/logic.py:113-115 | every unlocked slot is listed |
| CouncilLogic.UnlockedIndicesIncreasing | pylixir/council/logic.py:113-115 | the slots are listed in enumeration order |
| CouncilLogic.Complement | pylixir/council/logic.py:116-118 | every listed index is below the length and not among the unlocked ones |
| CouncilLogic.ComplementComplete | pylixir/council/logic.py:116-118 | every index below the length that is not unlocked is listed |
| CouncilLogic.ComplementIncreasing | pylixir/council/logic.py:116-118 | the locked indices are listed in range order |
| CouncilLogic.SlotOrderCovers | pylixir/council/logic.py:120 | unlocked followed by locked indices is a permutation of 0..n-1 |
| CouncilLogic.SlotOrderDistinct | pylixir/council/logic.py:120 | no slot occurs twice in unlocked followed by locked |
| CouncilLogic.ReassignAlongZip | pylixir/council/logic.py:125-126 | after the zip loop, slot starting[k] holds the old value of slot ending[k], and slots not listed keep theirs |
| CouncilLogic.ShuffleAllSpec | pylixir/council/logic.py:109-128 | the state ShuffleAll produces has as many slots, the same lock flags and the same counters, mutations and sages; the lemmas below state what happens to the values |
| CouncilLogic.ShuffleAll | pylixir/council/logic.py:103-128 | the new state is the reassignment of values along unlocked followed by locked onto the shuffle of unlocked followed by locked; the input is not modified |
| CouncilLogic.ShuffleAllKeepsLocked | pylixir/council/logic.py:113-126 | locked slots keep their contents, no lock flag changes, and counters, mutations and sages stay |
| CouncilLogic.ShuffleAllPermutesUnlocked | pylixir/council/logic.py:120-126 | the k-th unlocked slot takes the old value of the k-th shuffled index, so the unlocked values are a permutation of the old ones |
| CouncilLogic.ShuffleAllPreservesTotal | pylixir/council/logic.py:111-126 | the multiset of slot values, and so their total, is unchanged |
| CouncilLogic.IncreaseTargetWithRatioTestTable | tests/council/logic/test_modify_effect.py:15-38 | the four (ratio, draw) rows succeed or fail as the test table says; two targets give TargetSizeMismatch |
| CouncilLogic.IncreaseTargetRangedTestTable | tests/council/logic/test_modify_effect.py:41-72 | the seven (range, draw) rows move slot 0 by the listed amounts; two targets give TargetSizeMismatch |

## Left out

- `GameState.enchant`, `Sage.run` and `Sage.update_power` have no body in the source (`...`), so there is nothing to model.
- `Decision` is a pydantic UI value. Pydantic validation and copying are modelled as plain value construction and `DeepCopy`.
- `RNG.chained_sample` and `RNG.shuffle` delegate to Python's Mersenne Twister. `chainedSample` is a function held by `Rng`. `shuffle` is a function parameter (`Shuffler`) that is only required to return a permutation of its input (`IsPermuting`).
- Floating point: draws are exact reals, and `int()` is modelled as truncation toward zero. Rounding of `random_number / 10000 * bin_size` in binary floating point is not modelled.
- Base.Rng.Pick: models the empty-list case as `Failure(EmptyInput)`, where the code raises `IndexError`.
- CouncilLogic.IncreaseTargetWithRatio: when the draw exceeds the ratio, the source never indexes the effects, so any target is accepted and the copy is returned; the model accepts any target there too. When the draw passes, the model requires the target to be a slot position 0..4, while Python would also accept -5..-1, counting from the end, and raise `IndexError` beyond that.
- CouncilLogic.IncreaseTargetRanged: requires the single target to be a slot position 0..4. Python would also accept -5..-1, counting from the end, and raise `IndexError` beyond that. The same holds for Base.GameState.ModifyEffectCount, Base.GameState.SetEffectCount, Base.GameState.Lock and Base.GameState.Unlock.
- CouncilLogic.ShuffleAll: the `targets` and `draw` parameters are passed through like the source's, and the draw reaches only the shuffle.
- The test tables assume that the test fixture's slot 0 is far enough from 0 and 13 that no saturation occurs. The fixture and `assert_effect_changed` come from test helpers that are not part of this model; `Changed` is read as "slot 0 moved by the amount, nothing else changed".
- `ElixirLogic` (`pylixir/council/base.py`) is not part of this model. Its fields `value`, `ratio` and `remain_turn` are inferred from how the tests build reducers.
- Enchanter, probability queries, `redistribute`, `fork` and a per-effect `max_value` are not part of this model.
- `deep/stable_baselines/dqn.py` is training glue around foreign libraries and is not modelled.
