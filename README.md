# Disk-detainer lock engine, modelled in Dafny

This project models the engine of a browser lock-picking game that simulates a disk-detainer
lock. The pack has ten disks, each with six gate slots. A slot holds no gate, a false gate or the
true gate. The pick tip moves along the pack and turns the disk it is inside. While tension is
applied, a binding solver decides how far each disk may turn and how far the core may rotate:
not at all, partly (a false set) or fully (open).

The model covers:

- the xorshift generator the game draws from (`SeededRandom`);
- lock generation in `initGame`: the gate-pattern table and `makeDisk`, the Knuth shuffle of the
  two binding orders, the rejection-sampled bitting, and the reset of the game record;
- the binding solver `recalculateDiskBinds` with `findTrueSlopToGate`;
- the movement resolver `inputMovement` with `determinePickTipPosition`;
- the tension input `inputTension`;
- the `coreRotationUpdate` and `fadeOut` animation steps;
- the bitting string and the win texts of `addWinText`.

The game record `gameData` is the class `Game.GameData`; its fields are the record's mutable
fields. Disks are values (`LockTypes.Disk`), held in a `seq` field that the methods reassign. The
two binding orders are arrays, shuffled in place as in the source. Every imperative operation is
a method proved against a specification function:

- `Binding.Binds` for the solver;
- `Input.Move` for a movement;
- `Generation.Shuffled`, `Generation.GeneratedBy`, `Generation.DealPrefix` and `Game.DealFrom`
  for generation.

The properties the game relies on are lemmas about those functions.

Modules, file by file:

- `lock_types.dfy`, module `LockTypes`: gates, disks, bounds, the game state and the constants
  of scripts/game.js:79-101.
- `seeded_random.dfy`, module `Random`: the xorshift step on `bv32`, its inverse, seeding, and
  the class `SeededRandom`.
- `binding.dfy`, module `Binding`: the solver as a specification.
- `generation.dfy`, module `Generation`: the gate table, `makeDisk`, the shuffle, bitting
  generation and dealing. Each is a method on a generator plus a function of the generator state.
- `input.dfy`, module `Input`: `clamp`, the tip position, and the X and Y resolution of a
  movement.
- `game.dfy`, module `Game`: the class `GameData` with `initGame`, the solver, the inputs, the
  animations and the win text.

Where the code and its documentation disagree, the model follows the code:

- **Bitting string length.** The bitting string is `"0"` followed by one true-gate slot per disk.
  That is eleven characters, not ten digits, because disk 0's own cut (always 0) follows the
  leading `"0"`.
- **Inputs outside `"main"`.** Movement and tension inputs outside the `"main"` state (including
  before the first `initGame`) return without effect; they do not fail.
- **Clock start.** `inputMovement` starts the clock even for a zero movement, which it then
  ignores.
- **Bounds after `initGame`.** The bounds a freshly dealt disk has after `initGame` are the
  solver's, not the default `[-5, -165]`. `makeDisk` builds every disk with the default bounds,
  but `initGame` then runs the solver on them (scripts/game.js:445). The default bounds are
  stated of the dealt disks (`Generation.DealtDisks`).
- **Position and target after `initGame`.** The solver's rotation goes into `coreRotation` (the
  drawn rotation), not `coreRotationTarget`, which is reset to the default −2. A fresh deal is
  never open (`Generation.InitNeverOpens`): disk 1 always has cut 5, and every pattern for cut 5
  has no true gate at the first slot, where every disk starts.
- **Seeds read modulo 2^32.** `seed(s)` reads `s >>> 0`, the seed modulo 2^32. A nonzero seed
  that is a multiple of 2^32 is therefore replaced by a fresh one.

## Model

| member | source | states |
|---|---|---|
| `LockTypes.DiskOriginsSpaced` | scripts/game.js:93-94 | disk origin i is 2 + 20·i, so the origins are diskSpacing apart |
| `LockTypes.DiskOriginsApart` | scripts/game.js:93-94 | disks j − i apart in the pack are 20·(j − i) apart on the x axis |
| `LockTypes.Identity` | scripts/game.js:124-125 | definition of the unshuffled binding order [0, …, 9]; that it is a permutation is `Generation.IdentityIsPermutation` |
| `Random.XorShiftRoundTrip` | scripts/seededRandom.js:35-41 | undoing the three xorshift updates in reverse order gives the state back, so one draw is a bijection on 32-bit words |
| `Random.XorShiftNonzero` | scripts/seededRandom.js:35-41 | a draw from a nonzero state gives a nonzero state |
| `Random.IterateNonzero` | scripts/seededRandom.js:35-41 | a nonzero state stays nonzero however many draws follow |
| `Random.SeedState` | scripts/seededRandom.js:26-33 | the installed state is nonzero, and a seed that is 0 modulo 2^32 gets the fresh seed |
| `Random.SeedModulo` | scripts/seededRandom.js:27 | seeding with s and with s modulo 2^32 installs the same state |
| `Random.XorShift` | scripts/seededRandom.js:35-39 | definition of one draw: `x ^= x << 13`, `x ^= x >>> 7`, `x ^= x << 17` modulo 2^32; its inverse is `Random.XorShiftRoundTrip` |
| `Random.Iterate` | scripts/seededRandom.js:35-41 | definition of the state after n draws; that it stays nonzero is `Random.IterateNonzero` |
| `Random.Word` | scripts/seededRandom.js:39-40 | the word read as an unsigned integer is below 2^32 |
| `Random.UnitOf` | scripts/seededRandom.js:43-45 | random() lies in [0, 1) |
| `Random.RandIndex` | scripts/seededRandom.js:43-45 | the integer form of floor(random() · n) lies in [0, n) |
| `Random.RandIndexIsFloor` | scripts/seededRandom.js:43-45 | (w · n) div 2^32 equals floor((w / 2^32) · n) exactly, and lies in [0, n) |
| `Random.RangeValue` | scripts/seededRandom.js:49 | min + w % (max − min) lies in [min, max) when min < max, and in [min, 2·min − max) when max < min |
| `Random.SeededRandom.constructor` | scripts/seededRandom.js:22-24 | the new generator holds the seeded state, which is nonzero |
| `Random.SeededRandom.Seed` | scripts/seededRandom.js:26-33 | the state becomes s modulo 2^32, or the fresh nonzero seed when that is 0 |
| `Random.SeededRandom.RandInt` | scripts/seededRandom.js:35-41 | the new state is the xorshift of the old one and is returned; a nonzero state stays nonzero |
| `Random.SeededRandom.Random` | scripts/seededRandom.js:43-45 | one draw, returning the new word divided by 2^32, in [0, 1) |
| `Random.SeededRandom.RandIntRange` | scripts/seededRandom.js:47-50 | min == max returns min without a draw; otherwise one draw and min + word % (max − min), in [min, max) for min < max |
| `Random.SameSeedSameStream` | scripts/seededRandom.js:21-45 | two generators seeded alike return identical randInt and random sequences, draw by draw |
| `Binding.FindTrueSlopToGate` | scripts/game.js:217-228 | the lowest-index cut gate within 16 of the disk's position, or None exactly when no cut gate is that close |
| `Binding.FindFrom` | scripts/game.js:218-227 | the for-in loop from slot i: the first aligned cut gate at or after i, or None exactly when none is, proved through its recursive calls' contracts |
| `Binding.AlignedOnFalseOrTrue` | scripts/game.js:217-228 | an aligned disk sits on a false gate or on the true gate, never both |
| `Binding.FirstUnaligned` | scripts/game.js:233-238 | the first position of bindingOrder1 whose disk is between gates, or None when every disk is aligned |
| `Binding.FirstFalse` | scripts/game.js:262-268 | the first position of bindingOrder2 whose disk sits on a false gate, or None |
| `Binding.FalseSlop` | scripts/game.js:269-274 | the false-set slop ((1 − 0.5)·(10 − i)/10 + 0.5)·8 lies in [4.4, 8] and is 8 at position 0 |
| `Binding.FalseSlopDecreasing` | scripts/game.js:269-274 | a later position of bindingOrder2 never gets more false slop than an earlier one |
| `Binding.AroundGate` | scripts/game.js:240-245 | definition of the bounds [c + slop, c − slop] around gate origin c; that they hold an aligned disk is `Binding.TrueSlopContainsPosition` |
| `Binding.BoundsFor` | scripts/game.js:238-281 | definition of the bounds each disk gets from the two passes; they are always a proper range, lower ≤ upper (also `Binding.BoundsOrdered`) |
| `Binding.BindRotation` | scripts/game.js:256-289 | definition of the rotation returned: −2, −10 or −75; what each means is `Binding.RotationClassified` |
| `Binding.Binds` | scripts/game.js:192-290 | the solver keeps all ten disks and changes only their bounds, never gates or positions |
| `Binding.FirstPassBinds` | scripts/game.js:233-257 | with a disk between gates at position u of bindingOrder1: result −2; that disk held at [position, position]; earlier disks at ±16 around their lowest aligned gate; later disks at [−5, −165] |
| `Binding.SecondPassBinds` | scripts/game.js:261-289 | with every disk aligned: −10 if some disk is on a false gate, else −75; the first such disk in bindingOrder2 gets the false slop, every other disk ±16 |
| `Binding.FirstUnalignedIffSome` | scripts/game.js:233-238 | the first pass finds a binder exactly when some disk is between gates |
| `Binding.FirstFalseIffSome` | scripts/game.js:262-268 | the second pass finds a false-set disk exactly when some disk is on a false gate |
| `Binding.RotationClassified` | scripts/game.js:283-289 | the result is −2 iff some disk is between gates, −75 iff every disk is on its true gate, and −10 iff every disk is aligned and some is on a false gate |
| `Binding.BoundsOrdered` | scripts/game.js:242-279 | every disk's new bounds have lower ≤ upper |
| `Binding.TrueSlopContainsPosition` | scripts/game.js:222 | a disk held at ±16 around its aligned gate is inside its own bounds |
| `Binding.AlignedGateUnique` | scripts/game.js:217-228 | on a disk without adjacent cuts, an aligned cut gate is the one findTrueSlopToGate returns |
| `Binding.GateOriginsApart` | scripts/game.js:96 | gate origins are at least 30 apart, and at least 60 apart when not neighbours |
| `Binding.AlignmentIgnoresBounds` | scripts/game.js:217-228 | the aligned gate depends on the gates and the position only |
| `Binding.BindsIgnoresBounds` | scripts/game.js:192-290 | the solver's result does not depend on the disks' old bounds |
| `Binding.BindsIdempotent` | scripts/game.js:192-290 | running the solver again on its own output changes nothing |
| `Generation.PatternRow` | scripts/game.js:310-347 | every row of gatePattern[t] has six slots, exactly one true gate at slot t, no two cut gates in adjacent slots, and a false gate |
| `Generation.SpinnerGates` | scripts/game.js:350-352 | the spinner has six slots and only the true gate, at slot t |
| `Generation.MakeDiskShape` | scripts/game.js:299-365 | a made disk has one true gate at slot t and no adjacent cuts; it has a false gate iff it is not the spinner; it starts at −160 with bounds [−5, −165]; it takes one draw unless it is the spinner |
| `Generation.MakeDiskFrom` | scripts/game.js:299-365 | definition of makeDisk on a generator state; its shape is `Generation.MakeDiskShape` |
| `Generation.MakeDisk` | scripts/game.js:299-365 | the disk and the generator state afterwards are those MakeDiskFrom gives for the state before |
| `Generation.Swap` | scripts/game.js:371 | definition of the exchange of entries i and j; that it keeps the multiset is `Generation.SwapPermutation` |
| `Generation.ShuffleFrom` | scripts/game.js:369-372 | definition of the shuffle's passes i down to 1; the length is kept, and the multiset by `Generation.ShufflePermutes` |
| `Generation.Shuffled` | scripts/game.js:368-373 | definition of the whole Knuth shuffle on a generator state; the length is kept, and the permutation by `Generation.ShufflePermutes` |
| `Generation.SwapPermutation` | scripts/game.js:371 | a swap keeps the multiset, so a permutation of 0..9 stays one |
| `Generation.ShufflePermutes` | scripts/game.js:368-373 | the shuffle keeps the length and the multiset of entries, so a permutation of 0..9 stays one |
| `Generation.ShuffleKeepsTail` | scripts/game.js:369-372 | passes i down to 1 never touch entries past i |
| `Generation.ShuffledIdentity` | scripts/game.js:428-434 | the reset order shuffled is a permutation of 0..9 |
| `Generation.IdentityIsPermutation` | scripts/game.js:428-431 | the reset order 0..9 is a permutation |
| `Generation.ShuffleArray` | scripts/game.js:368-373 | the array and the generator state afterwards equal the Knuth shuffle of the array's old contents from the old state |
| `Generation.FillPrefix` | scripts/game.js:382-387 | after n passes of the fill loop every entry below n is filled, fixed entries keep their value, drawn entries are in 0..5, and entries from n on are untouched |
| `Generation.Attempt` | scripts/game.js:382-387 | definition of one filled bitting and the state after it; ten entries, with the fixed cuts and the range in `Generation.AttemptShape` |
| `Generation.GeneratedBy` | scripts/game.js:376-400 | definition of the do-while's outcome: the first valid attempt and the state after it; unique by `Generation.GeneratedByUnique` |
| `Generation.AttemptShape` | scripts/game.js:382-387 | every attempt has ten entries in 0..5, with 0, 5 and 0 at entries 0, 1 and 9 |
| `Generation.GeneratedShape` | scripts/game.js:376-400 | the returned bitting has ten cuts in 0..5, starts 0, 5, ends 0, and has no cut three times in a row |
| `Generation.GeneratedByUnique` | scripts/game.js:376-400 | from one generator state there is only one result and one state afterwards |
| `Generation.FillTemplate` | scripts/game.js:382-387 | the fill loop returns the filled template and leaves the state Attempt gives |
| `Generation.CheckBitting` | scripts/game.js:389-396 | the scan reports valid iff no cut appears three times in a row |
| `Generation.BittingAttempt` | scripts/game.js:381-397 | one pass of the do-while: the attempt from the old state, and whether it is valid |
| `Generation.GenerateValidBitting` | scripts/game.js:376-400 | the result is the first valid attempt from the old state, and the generator is left where that attempt ended |
| `Generation.DealtDisks` | scripts/game.js:439-442 | disk i of the deal has one true gate at slot bitting[i] and no adjacent cuts; it has a false gate iff i ≠ 9; it starts at −160 with bounds [−5, −165] |
| `Generation.DealPrefix` | scripts/game.js:437-442 | definition of the first n disks dealt from a bitting and a state; n disks, each with the shape of `Generation.DealtDisks` |
| `Generation.DealDisks` | scripts/game.js:437-442 | the dealing loop and the spinner give the ten disks and the state DealPrefix gives |
| `Generation.InitNeverOpens` | scripts/game.js:382-445 | with cut 5 at entry 1, the solver never reports a fresh deal open |
| `Generation.DealPrefixStable` | scripts/game.js:439-442 | dealing more disks does not change those already dealt |
| `Input.Clamp` | scripts/game.js:162-164 | the result lies in [low, high], equals x when x does, low below and high above |
| `Input.ClampIdempotent` | scripts/game.js:162-164 | clamping twice is clamping once |
| `Input.TipPositionSpan` | scripts/game.js:1038-1061 | on [0, 183] the tip is found: inside disk l ([l, l]) or between l and l + 1, with 0 ≤ l ≤ r ≤ min(l + 1, 9) |
| `Input.TipPositionFrom` | scripts/game.js:1041-1061 | the loop of determinePickTipPosition from disk i: a span [l, l] or [l, l + 1] with i ≤ r ≤ 10, or None |
| `Input.TipPosition` | scripts/game.js:1038-1062 | determinePickTipPosition: a span [l, l] or [l, l + 1]; found and correct on [0, 183] by `Input.TipPositionSpan` |
| `Input.SpanUnique` | scripts/game.js:1038-1061 | the places "inside disk k" and "between l and l + 1" are disjoint, so the span is unique |
| `Input.InsideIffTip` | scripts/game.js:1047-1049 | the tip is within a disk width plus one of disk k's origin iff the tip position is [k, k] |
| `Input.BlockRight` | scripts/game.js:1078-1086 | the first disk from i up to hi that the tip is more than 8 from, or None when there is none |
| `Input.BlockLeft` | scripts/game.js:1089-1097 | the first disk from i down to lo that the tip is more than 8 from, or None |
| `Input.ResolveX` | scripts/game.js:1066-1098 | definition of the x a sideways movement ends at; bounded by `Input.ResolveXInRange`, blocking by `Input.ResolveXStopsRight`/`Input.ResolveXStopsLeft` |
| `Input.StopRight` | scripts/game.js:1077-1086 | moving right the pick ends at or before the target, exactly at it when no disk blocks |
| `Input.StopLeft` | scripts/game.js:1088-1097 | moving left the pick ends at or after the target, exactly at it when no disk blocks |
| `Input.PushY` | scripts/game.js:1109-1136 | definition of the y step and the disk nudge; its properties are `Input.PushYFacts` |
| `Input.Move` | scripts/game.js:1005-1141 | definition of one movement in the "main" state; ten disks, its properties are `Input.MoveKeepsPlayable`, `Input.MoveMovesOnlyTipDisk`, `Input.MoveKeepsTipAligned` and `Input.MoveStopsAtMisaligned` |
| `Input.ResolveXInRange` | scripts/game.js:1065-1098 | the resolved x stays in [0, 183] |
| `Input.StopRightInRange` | scripts/game.js:1077-1086 | moving right, the pick stops at or before the clamped target and not below 0 |
| `Input.StopLeftInRange` | scripts/game.js:1088-1097 | moving left, the pick stops at or after the clamped target and not above 183 |
| `Input.ResolveXStopsRight` | scripts/game.js:1077-1086 | moving right, the new x is at most diskOrigins[i] − 9 for every disk i crossed that the tip is more than 8 from |
| `Input.ResolveXStopsLeft` | scripts/game.js:1088-1097 | moving left, the new x is at least diskOrigins[i] + 9 for every such disk i |
| `Input.ResolveXEntersAligned` | scripts/game.js:1065-1098 | the pick ends inside a disk it is not aligned with only if it started inside that disk |
| `Input.PushYFacts` | scripts/game.js:1109-1140 | the y step keeps the pick in [−165, −5] and disks in [−173, 3]; it changes no gates or bounds; it moves only the disk the tip is inside, which ends within 8 of the pick |
| `Input.MoveKeepsPlayable` | scripts/game.js:1027-1140 | a movement keeps the pick in [0, 183]×[−165, −5] and every disk in [−173, 3], and changes no gates or bounds |
| `Input.MoveMovesOnlyTipDisk` | scripts/game.js:1109-1136 | a disk's position changes only on a y movement with the tip inside it, where it ends within 8 of the pick; at most one disk moves |
| `Input.MoveKeepsTipAligned` | scripts/game.js:1065-1140 | a tip inside only disks it is aligned with stays so after the movement |
| `Input.MoveStopsAtMisaligned` | scripts/game.js:1076-1098 | moving sideways, the pick does not pass a disk it is more than 8 from: it ends ≤ origin − 9 or ≥ origin + 9 of each one crossed |
| `Input.DeterminePickTipPosition` | scripts/game.js:1038-1062 | the loop returns exactly the span TipPosition gives |
| `Game.InitialSetup` | scripts/game.js:403-419 | definition of the values initGame resets the record to; that initGame installs them is `Game.GameData.InitGame` |
| `Game.StepTowardFacts` | scripts/game.js:549-556 | one rotation step lands between the old rotation and the target and moves at most the step; it reaches the target iff the target was at most a step away, otherwise it ends a step closer |
| `Game.StepToward` | scripts/game.js:549-556 | definition of one coreRotationUpdate step; its properties are `Game.StepTowardFacts` |
| `Game.StepsReachTarget` | scripts/game.js:548-582 | with a positive step the core reaches its target within distance/step frames |
| `Game.StepsStayAtTarget` | scripts/game.js:548-582 | once at the target the rotation stays there |
| `Game.TrueGateIndex` | scripts/game.js:465 | `gates.indexOf(2)`: the first slot holding the true gate, or −1 when there is none |
| `Game.BittingText` | scripts/game.js:463-466 | the bitting string starts with "0"; its digits and their round trip are `Game.WinBittingRoundTrip` |
| `Game.EffectiveSeed` | scripts/game.js:294 | the given seed unless it is absent or zero, else the fresh one: a nonzero seed is kept, and with a nonzero fresh seed the result is nonzero |
| `Game.BittingDigitsOf` | scripts/game.js:464-466 | with true gates at single-digit slots b[i], the loop appends exactly one digit per disk, namely b[i] |
| `Game.WinBittingRoundTrip` | scripts/game.js:463-466 | the bitting string is eleven characters, "0" then disk i's true-gate slot at position i + 1, so reading it back gives the bitting |
| `Game.BittingFrom` | scripts/game.js:376-400 | the bitting generated from a state, with ten cuts in 0..5 |
| `Game.DealFrom` | scripts/game.js:428-445 | definition of the whole deal of initGame from a generator state; its shape is `Game.DealShape` and `Game.DealPlayable` |
| `Game.DealFromBitting` | scripts/game.js:438-442 | generating the bitting and dealing from it gives the disks DealtFrom describes |
| `Game.DealShape` | scripts/game.js:428-445 | a deal has two permutations as binding orders, a valid bitting, ten disks each with one true gate at bitting[i], a false gate iff i ≠ 9, all at −160, and a rotation that is never open |
| `Game.SeedDecidesDeal` | scripts/game.js:294-295 | a game started from a seed that is nonzero modulo 2^32 deals from the same state whatever the fresh seeds are |
| `Game.DealPlayable` | scripts/game.js:428-442 | a fresh deal's orders are permutations and the pick at its default offset is playable and aligned with the one disk it is in |
| `Game.BindsKeepPlay` | scripts/game.js:192-290 | the solver moves no disk, so playability and tip alignment are unchanged |
| `Game.WithDefaultBounds` | scripts/game.js:1169-1171 | definition of the released pack: every disk keeps its gates and position and gets [−5, −165]; that reapplying undoes it is `Game.ReleaseThenReapply` |
| `Game.ReleaseThenReapply` | scripts/game.js:1162-1176 | releasing and then reapplying tension, nothing moved in between, gives the same disks and rotation as before |
| `Game.WinScreen` | scripts/game.js:452-511 | the win texts: "Open!", "Bitting: " + the bitting string, the cheater line only for a cheater, the restart line; other texts, including an old cheater line for a non-cheater, unchanged |
| `Game.GameData.constructor` | scripts/game.js:26-153 | the record as loaded: "wait", no disks, identity binding orders, default pick, zero rotation, seed −1 |
| `Game.GameData.InitGame` | scripts/game.js:293-448 | the fields are reset to InitialSetup of the effective seed; the binding orders, disks and core rotation are the deal from the seeded state; the record satisfies its invariant; pending timers are untouched |
| `Game.GameData.ResetFields` | scripts/game.js:403-419 | the reset fields become InitialSetup(s); the disks, rotation and pending timers are untouched |
| `Game.GameData.ResetPlay` | scripts/game.js:404-408 | "main", tension applied, no start or end time, no fade |
| `Game.GameData.ResetPick` | scripts/game.js:409-412 | the pick position and handle offset at their defaults, the target −2, the seed recorded |
| `Game.GameData.ResetView` | scripts/game.js:413-419 | no cheater, no cutaway, no screen text, no animation |
| `Game.GameData.DealLock` | scripts/game.js:427-445 | the orders, disks and rotation are the deal from the generator's state; the pick at its default is playable and aligned |
| `Game.GameData.DrawLock` | scripts/game.js:427-442 | the shuffled orders and dealt disks are those of the deal from the generator's state, and are permutations and playable |
| `Game.GameData.ResetOrders` | scripts/game.js:428-431 | both binding orders become 0..9 |
| `Game.GameData.RecalculateDiskBinds` | scripts/game.js:192-290 | the disks and the returned rotation are exactly Binding.Binds of the old disks and the two orders |
| `Game.GameData.HoldFirstBinder` | scripts/game.js:238-257 | the first pass's three loops give Binds' disks, and Binds' rotation is −2 |
| `Game.GameData.SecondPass` | scripts/game.js:261-289 | the second pass gives Binds' disks and rotation |
| `Game.GameData.ClampMovementX` | scripts/game.js:1066-1098 | the X block of inputMovement returns ResolveX of the current tip and the clamped target |
| `Game.GameData.ClampRight` | scripts/game.js:1077-1086 | the rightward loop returns StopRight |
| `Game.GameData.ClampLeft` | scripts/game.js:1088-1097 | the leftward loop returns StopLeft |
| `Game.GameData.ClampMovementY` | scripts/game.js:1109-1136 | the Y block gives the disks and the y PushY gives |
| `Game.GameData.InputMovement` | scripts/game.js:1005-1141 | no effect outside "main"; in "main" it starts the clock if unset and the pick and disks become Move's; the record stays valid |
| `Game.GameData.ApplyMovement` | scripts/game.js:1027-1140 | a nonzero movement leaves the pick and disks as Move gives, with the record valid |
| `Game.GameData.InputTension` | scripts/game.js:1144-1193 | no effect outside "main"; an unchanged flag only starts the clock; a release sets target 5 and default bounds; a reapply sets Binds' target and bounds, and an open result stamps the end time and moves to "ending"; either change adds the coreRotationUpdate animation; disks never move |
| `Game.GameData.ReleaseTension` | scripts/game.js:1162-1171 | target 5 and every disk with bounds [−5, −165], nothing else of the disks changed |
| `Game.GameData.ReapplyTension` | scripts/game.js:1172-1187 | the target and bounds are Binds'; −75 stamps the end time and moves to "ending", otherwise the state stays "main" |
| `Game.GameData.CoreRotationUpdateFrame` | scripts/game.js:548-582 | the rotation takes one step of 0.15 per ms towards the target; the result is false iff it is there; reaching −75 schedules one fade timer |
| `Game.GameData.FadeTimerFires` | scripts/game.js:573-575 | the timer starts the fade-out animation |
| `Game.GameData.FadeOutFrame` | scripts/game.js:584-599 | the fade grows by 0.8 per ms up to 200; the result is false iff it reached 200, and then the state is "end" and the win texts are set |
| `Game.GameData.AddWinText` | scripts/game.js:452-514 | the screen texts become WinScreen of the old ones, the disks and the cheater flag |
| `Game.GameData.BittingString` | scripts/game.js:462-466 | the loop builds "0" followed by each disk's true-gate slot, which is BittingText |

## Left out

- Canvas drawing, images, layer `modified` flags and the DOM. One effect of drawing is on engine
  state: `drawFrame` sets `cheater` whenever it draws a frame with the cutaway shown
  (scripts/game.js:827-828). The model does not do this; `cheater` is a free input of
  `Game.WinScreen` and `Game.GameData.AddWinText`.
- The browser event plumbing and the frame driver (`tickAnimations`, `gameLoop`). They are the
  callers of the modelled operations. So the removal of a finished animation from the active set
  is not modelled, and each animation frame is a method returning the source's continue flag.
- `cutawayPan`, `inputCutaway` and `tickFps`: presentation only. So the model only resets
  `showCutaway` and `cheater` (in `initGame`) and reads `cheater` for the win text; it never
  turns the cutaway on or marks a cheater.
- `performance.now()`: it is the parameter `now` of the inputs.
- The `setTimeout` dramatic pause: it is a counter of pending timers plus the method that the
  timer's callback performs. The 600 ms delay itself is not modelled.
- `generateSeed`: its nonzero result is a parameter. `Game.GameData.InitGame` takes `generated`
  for the call in `initGame` and `fallback` for the call inside `seed`.
- The "Picked in" text of `addWinText`: its minutes and `toFixed` formatting need floating-point
  text conversion.
- `Number(x) || 0` sanitising and the `!!` cast of inputs: the inputs are finite reals and a
  boolean.
- IEEE floating point: positions, deltas and slops are exact reals. Every constant is integral or
  a simple rational, so only rounding is lost.
- The `[...array]` copies of the default offsets and bounds: offsets and bounds are values, so
  there is no aliasing to model.
- `Game.GameData.InitGame`, `Generation.GenerateValidBitting`: these require `BittingReachable`,
  meaning some attempt of the do-while from the state is valid. The loop ends only if the xorshift
  stream ever produces a valid bitting, which the model assumes rather than proves.
- `Game.GameData.InitGame`: the model deals the lock first and resets the record after;
  scripts/game.js:404-442 resets first. The generator is created before both (line 295), and the
  reset touches none of the fields the deal reads or writes, so the end state is the same. The
  intermediate `gameData.disks = []` is not modelled either, since it is overwritten.
- `Random.RangeValue`, `Random.SeededRandom.RandIntRange`: for max < min the result is stated to
  lie in [min, 2·min − max), which is what JavaScript's `%` gives. Nothing in the game calls
  `randIntRange`.
