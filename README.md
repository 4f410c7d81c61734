# Memory game rule engine, modelled in Dafny

The game script `script/main.js` runs a timed memory-matching game on a 4 x 8
board: a rule screen counts down 15 seconds, a game scene deals 32 shuffled
cards (12 numeric pairs worth 1..12 and 4 special pairs) and gives the player
60 seconds to turn up pairs, and a result screen shows the score and offers a
restart. A matched numeric pair scores `computeIncrement(a.value + b.value,
effects)`. A matched special pair activates a scoring effect once per kind:
kakeru multiplies by 2, 3 or 4; tasu adds 10, 20 or 30; tasuhiku adds +50 or
-50; kakewaru multiplies by 5 or by 0.2.

The model is split by the structure of the script:

- `helpers.dfy` (module `Helpers`): the decimal rendering JavaScript uses in
  `"n_" + n` and `"×" + n`, `pad2` and `clamp`.
- `random.dfy` (module `Rng`): `game.random` as an injected infinite stream
  of draws in [0, 1) with a count of draws taken, and `Math.floor(r * n)`.
- `deck.dfy` (module `Deck`): the cards, the deck-building loops, the in-place
  Fisher–Yates `shuffle` on an array, the row-by-row board layout and the
  composition of every shuffled deck.
- `effects.dfy` (module `Effects`): the effect each special kind creates,
  `computeIncrement` with its two accumulator loops, and the facts about it:
  inactive effects are ignored, order does not matter, no effects gives the
  base, the result may be negative, and `Math.round` never meets a tie on any
  effects list a game can build.
- `session.dfy` (module `Match`): the game scene's closure state as the class
  `Session`. It holds the board, the `revealed` / `matched` flags as arrays,
  `first`, `second`, `lock`, `score`, `timeLeft` and `effects`. Its methods
  are the tap handler (`reveal` plus `judge`), the deferred judgement,
  `activateSpecial` and the one-second game timer. `Tap`, `Resolve` and
  `Tick` preserve one session invariant, `Consistent`, which is stated over a
  value snapshot of the state. `ActivateSpecial` is a step of `Resolve` and
  carries no invariant in its own contract: the invariant holds again only
  once the special pair it belongs to is matched.
- `phases.dfy` (module `Phases`): the three scenes as the phases of one
  controller `Game`, driven by the events `Tick`, `Tap`, `Resolve` and
  `Restart`.

Timers are events. A `Tick` is one second of whichever countdown is running.
`Resolve` is the 550 ms timeout that `judge` schedules, and it is only
meaningful while the lock is set. Once a game's clock has run out the game
timer is cleared, so `Session.Tick` is only called while `timeLeft > 0`.

Two facts about the source that a reader might not expect:

- The dedup id of an effect is `"spec_" + kind` (`script/main.js:290`).
- The score can fall and can go below zero: `score += inc`
  (`script/main.js:397`) does not clamp, and an increment can be negative.
  Base 2 under ÷5 and -50 gives round(-49.6) = -50
  (`Effects.IncrementExamples`).

`activateSpecial`'s early return for an id already present is modelled
faithfully. `Match.SpecialMatchKeeps` shows it is never taken during a game,
since a kind is activated only by matching its single pair.

## Model

| member | source | states |
|---|---|---|
| Helpers.DecimalString | script/main.js:269 | the decimal text of n is a non-empty digit string, one character exactly when n < 10, with no leading zero |
| Helpers.DecimalRoundTrip | script/main.js:269 | reading the decimal text of n back gives n |
| Helpers.DecimalInjective | script/main.js:269 | distinct numbers have distinct texts, so the keys `"n_" + n` differ |
| Helpers.IntToString | script/main.js:308 | a number's text is its digits, preceded by "-" exactly when it is negative |
| Helpers.IntRoundTrip | script/main.js:299-309 | the text of every integer, negative ones included, reads back as that integer |
| Helpers.IntToStringInjective | script/main.js:299-309 | distinct integers have distinct texts, so an effect label such as "×3" or "-50" determines its value |
| Helpers.Pad2 | script/main.js:26-28 | for every n the text is at least two characters long, starts with "0" exactly when n < 10, and is all digits when n >= 0 |
| Helpers.Pad2TwoDigits | script/main.js:26-28 | for 0..99, pad2 gives two digits, starts with "0" exactly when n < 10, and reads back as n |
| Helpers.Clamp | script/main.js:12-14 | the result is at least min, at most max when min <= max, v when v is in range, min below the range, max above it, and min when max < min |
| Rng.Random.Generate | script/main.js:18 | `generate()` returns the next draw of the stream and consumes exactly one |
| Rng.ScaledBelow | script/main.js:18 | a draw times n lies in [0, n], below n when n > 0 |
| Rng.ChoiceIndex | script/main.js:18 | `floor(r * n)` is an index below n, the integer part of r * n |
| Deck.KindNameInjective | script/main.js:272 | the four kind names are distinct |
| Deck.NormalCard | script/main.js:269-270 | the numeric card for n scores n and its key carries the prefix "n_" |
| Deck.SpecialCard | script/main.js:274-275 | the special card for a kind carries that kind and a key with the prefix "s_", so it never shares a key with a numeric card |
| Deck.PairCards | script/main.js:268-275 | the builder makes 16 pair cards |
| Deck.PairCardsAt | script/main.js:268-275 | pair card m is the numeric card m + 1 for m < 12, then the specials in the order kakeru, kakewaru, tasu, tasuhiku |
| Deck.Doubled | script/main.js:269-270 | pushing every card twice doubles the length |
| Deck.UnshuffledDeck | script/main.js:265-276 | the deck the builder produces, each pair card pushed twice in a row, has 32 cards |
| Deck.DoubledPush | script/main.js:269-270 | one more card pushed twice appends two copies of it |
| Deck.NumericPairsDeck | script/main.js:268-271 | after n rounds the numeric loop has pushed 2n cards |
| Deck.SpecialPairsDeck | script/main.js:273-276 | after i rounds the special loop has pushed 2i cards |
| Deck.NumericPairsDoubled | script/main.js:268-271 | the numeric loop pushes each of the first n pair cards twice, in order |
| Deck.SpecialPairsDoubled | script/main.js:273-276 | the special loop continues the same pattern for the four special pair cards |
| Deck.BuiltIsUnshuffled | script/main.js:267-276 | the two loops together push exactly the unshuffled deck |
| Deck.BuildDeck | script/main.js:265-276 | the loops build the deck of every pair card pushed twice in a row |
| Deck.Swap | script/main.js:19-21 | the swap exchanges positions i and j and leaves every other position alone |
| Deck.SwapPermutes | script/main.js:19-21 | a swap keeps the multiset of elements |
| Deck.ShuffleStep | script/main.js:17-22 | one pass swaps index i with the drawn index and continues at i - 1 with the next draw |
| Deck.ShuffleFromPermutes | script/main.js:17-22 | the passes from index i down to 1 keep the length and the multiset |
| Deck.ShuffleFrom | script/main.js:17-22 | the passes of the shuffle loop from index i down to 1 keep the length of the array |
| Deck.Shuffled | script/main.js:16-24 | `shuffle(arr, random)` returns an array as long as its input; the permutation is ShuffledPermutes |
| Deck.ShuffledPermutes | script/main.js:16-24 | whatever the draws, the shuffle is a permutation of its input |
| Deck.Shuffle | script/main.js:16-24 | the in-place loop leaves the array equal to the shuffle of its old contents, taking length - 1 draws (none for an empty array) |
| Deck.LayOutBoard | script/main.js:418-421 | slot `r * 8 + c` takes `deck[idx]`, so the board holds every deck position once, in order |
| Deck.Deal | script/main.js:265-277 | the board is the shuffle of the built deck, has 32 cards, is a permutation of the built deck, and takes 31 draws |
| Deck.NormalKeyAt | script/main.js:269 | numeric card n has key `"n_" + n` |
| Deck.PairKeysMatch | script/main.js:268-275 | the 16 pair keys are n_1..n_12, s_kakeru, s_kakewaru, s_tasu, s_tasuhiku |
| Deck.PairKeysDistinct | script/main.js:268-275 | the 16 pair keys are pairwise distinct |
| Deck.DoubledMultiset | script/main.js:269-270 | pushing each card twice gives each card twice the multiplicity |
| Deck.UnshuffledMultiplicity | script/main.js:267-276 | each pair card occurs exactly twice in the built deck, and no other card occurs |
| Deck.DeckCardIsPairCard | script/main.js:267-277 | every card of a shuffled deck is one of the 16 pair cards |
| Deck.PairCardValue | script/main.js:269 | numeric values are in 1..12 |
| Deck.SameKeySameCard | script/main.js:267-277 | two cards of a deck with equal keys are the same card: same type, value or kind, and image |
| Deck.SameKeySameCards | script/main.js:267-277 | the same, for all pairs of positions at once |
| Deck.KeyCount | script/main.js:267-277 | in a shuffled deck a pair key occurs exactly twice and any other key never |
| Deck.KeyCounts | script/main.js:267-277 | the same, for every key at once |
| Deck.DeckSizeOf | script/main.js:267-277 | a shuffled deck has 32 cards |
| Deck.NormalValues | script/main.js:269 | every numeric card of a deck has a value in 1..12 |
| Deck.NormalPairBase | script/main.js:395 | a numeric pair's base `a.value + b.value` is an even number in 2..24 |
| Deck.PairCardSpecial | script/main.js:274 | a special pair card is determined by its kind |
| Deck.SpecialKeyByKind | script/main.js:274 | in a deck, two special cards of the same kind have the same key |
| Deck.AtMostTwoPerKey | script/main.js:267-277 | no key occurs on a third card |
| Effects.EffectIdInjective | script/main.js:290 | distinct kinds have distinct ids `"spec_" + kind` |
| Effects.KakeruOutcomes | script/main.js:293-298 | kakeru creates a multiply effect of ×2, ×3 or ×4 with the matching label |
| Effects.TasuOutcomes | script/main.js:299-304 | tasu creates an add effect of +10, +20 or +30 with the matching label |
| Effects.TasuhikuOutcomes | script/main.js:305-310 | tasuhiku creates +50 labelled "+50" on a draw below 0.5, and -50 labelled "-50" otherwise |
| Effects.KakewaruOutcomes | script/main.js:311-315 | kakewaru creates ×5 labelled "×5" on a draw below 0.5, and ×1/5 labelled "÷5" otherwise |
| Effects.EffectFor | script/main.js:293-315 | the effect created for a kind carries the id `"spec_" + kind` and starts active; its value per kind is stated by the outcome lemmas below |
| Effects.EffectOutcomes | script/main.js:288-315 | every created effect carries id `"spec_" + kind`, is active, and has its kind's operation |
| Effects.Product | script/main.js:84-90 | definition of the multiplier `mul`: the product of the values of the active multiply and mulOrDiv5 effects, in order (no contract of its own; ProductIsFold, FoldActiveOnly and FoldPermutation state its properties) |
| Effects.Sum | script/main.js:93-100 | definition of the additive term `add`: the sum of the values of the active add and plusMinus50 effects, in order (no contract of its own; SumIsFold, FoldActiveOnly and FoldPermutation state its properties) |
| Effects.Round | script/main.js:103 | `Math.round(x)` is the integer n with n - 1/2 <= x < n + 1/2 |
| Effects.IncrementOf | script/main.js:80-104 | definition of the increment: `Math.round(base * mul + add)` (no contract of its own; ComputeIncrement is proved equal to it, and NoTie and OrderIndependent state its properties) |
| Effects.ComputeIncrement | script/main.js:80-104 | the two loops compute round(base × product of active multiply/mulOrDiv5 values + sum of active add/plusMinus50 values) |
| Effects.NoEffectsIncrement | script/main.js:80-104 | with no effects the increment is the base |
| Effects.IncrementExamples | script/main.js:80-104 | base 10 with ×3 and +20 gives 50; base 2 with ÷5 and -50 gives -50, a negative increment |
| Effects.ActiveOnly | script/main.js:86 | the filtered list holds only active effects |
| Effects.ProductIsFold | script/main.js:84-90 | the multiplier is a left fold of the factors under multiplication |
| Effects.SumIsFold | script/main.js:93-100 | the additive term is a left fold of the terms under addition |
| Effects.FoldPush | script/main.js:84-90 | folding one more effect applies the operation once more |
| Effects.FoldActiveOnly | script/main.js:86 | a fold in which inactive effects are identity operands ignores them |
| Effects.ActiveOnlyAgrees | script/main.js:84-100 | dropping inactive effects keeps the multiplier and the additive term |
| Effects.SameTotalsSameIncrement | script/main.js:90-103 | equal multipliers and equal additive terms give equal increments |
| Effects.InactiveIgnored | script/main.js:86 | inactive effects do not change the increment |
| Effects.FoldRemoveAt | script/main.js:84-100 | under a regrouping operation, any one effect may be applied last |
| Effects.RemoveOne | script/main.js:84-100 | removing position k removes one copy of that element from the multiset |
| Effects.PermutationRest | script/main.js:84-100 | removing matching elements from two permutations leaves permutations |
| Effects.FoldPermutation | script/main.js:84-100 | a fold under a regrouping operation does not depend on the order |
| Effects.PermutationAgrees | script/main.js:84-100 | permutations of the effects have the same multiplier and additive term |
| Effects.OrderIndependent | script/main.js:80-104 | any rearrangement of the effects gives the same increment |
| Effects.BuiltFromPush | script/main.js:293-315 | an activation appends its own effect, keeping the effects list in step with the activations |
| Effects.DistinctKindsPush | script/main.js:289-291 | activating a kind not activated before keeps the kinds distinct |
| Effects.ActivatedIds | script/main.js:290-291 | on a list built by activations, the dedup test finds `"spec_" + k` exactly when kind k was activated |
| Effects.KindsOfPush | script/main.js:289-291 | with distinct kinds, the last activation adds one new kind |
| Effects.KindsOfCount | script/main.js:289-291 | distinct activations have as many kinds as activations |
| Effects.AtMostFourKinds | script/main.js:289-291 | there are at most four distinct activations |
| Effects.AtMostFourEffects | script/main.js:289-291 | dedup bounds the effects list to four effects |
| Effects.ActivationShape | script/main.js:293-315 | every created effect has a whole additive term, and a whole factor except mulOrDiv5, which is 5 or 1/5; only kakewaru creates mulOrDiv5 |
| Effects.ActivatedShape | script/main.js:293-315 | effects built by distinct activations are all well shaped and hold at most one mulOrDiv5 |
| Effects.IntegralMul | script/main.js:103 | step of the proof of NoTie: whole numbers multiply to a whole number |
| Effects.IntegralAdd | script/main.js:103 | step of the proof of NoTie: whole numbers add to a whole number |
| Effects.SumIntegral | script/main.js:93-100 | the additive term of well-shaped effects is whole |
| Effects.ProductIntegral | script/main.js:84-90 | without mulOrDiv5 the multiplier is whole |
| Effects.FifthsStep | script/main.js:103 | step of the proof of NoTie: a whole factor keeps five times the multiplier whole |
| Effects.Div5Step | script/main.js:103 | step of the proof of NoTie: multiplying a whole multiplier by 5 or 1/5 gives a multiplier whose fivefold is whole |
| Effects.LastDiv5Fifths | script/main.js:103 | step of the proof of NoTie: when the single mulOrDiv5 comes last, five times the multiplier is whole |
| Effects.ProductFifths | script/main.js:84-90 | with at most one mulOrDiv5, five times the multiplier is whole |
| Effects.FiveTimesWhole | script/main.js:90-100 | then five times `base * m + a` is whole |
| Effects.NoHalfway | script/main.js:103 | step of the proof of NoTie: a value whose fivefold is whole lies strictly within 1/2 of its rounding |
| Effects.NoTie | script/main.js:103 | over well-shaped effects with at most one mulOrDiv5, `base * m + a` is never halfway between integers |
| Effects.NeverATie | script/main.js:103 | on every effects list a game builds, `Math.round` never meets a tie |
| Match.MatchKeepsPairs | script/main.js:391-392 | matching the two cards of one key keeps the two cards of every pair matched together |
| Match.NormalMatchKeepsSpecials | script/main.js:394-397 | matching a numeric pair leaves the link between matched special pairs and activated kinds alone |
| Match.SpecialMatchKeepsSpecials | script/main.js:402-404 | matching a special pair and activating its kind keeps a special pair matched exactly when its kind is activated |
| Match.InitialConsistent | script/main.js:441 | a new session, all cards face down and unmatched with nothing selected, score 0, 60 seconds and no effects, satisfies the invariant |
| Match.TapKeepsSelection | script/main.js:444-456 | turning up a face-down unmatched card while unlocked makes it `first`, or `second` with the lock, and keeps the selection invariant |
| Match.MatchKeepsSelection | script/main.js:389-415 | matching the selected pair, clearing the selection and releasing the lock keeps the selection invariant |
| Match.HideKeepsSelection | script/main.js:405-414 | hiding a mismatched selected pair, clearing the selection and releasing the lock keeps the selection invariant |
| Match.SpecialMatchKeepsEffects | script/main.js:402-404 | a special pair being matched has no effect yet, and appending its effect keeps the effects invariant |
| Match.TapKeeps | script/main.js:444-456 | a tap that passes the guard keeps the session invariant |
| Match.NumericMatchKeeps | script/main.js:394-397 | matching a numeric pair and adding any increment keeps the session invariant |
| Match.SpecialMatchKeeps | script/main.js:402-404 | the dedup branch of `activateSpecial` is never taken when a special pair is matched, and appending its effect keeps the session invariant |
| Match.HideKeeps | script/main.js:405-414 | turning a mismatched pair face down keeps the session invariant |
| Match.SessionEffects | script/main.js:288-291 | in every session state there are at most four effects and no increment meets a rounding tie |
| Match.Session.constructor | script/main.js:265-277 | the scene starts with the board shuffled from the built deck (31 draws), every card face down and unmatched, nothing selected, unlocked, score 0, 60 seconds and no effects, and the invariant holds |
| Match.Session.Tap | script/main.js:444-456 | a tap while locked, or on a matched or face-up card, changes nothing; otherwise the card turns face up and becomes `first`, or `second` with `lock` set; score, clock and effects are untouched |
| Match.Session.ActivateSpecial | script/main.js:288-318 | if an effect with id `"spec_" + kind` exists nothing changes and nothing is drawn; otherwise exactly one draw is taken and the kind's effect for it is appended |
| Match.Session.Resolve | script/main.js:389-415 | equal keys: both cards matched and still face up; a numeric pair adds `computeIncrement(a.value + b.value, effects)` and draws nothing, a special pair appends its kind's effect for the next draw and keeps the score; different keys: both face down, nothing else changes; always: selection cleared, lock released, clock unchanged, invariant kept |
| Match.Session.ScoreNumericPair | script/main.js:394-397 | a numeric pair is matched and the score grows by `computeIncrement(a.value + b.value, effects)` |
| Match.Session.MatchNumericPair | script/main.js:390-397 | both cards are matched, the score grows by the given increment, the selection is released, effects are unchanged |
| Match.Session.MatchSpecialPair | script/main.js:402-404 | both cards are matched, exactly one draw is taken and the kind's effect appended, the score is unchanged |
| Match.Session.HidePair | script/main.js:405-414 | both cards are turned face down, the selection is released, nothing else changes |
| Match.Session.Tick | script/main.js:463-471 | the clock drops by one; the game is over exactly when it reaches 0, which is exactly after 60 ticks |
| Phases.Game.constructor | script/main.js:543-545 | the game opens on the rule screen with 15 seconds to go |
| Phases.Game.Tick | script/main.js:153-163 | the rule countdown drops by one and at 0 starts a fresh game (board shuffled, score 0, 60 seconds, no effects); in a game the clock drops, and at 0 the result screen takes the current score, which is the value handed to `submitScore`. A tick that does not end the game changes only the clock: board, selection, lock, revealed and matched flags, score and effects are kept. Starting a game takes 31 draws; every other tick takes none, and the result screen does not tick |
| Phases.Game.Tap | script/main.js:444-447 | only a running game takes taps; a guarded tap changes nothing, otherwise the card is revealed and becomes first, or second with the lock set; a tap never changes matched cards, score, clock or effects, and takes no draw |
| Phases.Game.Resolve | script/main.js:389 | the pending judgement of a running game releases the lock and leaves the clock alone; without a pending pair, or once the game has ended, nothing is drawn |
| Phases.Game.Restart | script/main.js:535-537 | the result screen's button returns to the rule screen with 15 seconds; in other phases nothing changes |

## Left out

- Rendering, fonts, labels, sprites and opacity changes (`reveal` and `setMatched` are modelled only through the `revealed` and `matched` flags), the rule text, and the score, time, message and effect-list label texts. Effect labels are kept as the `caption` of each effect. These are presentation with no rule logic.
- Asset loading and sound playback. These are calls into the host engine.
- Board geometry (card sizes from the image aspect ratio, pixel positions). Only the slot-to-deck index `r * 8 + c` is modelled.
- Wall-clock scheduling (`setInterval`, `setTimeout(…, 550)`, `replaceScene`, `clearInterval`). The timers are explicit `Tick` and `Resolve` events. A pending judgement whose game has already ended is dropped, as its scene is.
- `submitScore` and its `try`/`catch`. The host callback is outside the model; `Phases.Game.Tick` returns the score it would receive.
- IEEE-754 double arithmetic. The value 0.2 and all products and sums are exact reals. `Effects.NeverATie` shows the exact value is never a rounding tie, but the effect of double rounding on it is not modelled.
- The statistical uniformity of the shuffle. Only the permutation property and the exact draws used are modelled.
- `Phases.Game.Resolve`: states only that the lock is released and the clock kept; what the judgement does to cards, score and effects is the contract of `Match.Session.Resolve`, which it calls.
- The two deck pushes per pair create two objects with equal fields; the model holds them as two equal values, so object identity of card data is not modelled.
