# A verified model of the Heart-fight simulator's combat engine

The simulator estimates how often one fixed turn against the Heart can be
survived. A turn starts from an 18-card pile that has been shuffled, a hand
drawn from it, and an energy budget. Cards are played until the player passes.
At the end of the turn a single hit lands, and its damage depends on weak
stacks and intangibility.

This Dafny project models the following parts of `src/main.rs`:

- **Card catalog** (`cards.dfy`, module `Cards`). A closed datatype of the 14
  card kinds. It has total tables for cost (`None` for unplayable cards),
  block, attack flag, weak stacks and discard score, plus the `Card as usize`
  numbering.
- **Draw pile** (`pile.dfy`, module `Pile`). The fixed 18-card composition and
  the forward swap shuffle. The random numbers are an injected function
  `rnd: nat -> nat`.
- **Combat engine** (`engine.dfy`, module `Engine`). An immutable `GameState`
  with these pure transitions:
  - `PlayableActions`
  - `PlayCard`
  - `Draw`
  - `Discard`
  - `LifeAfterHit` and `Survive`

  Every panic of the Rust program becomes an `Err` carrying a `Panic` kind.
  `Vec::pop` is modelled exactly by `Engine.Top` and `Engine.Draw`, which
  take the last deck card. `Vec::swap_remove` and `slice::swap` are modelled
  exactly in `seqs.dfy` (module `Seqs`), together with `count` and `in_hand`.
- **Learner inputs** (`features.dfy`, module `Features`). Only the integer
  parts are modelled: `encode_1_hot`, the 22-entry feature layout, and the
  mapping from actions to rows of the weight table.
- **Heuristic policy** (`policy.dfy`, module `Policy`). The decision cascade
  of `simulate`, the loop around it, and the starting states `dash_state` and
  `gamble_state`.
- **Rust integer semantics** (`rustint.dfy`, module `RustInt`). Division and
  remainder that truncate toward zero, and the float-to-integer cast.

Main results:

- The heuristic only issues legal plays. This includes the back-to-back Defend
  pair.
- The loop terminates, because each play removes at least one card from hand
  and deck together.
- From either starting state the deck never runs dry, whatever the shuffle.
  The comment on `draw` asserts this.
- `play_card` conserves cards. It keeps energy non-negative and never raises
  it, and it keeps the attack chain in 0..=2.
- The integer damage formula equals the real-number product 1.5 × 0.75,
  truncated toward zero.

Notes on the code's behaviour that the model keeps:

- Discard ties go to the first position in the hand (`min_by` keeps the first
  minimum).
- `play_card` also panics on a card without a cost.
- The float product is truncated once, at the end.
- The comment "28 features" at `src/main.rs:127` is wrong. `features` builds
  1 + 1 + 6 + 7 + 2 + 3 + 2 = 22 entries, which matches `NUM_FEATURES`
  (`Features.Features`).

## Model

| member | source | states |
|---|---|---|
| `Cards.Index` | src/main.rs:8-26 | `Card as usize` is the position of the kind in declaration order, and it is below `NUM_CARDS` = 14 |
| `Cards.Cost` | src/main.rs:29-46 | exactly Unplayable and Void have no cost; every other cost is between 0 and 2 |
| `Cards.Block` | src/main.rs:48-54 | block is never negative, and only Defend and LegSweep grant any |
| `Cards.Weak` | src/main.rs:75-82 | weak is never negative, and only CC, LegSweep and Neutralize apply any |
| `Cards.IsAttack` | src/main.rs:56-73 | every card that counts toward the attack chain is playable for at most one energy and grants no block |
| `Cards.DiscardScore` | src/main.rs:240-257 | scores lie in 1..=100; Unplayable alone scores 1 and is discarded first; App alone scores 100; the unplayable cards score at most 3 |
| `Cards.CatalogFacts` | src/main.rs:56-73 | the attacks are exactly DaggerThrow, HeelHook, Cost1Attack and Neutralize; HeelHook costs 1; Unplayable has the lowest discard score; the numbering is injective |
| `Seqs.SwapRemove` | src/main.rs:153 | `swap_remove(i)` shortens the vector by one; the last element moves into position `i`; every other position is unchanged; exactly one copy of the element at `i` leaves the multiset |
| `Seqs.Swap` | src/main.rs:514 | `swap` exchanges two positions and leaves the multiset unchanged |
| `Seqs.Count` | src/main.rs:195-197 | `count` equals the multiplicity of the card in the hand |
| `Seqs.FirstIndex` | src/main.rs:198-205 | `in_hand` returns `None` iff the card is absent; otherwise it returns the first position that holds the card |
| `Pile.Shuffle` | src/main.rs:510-516 | for any sequence of random numbers, the shuffle is a permutation: same length, same multiset |
| `Pile.CreateDrawPile` | src/main.rs:85-108 | the pile has 18 cards and the multiset of the fixed composition |
| `Pile.BasePileComposition` | src/main.rs:86-105 | the composition has 18 cards, with exactly one Expertise, one HeelHook and one DaggerThrow |
| `Engine.PlayableActions` | src/main.rs:141-151 | returns strictly increasing hand positions; a position is included iff its card has a cost and the cost is at most the current energy |
| `Engine.Draw` | src/main.rs:186-193 | panics iff the deck is empty; otherwise the former last deck card is appended to the hand (a one-card pop), the deck loses that card, hand and deck together keep their multiset, and energy drops to max(0, energy−1) iff the card is Void; nothing else changes |
| `Engine.DrawUntil` | src/main.rs:175-179 | the Expertise refill panics iff the deck has fewer cards than are missing from a six-card hand; otherwise the hand reaches max(old, 6), the drawn cards are the last ones of the deck in pop order (last card first) appended after the old hand, the deck keeps its front part, the cards are conserved, and energy stays non-negative and does not rise |
| `Engine.WorstIndex` | src/main.rs:226-235 | `min_by` picks a card of minimal discard score that no earlier card ties |
| `Engine.FirstMinUnique` | src/main.rs:226-235 | exactly one position satisfies that description, so the discarded card is determined |
| `Engine.Discard` | src/main.rs:225-237 | panics iff the hand is empty; otherwise it `swap_remove`s the first card of minimal score, the hand loses exactly one card, and only the hand changes |
| `Engine.PayAndResolve` | src/main.rs:158-167 | the effects every play has: the cost is paid; App sets intangible and nothing clears it; one life is lost unless intangible; block is added; an attack advances the chain, and the third resets it with 4 extra life; weak stacks grow by the card's weak; hand, deck and incoming damage are untouched |
| `Engine.PoppedTrans` | src/main.rs:186-193 | popping cards in two rounds is the same as popping them in one: the pop order is preserved across repeated `draw`s |
| `Engine.SpecialEffects` | src/main.rs:168-183 | the card-specific effects panic (with an empty deck) iff the deck holds fewer cards than they draw: 1 for HeelHook against a weak enemy, enough for six in hand for Expertise, 1 for DaggerThrow, none otherwise; they never add cards to hand and deck together |
| `Engine.SpecialEffectsCounters` | src/main.rs:168-183 | on success, PWail lowers incoming damage by 6; energy rises by at most HeelHook's one-point refund and stays non-negative; life, weak, intangible and the attack chain are untouched; a card that draws nothing leaves energy as it was |
| `Engine.SpecialEffectsCards` | src/main.rs:168-183 | on success, exactly the drawn cards move from deck to hand; DaggerThrow then discards one; Expertise leaves max(old, 6) cards in hand; only DaggerThrow's discard takes a card out of hand and deck together |
| `Engine.DaggerThrowCards` | src/main.rs:180-183 | DaggerThrow's draw then discard leaves the hand size as it was, takes one card off the deck, and creates no card |
| `Engine.PlayCard` | src/main.rs:152-184 | panics with an out-of-range index iff `i` is past the hand; with no cost iff the card is Unplayable or Void; with too little energy iff the cost exceeds the energy; on an empty deck iff the card is affordable and the deck cannot supply its draws; a successful play removes at least one card from hand and deck together |
| `Engine.PlayCardConserves` | src/main.rs:152-184 | after a successful play, the multiset of hand and deck loses the played card, plus one discarded card for DaggerThrow; the deck shrinks by the number of draws; Expertise leaves max(old−1, 6) cards in hand; a card that draws nothing changes the hand only by `swap_remove` |
| `Engine.PlayCardCounters` | src/main.rs:152-167 | after a successful play, energy stays non-negative and never rises; intangible is set by App and never cleared; weak grows by the card's weak; life changes by Beat of Death, block and the 4-life chain bonus; the attack chain stays in 0..=2 and resets on the third attack |
| `Engine.PlayKeepsInRange` | src/main.rs:152-184 | a successful play keeps energy in 0..=5, the hand at six cards or fewer, and the attack chain in 0..=2 |
| `Engine.LifeAfterHit` | src/main.rs:207-218 | life − 1 when intangible; otherwise life minus the real product heart_dmg × 1.5 (× 0.75 against a weak enemy), truncated toward zero |
| `Engine.Survive` | src/main.rs:220-223 | returns `Some(v)` iff v = `life_after_hit` > 0, and otherwise `None` |
| `Engine.SurviveExamples` | src/main.rs:207-223 | with 46 damage and 51 life, the turn is not survived either with or without weak; with 52 life and weak it returns `Some(1)`; intangible with 10 life returns `Some(9)` |
| `RustInt.TruncDiv` | src/main.rs:212-214 | the integer quotient truncates toward zero, as the float-to-`i32` cast does |
| `RustInt.TruncRem` | src/main.rs:428 | Rust's `%` takes the sign of the dividend and satisfies a = b·q + r |
| `RustInt.TruncReal` | src/main.rs:212-214 | `as i32` of a float is the integer next to it on the side of zero |
| `RustInt.TruncDivIsRealTrunc` | src/main.rs:211-215 | truncating integer division agrees with truncating the exact real quotient, so `trunc(9d/8)` and `trunc(3d/2)` are the float formula |
| `Features.Encode1Hot` | src/main.rs:121-125 | pushes max+1 entries, each 0 or 1; a 1 is present iff 0 ≤ num ≤ max, then only at position num |
| `Features.Features` | src/main.rs:128-139 | exactly 22 = `NUM_FEATURES` entries: predicted life, bias 1, then one-hot blocks at positions 2-7 (energy), 8-14 (hand size), 15-16 (intangible), 17-19 (attack chain) and 20-21 (weak) |
| `Features.InRangeFeaturesOneHot` | src/main.rs:128-139 | in a state within range, each of the five one-hot blocks has exactly one hot entry |
| `Features.ActionEntries` | src/main.rs:324-331 | one row per playable action, namely the row of that card's kind, then the pass row `NUM_CARDS`; there are `actions.len()+1` rows, each below `NUM_CARDS+1` |
| `Policy.PlayFirst` | src/main.rs:377-380 | playing the first copy of a card removes at least one card from hand and deck together |
| `Policy.Step` | src/main.rs:368-435 | one pass of the decision cascade that plays anything strictly lowers the number of cards left, which is why the loop terminates |
| `Policy.Choose` | src/main.rs:369-433 | the decision cascade: from non-negative energy every single card it picks is in hand and its cost is covered by the energy; the Defend pair is picked only against a weak enemy with two Defends and exactly 2 energy |
| `Policy.Run` | src/main.rs:367-435 | the loop stops only in a state where no rule fires, and never with more cards left than it started with |
| `Policy.Simulate` | src/main.rs:367-437 | `simulate` panics iff its loop does; otherwise it reports whether life after the hit is positive |
| `Policy.PlayFirstLegal` | src/main.rs:369-433 | a guarded play can only panic on an empty deck, and it keeps energy non-negative |
| `Policy.DefendPairLegal` | src/main.rs:376-381 | after the first Defend of the pair, a second Defend is still in hand and 1 energy remains, so both plays succeed |
| `Policy.StepLegal` | src/main.rs:368-435 | from non-negative energy, a pass of the cascade can only panic on an empty deck |
| `Policy.RunLegal` | src/main.rs:367-437 | from non-negative energy, `simulate` can panic only by drawing from an empty deck |
| `Policy.PlayKeepsFuel` | src/main.rs:186-188 | a legal play from a state whose deck covers the draw budget (6 per Expertise, 1 per HeelHook or DaggerThrow still in play) succeeds and keeps the deck covering the budget |
| `Policy.StepKeepsFuel` | src/main.rs:368-435 | the same holds for a whole pass of the cascade |
| `Policy.DefendPairKeepsFuel` | src/main.rs:376-381 | the back-to-back Defend pair from a fuelled state plays both Defends, ends with zero energy and stays fuelled |
| `Policy.RunNeverPanics` | src/main.rs:367-437 | from such a state, `simulate` never panics |
| `Policy.DrawN` | src/main.rs:450-452 | drawing n cards fails iff fewer than n are in the deck; otherwise the last n deck cards move to the end of the hand in pop order (last card first), the deck keeps its front part, and the cards are conserved |
| `Policy.DashState` | src/main.rs:439-454 | 51 life, energy at most 3, 4 cards in hand, 14 in the deck, and the pile's 18 cards in play |
| `Policy.GambleState` | src/main.rs:456-471 | 40 life, energy at most 5, 5 cards in hand, 13 in the deck, and the pile's 18 cards in play |
| `Policy.Fresh` | src/main.rs:440-449 | the turn's opening state: the given life and energy, no weak, no intangible, 46 incoming damage, an empty hand, and the 18-card pile as the deck |
| `Policy.StartsFuelled` | src/main.rs:85-105 | both starting states have at least 13 deck cards against a draw budget of 8 |
| `Policy.DashNeverPanics` | src/main.rs:439-454 | whatever the shuffle, `simulate` from the dash state runs to completion without panicking |
| `Policy.GambleNeverPanics` | src/main.rs:456-471 | whatever the shuffle, `simulate` from the gamble state runs to completion without panicking |
| `Policy.StepKeepsInRange` | src/main.rs:368-435 | a successful pass of the cascade keeps the state within the learner's ranges |
| `Policy.RunKeepsInRange` | src/main.rs:367-437 | the state `simulate` ends in stays within range |
| `Policy.StartsEndInRange` | src/main.rs:439-471 | whatever the shuffle, `simulate`'s loop from the dash or the gamble state completes and ends with energy in 0..=5, at most six cards in hand and the attack chain in 0..=2 |

## Left out

- The softmax policy is not modelled, because it is 32-bit float numerics and a foreign sampling distribution. This covers:
  - `choose_action_ml`'s logits, softmax and `WeightedIndex` sampling;
  - `compute_logit`'s dot product;
  - the REINFORCE `update`;
  - the `MlState` weight table;
  - the `life / 30` float division (`src/main.rs:260-364`, `src/main.rs:130`).
  Only the integer facts around them are kept: the feature layout and the action rows.
- The random sources (`DefaultRandomSource` in `shuffle`, `rand::rng()`) are not modelled. The shuffle takes an arbitrary function `rnd`, and `rnd(i)` stands for the number drawn at step `i`.
- The experiment driver is not modelled: `main`, `score`, `simulate_ml` and its `dbg!` output. These are console I/O and loops that count wins.
- Integers are unbounded, and `i32` overflow is not modelled. Every value in a turn stays far below 2^31.
- `Engine.LifeAfterHit`: the `f32` product equals the exact real product only while |heart_dmg| < 2^20, because the mantissa has 24 bits. Beyond that the model keeps the exact value, not the rounded float.
- `Pile.Shuffle`: the random numbers are arbitrary naturals rather than 64-bit words. The step reduces each one modulo `i + 1`, so the permutations are the same.
- The state left behind by a panic is not modelled: a panic aborts the program, so an `Err` carries only the kind of panic. For the same reason the order inside `play_card` is invisible: `swap_remove` runs first, then the cost check.
