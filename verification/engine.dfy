/**
  The combat state and its transitions: which cards are playable, playing a
  card, drawing, discarding, and the end-of-turn survival check.
  Every panic of the Rust program becomes an `Err` carrying the kind of panic.
 */
module Engine {
  import opened Wrappers
  import opened RustInt
  import opened Cards
  import opened Seqs

  /** The combat state. `life` is hit points plus block; `weak` counts the enemy's weak stacks. */
  datatype GameState = GameState(
    life: int,
    weak: int,
    energy: int,
    hand: seq<Card>,
    deck: seq<Card>,
    intangible: bool,
    heartDmg: int,
    attacksPlayed: int)

  /** The ways a transition aborts. */
  datatype Panic =
    | NoSuchCard       // `swap_remove` at an index past the end of the hand
    | CardNotPlayable  // the chosen card has no energy cost
    | NotEnoughEnergy  // the cost exceeds the energy left
    | EmptyDeck        // drawing from an empty deck
    | EmptyHand        // discarding from an empty hand
    | CardNotInHand    // the heuristic expected a Defend that is not there

  function Max(a: int, b: int): int
  {
    if a >= b then a else b
  }

  /** Every card still in play this turn: the hand and the deck together. */
  function CardsLeft(s: GameState): multiset<Card>
  {
    multiset(s.hand) + multiset(s.deck)
  }

  /** The card `draw` takes: the last element of the deck. */
  function Top(s: GameState): Card
    requires |s.deck| > 0
  {
    s.deck[|s.deck| - 1]
  }

  /**
    `t` is `s` after cards were popped off the end of its deck onto the end of
    its hand, one at a time: the old hand is a prefix of the new one, the deck
    keeps its front part, and the k-th card drawn is the k-th from the end.
   */
  predicate Popped(s: GameState, t: GameState)
  {
    && |s.hand| <= |t.hand|
    && |t.deck| <= |s.deck|
    && |t.hand| - |s.hand| == |s.deck| - |t.deck|
    && s.hand == t.hand[..|s.hand|]
    && t.deck == s.deck[..|t.deck|]
    && forall j :: |s.hand| <= j < |t.hand| ==> t.hand[j] == s.deck[|s.deck| - 1 - (j - |s.hand|)]
  }

  /** Popping nothing is popping. */
  lemma PoppedNone(s: GameState)
    ensures Popped(s, s)
  {
    assert s.hand[..|s.hand|] == s.hand;
    assert s.deck[..|s.deck|] == s.deck;
  }

  /** Popping the last card of the deck onto the hand is popping. */
  lemma PoppedOne(s: GameState, hand: seq<Card>, deck: seq<Card>)
    requires |s.deck| > 0 && hand == s.hand + [Top(s)] && deck == s.deck[..|s.deck| - 1]
    ensures forall e :: Popped(s, s.(hand := hand, deck := deck, energy := e))
  {
    assert hand[..|s.hand|] == s.hand;
    assert hand[|s.hand|] == s.deck[|s.deck| - 1];
  }

  /** Popping in two rounds is popping. */
  lemma PoppedTrans(s: GameState, t: GameState, u: GameState)
    requires Popped(s, t) && Popped(t, u)
    ensures Popped(s, u)
  {
    assert u.hand[..|s.hand|] == u.hand[..|t.hand|][..|s.hand|];
    assert u.deck == u.deck[..|u.deck|];
    forall j | |s.hand| <= j < |u.hand|
      ensures u.hand[j] == s.deck[|s.deck| - 1 - (j - |s.hand|)]
    {
      if j < |t.hand| {
        assert u.hand[j] == u.hand[..|t.hand|][j] == t.hand[j];
      } else {
        assert u.hand[j] == t.deck[|t.deck| - 1 - (j - |t.hand|)];
      }
    }
  }

  /** A card that has a cost and whose cost the energy covers. */
  predicate CanPlay(c: Card, energy: int)
  {
    Cost(c).Some? && Cost(c).value <= energy
  }

  // ---------------------------------------------------------------------------
  // Playable actions

  /** `playable_actions`: the hand positions, in increasing order, of the cards that can be played now. */
  method PlayableActions(s: GameState) returns (r: seq<nat>)
    ensures forall k :: 0 <= k < |r| ==> r[k] < |s.hand|
    ensures forall k, l :: 0 <= k < l < |r| ==> r[k] < r[l]
    ensures forall j :: 0 <= j < |s.hand| ==> (j in r <==> CanPlay(s.hand[j], s.energy))
  {
    r := [];
    var i := 0;
    while i < |s.hand|
      invariant i <= |s.hand|
      invariant forall k :: 0 <= k < |r| ==> r[k] < i
      invariant forall k, l :: 0 <= k < l < |r| ==> r[k] < r[l]
      invariant forall j :: 0 <= j < i ==> (j in r <==> CanPlay(s.hand[j], s.energy))
    {
      if Cost(s.hand[i]).Some? && s.energy >= Cost(s.hand[i]).value {
        r := r + [i];
      }
      i := i + 1;
    }
  }

  // ---------------------------------------------------------------------------
  // Draw

  /**
    `draw`: pops the top (last) card of the deck onto the end of the hand; a
    Void costs one energy, never going below zero.
   */
  function Draw(s: GameState): (r: Result<GameState, Panic>)
    ensures r.Err? <==> |s.deck| == 0
    ensures r.Err? ==> r.error == EmptyDeck
    ensures r.Ok? ==>
              var t := r.value;
              && t.hand == s.hand + [Top(s)]
              && t.deck + [Top(s)] == s.deck
              && Popped(s, t)
              && CardsLeft(t) == CardsLeft(s)
              && (Top(s) == Void ==> t.energy == Max(0, s.energy - 1))
              && (Top(s) != Void ==> t.energy == s.energy)
              && t == s.(hand := t.hand, deck := t.deck, energy := t.energy)
  {
    if |s.deck| == 0 then Err(EmptyDeck)
    else
      var card := s.deck[|s.deck| - 1];
      var deck := s.deck[..|s.deck| - 1];
      assert s.deck == deck + [card];
      PoppedOne(s, s.hand + [card], deck);
      var energy := if card == Void then Max(0, s.energy - 1) else s.energy;
      Ok(s.(energy := energy, hand := s.hand + [card], deck := deck))
  }

  /** The `while hand.len() < cap { draw }` loop that Expertise runs. */
  function DrawUntil(s: GameState, cap: nat): (r: Result<GameState, Panic>)
    ensures r.Err? <==> |s.deck| < cap - |s.hand|
    ensures r.Err? ==> r.error == EmptyDeck
    ensures r.Ok? ==>
              var t := r.value;
              && |t.hand| == Max(|s.hand|, cap)
              && |t.deck| == |s.deck| - (|t.hand| - |s.hand|)
              && Popped(s, t)
              && CardsLeft(t) == CardsLeft(s)
              && (s.energy >= 0 ==> 0 <= t.energy <= s.energy)
              && t == s.(hand := t.hand, deck := t.deck, energy := t.energy)
    decreases |s.deck|
  {
    if |s.hand| >= cap then PoppedNone(s); Ok(s)
    else
      match Draw(s)
      case Err(e) => Err(e)
      case Ok(t) =>
        var r := DrawUntil(t, cap);
        if r.Ok? then DrawUntilStep(s, t, r.value); r else r
  }

  /** One draw followed by more draws: the facts `DrawUntil` states carry over from the later draws to all of them. */
  lemma DrawUntilStep(s: GameState, t: GameState, u: GameState)
    requires Draw(s) == Ok(t)
    requires Popped(t, u) && CardsLeft(u) == CardsLeft(t)
    requires t.energy >= 0 ==> 0 <= u.energy <= t.energy
    requires u == t.(hand := u.hand, deck := u.deck, energy := u.energy)
    ensures Popped(s, u) && CardsLeft(u) == CardsLeft(s)
    ensures s.energy >= 0 ==> 0 <= u.energy <= s.energy
    ensures u == s.(hand := u.hand, deck := u.deck, energy := u.energy)
  {
    PoppedTrans(s, t, u);
  }

  // ---------------------------------------------------------------------------
  // Discard

  /**
    `k` is where `min_by` over the first `n` cards of the hand stops: a card of
    minimal discard score, and the first such card.
   */
  predicate IsFirstMinUpTo(hand: seq<Card>, n: int, k: int)
    requires n <= |hand|
  {
    && 0 <= k < n
    && (forall j :: 0 <= j < n ==> DiscardScore(hand[k]) <= DiscardScore(hand[j]))
    && (forall j :: 0 <= j < k ==> DiscardScore(hand[j]) > DiscardScore(hand[k]))
  }

  /** The card `discard` removes: the first card of minimal discard score. */
  predicate IsFirstMin(hand: seq<Card>, k: int)
  {
    IsFirstMinUpTo(hand, |hand|, k)
  }

  /** The position `min_by` selects, scanning the hand front to back. */
  function WorstIndex(hand: seq<Card>): (k: nat)
    requires |hand| > 0
    ensures IsFirstMin(hand, k)
  {
    WorstFrom(hand, 1, 0)
  }

  /** The scan from position `i` on, with `best` the selection among the first `i` cards. */
  function WorstFrom(hand: seq<Card>, i: nat, best: nat): (k: nat)
    requires best < i <= |hand|
    requires IsFirstMinUpTo(hand, i, best)
    ensures IsFirstMin(hand, k)
    decreases |hand| - i
  {
    if i == |hand| then best
    else if DiscardScore(hand[i]) < DiscardScore(hand[best]) then WorstFrom(hand, i + 1, i)
    else WorstFrom(hand, i + 1, best)
  }

  /** At most one position is the first card of minimal score. */
  lemma FirstMinUnique(hand: seq<Card>, a: int, b: int)
    requires IsFirstMin(hand, a) && IsFirstMin(hand, b)
    ensures a == b
  {
    assert DiscardScore(hand[a]) <= DiscardScore(hand[b]);
    assert DiscardScore(hand[b]) <= DiscardScore(hand[a]);
  }

  /** `discard`: removes, by `swap_remove`, the first card of minimal discard score. */
  function Discard(s: GameState): (r: Result<GameState, Panic>)
    ensures r.Err? <==> |s.hand| == 0
    ensures r.Err? ==> r.error == EmptyHand
    ensures r.Ok? ==>
              var t := r.value;
              && (exists k :: IsFirstMin(s.hand, k) && t.hand == SwapRemove(s.hand, k))
              && |t.hand| == |s.hand| - 1
              && multiset(t.hand) <= multiset(s.hand)
              && t == s.(hand := t.hand)
  {
    if |s.hand| == 0 then Err(EmptyHand)
    else Ok(s.(hand := SwapRemove(s.hand, WorstIndex(s.hand))))
  }

  // ---------------------------------------------------------------------------
  // Playing a card

  /**
    The effects every card has, for `c` already out of the hand: pay its
    cost; App grants intangible; one life is lost to Beat of Death unless
    intangible; block; every third attack resets the chain and gives 4 life;
    weak stacks. Hand, deck and incoming damage are untouched.
   */
  function PayAndResolve(s: GameState, c: Card): (t: GameState)
    requires Cost(c).Some?
    ensures t == s.(energy := t.energy, intangible := t.intangible, life := t.life,
                    attacksPlayed := t.attacksPlayed, weak := t.weak)
    ensures t.energy == s.energy - Cost(c).value
    ensures t.intangible <==> s.intangible || c == App
    ensures t.weak == s.weak + Weak(c)
    ensures !IsAttack(c) && s.attacksPlayed != 3 ==>
              t.attacksPlayed == s.attacksPlayed && t.life == s.life - (if t.intangible then 0 else 1) + Block(c)
    ensures !IsAttack(c) && s.attacksPlayed == 3 ==>
              t.attacksPlayed == 0 && t.life == s.life - (if t.intangible then 0 else 1) + Block(c) + 4
    ensures IsAttack(c) && s.attacksPlayed == 2 ==> t.attacksPlayed == 0 && t.life == s.life + (if t.intangible then 4 else 3)
    ensures IsAttack(c) && s.attacksPlayed != 2 ==> t.attacksPlayed == s.attacksPlayed + 1 && t.life == s.life - (if t.intangible then 0 else 1)
    ensures 0 <= s.attacksPlayed <= 2 ==> 0 <= t.attacksPlayed <= 2
  {
    var energy := s.energy - Cost(c).value;
    var intangible := s.intangible || c == App;
    var life := s.life - (if intangible then 0 else 1) + Block(c);
    var attacks := s.attacksPlayed + (if IsAttack(c) then 1 else 0);
    var chained := attacks == 3;
    s.(energy := energy,
       intangible := intangible,
       life := if chained then life + 4 else life,
       attacksPlayed := if chained then 0 else attacks,
       weak := s.weak + Weak(c))
  }

  /** How many cards playing `c` draws, given the weak stacks and the hand size once `c` has left the hand. */
  function CardsDrawn(c: Card, weak: int, handSize: int): int
  {
    if c == HeelHook && weak > 0 then 1
    else if c == Expertise then Max(0, 6 - handSize)
    else if c == DaggerThrow then 1
    else 0
  }

  /**
    The card-specific effects: HeelHook against a weak enemy refunds one
    energy and draws; PWail lowers the incoming damage by 6; Expertise draws
    until six cards are in hand; DaggerThrow draws, then discards. Each
    effect is guarded by the identity of the card, so at most one applies to
    a play, and the Rust program's sequence of four guarded effects is one case
    split here. They panic exactly when the deck holds fewer cards than they draw.
   */
  function SpecialEffects(s: GameState, c: Card): (r: Result<GameState, Panic>)
    ensures r.Err? <==> |s.deck| < CardsDrawn(c, s.weak, |s.hand|)
    ensures r.Err? ==> r.error == EmptyDeck
    ensures r.Ok? ==> |r.value.hand| + |r.value.deck| <= |s.hand| + |s.deck|
  {
    match c
    case HeelHook => if s.weak > 0 then Draw(s.(energy := s.energy + 1)) else Ok(s)
    case PWail => Ok(s.(heartDmg := s.heartDmg - 6))
    case Expertise => DrawUntil(s, 6)
    case DaggerThrow =>
      (match Draw(s)
       case Err(e) => Err(e)
       case Ok(t) => Discard(t))
    case _ => Ok(s)
  }

  /**
    What the card-specific effects do to the counters when they succeed:
    PWail lowers the incoming damage, energy rises only by HeelHook's refund,
    and life, weak, intangible and the attack chain are left alone.
   */
  lemma SpecialEffectsCounters(s: GameState, c: Card)
    requires SpecialEffects(s, c).Ok?
    ensures
      var t := SpecialEffects(s, c).value;
      && t.life == s.life && t.weak == s.weak
      && t.intangible == s.intangible && t.attacksPlayed == s.attacksPlayed
      && t.heartDmg == s.heartDmg - (if c == PWail then 6 else 0)
      && (s.energy >= 0 ==> 0 <= t.energy <= s.energy + (if c == HeelHook && s.weak > 0 then 1 else 0))
      && (CardsDrawn(c, s.weak, |s.hand|) == 0 ==> t.energy == s.energy)
  {
    match c
    case HeelHook =>
    case PWail =>
    case Expertise =>
    case DaggerThrow =>
      var t := Draw(s).value;
      assert Discard(t).value.energy == t.energy;
    case _ =>
      assert SpecialEffects(s, c) == Ok(s);
  }

  /**
    What the card-specific effects do to hand and deck when they succeed:
    exactly `CardsDrawn` cards move from the deck to the hand, DaggerThrow
    then discards one, and Expertise leaves six cards in hand. No card is
    created; only DaggerThrow's discard takes one out of play.
   */
  lemma SpecialEffectsCards(s: GameState, c: Card)
    requires SpecialEffects(s, c).Ok?
    ensures
      var t := SpecialEffects(s, c).value;
      var n := CardsDrawn(c, s.weak, |s.hand|);
      && |t.deck| == |s.deck| - n
      && |t.hand| == |s.hand| + n - (if c == DaggerThrow then 1 else 0)
      && (c == Expertise ==> |t.hand| == Max(|s.hand|, 6))
      && (c != DaggerThrow ==> CardsLeft(t) == CardsLeft(s))
      && (c == DaggerThrow ==> CardsLeft(t) <= CardsLeft(s))
      && (n == 0 ==> t.hand == s.hand && t.deck == s.deck)
  {
    match c
    case HeelHook =>
      if s.weak <= 0 {
        assert SpecialEffects(s, c) == Ok(s);
      }
    case PWail =>
    case Expertise =>
      if |s.hand| >= 6 {
        assert SpecialEffects(s, c) == Ok(s);
      }
    case DaggerThrow => DaggerThrowCards(s);
    case _ =>
      assert SpecialEffects(s, c) == Ok(s);
  }

  /** DaggerThrow's draw-then-discard: one card moves from the deck to the hand, then one leaves the hand. */
  lemma DaggerThrowCards(s: GameState)
    requires SpecialEffects(s, DaggerThrow).Ok?
    ensures
      var u := SpecialEffects(s, DaggerThrow).value;
      && |u.deck| == |s.deck| - 1 && |u.hand| == |s.hand|
      && CardsLeft(u) <= CardsLeft(s)
  {
    var t := Draw(s).value;
    var u := Discard(t).value;
    assert SpecialEffects(s, DaggerThrow) == Ok(u);
    assert multiset(u.hand) <= multiset(t.hand);
    assert CardsLeft(u) <= CardsLeft(t);
  }

  /** The state once the card at `i` has left the hand by `swap_remove` and `PayAndResolve` has applied. */
  function Paid(s: GameState, i: nat): GameState
    requires i < |s.hand| && Cost(s.hand[i]).Some?
  {
    PayAndResolve(s.(hand := SwapRemove(s.hand, i)), s.hand[i])
  }

  /**
    `play_card`: the card at `i` leaves the hand by `swap_remove`, then the
    play panics unless the card has a cost within the energy left; otherwise
    its effects apply in a fixed order, and the play panics only if the deck
    runs out while drawing.
   */
  function PlayCard(s: GameState, i: nat): (r: Result<GameState, Panic>)
    ensures r == Err(NoSuchCard) <==> i >= |s.hand|
    ensures r == Err(CardNotPlayable) <==> i < |s.hand| && Cost(s.hand[i]).None?
    ensures r == Err(NotEnoughEnergy) <==> i < |s.hand| && Cost(s.hand[i]).Some? && Cost(s.hand[i]).value > s.energy
    ensures r == Err(EmptyDeck) <==>
              && i < |s.hand| && CanPlay(s.hand[i], s.energy)
              && |s.deck| < CardsDrawn(s.hand[i], s.weak + Weak(s.hand[i]), |s.hand| - 1)
    ensures r.Err? ==> r.error in {NoSuchCard, CardNotPlayable, NotEnoughEnergy, EmptyDeck}
    ensures r.Ok? ==> i < |s.hand| && CanPlay(s.hand[i], s.energy)
    ensures r.Ok? ==> |r.value.hand| + |r.value.deck| < |s.hand| + |s.deck|
  {
    if i >= |s.hand| then Err(NoSuchCard)
    else
      var c := s.hand[i];
      if Cost(c).None? then Err(CardNotPlayable)
      else if Cost(c).value > s.energy then Err(NotEnoughEnergy)
      else
        var paid := Paid(s, i);
        assert paid.deck == s.deck && |paid.hand| == |s.hand| - 1 && paid.weak == s.weak + Weak(c);
        SpecialEffects(paid, c)
  }

  /**
    A successful play uses up the played card (and, for DaggerThrow, one
    discarded card) out of hand and deck together, and moves exactly the
    drawn cards from the deck to the hand.
   */
  lemma PlayCardConserves(s: GameState, i: nat)
    requires PlayCard(s, i).Ok?
    ensures i < |s.hand|
    ensures
      var t := PlayCard(s, i).value;
      var c := s.hand[i];
      var n := CardsDrawn(c, s.weak + Weak(c), |s.hand| - 1);
      var dagger := if c == DaggerThrow then 1 else 0;
      && |t.deck| == |s.deck| - n
      && |t.hand| == |s.hand| - 1 + n - dagger
      && (c == Expertise ==> |t.hand| == Max(|s.hand| - 1, 6))
      && (c != DaggerThrow ==> CardsLeft(t) == CardsLeft(s) - multiset{c})
      && (c == DaggerThrow ==> CardsLeft(t) <= CardsLeft(s) - multiset{c})
      && (n == 0 ==> t.hand == SwapRemove(s.hand, i) && t.deck == s.deck)
  {
    var c := s.hand[i];
    var paid := Paid(s, i);
    assert PlayCard(s, i) == SpecialEffects(paid, c);
    assert CardsLeft(paid) == CardsLeft(s) - multiset{c};
    assert paid.deck == s.deck && paid.hand == SwapRemove(s.hand, i) && paid.weak == s.weak + Weak(c);
    SpecialEffectsCards(paid, c);
  }

  /**
    The effects of a successful play on the counters: energy stays
    non-negative and never rises, intangible is never cleared, weak never
    drops, and every third attack resets the chain and grants 4 life.
   */
  lemma PlayCardCounters(s: GameState, i: nat)
    requires PlayCard(s, i).Ok?
    ensures i < |s.hand|
    ensures
      var t := PlayCard(s, i).value;
      var c := s.hand[i];
      var attacks := s.attacksPlayed + (if IsAttack(c) then 1 else 0);
      && (s.energy >= 0 ==> 0 <= t.energy <= s.energy)
      && t.intangible == (s.intangible || c == App)
      && t.weak == s.weak + Weak(c)
      && t.heartDmg == s.heartDmg - (if c == PWail then 6 else 0)
      && t.life == s.life - (if t.intangible then 0 else 1) + Block(c) + (if attacks == 3 then 4 else 0)
      && (0 <= s.attacksPlayed <= 2 ==> 0 <= t.attacksPlayed <= 2)
      && (IsAttack(c) && s.attacksPlayed == 2 ==> t.attacksPlayed == 0)
      && (attacks != 3 ==> t.attacksPlayed == attacks)
      && (CardsDrawn(c, s.weak + Weak(c), |s.hand| - 1) == 0 ==> t.energy == s.energy - Cost(c).value)
  {
    var c := s.hand[i];
    var paid := Paid(s, i);
    assert PlayCard(s, i) == SpecialEffects(paid, c);
    assert paid.energy == s.energy - Cost(c).value && paid.weak == s.weak + Weak(c) && |paid.hand| == |s.hand| - 1;
    CatalogFacts(c);
    SpecialEffectsCounters(paid, c);
  }

  /** The ranges the learner's one-hot blocks cover: energy 0..=5, at most six cards in hand, attack chain 0..=2. */
  predicate InRange(s: GameState)
  {
    0 <= s.energy <= StartingEnergy && |s.hand| <= 6 && 0 <= s.attacksPlayed <= 2
  }

  /** A successful play keeps a state in range: energy never rises, and only Expertise refills the hand, to six. */
  lemma PlayKeepsInRange(s: GameState, i: nat)
    requires InRange(s) && PlayCard(s, i).Ok?
    ensures InRange(PlayCard(s, i).value)
  {
    PlayCardCounters(s, i);
    PlayCardConserves(s, i);
  }

  // ---------------------------------------------------------------------------
  // End of turn

  /**
    `life_after_hit`: intangible turns the hit into a single point of damage;
    otherwise the incoming damage is multiplied by 1.5, and by 0.75 more
    against a weak enemy, and the product is cast to an integer (truncating
    toward zero). The casts are computed exactly with integer arithmetic:
    1.5 and 1.5 * 0.75 are 3/2 and 9/8.
   */
  function LifeAfterHit(s: GameState): (v: int)
    ensures s.intangible ==> v == s.life - 1
    ensures !s.intangible && s.weak > 0 ==> v == s.life - TruncReal(s.heartDmg as real * 1.5 * 0.75)
    ensures !s.intangible && s.weak <= 0 ==> v == s.life - TruncReal(s.heartDmg as real * 1.5)
  {
    if s.intangible then s.life - 1
    else if s.weak > 0 then
      TruncDivIsRealTrunc(9 * s.heartDmg, 8);
      s.life - TruncDiv(9 * s.heartDmg, 8)
    else
      TruncDivIsRealTrunc(3 * s.heartDmg, 2);
      s.life - TruncDiv(3 * s.heartDmg, 2)
  }

  /** `survive`: the life left after the hit, when some is left. */
  function Survive(s: GameState): (r: Option<int>)
    ensures r.Some? <==> LifeAfterHit(s) > 0
    ensures r.Some? ==> r.value == LifeAfterHit(s)
  {
    var life := LifeAfterHit(s);
    if life > 0 then Some(life) else None
  }

  /** The end-of-turn hit on the fight's own numbers: 46 incoming damage, with and without weak, and intangible. */
  lemma SurviveExamples(s: GameState)
    requires s.heartDmg == 46
    ensures !s.intangible && s.weak == 0 && s.life == 51 ==> LifeAfterHit(s) == 51 - 69 && Survive(s) == None
    ensures !s.intangible && s.weak > 0 && s.life == 51 ==> LifeAfterHit(s) == 0 && Survive(s) == None
    ensures !s.intangible && s.weak > 0 && s.life == 52 ==> Survive(s) == Some(1)
    ensures s.intangible && s.life == 10 ==> Survive(s) == Some(9)
  {
  }
}
