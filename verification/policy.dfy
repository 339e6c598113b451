/**
  The fixed-priority heuristic that plays out the turn, and the two starting
  states ("dash" and "gamble") it is run from.
 */
module Policy {
  import opened Wrappers
  import opened RustInt
  import opened Cards
  import opened Seqs
  import opened Pile
  import opened Engine

  /** Cards left in hand and deck; every play lowers it, which ends the loop. */
  function Size(s: GameState): nat
  {
    |s.hand| + |s.deck|
  }

  /** `in_hand(c)` finds a copy of `c`. */
  predicate Holds(s: GameState, c: Card)
  {
    FirstIndex(s.hand, c).Some?
  }

  /** `in_hand(c)` followed by `play_card`: plays the first copy of `c`, panicking when there is none. */
  function PlayFirst(s: GameState, c: Card): (r: Result<GameState, Panic>)
    ensures r.Ok? ==> Size(r.value) < Size(s)
  {
    match FirstIndex(s.hand, c)
    case None => Err(CardNotInHand)
    case Some(i) => PlayCard(s, i)
  }

  /** What one pass of the decision cascade decides. */
  datatype Choice = EndTurn | Play(card: Card) | DefendPair

  /**
    The decision cascade, rules in priority order: App; two Defends against a
    weak enemy with exactly 2 energy; LegSweep; Neutralize or CC to land weak;
    Defend; DaggerThrow; Neutralize; Expertise; an attack that completes the
    chain. When no rule fires the turn ends. From non-negative energy every
    single card chosen is in hand and affordable, and the Defend pair is
    chosen only with two Defends and exactly 2 energy.
   */
  function Choose(s: GameState): (r: Choice)
    ensures s.energy >= 0 && r.Play? ==> Holds(s, r.card) && CanPlay(r.card, s.energy)
    ensures r.DefendPair? ==> s.weak > 0 && Count(s.hand, Defend) >= 2 && s.energy == 2
  {
    if Holds(s, App) && s.energy >= 1 then Play(App)
    else if s.weak > 0 && Count(s.hand, Defend) >= 2 && s.energy == 2 then DefendPair
    else if Holds(s, LegSweep) && s.energy >= 2 then Play(LegSweep)
    else if s.weak == 0 && Holds(s, Neutralize) then Play(Neutralize)
    else if s.weak == 0 && s.energy >= 2 && Holds(s, CC) then Play(CC)
    else if s.energy > 1 && Holds(s, Defend) then Play(Defend)
    else if s.energy >= 1 && Holds(s, DaggerThrow) then Play(DaggerThrow)
    else if Holds(s, Neutralize) then Play(Neutralize)
    else if s.energy >= 1 && Holds(s, Expertise) then Play(Expertise)
    else if s.energy >= 1 && TruncRem(s.attacksPlayed, 3) == 2 && Holds(s, Cost1Attack) then Play(Cost1Attack)
    else EndTurn
  }

  /** One pass of the loop body: the chosen plays, or `None` when the turn ends. */
  function Step(s: GameState): (r: Option<Result<GameState, Panic>>)
    ensures r.Some? && r.value.Ok? ==> Size(r.value.value) < Size(s)
  {
    match Choose(s)
    case EndTurn => None
    case Play(c) => Some(PlayFirst(s, c))
    case DefendPair =>
      Some(match PlayFirst(s, Defend)
           case Err(e) => Err(e)
           case Ok(t) => PlayFirst(t, Defend))
  }

  /** The loop of `simulate`: steps until no rule fires, or until a play panics. */
  function Run(s: GameState): (r: Result<GameState, Panic>)
    ensures r.Ok? ==> Step(r.value).None?
    ensures r.Ok? ==> Size(r.value) <= Size(s)
    decreases Size(s)
  {
    match Step(s)
    case None => Ok(s)
    case Some(Err(e)) => Err(e)
    case Some(Ok(t)) => Run(t)
  }

  /** `simulate`: plays out the turn, then reports whether the end-of-turn hit leaves life above zero. */
  function Simulate(s: GameState): (r: Result<bool, Panic>)
    ensures r.Err? <==> Run(s).Err?
    ensures r.Ok? ==> (r.value <==> LifeAfterHit(Run(s).value) > 0)
  {
    match Run(s)
    case Err(e) => Err(e)
    case Ok(t) => Ok(Survive(t).Some?)
  }

  // ---------------------------------------------------------------------------
  // Every play the heuristic issues is legal

  /** Playing a held card whose cost is covered can only panic on an empty deck, and keeps energy non-negative. */
  lemma PlayFirstLegal(s: GameState, c: Card)
    requires Holds(s, c) && CanPlay(c, s.energy) && s.energy >= 0
    ensures PlayFirst(s, c).Err? ==> PlayFirst(s, c).error == EmptyDeck
    ensures PlayFirst(s, c).Ok? ==> PlayFirst(s, c).value.energy >= 0
  {
    var i := FirstIndex(s.hand, c).value;
    if PlayCard(s, i).Ok? {
      PlayCardCounters(s, i);
    }
  }

  /**
    From a state with non-negative energy, a step of the cascade panics only
    on an empty deck: every rule's guard covers the cost of the card it plays,
    including the second Defend of the back-to-back pair.
   */
  lemma StepLegal(s: GameState)
    requires s.energy >= 0
    ensures Step(s).Some? && Step(s).value.Err? ==> Step(s).value.error == EmptyDeck
    ensures Step(s).Some? && Step(s).value.Ok? ==> Step(s).value.value.energy >= 0
  {
    match Choose(s)
    case EndTurn =>
    case Play(c) => PlayFirstLegal(s, c);
    case DefendPair => DefendPairLegal(s);
  }

  /** The back-to-back Defend pair: after the first Defend a second one is still in hand, with 1 energy to pay for it. */
  lemma DefendPairLegal(s: GameState)
    requires s.weak > 0 && Count(s.hand, Defend) >= 2 && s.energy == 2
    ensures PlayFirst(s, Defend).Ok?
    ensures var t := PlayFirst(s, Defend).value;
            && t.energy == 1 && Holds(t, Defend)
            && PlayFirst(t, Defend).Ok? && PlayFirst(t, Defend).value.energy == 0
  {
    var i := FirstIndex(s.hand, Defend).value;
    var t := PlayCard(s, i).value;
    PlayCardCounters(s, i);
    PlayCardConserves(s, i);
    assert t.hand == SwapRemove(s.hand, i);
    assert multiset(t.hand)[Defend] == multiset(s.hand)[Defend] - 1;
    assert Defend in t.hand;
    var j := FirstIndex(t.hand, Defend).value;
    PlayCardCounters(t, j);
  }

  /** From non-negative energy, `simulate`'s loop only ever panics on an empty deck. */
  lemma {:induction false} RunLegal(s: GameState)
    requires s.energy >= 0
    ensures Run(s).Err? ==> Run(s).error == EmptyDeck
    decreases Size(s)
  {
    StepLegal(s);
    match Step(s)
    case None =>
    case Some(Err(e)) =>
    case Some(Ok(t)) => RunLegal(t);
  }

  // ---------------------------------------------------------------------------
  // The deck never runs dry

  /** The most cards that the draw effects still in `m` can take: 6 per Expertise, 1 per HeelHook and DaggerThrow. */
  function DrawBudget(m: multiset<Card>): int
  {
    6 * m[Expertise] + m[HeelHook] + m[DaggerThrow]
  }

  /** The share of the budget one card accounts for. */
  function DrawWeight(c: Card): nat
  {
    if c == Expertise then 6 else if c == HeelHook || c == DaggerThrow then 1 else 0
  }

  /** The deck holds enough cards for every draw the cards still in play can trigger. */
  predicate Fuelled(s: GameState)
  {
    |s.deck| >= DrawBudget(CardsLeft(s))
  }

  /** Taking cards out of play never raises the budget; taking one card lowers it by that card's weight. */
  lemma BudgetShrinks(m: multiset<Card>, c: Card, m': multiset<Card>)
    requires c in m && m' <= m - multiset{c}
    ensures DrawBudget(m') <= DrawBudget(m) - DrawWeight(c)
    ensures DrawWeight(c) <= DrawBudget(m)
  {
    assert m'[Expertise] <= (m - multiset{c})[Expertise];
    assert m'[HeelHook] <= (m - multiset{c})[HeelHook];
    assert m'[DaggerThrow] <= (m - multiset{c})[DaggerThrow];
  }

  /** A legal play from a fuelled state never empties the deck, and leaves the state fuelled. */
  lemma PlayKeepsFuel(s: GameState, i: nat)
    requires Fuelled(s) && i < |s.hand| && CanPlay(s.hand[i], s.energy)
    ensures PlayCard(s, i).Ok?
    ensures Fuelled(PlayCard(s, i).value)
  {
    var c := s.hand[i];
    assert c in CardsLeft(s);
    BudgetShrinks(CardsLeft(s), c, CardsLeft(s) - multiset{c});
    assert CardsDrawn(c, s.weak + Weak(c), |s.hand| - 1) <= DrawWeight(c);
    var t := PlayCard(s, i).value;
    PlayCardConserves(s, i);
    BudgetShrinks(CardsLeft(s), c, CardsLeft(t));
  }

  /** A step of the cascade from a fuelled state with non-negative energy never panics, and keeps both properties. */
  lemma StepKeepsFuel(s: GameState)
    requires Fuelled(s) && s.energy >= 0
    ensures Step(s).Some? ==> Step(s).value.Ok?
    ensures Step(s).Some? ==> Fuelled(Step(s).value.value) && Step(s).value.value.energy >= 0
  {
    match Choose(s)
    case EndTurn =>
    case Play(c) =>
      PlayFirstKeepsFuel(s, c);
      PlayFirstLegal(s, c);
    case DefendPair =>
      DefendPairKeepsFuel(s);
  }

  /** The back-to-back Defend pair from a fuelled state plays both Defends and stays fuelled. */
  lemma DefendPairKeepsFuel(s: GameState)
    requires Fuelled(s) && s.weak > 0 && Count(s.hand, Defend) >= 2 && s.energy == 2
    ensures PlayFirst(s, Defend).Ok?
    ensures var t := PlayFirst(s, Defend).value;
            && PlayFirst(t, Defend).Ok?
            && Fuelled(PlayFirst(t, Defend).value) && PlayFirst(t, Defend).value.energy == 0
  {
    DefendPairLegal(s);
    PlayFirstKeepsFuel(s, Defend);
    PlayFirstKeepsFuel(PlayFirst(s, Defend).value, Defend);
  }

  /** `PlayKeepsFuel` for the first copy of a held card. */
  lemma PlayFirstKeepsFuel(s: GameState, c: Card)
    requires Fuelled(s) && Holds(s, c) && CanPlay(c, s.energy)
    ensures PlayFirst(s, c).Ok? && Fuelled(PlayFirst(s, c).value)
  {
    PlayKeepsFuel(s, FirstIndex(s.hand, c).value);
  }

  /** From a fuelled state with non-negative energy, `simulate` never panics. */
  lemma {:induction false} RunNeverPanics(s: GameState)
    requires Fuelled(s) && s.energy >= 0
    ensures Run(s).Ok?
    decreases Size(s)
  {
    StepKeepsFuel(s);
    match Step(s)
    case None =>
    case Some(Err(e)) =>
    case Some(Ok(t)) => RunNeverPanics(t);
  }

  // ---------------------------------------------------------------------------
  // Starting states

  /** The start-of-turn `for _ in 0..n { draw }` loop. */
  function DrawN(s: GameState, n: nat): (r: Result<GameState, Panic>)
    ensures r.Err? <==> |s.deck| < n
    ensures r.Ok? ==>
              var t := r.value;
              && |t.hand| == |s.hand| + n
              && |t.deck| == |s.deck| - n
              && Popped(s, t)
              && CardsLeft(t) == CardsLeft(s)
              && (s.energy >= 0 ==> 0 <= t.energy <= s.energy)
              && t == s.(hand := t.hand, deck := t.deck, energy := t.energy)
    decreases n
  {
    if n == 0 then PoppedNone(s); Ok(s)
    else
      match Draw(s)
      case Err(e) => Err(e)
      case Ok(t) =>
        var r := DrawN(t, n - 1);
        if r.Ok? then PoppedTrans(s, t, r.value); r else r
  }

  /** A fresh turn: the given life and energy, a freshly shuffled pile, no hand, the Heart's 46 damage. */
  function Fresh(life: int, energy: int, rnd: nat -> nat): (s: GameState)
    ensures s.life == life && s.energy == energy && s.heartDmg == 46
    ensures s.weak == 0 && !s.intangible && s.attacksPlayed == 0
    ensures s.hand == [] && |s.deck| == 18 && CardsLeft(s) == multiset(BasePile)
  {
    GameState(life, 0, energy, [], CreateDrawPile(rnd), false, 46, 0)
  }

  /** `dash_state`: 51 life, 3 energy, four cards drawn. */
  function DashState(rnd: nat -> nat): (s: GameState)
    ensures s.life == 51 && s.weak == 0 && !s.intangible && s.heartDmg == 46 && s.attacksPlayed == 0
    ensures 0 <= s.energy <= StartingEnergy - 2
    ensures |s.hand| == 4 && |s.deck| == 14
    ensures CardsLeft(s) == multiset(BasePile)
  {
    var start := Fresh(51, StartingEnergy - 2, rnd);
    assert |start.deck| == 18 && CardsLeft(start) == multiset(BasePile);
    DrawN(start, 4).value
  }

  /** `gamble_state`: 40 life, 5 energy, five cards drawn. */
  function GambleState(rnd: nat -> nat): (s: GameState)
    ensures s.life == 40 && s.weak == 0 && !s.intangible && s.heartDmg == 46 && s.attacksPlayed == 0
    ensures 0 <= s.energy <= StartingEnergy
    ensures |s.hand| == 5 && |s.deck| == 13
    ensures CardsLeft(s) == multiset(BasePile)
  {
    var start := Fresh(40, StartingEnergy, rnd);
    assert |start.deck| == 18 && CardsLeft(start) == multiset(BasePile);
    DrawN(start, 5).value
  }

  /** Both starting states hold at least 13 cards in the deck against a draw budget of 8. */
  lemma StartsFuelled(rnd: nat -> nat)
    ensures Fuelled(DashState(rnd)) && Fuelled(GambleState(rnd))
  {
    BasePileComposition();
    assert DrawBudget(multiset(BasePile)) == 8;
  }

  /** Whatever the shuffle, `simulate` from the dash state never draws from an empty deck, nor panics otherwise. */
  lemma DashNeverPanics(rnd: nat -> nat)
    ensures Simulate(DashState(rnd)).Ok?
  {
    StartsFuelled(rnd);
    RunNeverPanics(DashState(rnd));
  }

  /** Whatever the shuffle, `simulate` from the gamble state never draws from an empty deck, nor panics otherwise. */
  lemma GambleNeverPanics(rnd: nat -> nat)
    ensures Simulate(GambleState(rnd)).Ok?
  {
    StartsFuelled(rnd);
    RunNeverPanics(GambleState(rnd));
  }

  // ---------------------------------------------------------------------------
  // The heuristic stays within the learner's ranges


  /** A step of the cascade that succeeds keeps the state within range. */
  lemma StepKeepsInRange(s: GameState)
    requires InRange(s) && Step(s).Some? && Step(s).value.Ok?
    ensures InRange(Step(s).value.value)
  {
    match Choose(s)
    case EndTurn =>
    case Play(c) => PlayKeepsInRange(s, FirstIndex(s.hand, c).value);
    case DefendPair =>
      var t := PlayFirst(s, Defend).value;
      PlayKeepsInRange(s, FirstIndex(s.hand, Defend).value);
      PlayKeepsInRange(t, FirstIndex(t.hand, Defend).value);
  }

  /** The state `simulate` ends in lies within range when it starts within range. */
  lemma {:induction false} RunKeepsInRange(s: GameState)
    requires InRange(s) && Run(s).Ok?
    ensures InRange(Run(s).value)
    decreases Size(s)
  {
    match Step(s)
    case None =>
    case Some(Err(e)) =>
    case Some(Ok(t)) =>
      StepKeepsInRange(s);
      RunKeepsInRange(t);
  }

  /**
    Whatever the shuffle, the turn `simulate` plays from the dash or the
    gamble state completes and ends within the learner's ranges.
   */
  lemma StartsEndInRange(rnd: nat -> nat)
    ensures Run(DashState(rnd)).Ok? && InRange(Run(DashState(rnd)).value)
    ensures Run(GambleState(rnd)).Ok? && InRange(Run(GambleState(rnd)).value)
  {
    StartsFuelled(rnd);
    assert InRange(DashState(rnd)) && InRange(GambleState(rnd));
    RunNeverPanics(DashState(rnd));
    RunNeverPanics(GambleState(rnd));
    RunKeepsInRange(DashState(rnd));
    RunKeepsInRange(GambleState(rnd));
  }
}
