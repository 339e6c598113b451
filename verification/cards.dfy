/** The card catalog: a closed set of card kinds and their fixed attributes. */
module Cards {
  import opened Wrappers

  /** The card kinds, in declaration order (the order `Card as usize` numbers them). */
  datatype Card =
    | Defend | DaggerThrow | WLP | CC | HeelHook | LegSweep | Expertise
    | Cost1Attack | Neutralize | App | PWail | Slimed | Unplayable | Void

  /** Energy available at the start of the turn. */
  const StartingEnergy: int := 5

  /** Number of card kinds, `Card::Void as usize + 1`. */
  const NumCards: nat := 14

  /** Length of the learner's feature vector. */
  const NumFeatures: nat := 22

  /** Every card kind, listed in declaration order. */
  const AllCards: seq<Card> :=
    [Defend, DaggerThrow, WLP, CC, HeelHook, LegSweep, Expertise,
     Cost1Attack, Neutralize, App, PWail, Slimed, Unplayable, Void]

  /** `Card as usize`: the position of the kind in declaration order. */
  function Index(c: Card): (k: nat)
    ensures k < NumCards == |AllCards|
    ensures AllCards[k] == c
  {
    match c
    case Defend => 0
    case DaggerThrow => 1
    case WLP => 2
    case CC => 3
    case HeelHook => 4
    case LegSweep => 5
    case Expertise => 6
    case Cost1Attack => 7
    case Neutralize => 8
    case App => 9
    case PWail => 10
    case Slimed => 11
    case Unplayable => 12
    case Void => 13
  }

  /** Energy cost; `None` marks a card that can never be played. */
  function Cost(c: Card): (r: Option<int>)
    ensures r.None? <==> c == Unplayable || c == Void
    ensures r.Some? ==> 0 <= r.value <= 2
  {
    match c
    case Defend => Some(1)
    case DaggerThrow => Some(1)
    case WLP => Some(1)
    case CC => Some(2)
    case HeelHook => Some(1)
    case LegSweep => Some(2)
    case Expertise => Some(1)
    case Cost1Attack => Some(1)
    case Neutralize => Some(0)
    case App => Some(1)
    case PWail => Some(1)
    case Unplayable => None
    case Void => None
    case Slimed => Some(1)
  }

  /** Block granted when the card is played. */
  function Block(c: Card): (b: int)
    ensures b >= 0
    ensures b > 0 <==> c == Defend || c == LegSweep
  {
    match c
    case Defend => 9
    case LegSweep => 13
    case _ => 0
  }

  /** Whether the card counts toward the three-attack chain. Every attack is playable for at most one energy and grants no block. */
  predicate IsAttack(c: Card): (b: bool)
    ensures b ==> Cost(c).Some? && Cost(c).value <= 1 && Block(c) == 0
  {
    match c
    case Defend => false
    case DaggerThrow => true
    case WLP => false
    case CC => false
    case HeelHook => true
    case LegSweep => false
    case Expertise => false
    case Cost1Attack => true
    case Neutralize => true
    case App => false
    case PWail => false
    case Slimed => false
    case Unplayable => false
    case Void => false
  }

  /** Stacks of weak applied to the enemy when the card is played. */
  function Weak(c: Card): (w: int)
    ensures w >= 0
    ensures w > 0 <==> c == CC || c == LegSweep || c == Neutralize
  {
    match c
    case CC => 2
    case LegSweep => 2
    case Neutralize => 1
    case _ => 0
  }

  /**
    `dont_discard_score`: the card with the lowest score is the one discarded.
    Unplayable cards go first and App last; every score lies in 1..=100.
   */
  function DiscardScore(c: Card): (r: int)
    ensures 1 <= r <= 100
    ensures r == 1 <==> c == Unplayable
    ensures r == 100 <==> c == App
    ensures Cost(c).None? ==> r <= 3
  {
    match c
    case Defend => 50
    case DaggerThrow => 40
    case WLP => 20
    case CC => 30
    case HeelHook => 10
    case LegSweep => 70
    case Expertise => 20
    case Cost1Attack => 5
    case Neutralize => 25
    case App => 100
    case PWail => 15
    case Slimed => 2
    case Unplayable => 1
    case Void => 3
  }

  /** The catalog facts the engine's invariants rest on. */
  lemma CatalogFacts(c: Card)
    ensures Cost(HeelHook) == Some(1)
    ensures IsAttack(c) <==> c in {DaggerThrow, HeelHook, Cost1Attack, Neutralize}
    ensures DiscardScore(c) >= DiscardScore(Unplayable)
    ensures forall d :: Index(d) == Index(c) ==> d == c
  {
  }
}
