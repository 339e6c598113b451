/** The episode's draw pile: a fixed composition, shuffled with injected randomness. */
module Pile {
  import opened Cards
  import opened Seqs

  /** The eighteen cards of the pile, before shuffling. */
  const BasePile: seq<Card> :=
    [Defend, DaggerThrow, WLP, CC, HeelHook, LegSweep]
    + [Expertise,
       Cost1Attack, // DieDieDie
       Neutralize,
       Cost1Attack, // Strike
       Defend, Defend]
    + [App, PWail, Slimed,
       Unplayable, // Wound
       Unplayable, // Dazed
       Void]

  /**
    The forward shuffle loop: for every position `i` from 1 upward, swap it
    with position `rnd(i) % (i + 1)`. `rnd(i)` stands for the random number
    drawn at step `i`.
   */
  function Shuffle<T>(v: seq<T>, rnd: nat -> nat): (r: seq<T>)
    ensures |r| == |v|
    ensures multiset(r) == multiset(v)
  {
    ShuffleFrom(v, rnd, 1)
  }

  /** The shuffle loop from step `i` on. */
  function ShuffleFrom<T>(v: seq<T>, rnd: nat -> nat, i: nat): (r: seq<T>)
    ensures |r| == |v|
    ensures multiset(r) == multiset(v)
    decreases |v| - i
  {
    if i >= |v| then v
    else ShuffleFrom(Swap(v, i, rnd(i) % (i + 1)), rnd, i + 1)
  }

  /** `create_draw_pile`: the base pile, shuffled. */
  function CreateDrawPile(rnd: nat -> nat): (r: seq<Card>)
    ensures |r| == 18
    ensures multiset(r) == multiset(BasePile)
  {
    Shuffle(BasePile, rnd)
  }

  /** The composition of the pile: one each of the cards that draw. */
  lemma BasePileComposition()
    ensures |BasePile| == 18
    ensures multiset(BasePile)[Expertise] == 1
    ensures multiset(BasePile)[HeelHook] == 1
    ensures multiset(BasePile)[DaggerThrow] == 1
  {
    var a := [Defend, DaggerThrow, WLP, CC, HeelHook, LegSweep];
    var b := [Expertise, Cost1Attack, Neutralize, Cost1Attack, Defend, Defend];
    var c := [App, PWail, Slimed, Unplayable, Unplayable, Void];
    assert BasePile == a + b + c;
    assert multiset(a) == multiset{Defend, DaggerThrow, WLP, CC, HeelHook, LegSweep};
    assert multiset(b) == multiset{Expertise, Cost1Attack, Neutralize, Cost1Attack, Defend, Defend};
    assert multiset(c) == multiset{App, PWail, Slimed, Unplayable, Unplayable, Void};
  }

}
