/**
  The integer part of the learner's inputs: the one-hot feature layout and
  the mapping from playable actions to rows of the weight table.
 */
module Features {
  import opened Cards
  import opened Engine

  /**
    One entry of the feature vector. The first entry is `life_after_hit / 30`
    as a float; the model keeps the integer it is computed from.
   */
  datatype Feature = LifeOver30(lifeAfterHit: int) | Num(v: int)

  /**
    `encode_1_hot(num, max)`: one entry for each of 0..=max, all zero except a
    single one at position `num` when `num` lies in that range.
   */
  function Encode1Hot(num: int, max: int): (r: seq<Feature>)
    ensures |r| == if max >= 0 then max + 1 else 0
    ensures forall k :: 0 <= k < |r| ==> r[k] == Num(0) || r[k] == Num(1)
    ensures (exists k :: 0 <= k < |r| && r[k] == Num(1)) <==> 0 <= num <= max
    ensures forall k, l :: 0 <= k < |r| && 0 <= l < |r| && r[k] == Num(1) && r[l] == Num(1) ==> k == l
    ensures 0 <= num <= max ==> r[num] == Num(1)
  {
    if max < 0 then []
    else
      var r := seq(max + 1, k => Num(if k == num then 1 else 0));
      assert forall k :: 0 <= k < |r| ==> (r[k] == Num(1) <==> k == num);
      assert 0 <= num <= max ==> r[num] == Num(1);
      r
  }

  /** The boolean-to-integer cast `b as i32`. */
  function BoolToInt(b: bool): int
  {
    if b then 1 else 0
  }

  /**
    `features`: the predicted life, a bias, then one-hot blocks for the energy
    (0..=5), the hand size (0..=6), intangible, the attack chain (0..=2) and
    whether the enemy is weak: 1 + 1 + 6 + 7 + 2 + 3 + 2 = 22 entries.
   */
  function Features(s: GameState): (r: seq<Feature>)
    ensures |r| == NumFeatures
    ensures r[0] == LifeOver30(LifeAfterHit(s)) && r[1] == Num(1)
    ensures forall k :: 2 <= k < |r| ==> r[k] == Num(0) || r[k] == Num(1)
    ensures forall j :: 2 <= j < 8 ==> (r[j] == Num(1) <==> j - 2 == s.energy)
    ensures forall j :: 8 <= j < 15 ==> (r[j] == Num(1) <==> j - 8 == |s.hand|)
    ensures forall j :: 15 <= j < 17 ==> (r[j] == Num(1) <==> j - 15 == BoolToInt(s.intangible))
    ensures forall j :: 17 <= j < 20 ==> (r[j] == Num(1) <==> j - 17 == s.attacksPlayed)
    ensures forall j :: 20 <= j < 22 ==> (r[j] == Num(1) <==> j - 20 == BoolToInt(s.weak > 0))
  {
    var energy := Encode1Hot(s.energy, StartingEnergy);
    var handSize := Encode1Hot(|s.hand|, 6);
    var intangible := Encode1Hot(BoolToInt(s.intangible), 1);
    var attacks := Encode1Hot(s.attacksPlayed, 2);
    var weak := Encode1Hot(BoolToInt(s.weak > 0), 1);
    var r := [LifeOver30(LifeAfterHit(s)), Num(1)] + energy + handSize + intangible + attacks + weak;
    assert forall j :: 2 <= j < 8 ==> r[j] == energy[j - 2];
    assert forall j :: 8 <= j < 15 ==> r[j] == handSize[j - 8];
    assert forall j :: 15 <= j < 17 ==> r[j] == intangible[j - 15];
    assert forall j :: 17 <= j < 20 ==> r[j] == attacks[j - 17];
    assert forall j :: 20 <= j < 22 ==> r[j] == weak[j - 20];
    r
  }

  /**
    The rows of the weight table scored at one decision: the row of each
    playable card's kind, in the order of `actions`, then the pass row `NumCards`.
   */
  function ActionEntries(hand: seq<Card>, actions: seq<nat>): (r: seq<nat>)
    requires forall k :: 0 <= k < |actions| ==> actions[k] < |hand|
    ensures |r| == |actions| + 1
    ensures forall k :: 0 <= k < |r| ==> r[k] < NumCards + 1
    ensures r[|actions|] == NumCards
    ensures forall k :: 0 <= k < |actions| ==> r[k] < NumCards && AllCards[r[k]] == hand[actions[k]]
  {
    seq(|actions|, k requires 0 <= k < |actions| => Index(hand[actions[k]])) + [NumCards]
  }

  /** Positions `lo..hi` of `r` hold exactly one entry equal to one. */
  predicate ExactlyOneHot(r: seq<Feature>, lo: nat, hi: nat)
    requires lo <= hi <= |r|
  {
    && (exists j :: lo <= j < hi && r[j] == Num(1))
    && (forall j, k :: lo <= j < hi && lo <= k < hi && r[j] == Num(1) && r[k] == Num(1) ==> j == k)
  }

  /** In a state within the learner's ranges, each of the five one-hot blocks has exactly one hot entry. */
  lemma InRangeFeaturesOneHot(s: GameState)
    requires InRange(s)
    ensures var r := Features(s);
            && ExactlyOneHot(r, 2, 8) && ExactlyOneHot(r, 8, 15) && ExactlyOneHot(r, 15, 17)
            && ExactlyOneHot(r, 17, 20) && ExactlyOneHot(r, 20, 22)
  {
    var r := Features(s);
    assert r[2 + s.energy] == Num(1);
    assert r[8 + |s.hand|] == Num(1);
    assert r[15 + BoolToInt(s.intangible)] == Num(1);
    assert r[17 + s.attacksPlayed] == Num(1);
    assert r[20 + BoolToInt(s.weak > 0)] == Num(1);
  }
}
