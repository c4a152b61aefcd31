/**
 * Match scoring.  A match is a number of scoring trials (drawn from 0..5);
 * in each trial each side scores one goal when its own draw from 0..100 falls
 * below its threshold.  The first side's threshold is `50 + strength difference`
 * and the second side's is `100` minus that; neither is clamped to 0..100.
 *
 * The random source is made explicit: a match is given the trials that were
 * drawn for it, and the number of trials is the length of that sequence.
 */
module MatchSim {

  /** The two draws of one scoring trial: the first side's and the second side's. */
  datatype Trial = Trial(r1: int, r2: int)

  /** What the random source can produce for one match: at most five trials, every draw in 0..100. */
  predicate Drawn(trials: seq<Trial>)
  {
    |trials| <= 5 &&
    forall k :: 0 <= k < |trials| ==> 0 <= trials[k].r1 <= 100 && 0 <= trials[k].r2 <= 100
  }

  /** The first side's success threshold; it is not clamped to 0..100. */
  function BaseChance(strength1: int, strength2: int): int
  {
    50 + (strength1 - strength2)
  }

  /** One side's draw in a trial: the first side's when `first`, the second side's otherwise. */
  function Draw(t: Trial, first: bool): int
  {
    if first then t.r1 else t.r2
  }

  /** The number of trials whose draw for one side falls strictly below `threshold`: the goals that side scores. */
  function Hits(trials: seq<Trial>, first: bool, threshold: int): (c: nat)
    ensures c <= |trials|
  {
    if trials == [] then 0
    else Hits(trials[..|trials| - 1], first, threshold) + (if Draw(trials[|trials| - 1], first) < threshold then 1 else 0)
  }

  /** The final score of a match between sides of the given strengths, played on `trials`. */
  function MatchScore(strength1: int, strength2: int, trials: seq<Trial>): (s: (nat, nat))
    ensures s.0 <= |trials| && s.1 <= |trials|
  {
    var base := BaseChance(strength1, strength2);
    (Hits(trials, true, base), Hits(trials, false, 100 - base))
  }

  /**
   * The scoring loop itself.  Each side's score is the number of its draws
   * that beat its threshold, so neither exceeds the trial count, which is at most 5.
   */
  method SimulateMatch(strength1: int, strength2: int, trials: seq<Trial>) returns (score1: nat, score2: nat)
    requires Drawn(trials)
    ensures (score1, score2) == MatchScore(strength1, strength2, trials)
    ensures score1 <= |trials| <= 5 && score2 <= |trials|
  {
    var base := 50 + (strength1 - strength2);
    score1, score2 := 0, 0;
    for k := 0 to |trials|
      invariant score1 == Hits(trials[..k], true, base)
      invariant score2 == Hits(trials[..k], false, 100 - base)
    {
      assert trials[..k + 1][..k] == trials[..k];
      if trials[k].r1 < base {
        score1 := score1 + 1;
      }
      if trials[k].r2 < 100 - base {
        score2 := score2 + 1;
      }
    }
    assert trials[..|trials|] == trials;
  }

  /** The positions of the trials in which one side's draw falls strictly below `threshold`. */
  function Scoring(trials: seq<Trial>, first: bool, threshold: int): set<int>
  {
    set k | 0 <= k < |trials| && Draw(trials[k], first) < threshold
  }

  /** A side's goals are exactly the number of trials it scores in, whatever their order. */
  lemma {:induction false} HitsCount(trials: seq<Trial>, first: bool, threshold: int)
    ensures Hits(trials, first, threshold) == |Scoring(trials, first, threshold)|
  {
    if trials != [] {
      var n := |trials|;
      var init := trials[..n - 1];
      HitsCount(init, first, threshold);
      var hit: set<int> := if Draw(trials[n - 1], first) < threshold then {n - 1} else {};
      assert Scoring(trials, first, threshold) == Scoring(init, first, threshold) + hit by {
        forall k | 0 <= k < n - 1 ensures init[k] == trials[k] { }
      }
      assert n - 1 !in Scoring(init, first, threshold);
    }
  }

  /** Every draw below the threshold: every trial is a goal. */
  lemma {:induction false} HitsAll(trials: seq<Trial>, first: bool, threshold: int)
    requires forall k :: 0 <= k < |trials| ==> Draw(trials[k], first) < threshold
    ensures Hits(trials, first, threshold) == |trials|
  {
    if trials != [] {
      HitsAll(trials[..|trials| - 1], first, threshold);
    }
  }

  /** No draw below the threshold: no goal at all. */
  lemma {:induction false} HitsNone(trials: seq<Trial>, first: bool, threshold: int)
    requires forall k :: 0 <= k < |trials| ==> threshold <= Draw(trials[k], first)
    ensures Hits(trials, first, threshold) == 0
  {
    if trials != [] {
      HitsNone(trials[..|trials| - 1], first, threshold);
    }
  }

  /** A higher threshold never yields fewer goals on the same draws. */
  lemma {:induction false} HitsMonotonic(trials: seq<Trial>, first: bool, t: int, t': int)
    requires t <= t'
    ensures Hits(trials, first, t) <= Hits(trials, first, t')
  {
    if trials != [] {
      HitsMonotonic(trials[..|trials| - 1], first, t, t');
    }
  }

  /**
   * Because the threshold is not clamped, a large strength gap saturates:
   * at 101 or more the first side scores on every trial and the second never,
   * at -1 or less the other way round.
   */
  lemma {:induction false} Saturation(strength1: int, strength2: int, trials: seq<Trial>)
    requires Drawn(trials)
    ensures BaseChance(strength1, strength2) <= 0 ==> MatchScore(strength1, strength2, trials).0 == 0
    ensures BaseChance(strength1, strength2) >= 101 ==> MatchScore(strength1, strength2, trials).0 == |trials|
    ensures BaseChance(strength1, strength2) >= 100 ==> MatchScore(strength1, strength2, trials).1 == 0
    ensures BaseChance(strength1, strength2) <= -1 ==> MatchScore(strength1, strength2, trials).1 == |trials|
  {
    var base := BaseChance(strength1, strength2);
    if base <= 0 {
      HitsNone(trials, true, base);
    }
    if base >= 101 {
      HitsAll(trials, true, base);
    }
    if base >= 100 {
      HitsNone(trials, false, 100 - base);
    }
    if base <= -1 {
      HitsAll(trials, false, 100 - base);
    }
  }

  /** The same trials with each side's draw exchanged. */
  function SwapSides(trials: seq<Trial>): (swapped: seq<Trial>)
    ensures |swapped| == |trials|
  {
    if trials == [] then []
    else SwapSides(trials[..|trials| - 1]) + [Trial(trials[|trials| - 1].r2, trials[|trials| - 1].r1)]
  }

  /** After exchanging the draws, each side's goals are the other side's goals. */
  lemma {:induction false} HitsSwapped(trials: seq<Trial>, first: bool, threshold: int)
    ensures Hits(SwapSides(trials), first, threshold) == Hits(trials, !first, threshold)
  {
    if trials != [] {
      var init := trials[..|trials| - 1];
      HitsSwapped(init, first, threshold);
      var swapped := SwapSides(trials);
      assert swapped[..|swapped| - 1] == SwapSides(init);
    }
  }

  /**
   * The rule treats the two sides alike: exchanging the teams and each
   * trial's pair of draws exchanges the two scores.
   */
  lemma {:induction false} ScoreSymmetric(strength1: int, strength2: int, trials: seq<Trial>)
    ensures MatchScore(strength2, strength1, SwapSides(trials))
         == (MatchScore(strength1, strength2, trials).1, MatchScore(strength1, strength2, trials).0)
  {
    var base := BaseChance(strength1, strength2);
    assert BaseChance(strength2, strength1) == 100 - base;
    HitsSwapped(trials, true, 100 - base);
    HitsSwapped(trials, false, base);
  }

  /**
   * On the same draws, a stronger first side never scores fewer goals and
   * never concedes more.
   */
  lemma {:induction false} StrengthMonotonic(strength1: int, stronger: int, strength2: int, trials: seq<Trial>)
    requires strength1 <= stronger
    ensures MatchScore(strength1, strength2, trials).0 <= MatchScore(stronger, strength2, trials).0
    ensures MatchScore(stronger, strength2, trials).1 <= MatchScore(strength1, strength2, trials).1
  {
    HitsMonotonic(trials, true, BaseChance(strength1, strength2), BaseChance(stronger, strength2));
    HitsMonotonic(trials, false, 100 - BaseChance(stronger, strength2), 100 - BaseChance(strength1, strength2));
  }
}
