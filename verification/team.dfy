/**
 * A club and its season record, and the bookkeeping of one result:
 * goals for and against, and the three/one/zero points rule.
 */
module Teams {

  /** One club: its identity, its division (1 is the top), its strength and budget, and its season record. */
  datatype Team = Team(
    name: string,
    division: int,
    strength: int,
    budget: int,
    points: nat,
    wins: nat,
    draws: nat,
    losses: nat,
    goalsFor: nat,
    goalsAgainst: nat)

  /** Points are always three per win plus one per draw. */
  predicate Consistent(t: Team)
  {
    t.points == 3 * t.wins + t.draws
  }

  /** Games played so far. */
  function Played(t: Team): nat
  {
    t.wins + t.draws + t.losses
  }

  /** Goal difference, the standings tie-break. */
  function GoalDiff(t: Team): int
  {
    t.goalsFor - t.goalsAgainst
  }

  /** Name, division, strength and budget agree: everything but the season record. */
  predicate SameClub(t: Team, u: Team)
  {
    t.name == u.name && t.division == u.division && t.strength == u.strength && t.budget == u.budget
  }

  /** A roster is sound when every record keeps points at three per win plus one per draw and every division is 1, 2 or 3. */
  predicate Sound(ts: seq<Team>)
  {
    forall i :: 0 <= i < |ts| ==> Consistent(ts[i]) && 1 <= ts[i].division <= 3
  }

  /** A new club with an empty season record. */
  function NewTeam(name: string, division: int, strength: int, budget: int): (t: Team)
    ensures t.name == name && t.division == division && t.strength == strength && t.budget == budget
    ensures Consistent(t) && Played(t) == 0 && t.points == 0
    ensures t.goalsFor == 0 && t.goalsAgainst == 0 && GoalDiff(t) == 0
  {
    Team(name, division, strength, budget, 0, 0, 0, 0, 0, 0)
  }

  /** One club's record after a match in which it scored `scored` and conceded `conceded`. */
  function Credit(t: Team, scored: nat, conceded: nat): (r: Team)
    ensures SameClub(r, t) && Played(r) == Played(t) + 1
    ensures GoalDiff(r) == GoalDiff(t) + scored - conceded
    ensures r.points == t.points + (if scored > conceded then 3 else if scored == conceded then 1 else 0)
    ensures Consistent(t) ==> Consistent(r)
  {
    Team(t.name, t.division, t.strength, t.budget,
      t.points + (if scored > conceded then 3 else if scored == conceded then 1 else 0),
      t.wins + (if scored > conceded then 1 else 0),
      t.draws + (if scored == conceded then 1 else 0),
      t.losses + (if scored < conceded then 1 else 0),
      t.goalsFor + scored,
      t.goalsAgainst + conceded)
  }

  /** Both clubs' records after a match that ended `score1`-`score2`. */
  function Record(t1: Team, t2: Team, score1: nat, score2: nat): (r: (Team, Team))
    ensures r.0.points + r.1.points == t1.points + t2.points + (if score1 == score2 then 2 else 3)
    ensures GoalDiff(r.0) + GoalDiff(r.1) == GoalDiff(t1) + GoalDiff(t2)
  {
    (Credit(t1, score1, score2), Credit(t2, score2, score1))
  }

  /**
   * Recording a result keeps both clubs, adds the goals to both sides,
   * records exactly one outcome for each side (the winner, if any, takes
   * three points, a draw gives each one, a loss none), leaves the other two
   * counters as they were, and keeps points at three per win plus one per draw.
   */
  lemma {:induction false} RecordEffect(t1: Team, t2: Team, score1: nat, score2: nat)
    ensures var r := Record(t1, t2, score1, score2);
      && SameClub(r.0, t1) && SameClub(r.1, t2)
      && r.0.goalsFor == t1.goalsFor + score1 && r.0.goalsAgainst == t1.goalsAgainst + score2
      && r.1.goalsFor == t2.goalsFor + score2 && r.1.goalsAgainst == t2.goalsAgainst + score1
      && Played(r.0) == Played(t1) + 1 && Played(r.1) == Played(t2) + 1
      && (Consistent(t1) ==> Consistent(r.0))
      && (Consistent(t2) ==> Consistent(r.1))
      && (r.0.wins == t1.wins + 1 <==> score1 > score2)
      && (r.1.wins == t2.wins + 1 <==> score2 > score1)
      && (r.0.draws == t1.draws + 1 <==> score1 == score2)
      && (r.1.draws == t2.draws + 1 <==> score1 == score2)
      && (r.0.losses == t1.losses + 1 <==> score1 < score2)
      && (r.1.losses == t2.losses + 1 <==> score2 < score1)
      && t1.wins <= r.0.wins && t1.draws <= r.0.draws && t1.losses <= r.0.losses
      && t2.wins <= r.1.wins && t2.draws <= r.1.draws && t2.losses <= r.1.losses
      && r.0.points == t1.points + (if score1 > score2 then 3 else if score1 == score2 then 1 else 0)
      && r.1.points == t2.points + (if score2 > score1 then 3 else if score1 == score2 then 1 else 0)
      && r.0.points + r.1.points == t1.points + t2.points + (if score1 == score2 then 2 else 3)
  {
  }

  /** Recording a result does not depend on which side is named first. */
  lemma {:induction false} RecordSymmetric(t1: Team, t2: Team, score1: nat, score2: nat)
    ensures Record(t2, t1, score2, score1) == (Record(t1, t2, score1, score2).1, Record(t1, t2, score1, score2).0)
  {
  }
}
