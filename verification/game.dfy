/**
 * The football manager: a roster of clubs updated in place by matches, a
 * season loop over each division's round robin, and the end-of-season
 * promotion and relegation visits.
 */
module Game {
  import opened MatchSim
  import opened Teams
  import opened Fixtures
  import opened Season
  import opened Ranking
  import opened Promotion

  /** The result of one match as handed to the display: both names and the score. */
  datatype MatchReport = MatchReport(name1: string, score1: nat, score2: nat, name2: string)

  /** A club of the built-in roster, before it is placed in a division. */
  datatype Club = Club(name: string, strength: int, budget: int)

  /** The clubs `cs` as fresh teams of division `d`, in the order listed. */
  function Series(d: int, cs: seq<Club>): (ts: seq<Team>)
    ensures |ts| == |cs|
    ensures forall k :: 0 <= k < |ts| ==>
      && ts[k].name == cs[k].name && ts[k].division == d
      && ts[k].strength == cs[k].strength && ts[k].budget == cs[k].budget
      && Consistent(ts[k]) && Played(ts[k]) == 0 && ts[k].points == 0
  {
    seq(|cs|, k requires 0 <= k < |cs| => NewTeam(cs[k].name, d, cs[k].strength, cs[k].budget))
  }

  /** The built-in roster: five clubs in division 1, then four in division 2, then four in division 3. */
  function LoadTeams(): (ts: seq<Team>)
    ensures |ts| == 13
    ensures forall i :: 0 <= i < |ts| ==> Consistent(ts[i]) && Played(ts[i]) == 0
    ensures forall i :: 0 <= i < |ts| ==> ts[i].division == if i < 5 then 1 else if i < 9 then 2 else 3
  {
    var serieA := Series(1, [
      Club("Palmeiras", 85, 50000000),
      Club("Flamengo", 84, 45000000),
      Club("Fluminense", 82, 35000000),
      Club("Grêmio", 80, 30000000),
      Club("Atlético-MG", 81, 32000000)]);
    var serieB := Series(2, [
      Club("Sport", 75, 15000000),
      Club("Vitória", 74, 14000000),
      Club("Ceará", 73, 13000000),
      Club("CRB", 72, 12000000)]);
    var serieC := Series(3, [
      Club("Paysandu", 68, 5000000),
      Club("Amazonas", 67, 4500000),
      Club("Brusque", 66, 4000000),
      Club("Volta Redonda", 65, 3500000)]);
    serieA + serieB + serieC
  }

  /** The built-in roster's groups: positions 0 to 4, 5 to 8 and 9 to 12. */
  lemma {:induction false} DefaultGroups()
    ensures Members(LoadTeams(), 1) == seq(5, k => k)
    ensures Members(LoadTeams(), 2) == seq(4, k => 5 + k)
    ensures Members(LoadTeams(), 3) == seq(4, k => 9 + k)
  {
    LadderGroups(LoadTeams());
  }

  /** Five teams of division 1, then four of division 2, then four of division 3: three blocks. */
  lemma {:induction false} LadderGroups(ts: seq<Team>)
    requires |ts| == 13
    requires forall i :: 0 <= i < |ts| ==> ts[i].division == if i < 5 then 1 else if i < 9 then 2 else 3
    ensures Members(ts, 1) == seq(5, k => k)
    ensures Members(ts, 2) == seq(4, k => 5 + k)
    ensures Members(ts, 3) == seq(4, k => 9 + k)
  {
    BlockGroup(ts, 1, 0, 5);
    BlockGroup(ts, 2, 5, 4);
    BlockGroup(ts, 3, 9, 4);
  }

  /** A division that occupies exactly the `n` positions from `lo` on has those positions as its group. */
  lemma {:induction false} BlockGroup(ts: seq<Team>, d: int, lo: nat, n: nat)
    requires lo + n <= |ts|
    requires forall i :: 0 <= i < |ts| ==> (ts[i].division == d <==> lo <= i < lo + n)
    ensures Members(ts, d) == seq(n, k => lo + k)
  {
    var h: seq<nat> := seq(n, k => lo + k);
    MembersSpec(ts, d);
    forall i | 0 <= i < |ts| && ts[i].division == d
      ensures i in h
    {
      assert h[i - lo] == i;
    }
    IncreasingUnique(Members(ts, d), h);
  }

  class FootballManager {
    var teams: seq<Team>

    /** Every record keeps points at three per win plus one per draw, and every division is 1, 2 or 3. */
    ghost predicate Valid()
      reads this
    {
      Sound(teams)
    }

    /** A manager starts from the built-in roster with empty records. */
    constructor ()
      ensures Valid() && teams == LoadTeams()
    {
      teams := LoadTeams();
    }

    /**
     * Plays teams `i` and `j` on the given trials and records the result in
     * both records; returns the score for display.
     */
    method PlayMatch(i: nat, j: nat, trials: seq<Trial>) returns (report: MatchReport)
      requires i < |teams| && j < |teams| && i != j && Drawn(trials)
      modifies this
      ensures old(Valid()) ==> Valid()
      ensures teams == PlayFixture(old(teams), Fixture(i, j), trials)
      ensures var s := MatchScore(old(teams)[i].strength, old(teams)[j].strength, trials);
        report == MatchReport(old(teams)[i].name, s.0, s.1, old(teams)[j].name)
    {
      var score1, score2 := SimulateMatch(teams[i].strength, teams[j].strength, trials);
      var team1, team2 := teams[i], teams[j];
      team1 := team1.(goalsFor := team1.goalsFor + score1, goalsAgainst := team1.goalsAgainst + score2);
      team2 := team2.(goalsFor := team2.goalsFor + score2, goalsAgainst := team2.goalsAgainst + score1);
      if score1 > score2 {
        team1 := team1.(points := team1.points + 3, wins := team1.wins + 1);
        team2 := team2.(losses := team2.losses + 1);
      } else if score2 > score1 {
        team2 := team2.(points := team2.points + 3, wins := team2.wins + 1);
        team1 := team1.(losses := team1.losses + 1);
      } else {
        team1 := team1.(points := team1.points + 1, draws := team1.draws + 1);
        team2 := team2.(points := team2.points + 1, draws := team2.draws + 1);
      }
      teams := teams[i := team1][j := team2];
      report := MatchReport(team1.name, score1, score2, team2.name);
    }

    /** Groups the roster positions by division, each group in roster order. */
    method GroupByDivision() returns (groups: seq<seq<nat>>)
      requires DivisionsInRange(teams)
      ensures |groups| == 3
      ensures forall d :: 1 <= d <= 3 ==> groups[d - 1] == Members(teams, d)
    {
      groups := [[], [], []];
      for k := 0 to |teams|
        invariant |groups| == 3
        invariant forall d :: 1 <= d <= 3 ==> groups[d - 1] == Members(teams[..k], d)
      {
        assert teams[..k + 1][..k] == teams[..k];
        var d := teams[k].division;
        groups := groups[d - 1 := groups[d - 1] + [k]];
      }
      assert teams[..|teams|] == teams;
    }

    /**
     * One row of a group's round robin: the team at position i of the group
     * plays every team at a later position, in order, each match on the
     * next entry of `draws`.
     */
    method PlayRow(g: seq<nat>, i: nat, draws: seq<seq<Trial>>, next: nat, ghost start: seq<Team>, ghost done: seq<Fixture>)
      returns (next': nat)
      requires |teams| == |start| && i < |g|
      requires Increasing(g) && forall k :: 0 <= k < |g| ==> g[k] < |start|
      requires WellFormed(|start|, done) && next == |done| && next + |g| - i - 1 <= |draws|
      requires forall k :: 0 <= k < |draws| ==> Drawn(draws[k])
      requires teams == Replay(start, done, draws)
      modifies this
      ensures next' == next + |g| - i - 1
      ensures WellFormed(|start|, done + RowTo(g, i, |g|))
      ensures teams == Replay(start, done + RowTo(g, i, |g|), draws)
    {
      ghost var all := done + RowTo(g, i, |g|);
      WellFormedRow(|start|, done, g, i);
      next' := next;
      var j := i + 1;
      assert all[..next'] == done;
      while j < |g|
        invariant i + 1 <= j <= |g|
        invariant |teams| == |start|
        invariant next' == |done| + j - i - 1
        invariant WellFormed(|start|, all[..next'])
        invariant teams == Replay(start, all[..next'], draws)
      {
        RowAt(done, g, i, j, next');
        ghost var prev := teams;
        var _ := PlayMatch(g[i], g[j], draws[next']);
        ReplayNext(start, all, next', draws, prev, Fixture(g[i], g[j]), teams);
        next' := next' + 1;
        j := j + 1;
      }
      assert all[..next'] == all;
    }

    /** The single round robin of one group: every pair of its teams plays once, row by row. */
    method PlayRoundRobin(g: seq<nat>, draws: seq<seq<Trial>>, next: nat, ghost start: seq<Team>, ghost done: seq<Fixture>)
      returns (next': nat)
      requires |teams| == |start|
      requires Increasing(g) && forall k :: 0 <= k < |g| ==> g[k] < |start|
      requires WellFormed(|start|, done) && next == |done| && next + |RoundRobin(g)| <= |draws|
      requires forall k :: 0 <= k < |draws| ==> Drawn(draws[k])
      requires teams == Replay(start, done, draws)
      modifies this
      ensures next' == next + |RoundRobin(g)|
      ensures WellFormed(|start|, done + RoundRobin(g))
      ensures teams == Replay(start, done + RoundRobin(g), draws)
    {
      next' := next;
      var i := 0;
      ghost var played := done;
      assert done + RowsUpTo(g, 0) == done;
      while i < |g|
        invariant 0 <= i <= |g|
        invariant |teams| == |start|
        invariant played == done + RowsUpTo(g, i)
        invariant next' == |played| <= |draws|
        invariant WellFormed(|start|, played)
        invariant teams == Replay(start, played, draws)
      {
        RowsUpToGrows(g, i + 1, |g|);
        ghost var row := RowTo(g, i, |g|);
        NextRow(done, g, i);
        next' := PlayRow(g, i, draws, next', start, played);
        played := played + row;
        i := i + 1;
      }
    }

    /** The matches of a season: the three groups' round robins in division order, match k on `draws[k]`. */
    method PlaySeasonMatches(draws: seq<seq<Trial>>)
      requires Valid() && |SeasonFixtures(teams)| <= |draws|
      requires forall k :: 0 <= k < |draws| ==> Drawn(draws[k])
      modifies this
      ensures Valid()
      ensures teams == Replay(old(teams), SeasonFixtures(old(teams)), draws)
    {
      var groups := GroupByDivision();
      ghost var start := teams;
      var next := 0;
      for d := 1 to 4
        invariant |teams| == |start|
        invariant next == |FixturesUpTo(start, d - 1)| <= |draws|
        invariant WellFormed(|start|, FixturesUpTo(start, d - 1))
        invariant teams == Replay(start, FixturesUpTo(start, d - 1), draws)
      {
        MembersInRoster(start, d);
        FixturesUpToGrows(start, d, 3);
        next := PlayRoundRobin(groups[d - 1], draws, next, start, FixturesUpTo(start, d - 1));
      }
      ReplaySound(start, FixturesUpTo(start, 3), draws);
    }

    /** Relegation in a visit: the last, then the second-last team of `st` goes down one division. */
    method RelegateBottomTwo(st: seq<nat>) returns (ok: bool)
      requires InRoster(teams, st)
      modifies this
      ensures ok == Relegate(old(teams), st).Done? && teams == Relegate(old(teams), st).teams
    {
      var n := |st|;
      if n == 0 {
        return false;
      }
      teams := teams[st[n - 1] := teams[st[n - 1]].(division := teams[st[n - 1]].division + 1)];
      if n == 1 {
        return false;
      }
      teams := teams[st[n - 2] := teams[st[n - 2]].(division := teams[st[n - 2]].division + 1)];
      ok := true;
    }

    /** Promotion in a visit: the first, then the second team of `st` goes up one division. */
    method PromoteTopTwo(st: seq<nat>) returns (ok: bool)
      requires InRoster(teams, st)
      modifies this
      ensures ok == Promote(old(teams), st).Done? && teams == Promote(old(teams), st).teams
    {
      var n := |st|;
      if n == 0 {
        return false;
      }
      teams := teams[st[0] := teams[st[0]].(division := teams[st[0]].division - 1)];
      if n == 1 {
        return false;
      }
      teams := teams[st[1] := teams[st[1]].(division := teams[st[1]].division - 1)];
      ok := true;
    }

    /**
     * The visit of division `d` at the end of a season, on fresh standings:
     * relegation unless `d` is the lowest division, then promotion unless it
     * is the top one.  Running off the end of the standings stops the visit
     * with `ok` false, keeping the moves already made.
     */
    method VisitDivision(d: int) returns (ok: bool)
      requires Valid() && 1 <= d <= 3
      modifies this
      ensures Valid()
      ensures ok == Pass(old(teams), d).Done? && teams == Pass(old(teams), d).teams
    {
      ghost var before := teams;
      PassSound(before, d);
      var st := Standings(teams, d);
      ok := true;
      if d < 3 {
        ok := RelegateBottomTwo(st);
      }
      if ok && d > 1 {
        ok := PromoteTopTwo(st);
      }
    }

    /**
     * Promotion and relegation: divisions 1, 2 and 3 are visited in order,
     * each on the roster the previous visit left; an index error ends the
     * step, keeping the moves already made.
     */
    method HandlePromotionsRelegations() returns (ok: bool)
      requires Valid()
      modifies this
      ensures Valid()
      ensures ok == PromoteRelegate(old(teams)).Done? && teams == PromoteRelegate(old(teams)).teams
    {
      ghost var start := teams;
      var d := 1;
      while d <= 3
        invariant 1 <= d <= 4 && Valid()
        invariant Passes(start, d - 1) == Done(teams)
      {
        ghost var before := teams;
        ok := VisitDivision(d);
        PassesNext(start, d, before);
        if !ok {
          ErrorSticks(start, d, 3);
          assert PromoteRelegate(start) == IndexError(teams);
          return;
        }
        d := d + 1;
      }
      assert PromoteRelegate(start) == Done(teams);
      ok := true;
    }

    /** A whole season: every division's matches, then promotion and relegation. */
    method PlaySeason(draws: seq<seq<Trial>>) returns (ok: bool)
      requires Valid() && |SeasonFixtures(teams)| <= |draws|
      requires forall k :: 0 <= k < |draws| ==> Drawn(draws[k])
      modifies this
      ensures Valid()
      ensures var played := Replay(old(teams), SeasonFixtures(old(teams)), draws);
        ok == PromoteRelegate(played).Done? && teams == PromoteRelegate(played).teams
    {
      PlaySeasonMatches(draws);
      ok := HandlePromotionsRelegations();
    }
  }
}
