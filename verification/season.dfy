/**
 * A season's matches as a value: the fixtures of every division, played in
 * order, each on its own draws.  This is the specification the league's
 * season loop is proved against.
 */
module Season {
  import opened MatchSim
  import opened Teams
  import opened Fixtures

  /** Every fixture names two different teams of a roster of `n` teams. */
  predicate WellFormed(n: nat, fx: seq<Fixture>)
  {
    forall k :: 0 <= k < |fx| ==> fx[k].first < n && fx[k].second < n && fx[k].first != fx[k].second
  }

  /** The roster after fixture `f` is played on `trials`: both records updated, nothing else. */
  function PlayFixture(ts: seq<Team>, f: Fixture, trials: seq<Trial>): (r: seq<Team>)
    requires f.first < |ts| && f.second < |ts| && f.first != f.second
    ensures |r| == |ts|
  {
    var score := MatchScore(ts[f.first].strength, ts[f.second].strength, trials);
    var rec := Record(ts[f.first], ts[f.second], score.0, score.1);
    ts[f.first := rec.0][f.second := rec.1]
  }

  /** The roster after the fixtures `fx` are played in order, fixture k on `draws[k]`. */
  function Replay(ts: seq<Team>, fx: seq<Fixture>, draws: seq<seq<Trial>>): (r: seq<Team>)
    requires WellFormed(|ts|, fx) && |fx| <= |draws|
    ensures |r| == |ts|
  {
    if fx == [] then ts
    else PlayFixture(Replay(ts, fx[..|fx| - 1], draws), fx[|fx| - 1], draws[|fx| - 1])
  }

  /** A row of a group of roster positions, appended to well-formed fixtures, keeps them well formed. */
  lemma {:induction false} WellFormedRow(n: nat, pre: seq<Fixture>, g: seq<nat>, i: nat)
    requires WellFormed(n, pre) && Increasing(g) && (forall k :: 0 <= k < |g| ==> g[k] < n) && i < |g|
    ensures WellFormed(n, pre + RowTo(g, i, |g|))
  {
    var row := RowTo(g, i, |g|);
    RowToWithin(g, i, |g|);
    var r := pre + row;
    forall k | 0 <= k < |r|
      ensures r[k].first < n && r[k].second < n && r[k].first != r[k].second
    {
      if k < |pre| {
        assert r[k] == pre[k];
      } else {
        assert r[k] == row[k - |pre|];
        assert row[k - |pre|].first in g && row[k - |pre|].second in g;
      }
    }
  }

  /** Playing one more fixture of a list is one more step of the replay of its prefixes. */
  lemma {:induction false} ReplayPrefix(ts: seq<Team>, fx: seq<Fixture>, p: nat, draws: seq<seq<Trial>>)
    requires WellFormed(|ts|, fx) && p < |fx| && p < |draws|
    ensures WellFormed(|ts|, fx[..p]) && WellFormed(|ts|, fx[..p + 1])
    ensures Replay(ts, fx[..p + 1], draws) == PlayFixture(Replay(ts, fx[..p], draws), fx[p], draws[p])
  {
    assert fx[..p + 1][..p] == fx[..p];
  }

  /** A roster that played fixture `p` of a list after replaying the fixtures before it has replayed the list up to `p` inclusive. */
  lemma {:induction false} ReplayNext(ts: seq<Team>, fx: seq<Fixture>, p: nat, draws: seq<seq<Trial>>, prev: seq<Team>, f: Fixture, cur: seq<Team>)
    requires WellFormed(|ts|, fx) && p < |fx| && p < |draws| && fx[p] == f
    requires WellFormed(|ts|, fx[..p]) && prev == Replay(ts, fx[..p], draws)
    requires f.first < |prev| && f.second < |prev| && f.first != f.second
    requires cur == PlayFixture(prev, f, draws[p])
    ensures WellFormed(|ts|, fx[..p + 1]) && cur == Replay(ts, fx[..p + 1], draws)
  {
    ReplayPrefix(ts, fx, p, draws);
  }

  /** The round robins of divisions 1 .. d, one after the other. */
  function FixturesUpTo(ts: seq<Team>, d: nat): seq<Fixture>
  {
    if d == 0 then [] else FixturesUpTo(ts, d - 1) + RoundRobin(Members(ts, d))
  }

  /** All fixtures of a season, in the order they are played. */
  function SeasonFixtures(ts: seq<Team>): (fx: seq<Fixture>)
    ensures WellFormed(|ts|, fx)
  {
    FixturesWellFormed(ts, 3);
    FixturesUpTo(ts, 3)
  }

  /** Later divisions only add fixtures. */
  lemma {:induction false} FixturesUpToGrows(ts: seq<Team>, a: nat, b: nat)
    requires a <= b
    ensures |FixturesUpTo(ts, a)| <= |FixturesUpTo(ts, b)|
  {
    if a < b {
      FixturesUpToGrows(ts, a, b - 1);
    }
  }

  /** The season's fixtures pair distinct teams of the roster. */
  lemma {:induction false} FixturesWellFormed(ts: seq<Team>, d: nat)
    ensures WellFormed(|ts|, FixturesUpTo(ts, d))
  {
    if d > 0 {
      FixturesWellFormed(ts, d - 1);
      var g := Members(ts, d);
      MembersSpec(ts, d);
      RowsUpToWithin(g, |g|);
      var a, b, r := FixturesUpTo(ts, d - 1), RoundRobin(g), FixturesUpTo(ts, d);
      assert r == a + b;
      forall k | 0 <= k < |r|
        ensures r[k].first < |ts| && r[k].second < |ts| && r[k].first != r[k].second
      {
        if k >= |a| {
          assert r[k] == b[k - |a|];
          assert b[k - |a|].first in g && b[k - |a|].second in g;
        } else {
          assert r[k] == a[k];
        }
      }
    }
  }

  /**
   * Playing fixtures changes only season records: each team keeps its club
   * fields, plays one more game per fixture it is in, and keeps points equal
   * to three per win plus one per draw.
   */
  lemma {:induction false} ReplayEffect(ts: seq<Team>, fx: seq<Fixture>, draws: seq<seq<Trial>>, i: nat)
    requires WellFormed(|ts|, fx) && |fx| <= |draws| && i < |ts|
    ensures SameClub(Replay(ts, fx, draws)[i], ts[i])
    ensures Played(Replay(ts, fx, draws)[i]) == Played(ts[i]) + Involving(fx, i)
    ensures Consistent(ts[i]) ==> Consistent(Replay(ts, fx, draws)[i])
  {
    if fx != [] {
      var init := fx[..|fx| - 1];
      ReplayEffect(ts, init, draws, i);
      var before := Replay(ts, init, draws);
      var f := fx[|fx| - 1];
      var score := MatchScore(before[f.first].strength, before[f.second].strength, draws[|fx| - 1]);
      var rec := Record(before[f.first], before[f.second], score.0, score.1);
      RecordEffect(before[f.first], before[f.second], score.0, score.1);
      assert Replay(ts, fx, draws) == before[f.first := rec.0][f.second := rec.1];
    }
  }

  /** Playing fixtures keeps a roster sound. */
  lemma {:induction false} ReplaySound(ts: seq<Team>, fx: seq<Fixture>, draws: seq<seq<Trial>>)
    requires WellFormed(|ts|, fx) && |fx| <= |draws| && Sound(ts)
    ensures Sound(Replay(ts, fx, draws))
  {
    forall i | 0 <= i < |ts|
      ensures Consistent(Replay(ts, fx, draws)[i]) && 1 <= Replay(ts, fx, draws)[i].division <= 3
    {
      ReplayEffect(ts, fx, draws, i);
    }
  }

  /** Team `i` plays in exactly the round robin of its own division. */
  lemma {:induction false} InvolvingUpTo(ts: seq<Team>, d: nat, i: nat)
    requires i < |ts|
    ensures Involving(FixturesUpTo(ts, d), i)
         == if 1 <= ts[i].division <= d then |Members(ts, ts[i].division)| - 1 else 0
  {
    if d > 0 {
      InvolvingUpTo(ts, d - 1, i);
      InvolvingAppend(FixturesUpTo(ts, d - 1), RoundRobin(Members(ts, d)), i);
      InvolvingGroup(ts, d, i);
    }
  }

  /** Team `i` plays k - 1 games in the round robin of its own division of k teams and none in another's. */
  lemma {:induction false} InvolvingGroup(ts: seq<Team>, d: int, i: nat)
    requires i < |ts|
    ensures Involving(RoundRobin(Members(ts, d)), i) == if ts[i].division == d then |Members(ts, d)| - 1 else 0
  {
    MembersSpec(ts, d);
    RoundRobinGames(Members(ts, d), i);
  }

  /** Two distinct teams meet once if they share a division, and never otherwise. */
  lemma {:induction false} MeetingsUpTo(ts: seq<Team>, d: nat, i: nat, j: nat)
    requires i < |ts| && j < |ts| && i != j
    ensures Meetings(FixturesUpTo(ts, d), i, j)
         == if ts[i].division == ts[j].division && 1 <= ts[i].division <= d then 1 else 0
  {
    if d > 0 {
      MeetingsUpTo(ts, d - 1, i, j);
      var g := Members(ts, d);
      var a, b := FixturesUpTo(ts, d - 1), RoundRobin(g);
      assert FixturesUpTo(ts, d) == a + b;
      MeetingsAppend(a, b, i, j);
      MeetingsGroup(ts, d, i, j);
    }
  }

  /** Two distinct teams meet once in the round robin of a division they share, and never in another's. */
  lemma {:induction false} MeetingsGroup(ts: seq<Team>, d: int, i: nat, j: nat)
    requires i < |ts| && j < |ts| && i != j
    ensures Meetings(RoundRobin(Members(ts, d)), i, j) == if ts[i].division == d && ts[j].division == d then 1 else 0
  {
    MembersSpec(ts, d);
    RoundRobinPairs(Members(ts, d), i, j);
  }

  /**
   * Over a season every team in a division of k teams plays k - 1 games,
   * and its record stays consistent.
   */
  lemma {:induction false} SeasonGames(ts: seq<Team>, draws: seq<seq<Trial>>, i: nat)
    requires |SeasonFixtures(ts)| <= |draws| && i < |ts| && 1 <= ts[i].division <= 3
    ensures WellFormed(|ts|, SeasonFixtures(ts))
    ensures var after := Replay(ts, SeasonFixtures(ts), draws);
      && SameClub(after[i], ts[i])
      && Played(after[i]) == Played(ts[i]) + |Members(ts, ts[i].division)| - 1
      && (Consistent(ts[i]) ==> Consistent(after[i]))
  {
    FixturesWellFormed(ts, 3);
    ReplayEffect(ts, SeasonFixtures(ts), draws, i);
    InvolvingUpTo(ts, 3, i);
  }

  /** Over a season each pair of teams of the same division meets exactly once; teams of different divisions never meet. */
  lemma {:induction false} SeasonPairs(ts: seq<Team>, i: nat, j: nat)
    requires i < |ts| && j < |ts| && i != j
    requires 1 <= ts[i].division <= 3
    ensures Meetings(SeasonFixtures(ts), i, j) == if ts[i].division == ts[j].division then 1 else 0
  {
    MeetingsUpTo(ts, 3, i, j);
  }
}
