/**
 * Standings of one division: its teams ordered by points, then goal
 * difference, both descending.  The sort is stable, so teams equal on both
 * keep their roster order.  Standings are roster positions.
 */
module Ranking {
  import opened Teams
  import opened Fixtures

  /** `t` ranks strictly above `u` on the key (points, goal difference). */
  predicate KeyAbove(t: Team, u: Team)
  {
    t.points > u.points || (t.points == u.points && GoalDiff(t) > GoalDiff(u))
  }

  /** `t` and `u` are tied on both points and goal difference. */
  predicate SameKey(t: Team, u: Team)
  {
    t.points == u.points && GoalDiff(t) == GoalDiff(u)
  }

  /** Roster position `a` is listed before `b`: a better key, or the same key and earlier in the roster. */
  predicate Ahead(ts: seq<Team>, a: nat, b: nat)
  {
    a < |ts| && b < |ts| && (KeyAbove(ts[a], ts[b]) || (SameKey(ts[a], ts[b]) && a < b))
  }

  /** Every listed team comes strictly before every team listed after it. */
  predicate Ordered(ts: seq<Team>, r: seq<nat>)
  {
    forall k, l :: 0 <= k < l < |r| ==> Ahead(ts, r[k], r[l])
  }

  /** `r` lists exactly the teams of division `d`, each once, in standings order. */
  predicate IsStandings(ts: seq<Team>, d: int, r: seq<nat>)
  {
    && Ordered(ts, r)
    && (forall k :: 0 <= k < |r| ==> r[k] < |ts| && ts[r[k]].division == d)
    && (forall i :: 0 <= i < |ts| && ts[i].division == d ==> i in r)
  }

  /** Places `x`, which comes after every element of `s` in the roster, below every team that is not strictly worse. */
  function Insert(ts: seq<Team>, x: nat, s: seq<nat>): (r: seq<nat>)
    requires x < |ts| && Ordered(ts, s)
    requires forall k :: 0 <= k < |s| ==> s[k] < x
    ensures Ordered(ts, r) && |r| == |s| + 1
    ensures forall e :: e in r <==> e == x || e in s
  {
    if s == [] then [x]
    else if KeyAbove(ts[x], ts[s[0]]) then
      assert forall k :: 0 <= k < |s| ==> Ahead(ts, x, s[k]) by {
        forall k | 0 <= k < |s| ensures Ahead(ts, x, s[k]) {
          if k > 0 {
            assert Ahead(ts, s[0], s[k]);
          }
        }
      }
      [x] + s
    else
      var rest := Insert(ts, x, s[1..]);
      assert forall e :: e in rest ==> Ahead(ts, s[0], e) by {
        forall e | e in rest ensures Ahead(ts, s[0], e) {
          if e != x {
            var k :| 0 <= k < |s[1..]| && s[1..][k] == e;
            assert Ahead(ts, s[0], s[k + 1]);
          }
        }
      }
      PrependOrdered(ts, s[0], rest);
      [s[0]] + rest
  }

  lemma {:induction false} PrependOrdered(ts: seq<Team>, x: nat, r: seq<nat>)
    requires Ordered(ts, r)
    requires forall e :: e in r ==> Ahead(ts, x, e)
    ensures Ordered(ts, [x] + r)
  {
    var r' := [x] + r;
    forall k, l | 0 <= k < l < |r'|
      ensures Ahead(ts, r'[k], r'[l])
    {
      assert r'[l] == r[l - 1];
      if k > 0 {
        assert r'[k] == r[k - 1];
      } else {
        assert r[l - 1] in r;
      }
    }
  }

  /** Stable insertion sort of the roster positions `xs` (given in roster order). */
  function SortByKey(ts: seq<Team>, xs: seq<nat>): (r: seq<nat>)
    requires Increasing(xs)
    requires forall k :: 0 <= k < |xs| ==> xs[k] < |ts|
    ensures Ordered(ts, r) && |r| == |xs|
    ensures forall e :: e in r <==> e in xs
  {
    if xs == [] then []
    else
      var init := xs[..|xs| - 1];
      var sorted := SortByKey(ts, init);
      assert forall k :: 0 <= k < |sorted| ==> sorted[k] < xs[|xs| - 1] by {
        forall k | 0 <= k < |sorted| ensures sorted[k] < xs[|xs| - 1] {
          assert sorted[k] in init;
        }
      }
      assert forall e :: e in xs <==> e in init || e == xs[|xs| - 1] by {
        assert xs == init + [xs[|xs| - 1]];
      }
      Insert(ts, xs[|xs| - 1], sorted)
  }

  /** The standings of division `d`, as computed before display and before promotion and relegation. */
  function Standings(ts: seq<Team>, d: int): (r: seq<nat>)
    ensures IsStandings(ts, d, r)
    ensures |r| == |Members(ts, d)|
  {
    MembersSpec(ts, d);
    SortByKey(ts, Members(ts, d))
  }

  /** No team is listed twice. */
  lemma {:induction false} OrderedDistinct(ts: seq<Team>, r: seq<nat>, k: nat, l: nat)
    requires Ordered(ts, r) && k < |r| && l < |r| && k != l
    ensures r[k] != r[l]
  {
    if k < l {
      assert Ahead(ts, r[k], r[l]);
    } else {
      assert Ahead(ts, r[l], r[k]);
    }
  }

  /** The first of a listing in standings order is ahead of every other team listed. */
  lemma {:induction false} FirstAhead(ts: seq<Team>, r: seq<nat>, e: nat)
    requires Ordered(ts, r) && e in r && e != r[0]
    ensures Ahead(ts, r[0], e)
  {
    var k :| 0 <= k < |r| && r[k] == e;
    assert 0 < k;
  }

  /** Two listings in standings order with the same teams are the same listing. */
  lemma {:induction false} OrderedUnique(ts: seq<Team>, r: seq<nat>, s: seq<nat>)
    requires Ordered(ts, r) && Ordered(ts, s)
    requires forall e :: e in r <==> e in s
    ensures r == s
  {
    if r != [] {
      assert r[0] in r;
    }
    if s != [] {
      assert s[0] in s;
    }
    if r != [] {
      if r[0] != s[0] {
        // each first would be ahead of the other
        FirstAhead(ts, s, r[0]);
        FirstAhead(ts, r, s[0]);
      }
      forall e
        ensures e in r[1..] <==> e in s[1..]
      {
        if e in r[1..] {
          var k :| 1 <= k < |r| && r[k] == e;
          OrderedDistinct(ts, r, 0, k);
          assert e in r;
          var m :| 0 <= m < |s| && s[m] == e;
          assert s[1..][m - 1] == e;
        }
        if e in s[1..] {
          var k :| 1 <= k < |s| && s[k] == e;
          OrderedDistinct(ts, s, 0, k);
          assert e in s;
          var m :| 0 <= m < |r| && r[m] == e;
          assert r[1..][m - 1] == e;
        }
      }
      OrderedUnique(ts, r[1..], s[1..]);
      assert r == [r[0]] + r[1..] && s == [s[0]] + s[1..];
    }
  }

  /** The standings are the only listing of division `d` in standings order. */
  lemma {:induction false} StandingsUnique(ts: seq<Team>, d: int, r: seq<nat>)
    requires IsStandings(ts, d, r)
    ensures r == Standings(ts, d)
  {
    OrderedUnique(ts, r, Standings(ts, d));
  }

  /**
   * Read pairwise: a team listed above another has at least as many points;
   * on equal points at least the same goal difference; and on equal points
   * and goal difference it comes earlier in the roster.
   */
  lemma {:induction false} StandingsOrder(ts: seq<Team>, d: int, k: nat, l: nat)
    requires k < l < |Standings(ts, d)|
    ensures var r := Standings(ts, d);
      && r[k] < |ts| && r[l] < |ts|
      && ts[r[k]].points >= ts[r[l]].points
      && (ts[r[k]].points == ts[r[l]].points ==> GoalDiff(ts[r[k]]) >= GoalDiff(ts[r[l]]))
      && (SameKey(ts[r[k]], ts[r[l]]) ==> r[k] < r[l])
  {
    assert Ahead(ts, Standings(ts, d)[k], Standings(ts, d)[l]);
  }
}
