/**
 * The fixture list of a season: teams are grouped by division in roster
 * order, and each group plays a single round robin, the team at position i
 * meeting every team at a later position j, in that order.
 *
 * Teams are named by their position in the roster.
 */
module Fixtures {
  import opened Teams

  /** One match: the roster positions of the first-named and second-named team. */
  datatype Fixture = Fixture(first: nat, second: nat)

  /** Strictly increasing positions: roster order, no repeats. */
  predicate Increasing(g: seq<nat>)
  {
    forall k, l :: 0 <= k < l < |g| ==> g[k] < g[l]
  }

  /** The roster positions of the teams whose division is `d`, in roster order. */
  function Members(ts: seq<Team>, d: int): (g: seq<nat>)
    ensures |g| <= |ts|
  {
    if ts == [] then []
    else Members(ts[..|ts| - 1], d) + (if ts[|ts| - 1].division == d then [|ts| - 1] else [])
  }

  /** A group lists, in roster order and once each, exactly the teams of its division. */
  lemma {:induction false} MembersSpec(ts: seq<Team>, d: int)
    ensures var g := Members(ts, d);
      && Increasing(g)
      && (forall k :: 0 <= k < |g| ==> g[k] < |ts| && ts[g[k]].division == d)
      && (forall i :: 0 <= i < |ts| ==> (i in g <==> ts[i].division == d))
  {
    if ts != [] {
      var init := ts[..|ts| - 1];
      MembersSpec(init, d);
      var g, h := Members(ts, d), Members(init, d);
      assert forall i :: 0 <= i < |init| ==> init[i] == ts[i];
      if ts[|ts| - 1].division == d {
        assert g == h + [|ts| - 1];
      } else {
        assert g == h;
      }
    }
  }

  /** A group lists positions of the roster, in roster order. */
  lemma {:induction false} MembersInRoster(ts: seq<Team>, d: int)
    ensures Increasing(Members(ts, d)) && forall k :: 0 <= k < |Members(ts, d)| ==> Members(ts, d)[k] < |ts|
  {
    MembersSpec(ts, d);
  }

  /** Group membership depends on the division fields alone. */
  lemma {:induction false} MembersByDivision(ts: seq<Team>, us: seq<Team>, d: int)
    requires |ts| == |us|
    requires forall i :: 0 <= i < |ts| ==> ts[i].division == us[i].division
    ensures Members(ts, d) == Members(us, d)
  {
    if ts != [] {
      MembersByDivision(ts[..|ts| - 1], us[..|us| - 1], d);
    }
  }

  /** An increasing sequence is determined by its elements. */
  lemma {:induction false} IncreasingUnique(g: seq<nat>, h: seq<nat>)
    requires Increasing(g) && Increasing(h)
    requires forall x :: x in g <==> x in h
    ensures g == h
  {
    assert g != [] ==> g[0] in h;
    assert h != [] ==> h[0] in g;
    if g != [] {
      assert g[0] == h[0];
      forall x
        ensures x in g[1..] <==> x in h[1..]
      {
        if x in g[1..] {
          TailMember(g, h, x);
        }
        if x in h[1..] {
          TailMember(h, g, x);
        }
      }
      IncreasingUnique(g[1..], h[1..]);
      assert g == [g[0]] + g[1..] && h == [h[0]] + h[1..];
    }
  }

  lemma {:induction false} TailMember(g: seq<nat>, h: seq<nat>, x: nat)
    requires Increasing(g) && Increasing(h) && g != [] && h != [] && g[0] == h[0]
    requires x in g[1..] && x in h
    ensures x in h[1..]
  {
    var k :| 1 <= k < |g| && g[k] == x;
    var j :| 0 <= j < |h| && h[j] == x;
    assert j != 0;
    assert h[1..][j - 1] == x;
  }

  /** Every fixture pairs two members of `g`, the earlier in roster order named first. */
  predicate Within(fx: seq<Fixture>, g: seq<nat>)
  {
    forall k :: 0 <= k < |fx| ==> fx[k].first in g && fx[k].second in g && fx[k].first < fx[k].second
  }

  /** The matches of the team at position `i` of `g` against positions i+1 .. m-1. */
  function RowTo(g: seq<nat>, i: nat, m: nat): (r: seq<Fixture>)
    requires i < m <= |g|
    ensures |r| == m - i - 1
    decreases m
  {
    if m == i + 1 then [] else RowTo(g, i, m - 1) + [Fixture(g[i], g[m - 1])]
  }

  /** The matches of the teams at positions 0 .. n-1 of `g`, row by row. */
  function RowsUpTo(g: seq<nat>, n: nat): (r: seq<Fixture>)
    requires n <= |g|
  {
    if n == 0 then [] else RowsUpTo(g, n - 1) + RowTo(g, n - 1, |g|)
  }

  /** A single round robin over `g`, in the order the nested loops play it: k teams play k(k - 1)/2 matches. */
  function RoundRobin(g: seq<nat>): seq<Fixture>
  {
    RowsUpTo(g, |g|)
  }

  /** A round robin over k teams has k(k - 1)/2 matches. */
  lemma {:induction false} RoundRobinCount(g: seq<nat>)
    ensures 2 * |RoundRobin(g)| == |g| * (|g| - 1)
  {
    RowsUpToCount(g, |g|);
  }

  /** The first n rows of a group of m teams hold (m - 1) + (m - 2) + ... + (m - n) matches. */
  lemma {:induction false} RowsUpToCount(g: seq<nat>, n: nat)
    requires n <= |g|
    ensures 2 * |RowsUpTo(g, n)| == n * (2 * |g| - n - 1)
  {
    if n > 0 {
      RowsUpToCount(g, n - 1);
      assert n * (2 * |g| - n - 1) == (n - 1) * (2 * |g| - (n - 1) - 1) + 2 * (|g| - n);
    }
  }

  /** Every fixture of a row pairs two members of the group, the earlier one named first. */
  lemma {:induction false} RowToWithin(g: seq<nat>, i: nat, m: nat)
    requires Increasing(g) && i < m <= |g|
    ensures Within(RowTo(g, i, m), g)
    decreases m
  {
    if m > i + 1 {
      RowToWithin(g, i, m - 1);
      var a, r := RowTo(g, i, m - 1), RowTo(g, i, m);
      assert r == a + [Fixture(g[i], g[m - 1])];
      forall k | 0 <= k < |r|
        ensures r[k].first in g && r[k].second in g && r[k].first < r[k].second
      {
        if k < |a| {
          assert r[k] == a[k];
        }
      }
    }
  }

  /** Every round-robin fixture pairs two members of the group, the earlier one named first. */
  lemma {:induction false} RowsUpToWithin(g: seq<nat>, n: nat)
    requires Increasing(g) && n <= |g|
    ensures Within(RowsUpTo(g, n), g)
  {
    if n > 0 {
      RowsUpToWithin(g, n - 1);
      RowToWithin(g, n - 1, |g|);
      var a, b, r := RowsUpTo(g, n - 1), RowTo(g, n - 1, |g|), RowsUpTo(g, n);
      assert r == a + b;
      forall k | 0 <= k < |r|
        ensures r[k].first in g && r[k].second in g && r[k].first < r[k].second
      {
        if k < |a| {
          assert r[k] == a[k];
        } else {
          assert r[k] == b[k - |a|];
        }
      }
    }
  }

  /** In row `i`, the match against position `j` comes j - i - 1 matches after the row's start. */
  lemma {:induction false} RowToAt(g: seq<nat>, i: nat, m: nat, j: nat)
    requires i < j < m <= |g|
    ensures RowTo(g, i, m)[j - i - 1] == Fixture(g[i], g[j])
    decreases m
  {
    if j < m - 1 {
      RowToAt(g, i, m - 1, j);
    }
  }

  /** The same, after whatever was played before the row. */
  lemma {:induction false} RowAt(pre: seq<Fixture>, g: seq<nat>, i: nat, j: nat, p: nat)
    requires i < j < |g| && p == |pre| + j - i - 1
    ensures p < |pre + RowTo(g, i, |g|)| && (pre + RowTo(g, i, |g|))[p] == Fixture(g[i], g[j])
  {
    RowToAt(g, i, |g|, j);
  }

  /** Row `i` follows the rows before it, after whatever was played first. */
  lemma {:induction false} NextRow(pre: seq<Fixture>, g: seq<nat>, i: nat)
    requires i < |g|
    ensures pre + RowsUpTo(g, i + 1) == pre + RowsUpTo(g, i) + RowTo(g, i, |g|)
  {
    assert RowsUpTo(g, i + 1) == RowsUpTo(g, i) + RowTo(g, i, |g|);
  }

  /** Rows already played are a prefix: `|RowsUpTo|` grows with `n`. */
  lemma {:induction false} RowsUpToGrows(g: seq<nat>, a: nat, b: nat)
    requires a <= b <= |g|
    ensures |RowsUpTo(g, a)| <= |RowsUpTo(g, b)|
    decreases b - a
  {
    if a < b {
      RowsUpToGrows(g, a + 1, b);
    }
  }

  /** Whether fixture `f` involves team `x`. */
  predicate Touches(f: Fixture, x: nat)
  {
    f.first == x || f.second == x
  }

  /** Whether fixture `f` is a meeting of `x` and `y`, in either order. */
  predicate Meets(f: Fixture, x: nat, y: nat)
  {
    (f.first == x && f.second == y) || (f.first == y && f.second == x)
  }

  /** The number of fixtures in `fx` that team `x` takes part in. */
  function Involving(fx: seq<Fixture>, x: nat): (c: nat)
    ensures c <= |fx|
  {
    if fx == [] then 0
    else Involving(fx[..|fx| - 1], x) + (if Touches(fx[|fx| - 1], x) then 1 else 0)
  }

  /** The number of fixtures in `fx` in which `x` and `y` meet. */
  function Meetings(fx: seq<Fixture>, x: nat, y: nat): (c: nat)
    ensures c <= |fx|
  {
    if fx == [] then 0
    else Meetings(fx[..|fx| - 1], x, y) + (if Meets(fx[|fx| - 1], x, y) then 1 else 0)
  }

  lemma {:induction false} InvolvingAppend(a: seq<Fixture>, b: seq<Fixture>, x: nat)
    ensures Involving(a + b, x) == Involving(a, x) + Involving(b, x)
  {
    if b == [] {
      assert a + b == a;
    } else {
      assert (a + b)[..|a + b| - 1] == a + b[..|b| - 1];
      InvolvingAppend(a, b[..|b| - 1], x);
    }
  }

  lemma {:induction false} MeetingsAppend(a: seq<Fixture>, b: seq<Fixture>, x: nat, y: nat)
    ensures Meetings(a + b, x, y) == Meetings(a, x, y) + Meetings(b, x, y)
  {
    if b == [] {
      assert a + b == a;
    } else {
      assert (a + b)[..|a + b| - 1] == a + b[..|b| - 1];
      MeetingsAppend(a, b[..|b| - 1], x, y);
    }
  }

  /** A team no fixture touches plays no game. */
  lemma {:induction false} InvolvingNone(fx: seq<Fixture>, x: nat)
    requires forall k :: 0 <= k < |fx| ==> !Touches(fx[k], x)
    ensures Involving(fx, x) == 0
  {
    if fx != [] {
      InvolvingNone(fx[..|fx| - 1], x);
    }
  }

  /** Two teams no fixture pairs never meet. */
  lemma {:induction false} MeetingsNone(fx: seq<Fixture>, x: nat, y: nat)
    requires forall k :: 0 <= k < |fx| ==> !Meets(fx[k], x, y)
    ensures Meetings(fx, x, y) == 0
  {
    if fx != [] {
      MeetingsNone(fx[..|fx| - 1], x, y);
    }
  }

  lemma {:induction false} InvolvingRowTo(g: seq<nat>, i: nat, m: nat, p: nat)
    requires Increasing(g) && i < m <= |g| && p < |g|
    ensures Involving(RowTo(g, i, m), g[p]) == if p == i then m - i - 1 else if i < p < m then 1 else 0
    decreases m
  {
    if m > i + 1 {
      InvolvingRowTo(g, i, m - 1, p);
      var r := RowTo(g, i, m);
      assert r[..|r| - 1] == RowTo(g, i, m - 1);
    }
  }

  lemma {:induction false} InvolvingRowsUpTo(g: seq<nat>, n: nat, p: nat)
    requires Increasing(g) && n <= |g| && p < |g|
    ensures Involving(RowsUpTo(g, n), g[p]) == (if p < n then |g| - 1 else n)
  {
    if n > 0 {
      var a, b := RowsUpTo(g, n - 1), RowTo(g, n - 1, |g|);
      assert RowsUpTo(g, n) == a + b;
      InvolvingRowsUpTo(g, n - 1, p);
      InvolvingAppend(a, b, g[p]);
      InvolvingRowTo(g, n - 1, |g|, p);
      assert Involving(a + b, g[p]) == (if p < n then |g| - 1 else n);
    }
  }

  /** In a round robin over k teams each of them plays k - 1 games; an outsider plays none. */
  lemma {:induction false} RoundRobinGames(g: seq<nat>, x: nat)
    requires Increasing(g)
    ensures Involving(RoundRobin(g), x) == if x in g then |g| - 1 else 0
  {
    if x in g {
      var p :| 0 <= p < |g| && g[p] == x;
      InvolvingRowsUpTo(g, |g|, p);
    } else {
      RowsUpToWithin(g, |g|);
      InvolvingNone(RoundRobin(g), x);
    }
  }

  lemma {:induction false} MeetingsRowTo(g: seq<nat>, i: nat, m: nat, p: nat, q: nat)
    requires Increasing(g) && i < m <= |g| && p < q < |g|
    ensures Meetings(RowTo(g, i, m), g[p], g[q]) == if p == i && q < m then 1 else 0
    decreases m
  {
    if m > i + 1 {
      var r, r' := RowTo(g, i, m), RowTo(g, i, m - 1);
      assert r == r' + [Fixture(g[i], g[m - 1])];
      assert r[..|r| - 1] == r';
      MeetingsRowTo(g, i, m - 1, p, q);
      assert Meets(Fixture(g[i], g[m - 1]), g[p], g[q]) <==> p == i && q == m - 1;
    }
  }

  lemma {:induction false} MeetingsRowsUpTo(g: seq<nat>, n: nat, p: nat, q: nat)
    requires Increasing(g) && n <= |g| && p < q < |g|
    ensures Meetings(RowsUpTo(g, n), g[p], g[q]) == if p < n then 1 else 0
  {
    if n > 0 {
      var a, b := RowsUpTo(g, n - 1), RowTo(g, n - 1, |g|);
      assert RowsUpTo(g, n) == a + b;
      MeetingsRowsUpTo(g, n - 1, p, q);
      MeetingsAppend(a, b, g[p], g[q]);
      MeetingsRowTo(g, n - 1, |g|, p, q);
      assert Meetings(a + b, g[p], g[q]) == if p < n then 1 else 0;
    }
  }

  lemma {:induction false} MeetingsSymmetric(fx: seq<Fixture>, x: nat, y: nat)
    ensures Meetings(fx, x, y) == Meetings(fx, y, x)
  {
    if fx != [] {
      MeetingsSymmetric(fx[..|fx| - 1], x, y);
    }
  }

  /**
   * In a round robin every pair of distinct members meets exactly once,
   * and no fixture involves a team from outside the group.
   */
  lemma {:induction false} RoundRobinPairs(g: seq<nat>, x: nat, y: nat)
    requires Increasing(g) && x != y
    ensures Meetings(RoundRobin(g), x, y) == if x in g && y in g then 1 else 0
  {
    if x in g && y in g {
      var p :| 0 <= p < |g| && g[p] == x;
      var q :| 0 <= q < |g| && g[q] == y;
      if p < q {
        MeetingsRowsUpTo(g, |g|, p, q);
      } else {
        MeetingsRowsUpTo(g, |g|, q, p);
        MeetingsSymmetric(RoundRobin(g), x, y);
      }
    } else {
      RowsUpToWithin(g, |g|);
      MeetingsNone(RoundRobin(g), x, y);
    }
  }
}
