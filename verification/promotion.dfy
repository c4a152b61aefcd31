/**
 * End-of-season promotion and relegation.  Divisions 1, 2 and 3 are visited
 * in that order; each visit recomputes the division's members and standings
 * from the roster as the earlier visits left it.  In division 1 and 2 the
 * last and then the second-last team go down one division; afterwards, in
 * division 2 and 3, the first and then the second team go up one division.
 * A division visited with fewer than two teams runs off the end of its
 * standings: the visit stops with an index error, keeping the moves it had
 * already made.
 */
module Promotion {
  import opened Teams
  import opened Fixtures
  import opened Ranking

  /** The roster after a visit, or the roster as it stood when a visit ran off the end of its standings. */
  datatype Outcome = Done(teams: seq<Team>) | IndexError(teams: seq<Team>)

  /** Team `i` moved by `delta` divisions (+1 is one division down, -1 one up). */
  function Move(ts: seq<Team>, i: nat, delta: int): (r: seq<Team>)
    requires i < |ts|
    ensures |r| == |ts|
  {
    ts[i := ts[i].(division := ts[i].division + delta)]
  }

  /** The standings list names positions of the roster. */
  predicate InRoster(ts: seq<Team>, st: seq<nat>)
  {
    forall k :: 0 <= k < |st| ==> st[k] < |ts|
  }

  /** Relegation: the last, then the second-last of the standings go down one division. */
  function Relegate(ts: seq<Team>, st: seq<nat>): (o: Outcome)
    requires InRoster(ts, st)
    ensures |o.teams| == |ts|
  {
    if |st| == 0 then IndexError(ts)
    else
      var t := Move(ts, st[|st| - 1], 1);
      if |st| == 1 then IndexError(t) else Done(Move(t, st[|st| - 2], 1))
  }

  /** Promotion: the first, then the second of the standings go up one division. */
  function Promote(ts: seq<Team>, st: seq<nat>): (o: Outcome)
    requires InRoster(ts, st)
    ensures |o.teams| == |ts|
  {
    if |st| == 0 then IndexError(ts)
    else
      var t := Move(ts, st[0], -1);
      if |st| == 1 then IndexError(t) else Done(Move(t, st[1], -1))
  }

  /** Relegation and promotion run off the end of the standings exactly when they list fewer than two teams. */
  lemma {:induction false} ShortStandingsFail(ts: seq<Team>, st: seq<nat>)
    requires InRoster(ts, st)
    ensures Relegate(ts, st).IndexError? <==> |st| < 2
    ensures Promote(ts, st).IndexError? <==> |st| < 2
  {
  }

  /** The visit of division `d`: relegation unless `d` is the lowest division, then promotion unless it is the top one. */
  function Pass(ts: seq<Team>, d: int): (o: Outcome)
    ensures |o.teams| == |ts|
  {
    var st := Standings(ts, d);
    var relegated := if d < 3 then Relegate(ts, st) else Done(ts);
    if relegated.IndexError? || d <= 1 then relegated else Promote(relegated.teams, st)
  }

  /** Visits divisions 1 .. d in order, each on the roster the previous one produced, stopping at the first error. */
  function Passes(ts: seq<Team>, d: nat): (o: Outcome)
    ensures |o.teams| == |ts|
  {
    if d == 0 then Done(ts)
    else
      match Passes(ts, d - 1)
      case IndexError(t) => IndexError(t)
      case Done(t) => Pass(t, d)
  }

  /** The whole end-of-season step. */
  function PromoteRelegate(ts: seq<Team>): (o: Outcome)
    ensures |o.teams| == |ts|
  {
    Passes(ts, 3)
  }

  /** A visit changes divisions only: every team keeps its club fields and its season record. */
  lemma {:induction false} PassKeepsRecords(ts: seq<Team>, d: int)
    ensures forall i :: 0 <= i < |ts| ==> Pass(ts, d).teams[i] == ts[i].(division := Pass(ts, d).teams[i].division)
  {
    var st := Standings(ts, d);
    var relegated := if d < 3 then Relegate(ts, st) else Done(ts);
    assert forall i :: 0 <= i < |ts| ==> relegated.teams[i] == ts[i].(division := relegated.teams[i].division);
  }

  /** Once a visit fails, the later divisions are not visited: the outcome stays that error. */
  lemma {:induction false} ErrorSticks(ts: seq<Team>, d: nat, e: nat)
    requires d <= e && Passes(ts, d).IndexError?
    ensures Passes(ts, e) == Passes(ts, d)
  {
    if d < e {
      ErrorSticks(ts, d, e - 1);
    }
  }

  /** Every division is one of 1, 2, 3. */
  predicate DivisionsInRange(ts: seq<Team>)
  {
    forall i :: 0 <= i < |ts| ==> 1 <= ts[i].division <= 3
  }

  /** The net move of team `i` in division `d`'s visit: +1 if in the bottom two of a relegating division, -1 if in the top two of a promoting one. */
  function NetMove(st: seq<nat>, d: int, i: nat): int
    requires |st| >= 2
  {
    (if d < 3 && (i == st[|st| - 1] || i == st[|st| - 2]) then 1 else 0)
    - (if d > 1 && (i == st[0] || i == st[1]) then 1 else 0)
  }

  /** Relegating from standings whose last two entries differ moves exactly those two teams down one division. */
  lemma {:induction false} RelegateEffect(ts: seq<Team>, st: seq<nat>, i: nat)
    requires InRoster(ts, st) && |st| >= 2 && st[|st| - 1] != st[|st| - 2] && i < |ts|
    ensures Relegate(ts, st).Done?
    ensures Relegate(ts, st).teams[i]
         == ts[i].(division := ts[i].division + if i == st[|st| - 1] || i == st[|st| - 2] then 1 else 0)
  {
    var t := Move(ts, st[|st| - 1], 1);
    assert t[i] == if i == st[|st| - 1] then ts[i].(division := ts[i].division + 1) else ts[i];
  }

  /** Promoting from standings whose first two entries differ moves exactly those two teams up one division. */
  lemma {:induction false} PromoteEffect(ts: seq<Team>, st: seq<nat>, i: nat)
    requires InRoster(ts, st) && |st| >= 2 && st[0] != st[1] && i < |ts|
    ensures Promote(ts, st).Done?
    ensures Promote(ts, st).teams[i] == ts[i].(division := ts[i].division - if i == st[0] || i == st[1] then 1 else 0)
  {
    var t := Move(ts, st[0], -1);
    assert t[i] == if i == st[0] then ts[i].(division := ts[i].division - 1) else ts[i];
  }

  /** Relegation and promotion leave a team that is not in the standings as it was. */
  lemma {:induction false} OutsideUnmoved(ts: seq<Team>, st: seq<nat>, i: nat)
    requires InRoster(ts, st) && i < |ts| && i !in st
    ensures Relegate(ts, st).teams[i] == ts[i] && Promote(ts, st).teams[i] == ts[i]
  {
    if |st| > 0 {
      assert st[|st| - 1] in st && st[0] in st;
      if |st| > 1 {
        assert st[|st| - 2] in st && st[1] in st;
      }
    }
  }

  /**
   * A visit of a division of at least two teams succeeds; each team moves by
   * its net move (0 outside the division) and nothing but its division changes.
   */
  lemma {:induction false} PassExact(ts: seq<Team>, d: int, i: nat)
    requires |Standings(ts, d)| >= 2 && i < |ts|
    ensures Pass(ts, d).Done?
    ensures Pass(ts, d).teams[i] == ts[i].(division := ts[i].division + NetMove(Standings(ts, d), d, i))
  {
    var st := Standings(ts, d);
    var n := |st|;
    OrderedDistinct(ts, st, n - 1, n - 2);
    OrderedDistinct(ts, st, 0, 1);
    var relegated := if d < 3 then Relegate(ts, st) else Done(ts);
    if d < 3 {
      RelegateEffect(ts, st, i);
    }
    if d > 1 {
      PromoteEffect(relegated.teams, st, i);
    }
  }

  /** A visit fails exactly when the division has fewer than two teams. */
  lemma {:induction false} PassFails(ts: seq<Team>, d: int)
    requires 1 <= d <= 3
    ensures Pass(ts, d).IndexError? <==> |Members(ts, d)| < 2
  {
    if |Standings(ts, d)| >= 2 {
      PassExact(ts, d, 0);
    }
  }

  /** A visit only ever moves teams of the visited division. */
  lemma {:induction false} PassOnlyDivision(ts: seq<Team>, d: int, i: nat)
    requires i < |ts| && ts[i].division != d
    ensures Pass(ts, d).teams[i] == ts[i]
  {
    var st := Standings(ts, d);
    assert i !in st;
    OutsideUnmoved(ts, st, i);
    var relegated := if d < 3 then Relegate(ts, st) else Done(ts);
    OutsideUnmoved(relegated.teams, st, i);
  }

  /** Division 1's visit never moves a team up, whether or not it succeeds. */
  lemma {:induction false} TopNeverPromoted(ts: seq<Team>, i: nat)
    requires i < |ts|
    ensures Pass(ts, 1).teams[i].division >= ts[i].division
  {
    var st := Standings(ts, 1);
    if |st| >= 2 {
      PassExact(ts, 1, i);
    } else {
      assert Pass(ts, 1) == Relegate(ts, st);
    }
  }

  /** Division 3's visit never moves a team down, whether or not it succeeds. */
  lemma {:induction false} BottomNeverRelegated(ts: seq<Team>, i: nat)
    requires i < |ts|
    ensures Pass(ts, 3).teams[i].division <= ts[i].division
  {
    var st := Standings(ts, 3);
    if |st| >= 2 {
      PassExact(ts, 3, i);
    } else {
      assert Pass(ts, 3) == Promote(ts, st);
    }
  }

  /** Each visit keeps every division in 1..3, also when it stops with an error. */
  lemma {:induction false} PassInRange(ts: seq<Team>, d: int)
    requires DivisionsInRange(ts) && 1 <= d <= 3
    ensures DivisionsInRange(Pass(ts, d).teams)
  {
    var st := Standings(ts, d);
    forall i | 0 <= i < |ts|
      ensures 1 <= Pass(ts, d).teams[i].division <= 3
    {
      if ts[i].division != d {
        PassOnlyDivision(ts, d, i);
      } else if |st| >= 2 {
        PassExact(ts, d, i);
      }
    }
  }

  /** Promotion and relegation keep every division in 1..3, however the visits end. */
  lemma {:induction false} PassesInRange(ts: seq<Team>, d: nat)
    requires DivisionsInRange(ts) && d <= 3
    ensures DivisionsInRange(Passes(ts, d).teams)
  {
    if d > 0 {
      PassesInRange(ts, d - 1);
      if Passes(ts, d - 1).Done? {
        PassInRange(Passes(ts, d - 1).teams, d);
      }
    }
  }

  /** A visit keeps a roster sound: records are untouched and every division stays in 1..3. */
  lemma {:induction false} PassSound(ts: seq<Team>, d: int)
    requires Sound(ts) && 1 <= d <= 3
    ensures Sound(Pass(ts, d).teams)
  {
    PassInRange(ts, d);
    PassKeepsRecords(ts, d);
    var r := Pass(ts, d).teams;
    forall i | 0 <= i < |r|
      ensures Consistent(r[i]) && 1 <= r[i].division <= 3
    {
      assert Consistent(ts[i]);
    }
  }

  /** After the visits of divisions 1 .. d - 1 succeed, the next step is the visit of division d. */
  lemma {:induction false} PassesNext(ts: seq<Team>, d: nat, t: seq<Team>)
    requires 1 <= d && Passes(ts, d - 1) == Done(t)
    ensures Passes(ts, d) == Pass(t, d)
  {
  }

  /**
   * A visit of a division of at least four teams moves exactly its bottom
   * two down (unless it is division 3) and its top two up (unless it is
   * division 1); every other team stays.
   */
  lemma {:induction false} PassFourOrMore(ts: seq<Team>, d: int, i: nat)
    requires 1 <= d <= 3 && |Members(ts, d)| >= 4 && i < |ts|
    ensures var st := Standings(ts, d); var n := |st|;
      && Pass(ts, d).Done?
      && Pass(ts, d).teams[i].division
         == if d < 3 && (i == st[n - 1] || i == st[n - 2]) then d + 1
            else if d > 1 && (i == st[0] || i == st[1]) then d - 1
            else ts[i].division
  {
    var st := Standings(ts, d);
    var n := |st|;
    PassExact(ts, d, i);
    OrderedDistinct(ts, st, 0, n - 1);
    OrderedDistinct(ts, st, 0, n - 2);
    OrderedDistinct(ts, st, 1, n - 1);
    OrderedDistinct(ts, st, 1, n - 2);
  }

  /** In a division of exactly two teams, the two relegations and the two promotions cancel out. */
  lemma {:induction false} TwoTeamsCancel(ts: seq<Team>)
    requires |Members(ts, 2)| == 2
    ensures Pass(ts, 2) == Done(ts)
  {
    var st := Standings(ts, 2);
    forall i | 0 <= i < |ts|
      ensures Pass(ts, 2).teams[i] == ts[i]
    {
      PassExact(ts, 2, i);
    }
  }

  /**
   * A team relegated from division 1 is a member of division 2 when division 2
   * is visited next, so it is ranked again in that visit's standings.
   */
  lemma {:induction false} RelegatedIsRankedAgain(ts: seq<Team>, i: nat)
    requires i < |ts| && ts[i].division == 1
    requires Pass(ts, 1).Done? && Pass(ts, 1).teams[i].division == 2
    ensures i in Standings(Pass(ts, 1).teams, 2)
  {
  }

  /** Six teams, two per division, with division 1's pair on 9 and 6 points and division 2's on 3 and 0. */
  function BounceRoster(): (ts: seq<Team>)
    ensures |ts| == 6
  {
    [ Team("A", 1, 70, 0, 9, 3, 0, 0, 3, 0),
      Team("B", 1, 70, 0, 6, 2, 0, 1, 2, 1),
      Team("C", 2, 60, 0, 3, 1, 0, 2, 1, 2),
      Team("D", 2, 60, 0, 0, 0, 0, 3, 0, 3),
      Team("E", 3, 50, 0, 0, 0, 0, 1, 0, 4),
      Team("F", 3, 50, 0, 0, 0, 0, 1, 0, 5) ]
  }

  /** `ts` with the divisions of teams `a` and `b` set to `d`. */
  function SetPair(ts: seq<Team>, a: nat, b: nat, d: int): (r: seq<Team>)
    requires a < |ts| && b < |ts|
    ensures |r| == |ts|
  {
    ts[a := ts[a].(division := d)][b := ts[b].(division := d)]
  }

  /** Division 1's visit sends both of its teams down. */
  lemma {:induction false} BounceFirstVisit()
    ensures Pass(BounceRoster(), 1) == Done(SetPair(BounceRoster(), 0, 1, 2))
  {
    var ts := BounceRoster();
    assert IsStandings(ts, 1, [0, 1]);
    StandingsUnique(ts, 1, [0, 1]);
    var t := SetPair(ts, 0, 1, 2);
    forall i | 0 <= i < |ts|
      ensures Pass(ts, 1).teams[i] == t[i]
    {
      PassExact(ts, 1, i);
    }
  }

  /** Division 2 when visited: the two newcomers on 9 and 6 points, then its own pair on 3 and 0. */
  lemma {:induction false} BounceSecondStandings()
    ensures Standings(SetPair(BounceRoster(), 0, 1, 2), 2) == [0, 1, 2, 3]
  {
    var t := SetPair(BounceRoster(), 0, 1, 2);
    assert IsStandings(t, 2, [0, 1, 2, 3]);
    StandingsUnique(t, 2, [0, 1, 2, 3]);
  }

  /** Division 2's visit ranks the two newcomers first: its own pair goes down and the newcomers go straight back up. */
  lemma {:induction false} BounceSecondVisit()
    ensures var t := SetPair(BounceRoster(), 0, 1, 2);
      Pass(t, 2) == Done(SetPair(BounceRoster(), 2, 3, 3))
  {
    var t := SetPair(BounceRoster(), 0, 1, 2);
    BounceSecondStandings();
    var u := SetPair(BounceRoster(), 2, 3, 3);
    forall i | 0 <= i < |t|
      ensures Pass(t, 2).teams[i] == u[i]
    {
      PassExact(t, 2, i);
    }
  }

  /** Division 3's visit ranks the two newcomers first and sends them straight back up. */
  lemma {:induction false} BounceThirdVisit()
    ensures var u := SetPair(BounceRoster(), 2, 3, 3);
      Pass(u, 3) == Done(BounceRoster())
  {
    var u := SetPair(BounceRoster(), 2, 3, 3);
    BounceThirdStandings();
    assert Pass(u, 3) == Promote(u, [2, 3, 4, 5]);
    var w := Move(Move(u, 2, -1), 3, -1);
    forall i | 0 <= i < |w|
      ensures w[i] == BounceRoster()[i]
    {
    }
  }

  /** Division 3 when visited: the two newcomers on 3 and 0 points, then the two original teams on 0 points and a worse goal difference. */
  lemma {:induction false} BounceThirdStandings()
    ensures Standings(SetPair(BounceRoster(), 2, 3, 3), 3) == [2, 3, 4, 5]
  {
    var u := SetPair(BounceRoster(), 2, 3, 3);
    assert IsStandings(u, 3, [2, 3, 4, 5]);
    StandingsUnique(u, 3, [2, 3, 4, 5]);
  }

  /**
   * Each visit sees the moves of the visits before it: in this roster all
   * four teams of divisions 1 and 2 move down and come straight back up, so
   * the whole step ends on the roster it started from.
   */
  lemma {:induction false} BounceBack()
    ensures Pass(BounceRoster(), 1).teams[0].division == 2
    ensures PromoteRelegate(BounceRoster()) == Done(BounceRoster())
  {
    BounceFirstVisit();
    BounceSecondVisit();
    BounceThirdVisit();
  }
}
