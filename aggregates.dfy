/**
 * Grouped queries over the game-log table: the win/loss record, keeping or
 * dropping the dates a player appears on, per-game team totals of a statistic
 * and the over/under split of two teams' totals.
 */
module Aggregates {
  import opened Wrappers
  import opened Strings
  import opened Seqs
  import opened Rows
  import opened Queries

  // ---------------------------------------------------------------------------
  // Group keys

  /** No key occurs twice in `ks`. */
  predicate Distinct(ks: seq<string>)
  {
    forall i, j | 0 <= i < j < |ks| :: ks[i] != ks[j]
  }

  /** The distinct dates of `rows` in order of first appearance: the groups of a group-by on date. */
  function DateGroups(rows: seq<Row>): (ks: seq<string>)
    ensures Distinct(ks)
    ensures forall d :: d in ks <==> d in Dates(rows)
  {
    if rows == [] then []
    else
      var front := rows[..|rows| - 1];
      var last := rows[|rows| - 1];
      var ks := DateGroups(front);
      assert forall r :: r in rows <==> r in front || r == last by {
        assert rows == front + [last];
      }
      if last.dateGame in ks then ks else ks + [last.dateGame]
  }

  /** The dates the rows fall on. */
  function Dates(rows: seq<Row>): set<string>
  {
    set r | r in rows :: r.dateGame
  }

  /** A sequence without repetitions has as many elements as its set. */
  lemma {:induction false} DistinctCard(ks: seq<string>)
    requires Distinct(ks)
    ensures |set k | k in ks| == |ks|
    decreases |ks|
  {
    if ks != [] {
      var front := ks[..|ks| - 1];
      DistinctCard(front);
      assert (set k | k in ks) == (set k | k in front) + {ks[|ks| - 1]};
    }
  }

  // ---------------------------------------------------------------------------
  // get_record

  /** Every row dated `d` has a result containing "W"; computed over the rows. */
  function GroupWon(rows: seq<Row>, d: string): (won: bool)
    ensures won <==> forall r | r in rows && r.dateGame == d :: Contains(r.gameResult, "W")
  {
    if rows == [] then true
    else
      var front := rows[..|rows| - 1];
      var last := rows[|rows| - 1];
      assert rows == front + [last];
      GroupWon(front, d) && (last.dateGame != d || Contains(last.gameResult, "W"))
  }

  /** The number of keys among `ks` that satisfy `p`. */
  function CountWhere(ks: seq<string>, p: string -> bool): nat
  {
    if ks == [] then 0
    else CountWhere(ks[..|ks| - 1], p) + (if p(ks[|ks| - 1]) then 1 else 0)
  }

  /** The dates on which every row records a win. */
  function WinDates(rows: seq<Row>): set<string>
  {
    set d | d in Dates(rows) && GroupWon(rows, d)
  }

  /** The dates on which some row does not record a win. */
  function LossDates(rows: seq<Row>): set<string>
  {
    set d | d in Dates(rows) && !GroupWon(rows, d)
  }

  /** Over keys without repetitions, the count is the size of the set of keys satisfying `p`. */
  lemma {:induction false} CountWhereCard(ks: seq<string>, p: string -> bool)
    requires Distinct(ks)
    ensures CountWhere(ks, p) == |set k | k in ks && p(k)|
    decreases |ks|
  {
    if ks != [] {
      var front := ks[..|ks| - 1];
      var last := ks[|ks| - 1];
      assert ks == front + [last];
      assert Distinct(front) by {
        forall i, j | 0 <= i < j < |front| ensures front[i] != front[j] {
          assert front[i] == ks[i] && front[j] == ks[j];
        }
      }
      CountWhereCard(front, p);
      assert last !in front by {
        forall i | 0 <= i < |front| ensures front[i] != last {
          assert front[i] == ks[i];
        }
      }
      var now := set k | k in ks && p(k);
      var before := set k | k in front && p(k);
      if p(last) {
        assert now == before + {last};
      } else {
        assert now == before;
      }
    }
  }

  /**
   * The (wins, losses) record of the rows the query selects, grouped by date: a
   * date is a win when every row on it records a win, and a loss otherwise.
   */
  function GetRecord(table: seq<Row>, query: Option<Query>): (record: (nat, nat))
    ensures record.0 == |WinDates(ApplyQuery(table, query))|
    ensures record.1 == |LossDates(ApplyQuery(table, query))|
    ensures record.0 + record.1 == |Dates(ApplyQuery(table, query))|
  {
    var df := ApplyQuery(table, query);
    var groups := DateGroups(df);
    var won := d => GroupWon(df, d);
    var wins := CountWhere(groups, won);
    assert |groups| == |Dates(df)| && wins == |WinDates(df)| by {
      DistinctCard(groups);
      CountWhereCard(groups, won);
      assert (set k | k in groups) == Dates(df);
      assert (set k | k in groups && won(k)) == WinDates(df);
    }
    assert Dates(df) == WinDates(df) + LossDates(df);
    assert WinDates(df) !! LossDates(df);
    (wins, |groups| - wins)
  }

  /** Two dates, one whose every line is a win and one whose every line is a loss, give (1, 1). */
  lemma RecordOfOneWinOneLoss(win: Row, loss: Row)
    requires win.dateGame != loss.dateGame
    requires win.gameResult == "W 110-98" && loss.gameResult == "L 95-101"
    ensures GetRecord([win, loss], None) == (1, 1)
  {
    var table := [win, loss];
    ContainsChar(win.gameResult, 'W');
    ContainsChar(loss.gameResult, 'W');
    assert "W" == ['W'];
    assert Dates(table) == {win.dateGame, loss.dateGame};
    assert GroupWon(table, win.dateGame) && !GroupWon(table, loss.dateGame);
    assert WinDates(table) == {win.dateGame};
    assert LossDates(table) == {loss.dateGame};
  }

  // ---------------------------------------------------------------------------
  // with_player / without_player

  /** Some row dated `d` belongs to a player whose name contains `player`. */
  ghost predicate PlayedOn(rows: seq<Row>, d: string, player: string)
  {
    exists r :: r in rows && r.dateGame == d && Contains(r.playerName, player)
  }

  /** Whether the group of rows dated `d` names the player; computed over the rows. */
  function GroupHasPlayer(rows: seq<Row>, d: string, player: string): (found: bool)
    ensures found <==> PlayedOn(rows, d, player)
  {
    if rows == [] then false
    else
      var front := rows[..|rows| - 1];
      var last := rows[|rows| - 1];
      assert rows == front + [last];
      GroupHasPlayer(front, d, player) || (last.dateGame == d && Contains(last.playerName, player))
  }

  /** The group filter of with_player: the row's date group names the player. */
  function InPlayersGroup(rows: seq<Row>, player: string): Row -> bool
  {
    (r: Row) => GroupHasPlayer(rows, r.dateGame, player)
  }

  /** The rows of the dates on which the player appears. */
  function WithPlayer(table: seq<Row>, player: string, query: Option<Query>): (result: seq<Row>)
    ensures var df := ApplyQuery(table, query);
      forall r :: multiset(result)[r] == if PlayedOn(df, r.dateGame, player) then multiset(df)[r] else 0
  {
    var df := ApplyQuery(table, query);
    assert forall r :: (multiset(Filter(df, InPlayersGroup(df, player)))[r]
        == if PlayedOn(df, r.dateGame, player) then multiset(df)[r] else 0) by {
      forall r
        ensures multiset(Filter(df, InPlayersGroup(df, player)))[r]
          == if PlayedOn(df, r.dateGame, player) then multiset(df)[r] else 0
      {
        FilterCount(df, InPlayersGroup(df, player), r);
      }
    }
    Filter(df, InPlayersGroup(df, player))
  }

  /** The rows of the dates on which the player does not appear. */
  function WithoutPlayer(table: seq<Row>, player: string, query: Option<Query>): (result: seq<Row>)
    ensures var df := ApplyQuery(table, query);
      forall r :: multiset(result)[r] == if PlayedOn(df, r.dateGame, player) then 0 else multiset(df)[r]
  {
    var df := ApplyQuery(table, query);
    assert forall r :: (multiset(Filter(df, Not(InPlayersGroup(df, player))))[r]
        == if PlayedOn(df, r.dateGame, player) then 0 else multiset(df)[r]) by {
      forall r
        ensures multiset(Filter(df, Not(InPlayersGroup(df, player))))[r]
          == if PlayedOn(df, r.dateGame, player) then 0 else multiset(df)[r]
      {
        FilterCount(df, Not(InPlayersGroup(df, player)), r);
        assert Not(InPlayersGroup(df, player))(r) == !GroupHasPlayer(df, r.dateGame, player);
      }
    }
    Filter(df, Not(InPlayersGroup(df, player)))
  }

  /**
   * with_player and without_player split the selected rows between them: together
   * they hold every row as often as the table does, and no row is in both.
   */
  lemma PlayerPartition(table: seq<Row>, player: string, query: Option<Query>)
    ensures multiset(WithPlayer(table, player, query)) + multiset(WithoutPlayer(table, player, query))
         == multiset(ApplyQuery(table, query))
    ensures multiset(WithPlayer(table, player, query)) !! multiset(WithoutPlayer(table, player, query))
  {
    var df := ApplyQuery(table, query);
    FilterPartition(df, InPlayersGroup(df, player));
    var w, wo := multiset(WithPlayer(table, player, query)), multiset(WithoutPlayer(table, player, query));
    forall r | r in w ensures r !in wo { }
  }

  /** Each result is a union of whole date groups of the selected rows. */
  lemma PlayerWholeGroups(table: seq<Row>, player: string, query: Option<Query>, r: Row, s: Row)
    requires r in ApplyQuery(table, query) && s in ApplyQuery(table, query)
    requires r.dateGame == s.dateGame
    ensures r in WithPlayer(table, player, query) <==> s in WithPlayer(table, player, query)
    ensures r in WithoutPlayer(table, player, query) <==> s in WithoutPlayer(table, player, query)
  {
    var df := ApplyQuery(table, query);
    assert multiset(df)[r] > 0 && multiset(df)[s] > 0;
    assert r in WithPlayer(table, player, query) <==> multiset(WithPlayer(table, player, query))[r] > 0;
    assert s in WithPlayer(table, player, query) <==> multiset(WithPlayer(table, player, query))[s] > 0;
    assert r in WithoutPlayer(table, player, query) <==> multiset(WithoutPlayer(table, player, query))[r] > 0;
    assert s in WithoutPlayer(table, player, query) <==> multiset(WithoutPlayer(table, player, query))[s] > 0;
  }

  // ---------------------------------------------------------------------------
  // game_totals / over_unders

  /** A per-game total: the game identifier and the summed statistic. */
  type Totals = seq<(string, int)>

  /** The row involves `team`, as its own team or as the opponent. */
  predicate Plays(r: Row, team: string)
  {
    r.teamId == team || r.oppId == team
  }

  /** `team_id == "T" | opp_id == "T"`: the team filter game_totals adds to the caller's query. */
  function TeamQuery(team: string): (q: Query)
    ensures forall r :: q.holds(r) <==> r.teamId == team || r.oppId == team
  {
    Query("team_id == \"" + team + "\" | opp_id == \"" + team + "\"", (r: Row) => Plays(r, team))
  }

  /** The optional caller's query admits the row (no query admits every row). */
  predicate Admits(query: Option<Query>, r: Row)
  {
    query.None? || query.value.holds(r)
  }

  /** Sum of `stat` over the rows of game `id` that the query admits and that involve `team`. */
  function TeamTotal(rows: seq<Row>, query: Option<Query>, team: string, id: string, stat: string): int
  {
    if rows == [] then 0
    else
      var last := rows[|rows| - 1];
      TeamTotal(rows[..|rows| - 1], query, team, id, stat)
        + (if Admits(query, last) && Plays(last, team) && last.gameId == id then StatValue(last, stat) else 0)
  }

  /** Sum of `stat` over the rows of game `id`. */
  function Total(rows: seq<Row>, id: string, stat: string): int
  {
    if rows == [] then 0
    else
      var last := rows[|rows| - 1];
      Total(rows[..|rows| - 1], id, stat) + (if last.gameId == id then StatValue(last, stat) else 0)
  }

  /** The game identifiers of a list of totals. */
  function KeysOf(totals: Totals): set<string>
  {
    set i | 0 <= i < |totals| :: totals[i].0
  }

  /** Putting an entry in front adds its game identifier to the keys. */
  lemma KeysOfCons(x: (string, int), rest: Totals)
    ensures KeysOf([x] + rest) == {x.0} + KeysOf(rest)
  {
    var t := [x] + rest;
    assert t[0] == x;
    forall k | k in KeysOf(t) ensures k in {x.0} + KeysOf(rest) {
      var i :| 0 <= i < |t| && t[i].0 == k;
      if i > 0 { assert t[i] == rest[i - 1]; }
    }
    forall k | k in {x.0} + KeysOf(rest) ensures k in KeysOf(t) {
      if k != x.0 {
        var i :| 0 <= i < |rest| && rest[i].0 == k;
        assert t[i + 1] == rest[i];
      }
    }
  }

  /** No game identifier has two entries in `totals`. */
  predicate DistinctKeys(totals: Totals)
  {
    forall i, j | 0 <= i < j < |totals| :: totals[i].0 != totals[j].0
  }

  /** The total recorded for `id`, or 0 when there is none. */
  function Lookup(totals: Totals, id: string): int
  {
    if totals == [] then 0
    else if totals[0].0 == id then totals[0].1
    else Lookup(totals[1..], id)
  }

  /** With one entry per game, looking up an entry's identifier finds that entry's total. */
  lemma {:induction false} LookupAt(totals: Totals, i: nat)
    requires DistinctKeys(totals) && i < |totals|
    ensures Lookup(totals, totals[i].0) == totals[i].1
    decreases i
  {
    if i > 0 {
      assert totals[0].0 != totals[i].0;
      assert totals[1..][i - 1] == totals[i];
      LookupAt(totals[1..], i - 1);
    }
  }

  /** A game without an entry has the total 0. */
  lemma LookupAbsent(totals: Totals, id: string)
    requires id !in KeysOf(totals)
    ensures Lookup(totals, id) == 0
    decreases |totals|
  {
    if totals != [] {
      assert totals[0].0 in KeysOf(totals);
      assert KeysOf(totals[1..]) <= KeysOf(totals) by {
        forall i | 0 <= i < |totals[1..]| ensures totals[1..][i].0 in KeysOf(totals) {
          assert totals[1..][i] == totals[i + 1];
        }
      }
      LookupAbsent(totals[1..], id);
    }
  }

  /** Adds `v` to the total of `id`, opening a new entry at the end for a new game. */
  function AddTo(totals: Totals, id: string, v: int): (r: Totals)
    requires DistinctKeys(totals)
    ensures DistinctKeys(r)
    ensures KeysOf(r) == KeysOf(totals) + {id}
    ensures forall k :: Lookup(r, k) == Lookup(totals, k) + (if k == id then v else 0)
    decreases |totals|
  {
    if totals == [] then
      KeysOfCons((id, v), []);
      assert forall k :: Lookup([(id, v)], k) == if k == id then v else 0;
      [(id, v)]
    else
      var tail := totals[1..];
      assert totals == [totals[0]] + tail;
      assert DistinctKeys(tail) by {
        forall i, j | 0 <= i < j < |tail| ensures tail[i].0 != tail[j].0 {
          assert tail[i] == totals[i + 1] && tail[j] == totals[j + 1];
        }
      }
      KeysOfCons(totals[0], tail);
      assert totals[0].0 !in KeysOf(tail) by {
        forall i | 0 <= i < |tail| ensures tail[i].0 != totals[0].0 {
          assert tail[i] == totals[i + 1];
        }
      }
      if totals[0].0 == id then
        var r := [(id, totals[0].1 + v)] + tail;
        assert r[1..] == tail;
        KeysOfCons((id, totals[0].1 + v), tail);
        assert forall k :: Lookup(r, k) == Lookup(totals, k) + (if k == id then v else 0) by {
          LookupAbsent(tail, id);
        }
        r
      else
        var rest := AddTo(tail, id, v);
        var r := [totals[0]] + rest;
        assert r[1..] == rest;
        KeysOfCons(totals[0], rest);
        r
  }

  /** groupby('game_id')[stat].sum(): one entry per game, holding that game's total. */
  function GroupSums(rows: seq<Row>, stat: string): (totals: Totals)
    ensures DistinctKeys(totals)
    ensures KeysOf(totals) == set r | r in rows :: r.gameId
    ensures forall id :: Lookup(totals, id) == Total(rows, id, stat)
  {
    if rows == [] then []
    else
      var front := rows[..|rows| - 1];
      var last := rows[|rows| - 1];
      assert rows == front + [last];
      assert (set r | r in rows :: r.gameId) == (set r | r in front :: r.gameId) + {last.gameId};
      AddTo(GroupSums(front, stat), last.gameId, StatValue(last, stat))
  }

  /** The caller's query chained with the team filter selects the admitted rows involving the team. */
  lemma TeamChain(query: Option<Query>, team: string)
    ensures ChainQueries([query, Some(TeamQuery(team))]).Ok?
    ensures forall row :: (ChainQueries([query, Some(TeamQuery(team))]).value.holds(row)
      <==> Admits(query, row) && Plays(row, team))
  {
    var args := [query, Some(TeamQuery(team))];
    assert args[1].Some?;
    forall row
      ensures ChainQueries(args).value.holds(row) <==> Admits(query, row) && Plays(row, team)
    {
      assert TeamQuery(team).holds(row) == Plays(row, team);
    }
  }

  /** Summing a game over the selected rows is summing it over the admitted rows of the team. */
  lemma {:induction false} TotalOfSelected(table: seq<Row>, p: Row -> bool, query: Option<Query>,
                                           team: string, id: string, stat: string)
    requires forall row :: p(row) <==> Admits(query, row) && Plays(row, team)
    ensures Total(Filter(table, p), id, stat) == TeamTotal(table, query, team, id, stat)
    decreases |table|
  {
    if table != [] {
      var front := table[..|table| - 1];
      var last := table[|table| - 1];
      TotalOfSelected(front, p, query, team, id, stat);
      var kept := Filter(table, p);
      if p(last) {
        assert kept == Filter(front, p) + [last];
        assert kept[..|kept| - 1] == Filter(front, p) && kept[|kept| - 1] == last;
        assert Total(kept, id, stat)
            == Total(Filter(front, p), id, stat) + (if last.gameId == id then StatValue(last, stat) else 0);
      } else {
        assert kept == Filter(front, p);
        assert !(Admits(query, last) && Plays(last, team));
      }
    }
  }

  /**
   * game_totals: chains the caller's query with the team filter, keeps the
   * selected rows and sums `stat` per game identifier; an unknown statistic
   * column fails. Each game of the selected rows appears once, with its total.
   */
  function GameTotals(table: seq<Row>, team: string, stat: string, query: Option<Query>)
    : (r: Result<Totals, Failure>)
    ensures r.Err? <==> stat !in Stats
    ensures r.Err? ==> r.error == UnknownStat(stat)
    ensures r.Ok? ==> DistinctKeys(r.value)
    ensures r.Ok? ==>
      KeysOf(r.value) == set row | row in table && Admits(query, row) && Plays(row, team) :: row.gameId
    ensures r.Ok? ==> forall i | 0 <= i < |r.value| ::
      r.value[i].1 == TeamTotal(table, query, team, r.value[i].0, stat)
  {
    TeamChain(query, team);
    var chained := ChainQueries([query, Some(TeamQuery(team))]).value;
    var rows := Filter(table, chained.holds);
    if stat !in Stats then Err(UnknownStat(stat))
    else
      var totals := GroupSums(rows, stat);
      assert (set row | row in rows :: row.gameId)
          == set row | row in table && Admits(query, row) && Plays(row, team) :: row.gameId by {
        forall row | row in table && Admits(query, row) && Plays(row, team) ensures row in rows {
          FilterKeeps(table, chained.holds, row);
        }
      }
      assert forall i | 0 <= i < |totals| ::
        totals[i].1 == TeamTotal(table, query, team, totals[i].0, stat) by {
        forall i | 0 <= i < |totals|
          ensures totals[i].1 == TeamTotal(table, query, team, totals[i].0, stat)
        {
          LookupAt(totals, i);
          TotalOfSelected(table, chained.holds, query, team, totals[i].0, stat);
        }
      }
      Ok(totals)
  }

  /** Pre-filtering by the query then selecting the team keeps the rows the chained query keeps. */
  lemma PrefilteredRows(table: seq<Row>, team: string, query: Option<Query>)
    ensures ChainQueries([None, Some(TeamQuery(team))]).Ok?
    ensures ChainQueries([query, Some(TeamQuery(team))]).Ok?
    ensures Filter(ApplyQuery(table, query), ChainQueries([None, Some(TeamQuery(team))]).value.holds)
      == Filter(table, ChainQueries([query, Some(TeamQuery(team))]).value.holds)
  {
    TeamChain(query, team);
    TeamChain(None, team);
    var outer := ChainQueries([None, Some(TeamQuery(team))]).value.holds;
    var inner := ChainQueries([query, Some(TeamQuery(team))]).value.holds;
    assert forall x :: outer(x) == Plays(x, team);
    assert forall x :: inner(x) == (Admits(query, x) && Plays(x, team));
    if query.Some? {
      FilterFilter(table, query.value.holds, outer, inner);
    } else {
      FilterAgrees(table, outer, inner);
    }
  }

  /** Pre-filtering the table by the query gives the same totals as chaining the query. */
  lemma GameTotalsPrefiltered(table: seq<Row>, team: string, stat: string, query: Option<Query>)
    ensures GameTotals(ApplyQuery(table, query), team, stat, None) == GameTotals(table, team, stat, query)
  {
    PrefilteredRows(table, team, query);
  }

  /**
   * over_unders: the totals of `home` followed by the totals of `away`, both over
   * the rows the query selects, with no reconciliation of the two blocks.
   */
  function OverUnders(table: seq<Row>, home: string, away: string, stat: string, query: Option<Query>)
    : (r: Result<Totals, Failure>)
    ensures r.Err? <==> stat !in Stats
    ensures r.Err? ==> r.error == UnknownStat(stat)
    ensures r.Ok? ==>
      r.value == GameTotals(table, home, stat, query).value + GameTotals(table, away, stat, query).value
  {
    var df := ApplyQuery(table, query);
    GameTotalsPrefiltered(table, home, stat, query);
    GameTotalsPrefiltered(table, away, stat, query);
    match GameTotals(df, home, stat, None)
    case Err(e) => Err(e)
    case Ok(homeTotals) =>
      match GameTotals(df, away, stat, None)
      case Err(e) => Err(e)
      case Ok(awayTotals) => Ok(homeTotals + awayTotals)
  }

  /**
   * A game between the two teams has an entry in both blocks of the over/under
   * split, which OverUnders concatenates without reconciling them.
   */
  lemma OverUndersRepeatShared(table: seq<Row>, home: string, away: string, stat: string,
                               query: Option<Query>, row: Row)
    requires stat in Stats
    requires row in table && Admits(query, row) && Plays(row, home) && Plays(row, away)
    ensures OverUnders(table, home, away, stat, query).Ok?
    ensures row.gameId in KeysOf(GameTotals(table, home, stat, query).value)
    ensures row.gameId in KeysOf(GameTotals(table, away, stat, query).value)
  {
  }
}
