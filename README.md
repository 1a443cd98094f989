# Game-log table: a Dafny model

This project models the core of `gamelog_dataframe.py`, a small pandas-based
module that merges per-player basketball game logs into one table and answers
grouped queries over it. Without pandas, the table is a sequence of `Row`
records. Each operation becomes a Dafny function or method over `seq<Row>`:

- **Game identifiers** (`Rows.GameId`). A game's id is `{date}-{home}-{away}`.
  The home team is the row's own team unless `game_location` is `"@"`.
  The two teams' lines of the same game give the same id when exactly one of
  them is marked `"@"`. For distinct team codes of equal length, two unmarked
  lines of a neutral-site game give different ids.
- **Query chaining** (`Queries.ChainQueries`). The `None` filters are dropped.
  The call fails when nothing is left. Otherwise each filter is parenthesised
  and the filters are joined with `" & "`. A query is modelled as its text
  together with the row predicate that text denotes. A chained query therefore
  selects exactly the rows that every present filter selects.
- **Applying a query** (`Queries.ApplyQuery`). No query means the whole table.
  Otherwise the result is the selected rows, in table order.
- **Loading** (`Loader.ReadFromGlob`). This is a method with loops. For each
  file, in the order file discovery lists them, it looks the file's key up in
  the name index and stamps the player's name on every row. It then drops the
  rows whose points cell is an informationless note ("Did Not Play", ...). It
  concatenates the files and fills in the game id of every row. It is proved
  equal to the specification function `Loader.Load`, and the lemmas about
  `Load` state what the table holds.
- **Grouped queries** (`Aggregates`):
  - `GetRecord` groups by date. A date is a win when every line on it records
    a win.
  - `WithPlayer` and `WithoutPlayer` keep or drop whole date groups.
  - `GameTotals` sums one statistic per game id over the rows involving a team.
  - `OverUnders` concatenates two teams' totals.

The modules follow the program's structure: `Wrappers` (Option, Result),
`Strings` (`str.join`, substring search), `Seqs` (order-preserving filter),
`Rows` (the row, the constants, game ids), `Queries`, `Loader` and `Aggregates`.

The model follows the code in three places where a reader might expect otherwise:

- `with_player` and `without_player` group by `date_game`, not by `game_id`.
  The same holds for `get_record`.
- `over_unders` applies the caller's query once. It then computes both teams'
  totals on that table with no further query.
  `Aggregates.GameTotalsPrefiltered` proves that this gives the same totals as
  chaining the query into `game_totals`.
- The code has no explicit check for an unknown statistic. pandas raises when
  the statistic column does not exist. The model's table has exactly the
  statistic columns listed in `STATS`. Any other name gives `UnknownStat`.
  "## Left out" lists where this differs from the code.

## Model

| member | source | states |
|---|---|---|
| `Rows.GameId` | gamelog_dataframe.py:11-13 | the id is `date-team-opp` unless the row is marked `"@"`, in which case it is `date-opp-team` |
| `Rows.Informationless` | gamelog_dataframe.py:49 | a row is informationless exactly when its points cell is one of the five notes "Did Not Play", "Inactive", "Did Not Dress", "Not With Team", "Player Suspended" |
| `Rows.StatValue` | gamelog_dataframe.py:98-99 | a row contributes its number in the statistic's column; a nonzero contribution always comes from a numeric cell of that column |
| `Rows.MirrorsShareGameId` | gamelog_dataframe.py:11-13 | a row and the opponent's line of the same game (teams swapped, exactly one marked away) give the same id |
| `Rows.GameIdAgreesIff` | gamelog_dataframe.py:11-13 | for distinct team codes of equal length, two lines of the same pairing share an id exactly when one of them is marked away; two unmarked lines (a neutral-site game) get different ids |
| `Strings.Join` | gamelog_dataframe.py:21 | the joined text starts with the first part and is as long as the parts plus one separator between each two neighbours |
| `Strings.ContainsIffOccurs` | gamelog_dataframe.py:80 | the substring test used for results and player names holds exactly when the piece occurs at some position |
| `Strings.ContainsChar` | gamelog_dataframe.py:80 | a result "contains W" exactly when the character W is in it |
| `Queries.Present` | gamelog_dataframe.py:17 | dropping the `None`s leaves nothing exactly when every argument is `None` |
| `Queries.PresentAppend` | gamelog_dataframe.py:17 | dropping the `None`s keeps the remaining arguments in their order |
| `Queries.ChainQueries` | gamelog_dataframe.py:16-21 | fails with `EmptyQuery` exactly when every argument is `None`; otherwise the chained query selects a row exactly when every present filter does |
| `Queries.ChainOne` | gamelog_dataframe.py:16-21 | a single present filter `x`, among any number of `None`s, chains to `(x)` |
| `Queries.ChainDropsNone` | gamelog_dataframe.py:17 | inserting a `None` anywhere changes neither success nor the text |
| `Queries.ChainSnoc` | gamelog_dataframe.py:21 | one more present filter `x` appends ` & (x)` to the text of the filters before it |
| `Queries.ChainExample` | gamelog_dataframe.py:16-21 | `("a==1", None, "b==2")` chains to `(a==1) & (b==2)` |
| `Queries.ApplyQuery` | gamelog_dataframe.py:73-74 | no query returns the table unchanged; a query keeps each selected row as often as the table holds it and no other row |
| `Queries.ApplyQueryKeepsOrder` | gamelog_dataframe.py:73-74 | applying a query to two consecutive parts of a table gives the two results one after the other, so the table order is kept |
| `Loader.CleanFile` | gamelog_dataframe.py:48-49 | every row of a file's block is a row of the file stamped with the player's name, and its points cell is not informationless; every row with statistics survives, stamped |
| `Loader.CleanFileOne` | gamelog_dataframe.py:48-49 | a single row survives, stamped with the name, exactly when its points cell is not informationless; with `CleanFileAppend` this fixes every block row for row |
| `Loader.CleanFileAppend` | gamelog_dataframe.py:48-49 | rows are cleaned one by one, so a file's surviving rows keep their relative order |
| `Loader.Concat` | gamelog_dataframe.py:51 | the concatenation holds the rows of the frames and no other row |
| `Loader.ConcatOne` | gamelog_dataframe.py:51 | a single frame concatenates to itself |
| `Loader.ConcatAppend` | gamelog_dataframe.py:51 | concatenation distributes over splitting the frame list, so with `ConcatOne` the result is the frames' rows, once each, in frame order |
| `Loader.FirstUnindexed` | gamelog_dataframe.py:45-48 | the key-lookup error names a file whose key the index lacks, and every file before it is indexed |
| `Loader.BlocksAppend` | gamelog_dataframe.py:44-51 | the table is the files' blocks concatenated in file order |
| `Loader.BlocksOne` | gamelog_dataframe.py:45-51 | the table of a single file is that file's cleaned block |
| `Loader.BlocksRows` | gamelog_dataframe.py:45-50 | every row of the concatenated blocks has statistics and is a row of some file, stamped with the name the index gives that file's key |
| `Loader.Load` | gamelog_dataframe.py:40-53 | the load succeeds exactly when there is a file and every file's key is indexed; otherwise it fails with the first unindexed key, or with no files matched |
| `Loader.LoadedRows` | gamelog_dataframe.py:40-53 | every row of a loaded table has statistics and is a row of some file, stamped with the name the index gives that file's key and with the game id derived from the file's row |
| `Loader.SetPlayerName` | gamelog_dataframe.py:48 | the loop sets the player-name column of every row of the file and changes nothing else |
| `Loader.DropInformationless` | gamelog_dataframe.py:49 | the loop keeps exactly the rows whose points cell is not informationless, in order |
| `Loader.SetGameIds` | gamelog_dataframe.py:52 | the loop sets every row's game id to the id derived from that row |
| `Loader.ReadFromGlob` | gamelog_dataframe.py:40-53 | the loader's result is the specified load: the first unindexed key, or an empty file list, fails it; otherwise the stamped, cleaned blocks in file order with game ids |
| `Aggregates.DateGroups` | gamelog_dataframe.py:79 | the date groups are the distinct dates of the rows, each once |
| `Aggregates.GroupWon` | gamelog_dataframe.py:80 | a date group is a win exactly when every row on that date has a result containing "W" |
| `Aggregates.CountWhereCard` | gamelog_dataframe.py:78-83 | counting the groups that satisfy a test gives the number of distinct dates that satisfy it |
| `Aggregates.GetRecord` | gamelog_dataframe.py:76-83 | wins are the selected rows' dates whose every row records a win, losses the other dates, and wins plus losses is the number of distinct dates |
| `Aggregates.RecordOfOneWinOneLoss` | gamelog_dataframe.py:76-83 | a table with one all-win date and one all-loss date has the record (1, 1) |
| `Aggregates.GroupHasPlayer` | gamelog_dataframe.py:88 | a date group passes the player filter exactly when some row on that date has a player name containing the given name |
| `Aggregates.WithPlayer` | gamelog_dataframe.py:85-88 | keeps each selected row, as often as the table holds it, exactly when its date group contains the player |
| `Aggregates.WithoutPlayer` | gamelog_dataframe.py:90-93 | keeps each selected row, as often as the table holds it, exactly when its date group does not contain the player |
| `Aggregates.PlayerPartition` | gamelog_dataframe.py:85-93 | the two results together hold every selected row as often as the table does, and share no row |
| `Aggregates.PlayerWholeGroups` | gamelog_dataframe.py:85-93 | two selected rows of the same date are either both in a result or both out of it |
| `Aggregates.AddTo` | gamelog_dataframe.py:98-99 | adding to a game's running total keeps one entry per game and raises only that game's total |
| `Aggregates.GroupSums` | gamelog_dataframe.py:98-99 | the per-game sums have one entry per game id of the rows, and each holds the sum of the statistic over that game's rows |
| `Aggregates.TeamQuery` | gamelog_dataframe.py:96 | the team filter selects a row exactly when its team or its opponent is the team |
| `Aggregates.TeamChain` | gamelog_dataframe.py:96 | the caller's query chained with the team filter selects the admitted rows whose team or opponent is the team |
| `Aggregates.GameTotals` | gamelog_dataframe.py:95-99 | fails exactly for an unknown statistic; otherwise its keys are exactly the game ids of the admitted rows involving the team, each once, with the sum of the statistic over those rows of that game |
| `Aggregates.PrefilteredRows` | gamelog_dataframe.py:96-104 | pre-filtering by the query and then selecting the team keeps the same rows as the chained query |
| `Aggregates.GameTotalsPrefiltered` | gamelog_dataframe.py:95-104 | totals computed on the pre-filtered table equal totals computed with the query chained in |
| `Aggregates.OverUnders` | gamelog_dataframe.py:101-106 | fails exactly for an unknown statistic; otherwise the home team's totals followed by the away team's, both under the caller's query, so its length is the sum of the two |
| `Aggregates.OverUndersRepeatShared` | gamelog_dataframe.py:101-106 | a game between the two teams has an entry in both teams' blocks, so the concatenation repeats its key without reconciling it |

## Left out

- File discovery, reading the JSON name index, CSV parsing and extracting a
  file's key with a regular expression are I/O. A file is given as its key and
  its parsed rows, and the index as a map. A file that cannot be parsed is
  not modelled.
- Column type inference (`_infer_dtypes`) is not modelled. It parses dates,
  coerces columns to 64-bit floats and swallows library exceptions. Statistics
  are integers, and the points column holds a number or a text note.
- Floating-point sums are modelled as integer sums. `Rows.StatValue` counts an
  empty statistic cell, and a text note in the points column, as 0. pandas
  skips missing values in a sum. A column left as text is outside the model.
- The text of a query is not parsed or evaluated. A query carries the row
  predicate it denotes, and a chained query denotes the conjunction of its
  parts. A team name that breaks the quoting of the team filter is outside
  the model.
- `str.contains` is modelled as plain substring search. Names holding
  regular-expression metacharacters are outside the model.
- Aggregates.GameTotals: lists games in order of first appearance. pandas
  sorts group keys. The contract states no order.
- Aggregates.GameTotals: accepts exactly the names in `STATS`. In the code any
  existing column can be summed, including text columns such as `team_id`,
  `player_name` or `game_result`, whose values are concatenated; the model
  refuses those with `UnknownStat`. `date_game` becomes a date column, so
  summing it raises in the code; the model refuses it too.
  A `STATS` name missing from the files raises `KeyError` in the code; in the
  model every row has every statistic, and a missing cell sums as 0.
- Aggregates.OverUnders: inherits both differences of `GameTotals` on which
  statistic names are accepted.
- Aggregates.GetRecord, Aggregates.WithPlayer, Aggregates.WithoutPlayer: the
  model has no missing text cells. In the code a missing `game_result` is
  skipped by `str.contains(...).all()`, so a date whose only other lines are
  wins still counts as a win. A missing player name is likewise skipped by
  `.any()`. A row with a missing `date_game` is dropped by the grouping.
- Loader.ReadFromGlob: when every row of every file is dropped, the model
  returns the empty table. What pandas does when it derives a column on an
  empty table is not modelled.
- The pandas subclass plumbing (`_constructor`, `_metadata`, `__init__`) has
  no behaviour to model.
