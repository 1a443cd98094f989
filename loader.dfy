/**
 * Building the table from per-player log files: stamp each file's rows with the
 * player's name, drop the rows whose points cell is informationless, concatenate
 * the files in order and derive every row's game identifier.
 */
module Loader {
  import opened Wrappers
  import opened Seqs
  import opened Rows

  /** One player's log file: the key taken from its name, and its parsed rows. */
  datatype SourceFile = SourceFile(key: string, rows: seq<Row>)

  /** `rows` with the player-name column set to `name`. */
  function Stamp(rows: seq<Row>, name: string): seq<Row>
  {
    seq(|rows|, i requires 0 <= i < |rows| => rows[i].(playerName := name))
  }

  /**
   * A row that keeps its place in the table: its points cell is not an informationless note.
   * Named, rather than written as a lambda at each use, so that `CleanFile` and the
   * `DropInformationless` loop filter with the same function value and their results
   * can be compared as equal.
   */
  predicate HasStatistics(r: Row)
  {
    !Informationless(r)
  }

  /** One file's contribution to the table: stamped with `name`, informationless rows dropped. */
  function CleanFile(rows: seq<Row>, name: string): (result: seq<Row>)
    ensures forall r :: r in result ==> r.playerName == name && !Informationless(r)
    ensures forall i | 0 <= i < |rows| && !Informationless(rows[i]) ::
      rows[i].(playerName := name) in result
    ensures forall r :: r in result ==>
      exists i :: 0 <= i < |rows| && r == rows[i].(playerName := name)
  {
    var stamped := Stamp(rows, name);
    forall r | r in Filter(stamped, HasStatistics)
      ensures exists i :: 0 <= i < |rows| && r == rows[i].(playerName := name)
    {
      var i :| 0 <= i < |stamped| && stamped[i] == r;
    }
    assert forall i | 0 <= i < |rows| && !Informationless(rows[i]) ::
      rows[i].(playerName := name) in Filter(stamped, HasStatistics) by {
      forall i | 0 <= i < |rows| && !Informationless(rows[i])
        ensures rows[i].(playerName := name) in Filter(stamped, HasStatistics)
      {
        assert stamped[i] == rows[i].(playerName := name);
        FilterKeeps(stamped, HasStatistics, stamped[i]);
      }
    }
    Filter(stamped, HasStatistics)
  }

  /** A file's rows are cleaned independently of one another, so their order is kept. */
  lemma CleanFileAppend(a: seq<Row>, b: seq<Row>, name: string)
    ensures CleanFile(a + b, name) == CleanFile(a, name) + CleanFile(b, name)
  {
    assert Stamp(a + b, name) == Stamp(a, name) + Stamp(b, name);
    FilterAppend(Stamp(a, name), Stamp(b, name), HasStatistics);
  }

  /** A single row is kept, stamped with `name`, exactly when it has statistics. */
  lemma CleanFileOne(r: Row, name: string)
    ensures CleanFile([r], name) == if Informationless(r) then [] else [r.(playerName := name)]
  {
    var stamped := Stamp([r], name);
    assert stamped == [] + [r.(playerName := name)];
    assert stamped[..0] == [];
  }

  /** The name index has an entry for every file. */
  predicate Indexed(index: map<string, string>, files: seq<SourceFile>)
  {
    forall i | 0 <= i < |files| :: files[i].key in index
  }

  /** The key of the first file, in file order, that the index does not name. */
  function FirstUnindexed(index: map<string, string>, files: seq<SourceFile>): (key: string)
    requires !Indexed(index, files)
    ensures exists j :: 0 <= j < |files| && files[j].key == key && Indexed(index, files[..j])
    ensures key !in index
  {
    if files[0].key !in index then
      assert Indexed(index, files[..0]);
      files[0].key
    else
      var key := FirstUnindexed(index, files[1..]);
      assert forall j | 0 <= j < |files| - 1 ::
        files[..j + 1] == [files[0]] + files[1..][..j];
      key
  }

  /** The cleaned files concatenated in file order. */
  function Blocks(index: map<string, string>, files: seq<SourceFile>): seq<Row>
    requires Indexed(index, files)
  {
    if files == [] then []
    else
      var last := files[|files| - 1];
      Blocks(index, files[..|files| - 1]) + CleanFile(last.rows, index[last.key])
  }

  /** `rows` with the game-identifier column derived from each row. */
  function WithGameIds(rows: seq<Row>): seq<Row>
  {
    seq(|rows|, i requires 0 <= i < |rows| => rows[i].(gameId := GameId(rows[i])))
  }

  /**
   * The table loaded from `files` (in the order file discovery lists them):
   * the first file whose key the index lacks fails the load, and so does an
   * empty list of files, since there is nothing to concatenate.
   */
  function Load(index: map<string, string>, files: seq<SourceFile>): (result: Result<seq<Row>, Failure>)
    ensures result.Ok? <==> files != [] && Indexed(index, files)
    ensures result.Err? && !Indexed(index, files) ==>
      result.error.MissingIndexEntry? && result.error.key !in index &&
      exists j :: 0 <= j < |files| && files[j].key == result.error.key && Indexed(index, files[..j])
    ensures result.Err? && Indexed(index, files) ==> result.error == NoFilesMatched
  {
    if !Indexed(index, files) then Err(MissingIndexEntry(FirstUnindexed(index, files)))
    else if files == [] then Err(NoFilesMatched)
    else Ok(WithGameIds(Blocks(index, files)))
  }

  /** The index covers every part of a list of files it covers. */
  lemma IndexedParts(index: map<string, string>, a: seq<SourceFile>, b: seq<SourceFile>)
    requires Indexed(index, a + b)
    ensures Indexed(index, a) && Indexed(index, b)
  {
    assert forall i | 0 <= i < |a| :: a[i] == (a + b)[i];
    assert forall i | 0 <= i < |b| :: b[i] == (a + b)[|a| + i];
  }

  /** The table keeps the files' blocks in file order. */
  lemma {:induction false} BlocksAppend(index: map<string, string>, a: seq<SourceFile>, b: seq<SourceFile>)
    requires Indexed(index, a + b)
    ensures Indexed(index, a) && Indexed(index, b)
    ensures Blocks(index, a + b) == Blocks(index, a) + Blocks(index, b)
    decreases |b|
  {
    IndexedParts(index, a, b);
    if b == [] {
      assert a + b == a;
    } else {
      var b' := b[..|b| - 1];
      var last := b[|b| - 1];
      assert b == b' + [last];
      assert (a + b)[..|a + b| - 1] == a + b';
      IndexedParts(index, a + b', [last]);
      IndexedParts(index, b', [last]);
      BlocksAppend(index, a, b');
      calc {
        Blocks(index, a + b);
        Blocks(index, a + b') + CleanFile(last.rows, index[last.key]);
        Blocks(index, a) + Blocks(index, b') + CleanFile(last.rows, index[last.key]);
        Blocks(index, a) + Blocks(index, b);
      }
    }
  }

  /** The table of a single file is that file's cleaned rows. */
  lemma BlocksOne(index: map<string, string>, f: SourceFile)
    requires f.key in index
    ensures Blocks(index, [f]) == CleanFile(f.rows, index[f.key])
  {
    assert [f][..0] == [];
  }

  /**
   * Every row of the cleaned files has statistics and is a row of one of the files,
   * stamped with the name the index gives that file's key.
   */
  lemma {:induction false} BlocksRows(index: map<string, string>, files: seq<SourceFile>)
    requires Indexed(index, files)
    ensures forall r :: r in Blocks(index, files) ==>
      !Informationless(r) &&
      exists i, j :: 0 <= i < |files| && 0 <= j < |files[i].rows| && files[i].key in index &&
        r == files[i].rows[j].(playerName := index[files[i].key])
    decreases |files|
  {
    if files != [] {
      var front := files[..|files| - 1];
      var last := files[|files| - 1];
      assert Indexed(index, front) by {
        assert forall i | 0 <= i < |front| :: front[i] == files[i];
      }
      BlocksRows(index, front);
      forall r | r in Blocks(index, files)
        ensures !Informationless(r)
        ensures exists i, j :: (0 <= i < |files| && 0 <= j < |files[i].rows| && files[i].key in index &&
          r == files[i].rows[j].(playerName := index[files[i].key]))
      {
        if r in Blocks(index, front) {
          var i, j :| 0 <= i < |front| && 0 <= j < |front[i].rows| && front[i].key in index &&
            r == front[i].rows[j].(playerName := index[front[i].key]);
          assert files[i] == front[i];
        } else {
          assert r in CleanFile(last.rows, index[last.key]);
          var j :| 0 <= j < |last.rows| && r == last.rows[j].(playerName := index[last.key]);
          assert files[|files| - 1] == last;
        }
      }
    }
  }

  /**
   * A loaded table holds only rows with statistics, each a row of one of the files
   * stamped with the name the index gives its file's key and with the game
   * identifier derived from it.
   */
  lemma LoadedRows(index: map<string, string>, files: seq<SourceFile>)
    requires Load(index, files).Ok?
    ensures forall r :: r in Load(index, files).value ==>
      !Informationless(r) && r.gameId == GameId(r) &&
      exists i, j :: 0 <= i < |files| && 0 <= j < |files[i].rows| && files[i].key in index &&
        r == files[i].rows[j].(playerName := index[files[i].key], gameId := GameId(files[i].rows[j]))
  {
    var blocks := Blocks(index, files);
    BlocksRows(index, files);
    forall r | r in Load(index, files).value
      ensures !Informationless(r) && r.gameId == GameId(r)
      ensures exists i, j :: (0 <= i < |files| && 0 <= j < |files[i].rows| && files[i].key in index &&
        r == files[i].rows[j].(playerName := index[files[i].key], gameId := GameId(files[i].rows[j])))
    {
      var k :| 0 <= k < |blocks| && r == WithGameIds(blocks)[k];
      assert blocks[k] in blocks;
      var i, j :| 0 <= i < |files| && 0 <= j < |files[i].rows| && files[i].key in index &&
        blocks[k] == files[i].rows[j].(playerName := index[files[i].key]);
      assert GameId(blocks[k]) == GameId(files[i].rows[j]);
    }
  }

  /** pd.concat: the frames one after another. */
  function Concat(frames: seq<seq<Row>>): (table: seq<Row>)
    ensures forall r :: r in table <==> exists i :: 0 <= i < |frames| && r in frames[i]
  {
    if frames == [] then [] else Concat(frames[..|frames| - 1]) + frames[|frames| - 1]
  }

  /** A single frame concatenates to itself. */
  lemma ConcatOne(f: seq<Row>)
    ensures Concat([f]) == f
  {
    assert [f][..0] == [];
  }

  /** Concatenation keeps the frames in order, each frame's rows once. */
  lemma {:induction false} ConcatAppend(a: seq<seq<Row>>, b: seq<seq<Row>>)
    ensures Concat(a + b) == Concat(a) + Concat(b)
    decreases |b|
  {
    if b == [] {
      assert a + b == a;
    } else {
      var b' := b[..|b| - 1];
      var last := b[|b| - 1];
      assert (a + b)[..|a + b| - 1] == a + b';
      assert (a + b)[|a + b| - 1] == last;
      ConcatAppend(a, b');
    }
  }

  /** The key-lookup error names the first file without an index entry. */
  lemma FirstUnindexedAt(index: map<string, string>, files: seq<SourceFile>, i: nat)
    requires i < |files| && Indexed(index, files[..i]) && files[i].key !in index
    ensures !Indexed(index, files) && FirstUnindexed(index, files) == files[i].key
  {
    var key := FirstUnindexed(index, files);
    var j :| 0 <= j < |files| && files[j].key == key && Indexed(index, files[..j]);
    assert forall m | 0 <= m < i :: files[..i][m] == files[m];
    assert forall m | 0 <= m < j :: files[..j][m] == files[m];
  }

  /** Sets the player-name column of a file's frame, row by row. */
  method SetPlayerName(rows: seq<Row>, name: string) returns (df: seq<Row>)
    ensures df == Stamp(rows, name)
  {
    df := rows;
    var j := 0;
    while j < |df|
      invariant 0 <= j <= |df| == |rows|
      invariant forall m | 0 <= m < j :: df[m] == rows[m].(playerName := name)
      invariant forall m | j <= m < |df| :: df[m] == rows[m]
    {
      df := df[j := df[j].(playerName := name)];
      j := j + 1;
    }
  }

  /** Keeps the rows of a frame whose points cell is not an informationless note. */
  method DropInformationless(df: seq<Row>) returns (kept: seq<Row>)
    ensures kept == Filter(df, HasStatistics)
  {
    kept := [];
    var k := 0;
    while k < |df|
      invariant 0 <= k <= |df|
      invariant kept == Filter(df[..k], HasStatistics)
    {
      if !Informationless(df[k]) {
        kept := kept + [df[k]];
      }
      assert df[..k + 1][..k] == df[..k];
      k := k + 1;
    }
    assert df[..k] == df;
  }

  /** Fills in the game-identifier column of the concatenated table, row by row. */
  method SetGameIds(rows: seq<Row>) returns (table: seq<Row>)
    ensures table == WithGameIds(rows)
  {
    table := rows;
    var n := 0;
    while n < |table|
      invariant 0 <= n <= |table| == |rows|
      invariant forall m | 0 <= m < n :: table[m] == rows[m].(gameId := GameId(rows[m]))
      invariant forall m | n <= m < |table| :: table[m] == rows[m]
    {
      table := table[n := table[n].(gameId := GameId(table[n]))];
      n := n + 1;
    }
  }

  /**
   * Reads every file in order: looks the file's key up in the index, sets the
   * player-name column, drops the informationless rows and collects the file's
   * frame; then concatenates the frames and fills in the game-identifier column.
   */
  method ReadFromGlob(index: map<string, string>, files: seq<SourceFile>)
    returns (result: Result<seq<Row>, Failure>)
    ensures result == Load(index, files)
  {
    var frames: seq<seq<Row>> := [];
    var i := 0;
    while i < |files|
      invariant 0 <= i <= |files|
      invariant |frames| == i
      invariant Indexed(index, files[..i])
      invariant Concat(frames) == Blocks(index, files[..i])
    {
      var file := files[i];
      if file.key !in index {
        FirstUnindexedAt(index, files, i);
        return Err(MissingIndexEntry(file.key));
      }
      var df := SetPlayerName(file.rows, index[file.key]);
      df := DropInformationless(df);
      assert files[..i + 1][..i] == files[..i];
      frames := frames + [df];
      assert frames[..|frames| - 1] == frames[..i];
      i := i + 1;
    }
    assert files[..i] == files;
    if |frames| == 0 {
      return Err(NoFilesMatched);
    }
    var table := SetGameIds(Concat(frames));
    return Ok(table);
  }
}
