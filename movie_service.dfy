/**
 * The row-grouping loops of the GraphQL movie resolvers
 * (api/services/movie_service.go).
 *
 * A query returns one flat row per (movie, person) pair, ordered so that
 * the rows of a movie are adjacent. `getAllMovies` (and the identical loops
 * of the two other list resolvers) folds the rows into movies: a row whose
 * title differs from the current movie's closes that movie, which is kept
 * unless its title is empty, and opens a new one; every row then adds one
 * cast entry to the current movie. `getMovieByTitle` does no grouping: its
 * single movie takes each row's title in turn and one cast entry per row.
 *
 * The Neo4j result is a sequence of rows; a row's `role` is `Some` of the
 * converted list when the database returned a list and `None` otherwise.
 */
module MovieService {
  import opened Wrappers
  import opened Sequences

  datatype Row = Row(title: string, name: string, job: string, role: Option<seq<string>>)

  /** A cast entry; `role` is `None` where the Go struct's Role slice is left nil. */
  datatype Person = Person(name: string, job: string, role: Option<seq<string>>)

  datatype MovieRecord = MovieRecord(title: string, cast: seq<Person>)

  /** The cast entry a row appends: its role is set exactly when the row's role is a list. */
  function CastEntry(row: Row): (p: Person)
    ensures p.name == row.name && p.job == row.job
    ensures p.role.Some? <==> row.role.Some?
    ensures row.role.Some? ==> p.role.value == row.role.value
  {
    Person(row.name, row.job, row.role)
  }

  /** One cast entry per row, in row order. */
  function Cast(rows: seq<Row>): (cast: seq<Person>)
    ensures |cast| == |rows|
    ensures forall i :: 0 <= i < |rows| ==> cast[i] == CastEntry(rows[i])
  {
    seq(|rows|, i requires 0 <= i < |rows| => CastEntry(rows[i]))
  }

  lemma CastAppend(a: seq<Row>, b: seq<Row>)
    ensures Cast(a + b) == Cast(a) + Cast(b)
  {
    assert forall i :: 0 <= i < |a + b| ==> Cast(a + b)[i] == (Cast(a) + Cast(b))[i];
  }

  // ---------------------------------------------------------------------
  // Maximal runs of equal titles
  // ---------------------------------------------------------------------

  /** The runs laid end to end. */
  function Flatten(runs: seq<seq<Row>>): seq<Row>
    decreases |runs|
  {
    if runs == [] then [] else Flatten(runs[..|runs| - 1]) + runs[|runs| - 1]
  }

  predicate SameTitle(run: seq<Row>) {
    forall i :: 0 <= i < |run| ==> run[i].title == run[0].title
  }

  predicate NonEmptyRuns(runs: seq<seq<Row>>) {
    forall i :: 0 <= i < |runs| ==> runs[i] != []
  }

  /** Non-empty runs, each of one title, and no two neighbouring runs of the same title. */
  predicate MaximalRuns(runs: seq<seq<Row>>) {
    NonEmptyRuns(runs) &&
    (forall i :: 0 <= i < |runs| ==> SameTitle(runs[i])) &&
    (forall i :: 0 < i < |runs| ==> runs[i - 1][0].title != runs[i][0].title)
  }

  /** The runs after one more row: it joins the last run when its title is that run's, else starts a run. */
  function Extend(runs: seq<seq<Row>>, row: Row): seq<seq<Row>> {
    if runs != [] && runs[|runs| - 1] != [] && runs[|runs| - 1][0].title == row.title then
      runs[..|runs| - 1] + [runs[|runs| - 1] + [row]]
    else
      runs + [[row]]
  }

  /** `rows` cut into its maximal runs of consecutive rows with equal titles. */
  function Runs(rows: seq<Row>): (runs: seq<seq<Row>>)
    ensures |runs| <= |rows|
    decreases |rows|
  {
    if rows == [] then [] else Extend(Runs(rows[..|rows| - 1]), rows[|rows| - 1])
  }

  lemma ExtendFlatten(runs: seq<seq<Row>>, row: Row)
    ensures Flatten(Extend(runs, row)) == Flatten(runs) + [row]
  {
    var after := Extend(runs, row);
    if runs != [] && runs[|runs| - 1] != [] && runs[|runs| - 1][0].title == row.title {
      var p := |runs| - 1;
      assert after[..p] == runs[..p];
      assert runs == runs[..p] + [runs[p]];
    } else {
      assert after[..|runs|] == runs;
    }
  }

  lemma ExtendMaximal(runs: seq<seq<Row>>, row: Row)
    requires MaximalRuns(runs)
    ensures MaximalRuns(Extend(runs, row)) && Extend(runs, row) != []
  {
    var after := Extend(runs, row);
    if runs != [] && runs[|runs| - 1][0].title == row.title {
      var p := |runs| - 1;
      assert forall i :: 0 <= i < p ==> after[i] == runs[i];
      assert after[p] == runs[p] + [row];
      assert SameTitle(after[p]);
    } else {
      assert forall i :: 0 <= i < |runs| ==> after[i] == runs[i];
      assert after[|runs|] == [row];
    }
  }

  /** Runs cuts `rows` into maximal runs of equal titles. */
  lemma {:induction false} RunsCut(rows: seq<Row>)
    ensures Flatten(Runs(rows)) == rows && MaximalRuns(Runs(rows))
    ensures Runs(rows) == [] <==> rows == []
    decreases |rows|
  {
    if rows != [] {
      var n := |rows| - 1;
      RunsCut(rows[..n]);
      RunsLast(rows);
      ExtendFlatten(Runs(rows[..n]), rows[n]);
      ExtendMaximal(Runs(rows[..n]), rows[n]);
    }
  }

  /** The runs of non-empty rows: those of all rows but the last, extended by the last. */
  lemma RunsLast(rows: seq<Row>)
    requires rows != []
    ensures var n := |rows| - 1; Runs(rows) == Extend(Runs(rows[..n]), rows[n]) && rows == rows[..n] + [rows[n]]
  {
    var n := |rows| - 1;
    assert rows == rows[..n] + [rows[n]];
    assert Runs(rows) == Extend(Runs(rows[..n]), rows[n]);
  }

  /** The runs of one more row of `rows`. */
  lemma RunsPrefix(rows: seq<Row>, i: int)
    requires 0 <= i < |rows|
    ensures Runs(rows[..i + 1]) == Extend(Runs(rows[..i]), rows[i])
  {
    var longer := rows[..i + 1];
    assert longer[..i] == rows[..i] && longer[i] == rows[i];
    assert Runs(longer) == Extend(Runs(longer[..i]), longer[i]);
  }

  /** Runs is the only cut of `rows` into maximal runs. */
  lemma {:induction false} RunsUnique(rows: seq<Row>, parts: seq<seq<Row>>)
    requires Flatten(parts) == rows && MaximalRuns(parts)
    ensures parts == Runs(rows)
    decreases |rows|
  {
    if parts != [] {
      var prefix := LastRowOff(rows, parts);
      var n := |rows| - 1;
      RunsUnique(rows[..n], prefix);
      assert Runs(rows) == Extend(Runs(rows[..n]), rows[n]);
    } else {
      assert rows == [];
    }
  }

  /** Taking the last row off a cut into maximal runs leaves a cut of the other rows that the row extends. */
  lemma LastRowOff(rows: seq<Row>, parts: seq<seq<Row>>) returns (prefix: seq<seq<Row>>)
    requires Flatten(parts) == rows && MaximalRuns(parts) && parts != []
    ensures rows != [] && Flatten(prefix) == rows[..|rows| - 1] && MaximalRuns(prefix)
    ensures Extend(prefix, rows[|rows| - 1]) == parts
  {
    if |parts[|parts| - 1]| == 1 {
      prefix := parts[..|parts| - 1];
      SingleRowOff(rows, prefix, parts[|parts| - 1]);
    } else {
      prefix := Shortened(parts);
      assert rows == Flatten(prefix) + [parts[|parts| - 1][|parts[|parts| - 1]| - 1]];
    }
  }

  /** A last run of one row: taking it off leaves the other runs, and the row starts a run after them. */
  lemma SingleRowOff(rows: seq<Row>, prefix: seq<seq<Row>>, last: seq<Row>)
    requires Flatten(prefix + [last]) == rows && MaximalRuns(prefix + [last]) && |last| == 1
    ensures rows != [] && Flatten(prefix) == rows[..|rows| - 1] && MaximalRuns(prefix)
    ensures Extend(prefix, rows[|rows| - 1]) == prefix + [last]
  {
    var parts := prefix + [last];
    assert parts[..|prefix|] == prefix;
    assert rows == Flatten(prefix) + last;
    var n := |rows| - 1;
    assert rows[n] == last[0] && last == [rows[n]];
    assert MaximalRuns(prefix) by {
      assert forall i :: 0 <= i < |prefix| ==> prefix[i] == parts[i];
    }
    NewRun(prefix, last, rows[n]);
  }

  /** A one-row last run follows a run of another title, so the row starts a run. */
  lemma NewRun(init: seq<seq<Row>>, last: seq<Row>, row: Row)
    requires MaximalRuns(init + [last]) && last == [row]
    ensures Extend(init, row) == init + [last]
  {
    var parts := init + [last];
    if init != [] {
      assert parts[|init| - 1] == init[|init| - 1] && parts[|init|] == last;
    }
  }

  /** The cut with the last row taken off the last run, which has more than one row. */
  lemma Shortened(parts: seq<seq<Row>>) returns (parts': seq<seq<Row>>)
    requires MaximalRuns(parts) && parts != [] && |parts[|parts| - 1]| > 1
    ensures var p, last := |parts| - 1, parts[|parts| - 1];
      parts' == parts[..p] + [last[..|last| - 1]] && MaximalRuns(parts') &&
      Flatten(parts) == Flatten(parts') + [last[|last| - 1]] &&
      parts'[p][0].title == last[0].title &&
      parts == parts'[..p] + [parts'[p] + [last[|last| - 1]]]
  {
    var p, last := |parts| - 1, parts[|parts| - 1];
    var shorter := last[..|last| - 1];
    parts' := parts[..p] + [shorter];
    assert parts'[..p] == parts[..p];
    assert last == shorter + [last[|last| - 1]];
    assert forall i :: 0 <= i < p ==> parts'[i] == parts[i];
    assert parts'[p] == shorter && shorter[0] == last[0];
    assert SameTitle(shorter);
    assert parts == parts[..p] + [last];
  }

  /** The movie a run becomes. */
  function Record(run: seq<Row>): MovieRecord
    requires run != []
  {
    MovieRecord(run[0].title, Cast(run))
  }

  /** One movie per run with a non-empty title, in run order. */
  function Movies(runs: seq<seq<Row>>): seq<MovieRecord>
    requires NonEmptyRuns(runs)
    decreases |runs|
  {
    if runs == [] then []
    else
      var n := |runs| - 1;
      Movies(runs[..n]) + if runs[n][0].title != "" then [Record(runs[n])] else []
  }

  /** No movie is titled "", and there are no more movies than runs. */
  lemma {:induction false} MoviesTitled(runs: seq<seq<Row>>)
    requires NonEmptyRuns(runs)
    ensures forall i :: 0 <= i < |Movies(runs)| ==> Movies(runs)[i].title != ""
    ensures |Movies(runs)| <= |runs|
    decreases |runs|
  {
    if runs != [] {
      var n := |runs| - 1;
      MoviesTitled(runs[..n]);
    }
  }

  /** The value of the grouping loop. */
  function Grouped(rows: seq<Row>): seq<MovieRecord> {
    RunsCut(rows);
    Movies(Runs(rows))
  }

  /**
   * The loop of getAllMovies (and of the two other list resolvers): the
   * movies are the runs of equal titles, those titled "" dropped.
   */
  method GroupRows(rows: seq<Row>) returns (result: seq<MovieRecord>)
    ensures result == Grouped(rows)
  {
    result := [];
    var currentMovie := MovieRecord("", []);
    ghost var runs: seq<seq<Row>> := [];
    var i := 0;
    while i < |rows|
      invariant 0 <= i <= |rows|
      invariant runs == Runs(rows[..i])
      invariant NonEmptyRuns(runs)
      invariant runs == [] ==> result == [] && currentMovie == MovieRecord("", [])
      invariant runs != [] ==> result == Movies(runs[..|runs| - 1]) && currentMovie == Record(runs[|runs| - 1])
    {
      var row := rows[i];
      var result', currentMovie' := AddRow(result, currentMovie, row);
      GroupStep(runs, row, result, currentMovie, result', currentMovie');
      RunsPrefix(rows, i);
      result, currentMovie := result', currentMovie';
      runs := Extend(runs, row);
      i := i + 1;
    }
    assert rows[..i] == rows;
    if currentMovie.title != "" {
      result := result + [currentMovie];
    }
    if runs != [] {
      assert runs == runs[..|runs| - 1] + [runs[|runs| - 1]];
    }
  }

  /**
   * The body of the grouping loop: a row of another title closes the open
   * movie, kept when titled, and opens one of the row's title; the row then
   * adds its cast entry to the open movie.
   */
  method AddRow(result: seq<MovieRecord>, currentMovie: MovieRecord, row: Row)
    returns (result': seq<MovieRecord>, currentMovie': MovieRecord)
    ensures result' == if row.title != currentMovie.title && currentMovie.title != "" then result + [currentMovie] else result
    ensures currentMovie'.title == row.title
    ensures currentMovie'.cast == (if row.title != currentMovie.title then [] else currentMovie.cast) + [CastEntry(row)]
  {
    result', currentMovie' := result, currentMovie;
    if row.title != currentMovie'.title {
      if currentMovie'.title != "" {
        result' := result' + [currentMovie'];
      }
      currentMovie' := MovieRecord(row.title, []);
    }
    currentMovie' := currentMovie'.(cast := currentMovie'.cast + [CastEntry(row)]);
  }

  /** The loop body keeps the relation between the runs so far, the movies closed and the open movie. */
  lemma GroupStep(runs: seq<seq<Row>>, row: Row, result: seq<MovieRecord>, current: MovieRecord,
                  result': seq<MovieRecord>, current': MovieRecord)
    requires NonEmptyRuns(runs)
    requires runs == [] ==> result == [] && current == MovieRecord("", [])
    requires runs != [] ==> result == Movies(runs[..|runs| - 1]) && current == Record(runs[|runs| - 1])
    requires result' == if row.title != current.title && current.title != "" then result + [current] else result
    requires current'.title == row.title
    requires current'.cast == (if row.title != current.title then [] else current.cast) + [CastEntry(row)]
    ensures NonEmptyRuns(Extend(runs, row)) && Extend(runs, row) != []
    ensures result' == Movies(Extend(runs, row)[..|Extend(runs, row)| - 1])
    ensures current' == Record(Extend(runs, row)[|Extend(runs, row)| - 1])
  {
    ExtendStep(runs, row);
  }

  /** What one more row does to the runs, the movies closed so far and the open movie. */
  lemma ExtendStep(runs: seq<seq<Row>>, row: Row)
    requires NonEmptyRuns(runs)
    ensures var after := Extend(runs, row);
      NonEmptyRuns(after) && after != [] &&
      if runs != [] && runs[|runs| - 1][0].title == row.title then
        after[..|after| - 1] == runs[..|runs| - 1] &&
        Record(after[|after| - 1]) == Record(runs[|runs| - 1]).(cast := Record(runs[|runs| - 1]).cast + [CastEntry(row)])
      else
        after[..|after| - 1] == runs &&
        Record(after[|after| - 1]) == MovieRecord(row.title, [CastEntry(row)]) &&
        (runs != [] ==>
          Movies(runs) == Movies(runs[..|runs| - 1]) + (if runs[|runs| - 1][0].title != "" then [Record(runs[|runs| - 1])] else []))
  {
    var after := Extend(runs, row);
    if runs != [] && runs[|runs| - 1][0].title == row.title {
      var last := runs[|runs| - 1];
      assert forall i :: 0 <= i < |runs| - 1 ==> after[i] == runs[i];
      CastAppend(last, [row]);
      assert (last + [row])[0] == last[0];
    } else {
      assert after[..|after| - 1] == runs;
      assert forall i :: 0 <= i < |runs| ==> after[i] == runs[i];
      assert Cast([row])[0] == CastEntry(row);
    }
  }

  /** Every row with a non-empty title adds its cast entry; rows titled "" add nothing. */
  function Kept(rows: seq<Row>): seq<Row>
    decreases |rows|
  {
    if rows == [] then []
    else
      var n := |rows| - 1;
      Kept(rows[..n]) + if rows[n].title != "" then [rows[n]] else []
  }

  /** The rows kept are rows with a title, no more of them than there are rows. */
  lemma {:induction false} KeptTitled(rows: seq<Row>)
    ensures |Kept(rows)| <= |rows|
    ensures forall i :: 0 <= i < |Kept(rows)| ==> Kept(rows)[i].title != ""
    decreases |rows|
  {
    if rows != [] {
      KeptTitled(rows[..|rows| - 1]);
    }
  }

  /** The casts of all movies, one after the other. */
  function AllCasts(movies: seq<MovieRecord>): seq<Person>
    decreases |movies|
  {
    if movies == [] then [] else AllCasts(movies[..|movies| - 1]) + movies[|movies| - 1].cast
  }

  // ---------------------------------------------------------------------
  // Properties of the grouping
  // ---------------------------------------------------------------------

  lemma {:induction false} KeptAppend(a: seq<Row>, b: seq<Row>)
    ensures Kept(a + b) == Kept(a) + Kept(b)
    decreases |b|
  {
    if b != [] {
      var n := |b| - 1;
      KeptAppend(a, b[..n]);
      assert (a + b)[..|a + b| - 1] == a + b[..n];
    } else {
      assert a + b == a;
    }
  }

  /** A run keeps all its rows when titled, none when its title is "". */
  lemma {:induction false} KeptRun(run: seq<Row>)
    requires run != [] && SameTitle(run)
    ensures Kept(run) == if run[0].title != "" then run else []
    decreases |run|
  {
    var n := |run| - 1;
    var init := run[..n];
    KeptLast(run);
    if n > 0 {
      assert SameTitle(init) && init[0] == run[0] by {
        assert forall i :: 0 <= i < n ==> init[i] == run[i];
      }
      KeptRun(init);
    } else {
      assert init == [];
    }
    if run[0].title != "" {
      assert Kept(run) == init + [run[n]];
      assert Kept(run) == run by {
        assert run == init + [run[n]];
      }
    }
  }

  /** The rows kept from non-empty rows: those kept from all but the last, then the last if it has a title. */
  lemma KeptLast(rows: seq<Row>)
    requires rows != []
    ensures var n := |rows| - 1; Kept(rows) == Kept(rows[..n]) + (if rows[n].title != "" then [rows[n]] else [])
  {
  }

  /** The movies' casts are the cast entries of the rows with a non-empty title, in row order. */
  lemma {:induction false} MoviesCast(runs: seq<seq<Row>>)
    requires MaximalRuns(runs)
    ensures AllCasts(Movies(runs)) == Cast(Kept(Flatten(runs)))
    decreases |runs|
  {
    if runs != [] {
      var n := |runs| - 1;
      var init, last := runs[..n], runs[n];
      assert MaximalRuns(init);
      MoviesCast(init);
      assert runs == init + [last];
      MoviesCastStep(init, last);
      CastAppend(Kept(Flatten(init)), Kept(last));
    }
  }

  /** One more run adds its cast when titled, and nothing when its title is "". */
  lemma MoviesCastStep(init: seq<seq<Row>>, last: seq<Row>)
    requires forall i :: 0 <= i < |init| ==> init[i] != []
    requires last != [] && SameTitle(last)
    ensures AllCasts(Movies(init + [last])) == AllCasts(Movies(init)) + Cast(Kept(last))
    ensures Kept(Flatten(init + [last])) == Kept(Flatten(init)) + Kept(last)
  {
    var runs := init + [last];
    assert runs[..|init|] == init;
    KeptAppend(Flatten(init), last);
    KeptRun(last);
    if last[0].title != "" {
      var movies := Movies(init) + [Record(last)];
      assert movies[..|movies| - 1] == Movies(init);
    } else {
      assert Cast([]) == [];
      assert Movies(init) + [] == Movies(init);
    }
  }

  /**
   * The grouping loses and duplicates no row with a title: all cast entries,
   * movie after movie, are those of the rows whose title is not "", in row
   * order; so each movie's cast is as long as its run, and no movie is
   * titled "".
   */
  lemma GroupedCast(rows: seq<Row>)
    ensures AllCasts(Grouped(rows)) == Cast(Kept(rows))
    ensures forall movie :: movie in Grouped(rows) ==> movie.title != ""
  {
    RunsCut(rows);
    MoviesCast(Runs(rows));
    MoviesTitled(Runs(rows));
  }

  /** Each maximal run of rows with one non-empty title is one movie with one cast entry per row. */
  lemma {:induction false} RunBecomesMovie(runs: seq<seq<Row>>, i: int)
    requires MaximalRuns(runs) && 0 <= i < |runs| && runs[i][0].title != ""
    ensures MovieRecord(runs[i][0].title, Cast(runs[i])) in Movies(runs)
    decreases |runs|
  {
    var n := |runs| - 1;
    if i < n {
      assert MaximalRuns(runs[..n]) && runs[..n][i] == runs[i];
      RunBecomesMovie(runs[..n], i);
    }
  }

  /** Rows that all carry one non-empty title make exactly one movie. */
  lemma SingleRun(rows: seq<Row>)
    requires rows != [] && SameTitle(rows) && rows[0].title != ""
    ensures Grouped(rows) == [MovieRecord(rows[0].title, Cast(rows))]
  {
    RunsUnique(rows, [rows]);
    assert Flatten([rows]) == Flatten([]) + rows;
    assert [rows][..0] == [];
    assert Movies([rows]) == Movies([]) + [Record(rows)];
  }

  /**
   * Runs of the same title apart from each other are not merged: maximal runs
   * titled A, B, A give a movie for each A run, with B's movie between them
   * unless B is "".
   */
  lemma NoMerging(r1: seq<Row>, r2: seq<Row>, r3: seq<Row>)
    requires MaximalRuns([r1, r2, r3]) && r1 != [] && r2 != [] && r3 != []
    requires r1[0].title == r3[0].title != ""
    ensures Grouped(r1 + r2 + r3) == [Record(r1)] + (if r2[0].title != "" then [Record(r2)] else []) + [Record(r3)]
  {
    ThreeRuns(r1, r2, r3);
    ThreeMovies(r1, r2, r3);
  }

  lemma ThreeRuns(r1: seq<Row>, r2: seq<Row>, r3: seq<Row>)
    requires MaximalRuns([r1, r2, r3])
    ensures Runs(r1 + r2 + r3) == [r1, r2, r3]
  {
    var parts := [r1, r2, r3];
    assert Flatten(parts) == Flatten(parts[..2]) + r3;
    assert Flatten(parts[..2]) == Flatten(parts[..1]) + r2;
    assert Flatten(parts[..1]) == Flatten([]) + r1;
    RunsUnique(r1 + r2 + r3, parts);
  }

  lemma ThreeMovies(r1: seq<Row>, r2: seq<Row>, r3: seq<Row>)
    requires r1 != [] && r2 != [] && r3 != [] && r1[0].title != "" && r3[0].title != ""
    ensures Movies([r1, r2, r3]) == [Record(r1)] + (if r2[0].title != "" then [Record(r2)] else []) + [Record(r3)]
  {
    var parts := [r1, r2, r3];
    assert parts[..2][..1] == parts[..1] && parts[..1][..0] == [];
    assert Movies(parts[..1]) == [Record(r1)];
    assert Movies(parts[..2]) == Movies(parts[..1]) + if r2[0].title != "" then [Record(r2)] else [];
    assert Movies(parts) == Movies(parts[..2]) + [Record(r3)];
  }

  // ---------------------------------------------------------------------
  // The single-movie resolver
  // ---------------------------------------------------------------------

  /**
   * The loop of getMovieByTitle: every row overwrites the title and appends
   * one cast entry; with no rows the movie is empty.
   */
  method SingleMovie(rows: seq<Row>) returns (result: MovieRecord)
    ensures result.title == if rows == [] then "" else rows[|rows| - 1].title
    ensures result.cast == Cast(rows)
  {
    result := MovieRecord("", []);
    var i := 0;
    while i < |rows|
      invariant 0 <= i <= |rows|
      invariant result.title == if i == 0 then "" else rows[i - 1].title
      invariant result.cast == Cast(rows[..i])
    {
      var row := rows[i];
      result := result.(title := row.title);
      CastAppend(rows[..i], [row]);
      assert rows[..i + 1] == rows[..i] + [row];
      result := result.(cast := result.cast + [CastEntry(row)]);
      i := i + 1;
    }
    assert rows[..i] == rows;
  }
}
