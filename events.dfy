/** The events tables: dropping the implicit-baseline rows, and reading and
    filtering one table per run. Reading a file is a lookup in a map from path
    to the table already parsed from it. */
module Events {
  import opened Errors

  /** One row of an events table: its `trial_type` and the other columns,
      which pass through untouched. */
  datatype Event = Event(trialType: string, otherColumns: seq<string>)

  type Table = seq<Event>

  /** The trial type of the implicit baseline, which is not modelled. */
  const Baseline := "Bfix"

  predicate IsBaseline(e: Event)
  {
    e.trialType == Baseline
  }

  /** `event_df[event_df.trial_type != 'Bfix']`. */
  function DropBaseline(t: Table): (r: Table)
    ensures |r| <= |t|
    ensures forall e :: e in r <==> e in t && !IsBaseline(e)
  {
    if t == [] then []
    else if IsBaseline(t[0]) then DropBaseline(t[1..])
    else [t[0]] + DropBaseline(t[1..])
  }

  /** The `trial_type` column of a table. */
  function TrialTypes(t: Table): (r: seq<string>)
    ensures |r| == |t|
  {
    seq(|t|, i requires 0 <= i < |t| => t[i].trialType)
  }

  /** The number of baseline rows in a table. */
  function CountBaseline(t: Table): nat
  {
    multiset(TrialTypes(t))[Baseline]
  }

  /** Filtering removes exactly the baseline rows. */
  lemma {:induction false} DropBaselineLength(t: Table)
    ensures |DropBaseline(t)| == |t| - CountBaseline(t)
  {
    if t != [] {
      DropBaselineLength(t[1..]);
      assert TrialTypes(t) == [t[0].trialType] + TrialTypes(t[1..]);
    }
  }

  /** Filtering a table made of two parts filters each part in place: the
      kept rows keep their relative order. */
  lemma {:induction false} DropBaselineAppend(a: Table, b: Table)
    ensures DropBaseline(a + b) == DropBaseline(a) + DropBaseline(b)
  {
    if a != [] {
      assert (a + b)[1..] == a[1..] + b;
      DropBaselineAppend(a[1..], b);
    } else {
      assert a + b == b;
    }
  }

  /** Filtering twice changes nothing more. */
  lemma {:induction false} DropBaselineIdempotent(t: Table)
    ensures DropBaseline(DropBaseline(t)) == DropBaseline(t)
  {
    if t != [] {
      DropBaselineIdempotent(t[1..]);
      if !IsBaseline(t[0]) {
        assert ([t[0]] + DropBaseline(t[1..]))[1..] == DropBaseline(t[1..]);
      }
    }
  }

  /** A table of one baseline row and one `low_salience_left` row keeps only
      the second row. */
  lemma DropBaselineExample(other1: seq<string>, other2: seq<string>)
    ensures DropBaseline([Event("Bfix", other1), Event("low_salience_left", other2)])
            == [Event("low_salience_left", other2)]
  {
    var t := [Event("Bfix", other1), Event("low_salience_left", other2)];
    assert t[1..] == [Event("low_salience_left", other2)];
    assert t[1..][1..] == [];
  }

  /** `paths[k]` is the first path that no table is stored under. */
  predicate FirstMissing(paths: seq<string>, files: map<string, Table>, k: int)
  {
    0 <= k < |paths| && paths[k] !in files &&
    forall j :: 0 <= j < k ==> paths[j] in files
  }

  /** Reading and filtering every table in turn: the filtered tables, one per
      path and in the same order, or the error for the first path that cannot
      be read. */
  function FilteredTables(paths: seq<string>, files: map<string, Table>): (r: Result<seq<Table>>)
    ensures r.Success? <==> forall j :: 0 <= j < |paths| ==> paths[j] in files
    ensures r.Success? ==>
      |r.value| == |paths| &&
      forall j :: 0 <= j < |paths| ==> r.value[j] == DropBaseline(files[paths[j]])
    ensures r.Failure? ==> exists k :: FirstMissing(paths, files, k) && r.error == MissingFile(paths[k])
  {
    if paths == [] then Success([])
    else
      var init, last := paths[..|paths| - 1], paths[|paths| - 1];
      assert forall j :: 0 <= j < |init| ==> init[j] == paths[j];
      match FilteredTables(init, files)
      case Failure(e) => Failure(e)
      case Success(tables) =>
        if last in files then Success(tables + [DropBaseline(files[last])])
        else Failure(MissingFile(last))
  }

  /** The `for event in events` loop that fills `event_dfs`. */
  method LoadFilteredEvents(paths: seq<string>, files: map<string, Table>) returns (r: Result<seq<Table>>)
    ensures r == FilteredTables(paths, files)
  {
    var eventDfs: seq<Table> := [];
    for k := 0 to |paths|
      invariant FilteredTables(paths[..k], files) == Success(eventDfs)
    {
      assert paths[..k + 1][..k] == paths[..k];
      if paths[k] !in files {
        assert FirstMissing(paths, files, k);
        var whole := FilteredTables(paths, files);
        if whole.Failure? {
          var j :| FirstMissing(paths, files, j) && whole.error == MissingFile(paths[j]);
          assert j == k;
        }
        return Failure(MissingFile(paths[k]));
      }
      var eventDf := DropBaseline(files[paths[k]]);
      eventDfs := eventDfs + [eventDf];
    }
    assert paths[..|paths|] == paths;
    return Success(eventDfs);
  }
}
