/** The per-subject stage: resolve the run files, read and filter the events
    tables, fit the first-level model (not modelled) and write one z-score
    image per contrast under `write_dir/subject/`. The batch loop over all
    subjects stops at the first subject that raises. */
module FirstLevel {
  import opened Errors
  import opened Seqs
  import opened PosixPath
  import opened SubjectFiles
  import opened Events
  import opened Contrasts

  const ZScoreSuffix := "_z_score.nii.gz"

  /** What the stage reads: the data and result roots, the `ses-*` listing of
      each subject's directory, and the events tables stored under their paths. */
  datatype Workspace = Workspace(
    dataDir: string,
    writeDir: string,
    sessionListing: map<string, seq<string>>,
    tables: map<string, Table>)

  /** What one subject contributes: the run files the model is fitted on, the
      filtered events tables, and the images written, one per contrast key. */
  datatype FirstLevelRun = FirstLevelRun(files: RunFiles, eventTables: seq<Table>, outputs: seq<string>)

  /** The `ses-*` glob of a subject's directory; a directory that is not there lists nothing. */
  function SessionMatches(ws: Workspace, subject: string): seq<string>
  {
    if subject in ws.sessionListing then ws.sessionListing[subject] else []
  }

  /** `os.path.join(subject_dir, f'{key}_z_score.nii.gz')` with
      `subject_dir = os.path.join(write_dir, subject)`. */
  function ZScorePath(writeDir: string, subject: string, key: string): string
  {
    Join(Join(writeDir, subject), key + ZScoreSuffix)
  }

  /** The z-score image of `key` for `subject` is `write_dir/subject/<key>_z_score.nii.gz`. */
  lemma ZScorePathLayout(writeDir: string, subject: string, key: string)
    requires PlainDir(writeDir) && Component(subject) && Sep !in key
    ensures ZScorePath(writeDir, subject, key) == writeDir + "/" + subject + "/" + key + ZScoreSuffix
  {
    assert Sep !in ZScoreSuffix;
    JoinShape(writeDir, subject);
    JoinShape(Join(writeDir, subject), key + ZScoreSuffix);
  }

  /** Different subjects or different keys never write to the same file. */
  lemma ZScorePathInjective(writeDir: string, s1: string, s2: string, k1: string, k2: string)
    requires PlainDir(writeDir) && Component(s1) && Component(s2) && Sep !in k1 && Sep !in k2
    requires ZScorePath(writeDir, s1, k1) == ZScorePath(writeDir, s2, k2)
    ensures s1 == s2 && k1 == k2
  {
    assert Sep !in ZScoreSuffix;
    JoinTwiceInjective(writeDir, s1, k1 + ZScoreSuffix, s2, k2 + ZScoreSuffix);
    assert k1 == (k1 + ZScoreSuffix)[..|k1|] && k2 == (k2 + ZScoreSuffix)[..|k2|];
  }

  /** For the MCSE contrasts, each subject gets exactly two images, named
      after the two keys. */
  lemma McseOutputPaths(writeDir: string, subject: string)
    requires PlainDir(writeDir) && Component(subject)
    ensures var dir := writeDir + "/" + subject + "/";
      SubjectOutputs(writeDir, subject, Keys(McseContrasts())) ==
        [dir + "low-high salience" + ZScoreSuffix, dir + "salience_left-right" + ZScoreSuffix]
  {
    McseKeysAreFileNames();
    var keys := Keys(McseContrasts());
    ZScorePathLayout(writeDir, subject, keys[0]);
    ZScorePathLayout(writeDir, subject, keys[1]);
  }

  /** The output file of each contrast key, in key order. */
  function SubjectOutputs(writeDir: string, subject: string, keys: seq<string>): seq<string>
  {
    seq(|keys|, i requires 0 <= i < |keys| => ZScorePath(writeDir, subject, keys[i]))
  }

  /** The `for key in contrasts.keys()` loop: one image written per key. */
  method SaveContrastImages(writeDir: string, subject: string, keys: seq<string>) returns (written: seq<string>)
    ensures written == SubjectOutputs(writeDir, subject, keys)
  {
    var subjectDir := Join(writeDir, subject);
    written := [];
    for k := 0 to |keys|
      invariant |written| == k
      invariant forall i :: 0 <= i < k ==> written[i] == ZScorePath(writeDir, subject, keys[i])
    {
      // the image comes from `model.compute_contrast`, which is not modelled
      var outputFile := Join(subjectDir, keys[k] + ZScoreSuffix);
      written := written + [outputFile];
    }
  }

  /** One pass of the per-subject loop body. */
  function SubjectRun(ws: Workspace, keys: seq<string>, subject: string): Result<FirstLevelRun>
  {
    match SelectSession(SessionMatches(ws, subject))
    case None => Failure(NoSession)
    case Some(session) =>
      var files := RunPaths(ws.dataDir, subject, session);
      match FilteredTables(files.events, ws.tables)
      case Failure(e) => Failure(e)
      case Success(eventDfs) =>
        Success(FirstLevelRun(files, eventDfs, SubjectOutputs(ws.writeDir, subject, keys)))
  }

  /** What one subject's pass guarantees: it fails with IndexError exactly when
      no session survives; otherwise it fails only on an events file it cannot
      read, and when it succeeds the model sees the two runs `fetch_data`
      returns for the chosen session, whose filtered events
      tables follow the `events` paths one to one, and one image is written per
      key at that key's output path. */
  lemma SubjectRunContract(ws: Workspace, keys: seq<string>, subject: string)
    ensures var r := SubjectRun(ws, keys, subject);
      (r == Failure(NoSession) <==> SelectSession(SessionMatches(ws, subject)).None?) &&
      (r.Failure? && r.error.MissingFile? ==>
         r.error.path in RunPaths(ws.dataDir, subject, SelectSession(SessionMatches(ws, subject)).value).events &&
         r.error.path !in ws.tables) &&
      (r.Success? ==>
         var run := r.value;
         run.files == RunPaths(ws.dataDir, subject, SelectSession(SessionMatches(ws, subject)).value) &&
         |run.files.bold| == |run.files.confounds| == |run.files.events| == |run.eventTables| == 2 &&
         (forall i :: 0 <= i < 2 ==>
            run.files.events[i] in ws.tables &&
            run.eventTables[i] == DropBaseline(ws.tables[run.files.events[i]])) &&
         |run.outputs| == |keys| &&
         forall k :: 0 <= k < |keys| ==> run.outputs[k] == ZScorePath(ws.writeDir, subject, keys[k]))
  {
    var r := SubjectRun(ws, keys, subject);
    var sel := SelectSession(SessionMatches(ws, subject));
    if sel.Some? {
      var files := RunPaths(ws.dataDir, subject, sel.value);
      var loaded := FilteredTables(files.events, ws.tables);
      if loaded.Failure? {
        var k :| FirstMissing(files.events, ws.tables, k) && loaded.error == MissingFile(files.events[k]);
        assert files.events[k] in files.events;
      }
    }
  }

  /** The loop body as the script runs it. */
  method ProcessSubject(ws: Workspace, keys: seq<string>, subject: string) returns (r: Result<FirstLevelRun>)
    ensures r == SubjectRun(ws, keys, subject)
  {
    var fetched := FetchData(ws.dataDir, subject, SessionMatches(ws, subject));
    if fetched.Failure? {
      return Failure(fetched.error);
    }
    var files := fetched.value;
    var eventDfs := LoadFilteredEvents(files.events, ws.tables);
    if eventDfs.Failure? {
      return Failure(eventDfs.error);
    }
    // `model.fit(bold, events=event_dfs, confounds=confounds)` is not modelled
    var outputs := SaveContrastImages(ws.writeDir, subject, keys);
    return Success(FirstLevelRun(files, eventDfs.value, outputs));
  }

  /** Every image the batch writes, subject after subject, each subject's in key order. */
  function FirstLevelWrites(writeDir: string, subjects: seq<string>, keys: seq<string>): seq<string>
  {
    if subjects == [] then []
    else FirstLevelWrites(writeDir, subjects[..|subjects| - 1], keys)
         + SubjectOutputs(writeDir, subjects[|subjects| - 1], keys)
  }

  /** Every subject's pass runs without raising. Stated with `AllOf` rather
      than a `forall` over indices: a quantifier would let the solver unfold
      `SubjectRun` at every index it tries, which makes `RunFirstLevel` too
      costly to verify; `AllOfEach` gives the `forall` reading where needed. */
  predicate AllSucceed(ws: Workspace, keys: seq<string>, subjects: seq<string>)
  {
    AllOf(s => SubjectRun(ws, keys, s).Success?, subjects)
  }

  /** One subject that raises is enough to stop the batch. */
  lemma OneFailureFailsBatch(ws: Workspace, keys: seq<string>, subjects: seq<string>, k: int)
    requires 0 <= k < |subjects| && SubjectRun(ws, keys, subjects[k]).Failure?
    ensures !AllSucceed(ws, keys, subjects)
  {
    AllOfEach(s => SubjectRun(ws, keys, s).Success?, subjects);
  }

  /** The `for subject in subjects` loop. Nothing catches an exception, so the
      first subject that raises ends the batch, and the images written for the
      subjects before it stay on disk. */
  method RunFirstLevel(ws: Workspace, subjects: seq<string>, keys: seq<string>)
    returns (written: seq<string>, err: Option<Error>)
    ensures err.None? <==> AllSucceed(ws, keys, subjects)
    ensures err.None? ==> written == FirstLevelWrites(ws.writeDir, subjects, keys)
    ensures err.Some? ==>
      exists k :: 0 <= k < |subjects| &&
                  AllSucceed(ws, keys, subjects[..k]) &&
                  SubjectRun(ws, keys, subjects[k]) == Failure(err.value) &&
                  written == FirstLevelWrites(ws.writeDir, subjects[..k], keys)
  {
    written := [];
    for k := 0 to |subjects|
      invariant AllSucceed(ws, keys, subjects[..k])
      invariant written == FirstLevelWrites(ws.writeDir, subjects[..k], keys)
    {
      var r := ProcessSubject(ws, keys, subjects[k]);
      if r.Failure? {
        OneFailureFailsBatch(ws, keys, subjects, k);
        return written, Some(r.error);
      }
      assert subjects[..k + 1][..k] == subjects[..k];
      written := written + r.value.outputs;
    }
    assert subjects[..|subjects|] == subjects;
    return written, None;
  }

  /** The batch writes exactly one image per subject and key. */
  lemma {:induction false} FirstLevelWritesCount(writeDir: string, subjects: seq<string>, keys: seq<string>)
    ensures |FirstLevelWrites(writeDir, subjects, keys)| == |subjects| * |keys|
  {
    if subjects != [] {
      var n := |subjects|;
      FirstLevelWritesCount(writeDir, subjects[..n - 1], keys);
      assert |SubjectOutputs(writeDir, subjects[n - 1], keys)| == |keys|;
      assert (n - 1) * |keys| + |keys| == n * |keys|;
    }
  }

  /** A path is written by the batch exactly when it is the output path of some
      subject and some key. */
  lemma FirstLevelWritesMembership(writeDir: string, subjects: seq<string>, keys: seq<string>, p: string)
    ensures p in FirstLevelWrites(writeDir, subjects, keys) <==>
      exists i, k :: 0 <= i < |subjects| && 0 <= k < |keys| && p == ZScorePath(writeDir, subjects[i], keys[k])
  {
    if p in FirstLevelWrites(writeDir, subjects, keys) {
      WrittenIsSomeOutput(writeDir, subjects, keys, p);
    }
    if exists i, k :: 0 <= i < |subjects| && 0 <= k < |keys| && p == ZScorePath(writeDir, subjects[i], keys[k]) {
      var i, k :| 0 <= i < |subjects| && 0 <= k < |keys| && p == ZScorePath(writeDir, subjects[i], keys[k]);
      EveryOutputIsWritten(writeDir, subjects, keys, i, k);
    }
  }

  lemma {:induction false} WrittenIsSomeOutput(writeDir: string, subjects: seq<string>, keys: seq<string>, p: string)
    requires p in FirstLevelWrites(writeDir, subjects, keys)
    ensures exists i, k :: 0 <= i < |subjects| && 0 <= k < |keys| && p == ZScorePath(writeDir, subjects[i], keys[k])
  {
    var n := |subjects|;
    var init := subjects[..n - 1];
    if p in FirstLevelWrites(writeDir, init, keys) {
      WrittenIsSomeOutput(writeDir, init, keys, p);
      var i, k :| 0 <= i < |init| && 0 <= k < |keys| && p == ZScorePath(writeDir, init[i], keys[k]);
      assert init[i] == subjects[i];
    } else {
      var outs := SubjectOutputs(writeDir, subjects[n - 1], keys);
      assert p in outs;
      var k :| 0 <= k < |keys| && outs[k] == p;
      assert p == ZScorePath(writeDir, subjects[n - 1], keys[k]);
    }
  }

  lemma {:induction false} EveryOutputIsWritten(writeDir: string, subjects: seq<string>, keys: seq<string>, i: int, k: int)
    requires 0 <= i < |subjects| && 0 <= k < |keys|
    ensures ZScorePath(writeDir, subjects[i], keys[k]) in FirstLevelWrites(writeDir, subjects, keys)
  {
    var n := |subjects|;
    var init := subjects[..n - 1];
    var p := ZScorePath(writeDir, subjects[i], keys[k]);
    if i < n - 1 {
      assert subjects[i] == init[i];
      EveryOutputIsWritten(writeDir, init, keys, i, k);
    } else {
      assert SubjectOutputs(writeDir, subjects[n - 1], keys)[k] == p;
    }
  }

  /** With distinct subject labels and distinct keys, no image overwrites another. */
  lemma {:induction false} FirstLevelWritesDistinct(writeDir: string, subjects: seq<string>, keys: seq<string>)
    requires PlainDir(writeDir)
    requires forall i :: 0 <= i < |subjects| ==> Component(subjects[i])
    requires forall k :: 0 <= k < |keys| ==> Sep !in keys[k]
    requires Distinct(subjects) && Distinct(keys)
    ensures Distinct(FirstLevelWrites(writeDir, subjects, keys))
  {
    if subjects != [] {
      var init := subjects[..|subjects| - 1];
      var last := subjects[|subjects| - 1];
      FirstLevelWritesDistinct(writeDir, init, keys);
      var outs := SubjectOutputs(writeDir, last, keys);
      forall a, b | 0 <= a < b < |outs|
        ensures outs[a] != outs[b]
      {
        if outs[a] == outs[b] {
          ZScorePathInjective(writeDir, last, last, keys[a], keys[b]);
        }
      }
      forall p | p in FirstLevelWrites(writeDir, init, keys)
        ensures p !in outs
      {
        FirstLevelWritesMembership(writeDir, init, keys, p);
        var i, k :| 0 <= i < |init| && 0 <= k < |keys| && p == ZScorePath(writeDir, init[i], keys[k]);
        if p in outs {
          var k' :| 0 <= k' < |keys| && outs[k'] == p;
          ZScorePathInjective(writeDir, init[i], last, keys[k], keys[k']);
        }
      }
      DistinctConcat(FirstLevelWrites(writeDir, init, keys), outs);
    }
  }
}
