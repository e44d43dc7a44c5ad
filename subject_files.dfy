/** Per-subject path resolution: the subject labels, the session choice and
    the three run-aligned file lists that `fetch_data` returns. Directory
    listings (`glob.glob`) are inputs. */
module SubjectFiles {
  import opened Errors
  import opened Seqs
  import opened PosixPath

  /** Sessions whose glob path contains this text are skipped. */
  const BaselineSession := "ses-00"

  /** The two runs, in the order `fetch_data` visits them. */
  const Directions: seq<string> := ["pa", "ap"]

  const BoldSuffix := "space-MNI152NLin2009cAsym_" + "desc-preproc_bold.nii.gz"
  const ConfoundsSuffix := "desc-confounds_timeseries.tsv"
  const EventsSuffix := "events.tsv"

  /** The three index-aligned lists `fetch_data` returns. */
  datatype RunFiles = RunFiles(bold: seq<string>, confounds: seq<string>, events: seq<string>)

  /** `subjects`: the basename of every `sub-*` match of the data directory. */
  function SubjectLabels(matches: seq<string>): (r: seq<string>)
    ensures |r| == |matches|
    ensures forall i :: 0 <= i < |r| ==> Sep !in r[i] && EndsWithName(matches[i], r[i])
  {
    seq(|matches|, i requires 0 <= i < |matches| => Basename(matches[i]))
  }

  /** The `sub-*` matches of one directory are that directory joined with
      distinct entry names; their labels are those names, so they are distinct
      single path components. */
  lemma SubjectLabelsOfOneDirectory(dataDir: string, names: seq<string>, matches: seq<string>)
    requires |matches| == |names|
    requires forall i :: 0 <= i < |names| ==> Component(names[i]) && matches[i] == Join(dataDir, names[i])
    requires Distinct(matches)
    ensures SubjectLabels(matches) == names
    ensures Distinct(SubjectLabels(matches))
    ensures forall i :: 0 <= i < |matches| ==> Component(SubjectLabels(matches)[i])
  {
    forall i | 0 <= i < |names|
      ensures SubjectLabels(matches)[i] == names[i]
    {
      BasenameOfJoin(dataDir, names[i]);
    }
    forall i, j | 0 <= i < j < |names|
      ensures names[i] != names[j]
    {
      assert matches[i] != matches[j];
    }
  }

  /** `name` is the last component of `path`. */
  predicate EndsWithName(path: string, name: string)
  {
    |name| <= |path| && path[|path| - |name|..] == name &&
    (|name| < |path| ==> path[|path| - |name| - 1] == Sep)
  }

  /** The session test is on the whole glob path, not on its basename. */
  predicate IsBaselineMatch(path: string)
  {
    Contains(path, BaselineSession)
  }

  /** The list comprehension: basenames of the matches that pass the test. */
  function SessionCandidates(matches: seq<string>): (r: seq<string>)
    ensures |r| <= |matches|
    ensures forall i :: 0 <= i < |r| ==> Sep !in r[i]
  {
    if matches == [] then []
    else if IsBaselineMatch(matches[0]) then SessionCandidates(matches[1..])
    else [Basename(matches[0])] + SessionCandidates(matches[1..])
  }

  /** A name is a candidate exactly when it is the basename of some match
      whose full path does not contain "ses-00". */
  lemma {:induction false} SessionCandidatesMembership(matches: seq<string>, x: string)
    ensures x in SessionCandidates(matches) <==>
              exists i :: 0 <= i < |matches| && !IsBaselineMatch(matches[i]) && x == Basename(matches[i])
  {
    if matches != [] {
      var rest := matches[1..];
      SessionCandidatesMembership(rest, x);
      if x in SessionCandidates(rest) {
        var i :| 0 <= i < |rest| && !IsBaselineMatch(rest[i]) && x == Basename(rest[i]);
        assert matches[i + 1] == rest[i];
      }
      if exists i :: 0 <= i < |matches| && !IsBaselineMatch(matches[i]) && x == Basename(matches[i]) {
        var i :| 0 <= i < |matches| && !IsBaselineMatch(matches[i]) && x == Basename(matches[i]);
        if i > 0 {
          assert rest[i - 1] == matches[i];
        }
      }
    }
  }

  /** The test skips more than the baseline session: any match whose path
      ends in "ses-001" contains "ses-00" and is skipped too. */
  lemma LaterSessionIsSkipped(prefix: string)
    ensures IsBaselineMatch(prefix + "ses-001")
  {
    var p := prefix + "ses-001";
    assert OccursAt(p, BaselineSession, |prefix|);
  }

  /** `[...][0]`: the first candidate, or `None` where Python raises IndexError. */
  function SelectSession(matches: seq<string>): (r: Option<string>)
    ensures r.Some? ==> Sep !in r.value
  {
    var candidates := SessionCandidates(matches);
    if candidates == [] then None else Some(candidates[0])
  }

  /** Match `i` is the first one that does not look like the baseline session. */
  predicate FirstSurvivor(matches: seq<string>, i: int)
  {
    0 <= i < |matches| && !IsBaselineMatch(matches[i]) &&
    forall j :: 0 <= j < i ==> IsBaselineMatch(matches[j])
  }

  /** The chosen session is the basename of the first surviving match; there is
      none exactly when every match contains "ses-00". */
  lemma {:induction false} SelectSessionIsFirstSurvivor(matches: seq<string>)
    ensures SelectSession(matches).None? <==>
              forall j :: 0 <= j < |matches| ==> IsBaselineMatch(matches[j])
    ensures SelectSession(matches).Some? ==>
              exists i :: FirstSurvivor(matches, i) &&
                          SelectSession(matches).value == Basename(matches[i])
  {
    if matches != [] && IsBaselineMatch(matches[0]) {
      var rest := matches[1..];
      SelectSessionIsFirstSurvivor(rest);
      assert forall j :: 1 <= j < |matches| ==> matches[j] == rest[j - 1];
      if SelectSession(rest).Some? {
        var i :| FirstSurvivor(rest, i) && SelectSession(rest).value == Basename(rest[i]);
        assert FirstSurvivor(matches, i + 1);
      }
    } else if matches != [] {
      assert FirstSurvivor(matches, 0);
    }
  }

  /** When the data directory itself contains "ses-00", every match is
      skipped and the session lookup fails. */
  lemma BaselineTestSeesWholePath(dataDir: string, matches: seq<string>)
    requires Contains(dataDir, BaselineSession)
    requires forall j :: 0 <= j < |matches| ==> dataDir <= matches[j]
    ensures SelectSession(matches) == None
  {
    forall j | 0 <= j < |matches|
      ensures IsBaselineMatch(matches[j])
    {
      ContainsInExtension(dataDir, matches[j], BaselineSession);
    }
    SelectSessionIsFirstSurvivor(matches);
  }

  /** The file-name template shared by the three kinds of run file. */
  function RunFileName(subject: string, session: string, direction: string, suffix: string): string
  {
    subject + "_" + session + "_task-MCSE_dir-" + direction + "_" + suffix
  }

  /** `func_dir`. */
  function FuncDir(dataDir: string, subject: string, session: string): string
  {
    Join(Join(Join(dataDir, subject), session), "func")
  }

  function RunPath(dataDir: string, subject: string, session: string, direction: string, suffix: string): string
  {
    Join(FuncDir(dataDir, subject, session), RunFileName(subject, session, direction, suffix))
  }

  /** What `fetch_data` returns once the session is known. */
  function RunPaths(dataDir: string, subject: string, session: string): (r: RunFiles)
    ensures |r.bold| == |r.confounds| == |r.events| == |Directions|
  {
    RunFiles(
      seq(|Directions|, i requires 0 <= i < |Directions| => RunPath(dataDir, subject, session, Directions[i], BoldSuffix)),
      seq(|Directions|, i requires 0 <= i < |Directions| => RunPath(dataDir, subject, session, Directions[i], ConfoundsSuffix)),
      seq(|Directions|, i requires 0 <= i < |Directions| => RunPath(dataDir, subject, session, Directions[i], EventsSuffix)))
  }

  /** The fixed parts of the template hold no separator. */
  lemma SuffixesHaveNoSep()
    ensures Sep !in BoldSuffix && Sep !in ConfoundsSuffix && Sep !in EventsSuffix
  {
  }

  lemma RunFileNameIsComponent(subject: string, session: string, direction: string, suffix: string)
    requires Sep !in subject && Sep !in session && Sep !in direction && Sep !in suffix
    ensures Component(RunFileName(subject, session, direction, suffix))
  {
    assert Sep !in "_task-MCSE_dir-";
    var s := subject + "_" + session + "_task-MCSE_dir-" + direction + "_";
    assert Sep !in s;
    assert RunFileName(subject, session, direction, suffix) == s + suffix;
  }

  /** Two run file names of one subject and session agree only when they are
      for the same direction and the same kind of file. */
  lemma RunFileNameInjective(subject: string, session: string, d1: string, d2: string, x1: string, x2: string)
    requires |d1| == |d2|
    requires RunFileName(subject, session, d1, x1) == RunFileName(subject, session, d2, x2)
    ensures d1 == d2 && x1 == x2
  {
    var p := subject + "_" + session + "_task-MCSE_dir-";
    var n1 := RunFileName(subject, session, d1, x1);
    var n2 := RunFileName(subject, session, d2, x2);
    assert n1 == p + d1 + "_" + x1;
    assert n2 == p + d2 + "_" + x2;
    assert d1 == n1[|p|..|p| + |d1|];
    assert d2 == n2[|p|..|p| + |d2|];
    assert x1 == n1[|p| + |d1| + 1..];
    assert x2 == n2[|p| + |d2| + 1..];
  }

  /** A file in a subject's `func` directory, written out: the directories
      and the name joined with single separators. */
  lemma FuncPathLayout(dataDir: string, subject: string, session: string, name: string)
    requires PlainDir(dataDir) && Component(subject) && Component(session) && Component(name)
    ensures Join(FuncDir(dataDir, subject, session), name)
            == dataDir + "/" + subject + "/" + session + "/func/" + name
  {
    var d1 := Join(dataDir, subject);
    JoinShape(dataDir, subject);
    var d2 := Join(d1, session);
    JoinShape(d1, session);
    var d3 := Join(d2, "func");
    JoinShape(d2, "func");
    JoinShape(d3, name);
  }

  /** Every path `fetch_data` returns is
      `data_dir/subject/session/func/<subject>_<session>_task-MCSE_dir-<dir>_<suffix>`,
      two per list, with the runs in the order `pa`, `ap`. */
  lemma RunPathsLayout(dataDir: string, subject: string, session: string)
    requires PlainDir(dataDir) && Component(subject) && Component(session)
    ensures var f := RunPaths(dataDir, subject, session);
      var dir := dataDir + "/" + subject + "/" + session + "/func/";
      Directions == ["pa", "ap"] &&
      |f.bold| == |f.confounds| == |f.events| == 2 &&
      forall i :: 0 <= i < 2 ==>
        f.bold[i] == dir + RunFileName(subject, session, Directions[i], BoldSuffix) &&
        f.confounds[i] == dir + RunFileName(subject, session, Directions[i], ConfoundsSuffix) &&
        f.events[i] == dir + RunFileName(subject, session, Directions[i], EventsSuffix)
  {
    SuffixesHaveNoSep();
    forall i, suffix | 0 <= i < 2 && suffix in {BoldSuffix, ConfoundsSuffix, EventsSuffix}
      ensures RunPath(dataDir, subject, session, Directions[i], suffix)
              == dataDir + "/" + subject + "/" + session + "/func/" + RunFileName(subject, session, Directions[i], suffix)
    {
      RunFileNameIsComponent(subject, session, Directions[i], suffix);
      FuncPathLayout(dataDir, subject, session, RunFileName(subject, session, Directions[i], suffix));
    }
  }

  /** The file name of each returned path names the subject, the session and
      the run it was built for: `bold[i]`, `confounds[i]` and `events[i]` are
      all for direction `Directions[i]`. */
  lemma RunPathsNames(dataDir: string, subject: string, session: string)
    requires Sep !in subject && Sep !in session
    ensures var f := RunPaths(dataDir, subject, session);
      |f.bold| == |f.confounds| == |f.events| == 2 &&
      forall i :: 0 <= i < 2 ==>
        Basename(f.bold[i]) == RunFileName(subject, session, Directions[i], BoldSuffix) &&
        Basename(f.confounds[i]) == RunFileName(subject, session, Directions[i], ConfoundsSuffix) &&
        Basename(f.events[i]) == RunFileName(subject, session, Directions[i], EventsSuffix)
  {
    SuffixesHaveNoSep();
    forall i, suffix | 0 <= i < 2 && suffix in {BoldSuffix, ConfoundsSuffix, EventsSuffix}
      ensures Basename(RunPath(dataDir, subject, session, Directions[i], suffix))
              == RunFileName(subject, session, Directions[i], suffix)
    {
      RunFileNameIsComponent(subject, session, Directions[i], suffix);
      BasenameOfJoin(FuncDir(dataDir, subject, session), RunFileName(subject, session, Directions[i], suffix));
    }
  }

  /** Two run paths of one subject and session are the same file only when
      they are for the same run and the same kind of file. */
  lemma RunPathInjective(dataDir: string, subject: string, session: string, i: int, j: int, x: string, y: string)
    requires Sep !in subject && Sep !in session
    requires 0 <= i < 2 && 0 <= j < 2
    requires x in {BoldSuffix, ConfoundsSuffix, EventsSuffix} && y in {BoldSuffix, ConfoundsSuffix, EventsSuffix}
    requires RunPath(dataDir, subject, session, Directions[i], x) == RunPath(dataDir, subject, session, Directions[j], y)
    ensures i == j && x == y
  {
    SuffixesHaveNoSep();
    var dir := FuncDir(dataDir, subject, session);
    RunFileNameIsComponent(subject, session, Directions[i], x);
    RunFileNameIsComponent(subject, session, Directions[j], y);
    BasenameOfJoin(dir, RunFileName(subject, session, Directions[i], x));
    BasenameOfJoin(dir, RunFileName(subject, session, Directions[j], y));
    RunFileNameInjective(subject, session, Directions[i], Directions[j], x, y);
  }

  /** The six paths are six different files: the two runs never share a file
      and no list shares a file with another. */
  lemma RunPathsDistinct(dataDir: string, subject: string, session: string)
    requires Sep !in subject && Sep !in session
    ensures var f := RunPaths(dataDir, subject, session);
      f.bold[0] != f.bold[1] && f.confounds[0] != f.confounds[1] && f.events[0] != f.events[1] &&
      forall i, j :: 0 <= i < 2 && 0 <= j < 2 ==>
        f.bold[i] != f.confounds[j] && f.bold[i] != f.events[j] && f.confounds[i] != f.events[j]
  {
    assert |BoldSuffix| == 50 && |ConfoundsSuffix| == 29 && |EventsSuffix| == 10;
    forall i, j, x, y | 0 <= i < 2 && 0 <= j < 2 && (i, x) != (j, y) &&
        x in {BoldSuffix, ConfoundsSuffix, EventsSuffix} && y in {BoldSuffix, ConfoundsSuffix, EventsSuffix}
      ensures RunPath(dataDir, subject, session, Directions[i], x) != RunPath(dataDir, subject, session, Directions[j], y)
    {
      if RunPath(dataDir, subject, session, Directions[i], x) == RunPath(dataDir, subject, session, Directions[j], y) {
        RunPathInjective(dataDir, subject, session, i, j, x, y);
      }
    }
  }

  /** `fetch_data(data_dir, subject)`, with the `ses-*` listing of the
      subject's directory passed in. */
  method FetchData(dataDir: string, subject: string, sessionMatches: seq<string>) returns (r: Result<RunFiles>)
    ensures r.Failure? <==> SelectSession(sessionMatches).None?
    ensures r.Failure? ==> r.error == NoSession
    ensures r.Success? ==> r.value == RunPaths(dataDir, subject, SelectSession(sessionMatches).value)
  {
    var bold, confounds, events := [], [], [];
    var candidates := SessionCandidates(sessionMatches);
    if |candidates| == 0 {
      return Failure(NoSession);
    }
    var session := candidates[0];
    var funcDir := FuncDir(dataDir, subject, session);
    ghost var expected := RunPaths(dataDir, subject, session);
    for k := 0 to |Directions|
      invariant bold == expected.bold[..k]
      invariant confounds == expected.confounds[..k]
      invariant events == expected.events[..k]
    {
      var direction := Directions[k];
      bold := bold + [Join(funcDir, RunFileName(subject, session, direction, BoldSuffix))];
      confounds := confounds + [Join(funcDir, RunFileName(subject, session, direction, ConfoundsSuffix))];
      events := events + [Join(funcDir, RunFileName(subject, session, direction, EventsSuffix))];
    }
    assert bold == expected.bold[..|Directions|];
    return Success(RunFiles(bold, confounds, events));
  }
}
