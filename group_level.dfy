/** The group stage: an all-ones design matrix with one row per subject and,
    for each contrast, the per-subject z-score images handed to the
    second-level model. Fitting, the FDR threshold and the plot are not
    modelled. */
module GroupLevel {
  import opened PosixPath
  import opened Seqs
  import opened Errors
  import opened FirstLevel

  /** A data frame of integers: column names and rows. */
  datatype DesignMatrix = DesignMatrix(columns: seq<string>, rows: seq<seq<int>>)

  /** What the second-level model is fitted on for one contrast key. */
  datatype GroupFit = GroupFit(key: string, inputs: seq<string>, design: DesignMatrix)

  /** `[x] * n`. */
  function Repeat(x: int, n: nat): (r: seq<int>)
    ensures |r| == n
    ensures forall i :: 0 <= i < n ==> r[i] == x
  {
    if n == 0 then [] else Repeat(x, n - 1) + [x]
  }

  /** `pd.DataFrame(values, columns=[name])`: one row per value. */
  function SingleColumn(name: string, values: seq<int>): DesignMatrix
  {
    DesignMatrix([name], seq(|values|, i requires 0 <= i < |values| => [values[i]]))
  }

  /** The design of a one-sample test over `n` subjects. */
  function GroupDesign(n: nat): (d: DesignMatrix)
    ensures d.columns == ["intercept"]
    ensures |d.rows| == n
    ensures forall i :: 0 <= i < n ==> d.rows[i] == [1]
  {
    SingleColumn("intercept", Repeat(1, n))
  }

  /** `imgs`: the z-score image of `key` for each subject, in subject order. */
  function GroupInputs(writeDir: string, subjects: seq<string>, key: string): (r: seq<string>)
    ensures |r| == |subjects|
  {
    seq(|subjects|, i requires 0 <= i < |subjects| => ZScorePath(writeDir, subjects[i], key))
  }

  /** The `for key in contrasts.keys()` loop of the group stage, up to the
      call that fits the second-level model. */
  method GroupStage(writeDir: string, subjects: seq<string>, keys: seq<string>) returns (fits: seq<GroupFit>)
    ensures |fits| == |keys|
    ensures forall k :: 0 <= k < |keys| ==>
      fits[k] == GroupFit(keys[k], GroupInputs(writeDir, subjects, keys[k]), GroupDesign(|subjects|))
  {
    var designMatrix := GroupDesign(|subjects|);
    fits := [];
    for k := 0 to |keys|
      invariant |fits| == k
      invariant forall j :: 0 <= j < k ==>
        fits[j] == GroupFit(keys[j], GroupInputs(writeDir, subjects, keys[j]), designMatrix)
    {
      var key := keys[k];
      var imgs := GroupInputs(writeDir, subjects, key);
      // `second_level_model.fit(imgs, design_matrix=design_matrix)` and the
      // threshold and plot that follow are not modelled
      fits := fits + [GroupFit(key, imgs, designMatrix)];
    }
  }

  /** The group stage reads only images the first-level batch writes: for a
      key of the batch, the i-th input is subject i's image for that key, and
      every input is among the batch's outputs. The design has one row per
      input. */
  lemma GroupInputsWereWritten(writeDir: string, subjects: seq<string>, keys: seq<string>, key: string)
    requires key in keys
    ensures var inputs := GroupInputs(writeDir, subjects, key);
      |inputs| == |subjects| == |GroupDesign(|subjects|).rows| &&
      forall i :: 0 <= i < |subjects| ==>
        inputs[i] == ZScorePath(writeDir, subjects[i], key) &&
        inputs[i] in FirstLevelWrites(writeDir, subjects, keys)
  {
    var k :| 0 <= k < |keys| && keys[k] == key;
    forall i | 0 <= i < |subjects|
      ensures ZScorePath(writeDir, subjects[i], key) in FirstLevelWrites(writeDir, subjects, keys)
    {
      FirstLevelWritesMembership(writeDir, subjects, keys, ZScorePath(writeDir, subjects[i], key));
    }
  }

  /** With distinct subject labels, the group stage reads each subject's image once. */
  lemma GroupInputsDistinct(writeDir: string, subjects: seq<string>, key: string)
    requires PlainDir(writeDir) && Sep !in key
    requires forall i :: 0 <= i < |subjects| ==> Component(subjects[i])
    requires Distinct(subjects)
    ensures Distinct(GroupInputs(writeDir, subjects, key))
  {
    var inputs := GroupInputs(writeDir, subjects, key);
    forall i, j | 0 <= i < j < |inputs|
      ensures inputs[i] != inputs[j]
    {
      if inputs[i] == inputs[j] {
        ZScorePathInjective(writeDir, subjects[i], subjects[j], key, key);
      }
    }
  }

  /** The script from the batch loop to the end: the first-level batch, then,
      if no subject raised, the group stage. Every image the group stage reads
      is one the batch has written, and each design has one row per image.
      When a subject raises, the script ends there: no group fit is made, and
      the images of the subjects before it stay written. */
  method RunAnalysis(ws: Workspace, subjects: seq<string>, keys: seq<string>)
    returns (written: seq<string>, fits: seq<GroupFit>, err: Option<Error>)
    ensures err.None? <==> AllSucceed(ws, keys, subjects)
    ensures err.None? ==> written == FirstLevelWrites(ws.writeDir, subjects, keys)
    ensures err.None? ==>
      |fits| == |keys| &&
      forall k :: 0 <= k < |keys| ==>
        fits[k] == GroupFit(keys[k], GroupInputs(ws.writeDir, subjects, keys[k]), GroupDesign(|subjects|)) &&
        forall p :: p in fits[k].inputs ==> p in written
    ensures err.Some? ==>
      fits == [] &&
      exists k :: 0 <= k < |subjects| &&
                  AllSucceed(ws, keys, subjects[..k]) &&
                  SubjectRun(ws, keys, subjects[k]) == Failure(err.value) &&
                  written == FirstLevelWrites(ws.writeDir, subjects[..k], keys)
  {
    written, err := RunFirstLevel(ws, subjects, keys);
    if err.Some? {
      return written, [], err;
    }
    fits := GroupStage(ws.writeDir, subjects, keys);
    forall k | 0 <= k < |keys|
      ensures forall p :: p in GroupInputs(ws.writeDir, subjects, keys[k]) ==> p in written
    {
      GroupInputsWereWritten(ws.writeDir, subjects, keys, keys[k]);
    }
  }
}
