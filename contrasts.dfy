/** `mcse_contrasts`: the named contrasts of the MCSE paradigm, in the
    insertion order of the dictionary that holds them. Only the names matter
    to this model; the expressions are handed to the fitting library. */
module Contrasts {
  import opened PosixPath
  import opened Seqs

  datatype Contrast = Contrast(name: string, expression: string)

  function McseContrasts(): (r: seq<Contrast>)
    ensures Keys(r) == ["low-high salience", "salience_left-right"]
  {
    [ Contrast("low-high salience",
               "low_salience_left + low_salience_right" + "- hi_salience_left - hi_salience_right"),
      Contrast("salience_left-right",
               "low_salience_left - low_salience_right" + "+ hi_salience_left - hi_salience_right") ]
  }

  /** `contrasts.keys()`. */
  function Keys(cs: seq<Contrast>): (r: seq<string>)
    ensures |r| == |cs|
  {
    seq(|cs|, i requires 0 <= i < |cs| => cs[i].name)
  }

  /** The two MCSE keys are different, and each is a single path component,
      so each names its own file in a subject's result directory. */
  lemma McseKeysAreFileNames()
    ensures var keys := Keys(McseContrasts());
      |keys| == 2 && Distinct(keys) &&
      forall i :: 0 <= i < |keys| ==> Component(keys[i])
  {
    var keys := Keys(McseContrasts());
    assert keys[0] == "low-high salience" && keys[1] == "salience_left-right";
    assert keys[0][0] != keys[1][0];
    assert Sep !in "low-high salience";
    assert Sep !in "salience_left-right";
  }
}
