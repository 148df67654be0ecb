/** Multiple-testing correction. The arithmetic lives in statsmodels and is
    foreign to this model: `multipletests` is an oracle that, for the sorted
    p-values of one analysis block, yields each position's corrected p-value
    and whether that hypothesis is rejected. What the pipeline adds around the
    oracle is modelled: the empty-input sentinels and the failure on an unknown
    method. */
module Correction {
  import opened Wrappers
  import opened Tables

  type Probability = r: real | 0.0 <= r <= 1.0

  /** The oracle for statsmodels `multipletests(pvals, alpha, method, is_sorted=True)`:
      `corrected(ps, how, alpha, i)` and `reject(ps, how, alpha, i)` are the
      entries at position `i` of its second and first result arrays. */
  datatype MultipleTests = MultipleTests(
    corrected: (seq<Probability>, string, real, nat) -> Probability,
    reject: (seq<Probability>, string, real, nat) -> bool)

  /** The three methods the correction drop-down offers. statsmodels itself accepts
      more names; the pipeline never passes any other. */
  predicate KnownMethod(m: string) {
    m == "fdr_bh" || m == "bonferroni" || m == "holm"
  }

  /** What `fdr` returns: the string 'N.D.' for no p-values, else the corrected array. */
  datatype FdrOutcome = NotDefined | Corrected(values: seq<Probability>)

  /** `fdr`: the 'N.D.' sentinel exactly when there is nothing to correct; statsmodels
      rejects a method it does not know. */
  function Fdr(ps: seq<Probability>, how: string, alpha: real, mt: MultipleTests): (r: Result<FdrOutcome, Failure>)
    ensures r == Ok(NotDefined) <==> |ps| == 0
    ensures r.Err? <==> |ps| > 0 && !KnownMethod(how)
    ensures r.Err? ==> r.error == UnknownMethod(how)
    ensures r.Ok? && r.value.Corrected? ==>
      |r.value.values| == |ps| &&
      forall i :: 0 <= i < |ps| ==> r.value.values[i] == mt.corrected(ps, how, alpha, i)
  {
    if |ps| == 0 then Ok(NotDefined)
    else if !KnownMethod(how) then Err(UnknownMethod(how))
    else
      var corrected := mt.corrected;
      Ok(Corrected(seq(|ps|, i requires 0 <= i < |ps| => corrected(ps, how, alpha, i))))
  }

  /** What `hypothesis_correction` returns: the scalar `False` for no p-values,
      else the reject flags. */
  datatype CorrectionOutcome = NoTests | Rejections(flags: seq<bool>)

  /** `hypothesis_correction`: on an unknown method no branch assigns the result,
      so returning it fails; an empty input never reaches the oracle. */
  function HypothesisCorrection(ps: seq<Probability>, how: string, alpha: real, mt: MultipleTests): (r: Result<CorrectionOutcome, Failure>)
    ensures r == Ok(NoTests) <==> |ps| == 0
    ensures r.Err? <==> |ps| > 0 && !KnownMethod(how)
    ensures r.Err? ==> r.error == UnboundVariable("array_out")
    ensures r.Ok? && r.value.Rejections? ==>
      |r.value.flags| == |ps| &&
      forall i :: 0 <= i < |ps| ==> r.value.flags[i] == mt.reject(ps, how, alpha, i)
  {
    if |ps| == 0 then Ok(NoTests)
    else if KnownMethod(how) then Ok(Rejections(seq(|ps|, i requires 0 <= i < |ps| => mt.reject(ps, how, alpha, i))))
    else Err(UnboundVariable("array_out"))
  }
}
