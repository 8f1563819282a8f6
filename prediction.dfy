/**
 * Assembly of the prediction record in backend/utils/prediction.py.
 *
 * The network, the softmax and the device handling are foreign; what is kept is
 * what `predict` does with the classifier's per-class probabilities: take the
 * index of the largest one (torch.max over dimension 1), name it through the
 * fixed label table, and build the {prediction, amd_stage, confidence,
 * probabilities} record. Every exception is re-raised with the prefix
 * "Prediction error: ".
 */
module Prediction {
  import opened Wrappers

  /** Number of output classes of the classifier head, and of entries in the label table. */
  const ClassCount: nat := 3

  /** label_mapping: class index to AMD stage label. */
  const LabelMapping: map<nat, string> := map[0 := "Early", 1 := "Intermediate", 2 := "Late"]

  /** The labels the backend can emit. */
  const StageLabels: set<string> := {"Early", "Intermediate", "Late"}

  /** Prefix of the exception text that `predict` re-raises. */
  const ErrorPrefix: string := "Prediction error: "

  /** Per-class probabilities of one image. torch.max raises on an empty row, so a
      classifier result that reaches the record assembly is never empty. */
  type Scores = s: seq<real> | |s| > 0 witness [0.0]

  /** What the foreign inference step (device move, forward pass, softmax, torch.max)
      yields: the text of the exception it raised, or the probability row. */
  datatype Inference = Raised(detail: string) | Output(probabilities: Scores)

  /** The result dictionary; `probabilities` keeps the dictionary's insertion order. */
  datatype PredictionRecord = PredictionRecord(
    prediction: string,
    amdStage: string,
    confidence: real,
    probabilities: seq<(string, real)>)

  /** The index torch.max reports: a largest entry, the first one on ties. */
  function ArgMax(s: seq<real>): (k: nat)
    requires |s| > 0
    ensures k < |s|
    ensures forall j :: 0 <= j < |s| ==> s[j] <= s[k]
    ensures forall j :: 0 <= j < k ==> s[j] < s[k]
  {
    if |s| == 1 then 0
    else
      var k' := ArgMax(s[..|s| - 1]);
      if s[|s| - 1] > s[k'] then |s| - 1 else k'
  }

  function DigitChar(d: nat): (c: char)
    requires d < 10
    ensures '0' <= c <= '9' && c as int - '0' as int == d
  {
    ('0' as int + d) as char
  }

  /** The number a string of decimal digits denotes, read left to right. */
  function DigitsValue(s: string): nat
    requires forall i :: 0 <= i < |s| ==> '0' <= s[i] <= '9'
  {
    if s == [] then 0 else DigitsValue(s[..|s| - 1]) * 10 + (s[|s| - 1] as int - '0' as int)
  }

  /** Python's str() of a non-negative int, which is also str(KeyError(n)): the digits of n, without leading zeros. */
  function DecimalText(n: nat): (s: string)
    ensures 0 < |s|
    ensures forall i :: 0 <= i < |s| ==> '0' <= s[i] <= '9'
    ensures DigitsValue(s) == n
    ensures s[0] != '0' || n == 0
    ensures n < 10 <==> |s| == 1
  {
    if n < 10 then [DigitChar(n)] else DecimalText(n / 10) + [DigitChar(n % 10)]
  }

  /** The label of each probability, in index order: the dict comprehension. */
  function LabelledEntries(probs: seq<real>): seq<(string, real)>
    requires |probs| <= ClassCount
  {
    seq(|probs|, i requires 0 <= i < |probs| => (LabelMapping[i], probs[i]))
  }

  /**
   * The key whose lookup raises KeyError, if any. The dict literal is evaluated
   * entry by entry, so a winning index without a label fails first; otherwise a
   * row longer than the table fails in the comprehension at the first index
   * past the table.
   */
  function MissingKey(probs: Scores): (key: Option<nat>)
    ensures key.None? <==> |probs| <= ClassCount
    ensures key.Some? ==> key.value !in LabelMapping && key.value < |probs|
    ensures key.Some? && ArgMax(probs) !in LabelMapping ==> key.value == ArgMax(probs)
    ensures key.Some? && ArgMax(probs) in LabelMapping ==> key.value == ClassCount
  {
    var k := ArgMax(probs);
    if k !in LabelMapping then Some(k)
    else if |probs| > ClassCount then Some(ClassCount)
    else None
  }

  /** predict(model, image_tensor) after the inference step. */
  function Predict(inference: Inference): (r: Result<PredictionRecord, string>)
    ensures r.Success? <==> inference.Output? && |inference.probabilities| <= ClassCount
    ensures r.Failure? ==> |ErrorPrefix| <= |r.error| && r.error[..|ErrorPrefix|] == ErrorPrefix
    ensures inference.Raised? ==> r == Failure(ErrorPrefix + inference.detail)
    ensures r.Success? ==> r.value.prediction == r.value.amdStage && r.value.prediction in StageLabels
  {
    match inference
    case Raised(detail) => Failure(ErrorPrefix + detail)
    case Output(probs) =>
      match MissingKey(probs)
      case Some(key) => Failure(ErrorPrefix + DecimalText(key))
      case None =>
        var stage := LabelMapping[ArgMax(probs)];
        Success(PredictionRecord(stage, stage, probs[ArgMax(probs)], LabelledEntries(probs)))
  }

  /**
   * A record from `predict`: the label and the confidence are those of the
   * winning index, every probability is kept under its own label, in index
   * order, none exceeds the confidence, and the predicted label is the key of
   * the winning entry.
   */
  lemma RecordOfWinningClass(inference: Inference)
    requires Predict(inference).Success?
    ensures var probs, rec := inference.probabilities, Predict(inference).value;
      var k := ArgMax(probs);
      && rec.prediction == rec.amdStage == LabelMapping[k]
      && rec.confidence == probs[k]
      && |rec.probabilities| == |probs|
      && (forall i :: 0 <= i < |probs| ==> rec.probabilities[i] == (LabelMapping[i], probs[i]))
      && (forall i :: 0 <= i < |probs| ==> rec.probabilities[i].1 <= rec.confidence)
      && rec.probabilities[k].0 == rec.prediction
  {
  }

  /** The labels of a record are pairwise distinct, as dictionary keys are. */
  predicate DistinctLabels(entries: seq<(string, real)>)
  {
    forall i, j :: 0 <= i < j < |entries| ==> entries[i].0 != entries[j].0
  }

  /**
   * The keys of `probabilities` never repeat, so the winning entry is the only
   * one whose key is the predicted label.
   */
  lemma PredictionKeyIsUnique(inference: Inference)
    requires Predict(inference).Success?
    ensures var rec := Predict(inference).value;
      && DistinctLabels(rec.probabilities)
      && forall i :: 0 <= i < |rec.probabilities| ==>
           (rec.probabilities[i].0 == rec.prediction <==> i == ArgMax(inference.probabilities))
  {
    var probs, rec := inference.probabilities, Predict(inference).value;
    RecordOfWinningClass(inference);
    assert forall i, j :: 0 <= i < j < |probs| ==> LabelMapping[i] != LabelMapping[j] by {
      assert LabelMapping[0] != LabelMapping[1] && LabelMapping[1] != LabelMapping[2] && LabelMapping[0] != LabelMapping[2];
    }
  }

  /** With the three-class head, the key set of `probabilities` is exactly the set of stage labels. */
  lemma ThreeClassKeys(probs: Scores)
    requires |probs| == ClassCount
    ensures Predict(Output(probs)).Success?
    ensures var rec := Predict(Output(probs)).value;
      (set i | 0 <= i < |rec.probabilities| :: rec.probabilities[i].0) == StageLabels
  {
    var rec := Predict(Output(probs)).value;
    RecordOfWinningClass(Output(probs));
    var keys := set i | 0 <= i < |rec.probabilities| :: rec.probabilities[i].0;
    assert rec.probabilities[0].0 in keys && rec.probabilities[1].0 in keys && rec.probabilities[2].0 in keys;
    assert keys <= StageLabels;
  }
}
