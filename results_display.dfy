/**
 * The data-dependent parts of frontend/src/components/ResultsDisplay.js: the
 * severity colour and label derived from `amd_stage`, and the probability
 * distribution, one item per entry of `probabilities` with the entry whose
 * label equals `prediction` highlighted.
 */
module ResultsDisplay {
  import opened Prediction

  const LowColor: string := "#f59e0b"
  const ModerateColor: string := "#f97316"
  const HighColor: string := "#dc2626"
  /** Fill of every distribution bar other than the predicted one. */
  const InactiveFill: string := "#cbd5e1"

  const LowLabel: string := "Low Risk"
  const ModerateLabel: string := "Moderate Risk"
  const HighLabel: string := "High Risk"

  /** The two stage names the renderer recognises. */
  const EarlyStage: string := "Early AMD"
  const IntermediateStage: string := "Intermediate AMD"

  /** The three severity tiers, as a reference for the two if-chains below. */
  datatype Tier = Low | Moderate | High

  function TierOf(amdStage: string): Tier
  {
    if amdStage == EarlyStage then Low
    else if amdStage == IntermediateStage then Moderate
    else High
  }

  function TierColor(t: Tier): string
  {
    match t
    case Low => LowColor
    case Moderate => ModerateColor
    case High => HighColor
  }

  function TierLabel(t: Tier): string
  {
    match t
    case Low => LowLabel
    case Moderate => ModerateLabel
    case High => HighLabel
  }

  /** getStatusColor */
  function StatusColor(amdStage: string): (color: string)
    ensures color == TierColor(TierOf(amdStage))
  {
    if amdStage == EarlyStage then LowColor
    else if amdStage == IntermediateStage then ModerateColor
    else HighColor
  }

  /** getSeverityLevel */
  function SeverityLevel(amdStage: string): (level: string)
    ensures level == TierLabel(TierOf(amdStage))
  {
    if amdStage == EarlyStage then LowLabel
    else if amdStage == IntermediateStage then ModerateLabel
    else HighLabel
  }

  /**
   * The mapping is total, and colour and severity label always belong to the
   * same tier: each determines the other. Every stage other than the two
   * recognised ones is High Risk.
   */
  lemma ColorAndSeverityAgree(s1: string, s2: string)
    ensures SeverityLevel(s1) in {LowLabel, ModerateLabel, HighLabel}
    ensures SeverityLevel(s1) == HighLabel <==> s1 != EarlyStage && s1 != IntermediateStage
    ensures StatusColor(s1) == StatusColor(s2) <==> SeverityLevel(s1) == SeverityLevel(s2)
  {
  }

  /** One bar of the distribution. */
  datatype DistributionItem = DistributionItem(name: string, probability: real, active: bool, fillColor: string)

  /** Object.entries(probabilities).map(...), given the prediction and the status colour. */
  function Items(entries: seq<(string, real)>, prediction: string, statusColor: string): (items: seq<DistributionItem>)
    ensures |items| == |entries|
    ensures forall i :: 0 <= i < |entries| ==>
      && items[i].name == entries[i].0
      && items[i].probability == entries[i].1
      && (items[i].active <==> entries[i].0 == prediction)
      && items[i].fillColor == (if items[i].active then statusColor else InactiveFill)
  {
    if entries == [] then []
    else
      var (lbl, prob) := entries[0];
      var active := lbl == prediction;
      [DistributionItem(lbl, prob, active, if active then statusColor else InactiveFill)]
        + Items(entries[1..], prediction, statusColor)
  }

  /** The probability distribution of a result. */
  function Distribution(result: PredictionRecord): seq<DistributionItem>
  {
    Items(result.probabilities, result.prediction, StatusColor(result.amdStage))
  }

  /** Object keys are distinct, so at most one bar is highlighted. */
  lemma AtMostOneActive(result: PredictionRecord)
    requires DistinctLabels(result.probabilities)
    ensures var items := Distribution(result);
      forall i, j :: 0 <= i < |items| && 0 <= j < |items| && items[i].active && items[j].active ==> i == j
  {
    var items := Distribution(result);
    forall i, j | 0 <= i < |items| && 0 <= j < |items| && items[i].active && items[j].active
      ensures i == j
    {
      assert result.probabilities[i].0 == result.prediction == result.probabilities[j].0;
    }
  }
}
