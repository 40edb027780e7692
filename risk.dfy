/**
 * The risk assessment shown beside the metrics: `risk_analysis` maps a score
 * to a label and a CSS class, `generate_outlook` maps it to a sentence. Both
 * use the same three bands, bounded below (inclusively) by 7 and by 4.
 */
module Risk {

  const HighOutlook :=
    "Economic conditions face significant headwinds. Policy intervention may be needed to stabilize growth and inflation."
  const MediumOutlook :=
    "Economic conditions show mixed signals with moderate risks. Careful monitoring recommended."
  const LowOutlook :=
    "Economic conditions appear favorable with positive outlook for sustained growth and stability."

  /** `risk_analysis(score)`: the label and the CSS class of the band the score falls in. */
  function RiskAnalysis(score: real): (r: (string, string))
    ensures score >= 7.0 <==> r == ("High Risk", "risk-high")
    ensures 4.0 <= score < 7.0 <==> r == ("Medium Risk", "risk-medium")
    ensures score < 4.0 <==> r == ("Low Risk", "risk-low")
  {
    if score >= 7.0 then ("High Risk", "risk-high")
    else if score >= 4.0 then ("Medium Risk", "risk-medium")
    else ("Low Risk", "risk-low")
  }

  /** `generate_outlook(score)`: the narrative sentence of the band the score falls in. */
  function GenerateOutlook(score: real): (s: string)
    ensures score >= 7.0 <==> s == HighOutlook
    ensures 4.0 <= score < 7.0 <==> s == MediumOutlook
    ensures score < 4.0 <==> s == LowOutlook
  {
    if score >= 7.0 then HighOutlook
    else if score >= 4.0 then MediumOutlook
    else LowOutlook
  }

  /** The outlook sentence that belongs with each label. */
  function OutlookForLabel(riskLabel: string): string {
    if riskLabel == "High Risk" then HighOutlook
    else if riskLabel == "Medium Risk" then MediumOutlook
    else LowOutlook
  }

  /**
   * The two functions agree on their bands: the label always comes with its
   * own sentence, and two scores share a label exactly when they share an outlook.
   */
  lemma OutlookMatchesLabel(a: real, b: real)
    ensures GenerateOutlook(a) == OutlookForLabel(RiskAnalysis(a).0)
    ensures RiskAnalysis(a).0 == RiskAnalysis(b).0 <==> GenerateOutlook(a) == GenerateOutlook(b)
  {
  }

  /** Severity rank of a label: 0 low, 1 medium, 2 high. */
  function Severity(riskLabel: string): nat {
    if riskLabel == "High Risk" then 2 else if riskLabel == "Medium Risk" then 1 else 0
  }

  /** A higher score never gives a milder label. */
  lemma RiskMonotone(a: real, b: real)
    requires a <= b
    ensures Severity(RiskAnalysis(a).0) <= Severity(RiskAnalysis(b).0)
  {
  }

  /** The band boundaries: 7.0 is high, 4.0 is medium, anything just below drops a band. */
  lemma RiskBoundaries()
    ensures RiskAnalysis(7.0).0 == "High Risk"
    ensures RiskAnalysis(6.999).0 == "Medium Risk"
    ensures RiskAnalysis(4.0).0 == "Medium Risk"
    ensures RiskAnalysis(3.999).0 == "Low Risk"
    ensures RiskAnalysis(2.0).0 == "Low Risk"
  {
  }
}
