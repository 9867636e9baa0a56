/** The deterministic part of the simulated analysis
    (client/src/lib/ai-analysis.ts): the category and risk level chosen from
    keywords of the description. */
module AiAnalysis {
  import opened Text
  import opened Schema

  /** The category strings "general", "theft", "violent crime" and
      "financial crime". */
  datatype Category = General | Theft | ViolentCrime | FinancialCrime

  datatype RiskLevel = LowRisk | MediumRisk | HighRisk

  datatype Classification = Classification(category: Category, riskLevel: RiskLevel)

  predicate MentionsTheft(d: string) { Includes(d, "theft") || Includes(d, "stolen") }
  predicate MentionsViolence(d: string) { Includes(d, "assault") || Includes(d, "attack") }
  predicate MentionsFraud(d: string) { Includes(d, "fraud") || Includes(d, "scam") }

  /** The if/else chain on the lower-cased description: the first keyword
      group that matches decides. */
  function ClassifyDescription(description: string): (r: Classification)
    ensures r.riskLevel == HighRisk <==> r.category == ViolentCrime
    ensures r.riskLevel == LowRisk <==> r.category == General
    ensures r.category == Theft <==> MentionsTheft(Lower(description))
    ensures r.category == ViolentCrime <==> !MentionsTheft(Lower(description)) && MentionsViolence(Lower(description))
    ensures r.category == FinancialCrime <==>
              !MentionsTheft(Lower(description)) && !MentionsViolence(Lower(description)) && MentionsFraud(Lower(description))
  {
    var d := Lower(description);
    if MentionsTheft(d) then Classification(Theft, MediumRisk)
    else if MentionsViolence(d) then Classification(ViolentCrime, HighRisk)
    else if MentionsFraud(d) then Classification(FinancialCrime, MediumRisk)
    else Classification(General, LowRisk)
  }

  /** `analyzeEvidence` reads nothing of the record but its description. */
  function Classify(e: Evidence): Classification {
    ClassifyDescription(e.data.metadata.description)
  }

  /** Two records whose descriptions agree up to letter case are classified
      alike. */
  lemma ClassifyIgnoresCase(a: Evidence, b: Evidence)
    requires Lower(a.data.metadata.description) == Lower(b.data.metadata.description)
    ensures Classify(a) == Classify(b)
  {
  }

  /** A description mentioning both a theft and an assault is a theft of
      medium risk. */
  lemma TheftBeforeAssault(description: string)
    requires Includes(Lower(description), "theft") && Includes(Lower(description), "assault")
    ensures ClassifyDescription(description) == Classification(Theft, MediumRisk)
  {
  }

  /** A keyword counts in any letter case: a description holding "THEFT",
      "Theft" or any other spelling of it at some position is a theft. */
  lemma UpperCaseKeyword(description: string, i: nat)
    requires i + 5 <= |description| && Lower(description[i..i + 5]) == "theft"
    ensures ClassifyDescription(description) == Classification(Theft, MediumRisk)
  {
    var d := Lower(description);
    assert d[i..i + 5] == Lower(description[i..i + 5]);
    assert OccursAt(d, "theft", i);
  }
}
