/** The three risk levels of a briefing and their stored names. */
module Risk {
  datatype RiskLevel = LOW | MEDIUM | HIGH

  function Name(r: RiskLevel): string
  {
    match r
    case LOW => "LOW"
    case MEDIUM => "MEDIUM"
    case HIGH => "HIGH"
  }

  /** Clamps a stored or reported risk name: "HIGH" and "MEDIUM" are kept, every
      other value becomes LOW (`normalizeRisk`, and the `riskLevel` rule of
      `safeParseAnalysis`). */
  function Normalize(value: string): (r: RiskLevel)
    ensures r == HIGH <==> value == "HIGH"
    ensures r == MEDIUM <==> value == "MEDIUM"
    ensures r == LOW <==> value != "HIGH" && value != "MEDIUM"
  {
    if value == "HIGH" then HIGH
    else if value == "MEDIUM" then MEDIUM
    else LOW
  }

  /** A stored name reads back as the level it names, and normalising is idempotent. */
  lemma NormalizeName(r: RiskLevel, value: string)
    ensures Normalize(Name(r)) == r
    ensures Name(Normalize(value)) == value <==> value == "HIGH" || value == "MEDIUM" || value == "LOW"
  {
  }
}
