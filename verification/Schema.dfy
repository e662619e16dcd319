/** What an agent reports (src/schema.rs). Confidences are exact reals. */
module Schema {
  import opened Wrappers
  import opened Durations
  import opened FindingId

  datatype Severity = Info | Warning | Critical {
    function Rank(): nat {
      match this
      case Info => 0
      case Warning => 1
      case Critical => 2
    }
  }

  datatype Verdict = Approve | Reject | Conditional {
    function Weight(): real {
      match this
      case Approve => 1.0
      case Reject => -1.0
      case Conditional => 0.5
    }

    /** A conditional approval counts as an approval. */
    function Effective(): Verdict { if this == Reject then Reject else Approve }
  }

  datatype AgentName = Melchior | Balthasar | Caspar

  datatype Finding = Finding(
    severity: Severity,
    title: string,
    detail: string,
    file: Option<string>,
    line: Option<u32>,
    category: Category)

  datatype AgentOutput = AgentOutput(
    agent: AgentName,
    verdict: Verdict,
    confidence: real,
    summary: string,
    reasoning: string,
    findings: seq<Finding>,
    recommendation: string)
}
