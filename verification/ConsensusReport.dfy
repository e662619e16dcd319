/** What the consensus result says, told from the agents alone. */
module ConsensusReport {
  import opened Wrappers
  import opened Text
  import opened Schema
  import opened Dedup
  import opened Tally
  import opened Consensus

  // ---- the confidence, from counts ----

  lemma Regroup(x: real, y: real, n: real)
    ensures 4.0 * n * n * (x * y) == (x * n) * (4.0 * n * y)
  {
  }

  lemma FactorInHalfVotes(q: real, n: nat)
    ensures 4.0 * n as real * WeightFactor(q) == Abs(HalfVotes(q, n)) + 2.0 * n as real
  {
    Spread(2.0 * n as real, Abs(q));
    if q < 0.0 {
      SignOfProduct(-q, 2.0 * n as real);
    } else {
      SignOfProduct(q, 2.0 * n as real);
    }
  }

  lemma Spread(m: real, x: real)
    ensures m * 2.0 * ((x + 1.0) / 2.0) == x * m + m
  {
  }

  lemma SignOfProduct(x: real, m: real)
    requires x >= 0.0 && m >= 0.0
    ensures x * m >= 0.0 && -x * m == -(x * m)
  {
  }

  function AbsInt(x: int): nat { if x < 0 then -x else x }

  /** The unrounded confidence, times `4 n^2`: the side's confidences against the distance from a tie. */
  lemma ConfidenceByCounts(agents: seq<AgentOutput>, side: Verdict)
    requires agents != []
    ensures var a, c, r := VerdictCount(agents, Approve), VerdictCount(agents, Conditional), VerdictCount(agents, Reject);
            var n := |agents|;
            4.0 * n as real * n as real * ExactConfidence(agents, side)
            == SumBy(SideOf(agents, side), (x: AgentOutput) => x.confidence) * (AbsInt(2 * a + c - 2 * r) + 2 * n) as real
  {
    hide VerdictCount, SideConfidence, SideOf, SumBy, Score, WeightFactor, HalfVotes;
    var n := |agents| as real;
    var share, q := SideConfidence(agents, side) / n, Score(agents);
    SideConfidenceIsTheSides(agents, side);
    ScoreInHalfVotes(agents);
    FactorInHalfVotes(q, |agents|);
    QuotientTimes(SideConfidence(agents, side), n);
    Regroup(share, WeightFactor(q), n);
  }

  /**
   The reported confidence is a whole number of cents: the nearest to the exact value, of two the larger,
   and the nearer end of the unit interval for a value outside it.
   */
  lemma ReportedConfidence(keying: Keying, cfg: ConsensusConfig, agents: seq<AgentOutput>)
    requires agents != []
    ensures var result := Synthesize(keying, cfg, agents);
            var exact := ExactConfidence(agents, result.consensusVerdict);
            && result.confidence * 100.0 == (result.confidence * 100.0).Floor as real
            && (0.0 <= exact <= 1.0 ==> exact - 0.005 < result.confidence <= exact + 0.005)
            && (exact <= 0.0 ==> result.confidence == 0.0)
            && (exact >= 1.0 ==> result.confidence == 1.0)
  {
    hide RoundToCents, ClassifyScore, ExactConfidence, Deduplicate, Score, ApproveCount, HasConditional;
    CentsAreWhole(Clamp01(ExactConfidence(agents, Synthesize(keying, cfg, agents).consensusVerdict)));
  }

  /** Two approvals at 0.9 against one rejection report 0.40. */
  lemma TwoToOneAtNinety(keying: Keying, cfg: ConsensusConfig, agents: seq<AgentOutput>)
    requires |agents| == 3 && cfg.epsilon == 0.000000001
    requires agents[0].verdict == agents[1].verdict == Approve && agents[2].verdict == Reject
    requires agents[0].confidence == agents[1].confidence == 0.9
    ensures Synthesize(keying, cfg, agents).confidence == 0.4
  {
    hide RoundToCents, ClassifyScore, ExactConfidence, Deduplicate, Score, HalfVotes;
    SmallTally(agents);
    assert HalfVotes(cfg.epsilon, 3) < 1.0 by { SmallEpsilon(); }
    ConsensusByCounts(keying, cfg, agents);
    ConfidenceByCounts(agents, Approve);
    ReportedConfidence(keying, cfg, agents);
    var exact := ExactConfidence(agents, Approve);
    assert 36.0 * exact == 14.4;
  }

  lemma SmallEpsilon()
    ensures HalfVotes(0.000000001, 3) < 1.0
  {
  }

  lemma OfThree<T>(xs: seq<T>, p: T -> bool)
    requires |xs| == 3
    ensures CountBy(xs, p) == (if p(xs[0]) then 1 else 0) + (if p(xs[1]) then 1 else 0) + (if p(xs[2]) then 1 else 0)
    ensures p(xs[0]) && p(xs[1]) && !p(xs[2]) ==> Select(xs, p) == [xs[0], xs[1]]
  {
    var rest, last := xs[1..], [xs[2]];
    assert rest[1..] == last && last[1..] == [];
    assert CountBy(last, p) == (if p(xs[2]) then 1 else 0);
    assert CountBy(rest, p) == (if p(xs[1]) then 1 else 0) + CountBy(last, p);
    assert Select(last, p) == if p(xs[2]) then last else [];
    assert Select(rest, p) == (if p(xs[1]) then [xs[1]] else []) + Select(last, p);
  }

  lemma SumOfTwo<T>(x: T, y: T, f: T -> real)
    ensures SumBy([x, y], f) == f(x) + f(y)
  {
    assert [x, y][1..] == [y] && [y][1..] == [];
    assert SumBy([y], f) == f(y);
  }

  lemma SmallTally(agents: seq<AgentOutput>)
    requires |agents| == 3 && agents[0].verdict == agents[1].verdict == Approve && agents[2].verdict == Reject
    ensures VerdictCount(agents, Approve) == 2 && VerdictCount(agents, Conditional) == 0 && VerdictCount(agents, Reject) == 1
    ensures SumBy(SideOf(agents, Approve), (x: AgentOutput) => x.confidence) == agents[0].confidence + agents[1].confidence
  {
    hide CountBy, Select, SumBy;
    OfThree(agents, (a: AgentOutput) => a.verdict == Approve);
    OfThree(agents, (a: AgentOutput) => a.verdict == Conditional);
    OfThree(agents, (a: AgentOutput) => a.verdict == Reject);
    OfThree(agents, (a: AgentOutput) => a.verdict.Effective() == Approve);
    SumOfTwo(agents[0], agents[1], (x: AgentOutput) => x.confidence);
    assert VerdictCount(agents, Approve) == 2;
    assert VerdictCount(agents, Conditional) == 0;
    assert VerdictCount(agents, Reject) == 1;
    assert SideOf(agents, Approve) == [agents[0], agents[1]];
  }

  // ---- the lists and maps ----

  /** With distinct names, everything filed under an agent's name is that agent's own. */
  lemma FiledUnderOwnName(keying: Keying, cfg: ConsensusConfig, agents: seq<AgentOutput>)
    requires agents != [] && DistinctNames(agents)
    ensures var r := Synthesize(keying, cfg, agents);
            && r.agentCount == |agents|
            && (forall name :: name in r.votes <==> name in Names(agents))
            && (forall name :: name in r.recommendations <==> name in Names(agents))
            && (forall a | a in agents :: a.agent in r.votes && r.votes[a.agent] == a.verdict)
            && (forall a | a in agents :: a.agent in r.recommendations && r.recommendations[a.agent] == a.recommendation)
  {
    hide ClassifyScore, Deduplicate, Join, ExactConfidence, RoundToCents, Collect, SideOf, DissentersFrom, Score,
         ApproveCount, HasConditional, DistinctNames, Names;
    CollectMeaning(agents, (a: AgentOutput) => a.verdict);
    CollectMeaning(agents, (a: AgentOutput) => a.recommendation);
  }

  lemma {:induction false} SummariesMeaning(agents: seq<AgentOutput>)
    ensures |SummariesOf(agents)| == |agents|
    ensures forall i | 0 <= i < |agents| :: SummariesOf(agents)[i] == DisplayName(agents[i].agent) + ": " + agents[i].summary
  {
    if agents != [] {
      SummariesMeaning(agents[1..]);
    }
  }

  lemma {:induction false} ConditionsMeaning(agents: seq<AgentOutput>)
    ensures var conditional := Select(agents, (a: AgentOutput) => a.verdict == Conditional);
            && |ConditionsOf(agents)| == |conditional|
            && forall i | 0 <= i < |conditional| ::
                 ConditionsOf(agents)[i] == Condition(conditional[i].agent, conditional[i].summary)
  {
    if agents != [] {
      ConditionsMeaning(agents[1..]);
    }
  }

  /**
   The three lists, entry by entry and in input order: the emitted side speaks in the summary, whoever
   differs from it dissents, and conditional voters state conditions, on whichever side they end up.
   */
  lemma ListsSayWhoAndWhat(keying: Keying, cfg: ConsensusConfig, agents: seq<AgentOutput>) returns (spoken: seq<string>)
    requires agents != []
    ensures var r := Synthesize(keying, cfg, agents);
            var side := Select(agents, (a: AgentOutput) => a.verdict.Effective() == r.consensusVerdict);
            var others := Select(agents, (a: AgentOutput) => a.verdict.Effective() != r.consensusVerdict);
            var conditional := Select(agents, (a: AgentOutput) => a.verdict == Conditional);
            && r.emittedSideSummary == Join(spoken, " | ")
            && |spoken| == |side|
            && (forall i | 0 <= i < |side| :: spoken[i] == DisplayName(side[i].agent) + ": " + side[i].summary)
            && |r.dissent| == |others|
            && (forall i | 0 <= i < |others| ::
                  r.dissent[i] == Dissent(others[i].agent, others[i].summary, others[i].reasoning))
            && |r.conditions| == |conditional|
            && (forall i | 0 <= i < |conditional| ::
                  r.conditions[i] == Condition(conditional[i].agent, conditional[i].summary))
  {
    hide ClassifyScore, Deduplicate, Join, ExactConfidence, RoundToCents, Collect, Score, ApproveCount, HasConditional,
         Select, SummariesOf, DissentsOf, ConditionsOf;
    var verdict := Synthesize(keying, cfg, agents).consensusVerdict;
    spoken := SummariesOf(SideOf(agents, verdict));
    SummariesMeaning(SideOf(agents, verdict));
    DissentsMeaning(DissentersFrom(agents, verdict));
    ConditionsMeaning(agents);
  }

  // ---- the label, as printed ----

  /** The text of the label, from `a` approvals, `c` conditionals and `r` rejections. */
  lemma LabelTextByCounts(keying: Keying, cfg: ConsensusConfig, agents: seq<AgentOutput>)
    requires agents != [] && 0.0 < cfg.epsilon && HalfVotes(cfg.epsilon, |agents|) < 1.0
    ensures var a, c, r := VerdictCount(agents, Approve), VerdictCount(agents, Conditional), VerdictCount(agents, Reject);
            Render(Synthesize(keying, cfg, agents).consensus)
            == if 2 * a + c > 2 * r then
                 if c > 0 then "GO WITH CAVEATS (" + Decimal(a + c) + "-" + Decimal(r) + ")"
                 else if r == 0 && a >= 3 then "STRONG GO"
                 else "GO (" + Decimal(a) + "-" + Decimal(r) + ")"
               else if 2 * a + c == 2 * r then "HOLD -- TIE"
               else if a + c == 0 && r >= 3 then "STRONG NO-GO"
               else "HOLD (" + Decimal(r) + "-" + Decimal(a + c) + ")"
  {
    hide Score, VerdictCount, HalfVotes, Decimal, Synthesize;
    ConsensusByCounts(keying, cfg, agents);
  }

  /** The score itself, in half votes. */
  lemma ScoreByCounts(keying: Keying, cfg: ConsensusConfig, agents: seq<AgentOutput>)
    requires agents != []
    ensures Synthesize(keying, cfg, agents).score * (2.0 * |agents| as real)
            == (2 * VerdictCount(agents, Approve) + VerdictCount(agents, Conditional)
                - 2 * VerdictCount(agents, Reject)) as real
  {
    hide Score, VerdictCount, ClassifyScore, Deduplicate, ExactConfidence;
    ScoreInHalfVotes(agents);
  }
}
