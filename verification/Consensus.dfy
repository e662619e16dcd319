/** The consensus engine (src/consensus.rs) over exact reals. */
module Consensus {
  import opened Wrappers
  import opened Text
  import opened Schema
  import opened Dedup
  import opened Tally

  datatype ConsensusConfig = ConsensusConfig(minAgents: nat, epsilon: real)

  /** `ConsensusEngine::new` clamps a zero minimum to one. */
  function NewEngine(cfg: ConsensusConfig): (engine: ConsensusConfig)
    ensures engine.minAgents > 0 && engine.epsilon == cfg.epsilon
    ensures cfg.minAgents > 0 ==> engine == cfg
    ensures cfg.minAgents == 0 ==> engine.minAgents == 1
  {
    cfg.(minAgents := if cfg.minAgents == 0 then 1 else cfg.minAgents)
  }

  datatype Label =
    | StrongGo
    | StrongNoGo
    | GoWithCaveats(approving: nat, rejecting: nat)
    | Go(approving: nat, rejecting: nat)
    | Tie
    | Hold(rejecting: nat, approving: nat)

  function Render(caption: Label): string {
    match caption
    case StrongGo => "STRONG GO"
    case StrongNoGo => "STRONG NO-GO"
    case GoWithCaveats(a, r) => "GO WITH CAVEATS (" + Decimal(a) + "-" + Decimal(r) + ")"
    case Go(a, r) => "GO (" + Decimal(a) + "-" + Decimal(r) + ")"
    case Tie => "HOLD -- TIE"
    case Hold(r, a) => "HOLD (" + Decimal(r) + "-" + Decimal(a) + ")"
  }

  function Abs(x: real): real { if x < 0.0 then -x else x }

  /** The order of the tests is the code's. */
  function ClassifyScore(score: real, epsilon: real, approving: nat, rejecting: nat, hasConditional: bool): (Label, Verdict) {
    if Abs(score - 1.0) < epsilon then (StrongGo, Approve)
    else if Abs(score + 1.0) < epsilon then (StrongNoGo, Reject)
    else if score > epsilon && hasConditional then (GoWithCaveats(approving, rejecting), Approve)
    else if score > epsilon then (Go(approving, rejecting), Approve)
    else if Abs(score) < epsilon then (Tie, Reject)
    else (Hold(rejecting, approving), Reject)
  }

  // ---- tallies ----

  predicate HasConditional(agents: seq<AgentOutput>) {
    exists a :: a in agents && a.verdict == Conditional
  }

  function VerdictCount(agents: seq<AgentOutput>, v: Verdict): nat {
    CountBy(agents, (a: AgentOutput) => a.verdict == v)
  }

  function ApproveCount(agents: seq<AgentOutput>): (n: nat)
    ensures n <= |agents|
  {
    CountBy(agents, (a: AgentOutput) => a.verdict.Effective() == Approve)
  }

  function WeightSum(agents: seq<AgentOutput>): real {
    SumBy(agents, (a: AgentOutput) => a.verdict.Weight())
  }

  function Score(agents: seq<AgentOutput>): real
    requires agents != []
  {
    WeightSum(agents) / |agents| as real
  }

  function SideConfidence(agents: seq<AgentOutput>, side: Verdict): real {
    SumBy(agents, (a: AgentOutput) => if a.verdict.Effective() == side then a.confidence else 0.0)
  }

  lemma {:induction false} Tallies(agents: seq<AgentOutput>)
    ensures VerdictCount(agents, Approve) + VerdictCount(agents, Conditional) + VerdictCount(agents, Reject) == |agents|
    ensures ApproveCount(agents) == VerdictCount(agents, Approve) + VerdictCount(agents, Conditional)
    ensures 2.0 * WeightSum(agents)
            == (2 * VerdictCount(agents, Approve) + VerdictCount(agents, Conditional)
                - 2 * VerdictCount(agents, Reject)) as real
    ensures VerdictCount(agents, Conditional) > 0 <==> HasConditional(agents)
  {
    if agents != [] {
      Tallies(agents[1..]);
      assert forall a :: a in agents <==> a == agents[0] || a in agents[1..];
    }
  }

  // ---- classification is integer arithmetic ----

  /** A score counted in half votes of `n` agents. */
  function HalfVotes(score: real, n: nat): real { score * (2.0 * n as real) }

  lemma TimesMonotone(x: real, y: real, m: real)
    requires m > 0.0 && x <= y
    ensures x * m <= y * m
  {
  }

  lemma QuotientTimes(s: real, m: real)
    requires m > 0.0
    ensures s / m * m == s
  {
  }

  lemma HalfVotesMonotone(x: real, y: real, n: nat)
    requires n > 0
    ensures x <= y ==> HalfVotes(x, n) <= HalfVotes(y, n)
    ensures HalfVotes(x, n) == 0.0 ==> x == 0.0
    ensures HalfVotes(0.0, n) == 0.0
  {
    if x <= y {
      TimesMonotone(x, y, 2.0 * n as real);
    }
    if x > 0.0 {
      TimesMonotone(1.0, 2.0 * n as real, x);
    } else if x < 0.0 {
      TimesMonotone(1.0, 2.0 * n as real, -x);
    }
  }

  lemma HalfVotesShift(x: real, n: nat)
    ensures HalfVotes(x - 1.0, n) == HalfVotes(x, n) - 2.0 * n as real
    ensures HalfVotes(x + 1.0, n) == HalfVotes(x, n) + 2.0 * n as real
    ensures HalfVotes(-x, n) == -HalfVotes(x, n)
  {
  }

  /** With an epsilon below half a vote, whole numbers of half votes compare as integers do. */
  lemma IntegerGap(q: real, s: int, n: nat, epsilon: real)
    requires n > 0 && 0.0 < epsilon && HalfVotes(epsilon, n) < 1.0 && HalfVotes(q, n) == s as real
    ensures q > epsilon <==> s > 0
    ensures Abs(q) < epsilon <==> s == 0
  {
    hide HalfVotes;
    HalfVotesShift(q, n);
    HalfVotesMonotone(q, epsilon, n);
    HalfVotesMonotone(-q, epsilon, n);
    HalfVotesMonotone(q, 0.0, n);
    HalfVotesMonotone(0.0, q, n);
    assert s > 0 ==> s as real >= 1.0;
    assert s < 0 ==> s as real <= -1.0;
  }

  /** The score in half votes per agent. */
  lemma ScoreInHalfVotes(agents: seq<AgentOutput>)
    requires agents != []
    ensures HalfVotes(Score(agents), |agents|)
            == (2 * VerdictCount(agents, Approve) + VerdictCount(agents, Conditional)
                - 2 * VerdictCount(agents, Reject)) as real
  {
    hide VerdictCount, WeightSum;
    Tallies(agents);
    QuotientTimes(WeightSum(agents), |agents| as real);
    DoubledProduct(Score(agents), |agents| as real);
  }

  lemma DoubledProduct(q: real, n: real)
    ensures q * (2.0 * n) == 2.0 * (q * n)
  {
  }

  /** The label and verdict that `a` approvals, `c` conditionals and `r` rejections call for. */
  ghost predicate ClassifiedByCounts(classified: (Label, Verdict), a: nat, c: nat, r: nat) {
    var (caption, verdict) := classified;
    && (caption == StrongGo <==> c == 0 && r == 0)
    && (caption == StrongNoGo <==> a == 0 && c == 0)
    && (caption == Tie <==> 2 * a + c == 2 * r)
    && (caption == GoWithCaveats(a + c, r) <==> 2 * a + c > 2 * r && c > 0)
    && (caption == Go(a + c, r) <==> 2 * a + c > 2 * r && c == 0 && r > 0)
    && (caption == Hold(r, a + c) <==> 2 * a + c < 2 * r && a + c > 0)
    && (verdict == Approve <==> 2 * a + c > 2 * r)
    && (verdict == Reject <==> 2 * a + c <= 2 * r)
  }

  /**
   With an epsilon below half a vote, the label is decided by the counts alone: `a` approvals,
   `c` conditionals, `r` rejections.
   */
  lemma ClassificationIsExact(agents: seq<AgentOutput>, epsilon: real)
    requires agents != [] && 0.0 < epsilon && HalfVotes(epsilon, |agents|) < 1.0
    ensures var a, c, r := VerdictCount(agents, Approve), VerdictCount(agents, Conditional), VerdictCount(agents, Reject);
            ClassifiedByCounts(ClassifyScore(Score(agents), epsilon, ApproveCount(agents),
                                             |agents| - ApproveCount(agents), HasConditional(agents)), a, c, r)
  {
    var a, c, r := VerdictCount(agents, Approve), VerdictCount(agents, Conditional), VerdictCount(agents, Reject);
    hide Score, VerdictCount, ApproveCount, ClassifyScore, ClassifiedByCounts, HalfVotes;
    Tallies(agents);
    ScoreInHalfVotes(agents);
    ClassifyByCounts(Score(agents), VerdictCount(agents, Approve), VerdictCount(agents, Conditional),
                     VerdictCount(agents, Reject), |agents|, epsilon);
  }

  lemma ClassifyByCounts(q: real, a: nat, c: nat, r: nat, n: nat, epsilon: real)
    requires a + c + r == n > 0 && 0.0 < epsilon && HalfVotes(epsilon, n) < 1.0
    requires HalfVotes(q, n) == (2 * a + c - 2 * r) as real
    ensures ClassifiedByCounts(ClassifyScore(q, epsilon, a + c, r, c > 0), a, c, r)
  {
    hide ClassifyScore, ClassifiedByCounts, HalfVotes;
    var s: int := 2 * a + c - 2 * r;
    HalfVotesShift(q, n);
    IntegerGap(q, s, n, epsilon);
    IntegerGap(q - 1.0, s - 2 * n, n, epsilon);
    IntegerGap(q + 1.0, s + 2 * n, n, epsilon);
    BranchesByCounts(q, a, c, r, epsilon);
  }

  lemma BranchesByCounts(q: real, a: nat, c: nat, r: nat, epsilon: real)
    requires a + c + r > 0
    requires Abs(q) < epsilon <==> 2 * a + c == 2 * r
    requires q > epsilon <==> 2 * a + c > 2 * r
    requires Abs(q - 1.0) < epsilon <==> c + 4 * r == 0
    requires Abs(q + 1.0) < epsilon <==> 4 * a + 3 * c == 0
    ensures ClassifiedByCounts(ClassifyScore(q, epsilon, a + c, r, c > 0), a, c, r)
  {
  }

  /** The verdict never approves against the count; it rejects against it exactly when conditionals are too weak. */
  lemma VerdictAgainstCount(agents: seq<AgentOutput>, epsilon: real)
    requires agents != [] && 0.0 < epsilon && HalfVotes(epsilon, |agents|) < 1.0
    ensures var a, c, r := VerdictCount(agents, Approve), VerdictCount(agents, Conditional), VerdictCount(agents, Reject);
            var verdict := ClassifyScore(Score(agents), epsilon, ApproveCount(agents),
                                         |agents| - ApproveCount(agents), HasConditional(agents)).1;
            && (verdict == Approve ==> ApproveCount(agents) > r)
            && (verdict == Reject && ApproveCount(agents) > r <==> 2 * a + c <= 2 * r < 2 * a + 2 * c)
  {
    hide ClassifyScore, Score, VerdictCount, ApproveCount, HalfVotes;
    ClassificationIsExact(agents, epsilon);
    Tallies(agents);
  }

  // ---- the verdict for every epsilon ----

  function MinReal(x: real, y: real): real { if x <= y then x else y }

  /** Whatever epsilon the configuration holds, the verdict is a single threshold on the score. */
  lemma VerdictIsThreshold(score: real, epsilon: real, approving: nat, rejecting: nat, hasConditional: bool)
    requires score <= 1.0
    ensures ClassifyScore(score, epsilon, approving, rejecting, hasConditional).1 == Approve
            <==> score > MinReal(epsilon, 1.0 - epsilon)
    ensures epsilon <= 0.5 ==>
              (ClassifyScore(score, epsilon, approving, rejecting, hasConditional).1 == Approve <==> score > epsilon)
  {
  }

  /**
   Every label, by the interval the score lies in. The boundaries are as deliberate as the intervals: a
   score of exactly epsilon is neither above it nor within it, and falls through to a hold.
   */
  lemma LabelIntervals(score: real, epsilon: real, approving: nat, rejecting: nat, hasConditional: bool)
    requires -1.0 <= score <= 1.0 && 0.0 < epsilon <= 0.5
    ensures ClassifyScore(score, epsilon, approving, rejecting, hasConditional)
            == if 1.0 - epsilon < score then (StrongGo, Approve)
               else if epsilon < score then
                 (if hasConditional then GoWithCaveats(approving, rejecting) else Go(approving, rejecting), Approve)
               else if -epsilon < score < epsilon then (Tie, Reject)
               else if score < -1.0 + epsilon then (StrongNoGo, Reject)
               else (Hold(rejecting, approving), Reject)
  {
  }

  lemma {:induction false} WeightSumBounds(agents: seq<AgentOutput>)
    ensures -(|agents| as real) <= WeightSum(agents) <= |agents| as real
  {
    if agents != [] {
      WeightSumBounds(agents[1..]);
    }
  }

  lemma ScoreBounds(agents: seq<AgentOutput>)
    requires agents != []
    ensures -1.0 <= Score(agents) <= 1.0
  {
    WeightSumBounds(agents);
    QuotientBounds(WeightSum(agents), |agents| as real);
  }

  lemma QuotientBounds(s: real, n: real)
    requires n > 0.0 && -n <= s <= n
    ensures -1.0 <= s / n <= 1.0
  {
  }

  lemma {:induction false} HeavierVote(agents: seq<AgentOutput>, i: nat, v: Verdict)
    requires i < |agents| && agents[i].verdict.Weight() <= v.Weight()
    ensures WeightSum(agents) <= WeightSum(agents[i := agents[i].(verdict := v)])
  {
    var raised := agents[i := agents[i].(verdict := v)];
    if i == 0 {
      assert raised[1..] == agents[1..];
    } else {
      assert raised[1..] == agents[1..][i - 1 := agents[i].(verdict := v)];
      HeavierVote(agents[1..], i - 1, v);
    }
  }

  lemma QuotientMonotone(s: real, t: real, n: real)
    requires n > 0.0 && s <= t
    ensures s / n <= t / n
  {
  }

  ghost function EmittedVerdict(agents: seq<AgentOutput>, epsilon: real): Verdict
    requires agents != []
  {
    ClassifyScore(Score(agents), epsilon, ApproveCount(agents), |agents| - ApproveCount(agents),
                  HasConditional(agents)).1
  }

  /** No agent can turn an approval into a rejection by voting more favourably, for any epsilon. */
  lemma VerdictMonotone(agents: seq<AgentOutput>, epsilon: real, i: nat, v: Verdict)
    requires i < |agents| && agents[i].verdict.Weight() <= v.Weight()
    requires EmittedVerdict(agents, epsilon) == Approve
    ensures EmittedVerdict(agents[i := agents[i].(verdict := v)], epsilon) == Approve
  {
    hide ClassifyScore, WeightSum, ApproveCount;
    var raised := agents[i := agents[i].(verdict := v)];
    HeavierVote(agents, i, v);
    QuotientMonotone(WeightSum(agents), WeightSum(raised), |agents| as real);
    EmittedIsThreshold(agents, epsilon);
    EmittedIsThreshold(raised, epsilon);
  }

  lemma EmittedIsThreshold(agents: seq<AgentOutput>, epsilon: real)
    requires agents != []
    ensures EmittedVerdict(agents, epsilon) == Approve <==> Score(agents) > MinReal(epsilon, 1.0 - epsilon)
    ensures EmittedVerdict(agents, epsilon) != Conditional
  {
    hide Score, ApproveCount;
    ScoreBounds(agents);
    VerdictIsThreshold(Score(agents), epsilon, ApproveCount(agents), |agents| - ApproveCount(agents),
                       HasConditional(agents));
  }

  // ---- the result ----

  datatype Dissent = Dissent(agent: AgentName, summary: string, reasoning: string)

  datatype Condition = Condition(agent: AgentName, condition: string)

  /** `emittedSideSummary` is the source's `majority_summary`, under the name its deprecation announces. */
  datatype ConsensusResult = ConsensusResult(
    consensus: Label,
    consensusVerdict: Verdict,
    confidence: real,
    score: real,
    agentCount: nat,
    votes: map<AgentName, Verdict>,
    emittedSideSummary: string,
    dissent: seq<Dissent>,
    findings: seq<DedupFinding>,
    conditions: seq<Condition>,
    recommendations: map<AgentName, string>)

  datatype MagiError = InsufficientAgents(succeeded: nat, required: nat) | DuplicateAgent(agent: AgentName)

  /** Fewer than three agents never earn the word "strong". */
  function CapDegraded(caption: Label, n: nat): Label {
    if n < 3 && caption == StrongGo then Go(n, 0)
    else if n < 3 && caption == StrongNoGo then Hold(n, 0)
    else caption
  }

  /** `f64::round`: halves go away from zero. */
  function Round(x: real): int {
    if x >= 0.0 then (x + 0.5).Floor else -(-x + 0.5).Floor
  }

  function Clamp01(x: real): real {
    if x < 0.0 then 0.0 else if x > 1.0 then 1.0 else x
  }

  function RoundToCents(x: real): real { Round(x * 100.0) as real / 100.0 }

  /** A lone side dilutes over all agents, and a score near zero halves it. */
  function Weighted(share: real, score: real): real { share * WeightFactor(score) }

  function WeightFactor(score: real): real { (Abs(score) + 1.0) / 2.0 }

  function ExactConfidence(agents: seq<AgentOutput>, side: Verdict): real
    requires agents != []
  {
    Weighted(SideConfidence(agents, side) / |agents| as real, Score(agents))
  }

  /** A map from agent to something it reported; a later agent of the same name would win. */
  function Collect<V>(agents: seq<AgentOutput>, f: AgentOutput -> V): map<AgentName, V> {
    if agents == [] then map[]
    else Collect(agents[..|agents| - 1], f)[agents[|agents| - 1].agent := f(agents[|agents| - 1])]
  }

  function Votes(agents: seq<AgentOutput>): map<AgentName, Verdict> {
    Collect(agents, (a: AgentOutput) => a.verdict)
  }

  function Recommendations(agents: seq<AgentOutput>): map<AgentName, string> {
    Collect(agents, (a: AgentOutput) => a.recommendation)
  }

  function DisplayName(name: AgentName): string {
    match name
    case Melchior => "Melchior"
    case Balthasar => "Balthasar"
    case Caspar => "Caspar"
  }

  /** The agents on one side, and the agents who differ from it, in input order. */
  function SideOf(agents: seq<AgentOutput>, side: Verdict): seq<AgentOutput> {
    Select(agents, (a: AgentOutput) => a.verdict.Effective() == side)
  }

  function DissentersFrom(agents: seq<AgentOutput>, side: Verdict): seq<AgentOutput> {
    Select(agents, (a: AgentOutput) => a.verdict.Effective() != side)
  }

  function SummariesOf(agents: seq<AgentOutput>): seq<string> {
    if agents == [] then []
    else [DisplayName(agents[0].agent) + ": " + agents[0].summary] + SummariesOf(agents[1..])
  }

  function DissentsOf(agents: seq<AgentOutput>): seq<Dissent> {
    if agents == [] then []
    else [Dissent(agents[0].agent, agents[0].summary, agents[0].reasoning)] + DissentsOf(agents[1..])
  }

  function ConditionsOf(agents: seq<AgentOutput>): seq<Condition> {
    if agents == [] then []
    else (if agents[0].verdict == Conditional then [Condition(agents[0].agent, agents[0].summary)] else [])
         + ConditionsOf(agents[1..])
  }

  /** The verdict comes from the score; everything attributed to a side follows that verdict. */
  function Synthesize(keying: Keying, cfg: ConsensusConfig, agents: seq<AgentOutput>): ConsensusResult
    requires agents != []
  {
    var score := Score(agents);
    var (caption, verdict) := ClassifyScore(score, cfg.epsilon, ApproveCount(agents),
                                            |agents| - ApproveCount(agents), HasConditional(agents));
    ConsensusResult(CapDegraded(caption, |agents|), verdict,
                    RoundToCents(Clamp01(ExactConfidence(agents, verdict))), score, |agents|,
                    Votes(agents), Join(SummariesOf(SideOf(agents, verdict)), " | "),
                    DissentsOf(DissentersFrom(agents, verdict)),
                    Deduplicate(keying, agents), ConditionsOf(agents), Recommendations(agents))
  }

  // ---- the emitted label, by counts alone ----

  /** The label `a` approvals, `c` conditionals and `r` rejections earn; fewer than three are never "strong". */
  function LabelByCounts(a: nat, c: nat, r: nat): Label {
    if 2 * a + c > 2 * r then
      if c > 0 then GoWithCaveats(a + c, r)
      else if r == 0 && a >= 3 then StrongGo
      else Go(a, r)
    else if 2 * a + c == 2 * r then Tie
    else if a + c == 0 && r >= 3 then StrongNoGo
    else Hold(r, a + c)
  }

  /** With an epsilon below half a vote, the whole run's label and verdict are functions of three counts. */
  lemma ConsensusByCounts(keying: Keying, cfg: ConsensusConfig, agents: seq<AgentOutput>)
    requires agents != [] && 0.0 < cfg.epsilon && HalfVotes(cfg.epsilon, |agents|) < 1.0
    ensures var a, c, r := VerdictCount(agents, Approve), VerdictCount(agents, Conditional), VerdictCount(agents, Reject);
            var result := Synthesize(keying, cfg, agents);
            && result.consensus == LabelByCounts(a, c, r)
            && result.consensusVerdict == (if 2 * a + c > 2 * r then Approve else Reject)
  {
    hide Score, VerdictCount, ApproveCount, HalfVotes, ExactConfidence, Deduplicate;
    ClassificationIsExact(agents, cfg.epsilon);
    Tallies(agents);
  }

  // ---- distinct names ----

  ghost predicate DistinctNames(agents: seq<AgentOutput>) {
    forall i, j | 0 <= i < j < |agents| :: agents[i].agent != agents[j].agent
  }

  function Names(agents: seq<AgentOutput>): set<AgentName> { set a | a in agents :: a.agent }

  lemma NamesOfMore(front: seq<AgentOutput>, last: AgentOutput)
    ensures Names(front + [last]) == Names(front) + {last.agent}
    ensures forall a :: a in front + [last] <==> a in front || a == last
  {
  }

  lemma DistinctFront(agents: seq<AgentOutput>)
    requires agents != []
    ensures agents == agents[..|agents| - 1] + [agents[|agents| - 1]]
    ensures DistinctNames(agents)
            <==> DistinctNames(agents[..|agents| - 1]) && agents[|agents| - 1].agent !in Names(agents[..|agents| - 1])
  {
    var front, last := agents[..|agents| - 1], agents[|agents| - 1];
    if last.agent in Names(front) {
      var i :| 0 <= i < |front| && front[i].agent == last.agent;
      assert agents[i].agent == agents[|agents| - 1].agent;
    } else {
      assert forall i | 0 <= i < |front| :: front[i] in front && front[i].agent in Names(front);
    }
  }

  lemma {:induction false} DistinctIffAllCounted(agents: seq<AgentOutput>)
    ensures |Names(agents)| <= |agents|
    ensures DistinctNames(agents) <==> |Names(agents)| == |agents|
  {
    hide DistinctNames;
    if agents == [] {
      EmptyIsDistinct();
    } else {
      var front, last := agents[..|agents| - 1], agents[|agents| - 1];
      DistinctFront(agents);
      NamesOfMore(front, last);
      DistinctIffAllCounted(front);
      assert last.agent in Names(front) ==> Names(agents) == Names(front);
    }
  }

  lemma EmptyIsDistinct()
    ensures DistinctNames([])
  {
  }

  lemma NoNames()
    ensures Names([]) == {}
  {
  }

  lemma RepeatIsNotDistinct(agents: seq<AgentOutput>, k: nat)
    requires k < |agents| && agents[k].agent in Names(agents[..k])
    ensures !DistinctNames(agents)
  {
    var i :| 0 <= i < k && agents[..k][i].agent == agents[k].agent;
    assert agents[i].agent == agents[k].agent;
  }

  /** Position of the first agent whose name came before, or the number of agents. */
  method FirstRepeat(agents: seq<AgentOutput>) returns (k: nat)
    ensures k <= |agents| && DistinctNames(agents[..k])
    ensures k < |agents| ==> agents[k].agent in Names(agents[..k]) && !DistinctNames(agents)
  {
    hide DistinctNames, Names;
    var seen: set<AgentName> := {};
    EmptyIsDistinct();
    NoNames();
    k := 0;
    while k < |agents|
      invariant k <= |agents|
      invariant seen == Names(agents[..k])
      invariant DistinctNames(agents[..k])
    {
      if agents[k].agent in seen {
        RepeatIsNotDistinct(agents, k);
        return;
      }
      assert agents[..k + 1][..k] == agents[..k];
      DistinctFront(agents[..k + 1]);
      NamesOfMore(agents[..k], agents[k]);
      seen := seen + {agents[k].agent};
      k := k + 1;
    }
  }

  /** Fails on too few agents first, then on the first repeated name. */
  method Determine(keying: Keying, engine: ConsensusConfig, agents: seq<AgentOutput>)
    returns (r: Result<ConsensusResult, MagiError>)
    requires engine.minAgents > 0
    ensures r.Success? <==> |agents| >= engine.minAgents && DistinctNames(agents)
    ensures r.Success? ==> r.value == Synthesize(keying, engine, agents)
    ensures |agents| < engine.minAgents ==> r == Failure(InsufficientAgents(|agents|, engine.minAgents))
    ensures r.Failure? && |agents| >= engine.minAgents ==>
              exists k :: 0 <= k < |agents| && DistinctNames(agents[..k]) && agents[k].agent in Names(agents[..k])
                          && r.error == DuplicateAgent(agents[k].agent)
  {
    hide DistinctNames, Names, ClassifyScore, Score, Deduplicate, Join, CapDegraded, IsStableDescending,
         ExactConfidence, RoundToCents, Clamp01, ApproveCount, HasConditional, Collect, SideOf, DissentersFrom;
    if |agents| < engine.minAgents {
      return Failure(InsufficientAgents(|agents|, engine.minAgents));
    }
    var k := FirstRepeat(agents);
    if k < |agents| {
      return Failure(DuplicateAgent(agents[k].agent));
    }
    assert agents[..|agents|] == agents;
    var score := Score(agents);
    var approving := ApproveCount(agents);
    var (caption, verdict) := ClassifyScore(score, engine.epsilon, approving, |agents| - approving,
                                            HasConditional(agents));
    var confidence := RoundToCents(Clamp01(ExactConfidence(agents, verdict)));
    var findings := DeduplicateFindings(keying, agents);
    r := Success(ConsensusResult(CapDegraded(caption, |agents|), verdict, confidence, score, |agents|,
                                 Votes(agents), Join(SummariesOf(SideOf(agents, verdict)), " | "),
                                 DissentsOf(DissentersFrom(agents, verdict)), findings,
                                 ConditionsOf(agents), Recommendations(agents)));
  }

  // ---- laws of the result ----

  /** With distinct names the map holds exactly what each agent reported. */
  lemma {:induction false} CollectMeaning<V>(agents: seq<AgentOutput>, f: AgentOutput -> V)
    requires DistinctNames(agents)
    ensures forall name :: name in Collect(agents, f) <==> name in Names(agents)
    ensures forall a | a in agents :: a.agent in Collect(agents, f) && Collect(agents, f)[a.agent] == f(a)
  {
    if agents != [] {
      var front, last := agents[..|agents| - 1], agents[|agents| - 1];
      NamesOfMore(front, last);
      DistinctFront(agents);
      CollectMeaning(front, f);
    }
  }

  lemma SamePopulation(xs: seq<AgentOutput>, ys: seq<AgentOutput>)
    requires multiset(xs) == multiset(ys)
    ensures |xs| == |ys| && Names(xs) == Names(ys)
    ensures forall a :: a in xs <==> a in ys
  {
    assert forall a :: a in xs <==> a in multiset(xs);
    assert forall a :: a in ys <==> a in multiset(ys);
    assert |multiset(xs)| == |xs| && |multiset(ys)| == |ys|;
  }

  lemma SameCollection<V>(xs: seq<AgentOutput>, ys: seq<AgentOutput>, f: AgentOutput -> V)
    requires multiset(xs) == multiset(ys) && DistinctNames(xs) && DistinctNames(ys)
    ensures Collect(xs, f) == Collect(ys, f)
  {
    hide Collect, DistinctNames;
    SamePopulation(xs, ys);
    CollectMeaning(xs, f);
    CollectMeaning(ys, f);
    forall name | name in Collect(xs, f) ensures name in Collect(ys, f) && Collect(xs, f)[name] == Collect(ys, f)[name] {
      var a :| a in xs && a.agent == name;
    }
  }

  lemma SameTallies(xs: seq<AgentOutput>, ys: seq<AgentOutput>, side: Verdict)
    requires multiset(xs) == multiset(ys)
    ensures WeightSum(xs) == WeightSum(ys)
    ensures ApproveCount(xs) == ApproveCount(ys)
    ensures SideConfidence(xs, side) == SideConfidence(ys, side)
  {
    PermutedTally(xs, ys, (a: AgentOutput) => a.verdict.Weight(), (a: AgentOutput) => a.verdict.Effective() == Approve);
    PermutedTally(xs, ys, (a: AgentOutput) => if a.verdict.Effective() == side then a.confidence else 0.0, a => true);
  }

  /** The order in which agents answered decides neither success nor anything the verdict reports. */
  lemma DetermineIgnoresOrder(keying: Keying, cfg: ConsensusConfig, xs: seq<AgentOutput>, ys: seq<AgentOutput>)
    requires multiset(xs) == multiset(ys) && xs != []
    ensures |xs| == |ys| && ys != []
    ensures DistinctNames(xs) <==> DistinctNames(ys)
    ensures DistinctNames(xs) ==>
              var a, b := Synthesize(keying, cfg, xs), Synthesize(keying, cfg, ys);
              && a.consensus == b.consensus
              && a.consensusVerdict == b.consensusVerdict
              && a.score == b.score
              && a.confidence == b.confidence
              && a.agentCount == b.agentCount
              && a.votes == b.votes
              && a.recommendations == b.recommendations
  {
    hide WeightSum, ApproveCount, SideConfidence, ClassifyScore, Deduplicate, Collect,
         DistinctNames, RoundToCents, Clamp01, Join, DissentersFrom, SideOf, Weighted;
    SamePopulation(xs, ys);
    DistinctIffAllCounted(xs);
    DistinctIffAllCounted(ys);
    SameTallies(xs, ys, Synthesize(keying, cfg, xs).consensusVerdict);
    if DistinctNames(xs) {
      SameCollection(xs, ys, (a: AgentOutput) => a.verdict);
      SameCollection(xs, ys, (a: AgentOutput) => a.recommendation);
    }
  }

  lemma {:induction false} DissentsMeaning(agents: seq<AgentOutput>)
    ensures |DissentsOf(agents)| == |agents|
    ensures forall i | 0 <= i < |agents| ::
              DissentsOf(agents)[i] == Dissent(agents[i].agent, agents[i].summary, agents[i].reasoning)
  {
    if agents != [] {
      DissentsMeaning(agents[1..]);
    }
  }

  /** Every agent is either on the given side or differs from it, never both. */
  lemma DissentPartition(agents: seq<AgentOutput>, verdict: Verdict)
    ensures multiset(SideOf(agents, verdict)) + multiset(DissentersFrom(agents, verdict)) == multiset(agents)
    ensures |SideOf(agents, verdict)| + |DissentersFrom(agents, verdict)| == |agents|
    ensures forall a :: a in SideOf(agents, verdict) <==> a in agents && a.verdict.Effective() == verdict
    ensures forall a :: a in DissentersFrom(agents, verdict) <==> a in agents && a.verdict.Effective() != verdict
  {
    SelectPartitions(agents, (a: AgentOutput) => a.verdict.Effective() == verdict,
                     (a: AgentOutput) => a.verdict.Effective() != verdict);
    SelectMeaning(agents, (a: AgentOutput) => a.verdict.Effective() == verdict);
    SelectMeaning(agents, (a: AgentOutput) => a.verdict.Effective() != verdict);
  }

  /**
   The report agrees with itself: an agent is listed as dissenting, in its own words, exactly when the
   vote recorded under its name differs from the emitted verdict, and the rest make up the other side.
   */
  lemma DissentMatchesVotes(keying: Keying, cfg: ConsensusConfig, agents: seq<AgentOutput>)
    requires agents != [] && DistinctNames(agents)
    ensures var r := Synthesize(keying, cfg, agents);
            && |r.dissent| + |SideOf(agents, r.consensusVerdict)| == |agents|
            && (forall a | a in agents ::
                  && a.agent in r.votes
                  && (r.votes[a.agent].Effective() != r.consensusVerdict
                      <==> Dissent(a.agent, a.summary, a.reasoning) in r.dissent))
            && forall d | d in r.dissent :: exists a :: a in agents && a.agent == d.agent
  {
    hide ClassifyScore, Score, Deduplicate, Join, CapDegraded, ExactConfidence, RoundToCents, Clamp01, Collect,
         SideOf, DissentersFrom, ApproveCount, HasConditional, DistinctNames, Names;
    var r := Synthesize(keying, cfg, agents);
    var dissenters := DissentersFrom(agents, r.consensusVerdict);
    DissentPartition(agents, r.consensusVerdict);
    DissentsMeaning(dissenters);
    CollectMeaning(agents, (a: AgentOutput) => a.verdict);
    forall a | a in agents
      ensures r.votes[a.agent].Effective() != r.consensusVerdict
              <==> Dissent(a.agent, a.summary, a.reasoning) in r.dissent
    {
      if a in dissenters {
        var i :| 0 <= i < |dissenters| && dissenters[i] == a;
        assert r.dissent[i] == Dissent(a.agent, a.summary, a.reasoning);
      }
      if Dissent(a.agent, a.summary, a.reasoning) in r.dissent {
        var i :| 0 <= i < |r.dissent| && r.dissent[i] == Dissent(a.agent, a.summary, a.reasoning);
        SameName(agents, a, dissenters[i]);
      }
    }
  }

  lemma SameName(agents: seq<AgentOutput>, a: AgentOutput, b: AgentOutput)
    requires DistinctNames(agents) && a in agents && b in agents && a.agent == b.agent
    ensures a == b
  {
  }

  // ---- confidence ----

  /** Half of the share is certain and half of it is in proportion to the distance from a tie. */
  lemma WeightIsAffine(share: real, score: real)
    ensures Weighted(share, score) == share / 2.0 + share * Abs(score) / 2.0
  {
    Distributes(share, Abs(score));
  }

  lemma Distributes(x: real, y: real)
    ensures x * ((y + 1.0) / 2.0) == x / 2.0 + x * y / 2.0
  {
  }

  /** A unanimous score keeps the whole share, a zero score halves it, and nothing leaves that range. */
  lemma WeightMeaning(share: real, score: real)
    requires 0.0 <= share && -1.0 <= score <= 1.0
    ensures Weighted(share, score) == share / 2.0 + share * Abs(score) / 2.0
    ensures Abs(score) == 1.0 ==> Weighted(share, score) == share
    ensures score == 0.0 ==> Weighted(share, score) == share / 2.0
    ensures Weighted(share, -score) == Weighted(share, score)
    ensures 0.0 <= Weighted(share, score) <= share
  {
    hide WeightFactor;
    WeightIsAffine(share, score);
    FactorRange(score);
    PartOf(share, WeightFactor(score));
  }

  lemma FactorRange(score: real)
    requires -1.0 <= score <= 1.0
    ensures 0.5 <= WeightFactor(score) <= 1.0
    ensures Abs(score) == 1.0 ==> WeightFactor(score) == 1.0
    ensures score == 0.0 ==> WeightFactor(score) == 0.5
    ensures WeightFactor(-score) == WeightFactor(score)
  {
  }

  lemma PartOf(x: real, y: real)
    requires 0.0 <= x && 0.0 <= y <= 1.0
    ensures 0.0 <= x * y <= x
    ensures y == 1.0 ==> x * y == x
    ensures y == 0.5 ==> x * y == x / 2.0
  {
  }

  /** What is summed is the confidence of the agents on the side, and of nobody else. */
  lemma SideConfidenceIsTheSides(agents: seq<AgentOutput>, side: Verdict)
    ensures SideConfidence(agents, side) == SumBy(SideOf(agents, side), (a: AgentOutput) => a.confidence)
  {
    SumOfSelection(agents, (a: AgentOutput) => a.verdict.Effective() == side, (a: AgentOutput) => a.confidence,
                   (a: AgentOutput) => if a.verdict.Effective() == side then a.confidence else 0.0);
  }

  /** The nearest whole number, and of two equally near ones the one further from zero. */
  lemma RoundIsNear(x: real)
    ensures x - 0.5 <= Round(x) as real <= x + 0.5
    ensures 0.0 <= x ==> x - 0.5 < Round(x) as real
    ensures x < 0.0 ==> Round(x) as real < x + 0.5
    ensures 0.0 <= x <= 100.0 ==> 0 <= Round(x) <= 100
  {
  }

  lemma CentsAreNear(x: real)
    ensures x - 0.005 <= RoundToCents(x) <= x + 0.005
    ensures 0.0 <= x <= 1.0 ==> 0.0 <= RoundToCents(x) <= 1.0
  {
    RoundIsNear(x * 100.0);
  }

  lemma HundredthsOf(i: int)
    ensures i as real / 100.0 * 100.0 == i as real
  {
  }

  lemma FloorOfWhole(i: int)
    ensures (i as real).Floor == i
  {
  }

  lemma RoundEnds()
    ensures Round(0.0) == 0 && Round(100.0) == 100
  {
    RoundIsNear(0.0);
    RoundIsNear(100.0);
  }

  lemma CentsAreWhole(x: real)
    ensures RoundToCents(x) * 100.0 == (RoundToCents(x) * 100.0).Floor as real
    ensures 0.0 <= x ==> x - 0.005 < RoundToCents(x) <= x + 0.005
    ensures RoundToCents(0.0) == 0.0 && RoundToCents(1.0) == 1.0
  {
    hide Round;
    RoundEnds();
    RoundIsNear(x * 100.0);
    HundredthsOf(Round(x * 100.0));
    FloorOfWhole(Round(x * 100.0));
  }

  lemma {:induction false} SideConfidenceBounds(agents: seq<AgentOutput>, side: Verdict)
    requires forall a | a in agents :: 0.0 <= a.confidence <= 1.0
    ensures 0.0 <= SideConfidence(agents, side) <= |agents| as real
  {
    if agents != [] {
      assert agents[0] in agents;
      SideConfidenceBounds(agents[1..], side);
    }
  }

  lemma ProductInUnit(x: real, y: real)
    requires 0.0 <= x <= 1.0 && 0.0 <= y <= 1.0
    ensures 0.0 <= x * y <= 1.0
  {
    ShareOf(x, y);
  }

  lemma ShareOf(x: real, y: real)
    requires 0.0 <= x <= 1.0 && 0.0 <= y
    ensures 0.0 <= x * y <= y
  {
  }

  /**
   The reported confidence always lies in [0, 1]; when every agent's does, clamping changes nothing and
   the report is within half a cent of the exact value.
   */
  lemma ConfidenceIsFaithful(keying: Keying, cfg: ConsensusConfig, agents: seq<AgentOutput>)
    requires agents != []
    ensures var result := Synthesize(keying, cfg, agents);
            var exact := ExactConfidence(agents, result.consensusVerdict);
            && 0.0 <= result.confidence <= 1.0
            && ((forall a | a in agents :: 0.0 <= a.confidence <= 1.0) ==>
                  && Clamp01(exact) == exact
                  && exact - 0.005 <= result.confidence <= exact + 0.005)
  {
    hide SideConfidence, Score, RoundToCents, ClassifyScore, Deduplicate, WeightFactor;
    var side := Synthesize(keying, cfg, agents).consensusVerdict;
    var exact := ExactConfidence(agents, side);
    CentsAreNear(Clamp01(exact));
    if forall a | a in agents :: 0.0 <= a.confidence <= 1.0 {
      SideConfidenceBounds(agents, side);
      ScoreBounds(agents);
      var share := SideConfidence(agents, side) / |agents| as real;
      QuotientInUnit(SideConfidence(agents, side), |agents| as real);
      FactorRange(Score(agents));
      ProductInUnit(share, WeightFactor(Score(agents)));
    }
  }

  lemma QuotientInUnit(s: real, n: real)
    requires n > 0.0 && 0.0 <= s <= n
    ensures 0.0 <= s / n <= 1.0
  {
  }
}
