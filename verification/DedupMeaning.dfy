/**
 What deduplication returns, told from the reports alone: which of them describe the same issue, what is
 said about each issue, and in which order.
 */
module DedupMeaning {
  import opened Wrappers
  import opened Durations
  import opened FindingId
  import opened Schema
  import opened Dedup

  // ---- when two findings describe the same issue ----

  /** The place a finding names: a non-empty file, a positive line, and the category. */
  function LocationOf(f: Finding): Option<(string, u32, Category)> {
    match (f.file, f.line)
    case (Some(file), Some(line)) =>
      if file == "" || line == 0 then None else Some((NormalizePath(file), line, f.category))
    case _ => None
  }

  /** The same place, or no place at all and the same folded title. */
  ghost predicate SameIssue(keying: Keying, f: Finding, g: Finding) {
    && LocationOf(f) == LocationOf(g)
    && (LocationOf(f).None? ==> keying.fold(f.title) == keying.fold(g.title))
  }

  function PayloadOf(f: Finding): string
    requires LocationOf(f).Some?
  {
    Payload(f.file.value, f.line.value, f.category)
  }

  /** Two places whose payloads the first eight bytes of the digest confuse. */
  ghost predicate Collide(keying: Keying, f: Finding, g: Finding) {
    && LocationOf(f).Some? && LocationOf(g).Some?
    && keying.digest(PayloadOf(f))[..8] == keying.digest(PayloadOf(g))[..8]
    && PayloadOf(f) != PayloadOf(g)
  }

  /** The identifier of a place: eight digest bytes in hexadecimal; none without a place. */
  function IdentifierOf(keying: Keying, f: Finding): Option<string> {
    if LocationOf(f).None? then None else Some(Hex(keying.digest(PayloadOf(f))[..8]))
  }

  /** Findings are grouped together exactly when they describe the same issue, collisions apart. */
  lemma SameKeyMeansSameIssue(keying: Keying, f: Finding, g: Finding)
    requires !Collide(keying, f, g)
    ensures KeyOf(keying, f) == KeyOf(keying, g) <==> SameIssue(keying, f, g)
    ensures IdOf(FindingKey(keying, f)) == IdentifierOf(keying, f)
  {
    hide NormalizePath, Payload, Hex, KeyString;
    KeyStringInjective(FindingKey(keying, f), FindingKey(keying, g));
    if LocationOf(f).Some? && LocationOf(g).Some? {
      IdentifierMeaning(keying.digest, f.file.value, f.line.value, f.category,
                        g.file.value, g.line.value, g.category);
      PayloadInjective(f.file.value, f.line.value, f.category, g.file.value, g.line.value, g.category);
    }
  }

  ghost predicate CollisionFree(keying: Keying, s: seq<Report>) {
    forall p, q | 0 <= p < |s| && 0 <= q < |s| :: !Collide(keying, s[p].finding, s[q].finding)
  }

  // ---- where the members of a group are in the stream ----

  function Positions(keying: Keying, s: seq<Report>, key: string): seq<nat> {
    if s == [] then []
    else
      var before := Positions(keying, s[..|s| - 1], key);
      if KeyOf(keying, s[|s| - 1].finding) == key then before + [|s| - 1] else before
  }

  lemma {:induction false} PositionsMeaning(keying: Keying, s: seq<Report>, key: string)
    ensures var at := Positions(keying, s, key);
            var members := Members(keying, s, key);
            && |at| == |members|
            && (forall i | 0 <= i < |at| :: at[i] < |s| && members[i] == s[at[i]] && KeyOf(keying, s[at[i]].finding) == key)
            && (forall i, j | 0 <= i < j < |at| :: at[i] < at[j])
            && (forall q: nat | q < |s| && KeyOf(keying, s[q].finding) == key :: q in at)
  {
    hide KeyOf;
    if s != [] {
      var before := s[..|s| - 1];
      PositionsMeaning(keying, before, key);
      assert forall q: nat | q < |before| :: before[q] == s[q];
    }
  }

  /** The first report of a key that occurs. */
  function FirstAt(keying: Keying, s: seq<Report>, key: string): (p: nat)
    requires key in Keys(keying, s)
    ensures p < |s| && KeyOf(keying, s[p].finding) == key
    ensures forall q: nat | q < p :: KeyOf(keying, s[q].finding) != key
    ensures Members(keying, s, key) != [] && Members(keying, s, key)[0] == s[p]
  {
    hide KeyOf, Members, Keys;
    MembersOfKeys(keying, s);
    PositionsMeaning(keying, s, key);
    var at := Positions(keying, s, key);
    at[0]
  }

  lemma FirstAtUnique(keying: Keying, s: seq<Report>, key: string, p: nat)
    requires key in Keys(keying, s)
    requires p < |s| && KeyOf(keying, s[p].finding) == key
    requires forall q: nat | q < p :: KeyOf(keying, s[q].finding) != key
    ensures FirstAt(keying, s, key) == p
  {
  }

  lemma FirstAtKept(keying: Keying, s: seq<Report>, key: string)
    requires s != [] && key in Keys(keying, s[..|s| - 1])
    ensures key in Keys(keying, s) && FirstAt(keying, s, key) == FirstAt(keying, s[..|s| - 1], key)
  {
    hide KeyOf, FirstAt;
    FirstAtUnique(keying, s, key, FirstAt(keying, s[..|s| - 1], key));
  }

  lemma FirstAtNew(keying: Keying, s: seq<Report>)
    requires s != [] && KeyOf(keying, s[|s| - 1].finding) !in Keys(keying, s[..|s| - 1])
    ensures KeyOf(keying, s[|s| - 1].finding) in Keys(keying, s)
    ensures FirstAt(keying, s, KeyOf(keying, s[|s| - 1].finding)) == |s| - 1
  {
    hide KeyOf, FirstAt;
    var before := s[..|s| - 1];
    KeysDistinct(keying, before);
    assert forall q: nat | q < |before| :: before[q] in before && before[q] == s[q];
    FirstAtUnique(keying, s, KeyOf(keying, s[|s| - 1].finding), |before|);
  }

  /** The keys come in the order in which they are first reported. */
  lemma {:induction false} KeysInOrder(keying: Keying, s: seq<Report>, i: nat, j: nat)
    requires i < j < |Keys(keying, s)|
    ensures FirstAt(keying, s, Keys(keying, s)[i]) < FirstAt(keying, s, Keys(keying, s)[j])
  {
    hide KeyOf, FirstAt;
    if s != [] {
      var before := s[..|s| - 1];
      var earlier := Keys(keying, before);
      FirstAtKept(keying, s, earlier[i]);
      if j < |earlier| {
        KeysInOrder(keying, before, i, j);
        FirstAtKept(keying, s, earlier[j]);
      } else {
        FirstAtNew(keying, s);
      }
    }
  }

  // ---- one group ----

  /** `d` describes the issue first reported at `p`, as the reports of the whole stream call for. */
  ghost predicate Describes(keying: Keying, s: seq<Report>, d: DedupFinding, p: nat) {
    && p < |s|
    // the issue is named as in its first report
    && (forall q: nat | q < p :: !SameIssue(keying, s[q].finding, s[p].finding))
    && d.title == s[p].finding.title && d.file == s[p].finding.file && d.line == s[p].finding.line
    && d.category == s[p].finding.category
    && d.id == IdentifierOf(keying, s[p].finding)
    // severity and detail come from the first report of the highest severity
    && (exists m: nat :: m < |s| && MostSevere(keying, s, p, m) && d.severity == s[m].finding.severity && d.detail == s[m].finding.detail)
    && AreSources(keying, s, p, d.sources)
  }

  /** Exactly the agents that reported the issue, each once, in the order of their first reports. */
  ghost predicate AreSources(keying: Keying, s: seq<Report>, p: nat, sources: seq<AgentName>)
    requires p < |s|
  {
    && (forall agent :: agent in sources <==> exists q: nat :: q < |s| && ReportedBy(keying, s, p, q, agent))
    && (forall i, j | 0 <= i < j < |sources| :: Precedes(keying, s, p, sources[i], sources[j]))
  }

  ghost predicate ReportedBy(keying: Keying, s: seq<Report>, p: nat, q: nat, agent: AgentName)
    requires p < |s| && q < |s|
  {
    SameIssue(keying, s[q].finding, s[p].finding) && s[q].agent == agent
  }

  /** Some report of the issue by `a` comes before every one by `b`. */
  ghost predicate Precedes(keying: Keying, s: seq<Report>, p: nat, a: AgentName, b: AgentName)
    requires p < |s|
  {
    exists q: nat :: q < |s| && ReportedBy(keying, s, p, q, a)
                     && forall k: nat | k < |s| && ReportedBy(keying, s, p, k, b) :: q < k
  }

  ghost predicate MostSevere(keying: Keying, s: seq<Report>, p: nat, m: nat)
    requires p < |s|
  {
    && m < |s| && SameIssue(keying, s[m].finding, s[p].finding)
    && (forall q: nat | q < |s| && SameIssue(keying, s[q].finding, s[p].finding) ::
          s[q].finding.severity.Rank() <= s[m].finding.severity.Rank())
    && (forall q: nat | q < m && SameIssue(keying, s[q].finding, s[p].finding) ::
          s[q].finding.severity.Rank() < s[m].finding.severity.Rank())
  }

  lemma KeysAreIssues(keying: Keying, s: seq<Report>)
    requires CollisionFree(keying, s)
    ensures forall p: nat, q: nat | p < |s| && q < |s| ::
              KeyOf(keying, s[q].finding) == KeyOf(keying, s[p].finding)
              <==> SameIssue(keying, s[q].finding, s[p].finding)
  {
    hide KeyOf, SameIssue;
    forall p: nat, q: nat | p < |s| && q < |s|
      ensures KeyOf(keying, s[q].finding) == KeyOf(keying, s[p].finding)
              <==> SameIssue(keying, s[q].finding, s[p].finding)
    {
      SameKeyMeansSameIssue(keying, s[q].finding, s[p].finding);
    }
  }

  lemma MostSevereMember(keying: Keying, s: seq<Report>, key: string, p: nat)
    requires CollisionFree(keying, s) && key in Keys(keying, s) && p == FirstAt(keying, s, key)
    ensures var g := Members(keying, s, key);
            exists m: nat :: m < |s| && MostSevere(keying, s, p, m) && s[m] == g[FirstReaching(g)]
                             && MaxSeverity(g) == s[m].finding.severity
  {
    hide KeyOf, SameIssue, Keys, FirstAt, Collide, Members, FirstReaching, MaxSeverity;
    KeysAreIssues(keying, s);
    PositionsMeaning(keying, s, key);
    var g, at := Members(keying, s, key), Positions(keying, s, key);
    SeverityAndDetail(g);
    var f := FirstReaching(g);
    forall q: nat | q < |s| && SameIssue(keying, s[q].finding, s[p].finding)
      ensures s[q].finding.severity.Rank() <= MaxSeverity(g).Rank()
      ensures q < at[f] ==> s[q].finding.severity.Rank() < MaxSeverity(g).Rank()
    {
      var i :| 0 <= i < |at| && at[i] == q;
      assert g[i] == s[q] && g[i] in g;
    }
    assert MostSevere(keying, s, p, at[f]);
  }

  lemma {:induction false} FirstReportByIs(g: seq<Report>, agent: AgentName)
    ensures var i := FirstReportBy(g, agent);
            && (i < |g| ==> g[i].agent == agent)
            && (forall j | 0 <= j < i :: g[j].agent != agent)
  {
    if g != [] && g[0].agent != agent {
      FirstReportByIs(g[1..], agent);
      forall j | 0 <= j < FirstReportBy(g, agent) ensures g[j].agent != agent {
        assert j > 0 ==> g[j] == g[1..][j - 1];
      }
    }
  }

  lemma SourcesOfIssue(keying: Keying, s: seq<Report>, key: string, p: nat)
    requires CollisionFree(keying, s) && key in Keys(keying, s) && p == FirstAt(keying, s, key)
    ensures AreSources(keying, s, p, Sources(Members(keying, s, key)))
  {
    hide KeyOf, SameIssue, Keys, FirstAt, Collide, Members, Sources, FirstReportBy;
    KeysAreIssues(keying, s);
    PositionsMeaning(keying, s, key);
    var g, at := Members(keying, s, key), Positions(keying, s, key);
    var sources := Sources(g);
    SourcesMeaning(g);
    forall agent ensures agent in sources <==> exists q: nat :: q < |s| && ReportedBy(keying, s, p, q, agent) {
      FirstReportByIs(g, agent);
      if agent in sources {
        assert ReportedBy(keying, s, p, at[FirstReportBy(g, agent)], agent);
      }
      if q: nat :| q < |s| && ReportedBy(keying, s, p, q, agent) {
        var i :| 0 <= i < |at| && at[i] == q;
        assert g[i].agent == agent;
      }
    }
    forall i, j | 0 <= i < j < |sources| ensures Precedes(keying, s, p, sources[i], sources[j]) {
      FirstReportByIs(g, sources[i]);
      FirstReportByIs(g, sources[j]);
      assert sources[i] in sources && sources[j] in sources;
      var q := at[FirstReportBy(g, sources[i])];
      forall k: nat | k < |s| && ReportedBy(keying, s, p, k, sources[j]) ensures q < k {
        var l :| 0 <= l < |at| && at[l] == k;
        assert g[l].agent == sources[j];
      }
      assert ReportedBy(keying, s, p, q, sources[i]);
    }
  }

  lemma GroupDescribes(keying: Keying, s: seq<Report>, i: nat)
    requires CollisionFree(keying, s) && i < |Table(keying, s)|
    ensures Describes(keying, s, Table(keying, s)[i].state, FirstAt(keying, s, Keys(keying, s)[i]))
  {
    hide KeyOf, SameIssue, FindingKey, Keys, FirstAt, Collide, Members, Sources, MaxSeverity, FirstReaching, MostSevere,
         AreSources;
    var key := Keys(keying, s)[i];
    var p := FirstAt(keying, s, key);
    KeysAreIssues(keying, s);
    MostSevereMember(keying, s, key, p);
    SourcesOfIssue(keying, s, key, p);
    SameKeyMeansSameIssue(keying, s[p].finding, s[p].finding);
    var d, g := Table(keying, s)[i].state, Members(keying, s, key);
    assert d == Summary(keying, g) && g[0] == s[p];
    var m: nat :| m < |s| && MostSevere(keying, s, p, m) && s[m] == g[FirstReaching(g)] && MaxSeverity(g) == s[m].finding.severity;
  }

  // ---- the order of the result ----

  function SeverityPositions(xs: seq<DedupFinding>, severity: Severity): (at: seq<nat>)
    ensures forall i | 0 <= i < |at| :: at[i] < |xs|
  {
    if xs == [] then []
    else
      var before := SeverityPositions(xs[..|xs| - 1], severity);
      if xs[|xs| - 1].severity == severity then before + [|xs| - 1] else before
  }

  lemma OfSeverityOneMore(front: seq<DedupFinding>, last: DedupFinding, severity: Severity)
    ensures OfSeverity(front + [last], severity)
            == if last.severity == severity then OfSeverity(front, severity) + [last] else OfSeverity(front, severity)
  {
    OfSeverityAppend(front, [last], severity);
    OfSeverityCons(last, [], severity);
  }

  lemma {:induction false} SeverityPositionsAt(xs: seq<DedupFinding>, severity: Severity)
    ensures var at, ofSeverity := SeverityPositions(xs, severity), OfSeverity(xs, severity);
            |at| == |ofSeverity| && forall i | 0 <= i < |at| :: ofSeverity[i] == xs[at[i]] && xs[at[i]].severity == severity
  {
    hide OfSeverity;
    if xs == [] {
      NoneOfSeverity([], severity);
    } else {
      var front, last := xs[..|xs| - 1], xs[|xs| - 1];
      SeverityPositionsAt(front, severity);
      assert xs == front + [last];
      OfSeverityOneMore(front, last, severity);
    }
  }

  lemma {:induction false} SeverityPositionsAscend(xs: seq<DedupFinding>, severity: Severity)
    ensures forall i, j | 0 <= i < j < |SeverityPositions(xs, severity)| ::
              SeverityPositions(xs, severity)[i] < SeverityPositions(xs, severity)[j]
    ensures forall k: nat | k < |xs| && xs[k].severity == severity :: k in SeverityPositions(xs, severity)
  {
    if xs != [] {
      var front := xs[..|xs| - 1];
      SeverityPositionsAscend(front, severity);
      var before, at := SeverityPositions(front, severity), SeverityPositions(xs, severity);
      assert at == before || at == before + [|front|];
      forall i, j | 0 <= i < j < |at| ensures at[i] < at[j] {
        assert at[i] == before[i] && before[i] < |front|;
        if j < |before| {
          assert at[j] == before[j];
          assert before[i] < before[j];
        } else {
          assert at[j] == |front|;
        }
      }
    }
  }

  /** Where each element of the sorted sequence was before. */
  function Order(xs: seq<DedupFinding>): seq<nat> {
    SeverityPositions(xs, Critical) + SeverityPositions(xs, Warning) + SeverityPositions(xs, Info)
  }

  /** More severe first, and otherwise in the order of before. */
  ghost predicate SortedFrom(xs: seq<DedupFinding>, ys: seq<DedupFinding>, order: seq<nat>) {
    && |order| == |ys| == |xs|
    && (forall i | 0 <= i < |ys| :: order[i] < |xs| && ys[i] == xs[order[i]])
    && (forall i, j | 0 <= i < j < |ys| ::
          ys[i].severity.Rank() > ys[j].severity.Rank() || (ys[i].severity == ys[j].severity && order[i] < order[j]))
    && (forall k: nat | k < |xs| :: k in order)
  }

  lemma {:induction false} SizesAddUp(xs: seq<DedupFinding>)
    ensures |SeverityPositions(xs, Critical)| + |SeverityPositions(xs, Warning)| + |SeverityPositions(xs, Info)| == |xs|
  {
    if xs != [] {
      SizesAddUp(xs[..|xs| - 1]);
    }
  }

  lemma SortOrder(xs: seq<DedupFinding>)
    ensures SortedFrom(xs, BySeverity(xs), Order(xs))
  {
    hide SeverityPositions, OfSeverity;
    SeverityPositionsAt(xs, Critical);
    SeverityPositionsAt(xs, Warning);
    SeverityPositionsAt(xs, Info);
    SeverityPositionsAscend(xs, Critical);
    SeverityPositionsAscend(xs, Warning);
    SeverityPositionsAscend(xs, Info);
    SizesAddUp(xs);
  }

  /**
   The whole result, from the stream of reports alone. With `firsts` the first report of each issue,
   every entry describes its issue, every report's issue has an entry, and the entries are ordered by
   severity and then by first report.
   */
  ghost predicate IsDigestOf(keying: Keying, s: seq<Report>, result: seq<DedupFinding>, firsts: seq<nat>) {
    && |firsts| == |result|
    && (forall i | 0 <= i < |result| :: Describes(keying, s, result[i], firsts[i]))
    && (forall i, j | 0 <= i < j < |result| ::
          || result[i].severity.Rank() > result[j].severity.Rank()
          || (result[i].severity == result[j].severity && firsts[i] < firsts[j]))
    && (forall q: nat | q < |s| :: EntryFor(keying, s, firsts, q))
  }

  ghost predicate EntryFor(keying: Keying, s: seq<Report>, firsts: seq<nat>, q: nat)
    requires q < |s|
  {
    exists i :: 0 <= i < |firsts| && firsts[i] < |s| && SameIssue(keying, s[q].finding, s[firsts[i]].finding)
  }

  lemma DeduplicateMeaning(keying: Keying, agents: seq<AgentOutput>) returns (firsts: seq<nat>)
    requires CollisionFree(keying, Stream(agents))
    ensures IsDigestOf(keying, Stream(agents), Deduplicate(keying, agents), firsts)
  {
    hide KeyOf, SameIssue, Keys, FirstAt, Collide, Describes, BySeverity, Order, CollisionFree, Table, States, Stream;
    var s := Stream(agents);
    var keys, xs, result := Keys(keying, s), States(Table(keying, s)), Deduplicate(keying, agents);
    var order := Order(xs);
    SortOrder(xs);
    firsts := seq(|order|, i requires 0 <= i < |order| => FirstAt(keying, s, keys[order[i]]));
    forall i | 0 <= i < |result| ensures Describes(keying, s, result[i], firsts[i]) {
      GroupDescribes(keying, s, order[i]);
    }
    forall i, j | 0 <= i < j < |result|
      ensures result[i].severity.Rank() > result[j].severity.Rank()
              || (result[i].severity == result[j].severity && firsts[i] < firsts[j])
    {
      if order[i] < order[j] {
        KeysInOrder(keying, s, order[i], order[j]);
      }
    }
    forall q: nat | q < |s| ensures EntryFor(keying, s, firsts, q) {
      EveryIssueHasEntry(keying, s, order, firsts, q);
    }
  }

  lemma EveryIssueHasEntry(keying: Keying, s: seq<Report>, order: seq<nat>, firsts: seq<nat>, q: nat)
    requires CollisionFree(keying, s) && q < |s| && |firsts| == |order|
    requires forall i | 0 <= i < |order| ::
               order[i] < |Keys(keying, s)| && firsts[i] == FirstAt(keying, s, Keys(keying, s)[order[i]])
    requires forall k: nat | k < |Keys(keying, s)| :: k in order
    ensures EntryFor(keying, s, firsts, q)
  {
    hide KeyOf, SameIssue, Keys, FirstAt, Collide, CollisionFree;
    KeysAreIssues(keying, s);
    KeysDistinct(keying, s);
    assert s[q] in s;
    var k: nat :| k < |Keys(keying, s)| && Keys(keying, s)[k] == KeyOf(keying, s[q].finding);
    assert k in order;
    var i :| 0 <= i < |order| && order[i] == k;
  }
}
