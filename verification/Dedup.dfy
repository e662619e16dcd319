/**
 Deduplication of findings (src/consensus.rs). The reference groups the whole stream of reports by
 key; the code folds the reports one by one into a vector of group states.
 */
module Dedup {
  import opened Wrappers
  import opened Durations
  import opened FindingId
  import opened Schema

  /** A finding after deduplication. */
  datatype DedupFinding = DedupFinding(
    severity: Severity,
    title: string,
    detail: string,
    sources: seq<AgentName>,
    file: Option<string>,
    line: Option<u32>,
    category: Category,
    id: Option<string>)

  /** One finding as reported by one agent. */
  datatype Report = Report(agent: AgentName, finding: Finding)

  /** The digest behind identifiers, and the title folding (cleaning, NFKC, case folding). */
  datatype Keying = Keying(digest: Digest, fold: string -> string)

  // ---- keys ----

  datatype DedupKey = Id(hash: string) | Title(folded: string)

  predicate Located(f: Finding) {
    f.file.Some? && f.line.Some? && f.file.value != [] && f.line.value > 0
  }

  function FindingKey(keying: Keying, f: Finding): DedupKey {
    if Located(f) then Id(FindingIdOf(keying.digest, f.file.value, f.line.value, f.category))
    else Title(keying.fold(f.title))
  }

  function KeyString(key: DedupKey): string {
    match key
    case Id(h) => "id:" + h
    case Title(t) => "title:" + t
  }

  function IdOf(key: DedupKey): Option<string> {
    match key
    case Id(h) => Some(h)
    case Title(_) => None
  }

  /** The namespace prefixes keep the two kinds of key apart and lose nothing. */
  lemma KeyStringInjective(k: DedupKey, l: DedupKey)
    ensures KeyString(k) == KeyString(l) <==> k == l
  {
    if KeyString(k) == KeyString(l) {
      assert KeyString(k)[0] == KeyString(l)[0];
      if k.Id? {
        assert k.hash == KeyString(k)[3..] && l.hash == KeyString(l)[3..];
      } else {
        assert k.folded == KeyString(k)[6..] && l.folded == KeyString(l)[6..];
      }
    }
  }

  function KeyOf(keying: Keying, f: Finding): string { KeyString(FindingKey(keying, f)) }

  // ---- the reference: group by key ----

  /** The keys of a stream, in the order they are first seen. */
  function Keys(keying: Keying, s: seq<Report>): seq<string> {
    if s == [] then []
    else
      var before := Keys(keying, s[..|s| - 1]);
      var key := KeyOf(keying, s[|s| - 1].finding);
      if key in before then before else before + [key]
  }

  /** The reports of one group, in stream order. */
  function Members(keying: Keying, s: seq<Report>, key: string): seq<Report> {
    if s == [] then []
    else
      var before := Members(keying, s[..|s| - 1], key);
      if KeyOf(keying, s[|s| - 1].finding) == key then before + [s[|s| - 1]] else before
  }

  lemma {:induction false} MembersOfKeys(keying: Keying, s: seq<Report>)
    ensures forall key :: key in Keys(keying, s) <==> Members(keying, s, key) != []
  {
    if s != [] {
      MembersOfKeys(keying, s[..|s| - 1]);
    }
  }

  /** The highest severity in a group. */
  function MaxSeverity(g: seq<Report>): Severity
    requires g != []
  {
    var last := g[|g| - 1].finding.severity;
    if |g| == 1 then last
    else
      var before := MaxSeverity(g[..|g| - 1]);
      if last.Rank() > before.Rank() then last else before
  }

  /** Position of the first report that reaches the highest severity. */
  function FirstReaching(g: seq<Report>): (i: nat)
    requires g != []
    ensures i < |g|
  {
    if |g| == 1 then 0
    else if g[|g| - 1].finding.severity.Rank() > MaxSeverity(g[..|g| - 1]).Rank() then |g| - 1
    else FirstReaching(g[..|g| - 1])
  }

  function AddSource(sources: seq<AgentName>, agent: AgentName): seq<AgentName> {
    if agent in sources then sources else sources + [agent]
  }

  /** The distinct agents of a group, in the order they first appear. */
  function Sources(g: seq<Report>): seq<AgentName> {
    if g == [] then [] else AddSource(Sources(g[..|g| - 1]), g[|g| - 1].agent)
  }

  function Summary(keying: Keying, g: seq<Report>): DedupFinding
    requires g != []
  {
    var first := g[0].finding;
    DedupFinding(MaxSeverity(g), first.title, g[FirstReaching(g)].finding.detail, Sources(g),
                 first.file, first.line, first.category, IdOf(FindingKey(keying, first)))
  }

  datatype Group = Group(key: string, state: DedupFinding)

  function Table(keying: Keying, s: seq<Report>): (groups: seq<Group>)
    ensures |groups| == |Keys(keying, s)|
    ensures forall i | 0 <= i < |groups| :: groups[i].key == Keys(keying, s)[i]
  {
    MembersOfKeys(keying, s);
    var keys := Keys(keying, s);
    seq(|keys|, i requires 0 <= i < |keys| => Group(keys[i], Summary(keying, Members(keying, s, keys[i]))))
  }

  // ---- what the reference means ----

  lemma {:induction false} KeysDistinct(keying: Keying, s: seq<Report>)
    ensures forall i, j | 0 <= i < j < |Keys(keying, s)| :: Keys(keying, s)[i] != Keys(keying, s)[j]
    ensures forall r | r in s :: KeyOf(keying, r.finding) in Keys(keying, s)
    ensures forall key | key in Keys(keying, s) :: exists r :: r in s && KeyOf(keying, r.finding) == key
  {
    if s != [] {
      var before := s[..|s| - 1];
      KeysDistinct(keying, before);
      forall key | key in Keys(keying, s) ensures exists r :: r in s && KeyOf(keying, r.finding) == key {
        if key in Keys(keying, before) {
          var r :| r in before && KeyOf(keying, r.finding) == key;
          assert r in s;
        } else {
          assert s[|s| - 1] in s;
        }
      }
    }
  }

  /** A group's severity is its maximum, and its detail comes from the first report that reaches it. */
  lemma {:induction false} SeverityAndDetail(g: seq<Report>)
    requires g != []
    ensures forall r | r in g :: r.finding.severity.Rank() <= MaxSeverity(g).Rank()
    ensures g[FirstReaching(g)].finding.severity == MaxSeverity(g)
    ensures forall j | 0 <= j < FirstReaching(g) :: g[j].finding.severity.Rank() < MaxSeverity(g).Rank()
  {
    if |g| > 1 {
      var before := g[..|g| - 1];
      SeverityAndDetail(before);
      forall r | r in g ensures r.finding.severity.Rank() <= MaxSeverity(g).Rank() {
        assert r == g[|g| - 1] || r in before;
      }
      forall j | 0 <= j < FirstReaching(g)
        ensures g[j].finding.severity.Rank() < MaxSeverity(g).Rank()
      {
        assert g[j] == before[j] && before[j] in before;
      }
    }
  }

  function FirstReportBy(g: seq<Report>, agent: AgentName): (i: nat)
    ensures i <= |g|
  {
    if g == [] || g[0].agent == agent then 0 else 1 + FirstReportBy(g[1..], agent)
  }

  lemma {:induction false} FirstReportByAppend(g: seq<Report>, r: Report, agent: AgentName)
    ensures FirstReportBy(g + [r], agent)
            == if FirstReportBy(g, agent) < |g| then FirstReportBy(g, agent)
               else if r.agent == agent then |g| else |g| + 1
  {
    if g == [] {
      assert [r][1..] == [];
    } else if g[0].agent != agent {
      assert (g + [r])[1..] == g[1..] + [r];
      FirstReportByAppend(g[1..], r, agent);
    }
  }

  /** The sources are exactly the reporting agents, each once, ordered by their first report. */
  lemma {:induction false} SourcesMeaning(g: seq<Report>)
    ensures forall agent :: agent in Sources(g) <==> FirstReportBy(g, agent) < |g|
    ensures forall i, j | 0 <= i < j < |Sources(g)| ::
              FirstReportBy(g, Sources(g)[i]) < FirstReportBy(g, Sources(g)[j])
  {
    if g != [] {
      var before := g[..|g| - 1];
      var last := g[|g| - 1];
      assert g == before + [last];
      SourcesMeaning(before);
      forall agent ensures agent in Sources(g) <==> FirstReportBy(g, agent) < |g| {
        FirstReportByAppend(before, last, agent);
      }
      forall i, j | 0 <= i < j < |Sources(g)|
        ensures FirstReportBy(g, Sources(g)[i]) < FirstReportBy(g, Sources(g)[j])
      {
        FirstReportByAppend(before, last, Sources(g)[i]);
        FirstReportByAppend(before, last, Sources(g)[j]);
      }
    }
  }

  lemma {:induction false} MembersMeaning(keying: Keying, s: seq<Report>, key: string)
    ensures forall r :: r in Members(keying, s, key) <==> r in s && KeyOf(keying, r.finding) == key
  {
    if s != [] {
      var before := s[..|s| - 1];
      MembersMeaning(keying, before, key);
      assert forall r :: r in s <==> r in before || r == s[|s| - 1];
    }
  }

  /** Nothing is lost: every report is in exactly one group, which is at least as severe and names its agent. */
  lemma NoReportLost(keying: Keying, s: seq<Report>, r: Report)
    requires r in s
    ensures exists i ::
              && 0 <= i < |Table(keying, s)|
              && Table(keying, s)[i].key == KeyOf(keying, r.finding)
              && r.finding.severity.Rank() <= Table(keying, s)[i].state.severity.Rank()
              && r.agent in Table(keying, s)[i].state.sources
              && forall j | 0 <= j < |Table(keying, s)| && j != i :: Table(keying, s)[j].key != KeyOf(keying, r.finding)
  {
    hide KeyOf, Keys, Members, MaxSeverity, Sources;
    KeysDistinct(keying, s);
    var key := KeyOf(keying, r.finding);
    var i :| 0 <= i < |Keys(keying, s)| && Keys(keying, s)[i] == key;
    var g := Members(keying, s, key);
    MembersMeaning(keying, s, key);
    SeverityAndDetail(g);
    AgentAmongSources(g, r);
    assert Table(keying, s)[i].state == Summary(keying, g);
  }

  lemma {:induction false} AgentAmongSources(g: seq<Report>, r: Report)
    requires r in g
    ensures r.agent in Sources(g)
  {
    if r != g[|g| - 1] {
      assert r in g[..|g| - 1];
      AgentAmongSources(g[..|g| - 1], r);
    }
  }

  function SumOfSizes(keying: Keying, s: seq<Report>, keys: seq<string>): nat {
    if keys == [] then 0
    else SumOfSizes(keying, s, keys[..|keys| - 1]) + |Members(keying, s, keys[|keys| - 1])|
  }

  /** The groups partition the stream: their sizes add up to its length. */
  lemma {:induction false} GroupsPartitionStream(keying: Keying, s: seq<Report>)
    ensures SumOfSizes(keying, s, Keys(keying, s)) == |s|
  {
    if s != [] {
      var before := s[..|s| - 1];
      var key := KeyOf(keying, s[|s| - 1].finding);
      var keys := Keys(keying, before);
      GroupsPartitionStream(keying, before);
      KeysDistinct(keying, before);
      MembersOfKeys(keying, before);
      if key in keys {
        var i :| 0 <= i < |keys| && keys[i] == key;
        SizesGrow(keying, s, keys, i);
      } else {
        SizesSame(keying, s, keys);
        assert (keys + [key])[..|keys|] == keys;
      }
    }
  }

  lemma {:induction false} SizesSame(keying: Keying, s: seq<Report>, keys: seq<string>)
    requires s != [] && KeyOf(keying, s[|s| - 1].finding) !in keys
    ensures SumOfSizes(keying, s, keys) == SumOfSizes(keying, s[..|s| - 1], keys)
  {
    if keys != [] {
      SizesSame(keying, s, keys[..|keys| - 1]);
    }
  }

  lemma {:induction false} SizesGrow(keying: Keying, s: seq<Report>, keys: seq<string>, i: nat)
    requires s != [] && i < |keys| && keys[i] == KeyOf(keying, s[|s| - 1].finding)
    requires forall j, k | 0 <= j < k < |keys| :: keys[j] != keys[k]
    ensures SumOfSizes(keying, s, keys) == SumOfSizes(keying, s[..|s| - 1], keys) + 1
  {
    if i == |keys| - 1 {
      SizesSame(keying, s, keys[..i]);
    } else {
      SizesGrow(keying, s, keys[..|keys| - 1], i);
    }
  }

  /** Located and unlocated findings never meet, and a group has an identifier exactly when all its members are located. */
  lemma GroupIdentity(keying: Keying, s: seq<Report>, i: nat)
    requires i < |Table(keying, s)|
    ensures var group := Table(keying, s)[i];
            var members := Members(keying, s, group.key);
            && members != []
            && (group.state.id.Some? <==> forall r | r in members :: Located(r.finding))
            && (group.state.id.None? <==> forall r | r in members :: !Located(r.finding))
            && (forall r | r in members :: IdOf(FindingKey(keying, r.finding)) == group.state.id)
  {
    var key := Keys(keying, s)[i];
    var members := Members(keying, s, key);
    MembersOfKeys(keying, s);
    MembersMeaning(keying, s, key);
    forall r | r in members ensures FindingKey(keying, r.finding) == FindingKey(keying, members[0].finding) {
      assert members[0] in members;
      KeyStringInjective(FindingKey(keying, r.finding), FindingKey(keying, members[0].finding));
    }
    assert members[0] in members;
  }

  // ---- the fold of the code ----

  /** Index of the first group with this key, or the length. */
  function FindGroup(groups: seq<Group>, key: string): (i: nat)
    ensures i <= |groups|
    ensures i < |groups| ==> groups[i].key == key
    ensures forall j | 0 <= j < i :: groups[j].key != key
  {
    if groups == [] then 0
    else if groups[0].key == key then 0
    else 1 + FindGroup(groups[1..], key)
  }

  function Promote(state: DedupFinding, r: Report): DedupFinding {
    var promoted :=
      if r.finding.severity.Rank() > state.severity.Rank()
      then state.(severity := r.finding.severity, detail := r.finding.detail)
      else state;
    promoted.(sources := AddSource(state.sources, r.agent))
  }

  function FreshState(keying: Keying, r: Report): DedupFinding {
    var f := r.finding;
    DedupFinding(f.severity, f.title, f.detail, [r.agent], f.file, f.line, f.category, IdOf(FindingKey(keying, f)))
  }

  function Absorb(keying: Keying, groups: seq<Group>, r: Report): seq<Group> {
    var key := KeyOf(keying, r.finding);
    var i := FindGroup(groups, key);
    if i < |groups| then groups[i := Group(key, Promote(groups[i].state, r))]
    else groups + [Group(key, FreshState(keying, r))]
  }

  lemma SummaryOfOne(keying: Keying, r: Report)
    ensures Summary(keying, [r]) == FreshState(keying, r)
  {
    assert Sources([r]) == AddSource(Sources([r][..0]), r.agent);
  }

  lemma SummaryOfMore(keying: Keying, g: seq<Report>, r: Report)
    requires g != []
    ensures Summary(keying, g + [r]) == Promote(Summary(keying, g), r)
  {
    assert (g + [r])[..|g|] == g;
  }

  /** What one more report does to the keys and to the groups. */
  lemma OneMoreReport(keying: Keying, s: seq<Report>, r: Report)
    ensures var key := KeyOf(keying, r.finding);
            && Keys(keying, s + [r])
               == (if key in Keys(keying, s) then Keys(keying, s) else Keys(keying, s) + [key])
            && forall k :: Members(keying, s + [r], k)
                           == if k == key then Members(keying, s, k) + [r] else Members(keying, s, k)
  {
    assert (s + [r])[..|s|] == s;
  }

  lemma FindInTable(keying: Keying, s: seq<Report>, key: string)
    ensures FindGroup(Table(keying, s), key) < |Keys(keying, s)| <==> key in Keys(keying, s)
  {
    var keys := Keys(keying, s);
    if key in keys {
      var i :| 0 <= i < |keys| && keys[i] == key;
      assert Table(keying, s)[i].key == key;
    }
  }

  /** One step of the fold is one more report in the reference. */
  lemma TableStep(keying: Keying, s: seq<Report>, r: Report)
    ensures Table(keying, s + [r]) == Absorb(keying, Table(keying, s), r)
  {
    hide KeyOf, Summary, Members, Keys;
    var key := KeyOf(keying, r.finding);
    OneMoreReport(keying, s, r);
    FindInTable(keying, s, key);
    MembersOfKeys(keying, s);
    KeysDistinct(keying, s);
    if key in Keys(keying, s) {
      SummaryOfMore(keying, Members(keying, s, key), r);
    } else {
      SummaryOfOne(keying, r);
      assert Members(keying, s + [r], key) == [r];
    }
  }

  lemma FoldStep(keying: Keying, before: seq<Report>, reports: seq<Report>, f: nat, groups: seq<Group>)
    requires f < |reports| && groups == Table(keying, before + reports[..f])
    ensures Absorb(keying, groups, reports[f]) == Table(keying, before + reports[..f + 1])
  {
    hide Table, Absorb;
    TableStep(keying, before + reports[..f], reports[f]);
    assert before + reports[..f] + [reports[f]] == before + reports[..f + 1];
  }

  // ---- the stable sort ----

  function OfSeverity(xs: seq<DedupFinding>, severity: Severity): seq<DedupFinding> {
    if xs == [] then []
    else (if xs[0].severity == severity then [xs[0]] else []) + OfSeverity(xs[1..], severity)
  }

  /** The contract of the library's stable sort with the reversed severity as key. */
  ghost predicate IsStableDescending(xs: seq<DedupFinding>, ys: seq<DedupFinding>) {
    && (forall i, j | 0 <= i < j < |ys| :: ys[i].severity.Rank() >= ys[j].severity.Rank())
    && (forall severity :: OfSeverity(ys, severity) == OfSeverity(xs, severity))
  }

  function BySeverity(xs: seq<DedupFinding>): seq<DedupFinding> {
    OfSeverity(xs, Critical) + OfSeverity(xs, Warning) + OfSeverity(xs, Info)
  }

  lemma {:induction false} OfSeverityAppend(xs: seq<DedupFinding>, ys: seq<DedupFinding>, severity: Severity)
    ensures OfSeverity(xs + ys, severity) == OfSeverity(xs, severity) + OfSeverity(ys, severity)
  {
    if xs == [] {
      assert xs + ys == ys;
    } else {
      var head := if xs[0].severity == severity then [xs[0]] else [];
      assert (xs + ys)[1..] == xs[1..] + ys;
      OfSeverityAppend(xs[1..], ys, severity);
      assert OfSeverity(xs + ys, severity) == head + (OfSeverity(xs[1..], severity) + OfSeverity(ys, severity));
    }
  }

  lemma {:induction false} OfSeverityMembers(xs: seq<DedupFinding>, severity: Severity)
    ensures forall x :: x in OfSeverity(xs, severity) <==> x in xs && x.severity == severity
  {
    if xs != [] {
      OfSeverityMembers(xs[1..], severity);
      assert forall x :: x in xs <==> x == xs[0] || x in xs[1..];
    }
  }

  lemma {:induction false} OfSeverityUniform(xs: seq<DedupFinding>, severity: Severity, wanted: Severity)
    requires forall x | x in xs :: x.severity == severity
    ensures OfSeverity(xs, wanted) == if wanted == severity then xs else []
  {
    if xs != [] {
      assert xs[0] in xs;
      OfSeverityUniform(xs[1..], severity, wanted);
    }
  }

  lemma OfSeverityCons(y: DedupFinding, rest: seq<DedupFinding>, severity: Severity)
    ensures OfSeverity([y] + rest, severity)
            == (if y.severity == severity then [y] + OfSeverity(rest, severity) else OfSeverity(rest, severity))
  {
    assert ([y] + rest)[1..] == rest;
  }

  /** An element at least as severe as the rest goes to the front. */
  lemma HeadStaysFirst(y: DedupFinding, rest: seq<DedupFinding>)
    requires forall x | x in rest :: y.severity.Rank() >= x.severity.Rank()
    ensures BySeverity([y] + rest) == [y] + BySeverity(rest)
  {
    hide OfSeverity;
    OfSeverityCons(y, rest, Critical);
    OfSeverityCons(y, rest, Warning);
    OfSeverityCons(y, rest, Info);
    if y.severity != Critical {
      NoneOfSeverity(rest, Critical);
    }
    if y.severity == Info {
      NoneOfSeverity(rest, Warning);
    }
  }

  /** A descending sequence is the concatenation of its three severity classes. */
  lemma {:induction false} DescendingIsClasses(ys: seq<DedupFinding>)
    requires forall i, j | 0 <= i < j < |ys| :: ys[i].severity.Rank() >= ys[j].severity.Rank()
    ensures ys == BySeverity(ys)
  {
    if ys != [] {
      var rest := ys[1..];
      assert forall i | 0 <= i < |rest| :: rest[i] == ys[i + 1];
      DescendingIsClasses(rest);
      HeadStaysFirst(ys[0], rest);
      assert ys == [ys[0]] + rest;
    }
  }

  lemma {:induction false} NoneOfSeverity(xs: seq<DedupFinding>, severity: Severity)
    requires forall x | x in xs :: x.severity != severity
    ensures OfSeverity(xs, severity) == []
  {
    if xs != [] {
      assert xs[0] in xs;
      NoneOfSeverity(xs[1..], severity);
    }
  }

  lemma ClassesDescend(xs: seq<DedupFinding>)
    ensures forall i, j | 0 <= i < j < |BySeverity(xs)| ::
              BySeverity(xs)[i].severity.Rank() >= BySeverity(xs)[j].severity.Rank()
  {
    hide OfSeverity;
    var c, w, n := OfSeverity(xs, Critical), OfSeverity(xs, Warning), OfSeverity(xs, Info);
    OfSeverityMembers(xs, Critical);
    OfSeverityMembers(xs, Warning);
    OfSeverityMembers(xs, Info);
    assert forall i | 0 <= i < |c| :: c[i] in c;
    assert forall i | 0 <= i < |w| :: w[i] in w;
    assert forall i | 0 <= i < |n| :: n[i] in n;
  }

  lemma ClassesKept(xs: seq<DedupFinding>, severity: Severity)
    ensures OfSeverity(BySeverity(xs), severity) == OfSeverity(xs, severity)
  {
    hide OfSeverity;
    var c, w, n := OfSeverity(xs, Critical), OfSeverity(xs, Warning), OfSeverity(xs, Info);
    OfSeverityMembers(xs, Critical);
    OfSeverityMembers(xs, Warning);
    OfSeverityMembers(xs, Info);
    OfSeverityAppend(c + w, n, severity);
    OfSeverityAppend(c, w, severity);
    OfSeverityUniform(c, Critical, severity);
    OfSeverityUniform(w, Warning, severity);
    OfSeverityUniform(n, Info, severity);
  }

  /** The specification of the sort has exactly one solution, and it is `BySeverity`. */
  lemma StableSortUnique(xs: seq<DedupFinding>, ys: seq<DedupFinding>)
    ensures IsStableDescending(xs, ys) <==> ys == BySeverity(xs)
  {
    hide OfSeverity;
    if IsStableDescending(xs, ys) {
      DescendingIsClasses(ys);
      assert BySeverity(ys) == BySeverity(xs);
    }
    ClassesDescend(xs);
    forall severity ensures OfSeverity(BySeverity(xs), severity) == OfSeverity(xs, severity) {
      ClassesKept(xs, severity);
    }
  }

  // ---- the whole deduplication ----

  function ReportsOf(agent: AgentName, findings: seq<Finding>): (s: seq<Report>)
    ensures |s| == |findings|
    ensures forall i | 0 <= i < |s| :: s[i] == Report(agent, findings[i])
  {
    seq(|findings|, i requires 0 <= i < |findings| => Report(agent, findings[i]))
  }

  function Stream(agents: seq<AgentOutput>): seq<Report> {
    if agents == [] then []
    else
      var last := agents[|agents| - 1];
      Stream(agents[..|agents| - 1]) + ReportsOf(last.agent, last.findings)
  }

  function States(groups: seq<Group>): (states: seq<DedupFinding>)
    ensures |states| == |groups|
    ensures forall i | 0 <= i < |groups| :: states[i] == groups[i].state
  {
    seq(|groups|, i requires 0 <= i < |groups| => groups[i].state)
  }

  function Deduplicate(keying: Keying, agents: seq<AgentOutput>): seq<DedupFinding> {
    BySeverity(States(Table(keying, Stream(agents))))
  }

  method DeduplicateFindings(keying: Keying, agents: seq<AgentOutput>) returns (result: seq<DedupFinding>)
    ensures result == Deduplicate(keying, agents)
    ensures IsStableDescending(States(Table(keying, Stream(agents))), result)
  {
    hide Table, FindingKey, KeyString, IdOf, BySeverity, IsStableDescending;
    var groups: seq<Group> := [];
    assert Table(keying, Stream([])) == [];
    for a := 0 to |agents|
      invariant groups == Table(keying, Stream(agents[..a]))
    {
      var agent := agents[a];
      ghost var before := Stream(agents[..a]);
      ghost var reports := ReportsOf(agent.agent, agent.findings);
      assert before + reports[..0] == before;
      for f := 0 to |agent.findings|
        invariant groups == Table(keying, before + reports[..f])
      {
        var finding := agent.findings[f];
        ghost var was := groups;
        var key := FindingKey(keying, finding);
        var keyString := KeyString(key);
        var i := FindGroup(groups, keyString);
        if i < |groups| {
          var state := groups[i].state;
          if finding.severity.Rank() > state.severity.Rank() {
            state := state.(severity := finding.severity, detail := finding.detail);
          }
          if agent.agent !in state.sources {
            state := state.(sources := state.sources + [agent.agent]);
          }
          groups := groups[i := Group(keyString, state)];
        } else {
          groups := groups + [Group(keyString,
                                    DedupFinding(finding.severity, finding.title, finding.detail, [agent.agent],
                                                 finding.file, finding.line, finding.category, IdOf(key)))];
        }
        assert groups == Absorb(keying, was, reports[f]);
        FoldStep(keying, before, reports, f, was);
      }
      assert before + reports[..|agent.findings|] == before + reports;
      assert agents[..a + 1][..a] == agents[..a];
    }
    assert agents[..|agents|] == agents;
    result := BySeverity(States(groups));
    StableSortUnique(States(groups), result);
  }
}
