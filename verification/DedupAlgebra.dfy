/** Deduplication as an algebra: tables merge associatively, and deduplicating twice changes only the sources. */
module DedupAlgebra {
  import opened Schema
  import opened Dedup

  // ---- merging two tables ----

  function AddSources(to: seq<AgentName>, from: seq<AgentName>): seq<AgentName> {
    if from == [] then to else AddSource(AddSources(to, from[..|from| - 1]), from[|from| - 1])
  }

  /** The state of a group whose earlier reports gave `first` and whose later ones gave `second`. */
  function Combine(first: DedupFinding, second: DedupFinding): DedupFinding {
    var promoted :=
      if second.severity.Rank() > first.severity.Rank()
      then first.(severity := second.severity, detail := second.detail)
      else first;
    promoted.(sources := AddSources(first.sources, second.sources))
  }

  function MergeGroup(groups: seq<Group>, g: Group): seq<Group> {
    var i := FindGroup(groups, g.key);
    if i < |groups| then groups[i := Group(g.key, Combine(groups[i].state, g.state))] else groups + [g]
  }

  /** Merge the groups of `second` into `first`, one after the other. */
  function MergeTables(first: seq<Group>, second: seq<Group>): seq<Group> {
    if second == [] then first
    else MergeGroup(MergeTables(first, second[..|second| - 1]), second[|second| - 1])
  }

  ghost predicate HasKey(groups: seq<Group>, key: string) {
    exists i :: 0 <= i < |groups| && groups[i].key == key
  }

  lemma {:induction false} AddSourcesMembers(to: seq<AgentName>, from: seq<AgentName>)
    ensures forall agent :: agent in AddSources(to, from) <==> agent in to || agent in from
  {
    if from != [] {
      AddSourcesMembers(to, from[..|from| - 1]);
      assert forall agent :: agent in from <==> agent in from[..|from| - 1] || agent == from[|from| - 1];
    }
  }

  lemma {:induction false} AddSourcesAssociative(xs: seq<AgentName>, ys: seq<AgentName>, zs: seq<AgentName>)
    ensures AddSources(AddSources(xs, ys), zs) == AddSources(xs, AddSources(ys, zs))
  {
    if zs != [] {
      var front, last := zs[..|zs| - 1], zs[|zs| - 1];
      var more := AddSources(ys, front);
      AddSourcesAssociative(xs, ys, front);
      AddSourcesMembers(xs, more);
      if last !in more {
        assert (more + [last])[..|more|] == more;
      }
    }
  }

  lemma CombineAssociative(x: DedupFinding, y: DedupFinding, z: DedupFinding)
    ensures Combine(Combine(x, y), z) == Combine(x, Combine(y, z))
  {
    AddSourcesAssociative(x.sources, y.sources, z.sources);
  }

  lemma CombineFresh(keying: Keying, state: DedupFinding, r: Report)
    ensures Combine(state, FreshState(keying, r)) == Promote(state, r)
  {
    assert AddSources(state.sources, [r.agent]) == AddSource(AddSources(state.sources, [r.agent][..0]), r.agent);
  }

  lemma FindGroupIs(groups: seq<Group>, key: string, i: nat)
    requires i <= |groups|
    requires i < |groups| ==> groups[i].key == key
    requires forall j | 0 <= j < i :: groups[j].key != key
    ensures FindGroup(groups, key) == i
  {
  }

  lemma MergeFresh(keying: Keying, groups: seq<Group>, r: Report)
    ensures MergeGroup(groups, Group(KeyOf(keying, r.finding), FreshState(keying, r))) == Absorb(keying, groups, r)
  {
    var i := FindGroup(groups, KeyOf(keying, r.finding));
    if i < |groups| {
      CombineFresh(keying, groups[i].state, r);
    }
  }

  lemma MergeSameKey(groups: seq<Group>, g: Group, h: Group)
    requires g.key == h.key
    ensures MergeGroup(MergeGroup(groups, g), h) == MergeGroup(groups, Group(g.key, Combine(g.state, h.state)))
  {
    hide Combine;
    var i := FindGroup(groups, g.key);
    if i < |groups| {
      CombineAssociative(groups[i].state, g.state, h.state);
    }
    FindGroupIs(MergeGroup(groups, g), g.key, i);
  }

  lemma MergeOtherKey(groups: seq<Group>, g: Group, h: Group)
    requires g.key != h.key && HasKey(groups, h.key)
    ensures MergeGroup(MergeGroup(groups, h), g) == MergeGroup(MergeGroup(groups, g), h)
  {
    hide Combine;
    var i, j := FindGroup(groups, h.key), FindGroup(groups, g.key);
    assert i < |groups|;
    FindGroupIs(MergeGroup(groups, g), h.key, i);
    FindGroupIs(MergeGroup(groups, h), g.key, j);
  }

  lemma {:induction false} MergedKeys(first: seq<Group>, second: seq<Group>, key: string)
    requires HasKey(second, key)
    ensures HasKey(MergeTables(first, second), key)
  {
    var k := |second| - 1;
    var before := MergeTables(first, second[..k]);
    var i := FindGroup(before, second[k].key);
    if second[k].key == key {
      assert MergeTables(first, second)[i].key == key;
    } else {
      var j :| 0 <= j < |second| && second[j].key == key;
      assert second[..k][j].key == key;
      MergedKeys(first, second[..k], key);
      var m :| 0 <= m < |before| && before[m].key == key;
      assert MergeTables(first, second)[m].key == key;
    }
  }

  ghost predicate DistinctKeys(groups: seq<Group>) {
    forall i, j | 0 <= i < j < |groups| :: groups[i].key != groups[j].key
  }

  /** Merging one group after a table is the same as merging it into that table first. */
  lemma {:induction false} MergeThenGroup(first: seq<Group>, second: seq<Group>, h: Group)
    requires DistinctKeys(second)
    ensures MergeTables(first, MergeGroup(second, h)) == MergeGroup(MergeTables(first, second), h)
    decreases |second|
  {
    hide Combine, FindGroup, MergeGroup, MergeTables;
    var i := FindGroup(second, h.key);
    if i == |second| {
      MergeNewGroup(second, h);
      MergeOneMore(first, second, h);
    } else {
      var k := |second| - 1;
      var front, g := second[..k], second[k];
      assert second == front + [g];
      FindGroupIs(front, h.key, i);
      MergeGroupAt(second, h, i);
      MergeOneMore(first, front, g);
      if i == k {
        var both := Group(h.key, Combine(g.state, h.state));
        assert MergeGroup(second, h) == front + [both];
        MergeOneMore(first, front, both);
        MergeSameKey(MergeTables(first, front), g, h);
      } else {
        MergeGroupAt(front, h, i);
        assert MergeGroup(second, h) == MergeGroup(front, h) + [g];
        MergeOneMore(first, MergeGroup(front, h), g);
        MergeThenGroup(first, front, h);
        assert front[i].key == h.key;
        MergedKeys(first, front, h.key);
        MergeOtherKey(MergeTables(first, front), g, h);
      }
    }
  }

  lemma MergeOneMore(first: seq<Group>, front: seq<Group>, g: Group)
    ensures MergeTables(first, front + [g]) == MergeGroup(MergeTables(first, front), g)
  {
    assert (front + [g])[..|front|] == front;
  }

  lemma MergeNewGroup(groups: seq<Group>, h: Group)
    requires FindGroup(groups, h.key) == |groups|
    ensures MergeGroup(groups, h) == groups + [h]
  {
  }

  lemma MergeGroupAt(groups: seq<Group>, h: Group, i: nat)
    requires i < |groups| && FindGroup(groups, h.key) == i
    ensures MergeGroup(groups, h) == groups[i := Group(h.key, Combine(groups[i].state, h.state))]
  {
  }

  lemma MergeGroupKeepsKeysDistinct(groups: seq<Group>, g: Group)
    requires DistinctKeys(groups)
    ensures DistinctKeys(MergeGroup(groups, g))
  {
  }

  lemma {:induction false} MergeKeepsKeysDistinct(first: seq<Group>, second: seq<Group>)
    requires DistinctKeys(first)
    ensures DistinctKeys(MergeTables(first, second))
  {
    hide DistinctKeys, MergeGroup;
    if second != [] {
      MergeKeepsKeysDistinct(first, second[..|second| - 1]);
      MergeGroupKeepsKeysDistinct(MergeTables(first, second[..|second| - 1]), second[|second| - 1]);
    }
  }

  lemma {:induction false} MergeAssociative(a: seq<Group>, b: seq<Group>, c: seq<Group>)
    requires DistinctKeys(b)
    ensures MergeTables(MergeTables(a, b), c) == MergeTables(a, MergeTables(b, c))
  {
    hide DistinctKeys, MergeGroup;
    if c != [] {
      var front, last := c[..|c| - 1], c[|c| - 1];
      MergeAssociative(a, b, front);
      MergeKeepsKeysDistinct(b, front);
      MergeThenGroup(a, MergeTables(b, front), last);
    }
  }

  lemma {:induction false} MergeIntoNothing(a: seq<Group>)
    requires DistinctKeys(a)
    ensures MergeTables([], a) == a
  {
    if a != [] {
      var k := |a| - 1;
      MergeIntoNothing(a[..k]);
      FindGroupIs(a[..k], a[k].key, k);
    }
  }

  /** Tables with distinct keys are a monoid under merging: closed, associative, with the empty table as unit. */
  lemma MergeIsMonoid(a: seq<Group>, b: seq<Group>, c: seq<Group>)
    requires DistinctKeys(a) && DistinctKeys(b) && DistinctKeys(c)
    ensures DistinctKeys(MergeTables(a, b))
    ensures MergeTables(MergeTables(a, b), c) == MergeTables(a, MergeTables(b, c))
    ensures MergeTables(a, []) == a
    ensures MergeTables([], a) == a
  {
    MergeKeepsKeysDistinct(a, b);
    MergeAssociative(a, b, c);
    MergeIntoNothing(a);
  }

  lemma TableKeysDistinct(keying: Keying, s: seq<Report>)
    ensures DistinctKeys(Table(keying, s))
  {
    KeysDistinct(keying, s);
  }

  /** Grouping is a homomorphism: the table of a concatenation is the merge of the tables. */
  lemma {:induction false} TableOfConcatenation(keying: Keying, s: seq<Report>, t: seq<Report>)
    ensures Table(keying, s + t) == MergeTables(Table(keying, s), Table(keying, t))
  {
    hide Table, Absorb, MergeGroup, KeyOf, FreshState;
    if t == [] {
      assert s + t == s;
      EmptyTable(keying);
    } else {
      var front, r := t[..|t| - 1], t[|t| - 1];
      assert s + t == (s + front) + [r];
      assert t == front + [r];
      TableOfConcatenation(keying, s, front);
      TableStep(keying, s + front, r);
      TableStep(keying, front, r);
      TableKeysDistinct(keying, front);
      var single := Group(KeyOf(keying, r.finding), FreshState(keying, r));
      MergeFresh(keying, Table(keying, front), r);
      MergeFresh(keying, Table(keying, s + front), r);
      MergeThenGroup(Table(keying, s), Table(keying, front), single);
    }
  }

  lemma EmptyTable(keying: Keying)
    ensures Table(keying, []) == []
  {
  }

  lemma StreamOfOneMore(xs: seq<AgentOutput>, last: AgentOutput)
    ensures Stream(xs + [last]) == Stream(xs) + ReportsOf(last.agent, last.findings)
  {
    assert (xs + [last])[..|xs|] == xs;
  }

  lemma {:induction false} StreamOfConcatenation(xs: seq<AgentOutput>, ys: seq<AgentOutput>)
    ensures Stream(xs + ys) == Stream(xs) + Stream(ys)
  {
    hide Stream, ReportsOf;
    if ys == [] {
      assert xs + ys == xs;
      assert Stream(ys) == [] by { StreamOfNone(); }
    } else {
      var front, last := ys[..|ys| - 1], ys[|ys| - 1];
      assert xs + ys == (xs + front) + [last];
      assert ys == front + [last];
      StreamOfConcatenation(xs, front);
      StreamOfOneMore(xs + front, last);
      StreamOfOneMore(front, last);
    }
  }

  lemma StreamOfNone()
    ensures Stream([]) == []
  {
  }

  /** Any split of the agents can be deduplicated apart and merged: only the concatenated stream matters. */
  lemma DeduplicateInParts(keying: Keying, xs: seq<AgentOutput>, ys: seq<AgentOutput>)
    ensures Deduplicate(keying, xs + ys)
            == BySeverity(States(MergeTables(Table(keying, Stream(xs)), Table(keying, Stream(ys)))))
  {
    StreamOfConcatenation(xs, ys);
    TableOfConcatenation(keying, Stream(xs), Stream(ys));
  }

  // ---- deduplicating what was deduplicated ----

  function AsFinding(d: DedupFinding): Finding {
    Finding(d.severity, d.title, d.detail, d.file, d.line, d.category)
  }

  function AsFindings(ds: seq<DedupFinding>): (fs: seq<Finding>)
    ensures |fs| == |ds|
    ensures forall i | 0 <= i < |ds| :: fs[i] == AsFinding(ds[i])
  {
    seq(|ds|, i requires 0 <= i < |ds| => AsFinding(ds[i]))
  }

  function WithSources(ds: seq<DedupFinding>, sources: seq<AgentName>): (r: seq<DedupFinding>)
    ensures |r| == |ds|
    ensures forall i | 0 <= i < |ds| :: r[i] == ds[i].(sources := sources)
  {
    seq(|ds|, i requires 0 <= i < |ds| => ds[i].(sources := sources))
  }

  /** The identity of each finding is its own, and no two findings share a key. */
  ghost predicate Canonical(keying: Keying, ds: seq<DedupFinding>) {
    && (forall d | d in ds :: d.id == IdOf(FindingKey(keying, AsFinding(d))))
    && (forall i, j | 0 <= i < j < |ds| :: KeyOf(keying, AsFinding(ds[i])) != KeyOf(keying, AsFinding(ds[j])))
  }

  lemma StatesAreCanonical(keying: Keying, s: seq<Report>)
    ensures Canonical(keying, States(Table(keying, s)))
  {
    var groups := Table(keying, s);
    MembersOfKeys(keying, s);
    forall i | 0 <= i < |groups|
      ensures KeyOf(keying, AsFinding(groups[i].state)) == groups[i].key
      ensures groups[i].state.id == IdOf(FindingKey(keying, AsFinding(groups[i].state)))
    {
      var g := Members(keying, s, groups[i].key);
      MembersMeaning(keying, s, groups[i].key);
      assert g[0] in g;
      SameKeyFields(keying, g[0].finding, AsFinding(groups[i].state));
    }
    KeysDistinct(keying, s);
  }

  /** A key depends on the title, the location and the category, and on nothing else. */
  lemma SameKeyFields(keying: Keying, f: Finding, g: Finding)
    requires f.title == g.title && f.file == g.file && f.line == g.line && f.category == g.category
    ensures FindingKey(keying, f) == FindingKey(keying, g)
  {
  }

  lemma {:induction false} ClassIsCanonical(keying: Keying, ds: seq<DedupFinding>, severity: Severity)
    requires Canonical(keying, ds)
    ensures Canonical(keying, OfSeverity(ds, severity))
  {
    if ds != [] {
      var rest := ds[1..];
      assert Canonical(keying, rest) by {
        assert forall i | 0 <= i < |rest| :: rest[i] == ds[i + 1];
      }
      ClassIsCanonical(keying, rest, severity);
      OfSeverityMembers(rest, severity);
      var class_ := OfSeverity(rest, severity);
      forall i | 0 <= i < |class_|
        ensures KeyOf(keying, AsFinding(ds[0])) != KeyOf(keying, AsFinding(class_[i]))
      {
        assert class_[i] in rest;
        var j :| 0 <= j < |rest| && rest[j] == class_[i];
        assert ds[j + 1] == class_[i];
      }
      OfSeverityMembers(ds, severity);
    }
  }

  lemma ClassesDiffer(keying: Keying, ds: seq<DedupFinding>, x: DedupFinding, y: DedupFinding)
    requires Canonical(keying, ds) && x in ds && y in ds && x.severity != y.severity
    ensures KeyOf(keying, AsFinding(x)) != KeyOf(keying, AsFinding(y))
  {
    var i :| 0 <= i < |ds| && ds[i] == x;
    var j :| 0 <= j < |ds| && ds[j] == y;
  }

  lemma AppendCanonical(keying: Keying, xs: seq<DedupFinding>, ys: seq<DedupFinding>)
    requires Canonical(keying, xs) && Canonical(keying, ys)
    requires forall x, y | x in xs && y in ys :: KeyOf(keying, AsFinding(x)) != KeyOf(keying, AsFinding(y))
    ensures Canonical(keying, xs + ys)
  {
    hide KeyOf, FindingKey;
    var ds := xs + ys;
    forall i, j | 0 <= i < j < |ds| ensures KeyOf(keying, AsFinding(ds[i])) != KeyOf(keying, AsFinding(ds[j])) {
      assert ds[i] == (if i < |xs| then xs[i] else ys[i - |xs|]);
      assert ds[j] == (if j < |xs| then xs[j] else ys[j - |xs|]);
    }
  }

  lemma SortedIsCanonical(keying: Keying, ds: seq<DedupFinding>)
    requires Canonical(keying, ds)
    ensures Canonical(keying, BySeverity(ds))
  {
    hide KeyOf, FindingKey, OfSeverity;
    var c, w, i := OfSeverity(ds, Critical), OfSeverity(ds, Warning), OfSeverity(ds, Info);
    ClassIsCanonical(keying, ds, Critical);
    ClassIsCanonical(keying, ds, Warning);
    ClassIsCanonical(keying, ds, Info);
    OfSeverityMembers(ds, Critical);
    OfSeverityMembers(ds, Warning);
    OfSeverityMembers(ds, Info);
    forall x, y | x in ds && y in ds && x.severity != y.severity
      ensures KeyOf(keying, AsFinding(x)) != KeyOf(keying, AsFinding(y))
    {
      ClassesDiffer(keying, ds, x, y);
    }
    AppendCanonical(keying, c, w);
    AppendCanonical(keying, c + w, i);
  }

  /** A stream without repeated keys is grouped report by report. */
  lemma {:induction false} DistinctStreamTable(keying: Keying, s: seq<Report>)
    requires forall i, j | 0 <= i < j < |s| :: KeyOf(keying, s[i].finding) != KeyOf(keying, s[j].finding)
    ensures |Table(keying, s)| == |s|
    ensures forall i | 0 <= i < |s| ::
              Table(keying, s)[i] == Group(KeyOf(keying, s[i].finding), FreshState(keying, s[i]))
  {
    hide Table, KeyOf, FreshState;
    if s == [] {
      EmptyTable(keying);
    } else {
      var front, r := s[..|s| - 1], s[|s| - 1];
      assert s == front + [r];
      DistinctStreamTable(keying, front);
      TableStep(keying, front, r);
      FindGroupIs(Table(keying, front), KeyOf(keying, r.finding), |front|);
    }
  }

  lemma FreshFromCanonical(keying: Keying, d: DedupFinding, agent: AgentName)
    requires d.id == IdOf(FindingKey(keying, AsFinding(d)))
    ensures FreshState(keying, Report(agent, AsFinding(d))) == d.(sources := [agent])
  {
  }

  lemma ReplayedStates(keying: Keying, ds: seq<DedupFinding>, agent: AgentName)
    requires Canonical(keying, ds)
    ensures States(Table(keying, ReportsOf(agent, AsFindings(ds)))) == WithSources(ds, [agent])
  {
    hide Table, KeyOf, FindingKey, IdOf, FreshState;
    var s := ReportsOf(agent, AsFindings(ds));
    DistinctStreamTable(keying, s);
    forall i | 0 <= i < |ds| ensures Table(keying, s)[i].state == WithSources(ds, [agent])[i] {
      assert ds[i] in ds;
      FreshFromCanonical(keying, ds[i], agent);
    }
  }

  lemma ResultIsCanonical(keying: Keying, agents: seq<AgentOutput>)
    ensures Canonical(keying, Deduplicate(keying, agents))
    ensures IsStableDescending(States(Table(keying, Stream(agents))), Deduplicate(keying, agents))
  {
    hide Canonical, IsStableDescending, BySeverity;
    StatesAreCanonical(keying, Stream(agents));
    SortedIsCanonical(keying, States(Table(keying, Stream(agents))));
    StableSortUnique(States(Table(keying, Stream(agents))), Deduplicate(keying, agents));
  }

  /** One agent reporting a deduplicated list gets the same list back, with itself as the only source. */
  lemma DeduplicateTwice(keying: Keying, agents: seq<AgentOutput>, replay: AgentOutput)
    requires replay.findings == AsFindings(Deduplicate(keying, agents))
    ensures Deduplicate(keying, [replay]) == WithSources(Deduplicate(keying, agents), [replay.agent])
  {
    hide Table, Canonical, BySeverity, OfSeverity;
    var ds := Deduplicate(keying, agents);
    ResultIsCanonical(keying, agents);
    StreamOfOne(replay);
    ReplayedStates(keying, ds, replay.agent);
    SortedStaysSorted(ds, WithSources(ds, [replay.agent]));
  }

  lemma StreamOfOne(agent: AgentOutput)
    ensures Stream([agent]) == ReportsOf(agent.agent, agent.findings)
  {
    assert [agent][..0] == [];
    assert Stream([]) == [];
  }

  lemma SortedStaysSorted(ds: seq<DedupFinding>, again: seq<DedupFinding>)
    requires forall i, j | 0 <= i < j < |ds| :: ds[i].severity.Rank() >= ds[j].severity.Rank()
    requires |again| == |ds| && forall i | 0 <= i < |ds| :: again[i].severity == ds[i].severity
    ensures BySeverity(again) == again
  {
    DescendingIsClasses(again);
  }
}
