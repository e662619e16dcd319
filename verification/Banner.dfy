/** The fixed-width verdict banner (src/reporting.rs). */
module Banner {
  import opened Wrappers
  import opened Durations
  import opened Text
  import opened Schema
  import opened Consensus
  import opened Utf8

  const MIN_BANNER_WIDTH := 8
  const ELLIPSIS := "..."

  /** Total width of a line in bytes, and the display name and title of each agent that overrides them. */
  datatype ReportConfig = ReportConfig(bannerWidth: nat, titles: map<AgentName, (string, string)>)

  datatype ReportError =
    | BannerTooSmall(requested: nat, minimum: nat)
    | NonAsciiTitle(agent: AgentName, field: string, value: string)

  // ---- check_parts ----

  /** The iteration order of the ordered map: by display name. */
  const NAMES_IN_ORDER: seq<AgentName> := [Balthasar, Caspar, Melchior]

  lemma EveryNameIsListed(name: AgentName)
    ensures name in NAMES_IN_ORDER
  {
    assert NAMES_IN_ORDER[0] == Balthasar && NAMES_IN_ORDER[1] == Caspar && NAMES_IN_ORDER[2] == Melchior;
  }

  /** Which is the alphabetical order of the first letters. */
  lemma NamesAreSorted()
    ensures forall i, j | 0 <= i < j < |NAMES_IN_ORDER| ::
              DisplayName(NAMES_IN_ORDER[i])[0] < DisplayName(NAMES_IN_ORDER[j])[0]
  {
  }

  predicate TitleIsAscii(cfg: ReportConfig, name: AgentName) {
    name in cfg.titles ==> IsAscii(cfg.titles[name].0) && IsAscii(cfg.titles[name].1)
  }

  predicate Accepted(cfg: ReportConfig) {
    cfg.bannerWidth >= MIN_BANNER_WIDTH && forall name | name in cfg.titles :: TitleIsAscii(cfg, name)
  }

  /** The validity rule: width first, then the first offending field in map order. */
  method CheckParts(cfg: ReportConfig) returns (error: Option<ReportError>)
    ensures error.None? <==> Accepted(cfg)
    ensures cfg.bannerWidth < 8 ==> error == Some(BannerTooSmall(cfg.bannerWidth, 8))
    ensures cfg.bannerWidth >= 8 && error.Some? ==> error.value.NonAsciiTitle?
    ensures error.Some? && error.value.NonAsciiTitle? ==>
              && error.value.agent in cfg.titles
              && (exists k :: 0 <= k < |NAMES_IN_ORDER| && NAMES_IN_ORDER[k] == error.value.agent
                              && forall j | 0 <= j < k :: TitleIsAscii(cfg, NAMES_IN_ORDER[j]))
              && !IsAscii(error.value.value)
              && (error.value.field == "display_name" ==> error.value.value == cfg.titles[error.value.agent].0)
              && (error.value.field != "display_name" ==>
                    error.value.field == "title" && error.value.value == cfg.titles[error.value.agent].1
                    && IsAscii(cfg.titles[error.value.agent].0))
  {
    if cfg.bannerWidth < MIN_BANNER_WIDTH {
      return Some(BannerTooSmall(cfg.bannerWidth, MIN_BANNER_WIDTH));
    }
    for k := 0 to |NAMES_IN_ORDER|
      invariant forall j | 0 <= j < k :: TitleIsAscii(cfg, NAMES_IN_ORDER[j])
    {
      var agent := NAMES_IN_ORDER[k];
      if agent in cfg.titles {
        var (displayName, title) := cfg.titles[agent];
        if !IsAscii(displayName) {
          assert !TitleIsAscii(cfg, agent);
          return Some(NonAsciiTitle(agent, "display_name", displayName));
        }
        if !IsAscii(title) {
          assert !TitleIsAscii(cfg, agent);
          return Some(NonAsciiTitle(agent, "title", title));
        }
      }
    }
    forall name | name in cfg.titles ensures TitleIsAscii(cfg, name) {
      EveryNameIsListed(name);
    }
    error := None;
  }

  // ---- fitting ----

  function TailCut(content: string, width: nat): string {
    TakeBytes(content, Max(width - |ELLIPSIS|, 1)) + ELLIPSIS
  }

  predicate EndsWith(content: string, suffix: string) {
    |suffix| <= |content| && content[|content| - |suffix|..] == suffix
  }

  function FitContent(content: string, width: nat, suffix: string): string {
    if ByteLen(content) <= width then content
    else if suffix == [] || ByteLen(suffix) + |ELLIPSIS| >= width then TailCut(content, width)
    else if !EndsWith(content, suffix) then TailCut(content, width)
    else TakeBytes(content[..|content| - |suffix|], width - |ELLIPSIS| - ByteLen(suffix)) + ELLIPSIS + suffix
  }

  /** Whatever the input, the result is the input, or a piece of its head, the ellipsis and possibly its own tail. */
  lemma FitInventsNothing(content: string, width: nat, suffix: string)
    ensures var r := FitContent(content, width, suffix);
            || r == content
            || (exists k :: 0 <= k <= |content| && r == content[..k] + ELLIPSIS)
            || (exists k :: 0 <= k <= |content| - |suffix| && EndsWith(content, suffix)
                            && r == content[..k] + ELLIPSIS + suffix)
  {
    hide ByteLen;
    var r := FitContent(content, width, suffix);
    var cut := Max(width - |ELLIPSIS|, 1);
    TakeBytesMaximal(content, cut);
    if r != content && r != TailCut(content, width) {
      var head := content[..|content| - |suffix|];
      var k := CharsWithin(head, width - |ELLIPSIS| - ByteLen(suffix));
      TakeBytesMaximal(head, width - |ELLIPSIS| - ByteLen(suffix));
      assert head[..k] == content[..k];
    }
  }

  lemma {:induction false} AsciiTake(s: string, budget: nat)
    requires IsAscii(s)
    ensures CharsWithin(s, budget) == if |s| <= budget then |s| else budget
  {
    if s != [] && budget > 0 {
      assert s[0] in s;
      assert forall c | c in s[1..] :: c in s;
      AsciiTake(s[1..], budget - 1);
    } else if s != [] {
      assert s[0] in s;
    }
  }

  lemma AsciiAppend(s: string, t: string)
    ensures IsAscii(s + t) <==> IsAscii(s) && IsAscii(t)
  {
    assert forall c | c in s :: c in s + t;
    assert forall c | c in t :: c in s + t;
  }

  lemma AsciiPrefix(s: string, k: nat)
    requires IsAscii(s) && k <= |s|
    ensures IsAscii(s[..k])
  {
    assert forall c | c in s[..k] :: c in s;
  }

  lemma EllipsisIsAscii()
    ensures IsAscii(ELLIPSIS)
  {
  }

  /** For ASCII input a truncated result fills the width exactly, and the suffix survives whenever it can. */
  lemma FitAscii(content: string, width: nat, suffix: string)
    requires IsAscii(content) && IsAscii(suffix) && width >= 4
    ensures var r := FitContent(content, width, suffix);
            && IsAscii(r)
            && (if |content| <= width then r == content else |r| == width)
            && (EndsWith(content, suffix) && |suffix| + |ELLIPSIS| < width ==> EndsWith(r, suffix))
            && (EndsWith(content, suffix) && |suffix| + |ELLIPSIS| < width < |content| && suffix != [] ==>
                  r == content[..width - |ELLIPSIS| - |suffix|] + ELLIPSIS + suffix)
  {
    hide ByteLen, IsAscii;
    AsciiLength(content);
    AsciiLength(suffix);
    EllipsisIsAscii();
    if |content| > width {
      if suffix == [] || |suffix| + |ELLIPSIS| >= width || !EndsWith(content, suffix) {
        AsciiTake(content, width - |ELLIPSIS|);
        AsciiPrefix(content, width - |ELLIPSIS|);
        AsciiAppend(content[..width - |ELLIPSIS|], ELLIPSIS);
      } else {
        var head := content[..|content| - |suffix|];
        var budget := width - |ELLIPSIS| - |suffix|;
        AsciiPrefix(content, |head|);
        AsciiTake(head, budget);
        AsciiPrefix(head, budget);
        assert head[..budget] == content[..budget];
        AsciiAppend(head[..budget], ELLIPSIS);
        AsciiAppend(head[..budget] + ELLIPSIS, suffix);
      }
    }
  }

  // ---- lines ----

  function Repeat(c: char, n: nat): (s: string)
    ensures |s| == n
    ensures forall i | 0 <= i < n :: s[i] == c
  {
    seq(n, i => c)
  }

  /** `{:<width$}`: pads on the right, counting characters. */
  function PadRight(s: string, width: nat): string {
    s + Repeat(' ', Max(width - |s|, 0))
  }

  function Framed(content: string, inner: nat): string { "|" + PadRight(content, inner) + "|" }

  function Separator(inner: nat): string { "+" + Repeat('=', inner) + "+" }

  function FormatLine(content: string, inner: nat): string {
    Framed(if ByteLen(content) > inner then TakeBytes(content, inner) else content, inner)
  }

  function DefaultTitle(name: AgentName): string {
    match name
    case Melchior => "Scientist"
    case Balthasar => "Pragmatist"
    case Caspar => "Critic"
  }

  function AgentDisplay(cfg: ReportConfig, name: AgentName): (string, string) {
    if name in cfg.titles then cfg.titles[name] else (DisplayName(name), DefaultTitle(name))
  }

  function LabelOf(cfg: ReportConfig, agent: AgentOutput): string {
    var (displayName, title) := AgentDisplay(cfg, agent.agent);
    displayName + " (" + title + "):"
  }

  function VerdictText(v: Verdict): string {
    match v
    case Approve => "APPROVE"
    case Reject => "REJECT"
    case Conditional => "CONDITIONAL"
  }

  /** `(confidence * 100.0).round() as u32`: the cast saturates at both ends. */
  function Percentage(confidence: real): u32 {
    Min(Max(Round(confidence * 100.0), 0), 0xFFFF_FFFF)
  }

  /** The printed percentage is the nearest whole one, and stays between 0 and 100 for a confidence in [0, 1]. */
  lemma PercentageIsNearest(confidence: real)
    requires 0.0 <= confidence <= 1.0
    ensures 0 <= Percentage(confidence) <= 100
    ensures confidence * 100.0 - 0.5 < Percentage(confidence) as real <= confidence * 100.0 + 0.5
  {
    RoundIsNear(confidence * 100.0);
  }

  /** Outside the unit interval the percentage saturates at the ends of its integer type. */
  lemma PercentageSaturates(confidence: real)
    ensures confidence <= 0.0 ==> Percentage(confidence) == 0
    ensures confidence >= 42949672.95 ==> Percentage(confidence) == 0xFFFF_FFFF
    ensures 0.0 <= confidence <= 42949672.95 ==>
              confidence * 100.0 - 0.5 < Percentage(confidence) as real <= confidence * 100.0 + 0.5
  {
    RoundIsNear(confidence * 100.0);
  }

  function VerdictSuffix(agent: AgentOutput): string {
    " " + VerdictText(agent.verdict) + " (" + Decimal(Percentage(agent.confidence)) + "%)"
  }

  function MaxLabelLen(cfg: ReportConfig, agents: seq<AgentOutput>): nat {
    if agents == [] then 0
    else Max(MaxLabelLen(cfg, agents[..|agents| - 1]), |LabelOf(cfg, agents[|agents| - 1])|)
  }

  /** An agent's line before fitting: the label padded to the common length, then the verdict. */
  function AgentContent(cfg: ReportConfig, agent: AgentOutput, labelLen: nat): string {
    "  " + PadRight(LabelOf(cfg, agent), labelLen) + VerdictSuffix(agent)
  }

  function AgentLine(cfg: ReportConfig, agent: AgentOutput, labelLen: nat): string
    requires cfg.bannerWidth >= 2
  {
    var inner := cfg.bannerWidth - 2;
    Framed(FitContent(AgentContent(cfg, agent, labelLen), inner, VerdictSuffix(agent)), inner)
  }

  function AgentLines(cfg: ReportConfig, agents: seq<AgentOutput>, labelLen: nat): (lines: seq<string>)
    requires cfg.bannerWidth >= 2
    ensures |lines| == |agents|
    ensures forall i | 0 <= i < |agents| :: lines[i] == AgentLine(cfg, agents[i], labelLen)
  {
    seq(|agents|, i requires 0 <= i < |agents| => AgentLine(cfg, agents[i], labelLen))
  }

  const BANNER_TITLE := "        MAGI SYSTEM -- VERDICT"

  function ConsensusLine(cfg: ReportConfig, consensus: string): string
    requires cfg.bannerWidth >= 2
  {
    var inner := cfg.bannerWidth - 2;
    Framed(FitContent("  CONSENSUS: " + consensus, inner, ""), inner)
  }

  /** All lines but the closing separator. */
  function BannerBody(cfg: ReportConfig, agents: seq<AgentOutput>, consensus: string): seq<string>
    requires cfg.bannerWidth >= 2
  {
    var inner := cfg.bannerWidth - 2;
    [Separator(inner), FormatLine(BANNER_TITLE, inner), Separator(inner)]
    + AgentLines(cfg, agents, MaxLabelLen(cfg, agents))
    + [Separator(inner), ConsensusLine(cfg, consensus)]
  }

  function BannerLines(cfg: ReportConfig, agents: seq<AgentOutput>, consensus: string): seq<string>
    requires cfg.bannerWidth >= 2
  {
    BannerBody(cfg, agents, consensus) + [Separator(cfg.bannerWidth - 2)]
  }

  // ---- format_banner ----

  /** Every line followed by a line feed. */
  function Unlines(lines: seq<string>): string {
    if lines == [] then [] else Unlines(lines[..|lines| - 1]) + (lines[|lines| - 1] + "\n")
  }

  lemma NothingPrinted()
    ensures Unlines([]) == ""
  {
  }

  lemma UnlinesOfMore(lines: seq<string>, line: string)
    ensures Unlines(lines + [line]) == Unlines(lines) + (line + "\n")
  {
    assert (lines + [line])[..|lines|] == lines;
  }

  /** Every line but the last is followed by a line feed. */
  lemma {:induction false} LastLineUnbroken(lines: seq<string>, last: string)
    ensures Unlines(lines) + last == Join(lines + [last], "\n")
  {
    if lines == [] {
      assert Unlines(lines) + last == last;
      assert lines + [last] == [last];
    } else {
      var front, line := lines[..|lines| - 1], lines[|lines| - 1];
      assert lines == front + [line];
      LastLineUnbroken(front, line);
      JoinOneMore(lines, last, "\n");
      assert Unlines(lines) + last == (Unlines(front) + line) + "\n" + last;
    }
  }

  method Labels(cfg: ReportConfig, agents: seq<AgentOutput>) returns (labels: seq<string>, maxLabelLen: nat)
    ensures |labels| == |agents| && forall j | 0 <= j < |agents| :: labels[j] == LabelOf(cfg, agents[j])
    ensures maxLabelLen == MaxLabelLen(cfg, agents)
  {
    hide LabelOf;
    labels, maxLabelLen := [], 0;
    for k := 0 to |agents|
      invariant |labels| == k && forall j | 0 <= j < k :: labels[j] == LabelOf(cfg, agents[j])
      invariant maxLabelLen == MaxLabelLen(cfg, agents[..k])
    {
      assert agents[..k + 1][..k] == agents[..k];
      labels := labels + [LabelOf(cfg, agents[k])];
      maxLabelLen := Max(maxLabelLen, |labels[k]|);
    }
    assert agents[..|agents|] == agents;
  }

  method FormatBanner(cfg: ReportConfig, agents: seq<AgentOutput>, consensus: string) returns (out: string)
    requires cfg.bannerWidth >= 2
    ensures out == Join(BannerLines(cfg, agents, consensus), "\n")
  {
    hide FormatLine, Separator, AgentLine, ConsensusLine, LabelOf, Unlines, MaxLabelLen;
    var inner := cfg.bannerWidth - 2;
    var sep := Separator(inner);
    ghost var lines := [];

    var labels, maxLabelLen := Labels(cfg, agents);
    NothingPrinted();
    out, lines := Push("", [], sep);
    out, lines := Push(out, lines, FormatLine(BANNER_TITLE, inner));
    out, lines := Push(out, lines, sep);
    ghost var header := lines;
    for k := 0 to |agents|
      invariant lines == header + AgentLines(cfg, agents, maxLabelLen)[..k]
      invariant out == Unlines(lines)
    {
      var line := RenderAgent(cfg, agents[k], labels[k], maxLabelLen);
      out, lines := Push(out, lines, line);
    }
    out, lines := Push(out, lines, sep);
    out, lines := Push(out, lines, ConsensusLine(cfg, consensus));
    out := out + sep;
    assert lines == BannerBody(cfg, agents, consensus);
    LastLineUnbroken(lines, sep);
  }

  method Push(soFar: string, ghost lines: seq<string>, line: string) returns (out: string, ghost more: seq<string>)
    requires soFar == Unlines(lines)
    ensures more == lines + [line] && out == Unlines(more)
  {
    more := lines + [line];
    UnlinesOfMore(lines, line);
    out := soFar + (line + "\n");
  }

  method RenderAgent(cfg: ReportConfig, agent: AgentOutput, heading: string, labelLen: nat) returns (line: string)
    requires cfg.bannerWidth >= 2 && heading == LabelOf(cfg, agent)
    ensures line == AgentLine(cfg, agent, labelLen)
  {
    var suffix := VerdictSuffix(agent);
    var content := "  " + PadRight(heading, labelLen) + suffix;
    var fitted := FitContent(content, cfg.bannerWidth - 2, suffix);
    line := Framed(fitted, cfg.bannerWidth - 2);
  }

  // ---- the width and the suffix ----

  lemma DecimalIsAscii(n: nat)
    ensures IsAscii(Decimal(n))
  {
    DecimalRoundTrip(n);
  }

  lemma NameIsAscii(name: AgentName)
    ensures IsAscii(DisplayName(name))
  {
  }

  lemma DefaultTitleIsAscii(name: AgentName)
    ensures IsAscii(DefaultTitle(name))
  {
  }

  lemma LabelIsAscii(cfg: ReportConfig, agent: AgentOutput)
    requires Accepted(cfg)
    ensures IsAscii(LabelOf(cfg, agent))
  {
    var (displayName, title) := AgentDisplay(cfg, agent.agent);
    NameIsAscii(agent.agent);
    DefaultTitleIsAscii(agent.agent);
    assert IsAscii(displayName) && IsAscii(title) by {
      assert agent.agent in cfg.titles ==> TitleIsAscii(cfg, agent.agent);
    }
    assert IsAscii(" (") && IsAscii("):");
    AsciiAppend(displayName, " (");
    AsciiAppend(displayName + " (", title);
    AsciiAppend(displayName + " (" + title, "):");
  }

  lemma AsciiConcat(a: string, b: string, c: string, d: string, e: string)
    requires IsAscii(a) && IsAscii(b) && IsAscii(c) && IsAscii(d) && IsAscii(e)
    ensures IsAscii(a + b + c + d + e)
  {
    hide IsAscii;
    AsciiAppend(a, b);
    AsciiAppend(a + b, c);
    AsciiAppend(a + b + c, d);
    AsciiAppend(a + b + c + d, e);
  }

  lemma SuffixPartsAreAscii(v: Verdict)
    ensures IsAscii(" ") && IsAscii(" (") && IsAscii("%)") && IsAscii(VerdictText(v))
  {
  }

  lemma SuffixIsAscii(agent: AgentOutput)
    ensures IsAscii(VerdictSuffix(agent))
  {
    hide IsAscii, VerdictText, Decimal, Percentage;
    var percent := Decimal(Percentage(agent.confidence));
    SuffixPartsAreAscii(agent.verdict);
    DecimalIsAscii(Percentage(agent.confidence));
    AsciiConcat(" ", VerdictText(agent.verdict), " (", percent, "%)");
  }

  lemma RepeatIsAscii(c: char, n: nat)
    requires c < 128 as char
    ensures IsAscii(Repeat(c, n))
  {
  }

  lemma ContentIsAscii(cfg: ReportConfig, agent: AgentOutput, labelLen: nat)
    requires Accepted(cfg)
    ensures IsAscii(AgentContent(cfg, agent, labelLen))
  {
    hide LabelOf, VerdictSuffix, IsAscii;
    var heading := LabelOf(cfg, agent);
    LabelIsAscii(cfg, agent);
    SuffixIsAscii(agent);
    RepeatIsAscii(' ', Max(labelLen - |heading|, 0));
    TwoSpacesAreAscii();
    AsciiAppend(heading, Repeat(' ', Max(labelLen - |heading|, 0)));
    AsciiAppend("  ", PadRight(heading, labelLen));
    AsciiAppend("  " + PadRight(heading, labelLen), VerdictSuffix(agent));
  }

  lemma TwoSpacesAreAscii()
    ensures IsAscii("  ")
  {
  }

  /** A framed ASCII line is exactly two bytes wider than its inner width. */
  lemma FramedWidth(content: string, inner: nat)
    requires IsAscii(content) && |content| <= inner
    ensures ByteLen(Framed(content, inner)) == inner + 2
  {
    hide ByteLen, IsAscii;
    var padding := Repeat(' ', inner - |content|);
    assert IsAscii("|") by { BarIsAscii(); }
    RepeatIsAscii(' ', inner - |content|);
    AsciiAppend(content, padding);
    AsciiAppend("|", content + padding);
    AsciiAppend("|" + (content + padding), "|");
    AsciiLength(Framed(content, inner));
  }

  lemma BarIsAscii()
    ensures IsAscii("|")
  {
  }

  lemma SeparatorWidth(inner: nat)
    ensures ByteLen(Separator(inner)) == inner + 2
  {
    hide ByteLen;
    RepeatIsAscii('=', inner);
    AsciiAppend("+", Repeat('=', inner));
    AsciiAppend("+" + Repeat('=', inner), "+");
    AsciiLength(Separator(inner));
  }

  lemma AgentLineWidth(cfg: ReportConfig, agent: AgentOutput, labelLen: nat)
    requires Accepted(cfg)
    ensures ByteLen(AgentLine(cfg, agent, labelLen)) == cfg.bannerWidth
  {
    hide ByteLen, AgentContent, VerdictSuffix, FitContent, IsAscii, Framed;
    var inner := cfg.bannerWidth - 2;
    ContentIsAscii(cfg, agent, labelLen);
    SuffixIsAscii(agent);
    FitAscii(AgentContent(cfg, agent, labelLen), inner, VerdictSuffix(agent));
    FramedWidth(FitContent(AgentContent(cfg, agent, labelLen), inner, VerdictSuffix(agent)), inner);
  }

  lemma ConsensusLineWidth(cfg: ReportConfig, consensus: string)
    requires Accepted(cfg) && IsAscii(consensus)
    ensures ByteLen(ConsensusLine(cfg, consensus)) == cfg.bannerWidth
  {
    hide ByteLen, FitContent, IsAscii, Framed;
    var content := "  CONSENSUS: " + consensus;
    CaptionIsAscii();
    AsciiAppend("  CONSENSUS: ", consensus);
    EmptyIsAscii();
    FitAscii(content, cfg.bannerWidth - 2, "");
    FramedWidth(FitContent(content, cfg.bannerWidth - 2, ""), cfg.bannerWidth - 2);
  }

  lemma CaptionIsAscii()
    ensures IsAscii("  CONSENSUS: ")
  {
  }

  lemma EmptyIsAscii()
    ensures IsAscii("")
  {
  }

  lemma TitleLineWidth(inner: nat)
    ensures ByteLen(FormatLine(BANNER_TITLE, inner)) == inner + 2
  {
    hide ByteLen, Framed;
    TitleIsAsciiText();
    AsciiLength(BANNER_TITLE);
    AsciiTake(BANNER_TITLE, inner);
    AsciiPrefix(BANNER_TITLE, CharsWithin(BANNER_TITLE, inner));
    FramedWidth(if |BANNER_TITLE| > inner then TakeBytes(BANNER_TITLE, inner) else BANNER_TITLE, inner);
  }

  lemma TitleIsAsciiText()
    ensures IsAscii(BANNER_TITLE)
  {
  }

  /** Every line of the banner is exactly `bannerWidth` bytes, for every accepted configuration. */
  lemma EveryLineFillsWidth(cfg: ReportConfig, agents: seq<AgentOutput>, consensus: string)
    requires Accepted(cfg) && IsAscii(consensus)
    ensures forall line | line in BannerLines(cfg, agents, consensus) :: ByteLen(line) == cfg.bannerWidth
  {
    hide ByteLen, Separator, FormatLine, ConsensusLine, AgentLine, MaxLabelLen, IsAscii;
    var labelLen := MaxLabelLen(cfg, agents);
    SeparatorWidth(cfg.bannerWidth - 2);
    TitleLineWidth(cfg.bannerWidth - 2);
    ConsensusLineWidth(cfg, consensus);
    forall line | line in AgentLines(cfg, agents, labelLen) ensures ByteLen(line) == cfg.bannerWidth {
      var i :| 0 <= i < |agents| && AgentLines(cfg, agents, labelLen)[i] == line;
      AgentLineWidth(cfg, agents[i], labelLen);
    }
  }

  lemma {:induction false} LabelsFit(cfg: ReportConfig, agents: seq<AgentOutput>)
    ensures forall a | a in agents :: |LabelOf(cfg, a)| <= MaxLabelLen(cfg, agents)
    ensures agents == [] ==> MaxLabelLen(cfg, agents) == 0
    ensures agents != [] ==> exists a :: a in agents && |LabelOf(cfg, a)| == MaxLabelLen(cfg, agents)
  {
    hide LabelOf;
    if agents != [] {
      LabelsFit(cfg, agents[..|agents| - 1]);
      assert agents[|agents| - 1] in agents;
      assert forall a | a in agents :: a == agents[|agents| - 1] || a in agents[..|agents| - 1];
    }
  }

  /**
   Whenever the verdict suffix and the ellipsis leave room, the fitted text ends in the whole suffix:
   at the one common column if the line was not cut, flush with the right border if it was.
   */
  lemma SuffixSurvives(cfg: ReportConfig, agents: seq<AgentOutput>, agent: AgentOutput)
    requires Accepted(cfg) && agent in agents
    requires |VerdictSuffix(agent)| + |ELLIPSIS| < cfg.bannerWidth - 2
    ensures var labelLen := MaxLabelLen(cfg, agents);
            var inner := cfg.bannerWidth - 2;
            var suffix := VerdictSuffix(agent);
            var content := AgentContent(cfg, agent, labelLen);
            var fitted := FitContent(content, inner, suffix);
            && AgentLine(cfg, agent, labelLen) == Framed(fitted, inner)
            && EndsWith(fitted, suffix)
            && (|content| <= inner ==> fitted == content && |fitted| - |suffix| == 2 + labelLen)
            && (|content| > inner ==>
                  && |fitted| == inner
                  && fitted == content[..inner - |ELLIPSIS| - |suffix|] + ELLIPSIS + suffix)
  {
    hide VerdictSuffix, LabelOf, FitContent, IsAscii;
    var labelLen := MaxLabelLen(cfg, agents);
    LabelsFit(cfg, agents);
    ContentIsAscii(cfg, agent, labelLen);
    SuffixIsAscii(agent);
    SuffixNotEmpty(agent);
    FitAscii(AgentContent(cfg, agent, labelLen), cfg.bannerWidth - 2, VerdictSuffix(agent));
  }

  lemma SuffixNotEmpty(agent: AgentOutput)
    ensures VerdictSuffix(agent) != []
  {
  }

  // ---- with the labels the engine emits ----

  lemma FixedLabelsAreAscii()
    ensures IsAscii("STRONG GO") && IsAscii("STRONG NO-GO") && IsAscii("HOLD -- TIE")
  {
  }

  lemma LabelHeadsAreAscii()
    ensures IsAscii("GO WITH CAVEATS (") && IsAscii("GO (") && IsAscii("HOLD (")
  {
  }

  lemma LabelTextIsAscii(caption: Label)
    ensures IsAscii(Render(caption))
  {
    hide IsAscii, Decimal;
    FixedLabelsAreAscii();
    LabelHeadsAreAscii();
    match caption
    case StrongGo =>
    case StrongNoGo =>
    case Tie =>
    case GoWithCaveats(a, r) => SplitTextIsAscii("GO WITH CAVEATS (", a, r);
    case Go(a, r) => SplitTextIsAscii("GO (", a, r);
    case Hold(r, a) => SplitTextIsAscii("HOLD (", r, a);
  }

  lemma SplitTextIsAscii(head: string, m: nat, n: nat)
    requires IsAscii(head)
    ensures IsAscii(head + Decimal(m) + "-" + Decimal(n) + ")")
  {
    DecimalIsAscii(m);
    DecimalIsAscii(n);
    AsciiConcat(head, Decimal(m), "-", Decimal(n), ")");
  }

  /** Whatever the engine decides, the banner of its result is rectangular. */
  lemma EngineBannerIsRectangular(cfg: ReportConfig, agents: seq<AgentOutput>, caption: Label)
    requires Accepted(cfg)
    ensures forall line | line in BannerLines(cfg, agents, Render(caption)) :: ByteLen(line) == cfg.bannerWidth
  {
    hide BannerLines, Render, ByteLen;
    LabelTextIsAscii(caption);
    EveryLineFillsWidth(cfg, agents, Render(caption));
  }
}
