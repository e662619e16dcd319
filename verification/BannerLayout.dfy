/** The banner character by character: what stands in which column of which line. */
module BannerLayout {
  import opened Wrappers
  import opened Text
  import opened Schema
  import opened Consensus
  import opened Utf8
  import opened Banner

  predicate HoldsAt(line: string, column: nat, text: string) {
    column + |text| <= |line| && line[column..column + |text|] == text
  }

  predicate BlankBetween(line: string, from: nat, to: nat) {
    to <= |line| && forall i | from <= i < to :: line[i] == ' '
  }

  /** Bordered on both sides and `width` columns wide. */
  predicate IsRow(line: string, width: nat) {
    |line| == width >= 2 && line[0] == '|' && line[width - 1] == '|'
  }

  /** A rule: equals signs between two corners. */
  predicate IsRule(line: string, width: nat) {
    && |line| == width >= 2 && line[0] == '+' && line[width - 1] == '+'
    && forall i | 0 < i < width - 1 :: line[i] == '='
  }

  /** Text is left-justified: it starts right behind the border, and blanks fill the rest. */
  lemma FramedLayout(content: string, inner: nat)
    requires |content| <= inner
    ensures var line := Framed(content, inner);
            IsRow(line, inner + 2) && HoldsAt(line, 1, content) && BlankBetween(line, 1 + |content|, inner + 1)
  {
    hide Repeat;
    var padding := Repeat(' ', inner - |content|);
    assert Framed(content, inner) == "|" + (content + padding) + "|";
  }

  lemma PieceOfPiece(line: string, column: nat, n: nat, i: nat, j: nat)
    requires i <= j <= n && column + n <= |line|
    ensures line[column..column + n][i..j] == line[column + i..column + j]
  {
    var held := line[column..column + n];
    forall k | 0 <= k < j - i ensures held[i..j][k] == line[column + i..column + j][k] {
      assert held[i + k] == line[column + i + k];
    }
  }

  lemma HoldsWithin(line: string, column: nat, text: string, a: string, b: string, c: string)
    requires HoldsAt(line, column, text) && text == a + b + c
    ensures HoldsAt(line, column, a)
    ensures HoldsAt(line, column + |a|, b)
    ensures HoldsAt(line, column + |a| + |b|, c)
  {
    PieceOfPiece(line, column, |text|, 0, |a|);
    PieceOfPiece(line, column, |text|, |a|, |a| + |b|);
    PieceOfPiece(line, column, |text|, |a| + |b|, |text|);
    assert text[..|a|] == a && text[|a|..|a| + |b|] == b && text[|a| + |b|..] == c;
  }

  // ---- what an agent's line says ----

  /** The configured name and title, or the agent's own. */
  function Heading(cfg: ReportConfig, agent: AgentName): string {
    if agent in cfg.titles then cfg.titles[agent].0 + " (" + cfg.titles[agent].1 + "):"
    else
      match agent
      case Melchior => "Melchior (Scientist):"
      case Balthasar => "Balthasar (Pragmatist):"
      case Caspar => "Caspar (Critic):"
  }

  /** The verdict with the confidence in whole per cent. */
  function Judgement(agent: AgentOutput): string {
    match agent.verdict
    case Approve => " APPROVE (" + Decimal(Percentage(agent.confidence)) + "%)"
    case Reject => " REJECT (" + Decimal(Percentage(agent.confidence)) + "%)"
    case Conditional => " CONDITIONAL (" + Decimal(Percentage(agent.confidence)) + "%)"
  }

  lemma HeadingIsLabel(cfg: ReportConfig, agent: AgentOutput)
    ensures LabelOf(cfg, agent) == Heading(cfg, agent.agent)
  {
    if agent.agent !in cfg.titles {
      match agent.agent
      case Melchior => assert "Melchior" + " (" + "Scientist" + "):" == "Melchior (Scientist):";
      case Balthasar => assert "Balthasar" + " (" + "Pragmatist" + "):" == "Balthasar (Pragmatist):";
      case Caspar => assert "Caspar" + " (" + "Critic" + "):" == "Caspar (Critic):";
    }
  }

  lemma JudgementIsSuffix(agent: AgentOutput)
    ensures VerdictSuffix(agent) == Judgement(agent)
  {
    hide Decimal, Percentage;
    match agent.verdict
    case Approve => assert " " + "APPROVE" + " (" == " APPROVE (";
    case Reject => assert " " + "REJECT" + " (" == " REJECT (";
    case Conditional => assert " " + "CONDITIONAL" + " (" == " CONDITIONAL (";
  }

  /** The column all headings are padded to: the length of the longest. */
  lemma CommonColumn(cfg: ReportConfig, agents: seq<AgentOutput>)
    ensures forall a | a in agents :: |Heading(cfg, a.agent)| <= MaxLabelLen(cfg, agents)
    ensures agents != [] ==> exists a :: a in agents && |Heading(cfg, a.agent)| == MaxLabelLen(cfg, agents)
  {
    hide Heading, LabelOf;
    LabelsFit(cfg, agents);
    forall a | a in agents ensures |Heading(cfg, a.agent)| == |LabelOf(cfg, a)| {
      HeadingIsLabel(cfg, a);
    }
  }

  /** An uncut line: the heading from column 3, the judgement from the common column, blanks everywhere else. */
  ghost predicate AlignedLine(line: string, width: nat, heading: string, labelLen: nat, judgement: string) {
    var column := 3 + labelLen;
    && IsRow(line, width)
    && BlankBetween(line, 1, 3)
    && HoldsAt(line, 3, heading)
    && BlankBetween(line, 3 + |heading|, column)
    && HoldsAt(line, column, judgement)
    && BlankBetween(line, column + |judgement|, width - 1)
  }

  /** A cut line: as much of the aligned text as fits, an ellipsis, and the judgement at the border. */
  ghost predicate CutLine(line: string, width: nat, heading: string, labelLen: nat, judgement: string) {
    var kept := width - 5 - |judgement|;
    && IsRow(line, width)
    && kept >= 0
    && HoldsAt(line, width - 1 - |judgement|, judgement)
    && HoldsAt(line, width - 4 - |judgement|, "...")
    && (kept >= 2 ==> BlankBetween(line, 1, 3))
    && (kept >= 2 + |heading| ==> HoldsAt(line, 3, heading))
  }

  lemma AgentLineUncut(cfg: ReportConfig, agents: seq<AgentOutput>, agent: AgentOutput)
    requires Accepted(cfg) && agent in agents
    requires 2 + MaxLabelLen(cfg, agents) + |Judgement(agent)| <= cfg.bannerWidth - 2
    ensures AlignedLine(AgentLine(cfg, agent, MaxLabelLen(cfg, agents)), cfg.bannerWidth,
                        Heading(cfg, agent.agent), MaxLabelLen(cfg, agents), Judgement(agent))
  {
    hide Heading, Judgement, LabelOf, VerdictSuffix, MaxLabelLen, IsAscii, Repeat, Framed, HoldsAt, BlankBetween, IsRow, AgentContent;
    var labelLen, inner := MaxLabelLen(cfg, agents), cfg.bannerWidth - 2;
    var heading, judgement := Heading(cfg, agent.agent), Judgement(agent);
    HeadingIsLabel(cfg, agent);
    JudgementIsSuffix(agent);
    CommonColumn(cfg, agents);
    ContentIsAscii(cfg, agent, labelLen);
    var content := AgentContent(cfg, agent, labelLen);
    ContentInColumns(cfg, agent, labelLen);
    AsciiLength(content);
    FramedLayout(content, inner);
    ColumnsInLine(Framed(content, inner), cfg.bannerWidth, heading, labelLen, judgement);
  }

  lemma ContentInColumns(cfg: ReportConfig, agent: AgentOutput, labelLen: nat)
    requires |LabelOf(cfg, agent)| <= labelLen
    ensures AgentContent(cfg, agent, labelLen)
            == Columns(LabelOf(cfg, agent), labelLen, VerdictSuffix(agent))
  {
    hide LabelOf, VerdictSuffix;
  }

  /** Two blanks, the heading, blanks up to the common column, the judgement. */
  function Columns(heading: string, labelLen: nat, judgement: string): (text: string)
    requires |heading| <= labelLen
    ensures |text| == 2 + labelLen + |judgement|
  {
    "  " + (heading + Repeat(' ', labelLen - |heading|)) + judgement
  }

  lemma ColumnsInLine(line: string, width: nat, heading: string, labelLen: nat, judgement: string)
    requires |heading| <= labelLen && IsRow(line, width)
    requires HoldsAt(line, 1, Columns(heading, labelLen, judgement))
    requires BlankBetween(line, 1 + 2 + labelLen + |judgement|, width - 1)
    ensures AlignedLine(line, width, heading, labelLen, judgement)
  {
    hide Repeat;
    var gap := Repeat(' ', labelLen - |heading|);
    HoldsWithin(line, 1, Columns(heading, labelLen, judgement), "  ", heading + gap, judgement);
    assert heading + gap == [] + heading + gap;
    HoldsWithin(line, 3, heading + gap, [], heading, gap);
    BlanksHeld(line, 1, "  ");
    BlanksHeld(line, 3 + |heading|, gap);
  }

  lemma BlanksHeld(line: string, column: nat, blanks: string)
    requires HoldsAt(line, column, blanks) && forall i | 0 <= i < |blanks| :: blanks[i] == ' '
    ensures BlankBetween(line, column, column + |blanks|)
  {
    forall i | column <= i < column + |blanks| ensures line[i] == ' ' {
      assert line[column..column + |blanks|][i - column] == line[i];
    }
  }

  lemma AgentLineCut(cfg: ReportConfig, agents: seq<AgentOutput>, agent: AgentOutput)
    requires Accepted(cfg) && agent in agents
    requires |Judgement(agent)| + 3 < cfg.bannerWidth - 2 < 2 + MaxLabelLen(cfg, agents) + |Judgement(agent)|
    ensures CutLine(AgentLine(cfg, agent, MaxLabelLen(cfg, agents)), cfg.bannerWidth,
                    Heading(cfg, agent.agent), MaxLabelLen(cfg, agents), Judgement(agent))
  {
    hide Heading, Judgement, LabelOf, VerdictSuffix, MaxLabelLen, IsAscii, Repeat, Framed, HoldsAt, BlankBetween, IsRow, AgentContent,
         FitContent;
    var labelLen, inner := MaxLabelLen(cfg, agents), cfg.bannerWidth - 2;
    var heading, judgement := Heading(cfg, agent.agent), Judgement(agent);
    HeadingIsLabel(cfg, agent);
    JudgementIsSuffix(agent);
    CommonColumn(cfg, agents);
    ContentInColumns(cfg, agent, labelLen);
    SuffixSurvives(cfg, agents, agent);
    var text := Columns(heading, labelLen, judgement);
    var kept := inner - 3 - |judgement|;
    var fitted := text[..kept] + "..." + judgement;
    FramedLayout(fitted, inner);
    HoldsWithin(Framed(fitted, inner), 1, fitted, text[..kept], "...", judgement);
    StartOfColumns(Framed(fitted, inner), heading, labelLen, judgement, kept);
  }

  lemma StartOfColumns(line: string, heading: string, labelLen: nat, judgement: string, kept: nat)
    requires |heading| <= labelLen && kept <= 2 + labelLen + |judgement|
    requires HoldsAt(line, 1, Columns(heading, labelLen, judgement)[..kept])
    ensures kept >= 2 ==> BlankBetween(line, 1, 3)
    ensures kept >= 2 + |heading| ==> HoldsAt(line, 3, heading)
  {
    hide Repeat;
    var text := Columns(heading, labelLen, judgement);
    if kept >= 2 {
      assert text[..kept] == [] + "  " + text[..kept][2..];
      HoldsWithin(line, 1, text[..kept], [], "  ", text[..kept][2..]);
      BlanksHeld(line, 1, "  ");
    }
    if kept >= 2 + |heading| {
      var rest := text[..kept][2 + |heading|..];
      assert text[..kept] == "  " + heading + rest;
      HoldsWithin(line, 1, text[..kept], "  ", heading, rest);
    }
  }

  // ---- the other lines ----

  /** A text from column 1, blanks behind it; a text that is too long loses its end to an ellipsis. */
  ghost predicate ShowsText(line: string, width: nat, text: string) {
    && IsRow(line, width)
    && (if |text| <= width - 2 then HoldsAt(line, 1, text) && BlankBetween(line, 1 + |text|, width - 1)
        else width >= 5 && HoldsAt(line, 1, text[..width - 5]) && HoldsAt(line, width - 4, "..."))
  }

  lemma TailCutShows(text: string, inner: nat, suffix: string)
    requires IsAscii(text) && IsAscii(suffix) && inner >= 4
    requires suffix == [] || |suffix| + 3 >= inner
    ensures ShowsText(Framed(FitContent(text, inner, suffix), inner), inner + 2, text)
  {
    hide IsAscii, ByteLen, Framed, HoldsAt, BlankBetween, IsRow;
    AsciiLength(text);
    AsciiLength(suffix);
    if |text| <= inner {
      FramedLayout(text, inner);
    } else {
      AsciiTake(text, inner - 3);
      var fitted := text[..inner - 3] + "...";
      assert FitContent(text, inner, suffix) == fitted;
      FramedLayout(fitted, inner);
      assert fitted == text[..inner - 3] + "..." + [];
      HoldsWithin(Framed(fitted, inner), 1, fitted, text[..inner - 3], "...", []);
    }
  }

  /** Without room for the judgement and an ellipsis, the end of the line is lost. */
  lemma AgentLineNarrow(cfg: ReportConfig, agents: seq<AgentOutput>, agent: AgentOutput)
    requires Accepted(cfg) && agent in agents && |Judgement(agent)| + 3 >= cfg.bannerWidth - 2
    ensures |Heading(cfg, agent.agent)| <= MaxLabelLen(cfg, agents)
    ensures ShowsText(AgentLine(cfg, agent, MaxLabelLen(cfg, agents)), cfg.bannerWidth,
                      Columns(Heading(cfg, agent.agent), MaxLabelLen(cfg, agents), Judgement(agent)))
  {
    hide Heading, Judgement, LabelOf, VerdictSuffix, MaxLabelLen, IsAscii, ShowsText, AgentContent, FitContent;
    HeadingIsLabel(cfg, agent);
    JudgementIsSuffix(agent);
    CommonColumn(cfg, agents);
    ContentInColumns(cfg, agent, MaxLabelLen(cfg, agents));
    ContentIsAscii(cfg, agent, MaxLabelLen(cfg, agents));
    SuffixIsAscii(agent);
    TailCutShows(AgentContent(cfg, agent, MaxLabelLen(cfg, agents)), cfg.bannerWidth - 2, VerdictSuffix(agent));
  }

  lemma ConsensusLineShows(cfg: ReportConfig, consensus: string)
    requires Accepted(cfg) && IsAscii(consensus)
    ensures ShowsText(ConsensusLine(cfg, consensus), cfg.bannerWidth, "  CONSENSUS: " + consensus)
  {
    hide IsAscii, ShowsText, FitContent;
    CaptionIsAscii();
    AsciiAppend("  CONSENSUS: ", consensus);
    EmptyIsAscii();
    TailCutShows("  CONSENSUS: " + consensus, cfg.bannerWidth - 2, "");
  }

  /** The title is cut without an ellipsis. */
  ghost predicate ShowsTitle(line: string, width: nat) {
    var title := "        MAGI SYSTEM -- VERDICT";
    && IsRow(line, width)
    && (if |title| <= width - 2 then HoldsAt(line, 1, title) && BlankBetween(line, 1 + |title|, width - 1)
        else HoldsAt(line, 1, title[..width - 2]))
  }

  lemma TitleShows(inner: nat)
    ensures ShowsTitle(FormatLine(BANNER_TITLE, inner), inner + 2)
  {
    hide IsAscii, ByteLen, Framed, HoldsAt, BlankBetween, IsRow;
    TitleIsAsciiText();
    AsciiLength(BANNER_TITLE);
    AsciiTake(BANNER_TITLE, inner);
    FramedLayout(if |BANNER_TITLE| > inner then BANNER_TITLE[..inner] else BANNER_TITLE, inner);
  }

  lemma SeparatorIsRule(inner: nat)
    ensures IsRule(Separator(inner), inner + 2)
  {
    hide Repeat;
    assert Separator(inner) == "+" + Repeat('=', inner) + "+";
  }

  // ---- the whole banner ----

  /** An agent is shown aligned if its line fits, cut in the middle if its judgement does, and cut at the end otherwise. */
  ghost predicate ShowsAgent(cfg: ReportConfig, agents: seq<AgentOutput>, agent: AgentOutput, line: string) {
    var heading, labelLen, judgement := Heading(cfg, agent.agent), MaxLabelLen(cfg, agents), Judgement(agent);
    var inner := cfg.bannerWidth - 2;
    && |heading| <= labelLen
    && if 2 + labelLen + |judgement| <= inner then AlignedLine(line, cfg.bannerWidth, heading, labelLen, judgement)
       else if |judgement| + 3 < inner then CutLine(line, cfg.bannerWidth, heading, labelLen, judgement)
       else ShowsText(line, cfg.bannerWidth, Columns(heading, labelLen, judgement))
  }

  lemma AgentShown(cfg: ReportConfig, agents: seq<AgentOutput>, agent: AgentOutput)
    requires Accepted(cfg) && agent in agents
    ensures ShowsAgent(cfg, agents, agent, AgentLine(cfg, agent, MaxLabelLen(cfg, agents)))
  {
    hide Heading, Judgement, MaxLabelLen, AgentLine, AlignedLine, CutLine, ShowsText;
    CommonColumn(cfg, agents);
    if 2 + MaxLabelLen(cfg, agents) + |Judgement(agent)| <= cfg.bannerWidth - 2 {
      AgentLineUncut(cfg, agents, agent);
    } else if |Judgement(agent)| + 3 < cfg.bannerWidth - 2 {
      AgentLineCut(cfg, agents, agent);
    } else {
      AgentLineNarrow(cfg, agents, agent);
    }
  }

  /** Rule, title, rule, one line for each agent in order, rule, consensus, rule. */
  lemma BannerShows(cfg: ReportConfig, agents: seq<AgentOutput>, consensus: string)
    requires Accepted(cfg) && IsAscii(consensus)
    ensures var lines := BannerLines(cfg, agents, consensus);
            var n := |agents|;
            && |lines| == n + 6
            && IsRule(lines[0], cfg.bannerWidth) && IsRule(lines[2], cfg.bannerWidth)
            && IsRule(lines[n + 3], cfg.bannerWidth) && IsRule(lines[n + 5], cfg.bannerWidth)
            && ShowsTitle(lines[1], cfg.bannerWidth)
            && (forall i | 0 <= i < n :: ShowsAgent(cfg, agents, agents[i], lines[3 + i]))
            && ShowsText(lines[n + 4], cfg.bannerWidth, "  CONSENSUS: " + consensus)
  {
    hide IsRule, ShowsTitle, ShowsAgent, ShowsText, MaxLabelLen, AgentLine, ConsensusLine, FormatLine, Separator, IsAscii;
    SeparatorIsRule(cfg.bannerWidth - 2);
    TitleShows(cfg.bannerWidth - 2);
    ConsensusLineShows(cfg, consensus);
    forall i | 0 <= i < |agents| ensures ShowsAgent(cfg, agents, agents[i], BannerLines(cfg, agents, consensus)[3 + i]) {
      AgentShown(cfg, agents, agents[i]);
    }
  }
}
