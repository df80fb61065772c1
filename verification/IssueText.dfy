/** Printing a requirement summary as an issue body (app/issue_draft.py) and reading it back
    (`_summary_from_issue` in app/discord_adapter.py). */
module IssueText {
  import opened Basics
  import opened Text

  datatype Summary = Summary(
    background: string,
    goal: string,
    inScope: seq<string>,
    outOfScope: seq<string>,
    acceptanceCriteria: seq<string>,
    constraints: seq<string>,
    testFocus: seq<string>,
    openQuestions: seq<string>)

  const Headings: seq<string> :=
    ["背景", "目的", "やること", "やらないこと", "受け入れ条件", "制約", "テスト観点", "未確定事項"]

  // ----- printing -----

  /** `_format_text`. */
  function FormatText(value: string): string {
    if Strip(value) == "" then "未記入" else Strip(value)
  }

  /** One "- item" line per item. */
  function Bullets(items: seq<string>): string
    requires items != []
  {
    if |items| == 1 then "- " + items[0] else "- " + items[0] + "\n" + Bullets(items[1..])
  }

  function Shown(items: seq<string>): (r: seq<string>)
    ensures r != []
  {
    if NonBlank(items) == [] then ["なし"] else NonBlank(items)
  }

  /** `_format_list`. */
  function FormatList(items: seq<string>): string {
    Bullets(Shown(items))
  }

  /** Sections under their headings, then a tail that starts with a heading of its own. */
  function Render(headings: seq<string>, contents: seq<string>, tail: string): string
    requires |headings| == |contents|
  {
    if headings == [] then tail
    else SectionText(headings[0], contents[0]) + Render(headings[1..], contents[1..], tail)
  }

  function SectionText(heading: string, content: string): string {
    "## " + heading + "\n" + content + "\n\n"
  }

  function Texts(s: Summary): seq<string> {
    [s.background, s.goal]
  }

  function Lists(s: Summary): seq<seq<string>> {
    [s.inScope, s.outOfScope, s.acceptanceCriteria, s.constraints, s.testFocus, s.openQuestions]
  }

  function ContentsBy(
    texts: seq<string>, lists: seq<seq<string>>, text: string -> string, list: seq<string> -> string): seq<string>
    requires |texts| == 2 && |lists| == 6
  {
    seq(8, k requires 0 <= k < 8 => if k < 2 then text(texts[k]) else list(lists[k - 2]))
  }

  /** The text under each heading. */
  function Contents(s: Summary): (contents: seq<string>)
    ensures |contents| == |Headings|
  {
    ContentsBy(Texts(s), Lists(s), FormatText, FormatList)
  }

  function Footer(threadUrl: string): string {
    "## 補足\n- Discordスレッド: " + threadUrl + "\n- Generated by dev-bot\n"
  }

  /** `build_issue_body`. */
  function BuildIssueBody(s: Summary, threadUrl: string): string {
    Render(Headings, Contents(s), Footer(threadUrl))
  }

  // ----- parsing -----

  /** Everything up to the next heading line. */
  function UpToHeading(after: string): string {
    var next := FindFrom(after, "\n## ", 0);
    if 0 <= next <= |after| then after[..next] else after
  }

  /** What follows the first marker, if there is one. */
  function AfterMarker(body: string, marker: string): Option<string> {
    var at := FindFrom(body, marker, 0);
    if 0 <= at && at + |marker| <= |body| then Some(body[at + |marker|..]) else None
  }

  /** `_issue_section_body`: from the first marker to the next heading line. */
  function SectionBody(body: string, heading: string): string {
    match AfterMarker(body, "## " + heading)
    case None => ""
    case Some(after) => Strip(UpToHeading(after))
  }

  function ItemOf(line: string): string {
    var text := Strip(line);
    if "- " <= text then Strip(text[2..]) else text
  }

  /** The non-empty items, one per line at most. */
  function ItemsOf(lines: seq<string>, itemOf: string -> string): seq<string> {
    if lines == [] then []
    else if itemOf(lines[0]) == "" then ItemsOf(lines[1..], itemOf)
    else [itemOf(lines[0])] + ItemsOf(lines[1..], itemOf)
  }

  /** `_issue_section_list`, given the section. */
  function ListOf(section: string): seq<string> {
    ItemsOf(SplitLines(section), ItemOf)
  }

  /** The text of each section, as found under its heading. */
  function Sections(body: string): (sections: seq<string>)
    ensures |sections| == |Headings|
  {
    seq(8, k requires 0 <= k < 8 => SectionBody(body, Headings[k]))
  }

  /** The goal read from its section, with the title as fallback. */
  function GoalFrom(title: string, section: string): string {
    if section != "" then section else Strip(title)
  }

  /** A list with a fallback, for in-scope items and acceptance criteria. */
  function OrGoal(items: seq<string>, goal: string): seq<string> {
    if items != [] then items else if goal == "" then [] else [goal]
  }

  /** The record `_summary_from_issue` assembles from the sections, given how a section is read as a list. */
  function Assemble(title: string, sections: seq<string>, listOf: string -> seq<string>): Summary
    requires |sections| == 8
  {
    var goal := GoalFrom(title, sections[1]);
    Summary(
      sections[0],
      goal,
      OrGoal(listOf(sections[2]), goal),
      listOf(sections[3]),
      OrGoal(listOf(sections[4]), goal),
      listOf(sections[5]),
      listOf(sections[6]),
      listOf(sections[7]))
  }

  /** `_summary_from_issue`. */
  function SummaryFromIssue(title: string, body: string): Summary {
    Assemble(title, Sections(body), ListOf)
  }
}
