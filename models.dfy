/**
 * The incident record the bot renders into Slack (`pkg/slack/models`): the
 * people involved with their role labels, the block-building helpers, and
 * the incident itself, which is opened, edited and closed in place.
 *
 * Instants are nanoseconds since the Unix epoch and the current time is a
 * parameter; `HumanizeTimestamp` (a calendar format) is passed in as a function.
 */
module Models {
  import opened Wrappers
  import opened SlackApi
  import opened TimeUtil

  const EmojiReporter := ":man-raising-hand:"
  const EmojiLead := ":male-firefighter:"

  const EmojiGreenCheckmark := ":green_checkmark:"
  const EmojiRotatingLight := ":rotating_light:"
  const EmojiTV := ":tv:"
  const EmojiNotebook := ":notebook:"
  const EmojiClock := ":clock1:"

  const StatusOpen := "open"
  const StatusClosed := "closed"

  /** The two roles a person has in an incident (the values 0 and 1 of `UserRole`). */
  datatype UserRole = Reporter | Lead

  /** `UserRole.String`. */
  function RoleName(role: UserRole): string {
    match role
    case Reporter => "Reporter"
    case Lead => "Lead"
  }

  function RoleEmoji(role: UserRole): string {
    match role
    case Reporter => EmojiReporter
    case Lead => EmojiLead
  }

  datatype User = User(role: UserRole, displayName: string)

  /** `NewUser`: role and display name are stored as given. */
  function NewUser(role: UserRole, displayName: string): (u: User)
    ensures u.role == role && u.displayName == displayName
  {
    User(role, displayName)
  }

  /** `User.String`: the role's emoji, a space, the role's name, a colon, a space, the display name. */
  function UserString(u: User): (r: string)
    ensures RoleEmoji(u.role) + " " + RoleName(u.role) + ": " <= r
    ensures |r| == |RoleEmoji(u.role)| + 1 + |RoleName(u.role)| + 2 + |u.displayName|
    ensures |u.displayName| <= |r| && r[|r| - |u.displayName|..] == u.displayName
  {
    RoleEmoji(u.role) + " " + RoleName(u.role) + ": " + u.displayName
  }

  /** Two people with different roles or names never get the same label. */
  lemma UserStringInjective(u: User, v: User)
    requires UserString(u) == UserString(v)
    ensures u == v
  {
    // The two emoji first differ at index 3.
    assert UserString(u)[3] == RoleEmoji(u.role)[3];
    assert UserString(v)[3] == RoleEmoji(v.role)[3];
    assert u.role == v.role;
    var prefix := RoleEmoji(u.role) + " " + RoleName(u.role) + ": ";
    assert UserString(u) == prefix + u.displayName;
    assert UserString(v) == prefix + v.displayName;
    assert u.displayName == UserString(u)[|prefix|..];
  }

  /** A markdown text object, neither emoji-rendered nor verbatim. */
  function Markdown(s: string): TextObject {
    TextObject(MarkdownType, s, false, false)
  }

  /** `appendTextSectionBlock`: one more section block whose fields are the segments, in order. */
  function AppendTextSectionBlock(blocks: seq<Block>, segments: seq<string>): (r: seq<Block>)
    ensures |r| == |blocks| + 1 && r[..|blocks|] == blocks
    ensures r[|blocks|].Section? && r[|blocks|].text.None? && |r[|blocks|].fields| == |segments|
    ensures forall i :: 0 <= i < |segments| ==> r[|blocks|].fields[i] == Markdown(segments[i])
  {
    blocks + [Section(None, seq(|segments|, i requires 0 <= i < |segments| => Markdown(segments[i])))]
  }

  /** A button of the incident message: its action id, its label and the value it sends. */
  datatype IncidentAction = IncidentAction(id: string, text: string, value: string)

  /** `appendActionSectionBlock`: one more actions block with one button per action, in order. */
  function AppendActionSectionBlock(blocks: seq<Block>, actions: seq<IncidentAction>): (r: seq<Block>)
    ensures |r| == |blocks| + 1 && r[..|blocks|] == blocks
    ensures r[|blocks|].Actions? && r[|blocks|].blockId == "" && |r[|blocks|].elements| == |actions|
    ensures forall i :: 0 <= i < |actions| ==> (r[|blocks|].elements[i] ==
      Button(actions[i].id, actions[i].value, TextObject(PlainTextType, actions[i].text, true, false)))
  {
    blocks + [Actions("", seq(|actions|, i requires 0 <= i < |actions| =>
      Button(actions[i].id, actions[i].value, TextObject(PlainTextType, actions[i].text, true, false))))]
  }

  /** The single-text section that `appendTextSectionBlock` adds for one segment. */
  function TextSection(s: string): Block {
    Section(None, [Markdown(s)])
  }

  /** `appendTextSectionBlock` with one segment. */
  function AppendText(blocks: seq<Block>, s: string): (r: seq<Block>)
    ensures r == blocks + [TextSection(s)]
  {
    var r := AppendTextSectionBlock(blocks, [s]);
    assert r[|blocks|] == TextSection(s);
    assert r == r[..|blocks|] + [r[|blocks|]];
    r
  }

  /** Successive `appendTextSectionBlock` calls, one segment each. */
  function AppendTexts(blocks: seq<Block>, lines: seq<string>): (r: seq<Block>)
    ensures |r| == |blocks| + |lines| && r[..|blocks|] == blocks
    ensures forall i :: |blocks| <= i < |r| ==> r[i] == TextSection(lines[i - |blocks|])
  {
    if lines == [] then blocks
    else
      var r := AppendText(AppendTexts(blocks, lines[..|lines| - 1]), lines[|lines| - 1]);
      assert forall i :: 0 <= i < |lines| - 1 ==> lines[..|lines| - 1][i] == lines[i];
      r
  }

  /** The buttons of the incident message: close, edit and page, in that order. */
  function ActionBlock(): (b: Block)
    ensures b == Actions("", [
      Button("closeID", "close", TextObject(PlainTextType, "Close", true, false)),
      Button("editID", "edit", TextObject(PlainTextType, "Edit", true, false)),
      Button("pageID", "page", TextObject(PlainTextType, "Page on-call", true, false))])
  {
    var r := AppendActionSectionBlock([], IncidentActions);
    r[0]
  }

  /** Appending the actions block keeps every earlier block where it was. */
  lemma ActionsKeepEarlier(blocks: seq<Block>, actions: seq<IncidentAction>)
    ensures forall i :: 0 <= i < |blocks| ==> AppendActionSectionBlock(blocks, actions)[i] == blocks[i]
  {
    var r := AppendActionSectionBlock(blocks, actions);
    forall i | 0 <= i < |blocks| ensures r[i] == blocks[i] {
      assert r[..|blocks|][i] == r[i];
    }
  }

  /** The blocks of an incident message with the given detail lines. */
  function IncidentBlocks(title: string, reporter: User, lead: User, lines: seq<string>): (b: seq<Block>)
    requires |lines| >= 1
    ensures |b| == 6 + |lines|
    ensures b[0] == TextSection("*Incident*: " + title)
    ensures b[1] == TextSection(UserString(reporter)) && b[2] == TextSection(UserString(lead))
    ensures b[3] == Divider
    ensures forall k :: 0 <= k < |lines| ==> b[4 + k] == TextSection(lines[k])
    ensures b[|b| - 2] == Divider && b[|b| - 1] == ActionBlock()
  {
    LayoutBlocks("*Incident*: " + title, UserString(reporter), UserString(lead), lines)
  }

  /** Three header sections, a divider, one section per line, a divider and the actions. */
  function LayoutBlocks(head0: string, head1: string, head2: string, lines: seq<string>): (b: seq<Block>)
    requires |lines| >= 1
    ensures |b| == 6 + |lines|
    ensures b[0] == TextSection(head0) && b[1] == TextSection(head1) && b[2] == TextSection(head2)
    ensures b[3] == Divider
    ensures forall k :: 0 <= k < |lines| ==> b[4 + k] == TextSection(lines[k])
    ensures b[|b| - 2] == Divider && b[|b| - 1] == ActionBlock()
  {
    var header := AppendText(AppendText(AppendText([], head0), head1), head2);
    var details := AppendTexts(header + [Divider], lines);
    var blocks := AppendActionSectionBlock(details + [Divider], IncidentActions);
    assert details[..4] == header + [Divider];
    ActionsKeepEarlier(details + [Divider], IncidentActions);
    blocks
  }

  const IncidentActions := [
    IncidentAction("closeID", "Close", "close"),
    IncidentAction("editID", "Edit", "edit"),
    IncidentAction("pageID", "Page on-call", "page")]

  class Incident {
    var title: string
    var description: string
    var statusEmoji: string
    var startTime: int
    var endTime: int
    var duration: int
    var isClosed: bool
    var reporter: User
    var lead: User
    /** The name `Severity.String` gives the incident's severity. */
    var severity: string

    /** `NewIncident`: an open incident started now, with no description. */
    constructor (title: string, reporter: User, lead: User, severity: string, now: int)
      ensures this.title == title && this.reporter == reporter && this.lead == lead && this.severity == severity
      ensures startTime == now && !isClosed && description == "" && statusEmoji == ""
      ensures endTime == 0 && duration == 0
    {
      this.title := title;
      this.reporter := reporter;
      this.lead := lead;
      this.severity := severity;
      startTime := now;
      description := "";
      statusEmoji := "";
      endTime := 0;
      duration := 0;
      isClosed := false;
    }

    method SetLead(lead: User)
      modifies this
      ensures this.lead == lead
      ensures title == old(title) && description == old(description) && statusEmoji == old(statusEmoji)
      ensures startTime == old(startTime) && endTime == old(endTime) && duration == old(duration)
      ensures isClosed == old(isClosed) && reporter == old(reporter) && severity == old(severity)
    {
      this.lead := lead;
    }

    method SetDescription(description: string)
      modifies this
      ensures this.description == description
      ensures title == old(title) && lead == old(lead) && statusEmoji == old(statusEmoji)
      ensures startTime == old(startTime) && endTime == old(endTime) && duration == old(duration)
      ensures isClosed == old(isClosed) && reporter == old(reporter) && severity == old(severity)
    {
      this.description := description;
    }

    /** `Close`: closed now; the duration is the saturated time since the start. */
    method Close(now: int)
      modifies this
      ensures isClosed && endTime == now && duration == Sub(now, startTime)
      ensures statusEmoji == EmojiGreenCheckmark
      ensures title == old(title) && description == old(description) && lead == old(lead)
      ensures startTime == old(startTime) && reporter == old(reporter) && severity == old(severity)
    {
      isClosed := true;
      endTime := now;
      duration := Sub(endTime, startTime);
      statusEmoji := EmojiGreenCheckmark;
    }

    /** The text of the status line: `open` until the incident is closed. */
    function StatusLine(): string
      reads this
    {
      EmojiTV + " Status: " + (if isClosed then StatusClosed else StatusOpen)
    }

    /** The texts of the detail lines, one section each. */
    function DetailLines(humanizeTimestamp: int -> string): (r: seq<string>)
      reads this
      ensures |r| == 3 + (if isClosed then 2 else 0) + (if description != "" then 1 else 0)
      ensures r[0] == StatusLine()
      ensures r[1] == EmojiRotatingLight + " Severity: " + severity
      ensures r[2] == EmojiClock + " Started: " + humanizeTimestamp(startTime)
      ensures isClosed ==> r[3] == EmojiClock + " Closed: " + humanizeTimestamp(endTime)
      ensures isClosed ==> r[4] == EmojiClock + " Duration: " + HumanizeDuration(duration)
      ensures description != "" ==> r[|r| - 1] == EmojiNotebook + " Description: " + description
    {
      [StatusLine(),
       EmojiRotatingLight + " Severity: " + severity,
       EmojiClock + " Started: " + humanizeTimestamp(startTime)]
      + (if isClosed then
          [EmojiClock + " Closed: " + humanizeTimestamp(endTime),
           EmojiClock + " Duration: " + HumanizeDuration(duration)]
         else [])
      + (if description != "" then [EmojiNotebook + " Description: " + description] else [])
    }

    /**
     * `ToSlackMessage`: header (title, reporter, lead), a divider, the details
     * (status, severity, start; the close time and duration once closed; the
     * description when there is one), a divider, and the three buttons.
     */
    function ToSlackMessage(humanizeTimestamp: int -> string): (m: Msg)
      reads this
      ensures var b, lines := m.blocks, DetailLines(humanizeTimestamp);
        && |b| == 6 + |lines|
        && b[0] == TextSection("*Incident*: " + title)
        && b[1] == TextSection(UserString(reporter))
        && b[2] == TextSection(UserString(lead))
        && b[3] == Divider
        && (forall k :: 0 <= k < |lines| ==> b[4 + k] == TextSection(lines[k]))
        && b[|b| - 2] == Divider
        && b[|b| - 1] == ActionBlock()
      ensures m.text == "" && m.attachments.None?
    {
      var blocks := IncidentBlocks(title, reporter, lead, DetailLines(humanizeTimestamp));
      Msg("", "", "", "", "", blocks, None, [])
    }
  }

  /**
   * The detail blocks of an incident message: status, severity and start; the close time
   * and duration once closed; the description last when there is one.
   */
  lemma MessageDetails(i: Incident, humanizeTimestamp: int -> string)
    ensures var b := i.ToSlackMessage(humanizeTimestamp).blocks;
      && |b| == 9 + (if i.isClosed then 2 else 0) + (if i.description != "" then 1 else 0)
      && b[4] == TextSection(i.StatusLine())
      && b[5] == TextSection(EmojiRotatingLight + " Severity: " + i.severity)
      && b[6] == TextSection(EmojiClock + " Started: " + humanizeTimestamp(i.startTime))
      && (i.isClosed ==> b[7] == TextSection(EmojiClock + " Closed: " + humanizeTimestamp(i.endTime)))
      && (i.isClosed ==> b[8] == TextSection(EmojiClock + " Duration: " + HumanizeDuration(i.duration)))
      && (i.description != "" ==> b[|b| - 3] == TextSection(EmojiNotebook + " Description: " + i.description))
  {
    var b, lines := i.ToSlackMessage(humanizeTimestamp).blocks, i.DetailLines(humanizeTimestamp);
    assert b[4] == TextSection(lines[0]);
    assert b[5] == TextSection(lines[1]) && b[6] == TextSection(lines[2]);
    if i.isClosed {
      assert b[7] == TextSection(lines[3]) && b[8] == TextSection(lines[4]);
    }
    assert b[4 + (|lines| - 1)] == TextSection(lines[|lines| - 1]);
  }

  /** The status line says `open` exactly while the incident is not closed. */
  lemma StatusOpenIffNotClosed(i: Incident)
    ensures i.StatusLine() == EmojiTV + " Status: open" <==> !i.isClosed
  {
    if i.isClosed {
      assert i.StatusLine()[|i.StatusLine()| - 1] == 'd';
    }
  }
}
