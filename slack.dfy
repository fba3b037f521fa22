/**
 * The parts of the Slack API the bot uses: messages with attachments and
 * reactions, Block Kit blocks, message options, and a workspace whose channel
 * histories, user directory and call outcomes are fixed by the environment.
 *
 * The workspace's own state is the reactions it holds on each message and the
 * log of every write made to it (posts and reactions); `SlackState` is that
 * state as a value, and the functions below say how each write changes it.
 */
module SlackApi {
  import opened Wrappers

  const MarkdownType := "mrkdwn"
  const PlainTextType := "plain_text"

  /** `slack.TextBlockObject`. */
  datatype TextObject = TextObject(kind: string, text: string, emoji: bool, verbatim: bool)

  /** A button of an actions block. */
  datatype Button = Button(actionId: string, value: string, text: TextObject)

  /** A Block Kit block: a section (text and fields), a divider, or a row of buttons. */
  datatype Block =
    | Section(text: Option<TextObject>, fields: seq<TextObject>)
    | Divider
    | Actions(blockId: string, elements: seq<Button>)

  datatype Attachment = Attachment(text: string)

  /**
   * `slack.Msg`: a message as the bot reads or writes it; `attachments` is `None`
   * where the Go slice is nil, and `reactions` lists the names of the reactions.
   */
  datatype Msg = Msg(
    kind: string,
    text: string,
    user: string,
    channel: string,
    timestamp: string,
    blocks: seq<Block>,
    attachments: Option<seq<Attachment>>,
    reactions: seq<string>)

  /** A message with nothing but a text. */
  function TextMsg(text: string): Msg {
    Msg("", text, "", "", "", [], None, [])
  }

  /** The number of attachments, nil counting as none. */
  function AttachmentCount(m: Msg): nat {
    if m.attachments.Some? then |m.attachments.value| else 0
  }

  /** `slack.MsgOption`s the bot passes to `PostMessage`. */
  datatype MsgOption =
    | OptText(text: string, escape: bool)
    | OptTs(ts: string)
    | OptUsername(name: string)
    | OptAsUser(asUser: bool)
    | OptBlocks(blocks: seq<Block>)
    | OptAttachments(attachments: seq<Attachment>)

  datatype SlackUser = SlackUser(id: string, name: string, email: string)

  datatype UserGroup = UserGroup(name: string, users: seq<string>)

  /** A write to the workspace. */
  datatype Call =
    | Post(channel: string, options: seq<MsgOption>)
    | React(channel: string, ts: string, name: string)

  /** The reactions on every message, keyed by channel and timestamp, and the writes so far. */
  datatype SlackState = SlackState(reactions: map<(string, string), seq<string>>, calls: seq<Call>)

  /** The reactions on one message (none when it has never been reacted to). */
  function ReactionsOn(st: SlackState, channel: string, ts: string): seq<string> {
    if (channel, ts) in st.reactions then st.reactions[(channel, ts)] else []
  }

  /** A post: logged; its outcome is the oracle's answer for its position in the log. */
  function Posted(st: SlackState, outcome: nat -> Option<string>, channel: string, options: seq<MsgOption>): (r: (SlackState, Option<string>))
    ensures r.0.reactions == st.reactions && r.0.calls == st.calls + [Post(channel, options)]
    ensures r.1 == outcome(|st.calls|)
  {
    (st.(calls := st.calls + [Post(channel, options)]), outcome(|st.calls|))
  }

  /** A reaction: logged, and added to the message when it succeeds. */
  function Reacted(st: SlackState, outcome: nat -> Option<string>, channel: string, ts: string, name: string): (r: (SlackState, Option<string>))
    ensures r.0.calls == st.calls + [React(channel, ts, name)] && r.1 == outcome(|st.calls|)
    ensures r.1.None? ==> name in ReactionsOn(r.0, channel, ts)
    ensures forall c, t :: (c, t) != (channel, ts) || r.1.Some? ==> ReactionsOn(r.0, c, t) == ReactionsOn(st, c, t)
    ensures forall c, t, n :: n in ReactionsOn(st, c, t) ==> n in ReactionsOn(r.0, c, t)
  {
    var calls := st.calls + [React(channel, ts, name)];
    var err := outcome(|st.calls|);
    if err.None? then
      (SlackState(st.reactions[(channel, ts) := ReactionsOn(st, channel, ts) + [name]], calls), None)
    else
      (st.(calls := calls), err)
  }

  /** A channel's history as the workspace reports it: each message with the reactions it now carries. */
  function WithReactions(st: SlackState, channel: string, messages: seq<Msg>): (r: seq<Msg>)
    ensures |r| == |messages|
    ensures forall i :: 0 <= i < |r| ==> r[i] == messages[i].(reactions := ReactionsOn(st, channel, messages[i].timestamp))
  {
    if messages == [] then []
    else [messages[0].(reactions := ReactionsOn(st, channel, messages[0].timestamp))] + WithReactions(st, channel, messages[1..])
  }

  function HistoryResult(st: SlackState, listed: Result<seq<Msg>>, channel: string): Result<seq<Msg>> {
    if listed.Err? then Err(listed.error) else Ok(WithReactions(st, channel, listed.value))
  }

  /** The workspace the bot talks to. */
  class Workspace {
    /** The messages of each channel (their reactions are the workspace's), or the error fetching them. */
    const history: string -> Result<seq<Msg>>
    const userById: string -> Result<SlackUser>
    const userByEmail: string -> Result<SlackUser>
    const userGroups: nat -> Result<seq<UserGroup>>
    /** The error, if any, of the write at this position of the log. */
    const callOutcome: nat -> Option<string>
    var reactions: map<(string, string), seq<string>>
    var calls: seq<Call>

    constructor (
      history: string -> Result<seq<Msg>>,
      userById: string -> Result<SlackUser>,
      userByEmail: string -> Result<SlackUser>,
      userGroups: nat -> Result<seq<UserGroup>>,
      callOutcome: nat -> Option<string>,
      reactions: map<(string, string), seq<string>>)
      ensures this.history == history && this.userById == userById && this.userByEmail == userByEmail
      ensures this.userGroups == userGroups && this.callOutcome == callOutcome
      ensures State() == SlackState(reactions, [])
    {
      this.history := history;
      this.userById := userById;
      this.userByEmail := userByEmail;
      this.userGroups := userGroups;
      this.callOutcome := callOutcome;
      this.reactions := reactions;
      calls := [];
    }

    function State(): SlackState
      reads this
    {
      SlackState(reactions, calls)
    }

    method GetConversationHistory(channel: string) returns (r: Result<seq<Msg>>)
      ensures r == HistoryResult(State(), history(channel), channel)
    {
      r := HistoryResult(State(), history(channel), channel);
    }

    method PostMessage(channel: string, options: seq<MsgOption>) returns (err: Option<string>)
      modifies this
      ensures (State(), err) == Posted(old(State()), callOutcome, channel, options)
    {
      var r := Posted(State(), callOutcome, channel, options);
      reactions, calls, err := r.0.reactions, r.0.calls, r.1;
    }

    method AddReactionToMessage(channel: string, ts: string, name: string) returns (err: Option<string>)
      modifies this
      ensures (State(), err) == Reacted(old(State()), callOutcome, channel, ts, name)
    {
      var r := Reacted(State(), callOutcome, channel, ts, name);
      reactions, calls, err := r.0.reactions, r.0.calls, r.1;
    }

    method GetUserByID(id: string) returns (r: Result<SlackUser>)
      ensures r == userById(id)
    {
      r := userById(id);
    }

    method GetUserByEmail(email: string) returns (r: Result<SlackUser>)
      ensures r == userByEmail(email)
    {
      r := userByEmail(email);
    }
  }
}
