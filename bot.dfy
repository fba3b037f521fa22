/**
 * The chat bot (`pkg/bot`): commands are registered once, and each message
 * that mentions the bot is normalised and routed to every command one of
 * whose keywords starts it, after checking that the sender holds the
 * command's role; when no command matches, the help command answers.
 */
module Bot {
  import opened Wrappers
  import Strings
  import Slice
  import opened SlackApi
  import opened Auth
  import Config

  const NotAuthorizedText := "You are not authorized :x:"

  /**
   * A command: its keywords, description and required role, the error its
   * `Init` reports (if any), and what its `Run` answers to a message.
   */
  datatype Command = Command(
    keywords: seq<string>,
    description: string,
    role: string,
    initError: Option<string>,
    run: Msg -> Result<Msg>)

  /** The ID lists of the authorizer, one per role. */
  datatype Roles = Roles(base: seq<string>, kubernetesUsers: seq<string>, kubernetesAdmins: seq<string>)

  /** `IsUserAuthorized` over the lists. */
  predicate Allows(roles: Roles, userId: string, role: string) {
    || (role == Base && userId in roles.base)
    || (role == KubernetesUser && userId in roles.kubernetesUsers)
    || (role == KubernetesAdmin && userId in roles.kubernetesAdmins)
  }

  /** The reply of the help command: a markdown message with the command table in a code block. */
  function HelpMsg(table: string): Msg {
    Msg(MarkdownType, "```\n" + table + "\n```", "", "", "", [], None, [])
  }

  /** `newHelpCommand`: answers `help`, for the Base role, with the table `layout` renders for the given commands. */
  function HelpCommand(available: seq<Command>, layout: seq<Command> -> string): Command {
    Command(["help"], "Help for all commands", Base, None, (m: Msg) => Ok(HelpMsg(layout(available))))
  }

  /** The commands whose `Init` succeeded, in registration order. */
  function Registered(available: seq<Command>): seq<Command> {
    if available == [] then []
    else
      var prev := Registered(available[..|available| - 1]);
      var c := available[|available| - 1];
      if c.initError.None? then prev + [c] else prev
  }

  /** Which commands initialised, position by position. */
  function InitMask(available: seq<Command>): (mask: seq<bool>)
    ensures |mask| == |available|
    ensures forall i :: 0 <= i < |available| ==> (mask[i] <==> available[i].initError.None?)
  {
    seq(|available|, i requires 0 <= i < |available| => available[i].initError.None?)
  }

  /** Exactly the commands that initialise are registered, each once, in their original order. */
  lemma {:induction false} RegisteredSubsequence(available: seq<Command>)
    ensures Registered(available) == Slice.Select(available, InitMask(available))
    ensures |Registered(available)| <= |available|
    ensures forall i :: 0 <= i < |Registered(available)| ==> Registered(available)[i].initError.None?
    ensures forall j :: 0 <= j < |available| && available[j].initError.None? ==>
      exists i :: 0 <= i < |Registered(available)| && Registered(available)[i] == available[j]
  {
    if available != [] {
      var init := available[..|available| - 1];
      RegisteredSubsequence(init);
      assert InitMask(available)[..|available| - 1] == InitMask(init);
      forall j | 0 <= j < |available| && available[j].initError.None?
        ensures exists i :: 0 <= i < |Registered(available)| && Registered(available)[i] == available[j]
      {
        if j < |init| {
          assert init[j] == available[j];
          var i :| 0 <= i < |Registered(init)| && Registered(init)[i] == init[j];
          assert Registered(available)[i] == Registered(init)[i];
        } else {
          assert Registered(available)[|Registered(available)| - 1] == available[j];
        }
      }
    }
  }

  /** The mention that must open a message for the bot to act. */
  function Mention(selfId: string): string {
    "<@" + selfId + ">"
  }

  /** The text with the mention stripped, then trimmed, then lower-cased. */
  function Normalized(text: string, selfId: string): string {
    Strings.ToLower(Strings.TrimSpace(Strings.TrimPrefix(text, Mention(selfId))))
  }

  /** The normalised text has no upper-case letter and no white space at either end. */
  lemma NormalizedShape(text: string, selfId: string)
    ensures var r := Normalized(text, selfId);
      && Strings.IsLower(r)
      && (r == [] || (!Strings.IsSpace(r[0]) && !Strings.IsSpace(r[|r| - 1])))
  {
    var t := Strings.TrimSpace(Strings.TrimPrefix(text, Mention(selfId)));
    if t != [] {
      Strings.LowerKeepsSpace(t[0]);
      Strings.LowerKeepsSpace(t[|t| - 1]);
    }
  }

  /** The options `respond` sends: the bot's name, as user, the text; the blocks if any; the attachments if not nil. */
  function RespondOptions(botId: string, msg: Msg): seq<MsgOption> {
    [OptUsername(botId), OptAsUser(true), OptText(msg.text, false)]
      + (if |msg.blocks| > 0 then [OptBlocks(msg.blocks)] else [])
      + (if msg.attachments.Some? then [OptAttachments(msg.attachments.value)] else [])
  }

  /** Blocks are sent exactly when there are some, attachments exactly when they are not nil, after the three fixed options. */
  lemma RespondOptionsShape(botId: string, msg: Msg)
    ensures var o := RespondOptions(botId, msg);
      && |o| == 3 + (if |msg.blocks| > 0 then 1 else 0) + (if msg.attachments.Some? then 1 else 0)
      && o[..3] == [OptUsername(botId), OptAsUser(true), OptText(msg.text, false)]
      && (OptBlocks(msg.blocks) in o <==> |msg.blocks| > 0)
      && ((exists a :: OptAttachments(a) in o) <==> msg.attachments.Some?)
  {
    var o := RespondOptions(botId, msg);
    if msg.attachments.Some? {
      assert o[|o| - 1] == OptAttachments(msg.attachments.value);
    }
  }

  /** `respond`: the reply posted to the channel of the original message. */
  function Responded(st: SlackState, outcome: nat -> Option<string>, botId: string, reply: Msg, original: Msg): (SlackState, Option<string>) {
    Posted(st, outcome, original.channel, RespondOptions(botId, reply))
  }

  /** How the command loop ends: after every command (and whether one matched), or early with an error or none. */
  datatype Flow = Finished(matched: bool) | Stopped(err: Option<string>)

  /** The command loop of `handleMessageEvent`, from the first of `cmds` on. */
  function RunCommands(st: SlackState, outcome: nat -> Option<string>, roles: Roles, botId: string,
                       cmds: seq<Command>, m: Msg, matched: bool): (SlackState, Flow)
    decreases |cmds|
  {
    if cmds == [] then (st, Finished(matched))
    else
      var c := cmds[0];
      if !Slice.HasAnyPrefix(c.keywords, m.text) then RunCommands(st, outcome, roles, botId, cmds[1..], m, matched)
      else if !Allows(roles, m.user, c.role) then (Responded(st, outcome, botId, TextMsg(NotAuthorizedText), m).0, Stopped(None))
      else
        var reply := c.run(m);
        if reply.Err? then (st, Stopped(Some(reply.error)))
        else
          var (s1, err) := Responded(st, outcome, botId, reply.value, m);
          if err.Some? then (s1, Stopped(err))
          else RunCommands(s1, outcome, roles, botId, cmds[1..], m, true)
  }

  /**
   * `handleMessageEvent`: the new workspace state, the event's message as it
   * is left (its text normalised when the bot was mentioned), and the error.
   */
  function HandleMessage(st: SlackState, outcome: nat -> Option<string>, roles: Roles, botId: string, selfId: string,
                         commands: seq<Command>, help: Command, e: Msg): (SlackState, Msg, Option<string>)
  {
    if !(Mention(selfId) <= e.text) then (st, e, None)
    else
      var m := e.(text := Normalized(e.text, selfId));
      var (s1, flow) := RunCommands(st, outcome, roles, botId, commands, m, false);
      if flow.Stopped? then (s1, m, flow.err)
      else if flow.matched then (s1, m, None)
      else
        var reply := help.run(m);
        if reply.Err? then (s1, m, Some(reply.error))
        else
          var (s2, err) := Responded(s1, outcome, botId, reply.value, m);
          (s2, m, err)
  }

  /** A message that does not open with the mention is left alone and answered by nobody. */
  lemma UnmentionedIgnored(st: SlackState, outcome: nat -> Option<string>, roles: Roles, botId: string, selfId: string,
                           commands: seq<Command>, help: Command, e: Msg)
    requires !(Mention(selfId) <= e.text)
    ensures HandleMessage(st, outcome, roles, botId, selfId, commands, help, e) == (st, e, None)
  {
  }

  /** Only the text of the message changes. */
  lemma OnlyTextRewritten(st: SlackState, outcome: nat -> Option<string>, roles: Roles, botId: string, selfId: string,
                          commands: seq<Command>, help: Command, e: Msg)
    requires Mention(selfId) <= e.text
    ensures HandleMessage(st, outcome, roles, botId, selfId, commands, help, e).1 == e.(text := Normalized(e.text, selfId))
  {
    var m := e.(text := Normalized(e.text, selfId));
    var run := RunCommands(st, outcome, roles, botId, commands, m, false);
    var reply := help.run(m);
    if !run.1.Stopped? && !run.1.matched && reply.Ok? {
      var (s2, err) := Responded(run.0, outcome, botId, reply.value, m);
      assert HandleMessage(st, outcome, roles, botId, selfId, commands, help, e) == (s2, m, err);
    }
  }

  /** The replies of the matching commands, in order. */
  function Replies(botId: string, cmds: seq<Command>, m: Msg): seq<Call>
    requires forall i :: 0 <= i < |cmds| && Slice.HasAnyPrefix(cmds[i].keywords, m.text) ==> cmds[i].run(m).Ok?
    decreases |cmds|
  {
    if cmds == [] then []
    else
      var rest := Replies(botId, cmds[1..], m);
      assert forall i :: 1 <= i < |cmds| ==> cmds[1..][i - 1] == cmds[i];
      if Slice.HasAnyPrefix(cmds[0].keywords, m.text) then [Post(m.channel, RespondOptions(botId, cmds[0].run(m).value))] + rest
      else rest
  }

  /** Some command matches the text. */
  predicate AnyMatches(cmds: seq<Command>, m: Msg) {
    exists i :: 0 <= i < |cmds| && Slice.HasAnyPrefix(cmds[i].keywords, m.text)
  }

  /**
   * When the sender may run every matching command, every run succeeds and no
   * post fails, every matching command answers, in registration order, and
   * nothing else is posted.
   */
  lemma {:induction false} EveryMatchAnswers(st: SlackState, outcome: nat -> Option<string>, roles: Roles, botId: string,
                                             cmds: seq<Command>, m: Msg, matched: bool)
    requires forall i :: 0 <= i < |cmds| && Slice.HasAnyPrefix(cmds[i].keywords, m.text) ==>
      Allows(roles, m.user, cmds[i].role) && cmds[i].run(m).Ok?
    requires forall n :: outcome(n).None?
    ensures var (r, flow) := RunCommands(st, outcome, roles, botId, cmds, m, matched);
      && r.calls == st.calls + Replies(botId, cmds, m)
      && flow == Finished(matched || AnyMatches(cmds, m))
    decreases |cmds|
  {
    if cmds != [] {
      assert forall i :: 1 <= i < |cmds| ==> cmds[1..][i - 1] == cmds[i];
      var c := cmds[0];
      if Slice.HasAnyPrefix(c.keywords, m.text) {
        var s1 := Responded(st, outcome, botId, c.run(m).value, m).0;
        EveryMatchAnswers(s1, outcome, roles, botId, cmds[1..], m, true);
      } else {
        EveryMatchAnswers(st, outcome, roles, botId, cmds[1..], m, matched);
        assert AnyMatches(cmds, m) ==> AnyMatches(cmds[1..], m);
      }
    }
  }

  /**
   * The first matching command the sender lacks the role for ends the loop:
   * the sender is told, and no later command runs.
   */
  lemma {:induction false} UnauthorizedStops(st: SlackState, outcome: nat -> Option<string>, roles: Roles, botId: string,
                                             cmds: seq<Command>, m: Msg, matched: bool, k: nat)
    requires k < |cmds| && Slice.HasAnyPrefix(cmds[k].keywords, m.text) && !Allows(roles, m.user, cmds[k].role)
    requires forall i :: 0 <= i < k ==> !Slice.HasAnyPrefix(cmds[i].keywords, m.text)
    ensures RunCommands(st, outcome, roles, botId, cmds, m, matched) ==
      (Posted(st, outcome, m.channel, RespondOptions(botId, TextMsg(NotAuthorizedText))).0, Stopped(None))
    decreases k
  {
    if k > 0 {
      assert forall i :: 0 <= i < k - 1 ==> cmds[1..][i] == cmds[i + 1];
      UnauthorizedStops(st, outcome, roles, botId, cmds[1..], m, matched, k - 1);
    }
  }

  /** When no command matches, only the help command answers. */
  lemma {:induction false} NoMatchIsQuiet(st: SlackState, outcome: nat -> Option<string>, roles: Roles, botId: string,
                                          cmds: seq<Command>, m: Msg, matched: bool)
    requires !AnyMatches(cmds, m)
    ensures RunCommands(st, outcome, roles, botId, cmds, m, matched) == (st, Finished(matched))
    decreases |cmds|
  {
    if cmds != [] {
      assert forall i :: 0 <= i < |cmds| - 1 ==> cmds[1..][i] == cmds[i + 1];
      NoMatchIsQuiet(st, outcome, roles, botId, cmds[1..], m, matched);
    }
  }

  lemma HelpFallback(st: SlackState, outcome: nat -> Option<string>, roles: Roles, botId: string, selfId: string,
                     commands: seq<Command>, help: Command, e: Msg)
    requires Mention(selfId) <= e.text
    requires !AnyMatches(commands, e.(text := Normalized(e.text, selfId)))
    ensures var m := e.(text := Normalized(e.text, selfId));
      var r := HandleMessage(st, outcome, roles, botId, selfId, commands, help, e);
      && (help.run(m).Err? ==> r == (st, m, Some(help.run(m).error)))
      && (help.run(m).Ok? ==> r.0.calls == st.calls + [Post(e.channel, RespondOptions(botId, help.run(m).value))])
  {
    NoMatchIsQuiet(st, outcome, roles, botId, commands, e.(text := Normalized(e.text, selfId)), false);
  }

  /** `Bot`: the registered commands (help last) and the clients they answer through. */
  class Bot {
    const authorizer: Authorizer
    const slack: Workspace
    /** `cfg.BotID`, the name replies are sent under. */
    const botId: string
    /** The bot's own user ID as the real-time connection reports it. */
    const selfId: string
    var helpCommand: Command
    var commands: seq<Command>

    /** `New`: the commands whose `Init` succeeds, then the help command built from them. */
    constructor (authorizer: Authorizer, cfg: Config.SlackConfig, slack: Workspace, selfId: string,
                 available: seq<Command>, layout: seq<Command> -> string)
      ensures this.authorizer == authorizer && this.slack == slack && botId == cfg.botId && this.selfId == selfId
      ensures helpCommand == HelpCommand(Registered(available), layout)
      ensures commands == Registered(available) + [helpCommand]
    {
      this.authorizer := authorizer;
      this.slack := slack;
      botId := cfg.botId;
      this.selfId := selfId;
      var registered: seq<Command> := [];
      for i := 0 to |available|
        invariant registered == Registered(available[..i])
      {
        assert available[..i + 1][..i] == available[..i];
        var c := available[i];
        if c.initError.Some? {
          continue;
        }
        registered := registered + [c];
      }
      assert available[..|available|] == available;
      helpCommand := HelpCommand(registered, layout);
      commands := registered + [helpCommand];
    }

    /** The authorizer's lists as they are now. */
    function RolesNow(): Roles
      reads authorizer
    {
      Roles(authorizer.authorizedUserIds, authorizer.kubernetesUsersUserIds, authorizer.kubernetesAdminsUserIds)
    }

    /** `respond`. */
    method Respond(reply: Msg, original: Msg) returns (err: Option<string>)
      modifies slack
      ensures (slack.State(), err) == Responded(old(slack.State()), slack.callOutcome, botId, reply, original)
    {
      var opts := [OptUsername(botId), OptAsUser(true), OptText(reply.text, false)];
      if |reply.blocks| > 0 {
        opts := opts + [OptBlocks(reply.blocks)];
      }
      if reply.attachments != None {
        opts := opts + [OptAttachments(reply.attachments.value)];
      }
      assert opts == RespondOptions(botId, reply);
      err := slack.PostMessage(original.channel, opts);
    }

    /** `handleMessageEvent`: returns the event's message as it is left, and the error. */
    method HandleMessageEvent(e: Msg) returns (msg: Msg, err: Option<string>)
      modifies slack
      ensures (slack.State(), msg, err) ==
        HandleMessage(old(slack.State()), slack.callOutcome, RolesNow(), botId, selfId, commands, helpCommand, e)
    {
      ghost var st0 := slack.State();
      var prefix := "<@" + selfId + ">";
      if !(prefix <= e.text) {
        return e, None;
      }
      var text := e.text;
      text := Strings.TrimPrefix(text, prefix);
      text := Strings.TrimSpace(text);
      text := Strings.ToLower(text);
      msg := e.(text := text);
      ghost var flow0 := RunCommands(st0, slack.callOutcome, RolesNow(), botId, commands, msg, false);
      var atLeastOneCommand := false;
      for i := 0 to |commands|
        invariant RunCommands(slack.State(), slack.callOutcome, RolesNow(), botId, commands[i..], msg, atLeastOneCommand) == flow0
      {
        assert commands[i..][1..] == commands[i + 1..];
        var c := commands[i];
        if Slice.HasAnyPrefix(c.keywords, msg.text) {
          if !authorizer.IsUserAuthorized(msg.user, c.role) {
            var _ := Respond(TextMsg(NotAuthorizedText), msg);
            return msg, None;
          }
          atLeastOneCommand := true;
          var response := c.run(msg);
          if response.Err? {
            return msg, Some(response.error);
          }
          err := Respond(response.value, msg);
          if err.Some? {
            return;
          }
        }
      }
      assert commands[|commands|..] == [];
      if atLeastOneCommand {
        return msg, None;
      }
      var response := helpCommand.run(msg);
      if response.Err? {
        return msg, Some(response.error);
      }
      err := Respond(response.value, msg);
    }
  }
}
