/**
 * The HTTP side of the bot (`pkg/api`): Slack's interaction callbacks (a click
 * on the acknowledge button of an alert) and the periodic synchronisation of
 * PagerDuty incidents into the alert channels.
 *
 * The effect of each request is first stated as a function of the Slack
 * state and the PagerDuty write log; the `Api` methods then do the work step
 * by step and are proved to have exactly that effect.
 */
module Api {
  import opened Wrappers
  import Strings
  import opened SlackApi
  import opened PagerdutyTypes
  import Pagerduty
  import opened Filters
  import ClusterParse
  import opened Correlator
  import opened Auth
  import opened SyncSpec
  import Config

  const ActionType := "button"
  const ActionName := "reaction"
  const ActionValueAcknowledge := "acknowledge"

  const StructureError := "slack message structure doesn't fit"
  const ParsingError := "slack message parsing for alertname and cluster failed"

  const StatusOK := 200
  const StatusUnauthorized := 401
  const StatusMethodNotAllowed := 405
  const StatusInternalServerError := 500

  /** One action of an interaction callback: which control, of what type, with what value. */
  datatype AttachmentAction = AttachmentAction(name: string, kind: string, value: string)

  /** The parts of `slack.InteractionCallback` the bot reads. */
  datatype InteractionCallback = InteractionCallback(
    token: string,
    userId: string,
    userName: string,
    channelId: string,
    originalMessage: Msg,
    actions: seq<AttachmentAction>)

  /** An HTTP request: its method (verb) and its body, or the error reading the body. */
  datatype Request = Request(verb: string, body: Result<string>)

  /**
   * What the acknowledgement reads and the outcomes of its writes: Slack's write
   * outcomes and user lookup, PagerDuty's user listing, default user, incident
   * lookups and write outcomes, and the lookup of the incident for a filter.
   */
  datatype Services = Services(
    callOutcome: nat -> Option<string>,
    userById: string -> Result<SlackUser>,
    listUsers: string -> Result<seq<User>>,
    defaultUser: User,
    incidentFor: (Option<seq<string>>, string) -> Result<Incident>,
    getIncident: string -> Result<Incident>,
    writeOutcome: nat -> Option<string>)

  // ---- Acknowledging from Slack ------------------------------------------

  /** The threaded reply that names who pressed the button. */
  function AckOptions(userId: string, ts: string): seq<MsgOption> {
    [OptText(AcknowledgeText(userId), false), OptTs(ts)]
  }

  /** The PagerDuty user to act as: the one with the Slack user's address, or else the default user. */
  function ActingUser(sv: Services, email: string): User {
    var u := Pagerduty.UserByEmail(sv.listUsers(email), email);
    if u.Ok? then u.value else sv.defaultUser
  }

  /** The clusters and alertname a fresh filter takes from the alert text, or the parsing error. */
  function AlertQuery(text: string): Result<(Option<seq<string>>, string)> {
    var clusters := ClusterParse.ParseClusterFromString(text);
    if clusters.Err? then Err(ParsingError)
    else
      var parsed := ParseRegionAndAlertname(text);
      if parsed.Err? then Err(ParsingError)
      else Ok((Some(clusters.value), parsed.value.1))
  }

  /** The first attachment's text, or `""` when there is none. */
  function AlertBody(m: Msg): string {
    if AttachmentCount(m) == 0 then "" else m.attachments.value[0].text
  }

  /**
   * The incident to acknowledge and the user to acknowledge it as, once the
   * Slack side is done, or the error that ends the acknowledgement.
   */
  function Target(sv: Services, cb: InteractionCallback): Result<(Incident, User)> {
    var slackUser := sv.userById(cb.userId);
    if slackUser.Err? then Err(slackUser.error)
    else
      var user := ActingUser(sv, slackUser.value.email);
      var text := AlertBody(cb.originalMessage);
      if text == "" then Err(StructureError)
      else
        var query := AlertQuery(text);
        if query.Err? then Err(query.error)
        else
          var incident := sv.incidentFor(query.value.0, query.value.1);
          if incident.Err? then Err(incident.error) else Ok((incident.value, user))
  }

  /** `AcknowledgeIncident` for the target, as the PagerDuty write log and the error. */
  function AckPagerduty(writes: seq<Pagerduty.Write>, sv: Services, cb: InteractionCallback, now: string): (seq<Pagerduty.Write>, Option<string>) {
    var t := Target(sv, cb);
    if t.Err? then (writes, Some(t.error))
    else
      var (incident, user) := t.value;
      var fetched := sv.getIncident(incident.id);
      if fetched.Err? then (writes, Some(fetched.error))
      else
        (writes + [Pagerduty.ManageIncidents(user.email, [Pagerduty.Acknowledged(fetched.value, user, now)])],
         sv.writeOutcome(|writes|))
  }

  /**
   * `acknowledge`: the reply naming the user, the firefighter reaction on the
   * alert, then the PagerDuty acknowledgement; the first error ends it.
   */
  function AckEffect(st: SlackState, writes: seq<Pagerduty.Write>, sv: Services, cb: InteractionCallback, now: string)
    : (SlackState, seq<Pagerduty.Write>, Option<string>)
  {
    var ts := cb.originalMessage.timestamp;
    var (posted, e1) := Posted(st, sv.callOutcome, cb.channelId, AckOptions(cb.userId, ts));
    if e1.Some? then (posted, writes, e1)
    else
      var (reacted, e2) := Reacted(posted, sv.callOutcome, cb.channelId, ts, EmojiFirefighter);
      if e2.Some? then (reacted, writes, e2)
      else
        var (w, e3) := AckPagerduty(writes, sv, cb, now);
        (reacted, w, e3)
  }

  /**
   * The Slack side of an acknowledgement: always the reply first, and the
   * firefighter reaction only when the reply went through; nothing else.
   */
  lemma AcknowledgeSlackCalls(st: SlackState, writes: seq<Pagerduty.Write>, sv: Services, cb: InteractionCallback, now: string)
    ensures var r := AckEffect(st, writes, sv, cb, now);
      var ts := cb.originalMessage.timestamp;
      r.0.calls == st.calls + [Post(cb.channelId, AckOptions(cb.userId, ts))]
        + (if sv.callOutcome(|st.calls|).None? then [React(cb.channelId, ts, EmojiFirefighter)] else [])
    ensures var r := AckEffect(st, writes, sv, cb, now);
      sv.callOutcome(|st.calls|).None? && sv.callOutcome(|st.calls| + 1).None? ==>
        EmojiFirefighter in ReactionsOn(r.0, cb.channelId, cb.originalMessage.timestamp)
  {
  }

  /**
   * PagerDuty is written to at most once, and only after both Slack writes
   * succeeded: an acknowledgement of the incident found for the clusters and
   * alertname in the alert's text, on behalf of the acting user, whose outcome
   * is the request's result.
   */
  lemma AcknowledgeWritesOnce(st: SlackState, writes: seq<Pagerduty.Write>, sv: Services, cb: InteractionCallback, now: string)
    ensures var r := AckEffect(st, writes, sv, cb, now);
      r.1 == writes || |r.1| == |writes| + 1
    ensures var r := AckEffect(st, writes, sv, cb, now);
      r.1 != writes ==> (
        && sv.callOutcome(|st.calls|).None? && sv.callOutcome(|st.calls| + 1).None?
        && sv.userById(cb.userId).Ok?
        && AlertBody(cb.originalMessage) != ""
        && ClusterParse.ParseClusterFromString(AlertBody(cb.originalMessage)).Ok?
        && ParseRegionAndAlertname(AlertBody(cb.originalMessage)).Ok?
        && var text := AlertBody(cb.originalMessage);
           var found := sv.incidentFor(Some(ClusterParse.ParseClusterFromString(text).value), ParseRegionAndAlertname(text).value.1);
           var user := ActingUser(sv, sv.userById(cb.userId).value.email);
           && found.Ok? && sv.getIncident(found.value.id).Ok?
           && r.1 == writes + [Pagerduty.ManageIncidents(user.email, [Pagerduty.Acknowledged(sv.getIncident(found.value.id).value, user, now)])]
           && r.2 == sv.writeOutcome(|writes|))
  {
  }

  /** The acting user falls back to the default user exactly when no PagerDuty user has the address. */
  lemma ActingUserFallback(sv: Services, email: string)
    ensures ActingUser(sv, email) == sv.defaultUser || ActingUser(sv, email).email == email
    ensures Pagerduty.UserByEmail(sv.listUsers(email), email).Err? ==> ActingUser(sv, email) == sv.defaultUser
  {
    var listed := sv.listUsers(email);
    if listed.Ok? && Pagerduty.FirstWithEmail(listed.value, email).Some? {
      Pagerduty.FirstWithEmailIsFirst(listed.value, email);
    }
  }

  /** An alert without attachment text is refused after the Slack writes, without touching PagerDuty. */
  lemma MissingAlertRefused(st: SlackState, writes: seq<Pagerduty.Write>, sv: Services, cb: InteractionCallback, now: string)
    requires AlertBody(cb.originalMessage) == ""
    requires sv.callOutcome(|st.calls|).None? && sv.callOutcome(|st.calls| + 1).None?
    requires sv.userById(cb.userId).Ok?
    ensures AckEffect(st, writes, sv, cb, now).1 == writes
    ensures AckEffect(st, writes, sv, cb, now).2 == Some(StructureError)
  {
  }

  /** The action is a button press asking for an acknowledgement. */
  predicate IsAcknowledge(act: AttachmentAction) {
    act.name == ActionName && act.kind == ActionType && act.value == ActionValueAcknowledge
  }

  /** `handleInteractionCallback`: acknowledge when some action asks for it, otherwise do nothing. */
  function HandleCallback(st: SlackState, writes: seq<Pagerduty.Write>, sv: Services, cb: InteractionCallback, now: string)
    : (SlackState, seq<Pagerduty.Write>, Option<string>)
  {
    if exists i :: 0 <= i < |cb.actions| && IsAcknowledge(cb.actions[i]) then AckEffect(st, writes, sv, cb, now)
    else (st, writes, None)
  }

  // ---- The interaction endpoint ------------------------------------------

  /** How a request is decided before any work: refused with a status, or accepted with its callback. */
  datatype Gate = Refused(status: int) | Accepted(cb: InteractionCallback)

  /**
   * The checks of `handleInteraction`, in order: the method, the body, the URL
   * unescaping, the JSON decoding of what follows `payload=`, the verification
   * token, and membership of the caller in the authorized users.
   */
  function Admit(req: Request, unescape: string -> Result<string>, decode: string -> Result<InteractionCallback>,
                 verificationToken: string, authorized: seq<string>): Gate
  {
    if req.verb != "POST" then Refused(StatusMethodNotAllowed)
    else if req.body.Err? then Refused(StatusInternalServerError)
    else
      var unescaped := unescape(req.body.value);
      if unescaped.Err? then Refused(StatusInternalServerError)
      else
        var decoded := decode(Strings.TrimPrefix(unescaped.value, "payload="));
        if decoded.Err? then Refused(StatusInternalServerError)
        else if decoded.value.token != verificationToken then Refused(StatusUnauthorized)
        else if decoded.value.userId !in authorized then Refused(StatusUnauthorized)
        else Accepted(decoded.value)
  }

  /** `handleInteraction`: the new Slack state, the PagerDuty write log and the response status. */
  function Interaction(st: SlackState, writes: seq<Pagerduty.Write>, sv: Services, req: Request,
                       unescape: string -> Result<string>, decode: string -> Result<InteractionCallback>,
                       verificationToken: string, authorized: seq<string>, now: string)
    : (SlackState, seq<Pagerduty.Write>, int)
  {
    var g := Admit(req, unescape, decode, verificationToken, authorized);
    if g.Refused? then (st, writes, g.status)
    else
      var (s, w, err) := HandleCallback(st, writes, sv, g.cb, now);
      (s, w, if err.Some? then StatusInternalServerError else StatusOK)
  }

  /**
   * The endpoint answers 200, 401, 405 or 500; a 401 or 405 changes nothing;
   * anything that writes came through POST, with the right token, from an
   * authorized user whose callback asked for an acknowledgement.
   */
  lemma InteractionGuards(st: SlackState, writes: seq<Pagerduty.Write>, sv: Services, req: Request,
                          unescape: string -> Result<string>, decode: string -> Result<InteractionCallback>,
                          verificationToken: string, authorized: seq<string>, now: string)
    ensures var r := Interaction(st, writes, sv, req, unescape, decode, verificationToken, authorized, now);
      r.2 in {StatusOK, StatusUnauthorized, StatusMethodNotAllowed, StatusInternalServerError}
    ensures var r := Interaction(st, writes, sv, req, unescape, decode, verificationToken, authorized, now);
      r.2 == StatusUnauthorized || r.2 == StatusMethodNotAllowed ==> r.0 == st && r.1 == writes
    ensures var r := Interaction(st, writes, sv, req, unescape, decode, verificationToken, authorized, now);
      (r.0 != st || r.1 != writes) ==> (
        var g := Admit(req, unescape, decode, verificationToken, authorized);
        && req.verb == "POST"
        && g.Accepted?
        && g.cb.token == verificationToken
        && g.cb.userId in authorized
        && exists i :: 0 <= i < |g.cb.actions| && IsAcknowledge(g.cb.actions[i]))
  {
  }

  /** A request whose token is not the verification token is refused with 401 and changes nothing. */
  lemma ForeignTokenRefused(st: SlackState, writes: seq<Pagerduty.Write>, sv: Services, req: Request,
                            unescape: string -> Result<string>, decode: string -> Result<InteractionCallback>,
                            verificationToken: string, authorized: seq<string>, now: string, cb: InteractionCallback)
    requires req.verb == "POST" && req.body.Ok? && unescape(req.body.value).Ok?
    requires decode(Strings.TrimPrefix(unescape(req.body.value).value, "payload=")) == Ok(cb)
    requires cb.token != verificationToken
    ensures Interaction(st, writes, sv, req, unescape, decode, verificationToken, authorized, now) == (st, writes, StatusUnauthorized)
  {
  }

  // ---- The service -------------------------------------------------------

  /** `API`: the clients, the authorizer and the configuration the handlers use. */
  class Api {
    const slack: Workspace
    const pd: Pagerduty.PagerdutyClient
    const authorizer: Authorizer
    /** `ChannelIdsListForPdSync`. */
    const channelIds: seq<string>
    const verificationToken: string
    /** `time.Parse(time.RFC3339, …)`, as nanoseconds since the Unix epoch. */
    const parseTime: string -> Option<int>
    /** `url.QueryUnescape`. */
    const unescape: string -> Result<string>
    /** `json.Unmarshal` into an interaction callback. */
    const decode: string -> Result<InteractionCallback>
    /** `GetIncident`: the incident the PagerDuty client finds for a filter's clusters and alertname. */
    const incidentFor: (Option<seq<string>>, string) -> Result<Incident>

    /** `New`: the clients are given rather than built from the environment. */
    constructor (authorizer: Authorizer, cfg: Config.SlackConfig, slack: Workspace, pd: Pagerduty.PagerdutyClient,
                 parseTime: string -> Option<int>, unescape: string -> Result<string>,
                 decode: string -> Result<InteractionCallback>, incidentFor: (Option<seq<string>>, string) -> Result<Incident>)
      ensures this.authorizer == authorizer && this.slack == slack && this.pd == pd
      ensures channelIds == cfg.channelIdsListForPdSync && verificationToken == cfg.verificationToken
      ensures this.parseTime == parseTime && this.unescape == unescape && this.decode == decode
      ensures this.incidentFor == incidentFor
    {
      this.authorizer := authorizer;
      this.slack := slack;
      this.pd := pd;
      channelIds := cfg.channelIdsListForPdSync;
      verificationToken := cfg.verificationToken;
      this.parseTime := parseTime;
      this.unescape := unescape;
      this.decode := decode;
      this.incidentFor := incidentFor;
    }

    /** What an acknowledgement reads, as the clients hold it now. */
    function Svc(): Services
      reads pd
    {
      Services(slack.callOutcome, slack.userById, pd.api.listUsers, pd.defaultUser, incidentFor,
               pd.api.getIncident, pd.api.writeOutcome)
    }

    // ---- Interactions ----

    /** `acknowledge`. */
    method Acknowledge(cb: InteractionCallback, now: string) returns (err: Option<string>)
      modifies slack, pd.api
      ensures (slack.State(), pd.api.writes, err) == AckEffect(old(slack.State()), old(pd.api.writes), Svc(), cb, now)
    {
      var ts := cb.originalMessage.timestamp;
      err := slack.PostMessage(cb.channelId, AckOptions(cb.userId, ts));
      if err.Some? {
        return;
      }
      err := slack.AddReactionToMessage(cb.channelId, ts, EmojiFirefighter);
      if err.Some? {
        return;
      }
      err := AcknowledgeInPagerduty(cb, now);
    }

    /** The part of `acknowledge` after the Slack writes: find the user and the incident, then acknowledge it. */
    method AcknowledgeInPagerduty(cb: InteractionCallback, now: string) returns (err: Option<string>)
      modifies pd.api
      ensures (pd.api.writes, err) == AckPagerduty(old(pd.api.writes), Svc(), cb, now)
    {
      var slackUser := slack.GetUserByID(cb.userId);
      if slackUser.Err? {
        return Some(slackUser.error);
      }
      var user := pd.GetUserByEmail(slackUser.value.email);
      var acting := if user.Ok? then user.value else pd.defaultUser;
      var m := cb.originalMessage;
      if AttachmentCount(m) == 0 || m.attachments.value[0].text == "" {
        return Some(StructureError);
      }
      var incident := FindIncident(m.attachments.value[0].text);
      if incident.Err? {
        return Some(incident.error);
      }
      err := pd.AcknowledgeIncident(incident.value.id, acting, now);
    }

    /** A fresh filter takes clusters and alertname from the alert text; the incident is looked up with them. */
    method FindIncident(text: string) returns (r: Result<Incident>)
      ensures AlertQuery(text).Err? ==> r == Err(ParsingError)
      ensures AlertQuery(text).Ok? ==> r == incidentFor(AlertQuery(text).value.0, AlertQuery(text).value.1)
    {
      var f := new Filter(None, "", "", "");
      var clusterErr := f.ClusterFilterFromText(text);
      if clusterErr.Some? {
        return Err(ParsingError);
      }
      var alertnameErr := f.AlertnameFilterFromText(text);
      if alertnameErr.Some? {
        return Err(ParsingError);
      }
      r := incidentFor(f.clusters, f.alertname);
    }

    /** `handleInteractionCallback`: the first button press asking for an acknowledgement is acted on. */
    method HandleInteractionCallback(cb: InteractionCallback, now: string) returns (err: Option<string>)
      modifies slack, pd.api
      ensures (slack.State(), pd.api.writes, err) == HandleCallback(old(slack.State()), old(pd.api.writes), Svc(), cb, now)
    {
      for i := 0 to |cb.actions|
        invariant forall k :: 0 <= k < i ==> !IsAcknowledge(cb.actions[k])
      {
        var act := cb.actions[i];
        if act.name != ActionName || act.kind != ActionType {
          continue;
        }
        if act.value == ActionValueAcknowledge {
          err := Acknowledge(cb, now);
          return;
        }
      }
      return None;
    }

    /** `handleInteraction`: the response status of a request to the interaction endpoint. */
    method HandleInteraction(req: Request, now: string) returns (status: int)
      modifies slack, pd.api
      ensures (slack.State(), pd.api.writes, status) == Interaction(old(slack.State()), old(pd.api.writes), Svc(), req,
        unescape, decode, verificationToken, authorizer.authorizedUserIds, now)
    {
      if req.verb != "POST" {
        return StatusMethodNotAllowed;
      }
      if req.body.Err? {
        return StatusInternalServerError;
      }
      var jsonBody := unescape(req.body.value);
      if jsonBody.Err? {
        return StatusInternalServerError;
      }
      var message := decode(Strings.TrimPrefix(jsonBody.value, "payload="));
      if message.Err? {
        return StatusInternalServerError;
      }
      if message.value.token != verificationToken {
        return StatusUnauthorized;
      }
      if !authorizer.IsUserAuthorized(message.value.userId, Base) {
        return StatusUnauthorized;
      }
      var err := HandleInteractionCallback(message.value, now);
      if err.Some? {
        return StatusInternalServerError;
      }
      return StatusOK;
    }

    // ---- Incident synchronisation ----

    /** `checkReactions`: whether the message carries the firefighter and the `pagerduty` reaction. */
    method CheckReactions(m: Msg) returns (firefighter: bool, pagerduty: bool)
      ensures firefighter <==> EmojiFirefighter in m.reactions
      ensures pagerduty <==> EmojiPagerDuty in m.reactions
    {
      firefighter, pagerduty := false, false;
      for i := 0 to |m.reactions|
        invariant firefighter <==> EmojiFirefighter in m.reactions[..i]
        invariant pagerduty <==> EmojiPagerDuty in m.reactions[..i]
      {
        assert m.reactions[..i + 1] == m.reactions[..i] + [m.reactions[i]];
        if m.reactions[i] == EmojiPagerDuty {
          pagerduty := true;
        }
        if m.reactions[i] == EmojiFirefighter {
          firefighter := true;
        }
      }
      assert m.reactions[..|m.reactions|] == m.reactions;
    }

    /** `addPdLink`: the threaded reply linking the message to the incident. */
    method AddPdLink(channel: string, m: Msg, incident: Incident) returns (err: Option<string>)
      modifies slack
      ensures (slack.State(), err) == Posted(old(slack.State()), slack.callOutcome, channel,
        [OptText(PdLinkText(incident), false), OptTs(m.timestamp)])
    {
      err := slack.PostMessage(channel, [OptText(PdLinkText(incident), false), OptTs(m.timestamp)]);
    }

    /** `addReactionHandled`: the `pagerduty` reaction on the message. */
    method AddReactionHandled(channel: string, m: Msg) returns (err: Option<string>)
      modifies slack
      ensures (slack.State(), err) == Reacted(old(slack.State()), slack.callOutcome, channel, m.timestamp, EmojiPagerDuty)
    {
      err := slack.AddReactionToMessage(channel, m.timestamp, EmojiPagerDuty);
    }

    /** `addReactionAcknowledged`: the firefighter reaction, then the note; reading a missing acknowledgement panics. */
    method AddReactionAcknowledged(channel: string, m: Msg, incident: Incident) returns (err: Option<string>, panicked: bool)
      modifies slack
      ensures (slack.State(), panicked) == MarkAcknowledged(old(slack.State()), slack.callOutcome, channel, m.timestamp, incident)
      ensures slack.callOutcome(|old(slack.calls)|).Some? ==> err == slack.callOutcome(|old(slack.calls)|)
      ensures slack.callOutcome(|old(slack.calls)|).None? && !panicked ==> err == slack.callOutcome(|old(slack.calls)| + 1)
    {
      panicked := false;
      err := slack.AddReactionToMessage(channel, m.timestamp, EmojiFirefighter);
      if err.Some? {
        return;
      }
      if |incident.acknowledgements| == 0 {
        return None, true;
      }
      err := slack.PostMessage(channel, NoteCall(channel, m.timestamp, incident).options);
    }

    /** The body of the message loop of `enrich_slack_channel_with_incident`. */
    method ProcessMessage(channel: string, m: Msg, incident: Incident) returns (panicked: bool)
      modifies slack
      ensures (slack.State(), panicked) == Handle(old(slack.State()), slack.callOutcome, parseTime, channel, m, incident)
    {
      if !TimeMatch(parseTime, incident.createdAt, m.timestamp) {
        return false;
      }
      if AttachmentCount(m) > 0 {
        var s := Strings.ToLower(m.attachments.value[0].text);
        var parsed := ParseRegionAndAlertname(incident.summary);
        if parsed.Ok? && Strings.Contains(s, "resolved") {
          return false;
        }
        var ff, pd := CheckReactions(m);
        if ff && pd {
          return false;
        }
        if parsed.Ok? && Strings.Contains(Strings.ToLower(s), parsed.value.0)
          && Strings.Contains(Strings.ToLower(s), parsed.value.1) {
          if !pd {
            var _ := AddPdLink(channel, m, incident);
            var _ := AddReactionHandled(channel, m);
          }
          if incident.status == StatusAcknowledged && !ff {
            var _, p := AddReactionAcknowledged(channel, m, incident);
            return p;
          }
        }
      }
      return false;
    }

    /** One channel of `enrich_slack_channel_with_incident`: its history, message by message. */
    method EnrichChannel(channel: string, incident: Incident) returns (panicked: bool)
      modifies slack
      ensures (slack.State(), panicked) == Channel(old(slack.State()), slack.callOutcome, slack.history, parseTime, channel, incident)
    {
      ghost var st0 := slack.State();
      var h := slack.GetConversationHistory(channel);
      if h.Err? {
        return false;
      }
      var msgs := h.value;
      for j := 0 to |msgs|
        invariant (slack.State(), false) == Messages(st0, slack.callOutcome, parseTime, channel, msgs[..j], incident)
      {
        MessagesStep(st0, slack.callOutcome, parseTime, channel, msgs, j, incident);
        var p := ProcessMessage(channel, msgs[j], incident);
        if p {
          MessagesPanicSticks(st0, slack.callOutcome, parseTime, channel, msgs, j + 1, incident);
          return true;
        }
      }
      assert msgs[..|msgs|] == msgs;
      return false;
    }

    /** `enrich_slack_channel_with_incident`: every configured channel, in order. */
    method EnrichSlackChannelWithIncident(incident: Incident) returns (panicked: bool)
      modifies slack
      ensures (slack.State(), panicked) == Enrich(old(slack.State()), slack.callOutcome, slack.history, parseTime, channelIds, incident)
    {
      ghost var st0 := slack.State();
      for i := 0 to |channelIds|
        invariant (slack.State(), false) == Enrich(st0, slack.callOutcome, slack.history, parseTime, channelIds[..i], incident)
      {
        assert channelIds[..i + 1][..i] == channelIds[..i];
        var p := EnrichChannel(channelIds[i], incident);
        if p {
          EnrichPanicSticks(st0, slack.callOutcome, slack.history, parseTime, channelIds, i + 1, incident);
          return true;
        }
      }
      assert channelIds[..|channelIds|] == channelIds;
      return false;
    }

    /** `pd_slack_incidents_sync`: the triggered incidents through an empty filter of limit 100, one by one. */
    method PdSlackIncidentsSync() returns (out: Outcome)
      modifies slack
      ensures (slack.State(), out) == Sync(old(slack.State()), slack.callOutcome, slack.history, parseTime, channelIds,
        pd.api.listIncidents(Pagerduty.TriggeredPage))
    {
      ghost var st0 := slack.State();
      var f := new Filter(None, "", "", "");
      f.SetLimit(100);
      var listed := pd.ListIncidents(f);
      if listed.Err? {
        return Done(Some(listed.error));
      }
      var incidents := listed.value;
      for k := 0 to |incidents|
        invariant (slack.State(), false) == Incidents(st0, slack.callOutcome, slack.history, parseTime, channelIds, incidents[..k])
      {
        IncidentsStep(st0, slack.callOutcome, slack.history, parseTime, channelIds, incidents, k);
        var p := EnrichSlackChannelWithIncident(incidents[k]);
        if p {
          IncidentsPanicSticks(st0, slack.callOutcome, slack.history, parseTime, channelIds, incidents, k + 1);
          return Panicked;
        }
      }
      assert incidents[..|incidents|] == incidents;
      return Done(None);
    }
  }

  // ---- A panic ends every loop it is in ------------------------------------

  /** One more message of the history is handled unless an earlier one panicked. */
  lemma MessagesStep(st: SlackState, outcome: nat -> Option<string>, parseTime: string -> Option<int>,
                     channel: string, msgs: seq<Msg>, j: nat, incident: Incident)
    requires j < |msgs|
    ensures var prev := Messages(st, outcome, parseTime, channel, msgs[..j], incident);
      Messages(st, outcome, parseTime, channel, msgs[..j + 1], incident) ==
        if prev.1 then prev else Handle(prev.0, outcome, parseTime, channel, msgs[j], incident)
  {
    assert msgs[..j + 1][..j] == msgs[..j];
  }

  /** One more incident is enriched unless an earlier one panicked. */
  lemma IncidentsStep(st: SlackState, outcome: nat -> Option<string>, history: string -> Result<seq<Msg>>,
                      parseTime: string -> Option<int>, channels: seq<string>, incidents: seq<Incident>, k: nat)
    requires k < |incidents|
    ensures var prev := Incidents(st, outcome, history, parseTime, channels, incidents[..k]);
      Incidents(st, outcome, history, parseTime, channels, incidents[..k + 1]) ==
        if prev.1 then prev else Enrich(prev.0, outcome, history, parseTime, channels, incidents[k])
  {
    assert incidents[..k + 1][..k] == incidents[..k];
  }

  lemma {:induction false} MessagesPanicSticks(st: SlackState, outcome: nat -> Option<string>, parseTime: string -> Option<int>,
                                               channel: string, msgs: seq<Msg>, k: nat, incident: Incident)
    requires k <= |msgs| && Messages(st, outcome, parseTime, channel, msgs[..k], incident).1
    ensures Messages(st, outcome, parseTime, channel, msgs, incident) == Messages(st, outcome, parseTime, channel, msgs[..k], incident)
    decreases |msgs| - k
  {
    if k < |msgs| {
      assert msgs[..k + 1][..k] == msgs[..k];
      MessagesPanicSticks(st, outcome, parseTime, channel, msgs, k + 1, incident);
    } else {
      assert msgs[..k] == msgs;
    }
  }

  lemma {:induction false} EnrichPanicSticks(st: SlackState, outcome: nat -> Option<string>, history: string -> Result<seq<Msg>>,
                                             parseTime: string -> Option<int>, channels: seq<string>, k: nat, incident: Incident)
    requires k <= |channels| && Enrich(st, outcome, history, parseTime, channels[..k], incident).1
    ensures Enrich(st, outcome, history, parseTime, channels, incident) == Enrich(st, outcome, history, parseTime, channels[..k], incident)
    decreases |channels| - k
  {
    if k < |channels| {
      assert channels[..k + 1][..k] == channels[..k];
      EnrichPanicSticks(st, outcome, history, parseTime, channels, k + 1, incident);
    } else {
      assert channels[..k] == channels;
    }
  }

  lemma {:induction false} IncidentsPanicSticks(st: SlackState, outcome: nat -> Option<string>, history: string -> Result<seq<Msg>>,
                                                parseTime: string -> Option<int>, channels: seq<string>, incidents: seq<Incident>, k: nat)
    requires k <= |incidents| && Incidents(st, outcome, history, parseTime, channels, incidents[..k]).1
    ensures Incidents(st, outcome, history, parseTime, channels, incidents) == Incidents(st, outcome, history, parseTime, channels, incidents[..k])
    decreases |incidents| - k
  {
    if k < |incidents| {
      assert incidents[..k + 1][..k] == incidents[..k];
      IncidentsPanicSticks(st, outcome, history, parseTime, channels, incidents, k + 1);
    } else {
      assert incidents[..k] == incidents;
    }
  }
}
