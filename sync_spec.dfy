/**
 * What one run of the incident synchronisation (`pkg/api/incident_syncer.go`)
 * does to the Slack workspace, as functions of the workspace's state.
 *
 * For every triggered incident whose summary parses, for every configured
 * channel, the channel's history is read once; then each message, in order, is
 * checked against the incident: posted within a minute of the incident's
 * creation, an alert attachment, not resolved, not already marked with both
 * reactions, and mentioning the incident's region and alertname. A matching
 * message gets a threaded link to the incident and the `pagerduty` reaction
 * unless it has that reaction, and the firefighter reaction plus a note naming
 * the acknowledger when the incident is acknowledged and it has no firefighter
 * reaction yet. Reading the first acknowledgement of an incident that has none
 * panics, which ends the run.
 */
module SyncSpec {
  import opened Wrappers
  import Strings
  import opened TimeUtil
  import opened SlackApi
  import opened PagerdutyTypes
  import opened Correlator
  import opened Filters

  const EmojiFirefighter := "male-firefighter"
  /** The reaction marking a message as linked to its incident. */
  const EmojiPagerDuty := "pagerduty"
  const StatusAcknowledged := "acknowledged"

  /** `acknowledgeString` filled in with a user. */
  function AcknowledgeText(user: string): string {
    "Acknowledged by <@" + user + ">"
  }

  /** The text of the threaded reply linking a message to its incident. */
  function PdLinkText(incident: Incident): string {
    "PD Incident (" + Strings.Decimal(incident.incidentNumber) + "): " + incident.htmlUrl
  }

  /** How a run ends: normally, with an error or none, or by a panic. */
  datatype Outcome = Done(err: Option<string>) | Panicked

  // ---- The time window -------------------------------------------------

  /** The Unix time `time.Parse` gives for an unparsable date: the zero `time.Time`, 1 January of year 1. */
  const ZeroTime: int := -62135596800 * Second

  /** An incident's creation instant, or the zero time when `parseTime` (RFC 3339) rejects it. */
  function CreatedAt(parseTime: string -> Option<int>, createdAt: string): int {
    var t := parseTime(createdAt);
    if t.Some? then t.value else ZeroTime
  }

  /** `strconv.ParseInt` read without its error: 0 for bad syntax, the nearest bound when out of range. */
  function ParseIntValue(s: string): (v: int)
    ensures Strings.MinInt64 <= v <= Strings.MaxInt64
  {
    match Strings.ParseInt(s)
    case Parsed(v) => v
    case RangeError(c) => c
    case SyntaxError => 0
  }

  /** The whole seconds of a Slack timestamp such as `1585000000.000200`. */
  function MessageSeconds(ts: string): int {
    ParseIntValue(Strings.Split(ts, '.')[0])
  }

  /** `checkIfIncidentMessageTimeIsMoreOrLessSame`: `|created - posted|` in minutes is at most 1. */
  predicate TimeMatch(parseTime: string -> Option<int>, createdAt: string, ts: string) {
    Abs(Sub(CreatedAt(parseTime, createdAt), MessageSeconds(ts) * Second)) <= Minute
  }

  /** The saturating difference and absolute value never change the answer: the window is exactly ±60 s, inclusive. */
  lemma TimeMatchWindow(parseTime: string -> Option<int>, createdAt: string, ts: string)
    ensures var d := CreatedAt(parseTime, createdAt) - MessageSeconds(ts) * Second;
      TimeMatch(parseTime, createdAt, ts) <==> -Minute <= d <= Minute
  {
  }

  /** The fraction after the dot is ignored. */
  lemma TimeMatchIgnoresFraction(parseTime: string -> Option<int>, createdAt: string, secs: string, frac: string)
    requires '.' !in secs
    ensures TimeMatch(parseTime, createdAt, secs + "." + frac) == TimeMatch(parseTime, createdAt, secs)
  {
    var ts := secs + "." + frac;
    IndexOfFirst(secs, frac, '.');
    assert ts[..|secs|] == secs;
    assert Strings.Split(ts, '.')[0] == secs;
    assert Strings.Split(secs, '.') == [secs];
  }

  /** The first occurrence of `c` in `a + [c] + b`, when `a` has none, is right after `a`. */
  lemma {:induction false} IndexOfFirst(a: string, b: string, c: char)
    requires c !in a
    ensures c in a + [c] + b && Strings.IndexOf(a + [c] + b, c) == |a|
  {
    var s := a + [c] + b;
    assert s[|a|] == c;
    if a != [] {
      assert s[1..] == a[1..] + [c] + b;
      IndexOfFirst(a[1..], b, c);
    }
  }

  // ---- One message -----------------------------------------------------

  /** The lower-cased text of a message's first attachment. */
  function AlertText(m: Msg): string
    requires AttachmentCount(m) > 0
  {
    Strings.ToLower(m.attachments.value[0].text)
  }

  /**
   * The message is about the incident: in the time window, an alert
   * attachment, the summary parses, the attachment is not resolved, and it
   * mentions the parsed region and alertname.
   */
  predicate Matches(parseTime: string -> Option<int>, m: Msg, incident: Incident) {
    && TimeMatch(parseTime, incident.createdAt, m.timestamp)
    && AttachmentCount(m) > 0
    && ParseRegionAndAlertname(incident.summary).Ok?
    && !Strings.Contains(AlertText(m), "resolved")
    && var (region, alertname) := ParseRegionAndAlertname(incident.summary).value;
      Strings.Contains(Strings.ToLower(AlertText(m)), region)
      && Strings.Contains(Strings.ToLower(AlertText(m)), alertname)
  }

  /** The calls `addPdLink` and `addReactionHandled` make: none when the message already has the `pagerduty` reaction. */
  function LinkCalls(channel: string, ts: string, reactions: seq<string>, incident: Incident): seq<Call> {
    if EmojiPagerDuty in reactions then []
    else [Post(channel, [OptText(PdLinkText(incident), false), OptTs(ts)]), React(channel, ts, EmojiPagerDuty)]
  }

  /** The reply naming the first acknowledger. */
  function NoteCall(channel: string, ts: string, incident: Incident): Call
    requires incident.acknowledgements != []
  {
    Post(channel, [OptText(AcknowledgeText(incident.acknowledgements[0].acknowledger.summary), false), OptTs(ts)])
  }

  /**
   * `addPdLink` then `addReactionHandled`, unless the message has the
   * `pagerduty` reaction: the reaction is attempted whatever the reply's fate.
   */
  function Linked(st: SlackState, outcome: nat -> Option<string>, channel: string, ts: string,
                  reactions: seq<string>, incident: Incident): SlackState
  {
    if EmojiPagerDuty in reactions then st
    else
      var posted := Posted(st, outcome, channel, [OptText(PdLinkText(incident), false), OptTs(ts)]).0;
      Reacted(posted, outcome, channel, ts, EmojiPagerDuty).0
  }

  /** The link step makes exactly its calls, keeps every reaction, and adds `pagerduty` when its reaction succeeds. */
  lemma LinkedEffect(st: SlackState, outcome: nat -> Option<string>, channel: string, ts: string,
                     reactions: seq<string>, incident: Incident)
    ensures var r := Linked(st, outcome, channel, ts, reactions, incident);
      && r.calls == st.calls + LinkCalls(channel, ts, reactions, incident)
      && Keeps(st, r)
      && (EmojiPagerDuty !in reactions && outcome(|st.calls| + 1).None? ==> EmojiPagerDuty in ReactionsOn(r, channel, ts))
  {
  }

  /**
   * `addReactionAcknowledged`: the firefighter reaction, and only if it was
   * added, the note naming the first acknowledger; with no acknowledgement
   * that read panics.
   */
  function MarkAcknowledged(st: SlackState, outcome: nat -> Option<string>, channel: string, ts: string, incident: Incident): (SlackState, bool)
  {
    var (reacted, err) := Reacted(st, outcome, channel, ts, EmojiFirefighter);
    if err.Some? then (reacted, false)
    else if incident.acknowledgements == [] then (reacted, true)
    else (Posted(reacted, outcome, channel, NoteCall(channel, ts, incident).options).0, false)
  }

  /**
   * The acknowledgement step reacts first; a failed reaction ends it, a
   * missing acknowledgement panics, and otherwise exactly the note follows.
   * Every reaction is kept, and a successful one adds the firefighter.
   */
  lemma MarkAcknowledgedEffect(st: SlackState, outcome: nat -> Option<string>, channel: string, ts: string, incident: Incident)
    ensures var (r, panicked) := MarkAcknowledged(st, outcome, channel, ts, incident);
      var react := st.calls + [React(channel, ts, EmojiFirefighter)];
      && Keeps(st, r)
      && (outcome(|st.calls|).Some? ==> r.calls == react && !panicked)
      && (outcome(|st.calls|).None? ==> EmojiFirefighter in ReactionsOn(r, channel, ts))
      && (outcome(|st.calls|).None? ==> (panicked <==> incident.acknowledgements == []))
      && (outcome(|st.calls|).None? && incident.acknowledgements == [] ==> r.calls == react)
      && (outcome(|st.calls|).None? && incident.acknowledgements != [] ==>
           r.calls == react + [NoteCall(channel, ts, incident)])
  {
  }

  /** The acknowledgement step applies: the incident is acknowledged and the message has no firefighter reaction. */
  predicate AcknowledgeApplies(reactions: seq<string>, incident: Incident) {
    incident.status == StatusAcknowledged && EmojiFirefighter !in reactions
  }

  /** What the syncer does to a message about the incident whose reactions were `reactions` when the history was read. */
  function Effects(st: SlackState, outcome: nat -> Option<string>, channel: string, ts: string,
                   reactions: seq<string>, incident: Incident): (SlackState, bool)
  {
    var linked := Linked(st, outcome, channel, ts, reactions, incident);
    if AcknowledgeApplies(reactions, incident) then MarkAcknowledged(linked, outcome, channel, ts, incident)
    else (linked, false)
  }

  /**
   * One message of a channel's history for one incident, with its checks in
   * the syncer's order. The reactions are the ones the message had when the
   * history was read.
   */
  function Handle(st: SlackState, outcome: nat -> Option<string>, parseTime: string -> Option<int>,
                  channel: string, m: Msg, incident: Incident): (SlackState, bool)
  {
    if !TimeMatch(parseTime, incident.createdAt, m.timestamp) || AttachmentCount(m) == 0 then (st, false)
    else
      var s := AlertText(m);
      var parsed := ParseRegionAndAlertname(incident.summary);
      if parsed.Ok? && Strings.Contains(s, "resolved") then (st, false)
      else
        var ff := EmojiFirefighter in m.reactions;
        var pd := EmojiPagerDuty in m.reactions;
        if ff && pd then (st, false)
        else if parsed.Ok? && Strings.Contains(Strings.ToLower(s), parsed.value.0)
          && Strings.Contains(Strings.ToLower(s), parsed.value.1) then
          Effects(st, outcome, channel, m.timestamp, m.reactions, incident)
        else (st, false)
  }

  /**
   * A message causes calls only when it is about the incident and lacks one
   * of the two reactions; a message already carrying both, or not about the
   * incident (too far in time, no attachment, resolved, another region or
   * alert, or an incident summary that does not parse), causes none.
   */
  lemma HandleQualifies(st: SlackState, outcome: nat -> Option<string>, parseTime: string -> Option<int>,
                        channel: string, m: Msg, incident: Incident)
    ensures Handle(st, outcome, parseTime, channel, m, incident) ==
      if Matches(parseTime, m, incident) && !(EmojiFirefighter in m.reactions && EmojiPagerDuty in m.reactions)
      then Effects(st, outcome, channel, m.timestamp, m.reactions, incident)
      else (st, false)
  {
  }

  /**
   * The calls a qualifying message causes: the link reply and the `pagerduty`
   * reaction when that reaction is missing; then, when the acknowledgement
   * step applies, the firefighter reaction and, only if it succeeded, the note.
   * Only a missing acknowledgement panics.
   */
  lemma EffectsCalls(st: SlackState, outcome: nat -> Option<string>, channel: string, ts: string,
                     reactions: seq<string>, incident: Incident)
    ensures var (r, panicked) := Effects(st, outcome, channel, ts, reactions, incident);
      var linked := st.calls + LinkCalls(channel, ts, reactions, incident);
      var reacted := linked + [React(channel, ts, EmojiFirefighter)];
      var reactOk := outcome(|linked|).None?;
      && (!AcknowledgeApplies(reactions, incident) ==> r.calls == linked && !panicked)
      && (AcknowledgeApplies(reactions, incident) && !reactOk ==> r.calls == reacted && !panicked)
      && (AcknowledgeApplies(reactions, incident) && reactOk ==> (panicked <==> incident.acknowledgements == []))
      && (AcknowledgeApplies(reactions, incident) && reactOk && incident.acknowledgements == [] ==> r.calls == reacted)
      && (AcknowledgeApplies(reactions, incident) && reactOk && incident.acknowledgements != [] ==>
           r.calls == reacted + [NoteCall(channel, ts, incident)])
  {
    var linked := Linked(st, outcome, channel, ts, reactions, incident);
    LinkedEffect(st, outcome, channel, ts, reactions, incident);
    MarkAcknowledgedEffect(linked, outcome, channel, ts, incident);
  }

  // ---- Reactions only grow ---------------------------------------------

  /** Every reaction on every message of `st` is still there in `r`, and the log of `st` starts the log of `r`. */
  ghost predicate Keeps(st: SlackState, r: SlackState) {
    && st.calls <= r.calls
    && forall c, t, n :: n in ReactionsOn(st, c, t) ==> n in ReactionsOn(r, c, t)
  }

  lemma KeepsTrans(a: SlackState, b: SlackState, c: SlackState)
    requires Keeps(a, b) && Keeps(b, c)
    ensures Keeps(a, c)
  {
  }

  lemma EffectsKeeps(st: SlackState, outcome: nat -> Option<string>, channel: string, ts: string,
                     reactions: seq<string>, incident: Incident)
    ensures Keeps(st, Effects(st, outcome, channel, ts, reactions, incident).0)
  {
    var linked := Linked(st, outcome, channel, ts, reactions, incident);
    LinkedEffect(st, outcome, channel, ts, reactions, incident);
    MarkAcknowledgedEffect(linked, outcome, channel, ts, incident);
    if AcknowledgeApplies(reactions, incident) {
      KeepsTrans(st, linked, MarkAcknowledged(linked, outcome, channel, ts, incident).0);
    }
  }

  /** No write fails. */
  ghost predicate AllSucceed(outcome: nat -> Option<string>) {
    forall n :: outcome(n).None?
  }

  /**
   * With no failing write, a message about an acknowledged incident that has an
   * acknowledgement ends up with both reactions, and nothing panics.
   */
  lemma AcknowledgedMatchMarked(st: SlackState, outcome: nat -> Option<string>, channel: string, ts: string,
                                reactions: seq<string>, incident: Incident)
    requires AllSucceed(outcome)
    requires incident.status == StatusAcknowledged && incident.acknowledgements != []
    requires forall n :: n in reactions ==> n in ReactionsOn(st, channel, ts)
    ensures var (r, panicked) := Effects(st, outcome, channel, ts, reactions, incident);
      && !panicked
      && EmojiFirefighter in ReactionsOn(r, channel, ts)
      && EmojiPagerDuty in ReactionsOn(r, channel, ts)
  {
    var linked := Linked(st, outcome, channel, ts, reactions, incident);
    LinkedEffect(st, outcome, channel, ts, reactions, incident);
    MarkAcknowledgedEffect(linked, outcome, channel, ts, incident);
    assert outcome(|st.calls| + 1).None? && outcome(|linked.calls|).None?;
  }

  // ---- The loops -------------------------------------------------------

  /** The messages of one channel, in order, stopping at a panic. */
  function Messages(st: SlackState, outcome: nat -> Option<string>, parseTime: string -> Option<int>,
                    channel: string, msgs: seq<Msg>, incident: Incident): (SlackState, bool)
  {
    if msgs == [] then (st, false)
    else
      var (s1, p) := Messages(st, outcome, parseTime, channel, msgs[..|msgs| - 1], incident);
      if p then (s1, true) else Handle(s1, outcome, parseTime, channel, msgs[|msgs| - 1], incident)
  }

  /** One channel: its history is read from the current state; an error reading it skips the channel. */
  function Channel(st: SlackState, outcome: nat -> Option<string>, history: string -> Result<seq<Msg>>,
                   parseTime: string -> Option<int>, channel: string, incident: Incident): (SlackState, bool)
  {
    var h := HistoryResult(st, history(channel), channel);
    if h.Err? then (st, false) else Messages(st, outcome, parseTime, channel, h.value, incident)
  }

  /** `enrich_slack_channel_with_incident`: every configured channel, in order. */
  function Enrich(st: SlackState, outcome: nat -> Option<string>, history: string -> Result<seq<Msg>>,
                  parseTime: string -> Option<int>, channels: seq<string>, incident: Incident): (SlackState, bool)
  {
    if channels == [] then (st, false)
    else
      var (s1, p) := Enrich(st, outcome, history, parseTime, channels[..|channels| - 1], incident);
      if p then (s1, true) else Channel(s1, outcome, history, parseTime, channels[|channels| - 1], incident)
  }

  /** Every listed incident, in order. */
  function Incidents(st: SlackState, outcome: nat -> Option<string>, history: string -> Result<seq<Msg>>,
                     parseTime: string -> Option<int>, channels: seq<string>, incidents: seq<Incident>): (SlackState, bool)
  {
    if incidents == [] then (st, false)
    else
      var (s1, p) := Incidents(st, outcome, history, parseTime, channels, incidents[..|incidents| - 1]);
      if p then (s1, true) else Enrich(s1, outcome, history, parseTime, channels, incidents[|incidents| - 1])
  }

  /**
   * `pd_slack_incidents_sync`: the triggered incidents through an empty filter
   * (which drops those whose summary does not parse); a listing error ends the
   * run before any call.
   */
  function Sync(st: SlackState, outcome: nat -> Option<string>, history: string -> Result<seq<Msg>>,
                parseTime: string -> Option<int>, channels: seq<string>, listed: Result<seq<Incident>>): (SlackState, Outcome)
  {
    if listed.Err? then (st, Done(Some(listed.error)))
    else
      var (r, p) := Incidents(st, outcome, history, parseTime, channels, Kept(None, "", listed.value));
      (r, if p then Panicked else Done(None))
  }

  // ---- Properties of a whole run ---------------------------------------

  /** A listing error ends the run with that error and no call. */
  lemma ListingErrorNoCalls(st: SlackState, outcome: nat -> Option<string>, history: string -> Result<seq<Msg>>,
                            parseTime: string -> Option<int>, channels: seq<string>, listed: Result<seq<Incident>>)
    requires listed.Err?
    ensures Sync(st, outcome, history, parseTime, channels, listed) == (st, Done(Some(listed.error)))
  {
  }

  /** A channel whose history cannot be read is skipped without a call. */
  lemma HistoryErrorSkipsChannel(st: SlackState, outcome: nat -> Option<string>, history: string -> Result<seq<Msg>>,
                                 parseTime: string -> Option<int>, channel: string, incident: Incident)
    requires history(channel).Err?
    ensures Channel(st, outcome, history, parseTime, channel, incident) == (st, false)
  {
  }

  /** Only incidents whose summary parses are looked at. */
  lemma OnlyParsableIncidents(listed: seq<Incident>, i: Incident)
    ensures i in Kept(None, "", listed) <==> i in listed && ParseRegionAndAlertname(i.summary).Ok?
  {
    forall x ensures x in Kept(None, "", listed) <==> x in listed && KeepsIncident(None, "")(x) {
      WhereMembers(listed, KeepsIncident(None, ""), x);
    }
    if ParseRegionAndAlertname(i.summary).Ok? {
      var (region, name) := ParseRegionAndAlertname(i.summary).value;
      KeepsOfParse(None, "", i.summary, region, name);
    }
  }

  /** Every message of every configured channel already carries both reactions. */
  ghost predicate AllMarked(st: SlackState, history: string -> Result<seq<Msg>>, channels: seq<string>) {
    forall c, m :: c in channels && history(c).Ok? && m in history(c).value ==>
      EmojiFirefighter in ReactionsOn(st, c, m.timestamp) && EmojiPagerDuty in ReactionsOn(st, c, m.timestamp)
  }

  lemma {:induction false} MessagesUntouched(st: SlackState, outcome: nat -> Option<string>, parseTime: string -> Option<int>,
                                             channel: string, msgs: seq<Msg>, incident: Incident)
    requires forall m :: m in msgs ==> EmojiFirefighter in m.reactions && EmojiPagerDuty in m.reactions
    ensures Messages(st, outcome, parseTime, channel, msgs, incident) == (st, false)
  {
    if msgs != [] {
      MessagesUntouched(st, outcome, parseTime, channel, msgs[..|msgs| - 1], incident);
    }
  }

  lemma {:induction false} EnrichUntouched(st: SlackState, outcome: nat -> Option<string>, history: string -> Result<seq<Msg>>,
                                           parseTime: string -> Option<int>, channels: seq<string>, incident: Incident)
    requires AllMarked(st, history, channels)
    ensures Enrich(st, outcome, history, parseTime, channels, incident) == (st, false)
  {
    if channels != [] {
      var init := channels[..|channels| - 1];
      var c := channels[|channels| - 1];
      assert AllMarked(st, history, init);
      EnrichUntouched(st, outcome, history, parseTime, init, incident);
      if history(c).Ok? {
        var msgs := WithReactions(st, c, history(c).value);
        forall m | m in msgs ensures EmojiFirefighter in m.reactions && EmojiPagerDuty in m.reactions {
          var i :| 0 <= i < |msgs| && msgs[i] == m;
          assert history(c).value[i] in history(c).value;
        }
        MessagesUntouched(st, outcome, parseTime, c, msgs, incident);
      }
    }
  }

  lemma {:induction false} IncidentsUntouched(st: SlackState, outcome: nat -> Option<string>, history: string -> Result<seq<Msg>>,
                                              parseTime: string -> Option<int>, channels: seq<string>, incidents: seq<Incident>)
    requires AllMarked(st, history, channels)
    ensures Incidents(st, outcome, history, parseTime, channels, incidents) == (st, false)
  {
    if incidents != [] {
      IncidentsUntouched(st, outcome, history, parseTime, channels, incidents[..|incidents| - 1]);
      EnrichUntouched(st, outcome, history, parseTime, channels, incidents[|incidents| - 1]);
    }
  }

  /** Once every message carries both reactions, a run makes no call at all and ends normally. */
  lemma MarkedRunIsQuiet(st: SlackState, outcome: nat -> Option<string>, history: string -> Result<seq<Msg>>,
                           parseTime: string -> Option<int>, channels: seq<string>, listed: Result<seq<Incident>>)
    requires AllMarked(st, history, channels)
    ensures Sync(st, outcome, history, parseTime, channels, listed).0 == st
    ensures Sync(st, outcome, history, parseTime, channels, listed).1 ==
      (if listed.Err? then Done(Some(listed.error)) else Done(None))
  {
    if listed.Ok? {
      IncidentsUntouched(st, outcome, history, parseTime, channels, Kept(None, "", listed.value));
    }
  }

  /** Reactions only accumulate and the call log only grows, message by message, channel by channel, incident by incident. */
  lemma HandleKeeps(st: SlackState, outcome: nat -> Option<string>, parseTime: string -> Option<int>,
                    channel: string, m: Msg, incident: Incident)
    ensures Keeps(st, Handle(st, outcome, parseTime, channel, m, incident).0)
  {
    HandleQualifies(st, outcome, parseTime, channel, m, incident);
    EffectsKeeps(st, outcome, channel, m.timestamp, m.reactions, incident);
  }

  lemma {:induction false} MessagesKeeps(st: SlackState, outcome: nat -> Option<string>, parseTime: string -> Option<int>,
                                         channel: string, msgs: seq<Msg>, incident: Incident)
    ensures Keeps(st, Messages(st, outcome, parseTime, channel, msgs, incident).0)
  {
    if msgs != [] {
      var init := msgs[..|msgs| - 1];
      MessagesKeeps(st, outcome, parseTime, channel, init, incident);
      var s1 := Messages(st, outcome, parseTime, channel, init, incident).0;
      HandleKeeps(s1, outcome, parseTime, channel, msgs[|msgs| - 1], incident);
      KeepsTrans(st, s1, Handle(s1, outcome, parseTime, channel, msgs[|msgs| - 1], incident).0);
    }
  }

  lemma {:induction false} EnrichKeeps(st: SlackState, outcome: nat -> Option<string>, history: string -> Result<seq<Msg>>,
                                       parseTime: string -> Option<int>, channels: seq<string>, incident: Incident)
    ensures Keeps(st, Enrich(st, outcome, history, parseTime, channels, incident).0)
  {
    if channels != [] {
      var init := channels[..|channels| - 1];
      var c := channels[|channels| - 1];
      EnrichKeeps(st, outcome, history, parseTime, init, incident);
      var s1 := Enrich(st, outcome, history, parseTime, init, incident).0;
      var h := HistoryResult(s1, history(c), c);
      if h.Ok? {
        MessagesKeeps(s1, outcome, parseTime, c, h.value, incident);
        KeepsTrans(st, s1, Channel(s1, outcome, history, parseTime, c, incident).0);
      }
    }
  }

  lemma {:induction false} IncidentsKeeps(st: SlackState, outcome: nat -> Option<string>, history: string -> Result<seq<Msg>>,
                                          parseTime: string -> Option<int>, channels: seq<string>, incidents: seq<Incident>)
    ensures Keeps(st, Incidents(st, outcome, history, parseTime, channels, incidents).0)
  {
    if incidents != [] {
      var init := incidents[..|incidents| - 1];
      IncidentsKeeps(st, outcome, history, parseTime, channels, init);
      var s1 := Incidents(st, outcome, history, parseTime, channels, init).0;
      EnrichKeeps(s1, outcome, history, parseTime, channels, incidents[|incidents| - 1]);
      KeepsTrans(st, s1, Enrich(s1, outcome, history, parseTime, channels, incidents[|incidents| - 1]).0);
    }
  }

  /** A run never removes a reaction and only appends to the call log. */
  lemma SyncKeeps(st: SlackState, outcome: nat -> Option<string>, history: string -> Result<seq<Msg>>,
                  parseTime: string -> Option<int>, channels: seq<string>, listed: Result<seq<Incident>>)
    ensures Keeps(st, Sync(st, outcome, history, parseTime, channels, listed).0)
  {
    if listed.Ok? {
      IncidentsKeeps(st, outcome, history, parseTime, channels, Kept(None, "", listed.value));
    }
  }

  // ---- Acknowledged incidents end up marked -----------------------------

  /** The message at `ts` carries both reactions. */
  predicate Marked(st: SlackState, channel: string, ts: string) {
    EmojiFirefighter in ReactionsOn(st, channel, ts) && EmojiPagerDuty in ReactionsOn(st, channel, ts)
  }

  /** Reading the incident's first acknowledgement cannot panic. */
  predicate HasAcknowledger(incident: Incident) {
    incident.status == StatusAcknowledged ==> incident.acknowledgements != []
  }

  /** Every message's reactions, as read, are still on the message in `st`. */
  predicate ReadFrom(st: SlackState, channel: string, msgs: seq<Msg>) {
    forall k, n :: 0 <= k < |msgs| && n in msgs[k].reactions ==> n in ReactionsOn(st, channel, msgs[k].timestamp)
  }

  lemma KeepsMarked(st: SlackState, r: SlackState, channel: string, ts: string)
    requires Keeps(st, r) && Marked(st, channel, ts)
    ensures Marked(r, channel, ts)
  {
  }

  /** With no failing write, only an acknowledged incident without an acknowledgement panics. */
  lemma HandleNoPanic(st: SlackState, outcome: nat -> Option<string>, parseTime: string -> Option<int>,
                      channel: string, m: Msg, incident: Incident)
    requires AllSucceed(outcome) && HasAcknowledger(incident)
    ensures !Handle(st, outcome, parseTime, channel, m, incident).1
  {
    HandleQualifies(st, outcome, parseTime, channel, m, incident);
    EffectsCalls(st, outcome, channel, m.timestamp, m.reactions, incident);
  }

  lemma {:induction false} MessagesNoPanic(st: SlackState, outcome: nat -> Option<string>, parseTime: string -> Option<int>,
                                           channel: string, msgs: seq<Msg>, incident: Incident)
    requires AllSucceed(outcome) && HasAcknowledger(incident)
    ensures !Messages(st, outcome, parseTime, channel, msgs, incident).1
  {
    if msgs != [] {
      var init := msgs[..|msgs| - 1];
      MessagesNoPanic(st, outcome, parseTime, channel, init, incident);
      var s1 := Messages(st, outcome, parseTime, channel, init, incident).0;
      HandleNoPanic(s1, outcome, parseTime, channel, msgs[|msgs| - 1], incident);
    }
  }

  lemma {:induction false} EnrichNoPanic(st: SlackState, outcome: nat -> Option<string>, history: string -> Result<seq<Msg>>,
                                         parseTime: string -> Option<int>, channels: seq<string>, incident: Incident)
    requires AllSucceed(outcome) && HasAcknowledger(incident)
    ensures !Enrich(st, outcome, history, parseTime, channels, incident).1
  {
    if channels != [] {
      var init := channels[..|channels| - 1];
      var c := channels[|channels| - 1];
      EnrichNoPanic(st, outcome, history, parseTime, init, incident);
      var s1 := Enrich(st, outcome, history, parseTime, init, incident).0;
      var h := HistoryResult(s1, history(c), c);
      if h.Ok? {
        MessagesNoPanic(s1, outcome, parseTime, c, h.value, incident);
      }
    }
  }

  lemma {:induction false} IncidentsNoPanic(st: SlackState, outcome: nat -> Option<string>, history: string -> Result<seq<Msg>>,
                                            parseTime: string -> Option<int>, channels: seq<string>, incidents: seq<Incident>)
    requires AllSucceed(outcome)
    requires forall i :: i in incidents ==> HasAcknowledger(i)
    ensures !Incidents(st, outcome, history, parseTime, channels, incidents).1
  {
    if incidents != [] {
      var init := incidents[..|incidents| - 1];
      IncidentsNoPanic(st, outcome, history, parseTime, channels, init);
      var s1 := Incidents(st, outcome, history, parseTime, channels, init).0;
      EnrichNoPanic(s1, outcome, history, parseTime, channels, incidents[|incidents| - 1]);
    }
  }

  /**
   * A message about an acknowledged incident ends up with both reactions:
   * either it had both when read (and reactions are never removed), or its
   * effects add them.
   */
  lemma HandleMarks(st: SlackState, outcome: nat -> Option<string>, parseTime: string -> Option<int>,
                    channel: string, m: Msg, incident: Incident)
    requires AllSucceed(outcome)
    requires incident.status == StatusAcknowledged && incident.acknowledgements != []
    requires Matches(parseTime, m, incident)
    requires forall n :: n in m.reactions ==> n in ReactionsOn(st, channel, m.timestamp)
    ensures Marked(Handle(st, outcome, parseTime, channel, m, incident).0, channel, m.timestamp)
  {
    HandleQualifies(st, outcome, parseTime, channel, m, incident);
    if !(EmojiFirefighter in m.reactions && EmojiPagerDuty in m.reactions) {
      AcknowledgedMatchMarked(st, outcome, channel, m.timestamp, m.reactions, incident);
    }
  }

  /** The last message of a run that has not panicked: reactions are kept, and a matching one ends up marked. */
  lemma MessagesLast(st: SlackState, outcome: nat -> Option<string>, parseTime: string -> Option<int>,
                     channel: string, msgs: seq<Msg>, incident: Incident)
    requires AllSucceed(outcome)
    requires incident.status == StatusAcknowledged && incident.acknowledgements != []
    requires msgs != [] && ReadFrom(st, channel, msgs)
    ensures var s1 := Messages(st, outcome, parseTime, channel, msgs[..|msgs| - 1], incident).0;
      var r := Messages(st, outcome, parseTime, channel, msgs, incident).0;
      && Keeps(s1, r)
      && (Matches(parseTime, msgs[|msgs| - 1], incident) ==> Marked(r, channel, msgs[|msgs| - 1].timestamp))
  {
    var init := msgs[..|msgs| - 1];
    var last := msgs[|msgs| - 1];
    MessagesNoPanic(st, outcome, parseTime, channel, init, incident);
    MessagesKeeps(st, outcome, parseTime, channel, init, incident);
    var s1 := Messages(st, outcome, parseTime, channel, init, incident).0;
    HandleKeeps(s1, outcome, parseTime, channel, last, incident);
    if Matches(parseTime, last, incident) {
      HandleMarks(s1, outcome, parseTime, channel, last, incident);
    }
  }

  /** Marks on the earlier selected messages survive into a state that keeps every reaction. */
  lemma MarkedExtend(s1: SlackState, r: SlackState, channel: string, msgs: seq<Msg>, selected: Msg -> bool)
    requires msgs != [] && Keeps(s1, r)
    requires forall k :: 0 <= k < |msgs| - 1 && selected(msgs[k]) ==> Marked(s1, channel, msgs[k].timestamp)
    requires selected(msgs[|msgs| - 1]) ==> Marked(r, channel, msgs[|msgs| - 1].timestamp)
    ensures forall k :: 0 <= k < |msgs| && selected(msgs[k]) ==> Marked(r, channel, msgs[k].timestamp)
  {
    forall k | 0 <= k < |msgs| - 1 && selected(msgs[k])
      ensures Marked(r, channel, msgs[k].timestamp)
    {
      KeepsMarked(s1, r, channel, msgs[k].timestamp);
    }
  }

  lemma {:induction false} MessagesMark(st: SlackState, outcome: nat -> Option<string>, parseTime: string -> Option<int>,
                                        channel: string, msgs: seq<Msg>, incident: Incident)
    requires AllSucceed(outcome)
    requires incident.status == StatusAcknowledged && incident.acknowledgements != []
    requires ReadFrom(st, channel, msgs)
    ensures forall k :: 0 <= k < |msgs| && Matches(parseTime, msgs[k], incident) ==>
      Marked(Messages(st, outcome, parseTime, channel, msgs, incident).0, channel, msgs[k].timestamp)
  {
    if msgs != [] {
      var init := msgs[..|msgs| - 1];
      assert ReadFrom(st, channel, init);
      MessagesMark(st, outcome, parseTime, channel, init, incident);
      assert forall k :: 0 <= k < |msgs| - 1 ==> init[k] == msgs[k];
      MessagesLast(st, outcome, parseTime, channel, msgs, incident);
      MarkedExtend(Messages(st, outcome, parseTime, channel, init, incident).0,
                   Messages(st, outcome, parseTime, channel, msgs, incident).0, channel, msgs,
                   m => Matches(parseTime, m, incident));
    }
  }

  /** Every message of a readable channel that is about the acknowledged incident ends up with both reactions. */
  lemma ChannelMarks(st: SlackState, outcome: nat -> Option<string>, history: string -> Result<seq<Msg>>,
                     parseTime: string -> Option<int>, channel: string, incident: Incident)
    requires AllSucceed(outcome)
    requires incident.status == StatusAcknowledged && incident.acknowledgements != []
    requires history(channel).Ok?
    ensures forall m :: m in history(channel).value && Matches(parseTime, m, incident) ==>
      Marked(Channel(st, outcome, history, parseTime, channel, incident).0, channel, m.timestamp)
  {
    var h := history(channel).value;
    var msgs := WithReactions(st, channel, h);
    MessagesMark(st, outcome, parseTime, channel, msgs, incident);
    forall m | m in h && Matches(parseTime, m, incident)
      ensures Marked(Channel(st, outcome, history, parseTime, channel, incident).0, channel, m.timestamp)
    {
      var k :| 0 <= k < |h| && h[k] == m;
      assert msgs[k].timestamp == m.timestamp && msgs[k].attachments == m.attachments;
      assert Matches(parseTime, msgs[k], incident);
    }
  }

  /** A channel's run never removes a reaction. */
  lemma ChannelKeeps(st: SlackState, outcome: nat -> Option<string>, history: string -> Result<seq<Msg>>,
                     parseTime: string -> Option<int>, channel: string, incident: Incident)
    ensures Keeps(st, Channel(st, outcome, history, parseTime, channel, incident).0)
  {
    var h := HistoryResult(st, history(channel), channel);
    if h.Ok? {
      MessagesKeeps(st, outcome, parseTime, channel, h.value, incident);
    }
  }

  lemma {:induction false} EnrichMarks(st: SlackState, outcome: nat -> Option<string>, history: string -> Result<seq<Msg>>,
                                       parseTime: string -> Option<int>, channels: seq<string>, incident: Incident)
    requires AllSucceed(outcome)
    requires incident.status == StatusAcknowledged && incident.acknowledgements != []
    ensures forall c, m :: c in channels && history(c).Ok? && m in history(c).value && Matches(parseTime, m, incident) ==>
      Marked(Enrich(st, outcome, history, parseTime, channels, incident).0, c, m.timestamp)
  {
    if channels != [] {
      var init := channels[..|channels| - 1];
      var last := channels[|channels| - 1];
      EnrichMarks(st, outcome, history, parseTime, init, incident);
      EnrichNoPanic(st, outcome, history, parseTime, init, incident);
      var s1 := Enrich(st, outcome, history, parseTime, init, incident).0;
      var r := Channel(s1, outcome, history, parseTime, last, incident).0;
      ChannelKeeps(s1, outcome, history, parseTime, last, incident);
      if history(last).Ok? {
        ChannelMarks(s1, outcome, history, parseTime, last, incident);
      }
      forall c, m | c in channels && history(c).Ok? && m in history(c).value && Matches(parseTime, m, incident)
        ensures Marked(r, c, m.timestamp)
      {
        if c != last {
          assert c in init;
        }
      }
    }
  }

  /** `m`, in the history of configured channel `c`, is about the acknowledged incident `i`. */
  predicate AcknowledgedMatch(parseTime: string -> Option<int>, history: string -> Result<seq<Msg>>, channels: seq<string>,
                              i: Incident, c: string, m: Msg)
  {
    i.status == StatusAcknowledged && c in channels && history(c).Ok? && m in history(c).value && Matches(parseTime, m, i)
  }

  /** The last incident of a run: reactions are kept, and if it is acknowledged its matching messages end up marked. */
  lemma IncidentsLast(st: SlackState, outcome: nat -> Option<string>, history: string -> Result<seq<Msg>>,
                      parseTime: string -> Option<int>, channels: seq<string>, incidents: seq<Incident>)
    requires AllSucceed(outcome) && incidents != []
    requires forall i :: i in incidents ==> HasAcknowledger(i)
    ensures var s1 := Incidents(st, outcome, history, parseTime, channels, incidents[..|incidents| - 1]).0;
      var r := Incidents(st, outcome, history, parseTime, channels, incidents).0;
      var last := incidents[|incidents| - 1];
      && Keeps(s1, r)
      && forall c, m :: AcknowledgedMatch(parseTime, history, channels, last, c, m) ==> Marked(r, c, m.timestamp)
  {
    var init := incidents[..|incidents| - 1];
    var last := incidents[|incidents| - 1];
    assert HasAcknowledger(last);
    IncidentsNoPanic(st, outcome, history, parseTime, channels, init);
    var s1 := Incidents(st, outcome, history, parseTime, channels, init).0;
    EnrichKeeps(s1, outcome, history, parseTime, channels, last);
    if last.status == StatusAcknowledged {
      EnrichMarks(s1, outcome, history, parseTime, channels, last);
    }
  }

  /** Marks for the earlier incidents survive into a state that keeps every reaction. */
  lemma MarkedAcross(s1: SlackState, r: SlackState, incidents: seq<Incident>,
                     about: (Incident, string, Msg) -> bool)
    requires incidents != [] && Keeps(s1, r)
    requires forall i, c, m :: i in incidents[..|incidents| - 1] && about(i, c, m) ==> Marked(s1, c, m.timestamp)
    requires forall c, m :: about(incidents[|incidents| - 1], c, m) ==> Marked(r, c, m.timestamp)
    ensures forall i, c, m :: i in incidents && about(i, c, m) ==> Marked(r, c, m.timestamp)
  {
    forall i, c, m | i in incidents && about(i, c, m)
      ensures Marked(r, c, m.timestamp)
    {
      if i in incidents[..|incidents| - 1] {
        KeepsMarked(s1, r, c, m.timestamp);
      } else {
        assert i == incidents[|incidents| - 1];
      }
    }
  }

  lemma {:induction false} IncidentsMark(st: SlackState, outcome: nat -> Option<string>, history: string -> Result<seq<Msg>>,
                                         parseTime: string -> Option<int>, channels: seq<string>, incidents: seq<Incident>)
    requires AllSucceed(outcome)
    requires forall i :: i in incidents ==> HasAcknowledger(i)
    ensures forall i, c, m :: i in incidents && AcknowledgedMatch(parseTime, history, channels, i, c, m) ==>
      Marked(Incidents(st, outcome, history, parseTime, channels, incidents).0, c, m.timestamp)
  {
    if incidents != [] {
      var init := incidents[..|incidents| - 1];
      IncidentsMark(st, outcome, history, parseTime, channels, init);
      IncidentsLast(st, outcome, history, parseTime, channels, incidents);
      MarkedAcross(Incidents(st, outcome, history, parseTime, channels, init).0,
                   Incidents(st, outcome, history, parseTime, channels, incidents).0, incidents,
                   (i, c, m) => AcknowledgedMatch(parseTime, history, channels, i, c, m));
    }
  }

  /**
   * With no failing write and an acknowledgement on every acknowledged
   * incident that is looked at, a run ends normally, and every message of
   * every readable configured channel that is about an acknowledged listed
   * incident carries both the firefighter and the `pagerduty` reaction.
   */
  lemma SyncMarksAcknowledged(st: SlackState, outcome: nat -> Option<string>, history: string -> Result<seq<Msg>>,
                              parseTime: string -> Option<int>, channels: seq<string>, listed: Result<seq<Incident>>)
    requires AllSucceed(outcome) && listed.Ok?
    requires forall i :: i in Kept(None, "", listed.value) ==> HasAcknowledger(i)
    ensures Sync(st, outcome, history, parseTime, channels, listed).1 == Done(None)
    ensures forall i, c, m :: i in listed.value && AcknowledgedMatch(parseTime, history, channels, i, c, m) ==>
      Marked(Sync(st, outcome, history, parseTime, channels, listed).0, c, m.timestamp)
  {
    var kept := Kept(None, "", listed.value);
    IncidentsNoPanic(st, outcome, history, parseTime, channels, kept);
    IncidentsMark(st, outcome, history, parseTime, channels, kept);
    forall i | i in listed.value && ParseRegionAndAlertname(i.summary).Ok?
      ensures i in kept
    {
      OnlyParsableIncidents(listed.value, i);
    }
  }
}
